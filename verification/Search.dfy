/** The bounded discovery search. A formula stands for its hash, which is taken to be collision-free. */
module Search {
  import opened Wrappers
  import opened Sequences
  import opened Vocab
  import opened StackVM

  type Formula = seq<Token>

  /** How many candidates a round had, and how many of them were evaluated. */
  datatype Round = Round(candidates: nat, evaluated: nat)
  datatype Outcome = Outcome(evaluated: seq<Formula>, rounds: seq<Round>)

  /**
   * What the search calls: whether the machine gives a candidate a value, and the next proposals (of the
   * model or of the mutation) after a round.
   */
  datatype Environment = Environment(runs: Formula -> bool, propose: (nat, seq<Formula>) -> seq<Formula>)

  predicate Canonical(f: Formula) {
    f != [] && forall i :: 0 <= i < |f| ==> IsValidToken(f[i])
  }

  /** The valid formulas in order of first appearance. */
  function FirstAppearances(candidates: seq<Formula>): (r: seq<Formula>)
    ensures Distinct(r) && |r| <= |candidates|
    ensures forall f :: f in r <==> f in candidates && Canonical(f)
  {
    if candidates == [] then []
    else
      var front, last := candidates[..|candidates| - 1], candidates[|candidates| - 1];
      assert candidates == front + [last];
      var before := FirstAppearances(front);
      if Canonical(last) && last !in before then before + [last] else before
  }

  function AtLeastOne(budget: int): nat {
    if budget > 1 then budget else 1
  }

  function Take(s: seq<Formula>, n: nat): (r: seq<Formula>)
    ensures r <= s && |r| == if |s| <= n then |s| else n
  {
    if |s| <= n then s else s[..n]
  }

  function CanonicalCandidates(candidates: seq<Formula>, budget: int): seq<Formula> {
    Take(FirstAppearances(candidates), AtLeastOne(budget))
  }

  lemma {:induction false} AppearancesExtend(candidates: seq<Formula>, i: nat)
    requires i <= |candidates|
    ensures FirstAppearances(candidates[..i]) <= FirstAppearances(candidates)
    decreases |candidates| - i
  {
    if i < |candidates| {
      assert candidates[..i + 1][..i] == candidates[..i];
      AppearancesExtend(candidates, i + 1);
    } else {
      assert candidates[..i] == candidates;
    }
  }

  /** `canonical_candidates`: stops as soon as the budget is reached. */
  method SelectCanonical(candidates: seq<Formula>, budget: int) returns (selected: seq<Formula>)
    ensures selected == CanonicalCandidates(candidates, budget)
  {
    selected := [];
    var seen: set<Formula> := {};
    for i := 0 to |candidates|
      invariant selected == FirstAppearances(candidates[..i]) && |selected| < AtLeastOne(budget)
      invariant forall f :: f in seen <==> f in selected
    {
      var candidate := candidates[i];
      assert candidates[..i + 1][..i] == candidates[..i];
      if Canonical(candidate) && candidate !in seen {
        seen := seen + {candidate};
        selected := selected + [candidate];
        if |selected| >= budget {
          AppearancesExtend(candidates, i + 1);
          return;
        }
      }
    }
    assert candidates[..|candidates|] == candidates;
  }

  /** A budget of zero still lets one candidate through; every positive budget is kept. */
  lemma BudgetExceededIff(candidates: seq<Formula>, budget: nat)
    ensures |CanonicalCandidates(candidates, budget)| > budget <==>
              budget == 0 && exists i :: 0 <= i < |candidates| && Canonical(candidates[i])
  {
    var all := FirstAppearances(candidates);
    if all != [] {
      assert all[0] in all;
    }
    if i :| 0 <= i < |candidates| && Canonical(candidates[i]) {
      assert candidates[i] in all;
    }
  }

  // ------------------------------------------------------------------ rounds

  predicate Analysable(pending: seq<Formula>) {
    forall i :: 0 <= i < |pending| ==> Lookback(pending[i]).Some?
  }

  function Running(env: Environment, pending: seq<Formula>): (r: seq<Formula>)
    ensures |r| <= |pending|
    ensures forall f :: f in r <==> f in pending && env.runs(f)
  {
    if pending == [] then []
    else
      var front, last := pending[..|pending| - 1], pending[|pending| - 1];
      assert pending == front + [last];
      Running(env, front) + if env.runs(last) then [last] else []
  }

  lemma {:induction false} RunningIsDistinct(env: Environment, pending: seq<Formula>)
    requires Distinct(pending)
    ensures Distinct(Running(env, pending))
  {
    if pending != [] {
      var front, last := pending[..|pending| - 1], pending[|pending| - 1];
      RunningIsDistinct(env, front);
      assert last !in front;
    }
  }

  /** `s[:k]`, where a negative `k` drops from the end. */
  function Slice(s: seq<Formula>, k: int): (r: seq<Formula>)
    ensures r <= s
    ensures |r| == if k >= |s| then |s| else if k >= 0 then k else if |s| + k >= 0 then |s| + k else 0
  {
    if k >= 0 then Take(s, k) else if |s| + k >= 0 then s[..|s| + k] else []
  }

  function Unseen(s: seq<Formula>, seen: set<Formula>): (r: seq<Formula>)
    ensures |r| <= |s|
    ensures forall f :: f in r <==> f in s && f !in seen
  {
    if s == [] then []
    else
      var front, last := s[..|s| - 1], s[|s| - 1];
      assert s == front + [last];
      Unseen(front, seen) + if last in seen then [] else [last]
  }

  lemma {:induction false} UnseenIsDistinct(s: seq<Formula>, seen: set<Formula>)
    requires Distinct(s)
    ensures Distinct(Unseen(s, seen))
  {
    if s != [] {
      var front, last := s[..|s| - 1], s[|s| - 1];
      UnseenIsDistinct(front, seen);
      assert last !in front;
    }
  }

  /** What the next round will try. */
  function NextPending(env: Environment, round: nat, done: seq<Formula>, seen: set<Formula>, left: int,
                       perRound: int): seq<Formula>
  {
    Unseen(Slice(CanonicalCandidates(env.propose(round, done), left), perRound), seen)
  }

  /** The rounds from number `round` on; None when the look-back analysis rejects a candidate. */
  function Rounds(env: Environment, pending: seq<Formula>, seen: set<Formula>, sofar: Outcome, round: nat, limit: nat,
                  budget: int, perRound: int): Option<Outcome>
    decreases limit + 1 - round
  {
    if round > limit then Some(sofar)
    else if !Analysable(pending) then None
    else
      var done := Running(env, pending);
      var now := Outcome(sofar.evaluated + done, sofar.rounds + [Round(|pending|, |done|)]);
      if round == limit || |now.evaluated| >= budget || done == [] then Some(now)
      else
        var next := NextPending(env, round, done, seen, budget - |now.evaluated|, perRound);
        if next == [] then Some(now)
        else Rounds(env, next, seen + Elements(next), now, round + 1, limit, budget, perRound)
  }

  /** The loop over a round's candidates; None when the look-back analysis raises. */
  method EvaluateRound(env: Environment, pending: seq<Formula>) returns (r: Option<seq<Formula>>)
    ensures r == if Analysable(pending) then Some(Running(env, pending)) else None
  {
    hide Lookback;
    var done: seq<Formula> := [];
    for i := 0 to |pending|
      invariant done == Running(env, pending[..i])
      invariant forall j :: 0 <= j < i ==> Lookback(pending[j]).Some?
    {
      assert pending[..i + 1][..i] == pending[..i];
      if Lookback(pending[i]).None? {
        return None;
      }
      if env.runs(pending[i]) {
        done := done + [pending[i]];
      }
    }
    assert pending[..|pending|] == pending;
    return Some(done);
  }

  /** `evaluate_discovery`, the loops that bound the search. */
  method EvaluateDiscovery(env: Environment, candidates: seq<Formula>, limit: nat, budget: int, perRound: int)
    returns (r: Option<Outcome>)
    ensures r == Rounds(env, candidates, Elements(candidates), Outcome([], []), 1, limit, budget, perRound)
  {
    hide NextPending;
    hide Running;
    hide Analysable;
    var evaluated: seq<Formula>, rounds: seq<Round> := [], [];
    var pending, seen := candidates, Elements(candidates);
    ghost var all := Rounds(env, candidates, seen, Outcome([], []), 1, limit, budget, perRound);
    for round := 1 to limit + 1
      invariant Rounds(env, pending, seen, Outcome(evaluated, rounds), round, limit, budget, perRound) == all
    {
      var tried := EvaluateRound(env, pending);
      if tried.None? {
        return None;
      }
      var done := tried.value;
      evaluated := evaluated + done;
      rounds := rounds + [Round(|pending|, |done|)];
      if round == limit || |evaluated| >= budget || done == [] {
        return Some(Outcome(evaluated, rounds));
      }
      pending := NextPending(env, round, done, seen, budget - |evaluated|, perRound);
      seen := seen + Elements(pending);
      if pending == [] {
        return Some(Outcome(evaluated, rounds));
      }
    }
    return Some(Outcome(evaluated, rounds));
  }

  lemma PrefixIsDistinct(r: seq<Formula>, s: seq<Formula>)
    requires r <= s && Distinct(s)
    ensures Distinct(r)
  {
  }

  lemma NextIsFresh(env: Environment, round: nat, done: seq<Formula>, seen: set<Formula>, left: int, perRound: int)
    ensures var next := NextPending(env, round, done, seen, left, perRound);
            Distinct(next) && |next| <= AtLeastOne(left) && forall f :: f in next ==> f !in seen
  {
    var proposed := env.propose(round, done);
    var chosen := CanonicalCandidates(proposed, left);
    PrefixIsDistinct(chosen, FirstAppearances(proposed));
    PrefixIsDistinct(Slice(chosen, perRound), chosen);
    UnseenIsDistinct(Slice(chosen, perRound), seen);
  }

  lemma JoinedDistinct(a: seq<Formula>, b: seq<Formula>, seen: set<Formula>)
    requires Distinct(a) && Distinct(b)
    requires (forall f :: f in a ==> f in seen) && forall f :: f in b ==> f !in seen
    ensures Distinct(a + b)
  {
    forall i, j | 0 <= i < j < |a + b| ensures (a + b)[i] != (a + b)[j] {
      if i < |a| <= j {
        assert a[i] in a && b[j - |a|] in b;
      }
    }
  }

  /** What is evaluated in a round is new, and stays within the budget. */
  lemma {:induction false} RoundsAreBounded(env: Environment, pending: seq<Formula>, before: set<Formula>,
                                            sofar: Outcome, round: nat, limit: nat, budget: int, perRound: int,
                                            bound: int)
    requires Distinct(pending) && Distinct(sofar.evaluated) && |sofar.evaluated| + |pending| <= bound && budget <= bound
    requires (forall f :: f in sofar.evaluated ==> f in before) && forall f :: f in pending ==> f !in before
    requires 1 <= round && |sofar.rounds| < round
    ensures var r := Rounds(env, pending, before + Elements(pending), sofar, round, limit, budget, perRound);
            r.Some? ==>
              && Distinct(r.value.evaluated) && |r.value.evaluated| <= bound
              && |r.value.rounds| <= (if limit < round then |sofar.rounds| else limit)
              && forall f :: f in r.value.evaluated && f !in sofar.evaluated ==> Lookback(f).Some? && env.runs(f)
    decreases limit + 1 - round
  {
    hide Lookback;
    hide NextPending;
    hide Running;
    if round <= limit && Analysable(pending) {
      var seen := before + Elements(pending);
      var done := Running(env, pending);
      var now := Outcome(sofar.evaluated + done, sofar.rounds + [Round(|pending|, |done|)]);
      RunningIsDistinct(env, pending);
      JoinedDistinct(sofar.evaluated, done, before);
      forall f | f in done ensures Lookback(f).Some? && f in seen {
        var i :| 0 <= i < |pending| && pending[i] == f;
      }
      if !(round == limit || |now.evaluated| >= budget || done == []) {
        var next := NextPending(env, round, done, seen, budget - |now.evaluated|, perRound);
        NextIsFresh(env, round, done, seen, budget - |now.evaluated|, perRound);
        if next != [] {
          RoundsAreBounded(env, next, seen, now, round + 1, limit, budget, perRound, bound);
        }
      }
    }
  }

  /**
   * The search is bounded. From distinct candidates it takes at most `limit` rounds, evaluates at most as many
   * formulas as the larger of the budget and the number it started with, and never one of them twice.
   */
  lemma SearchIsBounded(env: Environment, candidates: seq<Formula>, limit: nat, budget: int, perRound: int)
    requires Distinct(candidates)
    ensures var r := Rounds(env, candidates, Elements(candidates), Outcome([], []), 1, limit, budget, perRound);
            r.Some? ==>
              && |r.value.rounds| <= limit && Distinct(r.value.evaluated)
              && |r.value.evaluated| <= (if |candidates| > budget then |candidates| else budget)
              && forall f :: f in r.value.evaluated ==> Lookback(f).Some? && env.runs(f)
  {
    hide Rounds;
    hide Lookback;
    var bound := if |candidates| > budget then |candidates| else budget;
    assert {} + Elements(candidates) == Elements(candidates);
    RoundsAreBounded(env, candidates, {}, Outcome([], []), 1, limit, budget, perRound, bound);
  }
}
