/** When the discovery search goes on and when it ends, over every run of it. */
module SearchLaws {
  import opened Wrappers
  import opened Sequences
  import opened Vocab
  import opened StackVM
  import opened Search

  /** What is evaluated in the rounds that try these lists. */
  ghost function Joined(env: Environment, tries: seq<seq<Formula>>): seq<Formula> {
    if tries == [] then [] else Joined(env, tries[..|tries| - 1]) + Running(env, tries[|tries| - 1])
  }

  /** Everything that was tried. */
  ghost function Tried(tries: seq<seq<Formula>>): set<Formula> {
    if tries == [] then {} else Tried(tries[..|tries| - 1]) + Elements(tries[|tries| - 1])
  }

  ghost function Spent(env: Environment, tries: seq<seq<Formula>>): (r: seq<Round>)
    ensures |r| == |tries|
  {
    seq(|tries|, i requires 0 <= i < |tries| => Round(|tries[i]|, |Running(env, tries[i])|))
  }

  /** What comes after these tries: the first proposals that fit the budget, without those tried before. */
  ghost function Proposed(env: Environment, tries: seq<seq<Formula>>, budget: int, perRound: int): seq<Formula>
    requires tries != []
  {
    NextPending(env, |tries|, Running(env, tries[|tries| - 1]), Tried(tries), budget - |Joined(env, tries)|, perRound)
  }

  /** Must another round take place after these? */
  ghost predicate GoesOn(env: Environment, tries: seq<seq<Formula>>, limit: nat, budget: int, perRound: int)
    requires tries != []
  {
    && |tries| < limit && |Joined(env, tries)| < budget && Running(env, tries[|tries| - 1]) != []
    && Proposed(env, tries, budget, perRound) != []
  }

  /** Tries that begin with the candidates, each one following from those before it. */
  ghost predicate Follows(env: Environment, candidates: seq<Formula>, tries: seq<seq<Formula>>, limit: nat, budget: int,
                          perRound: int)
  {
    && tries != [] && tries[0] == candidates
    && forall i :: 0 < i < |tries| ==> FollowsAt(env, tries, i, limit, budget, perRound)
  }

  ghost predicate FollowsAt(env: Environment, tries: seq<seq<Formula>>, i: nat, limit: nat, budget: int, perRound: int)
    requires 0 < i < |tries|
  {
    && Analysable(tries[i - 1]) && GoesOn(env, tries[..i], limit, budget, perRound)
    && tries[i] == Proposed(env, tries[..i], budget, perRound)
  }

  /** The tries explain the result: all could be analysed and no other round had to follow, or the last could not. */
  ghost predicate Explains(env: Environment, candidates: seq<Formula>, tries: seq<seq<Formula>>, limit: nat,
                           budget: int, perRound: int, r: Option<Outcome>)
  {
    && Follows(env, candidates, tries, limit, budget, perRound)
    && if r.None? then !Analysable(tries[|tries| - 1])
       else
         && Analysable(tries[|tries| - 1]) && !GoesOn(env, tries, limit, budget, perRound)
         && r.value == Outcome(Joined(env, tries), Spent(env, tries))
  }

  lemma OneMoreTry(env: Environment, before: seq<seq<Formula>>, pending: seq<Formula>)
    ensures var tries := before + [pending];
            && Joined(env, tries) == Joined(env, before) + Running(env, pending)
            && Tried(tries) == Tried(before) + Elements(pending)
            && Spent(env, tries) == Spent(env, before) + [Round(|pending|, |Running(env, pending)|)]
  {
    assert (before + [pending])[..|before|] == before;
  }

  lemma FollowsOn(env: Environment, candidates: seq<Formula>, tries: seq<seq<Formula>>, limit: nat, budget: int,
                  perRound: int)
    requires Follows(env, candidates, tries, limit, budget, perRound) && Analysable(tries[|tries| - 1])
    requires GoesOn(env, tries, limit, budget, perRound)
    ensures Follows(env, candidates, tries + [Proposed(env, tries, budget, perRound)], limit, budget, perRound)
  {
    hide GoesOn;
    hide Analysable;
    hide Proposed;
    var all := tries + [Proposed(env, tries, budget, perRound)];
    forall i | 0 < i < |all| ensures FollowsAt(env, all, i, limit, budget, perRound) {
      if i < |tries| {
        assert FollowsAt(env, tries, i, limit, budget, perRound);
        assert all[..i] == tries[..i];
      } else {
        assert all[..i] == tries;
      }
    }
  }

  lemma {:induction false} RoundsAreExplained(env: Environment, candidates: seq<Formula>, before: seq<seq<Formula>>,
                                              pending: seq<Formula>, limit: nat, budget: int, perRound: int)
    returns (tries: seq<seq<Formula>>)
    requires Follows(env, candidates, before + [pending], limit, budget, perRound) && |before| < limit
    ensures Explains(env, candidates, tries, limit, budget, perRound,
                     Rounds(env, pending, Tried(before + [pending]), Outcome(Joined(env, before), Spent(env, before)),
                            |before| + 1, limit, budget, perRound))
    decreases limit - |before|
  {
    hide Analysable;
    hide Running;
    hide NextPending;
    hide Follows;
    hide Joined;
    hide Tried;
    hide Spent;
    tries := before + [pending];
    if Analysable(pending) {
      OneMoreTry(env, before, pending);
      if GoesOn(env, tries, limit, budget, perRound) {
        FollowsOn(env, candidates, tries, limit, budget, perRound);
        var next := Proposed(env, tries, budget, perRound);
        OneMoreTry(env, tries, next);
        tries := RoundsAreExplained(env, candidates, tries, next, limit, budget, perRound);
      }
    }
  }

  /**
   * The search goes on exactly as long as it must: fewer rounds than the limit take place only if the budget is
   * reached, the last round evaluated nothing, or nothing new was proposed. What is evaluated is what the rounds
   * evaluated, in order, and there is no result exactly when the last list could not be analysed.
   */
  lemma SearchIsExplained(env: Environment, candidates: seq<Formula>, limit: nat, budget: int, perRound: int)
    requires limit > 0
    ensures exists tries ::
              Explains(env, candidates, tries, limit, budget, perRound,
                       Rounds(env, candidates, Elements(candidates), Outcome([], []), 1, limit, budget, perRound))
  {
    hide Rounds;
    OneMoreTry(env, [], candidates);
    assert [] + [candidates] == [candidates];
    assert Tried([candidates]) == Elements(candidates);
    var tries := RoundsAreExplained(env, candidates, [], candidates, limit, budget, perRound);
  }

  // ------------------------------------------------------------------ the lists keep their order

  lemma {:induction false} RunningExtends(env: Environment, pending: seq<Formula>, i: nat)
    requires i <= |pending|
    ensures Running(env, pending[..i]) <= Running(env, pending)
    decreases |pending| - i
  {
    if i < |pending| {
      assert pending[..i + 1][..i] == pending[..i];
      RunningExtends(env, pending, i + 1);
    } else {
      assert pending[..i] == pending;
    }
  }

  lemma {:induction false} UnseenExtends(s: seq<Formula>, seen: set<Formula>, i: nat)
    requires i <= |s|
    ensures Unseen(s[..i], seen) <= Unseen(s, seen)
    decreases |s| - i
  {
    if i < |s| {
      assert s[..i + 1][..i] == s[..i];
      UnseenExtends(s, seen, i + 1);
    } else {
      assert s[..i] == s;
    }
  }

  /** Is the formula one of the first proposals, within the round size and the rest of the budget (at least one)? */
  ghost predicate AmongFirst(proposals: seq<Formula>, left: int, perRound: nat, f: Formula) {
    exists i :: 0 <= i < |proposals| && proposals[i] == f && i < perRound && (i < left || i == 0)
  }

  lemma SliceIs(proposals: seq<Formula>, left: int, perRound: nat, f: Formula)
    ensures f in Slice(Take(proposals, AtLeastOne(left)), perRound) <==> AmongFirst(proposals, left, perRound, f)
  {
    var chosen := Slice(Take(proposals, AtLeastOne(left)), perRound);
    assert chosen <= proposals;
    if f in chosen {
      var i :| 0 <= i < |chosen| && chosen[i] == f;
      assert proposals[i] == f;
    }
    if AmongFirst(proposals, left, perRound, f) {
      var i :| 0 <= i < |proposals| && proposals[i] == f && i < perRound && (i < left || i == 0);
      assert i < |chosen| && chosen[i] == f;
    }
  }

  /** What is proposed next: the new formulas among the first proposals that budget and round size let through. */
  lemma ProposedIs(env: Environment, tries: seq<seq<Formula>>, budget: int, perRound: nat, f: Formula)
    requires tries != []
    ensures var proposals := FirstAppearances(env.propose(|tries|, Running(env, tries[|tries| - 1])));
            f in Proposed(env, tries, budget, perRound)
            <==> f !in Tried(tries) && AmongFirst(proposals, budget - |Joined(env, tries)|, perRound, f)
  {
    hide FirstAppearances;
    hide Joined;
    hide Tried;
    hide Running;
    hide AmongFirst;
    hide Slice;
    hide Take;
    hide Unseen;
    SliceIs(FirstAppearances(env.propose(|tries|, Running(env, tries[|tries| - 1]))), budget - |Joined(env, tries)|,
            perRound, f);
  }
}
