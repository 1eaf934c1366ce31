/** The deterministic mutation of a factor program. */
module Mutation {
  import opened Wrappers
  import opened Vocab
  import opened StackVM

  function Replacement(token: Token): Option<Token> {
    if token == Ts(TsMean, 5) then Some(Ts(TsMean, 10))
    else if token == Ts(TsMean, 10) then Some(Ts(TsMean, 20))
    else if token == Ts(TsDelay, 3) then Some(Ts(TsDelay, 5))
    else None
  }

  /** The windows of `ts_mean` double from 5 to 20, `ts_delay` goes from 3 to 5, and nothing else is replaced. */
  lemma ReplacedIff(token: Token, other: Token)
    ensures Replacement(token) == Some(other) <==>
              || (exists w :: w in {5, 10} && token == Ts(TsMean, w) && other == Ts(TsMean, 2 * w))
              || (token == Ts(TsDelay, 3) && other == Ts(TsDelay, 5))
  {
    if Replacement(token) == Some(other) && token.ts.TsMean? {
      assert token.window in {5, 10} && other == Ts(TsMean, 2 * token.window);
    }
  }

  /** `mutate_candidate`: replaces the first replaceable token, or negates what a final `cs_rank` ranks. */
  method Mutate(rpn: seq<Token>) returns (r: Option<seq<Token>>)
    ensures r.Some? && |r.value| == |rpn| ==>
              exists i :: 0 <= i < |rpn| && Replacement(rpn[i]).Some? && r.value == rpn[i := Replacement(rpn[i]).value]
                          && forall j :: 0 <= j < i ==> Replacement(rpn[j]).None?
    ensures r.Some? && |r.value| != |rpn| ==>
              rpn != [] && rpn[|rpn| - 1] == Cs(CsRank) && r.value == rpn[..|rpn| - 1] + [Unary(Neg), Cs(CsRank)]
              && forall j :: 0 <= j < |rpn| ==> Replacement(rpn[j]).None?
    ensures r.None? <==> (forall j :: 0 <= j < |rpn| ==> Replacement(rpn[j]).None?)
                         && (rpn == [] || rpn[|rpn| - 1] != Cs(CsRank))
  {
    for i := 0 to |rpn|
      invariant forall j :: 0 <= j < i ==> Replacement(rpn[j]).None?
    {
      if Replacement(rpn[i]).Some? {
        return Some(rpn[i := Replacement(rpn[i]).value]);
      }
    }
    if rpn == [] || rpn[|rpn| - 1] != Cs(CsRank) {
      return None;
    }
    return Some(rpn[..|rpn| - 1] + [Unary(Neg)] + rpn[|rpn| - 1..]);
  }

  /** What a mutation is, as the method above specifies it. */
  ghost predicate IsMutation(rpn: seq<Token>, r: seq<Token>) {
    || (exists i :: 0 <= i < |rpn| && Replacement(rpn[i]).Some? && r == rpn[i := Replacement(rpn[i]).value])
    || (rpn != [] && rpn[|rpn| - 1] == Cs(CsRank) && r == rpn[..|rpn| - 1] + [Unary(Neg), Cs(CsRank)])
  }

  /** Stacks of look-backs that differ by at most `d`. */
  ghost predicate Between(a: seq<nat>, b: seq<nat>, d: nat) {
    |a| == |b| && forall i :: 0 <= i < |a| ==> a[i] <= b[i] <= a[i] + d
  }

  lemma {:induction false} LargestBetween(a: seq<nat>, b: seq<nat>, d: nat)
    requires Between(a, b, d)
    ensures Largest(a) <= Largest(b) <= Largest(a) + d
  {
    if a != [] {
      LargestBetween(a[..|a| - 1], b[..|b| - 1], d);
    }
  }

  ghost predicate SameOutcome(a: Option<seq<nat>>, b: Option<seq<nat>>, d: nat) {
    (a.Some? <==> b.Some?) && (a.Some? ==> Between(a.value, b.value, d))
  }

  lemma BetweenParts(a: seq<nat>, b: seq<nat>, d: nat, rest: nat)
    requires Between(a, b, d) && rest <= |a|
    ensures |a| == |b| && Between(a[..rest], b[..rest], d) && Between(a[rest..], b[rest..], d)
  {
  }

  lemma BetweenPush(a: seq<nat>, b: seq<nat>, d: nat, e: nat, x: nat, y: nat)
    requires Between(a, b, d) && d <= e && x <= y <= x + e
    ensures Between(a + [x], b + [y], e)
  {
  }

  /** A token with at least the reach of another, and at most `extra` more, on stacks that differ by at most `d`. */
  lemma LookBetween(token: Token, other: Token, a: seq<nat>, b: seq<nat>, d: nat, extra: nat)
    requires Between(a, b, d) && Arity(token) == Arity(other) && (token.Feat? <==> other.Feat?)
    requires Reach(token) <= Reach(other) <= Reach(token) + extra
    ensures SameOutcome(Look(token, a), Look(other, b), d + extra)
  {
    hide Reach;
    hide Arity;
    hide Between;
    hide Largest;
    BetweenParts(a, b, d, 0);
    if token.Feat? {
      BetweenPush(a, b, d, d + extra, 1, 1);
    } else if Arity(token).Some? && Arity(token).value <= |a| {
      var rest := |a| - Arity(token).value;
      BetweenParts(a, b, d, rest);
      LargestBetween(a[rest..], b[rest..], d);
      BetweenPush(a[..rest], b[..rest], d, d + extra, Largest(a[rest..]) + Reach(token),
                  Largest(b[rest..]) + Reach(other));
    }
  }

  lemma ReplacementReach(token: Token)
    requires Replacement(token).Some?
    ensures var other := Replacement(token).value;
            && Arity(token) == Arity(other) == Some(1) && !token.Feat? && !other.Feat?
            && Reach(token) < Reach(other) <= Reach(token) + 10 && IsValidToken(other)
  {
  }

  lemma {:induction false} LooksReplaced(rpn: seq<Token>, i: nat)
    requires i < |rpn| && Replacement(rpn[i]).Some?
    ensures SameOutcome(Looks(rpn), Looks(rpn[i := Replacement(rpn[i]).value]), 10)
  {
    hide Look;
    hide Reach;
    hide Arity;
    var n, token := |rpn|, Replacement(rpn[i]).value;
    var r := rpn[i := token];
    var front := rpn[..n - 1];
    if i == n - 1 {
      assert r[..n - 1] == front;
      ReplacementReach(rpn[i]);
      if Looks(front).Some? {
        LookBetween(rpn[i], token, Looks(front).value, Looks(front).value, 0, 10);
      }
    } else {
      assert r[..n - 1] == front[i := token];
      LooksReplaced(front, i);
      if Looks(front).Some? {
        LookBetween(rpn[n - 1], rpn[n - 1], Looks(front).value, Looks(front[i := token]).value, 10, 0);
      }
    }
  }

  lemma UnaryKeepsStack(token: Token, stack: seq<nat>)
    requires token == Unary(Neg) || token == Cs(CsRank)
    ensures Look(token, stack) == if stack == [] then None else Some(stack)
  {
    if stack != [] {
      var last := stack[|stack| - 1];
      assert stack[|stack| - 1..] == [last] && Largest([last]) == last;
      assert stack == stack[..|stack| - 1] + [last];
    }
  }

  lemma LooksNegated(rpn: seq<Token>)
    requires rpn != [] && rpn[|rpn| - 1] == Cs(CsRank)
    ensures Looks(rpn[..|rpn| - 1] + [Unary(Neg), Cs(CsRank)]) == Looks(rpn)
  {
    hide Look;
    var front := rpn[..|rpn| - 1];
    var inner := front + [Unary(Neg)];
    var r := front + [Unary(Neg), Cs(CsRank)];
    assert inner[..|inner| - 1] == front && r[..|r| - 1] == inner;
    if Looks(front).Some? {
      UnaryKeepsStack(Unary(Neg), Looks(front).value);
      UnaryKeepsStack(Cs(CsRank), Looks(front).value);
    }
  }

  /** Mutation keeps well-formedness in both directions and lengthens the look-back by at most ten days. */
  lemma MutationKeepsLookback(rpn: seq<Token>, r: seq<Token>)
    requires IsMutation(rpn, r)
    ensures Lookback(r).Some? <==> Lookback(rpn).Some?
    ensures Lookback(rpn).Some? ==> Lookback(rpn).value <= Lookback(r).value <= Lookback(rpn).value + 10
    ensures (forall i :: 0 <= i < |rpn| ==> IsValidToken(rpn[i])) ==> forall i :: 0 <= i < |r| ==> IsValidToken(r[i])
  {
    hide Looks;
    if i :| 0 <= i < |rpn| && Replacement(rpn[i]).Some? && r == rpn[i := Replacement(rpn[i]).value] {
      LooksReplaced(rpn, i);
      ReplacementReach(rpn[i]);
    } else {
      LooksNegated(rpn);
    }
  }

  /** A mutant of an admissible program is too long exactly when a full program had to be lengthened. */
  lemma MutationLength(rpn: seq<Token>, r: seq<Token>)
    requires IsMutation(rpn, r) && |rpn| <= MAX_FORMULA_TOKENS
    ensures |r| > MAX_FORMULA_TOKENS <==> |rpn| == MAX_FORMULA_TOKENS && |r| != |rpn|
  {
  }
}
