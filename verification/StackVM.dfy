/** `StackVM` and the static look-back analysis of the programs it runs. */
module StackVM {
  import opened Wrappers
  import opened Vocab
  import opened Ops

  type Features = map<Feature, Panel>

  ghost predicate ShapedFeatures(features: Features, days: nat, n: nat) {
    forall f :: f in features ==> Shaped(features[f], days, n)
  }

  // ------------------------------------------------------------------ the virtual machine

  /** What one token does to the stack; None when the machine gives up. */
  function Push(k: Kernel, token: Token, stack: seq<Panel>, features: Features, days: nat,
                n: nat): (r: Option<seq<Panel>>)
    requires Windows(stack, days, n) && ShapedFeatures(features, days, n)
    ensures r.Some? ==> Windows(r.value, days, n)
  {
    if token.Feat? then
      if token.feature in features then Some(stack + [features[token.feature]]) else None
    else if Arity(token).None? || |stack| < Arity(token).value then None
    else
      var rest := |stack| - Arity(token).value;
      Some(stack[..rest] + [Apply(k, token, stack[rest..], days, n)])
  }

  /** The stack a program leaves. */
  function Exec(k: Kernel, rpn: seq<Token>, features: Features, days: nat, n: nat): (r: Option<seq<Panel>>)
    requires ShapedFeatures(features, days, n)
    ensures r.Some? ==> Windows(r.value, days, n)
  {
    if rpn == [] then Some([])
    else
      var before := Exec(k, rpn[..|rpn| - 1], features, days, n);
      if before.None? then None else Push(k, rpn[|rpn| - 1], before.value, features, days, n)
  }

  /** The single panel a program leaves, before the final test for an all-missing result. */
  function Value(k: Kernel, rpn: seq<Token>, features: Features, days: nat, n: nat): (r: Option<Panel>)
    requires ShapedFeatures(features, days, n)
    ensures r.Some? ==> Shaped(r.value, days, n)
  {
    var stack := Exec(k, rpn, features, days, n);
    if stack.Some? && |stack.value| == 1 then Some(stack.value[0]) else None
  }

  predicate AllMissing(p: Panel) {
    forall t, i :: 0 <= t < |p| && 0 <= i < |p[t]| ==> p[t][i].None?
  }

  /** What a machine answers: the panel, unless the program is empty or too long, gets stuck, or leaves nothing. */
  function Executed(maxTokens: nat, k: Kernel, rpn: seq<Token>, features: Features, days: nat,
                    n: nat): (r: Option<Panel>)
    requires ShapedFeatures(features, days, n)
  {
    if rpn == [] || |rpn| > maxTokens then None
    else
      var v := Value(k, rpn, features, days, n);
      if v.Some? && !AllMissing(v.value) then v else None
  }

  class Machine {
    const maxTokens: nat

    constructor (maxTokens: nat)
      ensures this.maxTokens == maxTokens
    {
      this.maxTokens := maxTokens;
    }

    /** `execute`: runs the program on a stack of panels. */
    method Execute(k: Kernel, rpn: seq<Token>, features: Features, days: nat, n: nat) returns (r: Option<Panel>)
      requires ShapedFeatures(features, days, n)
      ensures r == Executed(maxTokens, k, rpn, features, days, n)
    {
      hide Apply;
      if rpn == [] || |rpn| > maxTokens {
        return None;
      }
      var stack: seq<Panel> := [];
      for i := 0 to |rpn|
        invariant Windows(stack, days, n)
        invariant Exec(k, rpn[..i], features, days, n) == Some(stack)
      {
        var token := rpn[i];
        assert rpn[..i + 1][..i] == rpn[..i];
        ghost var next := Push(k, token, stack, features, days, n);
        assert Exec(k, rpn[..i + 1], features, days, n) == next;
        if token.Feat? {
          if token.feature !in features {
            StaysStuck(k, rpn, i + 1, features, days, n);
            return None;
          }
          stack := stack + [features[token.feature]];
        } else {
          var arity := Arity(token);
          if arity.None? || |stack| < arity.value {
            StaysStuck(k, rpn, i + 1, features, days, n);
            return None;
          }
          var arguments := stack[|stack| - arity.value..];
          stack := stack[..|stack| - arity.value];
          var result := Operate(k, token, arguments, days, n);
          stack := stack + [result];
        }
      }
      assert rpn[..|rpn|] == rpn;
      if |stack| != 1 || AllMissing(stack[0]) {
        return None;
      }
      return Some(stack[0]);
    }
  }

  /** Fills an operator's result day by day, leaving the days before the window blank. */
  method Operate(k: Kernel, token: Token, args: seq<Panel>, days: nat, n: nat) returns (p: Panel)
    requires Arity(token) == Some(|args|) && Windows(args, days, n)
    ensures p == Apply(k, token, args, days, n)
  {
    hide WindowColumn;
    var out := new Column[days](_ => BlankColumn(n));
    var reach := Reach(token);
    if reach < days {
      for t := reach to days
        invariant forall u :: 0 <= u < t ==> out[u] == ApplyAt(k, token, args, u, days, n)
        invariant forall u :: t <= u < days ==> out[u] == BlankColumn(n)
      {
        out[t] := WindowColumn(k, token, Recent(args, t, reach, days, n), n);
      }
    }
    p := out[..];
    assert p == Apply(k, token, args, days, n);
  }

  lemma {:induction false} StaysStuck(k: Kernel, rpn: seq<Token>, i: nat, features: Features, days: nat, n: nat)
    requires ShapedFeatures(features, days, n) && i <= |rpn| && Exec(k, rpn[..i], features, days, n).None?
    ensures Exec(k, rpn, features, days, n).None?
    decreases |rpn| - i
  {
    if i == |rpn| {
      assert rpn[..i] == rpn;
    } else {
      assert rpn[..i + 1][..i] == rpn[..i];
      StaysStuck(k, rpn, i + 1, features, days, n);
    }
  }

  // ------------------------------------------------------------------ the analysis

  function Largest(s: seq<nat>): nat {
    if s == [] then 0
    else
      var before, last := Largest(s[..|s| - 1]), s[|s| - 1];
      if |s| > 1 && before >= last then before else last
  }

  lemma {:induction false} LargestBounds(s: seq<nat>)
    requires s != []
    ensures forall i :: 0 <= i < |s| ==> s[i] <= Largest(s)
    ensures Largest(s) in s
  {
    if |s| > 1 {
      LargestBounds(s[..|s| - 1]);
      assert s == s[..|s| - 1] + [s[|s| - 1]];
    }
  }

  /** What one token does to the stack of look-backs. */
  function Look(token: Token, stack: seq<nat>): Option<seq<nat>> {
    if token.Feat? then Some(stack + [1])
    else if Arity(token).None? || |stack| < Arity(token).value then None
    else
      var rest := |stack| - Arity(token).value;
      Some(stack[..rest] + [Largest(stack[rest..]) + Reach(token)])
  }

  function Looks(rpn: seq<Token>): Option<seq<nat>> {
    if rpn == [] then Some([])
    else
      var before := Looks(rpn[..|rpn| - 1]);
      if before.None? then None else Look(rpn[|rpn| - 1], before.value)
  }

  /** The look-back of a program, None where the analysis raises. */
  function Lookback(rpn: seq<Token>): Option<nat> {
    var stack := Looks(rpn);
    if stack.Some? && |stack.value| == 1 then Some(if stack.value[0] > 1 then stack.value[0] else 1) else None
  }

  lemma {:induction false} StaysInvalid(rpn: seq<Token>, i: nat)
    requires i <= |rpn| && Looks(rpn[..i]).None?
    ensures Looks(rpn).None?
    decreases |rpn| - i
  {
    if i == |rpn| {
      assert rpn[..i] == rpn;
    } else {
      assert rpn[..i + 1][..i] == rpn[..i];
      StaysInvalid(rpn, i + 1);
    }
  }

  /** `_pop`, `count` times: what is left of the stack, and the largest operand. */
  method Pops(stack: seq<nat>, count: nat) returns (r: Option<(seq<nat>, nat)>)
    ensures r == if count <= |stack| then Some((stack[..|stack| - count], Largest(stack[|stack| - count..]))) else None
  {
    var rest, best := stack, 0;
    for popped := 0 to count
      invariant popped <= |stack| && rest == stack[..|stack| - popped]
      invariant best == LargestLast(stack, popped)
    {
      if rest == [] {
        return None;
      }
      var top := rest[|rest| - 1];
      rest := rest[..|rest| - 1];
      best := if popped == 0 || top > best then top else best;
    }
    LargestLastIs(stack, count);
    return Some((rest, best));
  }

  lemma LooksNext(rpn: seq<Token>, i: nat, stack: seq<nat>)
    requires i < |rpn| && Looks(rpn[..i]) == Some(stack)
    ensures Looks(rpn[..i + 1]) == Look(rpn[i], stack)
  {
    assert rpn[..i + 1][..i] == rpn[..i];
  }

  /** Replaces a token's operands by their maximum plus its reach. */
  method LookToken(token: Token, stack: seq<nat>) returns (r: Option<seq<nat>>)
    ensures r == Look(token, stack)
  {
    hide Reach;
    hide Arity;
    if token.Feat? {
      return Some(stack + [1]);
    }
    var arity := Arity(token);
    if arity.None? {
      return None;
    }
    var popped := Pops(stack, arity.value);
    if popped.None? {
      return None;
    }
    return Some(popped.value.0 + [popped.value.1 + Reach(token)]);
  }

  /** `max_lookback_from_rpn` */
  method MaxLookback(rpn: seq<Token>) returns (r: Option<nat>)
    ensures r == Lookback(rpn)
  {
    hide Look;
    var stack: seq<nat> := [];
    for i := 0 to |rpn|
      invariant Looks(rpn[..i]) == Some(stack)
    {
      LooksNext(rpn, i, stack);
      var next := LookToken(rpn[i], stack);
      if next.None? {
        StaysInvalid(rpn, i + 1);
        return None;
      }
      stack := next.value;
    }
    assert rpn[..|rpn|] == rpn;
    return if |stack| != 1 then None else Some(if stack[0] > 1 then stack[0] else 1);
  }

  /** The maximum of the last `m` elements, taken from the top down. */
  function LargestLast(s: seq<nat>, m: nat): nat
    requires m <= |s|
  {
    if m == 0 then 0
    else
      var best, top := LargestLast(s, m - 1), s[|s| - m];
      if m == 1 || top > best then top else best
  }

  lemma {:induction false} LargestLastBounds(s: seq<nat>, m: nat)
    requires 0 < m <= |s|
    ensures LargestLast(s, m) in s[|s| - m..]
    ensures forall i :: |s| - m <= i < |s| ==> s[i] <= LargestLast(s, m)
  {
    assert s[|s| - m..] == [s[|s| - m]] + s[|s| - m + 1..];
    if m > 1 {
      LargestLastBounds(s, m - 1);
    }
  }

  /** The order in which the operands are popped does not matter. */
  lemma LargestLastIs(s: seq<nat>, m: nat)
    requires m <= |s|
    ensures LargestLast(s, m) == Largest(s[|s| - m..])
  {
    var tail := s[|s| - m..];
    if m > 0 {
      LargestLastBounds(s, m);
      LargestBounds(tail);
      assert forall i :: 0 <= i < |tail| ==> tail[i] == s[|s| - m + i];
    }
  }
}
