/**
 * The look-back of a program read as an expression: one more than the largest sum of reaches on the way from the
 * root to a feature, and there is none exactly when the program is no expression.
 */
module LookbackPaths {
  import opened Wrappers
  import opened Vocab
  import opened StackVM

  datatype Expr = Read(feature: Feature) | Call(token: Token, args: seq<Expr>)

  ghost predicate WellFormed(e: Expr) {
    match e
    case Read(_) => true
    case Call(token, args) =>
      !token.Feat? && Arity(token) == Some(|args|) && forall i :: 0 <= i < |args| ==> WellFormed(args[i])
  }

  /** The tokens of an expression, operands first. */
  ghost function Postfix(e: Expr): seq<Token>
    decreases e, if e.Call? then |e.args| + 1 else 0
  {
    match e
    case Read(feature) => [Feat(feature)]
    case Call(token, args) => Operands(e, |args|) + [token]
  }

  /** The tokens of the first `m` operands. */
  ghost function Operands(e: Expr, m: nat): seq<Token>
    requires e.Call? && m <= |e.args|
    decreases e, m
  {
    if m == 0 then [] else Operands(e, m - 1) + Postfix(e.args[m - 1])
  }

  /** Is `sum` the sum of the reaches on some way from the root to a feature? */
  ghost predicate PathSum(e: Expr, sum: nat) {
    match e
    case Read(_) => sum == 0
    case Call(token, args) =>
      sum >= Reach(token) && exists i :: 0 <= i < |args| && PathSum(args[i], sum - Reach(token))
  }

  ghost predicate LargestSum(e: Expr, sum: nat) {
    PathSum(e, sum) && forall s: nat :: PathSum(e, s) ==> s <= sum
  }

  // ------------------------------------------------------------------ one expression

  ghost function Depth(e: Expr): nat {
    match e
    case Read(_) => 1
    case Call(token, args) => Largest(Depths(e)) + Reach(token)
  }

  ghost function Depths(e: Expr): (r: seq<nat>)
    requires e.Call?
    ensures |r| == |e.args|
    decreases e, 0
  {
    seq(|e.args|, i requires 0 <= i < |e.args| => Depth(e.args[i]))
  }

  lemma DepthOfCall(e: Expr)
    requires e.Call? && WellFormed(e)
    ensures e.args != [] && Depth(e) == Largest(Depths(e)) + Reach(e.token)
    ensures forall i :: 0 <= i < |e.args| ==> Depth(e.args[i]) <= Largest(Depths(e))
    ensures exists i :: 0 <= i < |e.args| && Depth(e.args[i]) == Largest(Depths(e))
  {
    LargestBounds(Depths(e));
    var i :| 0 <= i < |e.args| && Depths(e)[i] == Largest(Depths(e));
    assert Depth(e.args[i]) == Largest(Depths(e));
    forall j | 0 <= j < |e.args| ensures Depth(e.args[j]) <= Largest(Depths(e)) {
      assert Depths(e)[j] == Depth(e.args[j]);
    }
  }

  lemma CallPath(e: Expr, i: nat, s: nat)
    requires e.Call? && i < |e.args| && PathSum(e.args[i], s)
    ensures PathSum(e, s + Reach(e.token))
  {
    hide Reach;
  }

  lemma PathOfCall(e: Expr, s: nat) returns (i: nat)
    requires e.Call? && PathSum(e, s)
    ensures i < |e.args| && s >= Reach(e.token) && PathSum(e.args[i], s - Reach(e.token))
  {
    hide Reach;
    i :| i < |e.args| && PathSum(e.args[i], s - Reach(e.token));
  }

  lemma {:induction false} PathExists(e: Expr)
    requires WellFormed(e)
    ensures Depth(e) >= 1 && PathSum(e, Depth(e) - 1)
    decreases e
  {
    hide PathSum;
    if e.Call? {
      DepthOfCall(e);
      hide Reach;
      hide Arity;
      var i :| 0 <= i < |e.args| && Depth(e.args[i]) == Largest(Depths(e));
      PathExists(e.args[i]);
      CallPath(e, i, Depth(e.args[i]) - 1);
    } else {
      assert PathSum(e, 0) by { ReadPath(e); }
    }
  }

  lemma ReadPath(e: Expr)
    requires e.Read?
    ensures forall s: nat :: PathSum(e, s) <==> s == 0
  {
  }

  lemma {:induction false} NoLargerPath(e: Expr, s: nat)
    requires WellFormed(e) && PathSum(e, s)
    ensures s <= Depth(e) - 1
    decreases e
  {
    hide PathSum;
    if e.Call? {
      DepthOfCall(e);
      hide Reach;
      hide Arity;
      var j := PathOfCall(e, s);
      NoLargerPath(e.args[j], s - Reach(e.token));
    } else {
      ReadPath(e);
    }
  }

  lemma DepthIsLargest(e: Expr)
    requires WellFormed(e)
    ensures Depth(e) >= 1 && LargestSum(e, Depth(e) - 1)
  {
    hide PathSum;
    hide Depth;
    hide WellFormed;
    PathExists(e);
    forall s: nat | PathSum(e, s) ensures s <= Depth(e) - 1 {
      NoLargerPath(e, s);
    }
  }

  // ------------------------------------------------------------------ from expressions to look-backs

  lemma LooksPush(rpn: seq<Token>, token: Token)
    requires Looks(rpn).Some?
    ensures Looks(rpn + [token]) == Look(token, Looks(rpn).value)
  {
    assert (rpn + [token])[..|rpn|] == rpn;
  }

  lemma {:induction false} ExprIsPushed(rpn: seq<Token>, e: Expr)
    requires WellFormed(e) && Looks(rpn).Some?
    ensures Looks(rpn + Postfix(e)) == Some(Looks(rpn).value + [Depth(e)])
    decreases e, if e.Call? then |e.args| + 1 else 0
  {
    hide Looks;
    hide Reach;
    if e.Read? {
      LooksPush(rpn, Feat(e.feature));
    } else {
      OperandsArePushed(rpn, e, |e.args|);
      assert rpn + Postfix(e) == rpn + Operands(e, |e.args|) + [e.token];
      LooksPush(rpn + Operands(e, |e.args|), e.token);
      var stack := Looks(rpn).value + Depths(e);
      assert Depths(e)[..|e.args|] == Depths(e);
      assert stack[..|Looks(rpn).value|] == Looks(rpn).value && stack[|Looks(rpn).value|..] == Depths(e);
    }
  }

  lemma {:induction false} OperandsArePushed(rpn: seq<Token>, e: Expr, m: nat)
    requires e.Call? && WellFormed(e) && Looks(rpn).Some? && m <= |e.args|
    ensures Looks(rpn + Operands(e, m)) == Some(Looks(rpn).value + Depths(e)[..m])
    decreases e, m
  {
    hide Looks;
    hide Depth;
    if m == 0 {
      assert rpn + Operands(e, 0) == rpn;
      assert Looks(rpn).value + Depths(e)[..0] == Looks(rpn).value;
    } else {
      OperandsArePushed(rpn, e, m - 1);
      ExprIsPushed(rpn + Operands(e, m - 1), e.args[m - 1]);
      assert rpn + Operands(e, m) == rpn + Operands(e, m - 1) + Postfix(e.args[m - 1]);
      assert Looks(rpn).value + Depths(e)[..m] == Looks(rpn).value + Depths(e)[..m - 1] + [Depth(e.args[m - 1])];
    }
  }

  // ------------------------------------------------------------------ from look-backs to expressions

  ghost function PostfixOf(es: seq<Expr>): seq<Token> {
    if es == [] then [] else PostfixOf(es[..|es| - 1]) + Postfix(es[|es| - 1])
  }

  lemma {:induction false} PostfixJoin(a: seq<Expr>, b: seq<Expr>)
    ensures PostfixOf(a + b) == PostfixOf(a) + PostfixOf(b)
  {
    hide Postfix;
    if b == [] {
      assert a + b == a;
    } else {
      assert (a + b)[..|a + b| - 1] == a + b[..|b| - 1];
      PostfixJoin(a, b[..|b| - 1]);
    }
  }

  lemma {:induction false} OperandsAre(e: Expr, m: nat)
    requires e.Call? && m <= |e.args|
    ensures Operands(e, m) == PostfixOf(e.args[..m])
  {
    hide Postfix;
    if m > 0 {
      OperandsAre(e, m - 1);
      assert e.args[..m][..m - 1] == e.args[..m - 1];
    }
  }

  /** The expressions on a stack with these look-backs. */
  ghost predicate Stands(es: seq<Expr>, rpn: seq<Token>, looks: seq<nat>) {
    && PostfixOf(es) == rpn && |es| == |looks|
    && forall j :: 0 <= j < |es| ==> WellFormed(es[j]) && Depth(es[j]) == looks[j]
  }

  lemma ReadStands(es: seq<Expr>, rpn: seq<Token>, looks: seq<nat>, feature: Feature)
    requires Stands(es, rpn, looks)
    ensures Stands(es + [Read(feature)], rpn + [Feat(feature)], looks + [1])
  {
    assert (es + [Read(feature)])[..|es|] == es;
  }

  lemma CallStands(es: seq<Expr>, rpn: seq<Token>, looks: seq<nat>, token: Token, rest: nat)
    requires Stands(es, rpn, looks) && rest <= |looks| && !token.Feat? && Arity(token) == Some(|looks| - rest)
    ensures Stands(es[..rest] + [Call(token, es[rest..])], rpn + [token],
                   looks[..rest] + [Largest(looks[rest..]) + Reach(token)])
  {
    hide Arity;
    hide Reach;
    hide Postfix;
    hide PostfixOf;
    var e := Call(token, es[rest..]);
    CallIs(e, looks[rest..]);
    PostfixJoin(es[..rest], es[rest..]);
    assert es[..rest] + es[rest..] == es;
    PostfixPush(es[..rest], e);
  }

  lemma CallIs(e: Expr, looks: seq<nat>)
    requires e.Call? && !e.token.Feat? && Arity(e.token) == Some(|e.args|) && |looks| == |e.args|
    requires forall i :: 0 <= i < |e.args| ==> WellFormed(e.args[i]) && Depth(e.args[i]) == looks[i]
    ensures WellFormed(e) && Depth(e) == Largest(looks) + Reach(e.token)
    ensures Postfix(e) == PostfixOf(e.args) + [e.token]
  {
    hide Arity;
    hide Reach;
    assert Depths(e) == looks;
    assert e.args[..|e.args|] == e.args;
    OperandsAre(e, |e.args|);
  }

  lemma PostfixPush(es: seq<Expr>, e: Expr)
    ensures PostfixOf(es + [e]) == PostfixOf(es) + Postfix(e)
  {
    assert (es + [e])[..|es|] == es;
  }

  lemma {:induction false} LooksStand(rpn: seq<Token>) returns (es: seq<Expr>)
    requires Looks(rpn).Some?
    ensures Stands(es, rpn, Looks(rpn).value)
  {
    hide Stands;
    if rpn == [] {
      NothingStands();
      return [];
    }
    var front, token := rpn[..|rpn| - 1], rpn[|rpn| - 1];
    assert rpn == front + [token];
    var before := LooksStand(front);
    var looks := Looks(front).value;
    if token.Feat? {
      ReadStands(before, front, looks, token.feature);
      es := before + [Read(token.feature)];
    } else {
      var rest := |looks| - Arity(token).value;
      SameNumber(before, front, looks);
      CallStands(before, front, looks, token, rest);
      es := before[..rest] + [Call(token, before[rest..])];
    }
  }

  lemma SameNumber(es: seq<Expr>, rpn: seq<Token>, looks: seq<nat>)
    requires Stands(es, rpn, looks)
    ensures |es| == |looks|
  {
  }

  lemma NothingStands()
    ensures Stands([], [], [])
  {
  }

  // ------------------------------------------------------------------ the look-back

  /** A well-formed expression with these tokens. */
  ghost predicate Expresses(e: Expr, rpn: seq<Token>) {
    WellFormed(e) && Postfix(e) == rpn
  }

  /** The look-back is one more than the largest sum of reaches of the expression that the program is. */
  lemma LookbackIsLargestSum(rpn: seq<Token>, l: nat)
    ensures Lookback(rpn) == Some(l) <==> exists e :: Expresses(e, rpn) && l >= 1 && LargestSum(e, l - 1)
  {
    hide Looks;
    hide LargestSum;
    if Lookback(rpn) == Some(l) {
      var es := LooksStand(rpn);
      var e := es[0];
      assert es == [] + [e];
      PostfixPush([], e);
      DepthIsLargest(e);
      assert Expresses(e, rpn) && LargestSum(e, l - 1);
    }
    if e :| Expresses(e, rpn) && l >= 1 && LargestSum(e, l - 1) {
      ExprHasLookback(e, rpn);
      DepthIsLargest(e);
      LargestIsUnique(e, l - 1, Depth(e) - 1);
    }
  }

  lemma ExprHasLookback(e: Expr, rpn: seq<Token>)
    requires Expresses(e, rpn)
    ensures Lookback(rpn) == Some(Depth(e))
  {
    assert Looks([]) == Some([]);
    ExprIsPushed([], e);
    assert [] + Postfix(e) == rpn;
    hide Looks;
    DepthIsLargest(e);
  }

  lemma LargestIsUnique(e: Expr, s: nat, t: nat)
    requires LargestSum(e, s) && LargestSum(e, t)
    ensures s == t
  {
  }

  /** The analysis rejects exactly the programs that are no expression. */
  lemma RejectedIff(rpn: seq<Token>)
    ensures Lookback(rpn).None? <==> forall e :: !Expresses(e, rpn)
  {
    hide Lookback;
    hide Expresses;
    if Lookback(rpn).Some? {
      LookbackIsLargestSum(rpn, Lookback(rpn).value);
    }
    if e :| Expresses(e, rpn) {
      ExprHasLookback(e, rpn);
    }
  }
}
