/**
 * What the machine leaves for a program of one operator, said about the feature panels alone: no statement
 * names the function that computes the operator.
 */
module FormulaLaws {
  import opened Wrappers
  import opened Numbers
  import opened Sorting
  import opened Vocab
  import opened Ops
  import opened StackVM
  import opened WindowLaws

  /** A machine with its functions and features. */
  datatype Setting = Setting(maxTokens: nat, k: Kernel, features: Features, days: nat, n: nat)

  ghost predicate Ready(s: Setting, used: set<Feature>, tokens: nat) {
    ShapedFeatures(s.features, s.days, s.n) && used <= s.features.Keys && tokens <= s.maxTokens
  }

  ghost predicate Inside(s: Setting, t: nat, i: nat) {
    t < s.days && i < s.n
  }

  /** What the machine leaves; when it answers nothing, every cell is missing. */
  function Left(s: Setting, rpn: seq<Token>): (p: Panel)
    requires ShapedFeatures(s.features, s.days, s.n)
    ensures Shaped(p, s.days, s.n)
  {
    var r := Executed(s.maxTokens, s.k, rpn, s.features, s.days, s.n);
    if r.Some? then r.value else seq(s.days, _ => BlankColumn(s.n))
  }

  // ------------------------------------------------------------------ one operator

  lemma LeftIs(s: Setting, rpn: seq<Token>)
    requires ShapedFeatures(s.features, s.days, s.n) && 0 < |rpn| <= s.maxTokens
    requires Value(s.k, rpn, s.features, s.days, s.n).Some?
    ensures Left(s, rpn) == Value(s.k, rpn, s.features, s.days, s.n).value
  {
    hide Value;
    var v := Value(s.k, rpn, s.features, s.days, s.n).value;
    if AllMissing(v) {
      forall t | 0 <= t < s.days ensures v[t] == BlankColumn(s.n) {
      }
    }
  }

  lemma ExecNext(k: Kernel, front: seq<Token>, token: Token, features: Features, days: nat, n: nat)
    requires ShapedFeatures(features, days, n) && Exec(k, front, features, days, n).Some?
    ensures Exec(k, front + [token], features, days, n)
         == Push(k, token, Exec(k, front, features, days, n).value, features, days, n)
  {
    assert (front + [token])[..|front|] == front;
  }

  lemma PushFeature(k: Kernel, f: Feature, stack: seq<Panel>, features: Features, days: nat, n: nat)
    requires ShapedFeatures(features, days, n) && Windows(stack, days, n) && f in features
    ensures Push(k, Feat(f), stack, features, days, n) == Some(stack + [features[f]])
  {
    hide Apply;
  }

  lemma PushOperator(k: Kernel, token: Token, stack: seq<Panel>, features: Features, days: nat, n: nat)
    requires ShapedFeatures(features, days, n) && Windows(stack, days, n) && Arity(token) == Some(|stack|)
    ensures Push(k, token, stack, features, days, n) == Some([Apply(k, token, stack, days, n)])
  {
    hide Apply;
    assert stack[..0] == [] && stack[0..] == stack;
    assert [] + [Apply(k, token, stack, days, n)] == [Apply(k, token, stack, days, n)];
  }

  function Panels(s: Setting, fs: seq<Feature>): (p: seq<Panel>)
    requires forall j :: 0 <= j < |fs| ==> fs[j] in s.features
    ensures |p| == |fs| && forall j :: 0 <= j < |fs| ==> p[j] == s.features[fs[j]]
  {
    seq(|fs|, j requires 0 <= j < |fs| => s.features[fs[j]])
  }

  function Program(fs: seq<Feature>): (rpn: seq<Token>)
    ensures |rpn| == |fs| && forall j :: 0 <= j < |fs| ==> rpn[j] == Feat(fs[j])
  {
    seq(|fs|, j requires 0 <= j < |fs| => Feat(fs[j]))
  }

  lemma {:induction false} ExecFeatures(s: Setting, fs: seq<Feature>)
    requires ShapedFeatures(s.features, s.days, s.n) && forall j :: 0 <= j < |fs| ==> fs[j] in s.features
    ensures Exec(s.k, Program(fs), s.features, s.days, s.n) == Some(Panels(s, fs))
  {
    hide Push;
    if fs == [] {
      assert Program(fs) == [] && Panels(s, fs) == [];
    } else {
      var front, last := fs[..|fs| - 1], fs[|fs| - 1];
      ExecFeatures(s, front);
      assert Program(fs) == Program(front) + [Feat(last)];
      ExecNext(s.k, Program(front), Feat(last), s.features, s.days, s.n);
      PushFeature(s.k, last, Panels(s, front), s.features, s.days, s.n);
      assert Panels(s, fs) == Panels(s, front) + [s.features[last]];
    }
  }

  /** The machine leaves what the operator makes of the feature panels. */
  lemma LeavesOperator(s: Setting, fs: seq<Feature>, token: Token)
    requires ShapedFeatures(s.features, s.days, s.n) && (forall j :: 0 <= j < |fs| ==> fs[j] in s.features)
    requires |fs| + 1 <= s.maxTokens && Arity(token) == Some(|fs|)
    ensures Windows(Panels(s, fs), s.days, s.n)
    ensures Left(s, Program(fs) + [token]) == Apply(s.k, token, Panels(s, fs), s.days, s.n)
  {
    hide Push;
    hide Apply;
    ExecFeatures(s, fs);
    ExecNext(s.k, Program(fs), token, s.features, s.days, s.n);
    PushOperator(s.k, token, Panels(s, fs), s.features, s.days, s.n);
    LeftIs(s, Program(fs) + [token]);
  }

  /** The values of symbol `i` on the days `a` up to `b`. */
  function Series(x: Panel, i: nat, a: nat, b: nat, n: nat): (v: seq<Cell>)
    requires a <= b && Shaped(x, |x|, n) && i < n && b <= |x|
    ensures |v| == b - a
  {
    seq(b - a, d requires 0 <= d < b - a => x[a + d][i])
  }

  lemma OneCell(s: Setting, f: Feature, token: Token, t: nat)
    requires Ready(s, {f}, 2) && Arity(token) == Some(1) && t < s.days
    ensures Shaped(s.features[f], s.days, s.n) && Windows([s.features[f]], s.days, s.n)
    ensures Left(s, [Feat(f), token])[t] == ApplyAt(s.k, token, [s.features[f]], t, s.days, s.n)
  {
    hide Left;
    hide ApplyAt;
    LeavesOperator(s, [f], token);
    assert Program([f]) + [token] == [Feat(f), token] && Panels(s, [f]) == [s.features[f]];
  }

  lemma TwoCells(s: Setting, f: Feature, g: Feature, token: Token, t: nat)
    requires Ready(s, {f, g}, 3) && Arity(token) == Some(2) && t < s.days
    ensures Shaped(s.features[f], s.days, s.n) && Shaped(s.features[g], s.days, s.n)
    ensures Windows([s.features[f], s.features[g]], s.days, s.n)
    ensures Left(s, [Feat(f), Feat(g), token])[t]
         == ApplyAt(s.k, token, [s.features[f], s.features[g]], t, s.days, s.n)
  {
    hide Left;
    hide ApplyAt;
    LeavesOperator(s, [f, g], token);
    assert Program([f, g]) + [token] == [Feat(f), Feat(g), token];
    assert Panels(s, [f, g]) == [s.features[f], s.features[g]];
  }

  /** The cell of a binary operator. */
  lemma BinaryAt(s: Setting, f: Feature, g: Feature, op: BinaryOp, t: nat, i: nat)
    requires Ready(s, {f, g}, 3) && Inside(s, t, i)
    ensures Shaped(s.features[f], s.days, s.n) && Shaped(s.features[g], s.days, s.n)
    ensures Left(s, [Feat(f), Feat(g), Binary(op)])[t][i] == BinaryCell(op, s.features[f][t][i], s.features[g][t][i])
  {
    hide Left;
    hide BinaryCell;
    TwoCells(s, f, g, Binary(op), t);
  }

  lemma UnaryAt(s: Setting, f: Feature, op: UnaryOp, t: nat, i: nat)
    requires Ready(s, {f}, 2) && Inside(s, t, i)
    ensures Shaped(s.features[f], s.days, s.n)
    ensures Left(s, [Feat(f), Unary(op)])[t][i] == UnaryCell(s.k, op, s.features[f][t][i])
  {
    hide Left;
    hide UnaryCell;
    OneCell(s, f, Unary(op), t);
  }

  lemma CsAt(s: Setting, f: Feature, op: CsOp, t: nat, i: nat)
    requires Ready(s, {f}, 2) && Inside(s, t, i)
    ensures Shaped(s.features[f], s.days, s.n)
    ensures Left(s, [Feat(f), Cs(op)])[t][i] == CsCell(s.k, op, s.features[f][t], i)
  {
    hide Left;
    hide CsCell;
    OneCell(s, f, Cs(op), t);
  }

  /** How many days the operator's window has. */
  function Span(op: TsOp, w: nat): nat {
    if op.TsDelay? || op.TsDelta? then w + 1 else w
  }

  lemma RowOfRecent(args: seq<Panel>, j: nat, t: nat, reach: nat, days: nat, n: nat, i: nat)
    requires Windows(args, days, n) && j < |args| && reach <= t < days && i < n
    ensures Shaped(args[j], days, n)
    ensures Row(Recent(args, t, reach, days, n)[j], i) == Series(args[j], i, t - reach, t + 1, n)
  {
    var w := Recent(args, t, reach, days, n);
    forall d | 0 <= d < reach + 1 ensures Row(w[j], i)[d] == Series(args[j], i, t - reach, t + 1, n)[d] {
    }
  }

  lemma TsWindow(k: Kernel, op: TsOp, w: nat, x: Panel, t: nat, days: nat, n: nat, i: nat)
    requires Windows([x], days, n) && t < days && i < n && w in TS_WINDOWS
    ensures Shaped(x, days, n) && Span(op, w) > 0
    ensures ApplyAt(k, Ts(op, w), [x], t, days, n)[i]
         == if t + 1 < Span(op, w) then None else TsCell(k, op, Series(x, i, t + 1 - Span(op, w), t + 1, n))
  {
    hide TsCell;
    hide Series;
    hide Row;
    hide Recent;
    assert [x][0] == x;
    if t >= Reach(Ts(op, w)) {
      RowOfRecent([x], 0, t, Reach(Ts(op, w)), days, n, i);
    }
  }

  lemma TsAt(s: Setting, f: Feature, op: TsOp, w: nat, t: nat, i: nat)
    requires Ready(s, {f}, 2) && Inside(s, t, i) && w in TS_WINDOWS
    ensures Shaped(s.features[f], s.days, s.n) && Span(op, w) > 0
    ensures Left(s, [Feat(f), Ts(op, w)])[t][i]
         == if t + 1 < Span(op, w) then None
            else TsCell(s.k, op, Series(s.features[f], i, t + 1 - Span(op, w), t + 1, s.n))
  {
    hide Left;
    hide TsCell;
    hide ApplyAt;
    hide Series;
    OneCell(s, f, Ts(op, w), t);
    TsWindow(s.k, op, w, s.features[f], t, s.days, s.n, i);
  }

  lemma PairWindow(k: Kernel, op: TsPairOp, w: nat, x: Panel, y: Panel, t: nat, days: nat, n: nat, i: nat)
    requires Windows([x, y], days, n) && t < days && i < n && w in TS_WINDOWS
    ensures Shaped(x, days, n) && Shaped(y, days, n) && w > 0
    ensures ApplyAt(k, TsPair(op, w), [x, y], t, days, n)[i]
         == if t + 1 < w then None
            else PairCell(k, op, Series(x, i, t + 1 - w, t + 1, n), Series(y, i, t + 1 - w, t + 1, n))
  {
    hide PairCell;
    hide Series;
    hide Row;
    hide Recent;
    assert [x, y][0] == x && [x, y][1] == y;
    if t >= Reach(TsPair(op, w)) {
      RowOfRecent([x, y], 0, t, Reach(TsPair(op, w)), days, n, i);
      RowOfRecent([x, y], 1, t, Reach(TsPair(op, w)), days, n, i);
    }
  }

  lemma PairAt(s: Setting, f: Feature, g: Feature, op: TsPairOp, w: nat, t: nat, i: nat)
    requires Ready(s, {f, g}, 3) && Inside(s, t, i) && w in TS_WINDOWS
    ensures Shaped(s.features[f], s.days, s.n) && Shaped(s.features[g], s.days, s.n) && w > 0
    ensures Left(s, [Feat(f), Feat(g), TsPair(op, w)])[t][i]
         == if t + 1 < w then None
            else PairCell(s.k, op, Series(s.features[f], i, t + 1 - w, t + 1, s.n),
                          Series(s.features[g], i, t + 1 - w, t + 1, s.n))
  {
    hide Left;
    hide PairCell;
    hide ApplyAt;
    hide Series;
    TwoCells(s, f, g, TsPair(op, w), t);
    PairWindow(s.k, op, w, s.features[f], s.features[g], t, s.days, s.n, i);
  }

  // ------------------------------------------------------------------ cell by cell

  /** `add` and `sub`: adding back what was subtracted gives the first feature. */
  lemma SumAndDifference(s: Setting, f: Feature, g: Feature, t: nat, i: nat)
    requires Ready(s, {f, g}, 3) && Inside(s, t, i)
    ensures var x, y := s.features[f][t][i], s.features[g][t][i];
            var sum := Left(s, [Feat(f), Feat(g), Binary(Add)])[t][i];
            var difference := Left(s, [Feat(f), Feat(g), Binary(Sub)])[t][i];
            && (sum.Some? <==> x.Some? && y.Some?) && (difference.Some? <==> x.Some? && y.Some?)
            && (x.Some? && y.Some? ==> sum.value == x.value + y.value && difference.value + y.value == x.value)
  {
    hide Left;
    hide BinaryCell;
    BinaryAt(s, f, g, Add, t, i);
    BinaryAt(s, f, g, Sub, t, i);
    SumCells(s.features[f][t][i], s.features[g][t][i]);
  }

  lemma SumCells(x: Cell, y: Cell)
    ensures var sum, difference := BinaryCell(Add, x, y), BinaryCell(Sub, x, y);
            && (sum.Some? <==> x.Some? && y.Some?) && (difference.Some? <==> x.Some? && y.Some?)
            && (x.Some? && y.Some? ==> sum.value == x.value + y.value && difference.value + y.value == x.value)
  {
  }

  /** `mul` and `div`: multiplying back gives the first feature; a divisor below `EPS` gives nothing. */
  lemma ProductAndQuotient(s: Setting, f: Feature, g: Feature, t: nat, i: nat)
    requires Ready(s, {f, g}, 3) && Inside(s, t, i)
    ensures var x, y := s.features[f][t][i], s.features[g][t][i];
            var product := Left(s, [Feat(f), Feat(g), Binary(Mul)])[t][i];
            var quotient := Left(s, [Feat(f), Feat(g), Binary(Div)])[t][i];
            && (product.Some? <==> x.Some? && y.Some?)
            && (product.Some? ==> product.value == x.value * y.value)
            && (quotient.Some? <==> x.Some? && y.Some? && (y.value <= -0.000000000001 || y.value >= 0.000000000001))
            && (quotient.Some? ==> quotient.value * y.value == x.value)
  {
    hide Left;
    hide BinaryCell;
    BinaryAt(s, f, g, Mul, t, i);
    BinaryAt(s, f, g, Div, t, i);
    ProductCells(s.features[f][t][i], s.features[g][t][i]);
  }

  lemma ProductCells(x: Cell, y: Cell)
    ensures var product, quotient := BinaryCell(Mul, x, y), BinaryCell(Div, x, y);
            && (product.Some? <==> x.Some? && y.Some?)
            && (product.Some? ==> product.value == x.value * y.value)
            && (quotient.Some? <==> x.Some? && y.Some? && (y.value <= -0.000000000001 || y.value >= 0.000000000001))
            && (quotient.Some? ==> quotient.value * y.value == x.value)
  {
    if x.Some? && y.Some? && AbsOf(y.value) >= EPS {
      QuotientLaw(x.value, y.value);
    }
  }

  /** `gt` and `lt` are one exactly on the strict order and zero otherwise, also when a value is missing. */
  lemma Comparisons(s: Setting, f: Feature, g: Feature, t: nat, i: nat)
    requires Ready(s, {f, g}, 3) && Inside(s, t, i)
    ensures var x, y := s.features[f][t][i], s.features[g][t][i];
            var above := Left(s, [Feat(f), Feat(g), Binary(Gt)])[t][i];
            var below := Left(s, [Feat(f), Feat(g), Binary(Lt)])[t][i];
            && (above == Some(1.0) <==> x.Some? && y.Some? && y.value < x.value)
            && (below == Some(1.0) <==> x.Some? && y.Some? && x.value < y.value)
            && (above == Some(1.0) || above == Some(0.0)) && (below == Some(1.0) || below == Some(0.0))
  {
    hide Left;
    hide BinaryCell;
    BinaryAt(s, f, g, Gt, t, i);
    BinaryAt(s, f, g, Lt, t, i);
    ComparisonCells(s.features[f][t][i], s.features[g][t][i]);
  }

  lemma ComparisonCells(x: Cell, y: Cell)
    ensures var above, below := BinaryCell(Gt, x, y), BinaryCell(Lt, x, y);
            && (above == Some(1.0) <==> x.Some? && y.Some? && y.value < x.value)
            && (below == Some(1.0) <==> x.Some? && y.Some? && x.value < y.value)
            && (above == Some(1.0) || above == Some(0.0)) && (below == Some(1.0) || below == Some(0.0))
  {
  }

  /** `max` and `min` bound both features and are attained by one of them. */
  lemma LargerAndSmaller(s: Setting, f: Feature, g: Feature, t: nat, i: nat)
    requires Ready(s, {f, g}, 3) && Inside(s, t, i)
    ensures var x, y := s.features[f][t][i], s.features[g][t][i];
            var upper := Left(s, [Feat(f), Feat(g), Binary(Max)])[t][i];
            var lower := Left(s, [Feat(f), Feat(g), Binary(Min)])[t][i];
            && (upper.Some? <==> x.Some? && y.Some?) && (lower.Some? <==> x.Some? && y.Some?)
            && (x.Some? && y.Some? ==>
                  && upper.value >= x.value && upper.value >= y.value && (upper == x || upper == y)
                  && lower.value <= x.value && lower.value <= y.value && (lower == x || lower == y))
  {
    hide Left;
    hide BinaryCell;
    BinaryAt(s, f, g, Max, t, i);
    BinaryAt(s, f, g, Min, t, i);
    BoundCells(s.features[f][t][i], s.features[g][t][i]);
  }

  lemma BoundCells(x: Cell, y: Cell)
    ensures var upper, lower := BinaryCell(Max, x, y), BinaryCell(Min, x, y);
            && (upper.Some? <==> x.Some? && y.Some?) && (lower.Some? <==> x.Some? && y.Some?)
            && (x.Some? && y.Some? ==>
                  && upper.value >= x.value && upper.value >= y.value && (upper == x || upper == y)
                  && lower.value <= x.value && lower.value <= y.value && (lower == x || lower == y))
  {
  }

  /** `neg`, `abs`, `sign` and `signedpower`. */
  lemma UnaryLaws(s: Setting, f: Feature, t: nat, i: nat)
    requires Ready(s, {f}, 2) && Inside(s, t, i)
    ensures var x := s.features[f][t][i];
            var neg, abs := Left(s, [Feat(f), Unary(Neg)])[t][i], Left(s, [Feat(f), Unary(Abs)])[t][i];
            var sign, power := Left(s, [Feat(f), Unary(Sign)])[t][i], Left(s, [Feat(f), Unary(SignedPower)])[t][i];
            && (neg.Some? <==> x.Some?) && (abs.Some? <==> x.Some?) && (sign.Some? <==> x.Some?)
            && (power.Some? <==> x.Some?)
            && (x.Some? ==> SignLaws(x.value, neg.value, abs.value, sign.value, power.value))
  {
    hide Left;
    hide UnaryCell;
    hide SignLaws;
    UnaryAt(s, f, Neg, t, i);
    UnaryAt(s, f, Abs, t, i);
    UnaryAt(s, f, Sign, t, i);
    UnaryAt(s, f, SignedPower, t, i);
    SignsAre(s.k, s.features[f][t][i]);
  }

  /** The defining equations of the negative, the absolute value, the sign and the signed square of `x`. */
  ghost predicate SignLaws(x: real, neg: real, abs: real, sign: real, power: real) {
    && neg + x == 0.0
    && abs >= 0.0 && (abs == x || abs + x == 0.0)
    && (sign == 1.0 <==> x > 0.0) && (sign == -1.0 <==> x < 0.0) && (sign == 0.0 <==> x == 0.0)
    && (x >= 0.0 ==> power == Product(x, x)) && (x <= 0.0 ==> power + Product(x, x) == 0.0)
  }

  lemma SignsAre(k: Kernel, x: Cell)
    ensures var neg, abs := UnaryCell(k, Neg, x), UnaryCell(k, Abs, x);
            var sign, power := UnaryCell(k, Sign, x), UnaryCell(k, SignedPower, x);
            && (neg.Some? <==> x.Some?) && (abs.Some? <==> x.Some?) && (sign.Some? <==> x.Some?)
            && (power.Some? <==> x.Some?)
            && (x.Some? ==> SignLaws(x.value, neg.value, abs.value, sign.value, power.value))
  {
    if x.Some? {
      SignedSquare(x.value);
    }
  }

  /** `log` and `sqrt` are those of the machine, on their domains. */
  lemma LogAndRoot(s: Setting, f: Feature, t: nat, i: nat)
    requires Ready(s, {f}, 2) && Inside(s, t, i)
    ensures var x := s.features[f][t][i];
            var log, sqrt := Left(s, [Feat(f), Unary(Log)])[t][i], Left(s, [Feat(f), Unary(Sqrt)])[t][i];
            && (log.Some? <==> x.Some? && x.value > 0.0) && (log.Some? ==> log.value == s.k.log(x.value))
            && (sqrt.Some? <==> x.Some? && x.value >= 0.0) && (sqrt.Some? ==> sqrt.value == s.k.sqrt(x.value))
  {
    UnaryAt(s, f, Log, t, i);
    UnaryAt(s, f, Sqrt, t, i);
    hide Left;
  }

  lemma SignedSquare(x: real)
    ensures x >= 0.0 ==> SignOf(x) * x * x == Product(x, x)
    ensures x <= 0.0 ==> SignOf(x) * x * x + Product(x, x) == 0.0
  {
    if x > 0.0 {
      assert 1.0 * x * x == x * x;
    } else if x < 0.0 {
      assert -1.0 * x * x == -(x * x);
    }
  }

  /** `where` takes the side its condition names; a missing condition names the second. */
  lemma WhereLaw(s: Setting, f: Feature, g: Feature, h: Feature, t: nat, i: nat)
    requires Ready(s, {f, g, h}, 4) && Inside(s, t, i)
    ensures var condition := s.features[f][t][i];
            Left(s, [Feat(f), Feat(g), Feat(h), Where])[t][i]
            == if condition.Some? && condition.value > 0.0 then s.features[g][t][i] else s.features[h][t][i]
  {
    hide Left;
    hide ApplyAt;
    ThreeCells(s, f, g, h, t);
    WhereAt(s.k, s.features[f], s.features[g], s.features[h], t, s.days, s.n, i);
  }

  lemma ThreeCells(s: Setting, f: Feature, g: Feature, h: Feature, t: nat)
    requires Ready(s, {f, g, h}, 4) && t < s.days
    ensures Shaped(s.features[f], s.days, s.n) && Shaped(s.features[g], s.days, s.n)
    ensures Shaped(s.features[h], s.days, s.n)
    ensures Windows([s.features[f], s.features[g], s.features[h]], s.days, s.n)
    ensures Left(s, [Feat(f), Feat(g), Feat(h), Where])[t]
         == ApplyAt(s.k, Where, [s.features[f], s.features[g], s.features[h]], t, s.days, s.n)
  {
    hide Left;
    hide ApplyAt;
    LeavesOperator(s, [f, g, h], Where);
    assert Program([f, g, h]) + [Where] == [Feat(f), Feat(g), Feat(h), Where];
    assert Panels(s, [f, g, h]) == [s.features[f], s.features[g], s.features[h]];
  }

  lemma WhereAt(k: Kernel, x: Panel, y: Panel, z: Panel, t: nat, days: nat, n: nat, i: nat)
    requires Windows([x, y, z], days, n) && t < days && i < n
    ensures Shaped(x, days, n) && Shaped(y, days, n) && Shaped(z, days, n)
    ensures ApplyAt(k, Where, [x, y, z], t, days, n)[i] == WhereCell(x[t][i], y[t][i], z[t][i])
  {
    hide WhereCell;
    assert [x, y, z][0] == x && [x, y, z][1] == y && [x, y, z][2] == z;
  }

  // ------------------------------------------------------------------ over time

  /** `ts_delay_w` on day `t` is day `t - w`; `ts_delta_w` plus that value is day `t`. */
  lemma DelayAndDelta(s: Setting, f: Feature, w: nat, t: nat, i: nat)
    requires Ready(s, {f}, 2) && Inside(s, t, i) && w in TS_WINDOWS
    ensures var x := s.features[f];
            var delay, delta := Left(s, [Feat(f), Ts(TsDelay, w)])[t][i], Left(s, [Feat(f), Ts(TsDelta, w)])[t][i];
            && delay == (if t < w then None else x[t - w][i])
            && (delta.Some? <==> delay.Some? && x[t][i].Some?)
            && (delta.Some? ==> delta.value + delay.value == x[t][i].value)
  {
    hide Left;
    hide TsCell;
    TsAt(s, f, TsDelay, w, t, i);
    TsAt(s, f, TsDelta, w, t, i);
    if t >= w {
      DelayCells(s.k, Series(s.features[f], i, t - w, t + 1, s.n));
    }
  }

  lemma DelayCells(k: Kernel, v: seq<Cell>)
    requires v != []
    ensures var delay, delta, last := TsCell(k, TsDelay, v), TsCell(k, TsDelta, v), v[|v| - 1];
            && delay == v[0] && (delta.Some? <==> delay.Some? && last.Some?)
            && (delta.Some? ==> delta.value + delay.value == last.value)
  {
  }

  /** The last `w` days of a symbol. */
  function Window(s: Setting, f: Feature, w: nat, t: nat, i: nat): seq<Cell>
    requires Ready(s, {f}, 0) && Inside(s, t, i) && w <= t + 1
  {
    Series(s.features[f], i, t + 1 - w, t + 1, s.n)
  }

  ghost predicate Enough(v: seq<Cell>) {
    exists d :: 0 <= d < |v| && v[d].Some?
  }

  lemma EnoughIs(v: seq<Cell>)
    ensures Enough(v) <==> Number(v) > 0
    ensures Enough(v) <==> Present(v) != []
  {
    NothingPresent(v);
    PresentCounts(v);
    hide Number;
  }

  /**
   * `ts_mean`, `ts_sum` and `count` over the days `t - w + 1 .. t`: the mean times the number present is the
   * sum, and `count` is the number of positive values. Missing before day `w - 1` and on an empty window.
   */
  lemma MeanSumCount(s: Setting, f: Feature, w: nat, t: nat, i: nat)
    requires Ready(s, {f}, 2) && Inside(s, t, i) && w in TS_WINDOWS
    ensures var mean, sum := Left(s, [Feat(f), Ts(TsMean, w)])[t][i], Left(s, [Feat(f), Ts(TsSum, w)])[t][i];
            var count := Left(s, [Feat(f), Ts(CountPositive, w)])[t][i];
            if t + 1 < w then mean.None? && sum.None? && count.None?
            else
              var v := Window(s, f, w, t, i);
              && (mean.Some? <==> Enough(v)) && (sum.Some? <==> Enough(v)) && (count.Some? <==> Enough(v))
              && (Enough(v) ==>
                    && Product(mean.value, Number(v) as real) == Total(v)
                    && sum.value == Total(v) && count.value == Positives(v) as real)
  {
    hide Left;
    hide TsCell;
    TsAt(s, f, TsMean, w, t, i);
    TsAt(s, f, TsSum, w, t, i);
    TsAt(s, f, CountPositive, w, t, i);
    if t + 1 >= w {
      MeanSumCountAre(s.k, Window(s, f, w, t, i));
    }
    hide Enough;
    hide Number;
    hide Positives;
    hide Total;
  }

  lemma MeanSumCountAre(k: Kernel, v: seq<Cell>)
    requires v != []
    ensures var mean, sum, count := TsCell(k, TsMean, v), TsCell(k, TsSum, v), TsCell(k, CountPositive, v);
            && (mean.Some? <==> Enough(v)) && (sum.Some? <==> Enough(v)) && (count.Some? <==> Enough(v))
            && (Enough(v) ==>
                  && Product(mean.value, Number(v) as real) == Total(v)
                  && sum.value == Total(v) && count.value == Positives(v) as real)
  {
    EnoughIs(v);
    PresentCounts(v);
    PresentPositives(v);
    hide Enough;
    hide Number;
    hide Positives;
    hide Total;
    hide Present;
    if Present(v) != [] {
      MeanIs(v);
    }
    hide Mean;
  }

  /** `ts_std`: the root of the mean squared deviation from the mean. */
  lemma DeviationLaw(s: Setting, f: Feature, w: nat, t: nat, i: nat)
    requires Ready(s, {f}, 2) && Inside(s, t, i) && w in TS_WINDOWS
    ensures var deviation := Left(s, [Feat(f), Ts(TsStd, w)])[t][i];
            if t + 1 < w then deviation.None?
            else
              var v := Window(s, f, w, t, i);
              && (deviation.Some? <==> Enough(v))
              && (Enough(v) ==> Number(v) > 0 && deviation == Some(s.k.sqrt(MeanSquare(v))))
  {
    hide Left;
    hide Enough;
    hide Std;
    hide MeanSquare;
    TsAt(s, f, TsStd, w, t, i);
    if t + 1 >= w {
      var v := Window(s, f, w, t, i);
      EnoughIs(v);
      if Present(v) != [] {
        StdIs(s.k, v);
      }
    }
  }

  /** The mean squared deviation of the present values from their mean. */
  ghost function MeanSquare(v: seq<Cell>): real
    requires Number(v) > 0
  {
    Squares(v, Total(v) / Number(v) as real) / Number(v) as real
  }

  lemma StdIs(k: Kernel, v: seq<Cell>)
    requires Present(v) != []
    ensures Number(v) > 0 && Std(k, Present(v)) == k.sqrt(MeanSquare(v))
  {
    PresentCounts(v);
    hide Number;
    hide Squares;
    SquaresAre(v, Mean(Present(v)));
  }

  /** `ts_max` and `ts_min` bound the window and are attained in it. */
  lemma WindowExtremes(s: Setting, f: Feature, w: nat, t: nat, i: nat)
    requires Ready(s, {f}, 2) && Inside(s, t, i) && w in TS_WINDOWS
    ensures var upper, lower := Left(s, [Feat(f), Ts(TsMax, w)])[t][i], Left(s, [Feat(f), Ts(TsMin, w)])[t][i];
            if t + 1 < w then upper.None? && lower.None?
            else
              var v := Window(s, f, w, t, i);
              && (upper.Some? <==> Enough(v)) && (lower.Some? <==> Enough(v))
              && (Enough(v) ==>
                    && upper in v && lower in v
                    && forall d :: 0 <= d < |v| && v[d].Some? ==> lower.value <= v[d].value <= upper.value)
  {
    hide Left;
    hide TsCell;
    TsAt(s, f, TsMax, w, t, i);
    TsAt(s, f, TsMin, w, t, i);
    if t + 1 >= w {
      ExtremeCells(s.k, Window(s, f, w, t, i));
    }
    hide Enough;
  }

  lemma ExtremeCells(k: Kernel, v: seq<Cell>)
    requires v != []
    ensures var upper, lower := TsCell(k, TsMax, v), TsCell(k, TsMin, v);
            && (upper.Some? <==> Enough(v)) && (lower.Some? <==> Enough(v))
            && (Enough(v) ==>
                  && upper in v && lower in v
                  && forall d :: 0 <= d < |v| && v[d].Some? ==> lower.value <= v[d].value <= upper.value)
  {
    ExtremeIsFirst(v, true);
    ExtremeIsFirst(v, false);
    hide Extreme;
  }

  /** The window's extreme value, at its first day. */
  ghost predicate FirstExtreme(v: seq<Cell>, d: nat, largest: bool) {
    && d < |v| && v[d].Some?
    && forall e :: 0 <= e < |v| && v[e].Some? ==>
         && (if largest then v[e].value <= v[d].value else v[d].value <= v[e].value)
         && (v[e].value == v[d].value ==> d <= e)
  }

  /** `ts_argmax` and `ts_argmin` count back from day `t` to the first day with the extreme value. */
  lemma WindowArguments(s: Setting, f: Feature, w: nat, t: nat, i: nat)
    requires Ready(s, {f}, 2) && Inside(s, t, i) && w in TS_WINDOWS
    ensures var upper, lower := Left(s, [Feat(f), Ts(TsArgmax, w)])[t][i], Left(s, [Feat(f), Ts(TsArgmin, w)])[t][i];
            if t + 1 < w then upper.None? && lower.None?
            else
              var v := Window(s, f, w, t, i);
              && (upper.Some? <==> Enough(v)) && (lower.Some? <==> Enough(v))
              && (Enough(v) ==>
                    && (exists d: nat :: FirstExtreme(v, d, true) && upper.value == (w - 1 - d) as real)
                    && (exists d: nat :: FirstExtreme(v, d, false) && lower.value == (w - 1 - d) as real))
  {
    hide Left;
    hide TsCell;
    TsAt(s, f, TsArgmax, w, t, i);
    TsAt(s, f, TsArgmin, w, t, i);
    if t + 1 >= w {
      ArgumentCell(s.k, Window(s, f, w, t, i), true);
      ArgumentCell(s.k, Window(s, f, w, t, i), false);
    }
    hide Enough;
    hide FirstExtreme;
  }

  lemma ArgumentCell(k: Kernel, v: seq<Cell>, largest: bool)
    requires v != []
    ensures var r := TsCell(k, if largest then TsArgmax else TsArgmin, v);
            && (r.Some? <==> Enough(v))
            && (Enough(v) ==> exists d: nat :: FirstExtreme(v, d, largest) && r.value == (|v| - 1 - d) as real)
  {
    ExtremeIsFirst(v, largest);
    hide Extreme;
    if Enough(v) {
      assert FirstExtreme(v, Extreme(v, largest).value, largest);
    }
  }

  /** `ts_rank`: the share of the present values of the window that are at most today's. */
  lemma WindowRank(s: Setting, f: Feature, w: nat, t: nat, i: nat)
    requires Ready(s, {f}, 2) && Inside(s, t, i) && w in TS_WINDOWS
    ensures var rank, x := Left(s, [Feat(f), Ts(TsRank, w)])[t][i], s.features[f][t][i];
            if t + 1 < w then rank.None?
            else
              var v := Window(s, f, w, t, i);
              && (rank.Some? <==> x.Some?)
              && (rank.Some? ==> Product(rank.value, Number(v) as real) == AtMost(v, x.value) as real)
  {
    hide Left;
    hide RankWindow;
    hide Number;
    hide AtMost;
    TsAt(s, f, TsRank, w, t, i);
    if t + 1 >= w {
      RankIs(Window(s, f, w, t, i));
    }
  }

  /** `decay_linear`: the mean of the window with its days weighted 1 to `w`. */
  lemma DecayLaw(s: Setting, f: Feature, w: nat, t: nat, i: nat)
    requires Ready(s, {f}, 2) && Inside(s, t, i) && w in TS_WINDOWS
    ensures var decayed := Left(s, [Feat(f), Ts(DecayLinear, w)])[t][i];
            if t + 1 < w then decayed.None?
            else
              var v := Window(s, f, w, t, i);
              && (decayed.Some? <==> Enough(v)) && (Enough(v) ==> Product(decayed.value, Places(v)) == PlaceTotal(v))
  {
    hide Left;
    hide TsCell;
    hide Places;
    hide PlaceTotal;
    TsAt(s, f, DecayLinear, w, t, i);
    if t + 1 >= w {
      DecayIs(s.k, Window(s, f, w, t, i));
    }
  }

  /** `ts_cov` times the squared number of common days, and `ts_corr` times the root of both variances. */
  lemma PairLaws(s: Setting, f: Feature, g: Feature, w: nat, t: nat, i: nat)
    requires Ready(s, {f, g}, 3) && Inside(s, t, i) && w in TS_WINDOWS
    ensures var cov := Left(s, [Feat(f), Feat(g), TsPair(TsCov, w)])[t][i];
            var corr := Left(s, [Feat(f), Feat(g), TsPair(TsCorr, w)])[t][i];
            if t + 1 < w then cov.None? && corr.None?
            else
              var a, b := Window(s, f, w, t, i), Window(s, g, w, t, i);
              && (cov.Some? <==> BothNumber(a, b) >= 2)
              && (cov.Some? ==> CovarianceLaw(cov.value, a, b))
              && (corr.Some? ==> cov.Some? && CorrelationLaw(s.k, corr.value, cov.value, a, b))
              && (corr.None? && cov.Some? ==> NoCorrelation(s.k, a, b))
  {
    PairAt(s, f, g, TsCov, w, t, i);
    PairAt(s, f, g, TsCorr, w, t, i);
    hide Left;
    if t + 1 >= w {
      var a, b := Window(s, f, w, t, i), Window(s, g, w, t, i);
      PairSums(a, b);
      hide PairCell;
      PairIs(s.k, a, b);
    }
  }

  ghost predicate CovarianceLaw(c: real, a: seq<Cell>, b: seq<Cell>)
    requires |a| == |b|
  {
    var n := BothNumber(a, b) as real;
    Product(c, Product(n, n)) == Spread(a, b, TIMES, FIRST, SECOND)
  }

  /** `v` and `u` are the variances over the common days. */
  ghost predicate Variances(v: real, u: real, a: seq<Cell>, b: seq<Cell>)
    requires |a| == |b|
  {
    var n := BothNumber(a, b) as real;
    && Product(v, Product(n, n)) == Spread(a, b, FIRST_SQUARED, FIRST, FIRST)
    && Product(u, Product(n, n)) == Spread(a, b, SECOND_SQUARED, SECOND, SECOND)
  }

  function Clamped(x: real): real {
    if x >= 0.0 then x else 0.0
  }

  ghost predicate CorrelationLaw(k: Kernel, r: real, c: real, a: seq<Cell>, b: seq<Cell>)
    requires |a| == |b|
  {
    exists v, u :: Variances(v, u, a, b) && k.sqrt(Product(Clamped(v), Clamped(u))) > 0.000000000001
                   && Product(r, k.sqrt(Product(Clamped(v), Clamped(u)))) == c
  }

  ghost predicate NoCorrelation(k: Kernel, a: seq<Cell>, b: seq<Cell>)
    requires |a| == |b|
  {
    exists v, u :: Variances(v, u, a, b) && k.sqrt(Product(Clamped(v), Clamped(u))) <= 0.000000000001
  }

  lemma PairIs(k: Kernel, a: seq<Cell>, b: seq<Cell>)
    requires |a| == |b|
    ensures var cov, corr := PairCell(k, TsCov, a, b), PairCell(k, TsCorr, a, b);
            && (cov.Some? <==> BothNumber(a, b) >= 2)
            && (cov.Some? ==> CovarianceLaw(cov.value, a, b))
            && (corr.Some? ==> cov.Some? && CorrelationLaw(k, corr.value, cov.value, a, b))
            && (corr.None? && cov.Some? ==> NoCorrelation(k, a, b))
  {
    PairSums(a, b);
    var p := Pairs(a, b);
    var n := BothNumber(a, b) as real;
    hide Pairs;
    hide BothNumber;
    hide SumX;
    hide SumY;
    hide SumXX;
    hide SumYY;
    hide SumXY;
    if |p| >= 2 {
      assert Size(p) == n;
      CovarianceScaled(n, SumXY(p), SumX(p), SumY(p));
      VarianceScaled(n, SumXX(p), SumX(p));
      VarianceScaled(n, SumYY(p), SumY(p));
      hide CovarianceOf;
      hide VarianceOf;
      assert Variances(VarianceX(p), VarianceY(p), a, b);
      DenominatorIs(k, p);
      hide VarianceX;
      hide VarianceY;
      if Denominator(k, p) > EPS {
        QuotientLaw(Covariance(p), Denominator(k, p));
      }
    }
  }

  lemma DenominatorIs(k: Kernel, p: seq<(real, real)>)
    ensures Denominator(k, p) == k.sqrt(Product(Clamped(VarianceX(p)), Clamped(VarianceY(p))))
  {
    hide VarianceX;
    hide VarianceY;
    var v, u := Positive(VarianceX(p)), Positive(VarianceY(p));
    assert v == Clamped(VarianceX(p)) && u == Clamped(VarianceY(p));
    assert v * u == Product(Clamped(VarianceX(p)), Clamped(VarianceY(p)));
  }

  // ------------------------------------------------------------------ across symbols

  /** How many symbols stand at or before `i` on a day: smaller values, and equal ones in symbol order. */
  ghost function UpTo(c: Column, i: nat): nat
    requires i < |c| && c[i].Some?
  {
    |set j: nat | j < |c| && c[j].Some? && (c[j].value < c[i].value || (c[j].value == c[i].value && j <= i))|
  }

  lemma {:induction false} AheadIs(c: Column, m: nat, i: nat)
    requires m <= |c| && i < |c| && c[i].Some?
    ensures Ahead(c, m, i)
         == |set j: nat | j < m && c[j].Some? && (c[j].value < c[i].value || (c[j].value == c[i].value && j < i))|
    decreases m
  {
    var a := set j: nat | j < m && c[j].Some? && (c[j].value < c[i].value || (c[j].value == c[i].value && j < i));
    if m == 0 {
      SmallSet(a, m);
    } else {
      AheadIs(c, m - 1, i);
      var b := set j: nat | j < m - 1 && c[j].Some?
                            && (c[j].value < c[i].value || (c[j].value == c[i].value && j < i));
      if c[m - 1].Some? && (c[m - 1].value < c[i].value || (c[m - 1].value == c[i].value && m - 1 < i)) {
        assert a == b + {m - 1};
      } else {
        assert a == b;
      }
    }
  }

  lemma UpToIs(c: Column, i: nat)
    requires i < |c| && c[i].Some?
    ensures UpTo(c, i) == Ahead(c, |c|, i) + 1
  {
    AheadIs(c, |c|, i);
    var a := set j: nat | j < |c| && c[j].Some? && (c[j].value < c[i].value || (c[j].value == c[i].value && j < i));
    var b := set j: nat | j < |c| && c[j].Some? && (c[j].value < c[i].value || (c[j].value == c[i].value && j <= i));
    assert b == a + {i};
  }

  /** `cs_rank`: the share of the symbols present that stand at or before this one. */
  lemma CrossRank(s: Setting, f: Feature, t: nat, i: nat)
    requires Ready(s, {f}, 2) && Inside(s, t, i)
    ensures var rank, x := Left(s, [Feat(f), Cs(CsRank)])[t][i], s.features[f][t];
            && (rank.Some? <==> x[i].Some?)
            && (rank.Some? ==> Product(rank.value, Number(x) as real) == UpTo(x, i) as real)
  {
    hide Left;
    hide CsCell;
    hide Number;
    hide UpTo;
    CsAt(s, f, CsRank, t, i);
    RankCells(s.k, s.features[f][t], i);
  }

  lemma RankCells(k: Kernel, x: Column, i: nat)
    requires i < |x|
    ensures var rank := CsCell(k, CsRank, x, i);
            && (rank.Some? <==> x[i].Some?)
            && (rank.Some? ==> Product(rank.value, Number(x) as real) == UpTo(x, i) as real)
  {
    hide Number;
    hide UpTo;
    PresentCounts(x);
    NothingPresent(x);
    if x[i].Some? {
      UpToIs(x, i);
      QuotientLaw(UpTo(x, i) as real, Number(x) as real);
    }
  }

  /** `cs_demean`: what it takes off is the mean of the symbols present. */
  lemma CrossDemean(s: Setting, f: Feature, t: nat, i: nat)
    requires Ready(s, {f}, 2) && Inside(s, t, i)
    ensures var r, x := Left(s, [Feat(f), Cs(CsDemean)])[t][i], s.features[f][t];
            && (r.Some? <==> x[i].Some?)
            && (r.Some? ==> Product(x[i].value - r.value, Number(x) as real) == Total(x))
  {
    hide Left;
    hide CsCell;
    hide Number;
    hide Total;
    CsAt(s, f, CsDemean, t, i);
    DemeanCells(s.k, s.features[f][t], i);
  }

  lemma DemeanCells(k: Kernel, x: Column, i: nat)
    requires i < |x|
    ensures var r := CsCell(k, CsDemean, x, i);
            && (r.Some? <==> x[i].Some?)
            && (r.Some? ==> Product(x[i].value - r.value, Number(x) as real) == Total(x))
  {
    hide Number;
    hide Total;
    hide Mean;
    hide Std;
    NothingPresent(x);
    if x[i].Some? {
      MeanIs(x);
    }
  }

  /** `cs_zscore` times the deviation of the day is the demeaned value; a day without deviation gives nothing. */
  lemma CrossZscore(s: Setting, f: Feature, t: nat, i: nat)
    requires Ready(s, {f}, 2) && Inside(s, t, i)
    ensures var z, r := Left(s, [Feat(f), Cs(CsZscore)])[t][i], Left(s, [Feat(f), Cs(CsDemean)])[t][i];
            var x := s.features[f][t];
            && (x[i].Some? ==> Number(x) > 0)
            && (z.Some? <==> x[i].Some? && s.k.sqrt(MeanSquare(x)) >= 0.000000000001)
            && (z.Some? ==> r.Some? && Product(z.value, s.k.sqrt(MeanSquare(x))) == r.value)
  {
    hide Left;
    hide CsCell;
    hide MeanSquare;
    CsAt(s, f, CsZscore, t, i);
    CsAt(s, f, CsDemean, t, i);
    ZscoreCells(s.k, s.features[f][t], i);
  }

  lemma ZscoreCells(k: Kernel, x: Column, i: nat)
    requires i < |x|
    ensures var z, r := CsCell(k, CsZscore, x, i), CsCell(k, CsDemean, x, i);
            && (x[i].Some? ==> Number(x) > 0)
            && (z.Some? <==> x[i].Some? && k.sqrt(MeanSquare(x)) >= 0.000000000001)
            && (z.Some? ==> r.Some? && Product(z.value, k.sqrt(MeanSquare(x))) == r.value)
  {
    NothingPresent(x);
    if x[i].Some? {
      StdIs(k, x);
      hide Std;
      hide MeanSquare;
      hide Mean;
      if Std(k, Present(x)) >= EPS {
        QuotientLaw(x[i].value - Mean(Present(x)), Std(k, Present(x)));
      }
    }
  }

  lemma {:induction false} ShiftedTotal(x: seq<Cell>, y: seq<Cell>, m: real)
    requires |x| == |y| && forall j :: 0 <= j < |x| ==> y[j] == if x[j].Some? then Some(x[j].value - m) else None
    ensures Total(y) == Total(x) - Product(m, Number(x) as real)
  {
    hide Number;
    if x == [] {
      AtMostAll(x, 0.0);
      assert Product(m, 0.0) == 0.0;
    } else {
      var before := Number(x[..|x| - 1]) as real;
      ShiftedTotal(x[..|x| - 1], y[..|y| - 1], m);
      NumberGrows(x);
      assert Product(m, before + 1.0) == Product(m, before) + m;
    }
  }

  /** The demeaned values of a day sum to zero over the symbols present. */
  lemma DemeanedSumToZero(s: Setting, f: Feature, t: nat)
    requires Ready(s, {f}, 2) && t < s.days
    ensures Total(Left(s, [Feat(f), Cs(CsDemean)])[t]) == 0.0
  {
    hide Left;
    hide Mean;
    hide Std;
    var x, y := s.features[f][t], Left(s, [Feat(f), Cs(CsDemean)])[t];
    forall j | 0 <= j < s.n ensures y[j] == CsCell(s.k, CsDemean, x, j) {
      CsAt(s, f, CsDemean, t, j);
    }
    NothingPresent(x);
    if Present(x) == [] {
      NothingAddsUp(y);
    } else {
      MeanIs(x);
      hide Number;
      ShiftedTotal(x, y, Mean(Present(x)));
    }
  }

  lemma {:induction false} NothingAddsUp(y: seq<Cell>)
    requires forall j :: 0 <= j < |y| ==> y[j].None?
    ensures Total(y) == 0.0
  {
    if y != [] {
      NothingAddsUp(y[..|y| - 1]);
    }
  }
}
