/**
 * The operators of the factor language. A panel is a sequence of day columns with one cell per symbol;
 * a missing value (NaN) is `None`. Arithmetic is exact, and `log` and `sqrt` are parameters.
 */
module Ops {
  import opened Wrappers
  import opened Numbers
  import opened Sorting
  import opened Vocab

  type Column = seq<Cell>
  type Panel = seq<Column>

  /** The transcendental functions the operators call. */
  datatype Kernel = Kernel(log: real -> real, sqrt: real -> real)

  const EPS: real := 0.000000000001

  ghost predicate Shaped(p: Panel, days: nat, n: nat) {
    |p| == days && forall t :: 0 <= t < days ==> |p[t]| == n
  }

  function BlankColumn(n: nat): (c: Column)
    ensures |c| == n
  {
    seq(n, _ => None)
  }

  // ------------------------------------------------------------------ one symbol, one window

  /** The values that are present, in order. */
  function Present(v: seq<Cell>): (r: seq<real>)
    ensures |r| <= |v|
  {
    if v == [] then []
    else Present(v[..|v| - 1]) + if v[|v| - 1].Some? then [v[|v| - 1].value] else []
  }

  function Mean(s: seq<real>): real
    requires s != []
  {
    Sum(s) / |s| as real
  }

  function SquaredDeviations(s: seq<real>, mean: real): seq<real> {
    seq(|s|, i requires 0 <= i < |s| => (s[i] - mean) * (s[i] - mean))
  }

  function Std(k: Kernel, s: seq<real>): real
    requires s != []
  {
    k.sqrt(Mean(SquaredDeviations(s, Mean(s))))
  }

  /** The first index of the largest (or smallest) present value. */
  function Extreme(v: seq<Cell>, largest: bool): (r: Option<nat>)
    ensures r.Some? ==> r.value < |v| && v[r.value].Some?
  {
    if v == [] then None
    else
      var front, last := v[..|v| - 1], v[|v| - 1];
      var best := Extreme(front, largest);
      if last.None? then best
      else if best.None? then Some(|front|)
      else if if largest then last.value > v[best.value].value else last.value < v[best.value].value then Some(|front|)
      else best
  }

  /** `argmax` and `argmin` with missing values masked: no value beats the chosen one, and no earlier one ties it. */
  lemma {:induction false} ExtremeIsFirst(v: seq<Cell>, largest: bool)
    ensures Extreme(v, largest).None? <==> forall i :: 0 <= i < |v| ==> v[i].None?
    ensures Extreme(v, largest).Some? ==>
              var best := Extreme(v, largest).value;
              forall i :: 0 <= i < |v| && v[i].Some? && i != best ==>
                if largest then v[i].value < v[best].value || (v[i].value == v[best].value && best < i)
                else v[i].value > v[best].value || (v[i].value == v[best].value && best < i)
  {
    if v != [] {
      var front := v[..|v| - 1];
      ExtremeIsFirst(front, largest);
      assert forall i :: 0 <= i < |front| ==> front[i] == v[i];
    }
  }

  function WeightTotal(v: seq<Cell>): (w: real)
    ensures w >= 0.0
  {
    if v == [] then 0.0 else WeightTotal(v[..|v| - 1]) + if v[|v| - 1].Some? then |v| as real else 0.0
  }

  function WeightedSum(v: seq<Cell>): real {
    if v == [] then 0.0
    else WeightedSum(v[..|v| - 1]) + if v[|v| - 1].Some? then v[|v| - 1].value * |v| as real else 0.0
  }

  function CountAbove(s: seq<real>, x: real): nat {
    |s| - CountLe(s, x)
  }

  /** `_rank_window`: the share of present values that are at most the current one. */
  function RankWindow(v: seq<Cell>): Cell
    requires v != []
  {
    var current := v[|v| - 1];
    if current.None? then None
    else Some(CountLe(Present(v), current.value) as real / (if Present(v) == [] then 1 else |Present(v)|) as real)
  }

  /** One time-series operator on one symbol's window, the current day last. */
  function TsCell(k: Kernel, op: TsOp, v: seq<Cell>): Cell
    requires v != []
  {
    var s := Present(v);
    match op
    case TsMean => if s == [] then None else Some(Mean(s))
    case TsStd => if s == [] then None else Some(Std(k, s))
    case TsMax => (var i := Extreme(v, true); if i.None? then None else v[i.value])
    case TsMin => (var i := Extreme(v, false); if i.None? then None else v[i.value])
    case TsDelta => Minus(v[|v| - 1], v[0])
    case TsDelay => v[0]
    case TsRank => RankWindow(v)
    case TsSum => if s == [] then None else Some(Sum(s))
    case DecayLinear =>
      if WeightTotal(v) > 0.0
      then Some(WeightedSum(v) / (if WeightTotal(v) > 1.0 then WeightTotal(v) else 1.0))
      else None
    case TsArgmax => (var i := Extreme(v, true); if i.None? then None else Some((|v| - 1 - i.value) as real))
    case TsArgmin => (var i := Extreme(v, false); if i.None? then None else Some((|v| - 1 - i.value) as real))
    case CountPositive => if s == [] then None else Some(CountAbove(s, 0.0) as real)
  }

  function Minus(x: Cell, y: Cell): Cell {
    if x.Some? && y.Some? then Some(x.value - y.value) else None
  }

  // ------------------------------------------------------------------ pairs of series

  /** The days on which both series are present. */
  function Pairs(a: seq<Cell>, b: seq<Cell>): (r: seq<(real, real)>)
    requires |a| == |b|
  {
    if a == [] then []
    else
      var x, y := a[|a| - 1], b[|b| - 1];
      Pairs(a[..|a| - 1], b[..|b| - 1]) + if x.Some? && y.Some? then [(x.value, y.value)] else []
  }

  function SumX(p: seq<(real, real)>): real {
    if p == [] then 0.0 else SumX(p[..|p| - 1]) + p[|p| - 1].0
  }

  function SumY(p: seq<(real, real)>): real {
    if p == [] then 0.0 else SumY(p[..|p| - 1]) + p[|p| - 1].1
  }

  function SumXX(p: seq<(real, real)>): real {
    if p == [] then 0.0 else SumXX(p[..|p| - 1]) + p[|p| - 1].0 * p[|p| - 1].0
  }

  function SumYY(p: seq<(real, real)>): real {
    if p == [] then 0.0 else SumYY(p[..|p| - 1]) + p[|p| - 1].1 * p[|p| - 1].1
  }

  function SumXY(p: seq<(real, real)>): real {
    if p == [] then 0.0 else SumXY(p[..|p| - 1]) + p[|p| - 1].0 * p[|p| - 1].1
  }

  function Size(p: seq<(real, real)>): (n: real)
    ensures n >= 1.0
  {
    (if |p| > 1 then |p| else 1) as real
  }

  function CovarianceOf(n: real, sxy: real, sx: real, sy: real): real
    requires n > 0.0
  {
    sxy / n - sx * sy / (n * n)
  }

  function VarianceOf(n: real, squares: real, sum: real): real
    requires n > 0.0
  {
    squares / n - (sum / n) * (sum / n)
  }

  function Covariance(p: seq<(real, real)>): real {
    CovarianceOf(Size(p), SumXY(p), SumX(p), SumY(p))
  }

  function VarianceX(p: seq<(real, real)>): real {
    VarianceOf(Size(p), SumXX(p), SumX(p))
  }

  function VarianceY(p: seq<(real, real)>): real {
    VarianceOf(Size(p), SumYY(p), SumY(p))
  }

  function Positive(x: real): real {
    if x > 0.0 then x else 0.0
  }

  function Denominator(k: Kernel, p: seq<(real, real)>): real {
    k.sqrt(Positive(VarianceX(p)) * Positive(VarianceY(p)))
  }

  function PairCell(k: Kernel, op: TsPairOp, a: seq<Cell>, b: seq<Cell>): Cell
    requires |a| == |b|
  {
    var p := Pairs(a, b);
    if |p| < 2 then None
    else if op.TsCov? then Some(Covariance(p))
    else if Denominator(k, p) > EPS then Some(Covariance(p) / Denominator(k, p))
    else None
  }

  // ------------------------------------------------------------------ one day, all symbols

  /** The symbols that have a value on this day. */
  function PresentSymbols(c: Column, n: nat): (r: seq<nat>)
    requires n <= |c|
    ensures |r| == |Present(c[..n])|
    ensures forall i :: 0 <= i < |r| ==> r[i] < n && c[r[i]].Some? && Present(c[..n])[i] == c[r[i]].value
  {
    if n == 0 then []
    else
      assert c[..n][..n - 1] == c[..n - 1];
      PresentSymbols(c, n - 1) + if c[n - 1].Some? then [n - 1] else []
  }

  /** The number of symbols among the first `n` that stand before symbol `i` on this day. */
  function Ahead(c: Column, n: nat, i: nat): (r: nat)
    requires n <= |c| && i < |c| && c[i].Some?
    ensures r <= n
  {
    if n == 0 then 0
    else
      Ahead(c, n - 1, i)
      + if c[n - 1].Some? && (c[n - 1].value < c[i].value || (c[n - 1].value == c[i].value && n - 1 < i)) then 1 else 0
  }

  /** The ordinal rank as a share of the symbols present; ties are ranked in symbol order. */
  function CsRankCell(c: Column, i: nat): Cell
    requires i < |c|
  {
    if c[i].None? || Present(c) == [] then None
    else Some((Ahead(c, |c|, i) + 1) as real / |Present(c)| as real)
  }

  function CsCell(k: Kernel, op: CsOp, c: Column, i: nat): Cell
    requires i < |c|
  {
    if op.CsRank? then CsRankCell(c, i)
    else if c[i].None? || Present(c) == [] then None
    else
      var s := Present(c);
      var centred := c[i].value - Mean(s);
      if op.CsDemean? then Some(centred)
      else if Std(k, s) < EPS then None
      else Some(centred / Std(k, s))
  }

  // ------------------------------------------------------------------ one cell

  function SignOf(x: real): real {
    if x > 0.0 then 1.0 else if x < 0.0 then -1.0 else 0.0
  }

  function UnaryCell(k: Kernel, op: UnaryOp, x: Cell): Cell {
    if x.None? then None
    else
      var v := x.value;
      match op
      case Neg => Some(-v)
      case Abs => Some(AbsOf(v))
      case Log => if v > 0.0 then Some(k.log(v)) else None
      case Sqrt => if v >= 0.0 then Some(k.sqrt(v)) else None
      case Sign => Some(SignOf(v))
      case SignedPower => Some(SignOf(v) * v * v)
  }

  /** Comparisons with a missing value are false, hence 0; every other operator propagates it. */
  function BinaryCell(op: BinaryOp, x: Cell, y: Cell): Cell {
    if x.None? || y.None? then if op.Gt? || op.Lt? then Some(0.0) else None
    else
      var a, b := x.value, y.value;
      match op
      case Add => Some(a + b)
      case Sub => Some(a - b)
      case Mul => Some(a * b)
      case Div => if AbsOf(b) < EPS then None else Some(a / b)
      case Gt => Some(if a > b then 1.0 else 0.0)
      case Lt => Some(if a < b then 1.0 else 0.0)
      case Max => Some(if a >= b then a else b)
      case Min => Some(if a <= b then a else b)
  }

  function WhereCell(condition: Cell, left: Cell, right: Cell): Cell {
    if condition.Some? && condition.value > 0.0 then left else right
  }

  // ------------------------------------------------------------------ whole panels

  function Row(w: seq<Column>, i: nat): (r: seq<Cell>)
    requires forall t :: 0 <= t < |w| ==> i < |w[t]|
    ensures |r| == |w|
  {
    seq(|w|, t requires 0 <= t < |w| => w[t][i])
  }

  ghost predicate Windows(args: seq<seq<Column>>, days: nat, n: nat) {
    forall j :: 0 <= j < |args| ==> Shaped(args[j], days, n)
  }

  /** An operator's column for the current day, from the last `Reach + 1` columns of its arguments. */
  function WindowColumn(k: Kernel, token: Token, args: seq<seq<Column>>, n: nat): (c: Column)
    requires Arity(token) == Some(|args|) && Windows(args, Reach(token) + 1, n)
    ensures |c| == n
  {
    match token
    case Ts(op, _) => seq(n, i requires 0 <= i < n => TsCell(k, op, Row(args[0], i)))
    case TsPair(op, _) => seq(n, i requires 0 <= i < n => PairCell(k, op, Row(args[0], i), Row(args[1], i)))
    case Cs(op) => seq(n, i requires 0 <= i < n => CsCell(k, op, args[0][0], i))
    case Unary(op) => seq(n, i requires 0 <= i < n => UnaryCell(k, op, args[0][0][i]))
    case Binary(op) => seq(n, i requires 0 <= i < n => BinaryCell(op, args[0][0][i], args[1][0][i]))
    case Where => seq(n, i requires 0 <= i < n => WhereCell(args[0][0][i], args[1][0][i], args[2][0][i]))
  }

  function Recent(args: seq<Panel>, t: nat, reach: nat, days: nat, n: nat): (w: seq<seq<Column>>)
    requires Windows(args, days, n) && reach <= t < days
    ensures |w| == |args| && Windows(w, reach + 1, n)
    ensures forall j :: 0 <= j < |args| ==> w[j] == args[j][t - reach..t + 1]
  {
    seq(|args|, j requires 0 <= j < |args| => args[j][t - reach..t + 1])
  }

  /** Day `t` of an operator's result: missing until enough days have passed. */
  function ApplyAt(k: Kernel, token: Token, args: seq<Panel>, t: nat, days: nat, n: nat): (c: Column)
    requires Arity(token) == Some(|args|) && Windows(args, days, n) && t < days
    ensures |c| == n
  {
    if t < Reach(token) then BlankColumn(n)
    else WindowColumn(k, token, Recent(args, t, Reach(token), days, n), n)
  }

  function Apply(k: Kernel, token: Token, args: seq<Panel>, days: nat, n: nat): (p: Panel)
    requires Arity(token) == Some(|args|) && Windows(args, days, n)
    ensures Shaped(p, days, n)
    ensures forall t :: 0 <= t < days ==> p[t] == ApplyAt(k, token, args, t, days, n)
  {
    seq(days, t requires 0 <= t < days => ApplyAt(k, token, args, t, days, n))
  }
}
