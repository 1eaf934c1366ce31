/**
 * Counting and adding up the present values of a list of cells, without the functions the operators use, and
 * what each reducer computes in these terms.
 */
module WindowLaws {
  import opened Wrappers
  import opened Numbers
  import opened Sorting
  import opened Vocab
  import opened Ops
  import opened OpsLaws

  /** How many values are present. */
  ghost function Number(v: seq<Cell>): nat {
    |set d: nat | d < |v| && v[d].Some?|
  }

  /** How many present values are at most `x`. */
  ghost function AtMost(v: seq<Cell>, x: real): nat {
    |set d: nat | d < |v| && v[d].Some? && v[d].value <= x|
  }

  /** How many present values are positive. */
  ghost function Positives(v: seq<Cell>): nat {
    |set d: nat | d < |v| && v[d].Some? && v[d].value > 0.0|
  }

  /** The sum of the present values. */
  ghost function Total(v: seq<Cell>): real {
    if v == [] then 0.0 else Total(v[..|v| - 1]) + if v[|v| - 1].Some? then v[|v| - 1].value else 0.0
  }

  ghost function Mapped(v: seq<Cell>, f: (nat, real) -> real): (r: seq<Cell>)
    ensures |r| == |v|
  {
    seq(|v|, d requires 0 <= d < |v| => if v[d].Some? then Some(f(d, v[d].value)) else None)
  }

  /** `x * y`, to keep products of unknowns out of the way. */
  function Product(x: real, y: real): real {
    x * y
  }

  ghost function Squares(v: seq<Cell>, mean: real): real {
    Total(Mapped(v, (d: nat, x: real) => Product(x - mean, x - mean)))
  }

  /** The sum of the places of the present values, counted from one. */
  ghost function Places(v: seq<Cell>): real {
    Total(Mapped(v, (d: nat, x: real) => (d + 1) as real))
  }

  ghost function PlaceTotal(v: seq<Cell>): real {
    Total(Mapped(v, (d: nat, x: real) => Product(x, (d + 1) as real)))
  }

  // ------------------------------------------------------------------ one more value

  lemma NumberGrows(v: seq<Cell>)
    requires v != []
    ensures Number(v) == Number(v[..|v| - 1]) + if v[|v| - 1].Some? then 1 else 0
  {
    var n := |v| - 1;
    var a, b := set d: nat | d < |v| && v[d].Some?, set d: nat | d < |v[..n]| && v[..n][d].Some?;
    if v[n].Some? {
      assert a == b + {n};
    } else {
      assert a == b;
    }
  }

  lemma AtMostGrows(v: seq<Cell>, x: real)
    requires v != []
    ensures AtMost(v, x) == AtMost(v[..|v| - 1], x) + if v[|v| - 1].Some? && v[|v| - 1].value <= x then 1 else 0
  {
    var n := |v| - 1;
    var a := set d: nat | d < |v| && v[d].Some? && v[d].value <= x;
    var b := set d: nat | d < |v[..n]| && v[..n][d].Some? && v[..n][d].value <= x;
    if v[n].Some? && v[n].value <= x {
      assert a == b + {n};
    } else {
      assert a == b;
    }
  }

  lemma PositivesGrow(v: seq<Cell>)
    requires v != []
    ensures Positives(v) == Positives(v[..|v| - 1]) + if v[|v| - 1].Some? && v[|v| - 1].value > 0.0 then 1 else 0
  {
    var n := |v| - 1;
    var a := set d: nat | d < |v| && v[d].Some? && v[d].value > 0.0;
    var b := set d: nat | d < |v[..n]| && v[..n][d].Some? && v[..n][d].value > 0.0;
    if v[n].Some? && v[n].value > 0.0 {
      assert a == b + {n};
    } else {
      assert a == b;
    }
  }

  lemma {:induction false} SmallSet(s: set<nat>, n: nat)
    requires forall d :: d in s ==> d < n
    ensures |s| <= n
  {
    if n == 0 {
      assert s == {};
    } else {
      SmallSet(s - {n - 1}, n - 1);
      assert s <= s - {n - 1} + {n - 1};
    }
  }

  lemma AtMostAll(v: seq<Cell>, x: real)
    ensures Number(v) <= |v| && Positives(v) <= |v| && AtMost(v, x) <= |v|
  {
    SmallSet(set d: nat | d < |v| && v[d].Some?, |v|);
    SmallSet(set d: nat | d < |v| && v[d].Some? && v[d].value > 0.0, |v|);
    SmallSet(set d: nat | d < |v| && v[d].Some? && v[d].value <= x, |v|);
  }

  lemma PresentGrows(v: seq<Cell>)
    requires v != []
    ensures var front, last := Present(v[..|v| - 1]), v[|v| - 1];
            Present(v) == if last.Some? then front + [last.value] else front
  {
  }

  lemma Pushed(s: seq<real>, x: real, y: real)
    ensures (s + [x])[..|s|] == s && Sum(s + [x]) == Sum(s) + x
    ensures CountLe(s + [x], y) == CountLe(s, y) + if x <= y then 1 else 0
  {
    assert (s + [x])[..|s|] == s;
  }

  lemma {:induction false} PresentCounts(v: seq<Cell>)
    ensures |Present(v)| == Number(v) && Sum(Present(v)) == Total(v)
  {
    hide Number;
    if v == [] {
      AtMostAll(v, 0.0);
    } else {
      var front, last := v[..|v| - 1], v[|v| - 1];
      PresentCounts(front);
      NumberGrows(v);
      PresentGrows(v);
      if last.Some? {
        Pushed(Present(front), last.value, 0.0);
      }
    }
  }

  lemma {:induction false} PresentAtMost(v: seq<Cell>, x: real)
    ensures CountLe(Present(v), x) == AtMost(v, x)
  {
    hide AtMost;
    if v == [] {
      AtMostAll(v, x);
    } else {
      var front, last := v[..|v| - 1], v[|v| - 1];
      PresentAtMost(front, x);
      AtMostGrows(v, x);
      PresentGrows(v);
      if last.Some? {
        Pushed(Present(front), last.value, x);
      }
    }
  }

  lemma {:induction false} PresentPositives(v: seq<Cell>)
    ensures |Present(v)| - CountLe(Present(v), 0.0) == Positives(v)
  {
    hide Positives;
    if v == [] {
      AtMostAll(v, 0.0);
    } else {
      var front, last := v[..|v| - 1], v[|v| - 1];
      PresentPositives(front);
      PositivesGrow(v);
      PresentGrows(v);
      if last.Some? {
        Pushed(Present(front), last.value, 0.0);
      }
    }
  }

  lemma {:induction false} NothingPresent(v: seq<Cell>)
    ensures Present(v) == [] <==> forall d :: 0 <= d < |v| ==> v[d].None?
  {
    if v != [] {
      NothingPresent(v[..|v| - 1]);
      assert forall d :: 0 <= d < |v| - 1 ==> v[d] == v[..|v| - 1][d];
    }
  }

  lemma MappedFront(v: seq<Cell>, f: (nat, real) -> real)
    requires v != []
    ensures Mapped(v, f)[..|v| - 1] == Mapped(v[..|v| - 1], f)
  {
  }

  lemma DeviationsGrow(s: seq<real>, x: real, mean: real)
    ensures SquaredDeviations(s + [x], mean) == SquaredDeviations(s, mean) + [Product(x - mean, x - mean)]
  {
    var all := SquaredDeviations(s + [x], mean);
    assert all[|s|] == Product(x - mean, x - mean);
    forall i | 0 <= i < |s| ensures all[i] == SquaredDeviations(s, mean)[i] {
      assert (s + [x])[i] == s[i];
    }
  }

  lemma SquaresGrow(v: seq<Cell>, mean: real)
    requires v != []
    ensures var last := v[|v| - 1];
            Squares(v, mean)
            == Squares(v[..|v| - 1], mean) + if last.Some? then Product(last.value - mean, last.value - mean) else 0.0
  {
    MappedFront(v, (d: nat, x: real) => Product(x - mean, x - mean));
  }

  lemma {:induction false} SquaresAre(v: seq<Cell>, mean: real)
    ensures Sum(SquaredDeviations(Present(v), mean)) == Squares(v, mean)
  {
    hide Squares;
    if v == [] {
      SquaresOfNothing(mean);
    } else {
      var front, last := v[..|v| - 1], v[|v| - 1];
      SquaresAre(front, mean);
      SquaresGrow(v, mean);
      PresentGrows(v);
      if last.Some? {
        DeviationsGrow(Present(front), last.value, mean);
        Pushed(SquaredDeviations(Present(front), mean), Product(last.value - mean, last.value - mean), 0.0);
      }
    }
  }

  lemma SquaresOfNothing(mean: real)
    ensures Squares([], mean) == 0.0
  {
  }

  lemma {:induction false} WeightsAre(v: seq<Cell>)
    ensures WeightTotal(v) == Places(v) && WeightedSum(v) == PlaceTotal(v)
  {
    if v != [] {
      var front, last := v[..|v| - 1], v[|v| - 1];
      WeightsAre(front);
      var f, g := (d: nat, x: real) => (d + 1) as real, (d: nat, x: real) => Product(x, (d + 1) as real);
      MappedFront(v, f);
      MappedFront(v, g);
      assert Places(v) == Places(front) + if last.Some? then |v| as real else 0.0;
      assert PlaceTotal(v) == PlaceTotal(front) + if last.Some? then Product(last.value, |v| as real) else 0.0;
    }
  }

  // ------------------------------------------------------------------ the reducers

  lemma QuotientLaw(x: real, y: real)
    requires y != 0.0
    ensures Product(x / y, y) == x
  {
  }

  lemma MeanIs(v: seq<Cell>)
    requires Present(v) != []
    ensures Number(v) > 0 && Product(Mean(Present(v)), Number(v) as real) == Total(v)
  {
    PresentCounts(v);
    QuotientLaw(Sum(Present(v)), |Present(v)| as real);
  }

  /** `_rank_window`: its share of the present values, those at most the current one. */
  lemma RankIs(v: seq<Cell>)
    requires v != []
    ensures var r, last := RankWindow(v), v[|v| - 1];
            && (r.Some? <==> last.Some?)
            && (r.Some? ==> Product(r.value, Number(v) as real) == AtMost(v, last.value) as real)
  {
    PresentCounts(v);
    NothingPresent(v);
    if v[|v| - 1].Some? {
      PresentAtMost(v, v[|v| - 1].value);
      QuotientLaw(AtMost(v, v[|v| - 1].value) as real, Number(v) as real);
    }
    hide Number;
    hide AtMost;
  }

  lemma DecayIs(k: Kernel, v: seq<Cell>)
    requires v != []
    ensures var r := TsCell(k, DecayLinear, v);
            && (r.Some? <==> exists d :: 0 <= d < |v| && v[d].Some?)
            && (r.Some? ==> Product(r.value, Places(v)) == PlaceTotal(v))
  {
    NothingPresent(v);
    DecayClampIsDead(v);
    WeightsAre(v);
    hide Places;
    hide PlaceTotal;
    hide WeightTotal;
    hide WeightedSum;
    hide Present;
    if WeightTotal(v) > 0.0 {
      QuotientLaw(WeightedSum(v), WeightTotal(v));
    }
  }

  // ------------------------------------------------------------------ pairs of windows

  /** `f` of the values on the days on which both are present. */
  ghost function Both(a: seq<Cell>, b: seq<Cell>, f: (real, real) -> real): (r: seq<Cell>)
    requires |a| == |b|
    ensures |r| == |a|
  {
    seq(|a|, d requires 0 <= d < |a| => if a[d].Some? && b[d].Some? then Some(f(a[d].value, b[d].value)) else None)
  }

  ghost function BothNumber(a: seq<Cell>, b: seq<Cell>): nat
    requires |a| == |b|
  {
    |set d: nat | d < |a| && a[d].Some? && b[d].Some?|
  }

  const FIRST: (real, real) -> real := (x: real, y: real) => x
  const SECOND: (real, real) -> real := (x: real, y: real) => y
  const TIMES: (real, real) -> real := (x: real, y: real) => Product(x, y)
  const FIRST_SQUARED: (real, real) -> real := (x: real, y: real) => Product(x, x)
  const SECOND_SQUARED: (real, real) -> real := (x: real, y: real) => Product(y, y)

  /** `n * sum(x * y) - sum(x) * sum(y)` over the common days: the covariance times the squared number. */
  ghost function Spread(a: seq<Cell>, b: seq<Cell>, xy: (real, real) -> real, x: (real, real) -> real,
                        y: (real, real) -> real): real
    requires |a| == |b|
  {
    Product(BothNumber(a, b) as real, Total(Both(a, b, xy))) - Product(Total(Both(a, b, x)), Total(Both(a, b, y)))
  }

  lemma BothGrows(a: seq<Cell>, b: seq<Cell>, f: (real, real) -> real)
    requires |a| == |b| && a != []
    ensures var n := |a| - 1;
            Total(Both(a, b, f)) == Total(Both(a[..n], b[..n], f))
                                    + if a[n].Some? && b[n].Some? then f(a[n].value, b[n].value) else 0.0
  {
    var n := |a| - 1;
    assert Both(a, b, f)[..n] == Both(a[..n], b[..n], f);
  }

  lemma BothNumberGrows(a: seq<Cell>, b: seq<Cell>)
    requires |a| == |b| && a != []
    ensures var n := |a| - 1;
            BothNumber(a, b) == BothNumber(a[..n], b[..n]) + if a[n].Some? && b[n].Some? then 1 else 0
  {
    var n := |a| - 1;
    var c := set d: nat | d < |a| && a[d].Some? && b[d].Some?;
    var e := set d: nat | d < |a[..n]| && a[..n][d].Some? && b[..n][d].Some?;
    if a[n].Some? && b[n].Some? {
      assert c == e + {n};
    } else {
      assert c == e;
    }
  }

  lemma BothAtMost(a: seq<Cell>, b: seq<Cell>)
    requires |a| == |b|
    ensures BothNumber(a, b) <= |a|
  {
    SmallSet(set d: nat | d < |a| && a[d].Some? && b[d].Some?, |a|);
  }

  lemma PairsGrow(a: seq<Cell>, b: seq<Cell>)
    requires |a| == |b| && a != []
    ensures var n := |a| - 1;
            Pairs(a, b) == if a[n].Some? && b[n].Some? then Pairs(a[..n], b[..n]) + [(a[n].value, b[n].value)]
                           else Pairs(a[..n], b[..n])
  {
  }

  lemma SumsPushed(p: seq<(real, real)>, x: (real, real))
    ensures var q := p + [x];
            && SumX(q) == SumX(p) + x.0 && SumY(q) == SumY(p) + x.1 && SumXX(q) == SumXX(p) + Product(x.0, x.0)
            && SumYY(q) == SumYY(p) + Product(x.1, x.1) && SumXY(q) == SumXY(p) + Product(x.0, x.1)
  {
    assert (p + [x])[..|p|] == p;
  }

  lemma {:induction false} PairSums(a: seq<Cell>, b: seq<Cell>)
    requires |a| == |b|
    ensures var p := Pairs(a, b);
            && |p| == BothNumber(a, b)
            && SumX(p) == Total(Both(a, b, FIRST)) && SumY(p) == Total(Both(a, b, SECOND))
            && SumXX(p) == Total(Both(a, b, FIRST_SQUARED)) && SumYY(p) == Total(Both(a, b, SECOND_SQUARED))
            && SumXY(p) == Total(Both(a, b, TIMES))
  {
    hide BothNumber;
    if a == [] {
      BothAtMost(a, b);
    } else {
      var n := |a| - 1;
      PairSums(a[..n], b[..n]);
      BothNumberGrows(a, b);
      BothGrows(a, b, FIRST);
      BothGrows(a, b, SECOND);
      BothGrows(a, b, FIRST_SQUARED);
      BothGrows(a, b, SECOND_SQUARED);
      BothGrows(a, b, TIMES);
      PairsGrow(a, b);
      hide Pairs;
      hide Both;
      hide Total;
      if a[n].Some? && b[n].Some? {
        SumsPushed(Pairs(a[..n], b[..n]), (a[n].value, b[n].value));
      }
    }
  }

  lemma CovarianceScaled(n: real, sxy: real, sx: real, sy: real)
    requires n > 0.0
    ensures Product(CovarianceOf(n, sxy, sx, sy), Product(n, n)) == Product(n, sxy) - Product(sx, sy)
  {
    assert sxy / n * (n * n) == n * sxy;
    assert sx * sy / (n * n) * (n * n) == sx * sy;
  }

  lemma VarianceScaled(n: real, squares: real, sum: real)
    requires n > 0.0
    ensures Product(VarianceOf(n, squares, sum), Product(n, n)) == Product(n, squares) - Product(sum, sum)
  {
    assert squares / n * (n * n) == n * squares;
    var m := sum / n;
    assert m * n == sum;
    assert (m * m) * (n * n) == (m * n) * (m * n);
  }
}
