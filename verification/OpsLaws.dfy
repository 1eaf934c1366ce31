/** What the window reducers promise about the values they reduce. */
module OpsLaws {
  import opened Wrappers
  import opened Numbers
  import opened Sorting
  import opened Ops

  /** Every present value lies between the bounds. */
  ghost predicate Within(v: seq<Cell>, lo: real, hi: real) {
    forall i :: 0 <= i < |v| && v[i].Some? ==> lo <= v[i].value <= hi
  }

  /** A present value weighs at least one, so the clamp of the denominator never acts. */
  lemma {:induction false} DecayClampIsDead(v: seq<Cell>)
    ensures WeightTotal(v) > 0.0 <==> Present(v) != []
    ensures WeightTotal(v) > 0.0 ==> WeightTotal(v) >= 1.0
  {
    if v != [] {
      DecayClampIsDead(v[..|v| - 1]);
    }
  }

  function Times(x: real, w: real): real {
    x * w
  }

  lemma TimesBetween(x: real, w: real, lo: real, hi: real)
    requires lo <= x <= hi && 0.0 <= w
    ensures Times(lo, w) <= Times(x, w) <= Times(hi, w)
  {
  }

  lemma TimesSum(a: real, b: real, c: real)
    ensures Times(a, b + c) == Times(a, b) + Times(a, c)
  {
  }

  lemma TimesZero(a: real)
    ensures Times(a, 0.0) == 0.0
  {
  }

  lemma WeightsGrow(v: seq<Cell>)
    requires v != []
    ensures var front, last := v[..|v| - 1], v[|v| - 1];
            && WeightTotal(v) == WeightTotal(front) + (if last.Some? then |v| as real else 0.0)
            && WeightedSum(v) == WeightedSum(front) + (if last.Some? then Times(last.value, |v| as real) else 0.0)
  {
  }

  lemma {:induction false} WeightedSumBetween(v: seq<Cell>, lo: real, hi: real)
    requires Within(v, lo, hi)
    ensures Times(lo, WeightTotal(v)) <= WeightedSum(v) <= Times(hi, WeightTotal(v))
  {
    hide Times;
    if v == [] {
      TimesZero(lo);
      TimesZero(hi);
    } else {
      var front, last := v[..|v| - 1], v[|v| - 1];
      WeightedSumBetween(front, lo, hi);
      WeightsGrow(v);
      hide WeightTotal;
      hide WeightedSum;
      if last.Some? {
        TimesBetween(last.value, |v| as real, lo, hi);
        TimesSum(lo, WeightTotal(front), |v| as real);
        TimesSum(hi, WeightTotal(front), |v| as real);
      }
    }
  }

  lemma TimesLess(x: real, y: real, w: real)
    requires w > 0.0 && x < y
    ensures Times(x, w) < Times(y, w)
  {
    assert (y - x) * w > 0.0;
  }

  lemma QuotientBetween(x: real, w: real, lo: real, hi: real, q: real)
    requires w > 0.0 && Times(lo, w) <= x <= Times(hi, w) && Times(q, w) == x
    ensures lo <= q <= hi
  {
    hide Times;
    if q < lo {
      TimesLess(q, lo, w);
    } else if q > hi {
      TimesLess(hi, q, w);
    }
  }

  lemma QuotientTimes(x: real, w: real)
    requires w > 0.0
    ensures Times(x / w, w) == x
  {
  }

  /** `_decay` is a weighted mean: it lies between any bounds of the window, and exists whenever a value does. */
  lemma DecayIsAMean(v: seq<Cell>, lo: real, hi: real)
    requires Within(v, lo, hi) && Present(v) != []
    ensures WeightTotal(v) >= 1.0 && lo <= WeightedSum(v) / WeightTotal(v) <= hi
  {
    hide Times;
    hide WeightTotal;
    hide WeightedSum;
    DecayClampIsDead(v);
    WeightedSumBetween(v, lo, hi);
    QuotientTimes(WeightedSum(v), WeightTotal(v));
    QuotientBetween(WeightedSum(v), WeightTotal(v), lo, hi, WeightedSum(v) / WeightTotal(v));
  }

  lemma {:induction false} PresentHolds(v: seq<Cell>, i: nat)
    requires i < |v| && v[i].Some?
    ensures v[i].value in Present(v)
  {
    if i < |v| - 1 {
      PresentHolds(v[..|v| - 1], i);
    }
  }

  lemma {:induction false} CountOne(s: seq<real>, x: real)
    ensures x in s ==> CountLe(s, x) >= 1
    ensures CountLe(s, x) == |s| <==> forall y :: y in s ==> y <= x
  {
    if s != [] {
      var front, last := s[..|s| - 1], s[|s| - 1];
      assert s == front + [last];
      assert last in s && forall y :: y in front ==> y in s;
      assert forall y :: y in s ==> y in front || y == last;
      CountOne(front, x);
    }
  }

  lemma ShareInRange(k: nat, n: nat)
    requires 1 <= k <= n
    ensures 0.0 < k as real / n as real <= 1.0 && (k as real / n as real == 1.0 <==> k == n)
  {
    var q := k as real / n as real;
    assert q * n as real == k as real;
  }

  /** `_rank_window` lies in (0, 1] and is 1 exactly when no present value exceeds the current one. */
  lemma RankWindowLaw(v: seq<Cell>)
    requires v != [] && v[|v| - 1].Some?
    ensures RankWindow(v).Some? && 0.0 < RankWindow(v).value <= 1.0
    ensures RankWindow(v).value == 1.0 <==> forall y :: y in Present(v) ==> y <= v[|v| - 1].value
  {
    var x := v[|v| - 1].value;
    PresentHolds(v, |v| - 1);
    CountOne(Present(v), x);
    ShareInRange(CountLe(Present(v), x), |Present(v)|);
  }
}
