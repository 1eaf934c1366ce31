/** Turnover, participation and hit rates of a tradability assessment, and the range checks of its artifact. */
module Tradability {
  import opened Wrappers
  import opened Numbers

  /** The sum of the absolute values. */
  function Norm(s: seq<real>): (r: real)
    ensures r >= 0.0
  {
    if s == [] then 0.0 else Norm(s[..|s| - 1]) + AbsOf(s[|s| - 1])
  }

  /** The distance of two columns, the sum of the absolute differences. */
  function Distance(a: seq<real>, b: seq<real>): (r: real)
    requires |a| == |b|
    ensures r >= 0.0
  {
    if a == [] then 0.0 else Distance(a[..|a| - 1], b[..|b| - 1]) + AbsOf(b[|b| - 1] - a[|a| - 1])
  }

  // ------------------------------------------------------------------ one day

  /** Does a mask only mark values that are there? */
  predicate Masked(values: seq<Cell>, valid: seq<bool>) {
    |values| == |valid| && forall i :: 0 <= i < |valid| ==> valid[i] ==> values[i].Some?
  }

  function Positions(values: seq<Cell>, valid: seq<bool>): (p: seq<real>)
    requires Masked(values, valid)
    ensures |p| == |values|
  {
    seq(|values|, i requires 0 <= i < |values| => if valid[i] then values[i].value else 0.0)
  }

  function Demeaned(p: seq<real>): (r: seq<real>)
    ensures |r| == |p|
  {
    seq(|p|, i requires 0 <= i < |p| => p[i] - Sum(p) / |p| as real)
  }

  function DividedBy(p: seq<real>, scale: real): (r: seq<real>)
    requires scale > 0.0
    ensures |r| == |p|
  {
    seq(|p|, i requires 0 <= i < |p| => Ratio(p[i], scale))
  }

  /** Divides by the norm, or gives zeros. */
  function Normalised(p: seq<real>): (r: seq<real>)
    ensures |r| == |p|
  {
    if Norm(p) > 0.0 then DividedBy(p, Norm(p)) else seq(|p|, _ => 0.0)
  }

  function Portfolio(values: seq<Cell>, valid: seq<bool>): (r: seq<real>)
    requires Masked(values, valid)
    ensures |r| == |values|
  {
    Normalised(Demeaned(Positions(values, valid)))
  }

  /** The array code of one day: masks, subtracts the mean in place, divides in place. */
  method PortfolioInPlace(values: seq<Cell>, valid: seq<bool>) returns (r: seq<real>)
    requires Masked(values, valid)
    ensures r == Portfolio(values, valid)
  {
    hide Sum;
    hide Norm;
    hide Ratio;
    var n := |values|;
    var p := Positions(values, valid);
    var a := new real[n];
    forall i | 0 <= i < n { a[i] := p[i]; }
    for i := 0 to n
      invariant forall j :: 0 <= j < i ==> a[j] == Demeaned(p)[j]
      invariant forall j :: i <= j < n ==> a[j] == p[j]
    {
      a[i] := a[i] - Sum(p) / n as real;
    }
    assert a[..] == Demeaned(p);
    var d := a[..];
    var scale := Norm(d);
    for i := 0 to n
      invariant forall j :: 0 <= j < i ==> a[j] == Normalised(d)[j]
      invariant forall j :: i <= j < n ==> a[j] == d[j]
    {
      a[i] := if scale > 0.0 then Ratio(a[i], scale) else 0.0;
    }
    r := a[..];
    assert r == Normalised(d);
  }

  /** `a / b` */
  function Ratio(a: real, b: real): real
    requires b > 0.0
  {
    a / b
  }

  lemma RatioInRange(a: real, b: real)
    requires b > 0.0 && 0.0 <= a <= b
    ensures 0.0 <= Ratio(a, b) <= 1.0
  {
  }

  lemma RatioOfSelf(a: real)
    requires a > 0.0
    ensures Ratio(a, a) == 1.0
  {
  }

  lemma RatioOfSum(a: real, b: real, c: real)
    requires c > 0.0
    ensures Ratio(a + b, c) == Ratio(a, c) + Ratio(b, c)
  {
  }

  lemma AbsRatio(x: real, c: real)
    requires c > 0.0
    ensures AbsOf(Ratio(x, c)) == Ratio(AbsOf(x), c)
  {
  }

  lemma DividedFront(p: seq<real>, scale: real)
    requires scale > 0.0 && p != []
    ensures var n := |p| - 1;
            DividedBy(p, scale)[..n] == DividedBy(p[..n], scale) && DividedBy(p, scale)[n] == Ratio(p[n], scale)
  {
  }

  lemma {:induction false} NormOfQuotient(p: seq<real>, scale: real)
    requires scale > 0.0
    ensures Norm(DividedBy(p, scale)) == Ratio(Norm(p), scale)
  {
    if p == [] {
      assert Ratio(0.0, scale) == 0.0;
    } else {
      hide AbsOf;
      hide DividedBy;
      hide Ratio;
      var n := |p| - 1;
      NormOfQuotient(p[..n], scale);
      DividedFront(p, scale);
      AbsRatio(p[n], scale);
      RatioOfSum(Norm(p[..n]), AbsOf(p[n]), scale);
    }
  }

  lemma {:induction false} NormOfZeros(n: nat)
    ensures Norm(seq(n, _ => 0.0)) == 0.0
  {
    if n > 0 {
      NormOfZeros(n - 1);
      assert seq(n, _ => 0.0)[..n - 1] == seq(n - 1, _ => 0.0);
    }
  }

  /** Normalised positions have norm one, or are all zero. */
  lemma NormIsAtMostOne(p: seq<real>)
    ensures Norm(Normalised(p)) == if Norm(p) > 0.0 then 1.0 else 0.0
  {
    if Norm(p) > 0.0 {
      NormOfQuotient(p, Norm(p));
      RatioOfSelf(Norm(p));
    } else {
      NormOfZeros(|p|);
    }
  }

  lemma {:induction false} Triangle(a: seq<real>, b: seq<real>)
    requires |a| == |b|
    ensures Distance(a, b) <= Norm(a) + Norm(b)
  {
    if a != [] {
      Triangle(a[..|a| - 1], b[..|b| - 1]);
    }
  }

  // ------------------------------------------------------------------ turnover

  ghost predicate MaskedDays(values: seq<seq<Cell>>, valid: seq<seq<bool>>, n: nat) {
    |values| == |valid| && forall t :: 0 <= t < |values| ==> Masked(values[t], valid[t]) && |values[t]| == n
  }

  /** Half the distance between the portfolios of each day and the next, for the first `m` pairs. */
  function Steps(values: seq<seq<Cell>>, valid: seq<seq<bool>>, n: nat, m: nat): (s: seq<real>)
    requires MaskedDays(values, valid, n) && (m == 0 || m < |values|)
    ensures |s| == m
  {
    if m == 0 then []
    else Steps(values, valid, n, m - 1)
         + [Distance(Portfolio(values[m - 1], valid[m - 1]), Portfolio(values[m], valid[m])) / 2.0]
  }

  function TurnoverOf(values: seq<seq<Cell>>, valid: seq<seq<bool>>, n: nat): real
    requires MaskedDays(values, valid, n)
  {
    if |values| < 2 then 1.0
    else Sum(Steps(values, valid, n, |values| - 1)) / (|values| - 1) as real
  }

  lemma {:induction false} StepsInRange(values: seq<seq<Cell>>, valid: seq<seq<bool>>, n: nat, m: nat, i: nat)
    requires MaskedDays(values, valid, n) && m < |values| && i < m
    ensures 0.0 <= Steps(values, valid, n, m)[i] <= 1.0
  {
    hide Portfolio;
    if i < m - 1 {
      StepsInRange(values, valid, n, m - 1, i);
    } else {
      var a, b := Portfolio(values[i], valid[i]), Portfolio(values[i + 1], valid[i + 1]);
      NormIsAtMostOne(Demeaned(Positions(values[i], valid[i])));
      NormIsAtMostOne(Demeaned(Positions(values[i + 1], valid[i + 1])));
      PortfolioNorm(values[i], valid[i]);
      PortfolioNorm(values[i + 1], valid[i + 1]);
      Triangle(a, b);
    }
  }

  lemma PortfolioNorm(values: seq<Cell>, valid: seq<bool>)
    requires Masked(values, valid)
    ensures 0.0 <= Norm(Portfolio(values, valid)) <= 1.0
  {
    NormIsAtMostOne(Demeaned(Positions(values, valid)));
  }

  lemma {:induction false} SumInRange(s: seq<real>)
    requires forall i :: 0 <= i < |s| ==> 0.0 <= s[i] <= 1.0
    ensures 0.0 <= Sum(s) <= |s| as real
  {
    if s != [] {
      SumInRange(s[..|s| - 1]);
    }
  }

  lemma QuotientInRange(x: real, n: nat)
    requires n > 0 && 0.0 <= x <= n as real
    ensures 0.0 <= x / n as real <= 1.0
  {
  }

  /** `_turnover` */
  method Turnover(values: seq<seq<Cell>>, valid: seq<seq<bool>>, n: nat) returns (x: real)
    requires MaskedDays(values, valid, n)
    ensures x == TurnoverOf(values, valid, n)
    ensures 0.0 <= x <= 1.0
  {
    hide Portfolio;
    hide Sum;
    if |values| < 2 {
      return 1.0;
    }
    var steps: seq<real> := [];
    var previous := PortfolioInPlace(values[0], valid[0]);
    for t := 1 to |values|
      invariant previous == Portfolio(values[t - 1], valid[t - 1])
      invariant steps == Steps(values, valid, n, t - 1)
    {
      var current := PortfolioInPlace(values[t], valid[t]);
      steps := steps + [Distance(previous, current) / 2.0];
      previous := current;
    }
    x := Sum(steps) / (|values| - 1) as real;
    forall i | 0 <= i < |steps| ensures 0.0 <= steps[i] <= 1.0 {
      StepsInRange(values, valid, n, |values| - 1, i);
    }
    SumInRange(steps);
    QuotientInRange(Sum(steps), |values| - 1);
  }

  // ------------------------------------------------------------------ participation

  /** The traded amount of a day: weights times amounts, a missing amount counting as zero. */
  function Traded(p: seq<real>, amounts: seq<Cell>, scale: real): real
    requires |p| == |amounts|
  {
    if p == [] then 0.0
    else
      Traded(p[..|p| - 1], amounts[..|p| - 1], scale) + Share(p[|p| - 1], scale, amounts[|p| - 1])
  }

  function Share(x: real, scale: real, amount: Cell): real {
    Weight(x, scale) * Amount(amount)
  }

  function Weight(x: real, scale: real): real {
    if scale > 0.0 then AbsOf(x) / scale else 0.0
  }

  function Amount(c: Cell): real {
    if c.Some? then c.value else 0.0
  }

  /** The amount available in the valid symbols of a day. */
  function Available(valid: seq<bool>, amounts: seq<Cell>): real
    requires |valid| == |amounts|
  {
    if valid == [] then 0.0
    else
      Available(valid[..|valid| - 1], amounts[..|valid| - 1])
      + if valid[|valid| - 1] then Amount(amounts[|valid| - 1]) else 0.0
  }

  function Rate(values: seq<Cell>, valid: seq<bool>, amounts: seq<Cell>): real
    requires Masked(values, valid) && |amounts| == |values|
  {
    var p := Positions(values, valid);
    if Available(valid, amounts) > 0.0 then Ratio(Traded(p, amounts, Norm(p)), Available(valid, amounts)) else 0.0
  }

  /** No valid symbol has a negative amount. */
  predicate Nonnegative(valid: seq<bool>, amounts: seq<Cell>)
    requires |valid| == |amounts|
  {
    forall i :: 0 <= i < |amounts| ==> valid[i] ==> Amount(amounts[i]) >= 0.0
  }

  /** Nothing is available on the day, or no valid symbol has a negative amount. */
  predicate SoundDay(valid: seq<bool>, amounts: seq<Cell>)
    requires |valid| == |amounts|
  {
    Available(valid, amounts) > 0.0 ==> Nonnegative(valid, amounts)
  }

  lemma WeightInRange(x: real, scale: real)
    requires AbsOf(x) <= scale
    ensures 0.0 <= Weight(x, scale) <= 1.0
  {
  }

  lemma {:induction false} NormCovers(p: seq<real>, i: nat)
    requires i < |p|
    ensures AbsOf(p[i]) <= Norm(p)
  {
    if i < |p| - 1 {
      NormCovers(p[..|p| - 1], i);
    }
  }

  lemma WeightedAmount(w: real, a: real)
    requires 0.0 <= w <= 1.0 && 0.0 <= a
    ensures 0.0 <= w * a <= a
  {
  }

  lemma ShareInRange(x: real, scale: real, amount: Cell)
    requires AbsOf(x) <= scale && Amount(amount) >= 0.0
    ensures 0.0 <= Share(x, scale, amount) <= Amount(amount)
  {
    hide Weight;
    WeightInRange(x, scale);
    WeightedAmount(Weight(x, scale), Amount(amount));
  }

  lemma NoWeight(scale: real)
    ensures Weight(0.0, scale) == 0.0
  {
  }

  lemma ShareOfNothing(scale: real, amount: Cell)
    ensures Share(0.0, scale, amount) == 0.0
  {
    hide Weight;
    NoWeight(scale);
  }

  /** Only valid symbols carry weight, and no weight exceeds one. */
  lemma {:induction false} TradedWithinAvailable(p: seq<real>, valid: seq<bool>, amounts: seq<Cell>, scale: real)
    requires |p| == |valid| == |amounts| && Nonnegative(valid, amounts)
    requires forall i :: 0 <= i < |p| ==> AbsOf(p[i]) <= scale && (!valid[i] ==> p[i] == 0.0)
    ensures 0.0 <= Traded(p, amounts, scale) <= Available(valid, amounts)
  {
    hide Share;
    hide Amount;
    if p != [] {
      var n := |p| - 1;
      TradedWithinAvailable(p[..n], valid[..n], amounts[..n], scale);
      if valid[n] {
        ShareInRange(p[n], scale, amounts[n]);
      }
      ShareOfNothing(scale, amounts[n]);
    }
  }

  lemma RateInRange(values: seq<Cell>, valid: seq<bool>, amounts: seq<Cell>)
    requires Masked(values, valid) && |amounts| == |values| && SoundDay(valid, amounts)
    ensures 0.0 <= Rate(values, valid, amounts) <= 1.0
  {
    hide Traded;
    hide Available;
    hide Norm;
    hide Ratio;
    var p := Positions(values, valid);
    if Available(valid, amounts) > 0.0 {
      forall i | 0 <= i < |p| ensures AbsOf(p[i]) <= Norm(p) {
        NormCovers(p, i);
      }
      TradedWithinAvailable(p, valid, amounts, Norm(p));
      RatioInRange(Traded(p, amounts, Norm(p)), Available(valid, amounts));
    }
  }

  function Rates(values: seq<seq<Cell>>, valid: seq<seq<bool>>, amounts: seq<seq<Cell>>, n: nat): seq<real>
    requires MaskedDays(values, valid, n) && MaskedAmounts(values, amounts, n)
  {
    seq(|values|, t requires 0 <= t < |values| => Rate(values[t], valid[t], amounts[t]))
  }

  ghost predicate MaskedAmounts(values: seq<seq<Cell>>, amounts: seq<seq<Cell>>, n: nat) {
    |amounts| == |values| && forall t :: 0 <= t < |amounts| ==> |amounts[t]| == n
  }

  /** The mean rate times the turnover. */
  function ParticipationOf(values: seq<seq<Cell>>, valid: seq<seq<bool>>, amounts: Option<seq<seq<Cell>>>,
                           turnover: real, n: nat): real
    requires MaskedDays(values, valid, n) && (amounts.Some? ==> MaskedAmounts(values, amounts.value, n))
  {
    if amounts.None? || values == [] then 0.0
    else Sum(Rates(values, valid, amounts.value, n)) / |values| as real * turnover
  }

  ghost predicate Sound(valid: seq<seq<bool>>, amounts: Option<seq<seq<Cell>>>, n: nat)
    requires amounts.Some? ==> SameShape(valid, amounts.value, n)
  {
    amounts.Some? ==> forall t :: 0 <= t < |valid| ==> SoundDay(valid[t], amounts.value[t])
  }

  ghost predicate SameShape(valid: seq<seq<bool>>, amounts: seq<seq<Cell>>, n: nat) {
    |valid| == |amounts| && forall t :: 0 <= t < |valid| ==> |valid[t]| == |amounts[t]| == n
  }

  lemma ParticipationInRange(values: seq<seq<Cell>>, valid: seq<seq<bool>>, amounts: Option<seq<seq<Cell>>>,
                             turnover: real, n: nat)
    requires MaskedDays(values, valid, n) && (amounts.Some? ==> MaskedAmounts(values, amounts.value, n))
    requires 0.0 <= turnover <= 1.0 && Sound(valid, amounts, n)
    ensures 0.0 <= ParticipationOf(values, valid, amounts, turnover, n) <= 1.0
  {
    hide Rate;
    hide Sum;
    hide SoundDay;
    if amounts.Some? && values != [] {
      var rates := Rates(values, valid, amounts.value, n);
      forall t | 0 <= t < |rates| ensures 0.0 <= rates[t] <= 1.0 {
        RateInRange(values[t], valid[t], amounts.value[t]);
      }
      SumInRange(rates);
      QuotientInRange(Sum(rates), |values|);
      ProductInRange(Sum(rates) / |values| as real, turnover);
    }
  }

  /** `_participation`: within [0, 1] whenever every day is sound. */
  method Participation(values: seq<seq<Cell>>, valid: seq<seq<bool>>, amounts: Option<seq<seq<Cell>>>, turnover: real,
                       n: nat)
    returns (x: real)
    requires MaskedDays(values, valid, n) && (amounts.Some? ==> MaskedAmounts(values, amounts.value, n))
    ensures x == ParticipationOf(values, valid, amounts, turnover, n)
    ensures 0.0 <= turnover <= 1.0 && Sound(valid, amounts, n) ==> 0.0 <= x <= 1.0
  {
    hide Rate;
    hide Sum;
    hide Sound;
    if 0.0 <= turnover <= 1.0 && Sound(valid, amounts, n) {
      ParticipationInRange(values, valid, amounts, turnover, n);
    }
    if amounts.None? || values == [] {
      return 0.0;
    }
    var rates: seq<real> := [];
    for t := 0 to |values|
      invariant |rates| == t && forall u :: 0 <= u < t ==> rates[u] == Rate(values[u], valid[u], amounts.value[u])
    {
      rates := rates + [Rate(values[t], valid[t], amounts.value[t])];
    }
    assert rates == Rates(values, valid, amounts.value, n);
    x := Sum(rates) / |values| as real * turnover;
  }

  lemma ProductInRange(a: real, b: real)
    requires 0.0 <= a <= 1.0 && 0.0 <= b <= 1.0
    ensures 0.0 <= a * b <= 1.0
  {
    WeightedAmount(a, b);
  }

  // ------------------------------------------------------------------ the artifact

  function CountTrue(hits: seq<bool>): (n: nat)
    ensures n <= |hits|
  {
    if hits == [] then 0 else CountTrue(hits[..|hits| - 1]) + if hits[|hits| - 1] then 1 else 0
  }

  /** The share of hits, or one when there is nothing to look at. */
  function HitRate(hits: seq<bool>): (r: real)
    ensures 0.0 <= r <= 1.0
  {
    if hits == [] then 1.0
    else
      QuotientInRange(CountTrue(hits) as real, |hits|);
      CountTrue(hits) as real / |hits| as real
  }

  /** The range checks of `TradabilityAssessmentArtifact`. */
  predicate Accepts(turnover: real, limitHitRate: real, haltExposure: real, participation: real) {
    && turnover >= 0.0 && limitHitRate >= 0.0 && haltExposure >= 0.0 && participation >= 0.0
    && limitHitRate <= 1.0 && haltExposure <= 1.0 && participation <= 1.0
  }

  /** Does the artifact of an assessment of these values pass its own checks? */
  predicate Accepted(values: seq<seq<Cell>>, valid: seq<seq<bool>>, amounts: Option<seq<seq<Cell>>>, n: nat,
                     limitHits: seq<bool>, halts: seq<bool>)
    requires MaskedDays(values, valid, n) && (amounts.Some? ==> MaskedAmounts(values, amounts.value, n))
  {
    var turnover := TurnoverOf(values, valid, n);
    Accepts(turnover, HitRate(limitHits), HitRate(halts), ParticipationOf(values, valid, amounts, turnover, n))
  }

  /** The numbers of an assessment of sound days always pass the checks of the artifact it builds. */
  method Assess(values: seq<seq<Cell>>, valid: seq<seq<bool>>, amounts: Option<seq<seq<Cell>>>, n: nat,
                limitHits: seq<bool>, halts: seq<bool>) returns (accepted: bool, turnover: real, participation: real)
    requires MaskedDays(values, valid, n) && (amounts.Some? ==> MaskedAmounts(values, amounts.value, n))
    ensures turnover == TurnoverOf(values, valid, n)
    ensures participation == ParticipationOf(values, valid, amounts, turnover, n)
    ensures accepted <==> Accepted(values, valid, amounts, n, limitHits, halts)
    ensures Sound(valid, amounts, n) ==> accepted
  {
    hide TurnoverOf;
    hide ParticipationOf;
    hide Sound;
    turnover := Turnover(values, valid, n);
    participation := Participation(values, valid, amounts, turnover, n);
    accepted := Accepts(turnover, HitRate(limitHits), HitRate(halts), participation);
  }

  lemma TurnoverInRange(values: seq<seq<Cell>>, valid: seq<seq<bool>>, n: nat)
    requires MaskedDays(values, valid, n)
    ensures 0.0 <= TurnoverOf(values, valid, n) <= 1.0
  {
    hide Sum;
    if |values| >= 2 {
      var steps := Steps(values, valid, n, |values| - 1);
      forall i | 0 <= i < |steps| ensures 0.0 <= steps[i] <= 1.0 {
        StepsInRange(values, valid, n, |values| - 1, i);
      }
      SumInRange(steps);
      QuotientInRange(Sum(steps), |values| - 1);
    }
  }

  // ------------------------------------------------------------------ the exact condition on amounts

  /** One at `i` and zero elsewhere; all zeros for `i == n`. */
  function Unit(n: nat, i: nat): (p: seq<real>)
    ensures |p| == n
  {
    seq(n, j => if j == i then 1.0 else 0.0)
  }

  function Cells(p: seq<real>): (c: seq<Cell>)
    ensures |c| == |p|
  {
    seq(|p|, j requires 0 <= j < |p| => Some(p[j]))
  }

  lemma UnitFront(n: nat, i: nat)
    requires n > 0
    ensures Unit(n, i)[..n - 1] == Unit(n - 1, i)
  {
  }

  lemma {:induction false} UnitNorm(n: nat, i: nat)
    ensures Norm(Unit(n, i)) == if i < n then 1.0 else 0.0
  {
    if n > 0 {
      UnitFront(n, i);
      UnitNorm(n - 1, i);
    }
  }

  lemma {:induction false} UnitTraded(n: nat, i: nat, amounts: seq<Cell>, scale: real)
    requires |amounts| == n && (i < n ==> scale == 1.0)
    ensures Traded(Unit(n, i), amounts, scale) == if i < n then Amount(amounts[i]) else 0.0
  {
    if n > 0 {
      UnitFront(n, i);
      ShareOfNothing(scale, amounts[n - 1]);
      if i < n - 1 {
        UnitTraded(n - 1, i, amounts[..n - 1], scale);
      } else {
        ZeroTraded(n - 1, i, amounts[..n - 1], scale);
      }
    }
  }

  lemma {:induction false} ZeroTraded(n: nat, i: nat, amounts: seq<Cell>, scale: real)
    requires |amounts| == n && i >= n
    ensures Traded(Unit(n, i), amounts, scale) == 0.0
  {
    if n > 0 {
      UnitFront(n, i);
      ShareOfNothing(scale, amounts[n - 1]);
      ZeroTraded(n - 1, i, amounts[..n - 1], scale);
    }
  }

  lemma UnitPositions(n: nat, i: nat, valid: seq<bool>)
    requires |valid| == n && (i < n ==> valid[i])
    ensures Masked(Cells(Unit(n, i)), valid) && Positions(Cells(Unit(n, i)), valid) == Unit(n, i)
  {
  }

  /** A factor that looks at one symbol only trades the share this symbol has of the day. */
  lemma UnitRate(n: nat, i: nat, valid: seq<bool>, amounts: seq<Cell>)
    requires |valid| == |amounts| == n && (i < n ==> valid[i])
    ensures Masked(Cells(Unit(n, i)), valid)
    ensures Rate(Cells(Unit(n, i)), valid, amounts)
         == if i < n && Available(valid, amounts) > 0.0
            then Ratio(Amount(amounts[i]), Available(valid, amounts))
            else 0.0
  {
    UnitPositions(n, i, valid);
    UnitNorm(n, i);
    hide Norm;
    hide Available;
    if i < n {
      UnitTraded(n, i, amounts, 1.0);
    } else {
      ZeroTraded(n, i, amounts, 0.0);
    }
    hide Traded;
  }

  lemma {:induction false} UnitSum(n: nat, i: nat)
    ensures Sum(Unit(n, i)) == if i < n then 1.0 else 0.0
  {
    if n > 0 {
      UnitFront(n, i);
      UnitSum(n - 1, i);
    }
  }

  lemma UnitPortfolio(n: nat, i: nat, valid: seq<bool>)
    requires |valid| == n >= 2 && i < n && valid[i]
    ensures Masked(Cells(Unit(n, i)), valid) && Norm(Portfolio(Cells(Unit(n, i)), valid)) == 1.0
  {
    hide Norm;
    UnitPositions(n, i, valid);
    UnitSum(n, i);
    var d := Demeaned(Unit(n, i));
    assert d[i] == 1.0 - 1.0 / n as real;
    FractionBelowOne(n);
    NormCovers(d, i);
    NormIsAtMostOne(d);
  }

  lemma FractionBelowOne(n: nat)
    requires n >= 2
    ensures 1.0 / n as real < 1.0
  {
  }

  lemma ZeroPortfolio(n: nat, valid: seq<bool>)
    requires |valid| == n
    ensures Masked(Cells(Unit(n, n)), valid) && Portfolio(Cells(Unit(n, n)), valid) == Unit(n, n)
  {
    UnitPositions(n, n, valid);
    UnitSum(n, n);
    if n > 0 {
      assert Demeaned(Unit(n, n)) == Unit(n, n) by {
        assert 0.0 / n as real == 0.0;
      }
    } else {
      assert Demeaned(Unit(n, n)) == Unit(n, n);
    }
    UnitNorm(n, n);
  }

  lemma {:induction false} DistanceToZero(a: seq<real>, n: nat)
    requires |a| == n
    ensures Distance(a, Unit(n, n)) == Norm(a) == Distance(Unit(n, n), a)
  {
    if n > 0 {
      assert Unit(n, n)[..n - 1] == Unit(n - 1, n - 1);
      DistanceToZero(a[..n - 1], n - 1);
    }
  }

  /** A factor that is zero but for one symbol on one day. */
  function Spike(m: nat, n: nat, t: nat, i: nat): (values: seq<seq<Cell>>)
    ensures |values| == m && forall u :: 0 <= u < m ==> values[u] == Cells(Unit(n, if u == t then i else n))
  {
    seq(m, u requires 0 <= u < m => Cells(Unit(n, if u == t then i else n)))
  }

  lemma SpikeIsMasked(m: nat, n: nat, t: nat, i: nat, valid: seq<seq<bool>>)
    requires |valid| == m && (forall u :: 0 <= u < m ==> |valid[u]| == n) && t < m && i < n && valid[t][i]
    ensures MaskedDays(Spike(m, n, t, i), valid, n)
  {
    forall u | 0 <= u < m ensures Masked(Spike(m, n, t, i)[u], valid[u]) {
      UnitPositions(n, if u == t then i else n, valid[u]);
    }
  }

  lemma SpikeSteps(m: nat, n: nat, t: nat, i: nat, valid: seq<seq<bool>>, u: nat)
    requires MaskedDays(Spike(m, n, t, i), valid, n) && t < m && n >= 2 && i < n && valid[t][i] && u + 1 < m
    ensures var v := Spike(m, n, t, i);
            Distance(Portfolio(v[u], valid[u]), Portfolio(v[u + 1], valid[u + 1]))
            == if u == t || u + 1 == t then 1.0 else 0.0
  {
    hide Portfolio;
    hide Norm;
    hide Distance;
    ZeroPortfolio(n, valid[u]);
    ZeroPortfolio(n, valid[u + 1]);
    UnitPortfolio(n, i, valid[t]);
    UnitNorm(n, n);
    var v := Spike(m, n, t, i);
    DistanceToZero(Portfolio(v[u], valid[u]), n);
    DistanceToZero(Portfolio(v[u + 1], valid[u + 1]), n);
  }

  lemma {:induction false} SumIsPositive(s: seq<real>, k: nat)
    requires k < |s| && s[k] > 0.0 && forall i :: 0 <= i < |s| ==> s[i] >= 0.0
    ensures Sum(s) > 0.0
  {
    var n := |s| - 1;
    if k < n {
      SumIsPositive(s[..n], k);
    } else {
      SumIsNonnegative(s[..n]);
    }
  }

  lemma {:induction false} SumIsNonnegative(s: seq<real>)
    requires forall i :: 0 <= i < |s| ==> s[i] >= 0.0
    ensures Sum(s) >= 0.0
  {
    if s != [] {
      SumIsNonnegative(s[..|s| - 1]);
    }
  }

  lemma {:induction false} StepAt(values: seq<seq<Cell>>, valid: seq<seq<bool>>, n: nat, m: nat, i: nat)
    requires MaskedDays(values, valid, n) && m < |values| && i < m
    ensures Steps(values, valid, n, m)[i]
            == Distance(Portfolio(values[i], valid[i]), Portfolio(values[i + 1], valid[i + 1])) / 2.0
  {
    hide Portfolio;
    if i < m - 1 {
      StepAt(values, valid, n, m - 1, i);
    }
  }

  lemma PositiveQuotient(x: real, n: nat)
    requires x > 0.0 && n > 0
    ensures x / n as real > 0.0
  {
  }

  lemma SpikeTurnover(m: nat, n: nat, t: nat, i: nat, valid: seq<seq<bool>>)
    requires MaskedDays(Spike(m, n, t, i), valid, n) && t < m && n >= 2 && i < n && valid[t][i]
    ensures TurnoverOf(Spike(m, n, t, i), valid, n) > 0.0
  {
    hide Portfolio;
    hide Sum;
    hide Distance;
    hide Steps;
    if m >= 2 {
      var v := Spike(m, n, t, i);
      var steps := Steps(v, valid, n, m - 1);
      forall u | 0 <= u < m - 1 ensures steps[u] == if u == t || u + 1 == t then 0.5 else 0.0 {
        StepAt(v, valid, n, m - 1, u);
        SpikeSteps(m, n, t, i, valid, u);
      }
      SumIsPositive(steps, if t < m - 1 then t else t - 1);
      PositiveQuotient(Sum(steps), m - 1);
    }
  }

  lemma {:induction false} SumOfOne(s: seq<real>, k: nat)
    requires k < |s| && forall i :: 0 <= i < |s| && i != k ==> s[i] == 0.0
    ensures Sum(s) == s[k]
  {
    var n := |s| - 1;
    if k < n {
      SumOfOne(s[..n], k);
    } else if n > 0 {
      SumOfOne(s[..n], 0);
    }
  }

  lemma NegativeProduct(a: real, b: real)
    requires a < 0.0 && b > 0.0
    ensures a * b < 0.0
  {
  }

  lemma NegativeRatio(a: real, b: real)
    requires a < 0.0 && b > 0.0
    ensures Ratio(a, b) < 0.0
  {
  }

  lemma SpikeRates(m: nat, n: nat, t: nat, i: nat, valid: seq<seq<bool>>, amounts: seq<seq<Cell>>)
    requires MaskedDays(Spike(m, n, t, i), valid, n) && MaskedAmounts(Spike(m, n, t, i), amounts, n)
    requires t < m && i < n && valid[t][i] && Available(valid[t], amounts[t]) > 0.0 && Amount(amounts[t][i]) < 0.0
    ensures Sum(Rates(Spike(m, n, t, i), valid, amounts, n)) < 0.0
  {
    hide Rate;
    hide Available;
    hide Amount;
    hide Ratio;
    hide Sum;
    var rates := Rates(Spike(m, n, t, i), valid, amounts, n);
    forall u | 0 <= u < m && u != t ensures rates[u] == 0.0 {
      UnitRate(n, n, valid[u], amounts[u]);
    }
    UnitRate(n, i, valid[t], amounts[t]);
    NegativeRatio(Amount(amounts[t][i]), Available(valid[t], amounts[t]));
    SumOfOne(rates, t);
  }

  lemma NegativeQuotient(x: real, n: nat)
    requires x < 0.0 && n > 0
    ensures x / n as real < 0.0
  {
  }

  /** One negative amount of a valid symbol, with something available, and some factor is refused. */
  lemma SpikeIsRefused(m: nat, n: nat, t: nat, i: nat, valid: seq<seq<bool>>, amounts: seq<seq<Cell>>,
                       limitHits: seq<bool>, halts: seq<bool>)
    requires MaskedDays(Spike(m, n, t, i), valid, n) && MaskedAmounts(Spike(m, n, t, i), amounts, n)
    requires t < m && i < n && valid[t][i] && Available(valid[t], amounts[t]) > 0.0 && Amount(amounts[t][i]) < 0.0
    ensures !Accepted(Spike(m, n, t, i), valid, Some(amounts), n, limitHits, halts)
  {
    OneSymbol(valid[t], amounts[t], i);
    SpikeTurnover(m, n, t, i, valid);
    SpikeRates(m, n, t, i, valid, amounts);
    hide Sum;
    hide TurnoverOf;
    hide Available;
    hide Amount;
    var v := Spike(m, n, t, i);
    NegativeQuotient(Sum(Rates(v, valid, amounts, n)), m);
    NegativeProduct(Sum(Rates(v, valid, amounts, n)) / m as real, TurnoverOf(v, valid, n));
  }

  /** With one symbol, a negative amount leaves nothing available. */
  lemma OneSymbol(valid: seq<bool>, amounts: seq<Cell>, i: nat)
    requires |valid| == |amounts| && i < |valid| && valid[i]
    requires Available(valid, amounts) > 0.0 && Amount(amounts[i]) < 0.0
    ensures |valid| >= 2
  {
  }

  /**
   * The exact condition on amounts: the assessment of every factor passes the checks of its artifact if and
   * only if no day with something available has a valid symbol with a negative amount.
   */
  lemma AcceptedForEveryFactorIff(valid: seq<seq<bool>>, amounts: seq<seq<Cell>>, n: nat, limitHits: seq<bool>,
                                  halts: seq<bool>)
    requires SameShape(valid, amounts, n)
    ensures Sound(valid, Some(amounts), n)
       <==> forall values: seq<seq<Cell>> :: MaskedDays(values, valid, n) ==>
              Accepted(values, valid, Some(amounts), n, limitHits, halts)
  {
    hide Accepted;
    hide Available;
    if Sound(valid, Some(amounts), n) {
      forall values: seq<seq<Cell>> | MaskedDays(values, valid, n)
        ensures Accepted(values, valid, Some(amounts), n, limitHits, halts)
      {
        SoundIsAccepted(values, valid, amounts, n, limitHits, halts);
      }
    } else {
      var t: nat :| t < |valid| && !SoundDay(valid[t], amounts[t]);
      var i: nat :| i < n && valid[t][i] && Amount(amounts[t][i]) < 0.0;
      SpikeIsMasked(|valid|, n, t, i, valid);
      SpikeIsRefused(|valid|, n, t, i, valid, amounts, limitHits, halts);
    }
  }

  lemma SoundIsAccepted(values: seq<seq<Cell>>, valid: seq<seq<bool>>, amounts: seq<seq<Cell>>, n: nat,
                        limitHits: seq<bool>, halts: seq<bool>)
    requires MaskedDays(values, valid, n) && MaskedAmounts(values, amounts, n) && Sound(valid, Some(amounts), n)
    ensures Accepted(values, valid, Some(amounts), n, limitHits, halts)
  {
    hide TurnoverOf;
    hide ParticipationOf;
    TurnoverInRange(values, valid, n);
    ParticipationInRange(values, valid, Some(amounts), TurnoverOf(values, valid, n), n);
  }

  /** Without amounts the assessment of every factor passes. */
  lemma AcceptedWithoutAmounts(values: seq<seq<Cell>>, valid: seq<seq<bool>>, n: nat, limitHits: seq<bool>,
                               halts: seq<bool>)
    requires MaskedDays(values, valid, n)
    ensures Accepted(values, valid, None, n, limitHits, halts)
  {
    hide TurnoverOf;
    TurnoverInRange(values, valid, n);
  }

  /** Amounts -1 and 3 of two valid symbols: the factor that looks at the first is refused. */
  lemma NegativeAmountIsRefused(limitHits: seq<bool>, halts: seq<bool>)
    ensures MaskedDays([[Some(1.0), Some(0.0)]], [[true, true]], 2)
    ensures !Accepted([[Some(1.0), Some(0.0)]], [[true, true]], Some([[Some(-1.0), Some(3.0)]]), 2, limitHits, halts)
  {
    var valid, amounts := [true, true], [Some(-1.0), Some(3.0)];
    assert Available(valid[..1], amounts[..1]) == -1.0 by {
      assert Available(valid[..1][..0], amounts[..1][..0]) == 0.0;
    }
    assert Available(valid, amounts) == 2.0;
    assert Cells(Unit(2, 0)) == [Some(1.0), Some(0.0)];
    assert Spike(1, 2, 0, 0) == [[Some(1.0), Some(0.0)]];
    SpikeIsMasked(1, 2, 0, 0, [valid]);
    SpikeIsRefused(1, 2, 0, 0, [valid], [amounts], limitHits, halts);
  }
}
