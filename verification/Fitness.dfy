/**
 * `evaluate_factor_range`: the day loop of a factor evaluation, and the part of the data it looks at.
 * The standard deviation and the correlation are parameters.
 */
module Fitness {
  import opened Wrappers
  import opened Numbers
  import opened Sorting
  import opened Ops
  import opened CrossSection

  datatype Statistics = Statistics(std: seq<real> -> real, correlation: (seq<real>, seq<real>) -> real)
  datatype Thresholds = Thresholds(minCoverage: real, minRankIc: real, minIcir: real, minExcess: real)
  datatype Period = Period(day: int, strategy: real, benchmark: real)

  /** What the day loop accumulates. */
  datatype DayState = DayState(ics: seq<real>, rankIcs: seq<real>, periods: seq<Period>, lastDay: int,
                               previous: Option<seq<nat>>)

  datatype Metrics =
    | TooShort
    | Sparse(coverage: real, evaluatedDays: nat, validDays: nat)
    | Full(rankIc: real, icMean: real, icir: real, coverage: real, strategy: real, benchmark: real, excess: real,
           fitness: real, evaluatedDays: nat, validDays: nat, topK: nat, passed: bool)

  const TURNOVER_COST: real := 0.001
  const TRADING_DAYS_PER_YEAR: real := 250.0
  const TINY: real := 0.000000000001

  function Least(x: int, y: int): int {
    if x <= y then x else y
  }

  function Return(later: Cell, now: Cell): Cell {
    if later.Some? && now.Some? && now.value != 0.0 then Some(later.value / now.value - 1.0) else None
  }

  /** The forward gains of day `t`, missing where they would reach past the limit. */
  function Forward(closes: Panel, t: nat, limit: int, horizon: nat, n: nat): (c: Column)
    requires Shaped(closes, |closes|, n) && limit + horizon <= |closes|
    ensures |c| == n
  {
    if t < limit then seq(n, i requires 0 <= i < n => Return(closes[t + horizon][i], closes[t][i])) else BlankColumn(n)
  }

  /** The symbols with both a factor value and a return, among the first `n`. */
  function Usable(factor: Column, gains: Column, n: nat): (r: seq<nat>)
    requires n <= |factor| && n <= |gains|
    ensures |r| <= n
    ensures forall i :: 0 <= i < |r| ==> r[i] < n && factor[r[i]].Some? && gains[r[i]].Some?
    ensures forall i, j :: 0 <= i < j < |r| ==> r[i] < r[j]
    ensures forall i: nat :: i < n && factor[i].Some? && gains[i].Some? ==> i in r
  {
    if n == 0 then []
    else Usable(factor, gains, n - 1) + if factor[n - 1].Some? && gains[n - 1].Some? then [n - 1] else []
  }

  function Values(c: Column, symbols: seq<nat>): (r: seq<real>)
    requires forall i :: 0 <= i < |symbols| ==> symbols[i] < |c| && c[symbols[i]].Some?
    ensures |r| == |symbols|
  {
    seq(|symbols|, i requires 0 <= i < |symbols| => c[symbols[i]].value)
  }

  /** `rank` on values that are all present. */
  function Ranks(values: seq<real>): (r: seq<real>)
    ensures |r| == |values|
  {
    seq(|values|, i requires 0 <= i < |values| => (AheadOf(values, |values|, i) + 1) as real / |values| as real)
  }

  /** The symbols with the highest factor values, at most `selected` of them. */
  function Chosen(symbols: seq<nat>, factor: seq<real>, selected: nat): (r: seq<nat>)
    requires |symbols| == |factor|
    ensures |r| == (if selected < |symbols| then selected else |symbols|)
    ensures forall i :: 0 <= i < |r| ==> r[i] in symbols
  {
    var count := if selected < |symbols| then selected else |symbols|;
    var order := Argsort(factor)[|symbols| - count..];
    seq(count, i requires 0 <= i < count => symbols[order[i]])
  }

  lemma LateIsChosen(symbols: seq<nat>, factor: seq<real>, selected: nat, b: nat)
    requires |symbols| == |factor| && |symbols| - |Chosen(symbols, factor, selected)| <= b < |symbols|
    ensures symbols[Argsort(factor)[b]] in Chosen(symbols, factor, selected)
  {
    var r := Chosen(symbols, factor, selected);
    assert r[b - (|symbols| - |r|)] == symbols[Argsort(factor)[b]];
  }

  /** The chosen symbols are distinct, and no symbol left out has a higher factor value than one that is in. */
  lemma ChosenAreHighest(symbols: seq<nat>, factor: seq<real>, selected: nat)
    requires |symbols| == |factor| && forall i, j :: 0 <= i < j < |symbols| ==> symbols[i] < symbols[j]
    ensures var r := Chosen(symbols, factor, selected);
            && (forall i, j :: 0 <= i < j < |r| ==> r[i] != r[j])
            && forall i, j :: 0 <= i < |symbols| && 0 <= j < |symbols| && symbols[i] in r && symbols[j] !in r
                ==> factor[j] <= factor[i]
  {
    hide OrderOf;
    var r, order := Chosen(symbols, factor, selected), Argsort(factor);
    var first := |symbols| - |r|;
    ArgsortSorts(factor);
    assert forall i :: 0 <= i < |r| ==> r[i] == symbols[order[first + i]];
    forall i, j | 0 <= i < j < |r| ensures r[i] != r[j] {
      assert order[first + i] != order[first + j];
    }
    hide Chosen;
    forall i, j | 0 <= i < |symbols| && 0 <= j < |symbols| && symbols[i] in r && symbols[j] !in r
      ensures factor[j] <= factor[i]
    {
      var a :| 0 <= a < |r| && r[a] == symbols[i];
      assert order[first + a] == i;
      var b := PositionOf(factor, j);
      if b >= first {
        LateIsChosen(symbols, factor, selected, b);
      }
      var sorted := Gather(factor, order);
      assert sorted[b] <= sorted[first + a];
    }
  }

  function Entering(chosen: seq<nat>, previous: seq<nat>): (m: nat)
    ensures m <= |chosen|
  {
    if chosen == [] then 0
    else Entering(chosen[..|chosen| - 1], previous) + if chosen[|chosen| - 1] in previous then 0 else 1
  }

  function Turnover(chosen: seq<nat>, previous: Option<seq<nat>>): (x: real)
    ensures 0.0 <= x <= 1.0
  {
    if previous.None? then 1.0
    else Entering(chosen, previous.value) as real / (if |chosen| > 1 then |chosen| else 1) as real
  }

  function MeanOrZero(s: seq<real>): real {
    if s == [] then 0.0 else Mean(s)
  }

  /** One pass of the day loop, on the day's factor column and forward gains. */
  function DayStep(f: Statistics, factor: Column, gains: Column, day: int, horizon: nat, selected: nat, n: nat,
                   s: DayState): DayState
    requires |factor| == n && |gains| == n
  {
    var symbols := Usable(factor, gains, n);
    var x, y := Values(factor, symbols), Values(gains, symbols);
    if |symbols| < 10 || f.std(x) < TINY || f.std(y) < TINY then s
    else
      var seen := s.(ics := s.ics + [f.correlation(x, y)], rankIcs := s.rankIcs + [f.correlation(Ranks(x), Ranks(y))]);
      if day - s.lastDay < horizon then seen
      else
        var chosen := Chosen(symbols, x, selected);
        ChosenHaveGains(symbols, x, selected, gains);
        var cost := TURNOVER_COST * Turnover(chosen, s.previous);
        var period := Period(day, MeanOrZero(Values(gains, chosen)) - cost, Mean(y));
        seen.(periods := s.periods + [period], lastDay := day, previous := Some(chosen))
  }

  lemma ChosenHaveGains(symbols: seq<nat>, factor: seq<real>, selected: nat, gains: Column)
    requires |symbols| == |factor|
    requires forall i :: 0 <= i < |symbols| ==> symbols[i] < |gains| && gains[symbols[i]].Some?
    ensures var r := Chosen(symbols, factor, selected);
            forall i :: 0 <= i < |r| ==> r[i] < |gains| && gains[r[i]].Some?
  {
    hide Chosen;
    var r := Chosen(symbols, factor, selected);
    forall i | 0 <= i < |r| ensures r[i] < |gains| && gains[r[i]].Some? {
      assert r[i] in symbols;
    }
  }

  ghost predicate SameShape(values: Panel, closes: Panel, n: nat) {
    Shaped(values, |values|, n) && Shaped(closes, |values|, n)
  }

  function Limit(days: int, evalEnd: int, horizon: nat): int {
    var m := Least(days - horizon, evalEnd - horizon);
    if m > 0 then m else 0
  }

  /** The state of the loop before day `t`. */
  function Days(f: Statistics, values: Panel, closes: Panel, start: nat, t: nat, limit: nat, horizon: nat,
                selected: nat, n: nat): DayState
    requires SameShape(values, closes, n) && start <= t <= |values| && (limit == 0 || limit + horizon <= |values|)
    requires horizon <= |values|
    decreases t
  {
    if t == start then DayState([], [], [], start - horizon, None)
    else
      var before := Days(f, values, closes, start, t - 1, limit, horizon, selected, n);
      DayStep(f, values[t - 1], Forward(closes, t - 1, limit, horizon, n), t - 1, horizon, selected, n, before)
  }

  function Strategies(periods: seq<Period>): (s: seq<real>)
    ensures |s| == |periods|
  {
    seq(|periods|, i requires 0 <= i < |periods| => periods[i].strategy)
  }

  function Benchmarks(periods: seq<Period>): (s: seq<real>)
    ensures |s| == |periods|
  {
    seq(|periods|, i requires 0 <= i < |periods| => periods[i].benchmark)
  }

  /** The metrics of the state the loop ends with. */
  function Summary(f: Statistics, s: DayState, days: nat, horizon: nat, selected: nat, thresholds: Thresholds): Metrics
    requires days > 0 && horizon > 0
  {
    var coverage := |s.ics| as real / days as real;
    if coverage < thresholds.minCoverage || s.rankIcs == [] then Sparse(coverage, days, |s.ics|)
    else
      var rankIc, icMean := Mean(s.rankIcs), MeanOrZero(s.ics);
      var deviation := f.std(s.rankIcs);
      var icir := rankIc / if deviation > TINY then deviation else 0.01;
      var strategy := MeanOrZero(Strategies(s.periods)) * TRADING_DAYS_PER_YEAR / horizon as real;
      var benchmark := MeanOrZero(Benchmarks(s.periods)) * TRADING_DAYS_PER_YEAR / horizon as real;
      var excess := strategy - benchmark;
      Full(rankIc, icMean, icir, coverage, strategy, benchmark, excess, 5.0 * rankIc + 0.5 * icir + excess, days,
           |s.ics|,
           selected, rankIc >= thresholds.minRankIc && icir >= thresholds.minIcir && excess > thresholds.minExcess)
  }

  function Selected(topK: nat, n: nat): nat {
    if topK > 0 then topK else if n / 100 > 5 then n / 100 else 5
  }

  function EvaluateRange(f: Statistics, values: Panel, closes: Panel, evalStart: int, evalEnd: int, horizon: nat,
                         topK: nat, thresholds: Thresholds, n: nat): Metrics
    requires SameShape(values, closes, n) && horizon > 0
  {
    var start, end := if evalStart > 0 then evalStart else 0, Least(evalEnd, |values| - horizon);
    if end <= start then TooShort
    else
      var state := Days(f, values, closes, start, end, Limit(|values|, evalEnd, horizon), horizon, Selected(topK, n),
                        n);
      Summary(f, state, end - start, horizon, Selected(topK, n), thresholds)
  }

  /** `evaluate_factor_range` */
  method EvaluateFactorRange(f: Statistics, values: Panel, closes: Panel, evalStart: int, evalEnd: int, horizon: nat,
                             topK: nat, thresholds: Thresholds, n: nat) returns (m: Metrics)
    requires SameShape(values, closes, n) && horizon > 0
    ensures m == EvaluateRange(f, values, closes, evalStart, evalEnd, horizon, topK, thresholds, n)
  {
    hide DayStep;
    hide Forward;
    hide Summary;
    var start, end := if evalStart > 0 then evalStart else 0, Least(evalEnd, |values| - horizon);
    if end <= start {
      return TooShort;
    }
    var limit := Limit(|values|, evalEnd, horizon);
    var selected := Selected(topK, n);
    var state := DayState([], [], [], start - horizon, None);
    for day := start to end
      invariant state == Days(f, values, closes, start, day, limit, horizon, selected, n)
    {
      state := DayStep(f, values[day], Forward(closes, day, limit, horizon, n), day, horizon, selected, n, state);
    }
    return Summary(f, state, end - start, horizon, selected, thresholds);
  }

  // ------------------------------------------------------------------ the footprint

  /** Panels of the same length that agree on the days `a` up to `b`. */
  ghost predicate AgreeOn(p: Panel, q: Panel, a: int, b: int) {
    |p| == |q| && forall t :: 0 <= t < |p| && a <= t < b ==> p[t] == q[t]
  }

  lemma ForwardFootprint(closes: Panel, others: Panel, t: nat, limit: nat, evalEnd: int, horizon: nat, n: nat)
    requires Shaped(closes, |closes|, n) && Shaped(others, |closes|, n) && (limit == 0 || limit + horizon <= evalEnd)
    requires limit + horizon <= |closes| && AgreeOn(closes, others, 0, evalEnd)
    ensures Forward(closes, t, limit, horizon, n) == Forward(others, t, limit, horizon, n)
  {
    if t < limit {
      assert closes[t] == others[t] && closes[t + horizon] == others[t + horizon];
    }
  }

  lemma {:induction false} DaysFootprint(f: Statistics, v: Panel, w: Panel, c: Panel, d: Panel, start: nat, t: nat,
                                         limit: nat, evalEnd: int, horizon: nat, selected: nat, n: nat)
    requires SameShape(v, c, n) && SameShape(w, d, n) && |v| == |w| && start <= t <= |v|
    requires limit + horizon <= |v| && (limit == 0 || limit + horizon <= evalEnd)
    requires AgreeOn(v, w, start, t) && AgreeOn(c, d, 0, evalEnd)
    ensures Days(f, v, c, start, t, limit, horizon, selected, n) == Days(f, w, d, start, t, limit, horizon, selected, n)
    decreases t
  {
    hide DayStep;
    hide Forward;
    if t > start {
      DaysFootprint(f, v, w, c, d, start, t - 1, limit, evalEnd, horizon, selected, n);
      ForwardFootprint(c, d, t - 1, limit, evalEnd, horizon, n);
    }
  }

  /**
   * The footprint. An evaluation looks at factor columns before both `evalEnd` and the last `horizon` days,
   * and at closing prices before `evalEnd` only.
   */
  lemma EvaluateRangeFootprint(f: Statistics, v: Panel, w: Panel, c: Panel, d: Panel, evalStart: int, evalEnd: int,
                               horizon: nat, topK: nat, thresholds: Thresholds, n: nat)
    requires SameShape(v, c, n) && SameShape(w, d, n) && |v| == |w| && horizon > 0
    requires AgreeOn(v, w, evalStart, Least(evalEnd, |v| - horizon)) && AgreeOn(c, d, 0, evalEnd)
    ensures EvaluateRange(f, v, c, evalStart, evalEnd, horizon, topK, thresholds, n)
         == EvaluateRange(f, w, d, evalStart, evalEnd, horizon, topK, thresholds, n)
  {
    hide Days;
    hide Summary;
    var start, end := if evalStart > 0 then evalStart else 0, Least(evalEnd, |v| - horizon);
    if end > start {
      DaysFootprint(f, v, w, c, d, start, end, Limit(|v|, evalEnd, horizon), evalEnd, horizon, Selected(topK, n), n);
    }
  }

  // ------------------------------------------------------------------ holding periods

  ghost predicate Spaced(periods: seq<Period>, horizon: nat, start: int, lastDay: int) {
    && (forall i :: 0 < i < |periods| ==> periods[i].day >= periods[i - 1].day + horizon)
    && (forall i :: 0 <= i < |periods| ==> start <= periods[i].day <= lastDay)
    && (if periods == [] then lastDay == start - horizon else lastDay == periods[|periods| - 1].day)
    && |periods| * horizon <= lastDay - start + horizon
  }

  lemma DayStepSpaced(f: Statistics, factor: Column, gains: Column, day: int, horizon: nat, selected: nat, n: nat,
                      s: DayState, start: int)
    requires |factor| == n && |gains| == n && start <= day && s.lastDay < day
    requires Spaced(s.periods, horizon, start, s.lastDay)
    ensures var r := DayStep(f, factor, gains, day, horizon, selected, n, s);
            Spaced(r.periods, horizon, start, r.lastDay) && r.lastDay <= day
            && |r.ics| == |r.rankIcs| - |s.rankIcs| + |s.ics| && |s.ics| <= |r.ics| <= |s.ics| + 1
  {
    hide Usable;
    hide Values;
    hide Chosen;
    hide Ranks;
    hide Turnover;
    assert (|s.periods| + 1) * horizon == |s.periods| * horizon + horizon;
  }

  /** Holding periods never overlap, so a range of `m` days holds at most `(m - 1) / horizon + 1` of them. */
  lemma {:induction false} PeriodsNeverOverlap(f: Statistics, values: Panel, closes: Panel, start: nat, t: nat,
                                               limit: nat, horizon: nat, selected: nat, n: nat)
    requires SameShape(values, closes, n) && start <= t <= |values| && limit + horizon <= |values| && horizon > 0
    ensures var s := Days(f, values, closes, start, t, limit, horizon, selected, n);
            && Spaced(s.periods, horizon, start, s.lastDay) && s.lastDay < t
            && |s.ics| == |s.rankIcs| <= t - start
    decreases t
  {
    hide DayStep;
    hide Forward;
    hide Spaced;
    if t == start {
      NothingIsSpaced(horizon, start);
    } else {
      PeriodsNeverOverlap(f, values, closes, start, t - 1, limit, horizon, selected, n);
      DayStepSpaced(f, values[t - 1], Forward(closes, t - 1, limit, horizon, n), t - 1, horizon, selected, n,
                    Days(f, values, closes, start, t - 1, limit, horizon, selected, n), start);
    }
  }

  lemma NothingIsSpaced(horizon: nat, start: int)
    ensures Spaced([], horizon, start, start - horizon)
  {
  }
}
