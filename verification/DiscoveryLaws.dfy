/** What the collected evidence means: which days it looks at, and that its rank correlations read the order only. */
module DiscoveryLaws {
  import opened Wrappers
  import opened Numbers
  import opened Sorting
  import opened Ops
  import opened CrossSection
  import opened Fitness
  import opened FitnessLaws
  import opened Windows
  import opened Discovery

  // ------------------------------------------------------------------ the rank-IC series

  /** A place is the number of values that are smaller, or equal and earlier. */
  lemma PlacesLaw(values: seq<real>, i: nat)
    requires i < |values|
    ensures Places(values)[i] == |Earlier(values, |values|, i)| as real
  {
    AheadCounts(values, |values|, i);
  }

  /** Is there an observation: at least ten usable symbols, and neither list of places is constant? */
  ghost predicate Observes(f: Statistics, factor: Column, gains: Column, n: nat)
    requires |factor| == |gains| == n
  {
    var u := Fitness.Usable(factor, gains, n);
    |u| >= 10 && f.std(Places(Values(factor, u))) > 0.0 && f.std(Places(Values(gains, u))) > 0.0
  }

  ghost predicate Observation(f: Statistics, factor: Column, gains: Column, n: nat, ic: real)
    requires |factor| == |gains| == n
  {
    var u := Fitness.Usable(factor, gains, n);
    ic == f.correlation(Places(Values(factor, u)), Places(Values(gains, u)))
  }

  /** The gains over `horizon` days from day `t` on. */
  function GainsFrom(closes: Panel, t: nat, horizon: nat, n: nat): (c: Column)
    requires Shaped(closes, |closes|, n) && horizon <= |closes|
    ensures |c| == n
  {
    Forward(closes, t, |closes| - horizon, horizon, n)
  }

  /** `days` are the observed days before `t`, in order, and `ics` their rank correlations. */
  ghost predicate Series(f: Statistics, values: Panel, closes: Panel, t: nat, horizon: nat, n: nat, ics: seq<real>,
                         days: seq<nat>)
    requires SameShape(values, closes, n) && t + horizon <= |values|
  {
    && |ics| == |days|
    && (forall i, j :: 0 <= i < j < |days| ==> days[i] < days[j])
    && (forall d: nat :: d in days <==> d < t && Observes(f, values[d], GainsFrom(closes, d, horizon, n), n))
    && (forall k :: 0 <= k < |days| ==>
          days[k] < t && Observation(f, values[days[k]], GainsFrom(closes, days[k], horizon, n), n, ics[k]))
  }

  lemma NextDay(f: Statistics, values: Panel, closes: Panel, t: nat, horizon: nat, n: nat, ics: seq<real>,
                days: seq<nat>, ic: real)
    requires SameShape(values, closes, n) && t + 1 + horizon <= |values|
    requires Series(f, values, closes, t, horizon, n, ics, days)
    ensures var gains := GainsFrom(closes, t, horizon, n);
            if Observes(f, values[t], gains, n) then
              (Observation(f, values[t], gains, n, ic)
               ==> Series(f, values, closes, t + 1, horizon, n, ics + [ic], days + [t]))
            else Series(f, values, closes, t + 1, horizon, n, ics, days)
  {
    hide Observes;
    hide Observation;
    hide GainsFrom;
    var gains := GainsFrom(closes, t, horizon, n);
    if Observes(f, values[t], gains, n) {
      forall d: nat
        ensures d in days + [t] <==> d < t + 1 && Observes(f, values[d], GainsFrom(closes, d, horizon, n), n)
      {
        assert d in days + [t] <==> d in days || d == t;
      }
    }
  }

  lemma DayIs(f: Statistics, factor: Column, gains: Column, n: nat)
    requires |factor| == |gains| == n
    ensures var r := RankIcDay(f, factor, gains, n);
            if Observes(f, factor, gains, n) then |r| == 1 && Observation(f, factor, gains, n, r[0]) else r == []
  {
  }

  lemma {:induction false} DaysAre(f: Statistics, values: Panel, closes: Panel, t: nat, horizon: nat, n: nat)
    returns (days: seq<nat>)
    requires SameShape(values, closes, n) && t + horizon <= |values|
    ensures Series(f, values, closes, t, horizon, n, RankIcDays(f, values, closes, t, horizon, n), days)
  {
    hide RankIcDay;
    hide Series;
    hide Observes;
    hide Observation;
    hide Forward;
    if t == 0 {
      NoDays(f, values, closes, horizon, n);
      return [];
    }
    days := DaysAre(f, values, closes, t - 1, horizon, n);
    var before, gains := RankIcDays(f, values, closes, t - 1, horizon, n), GainsFrom(closes, t - 1, horizon, n);
    var r := RankIcDay(f, values[t - 1], gains, n);
    DayIs(f, values[t - 1], gains, n);
    if r == [] {
      assert before + r == before;
      NextDay(f, values, closes, t - 1, horizon, n, before, days, 0.0);
    } else {
      assert r == [r[0]];
      NextDay(f, values, closes, t - 1, horizon, n, before, days, r[0]);
      days := days + [t - 1];
    }
  }

  lemma NoDays(f: Statistics, values: Panel, closes: Panel, horizon: nat, n: nat)
    requires SameShape(values, closes, n) && horizon <= |values|
    ensures Series(f, values, closes, 0, horizon, n, [], [])
  {
  }

  /** `days` are all observed days that are followed by `horizon` more. */
  ghost predicate IsSeries(f: Statistics, values: Panel, closes: Panel, horizon: nat, n: nat, ics: seq<real>,
                           days: seq<nat>)
    requires SameShape(values, closes, n) && horizon <= |values|
  {
    Series(f, values, closes, |values| - horizon, horizon, n, ics, days)
  }

  /** The series has one correlation for each observed day that is followed by `horizon` more, in order. */
  lemma RankIcsLaw(f: Statistics, values: Panel, closes: Panel, horizon: nat, n: nat)
    requires SameShape(values, closes, n)
    ensures var ics := RankIcs(f, values, closes, horizon, n);
            if horizon < 1 || |values| <= horizon then ics == []
            else exists days: seq<nat> :: IsSeries(f, values, closes, horizon, n, ics, days)
  {
    hide Series;
    hide RankIcDays;
    if horizon >= 1 && |values| > horizon {
      var days := DaysAre(f, values, closes, |values| - horizon, horizon, n);
      assert IsSeries(f, values, closes, horizon, n, RankIcs(f, values, closes, horizon, n), days);
    }
  }

  lemma PlacesFollowOrder(x: seq<real>, y: seq<real>)
    requires SameRealOrder(x, y)
    ensures Places(x) == Places(y)
  {
    forall i | 0 <= i < |x| ensures Places(x)[i] == Places(y)[i] {
      AheadFollowsOrder(x, y, |x|, i);
    }
  }

  lemma DayFollowsOrder(f: Statistics, p: Column, q: Column, gains: Column, n: nat)
    requires |p| == |q| == |gains| == n && SameOrder(p, q, gains)
    ensures RankIcDay(f, p, gains, n) == RankIcDay(f, q, gains, n)
  {
    hide Fitness.Usable;
    hide Values;
    hide Places;
    hide SameOrder;
    ValuesFollowOrder(p, q, gains);
    PlacesFollowOrder(Values(p, Fitness.Usable(p, gains, n)), Values(q, Fitness.Usable(q, gains, n)));
  }

  lemma {:induction false} SeriesFollowsOrder(f: Statistics, v: Panel, w: Panel, closes: Panel, t: nat, horizon: nat,
                                              n: nat)
    requires SameShape(v, closes, n) && SameShape(w, closes, n) && t + horizon <= |v|
    requires forall d :: 0 <= d < t ==> SameOrder(v[d], w[d], GainsFrom(closes, d, horizon, n))
    ensures RankIcDays(f, v, closes, t, horizon, n) == RankIcDays(f, w, closes, t, horizon, n)
  {
    hide RankIcDay;
    hide SameOrder;
    hide Forward;
    if t > 0 {
      SeriesFollowsOrder(f, v, w, closes, t - 1, horizon, n);
      DayFollowsOrder(f, v[t - 1], w[t - 1], GainsFrom(closes, t - 1, horizon, n), n);
    }
  }

  /**
   * The series reads the order only: factor panels that order the symbols with a gain alike on every day have the
   * same rank correlations.
   */
  lemma RankIcsFollowOrder(f: Statistics, v: Panel, w: Panel, closes: Panel, horizon: nat, n: nat)
    requires SameShape(v, closes, n) && SameShape(w, closes, n) && horizon <= |v|
    requires forall d :: 0 <= d < |v| - horizon ==> SameOrder(v[d], w[d], GainsFrom(closes, d, horizon, n))
    ensures RankIcs(f, v, closes, horizon, n) == RankIcs(f, w, closes, horizon, n)
  {
    hide RankIcDays;
    hide SameOrder;
    if horizon >= 1 && |v| > horizon {
      SeriesFollowsOrder(f, v, w, closes, |v| - horizon, horizon, n);
    }
  }

  // ------------------------------------------------------------------ the evidence

  /** Is `tail` the last days before `end`, as many as there are up to `span`? */
  ghost predicate LastDays(p: Panel, tail: Panel, end: nat, span: nat) {
    && |tail| == (if end < span then end else span) && end <= |p|
    && forall j :: 0 <= j < |tail| ==> tail[j] == p[end - |tail| + j]
  }

  /** Are these the metrics of the days from `start` up to `end`, with the standard number of symbols? */
  ghost predicate MetricsOf(f: Statistics, values: Panel, closes: Panel, config: Config, start: int, end: int, n: nat,
                            m: Metrics)
    requires SameShape(values, closes, n) && config.horizon > 0
  {
    m == EvaluateRange(f, values, closes, start, end, config.horizon, 0, config.thresholds, n)
  }

  /**
   * What the evidence looks at. The preliminary metrics end with discovery and begin with it, or `evalWindow` days
   * before its end if that is later; the walk-forward windows tile the discovery days that a gain follows; the
   * recent panels are the last days of discovery, four horizons and at least twenty; the series is that of
   * all days before the end of discovery.
   */
  lemma CollectLaw(f: Statistics, values: Panel, closes: Panel, config: Config, s: Split, n: nat)
    requires SameShape(values, closes, n) && config.horizon > 0 && 0 <= s.discoveryStart <= s.discoveryEnd <= |values|
    ensures var e := Collect(f, values, closes, config, s, n);
            var span := if config.horizon > 5 then 4 * config.horizon else 20;
            var v, c := values[..s.discoveryEnd], closes[..s.discoveryEnd];
            && LastDays(values, e.recentValues, s.discoveryEnd, span)
            && LastDays(closes, e.recentCloses, s.discoveryEnd, span)
            && MetricsOf(f, v, c, config, s.discoveryEnd - |e.recentValues|, s.discoveryEnd - config.horizon, n,
                         e.recent)
            && (exists start: nat ::
                  && s.discoveryStart <= start <= s.discoveryEnd
                  && (config.evalWindow == 0 ==> start == s.discoveryStart)
                  && (config.evalWindow > 0 ==> s.discoveryEnd - start <= config.evalWindow)
                  && (start > s.discoveryStart ==> s.discoveryEnd - start == config.evalWindow)
                  && MetricsOf(f, values, closes, config, start, s.discoveryEnd, n, e.preliminary))
            && (forall i :: 0 <= i < |e.walkforward| ==>
                  var w := e.walkforward[i].0;
                  && s.discoveryStart <= w.0 && w.1 <= s.discoveryEnd && w.1 <= |values| - config.horizon
                  && MetricsOf(f, values, closes, config, w.0, w.1, n, e.walkforward[i].1))
            && e.rankIcs == RankIcs(f, v, c, config.horizon, n)
  {
    hide EvaluateRange;
    hide RankIcs;
    hide EvalWindows;
    var e := Collect(f, values, closes, config, s, n);
    var start: nat := PreliminaryStart(config, s);
    assert MetricsOf(f, values, closes, config, start, s.discoveryEnd, n, e.preliminary);
    var end := Least(|values| - config.horizon, s.discoveryEnd);
    var w := EvalWindows(s.discoveryStart, end, config.nWindows, config.embargo);
    forall i | 0 <= i < |w| ensures s.discoveryStart <= w[i].0 && w[i].1 <= end {
      WindowInside(s.discoveryStart, end, config.nWindows, config.embargo, i);
    }
  }
}
