/** The evidence that discovery collects for a candidate, and what it can depend on. */
module Discovery {
  import opened Wrappers
  import opened Numbers
  import opened Sorting
  import opened Vocab
  import opened Ops
  import opened StackVM
  import opened CrossSection
  import opened Fitness
  import opened Windows
  import opened FeaturePanel
  import Lookback

  datatype Config = Config(split: SplitConfig, horizon: nat, nWindows: int, embargo: int, evalWindow: nat,
                           thresholds: Thresholds)

  /** The truncated panels stand for the decay and turnover figures that are computed from them. */
  datatype Evidence = Evidence(preliminary: Metrics, walkforward: seq<(Window, Metrics)>, recent: Metrics,
                               recentValues: Panel, recentCloses: Panel, rankIcs: seq<real>)

  // ------------------------------------------------------------------ the rank-IC series

  function Places(values: seq<real>): (r: seq<real>)
    ensures |r| == |values|
  {
    seq(|values|, i requires 0 <= i < |values| => AheadOf(values, |values|, i) as real)
  }

  function AsReals(order: seq<nat>): (r: seq<real>)
    ensures |r| == |order|
  {
    seq(|order|, i requires 0 <= i < |order| => order[i] as real)
  }

  lemma {:induction false} AscendingReach(s: seq<nat>, i: nat)
    requires i < |s| && forall a, b :: 0 <= a < b < |s| ==> s[a] < s[b]
    ensures s[i] >= i
  {
    if i > 0 {
      AscendingReach(s, i - 1);
    }
  }

  lemma {:induction false} AscendingRoom(s: seq<nat>, i: nat, n: nat)
    requires i < |s| <= n && (forall a, b :: 0 <= a < b < |s| ==> s[a] < s[b]) && forall a :: 0 <= a < |s| ==> s[a] < n
    ensures s[i] + (|s| - i) <= n
    decreases |s| - i
  {
    if i < |s| - 1 {
      AscendingRoom(s, i + 1, n);
    }
  }

  /** Sorting a permutation inverts it. */
  lemma SortedPermutation(order: seq<nat>, i: nat)
    requires IsPermutation(order, |order|) && i < |order|
    ensures order[Argsort(AsReals(order))[i]] == i
  {
    hide OrderOf;
    var q := Argsort(AsReals(order));
    ArgsortSorts(AsReals(order));
    var sorted := seq(|order|, k requires 0 <= k < |order| => order[q[k]]);
    var reals := Gather(AsReals(order), q);
    forall a, b | 0 <= a < b < |order| ensures sorted[a] < sorted[b] {
      assert reals[a] <= reals[b];
      assert q[a] != q[b];
      assert q[a] < q[b] || q[b] < q[a];
    }
    AscendingReach(sorted, i);
    AscendingRoom(sorted, i, |order|);
  }

  /** `argsort(argsort(x))` gives every value its ordinal place. */
  lemma DoubleArgsort(values: seq<real>, i: nat)
    requires i < |values|
    ensures Argsort(AsReals(Argsort(values)))[i] == AheadOf(values, |values|, i)
  {
    var order := Argsort(values);
    ArgsortSorts(values);
    SortedPermutation(order, i);
    OrderPosition(values, |values|, i);
    var a, b := Argsort(AsReals(order))[i], AheadOf(values, |values|, i);
    assert order[a] == order[b];
    assert a == b || a < b || b < a;
  }

  function RankIcDay(f: Statistics, factor: Column, gains: Column, n: nat): seq<real>
    requires |factor| == n && |gains| == n
  {
    var symbols := Fitness.Usable(factor, gains, n);
    if |symbols| < 10 then []
    else
      var x, y := Places(Values(factor, symbols)), Places(Values(gains, symbols));
      if f.std(x) > 0.0 && f.std(y) > 0.0 then [f.correlation(x, y)] else []
  }

  function RankIcDays(f: Statistics, values: Panel, closes: Panel, t: nat, horizon: nat, n: nat): seq<real>
    requires SameShape(values, closes, n) && t + horizon <= |values|
  {
    if t == 0 then []
    else
      RankIcDays(f, values, closes, t - 1, horizon, n)
      + RankIcDay(f, values[t - 1], Forward(closes, t - 1, |values| - horizon, horizon, n), n)
  }

  function RankIcs(f: Statistics, values: Panel, closes: Panel, horizon: nat, n: nat): seq<real>
    requires SameShape(values, closes, n)
  {
    if horizon < 1 || |values| <= horizon then [] else RankIcDays(f, values, closes, |values| - horizon, horizon, n)
  }

  /** `rank_ic_series`: one observation per usable day, with ranks from sorting twice. */
  method RankIcSeries(f: Statistics, values: Panel, closes: Panel, horizon: nat, n: nat)
    returns (observations: seq<real>)
    requires SameShape(values, closes, n)
    ensures observations == RankIcs(f, values, closes, horizon, n)
  {
    hide Forward;
    hide RankIcDay;
    observations := [];
    if horizon < 1 || |values| <= horizon {
      return;
    }
    for day := 0 to |values| - horizon
      invariant observations == RankIcDays(f, values, closes, day, horizon, n)
    {
      var gains := Forward(closes, day, |values| - horizon, horizon, n);
      var seen := ObserveDay(f, values[day], gains, n);
      observations := observations + seen;
    }
  }

  method ObserveDay(f: Statistics, factor: Column, gains: Column, n: nat) returns (seen: seq<real>)
    requires |factor| == n && |gains| == n
    ensures seen == RankIcDay(f, factor, gains, n)
  {
    hide OrderOf;
    hide AheadOf;
    var symbols := Fitness.Usable(factor, gains, n);
    if |symbols| < 10 {
      return [];
    }
    var x := PlacesBySorting(Values(factor, symbols));
    var y := PlacesBySorting(Values(gains, symbols));
    return if f.std(x) > 0.0 && f.std(y) > 0.0 then [f.correlation(x, y)] else [];
  }

  method PlacesBySorting(values: seq<real>) returns (places: seq<real>)
    ensures places == Places(values)
  {
    hide OrderOf;
    hide AheadOf;
    places := AsReals(Argsort(AsReals(Argsort(values))));
    forall i | 0 <= i < |values| ensures places[i] == Places(values)[i] {
      DoubleArgsort(values, i);
    }
  }

  // ------------------------------------------------------------------ the evidence

  function PreliminaryStart(config: Config, s: Split): int {
    if config.evalWindow > 0 && s.discoveryEnd - config.evalWindow > s.discoveryStart
        then s.discoveryEnd - config.evalWindow
    else s.discoveryStart
  }

  function WindowMetrics(f: Statistics, values: Panel, closes: Panel, config: Config, s: Split, n: nat)
    : seq<(Window, Metrics)>
    requires SameShape(values, closes, n) && config.horizon > 0
  {
    var w := EvalWindows(AtLeast(s.discoveryStart, 0), Least(|values| - config.horizon, s.discoveryEnd),
                         config.nWindows, config.embargo);
    seq(|w|, i requires 0 <= i < |w| =>
      (w[i], EvaluateRange(f, values, closes, w[i].0, w[i].1, config.horizon, 0, config.thresholds, n)))
  }

  function RecentStart(days: nat, horizon: nat): nat {
    var span := if 4 * horizon > 20 then 4 * horizon else 20;
    if days > span then days - span else 0
  }

  /** What `evaluate_discovery` and the cohort statistics compute from a candidate's panel of values. */
  function Collect(f: Statistics, values: Panel, closes: Panel, config: Config, s: Split, n: nat): Evidence
    requires SameShape(values, closes, n) && config.horizon > 0 && 0 <= s.discoveryEnd <= |values|
  {
    var v, c := values[..s.discoveryEnd], closes[..s.discoveryEnd];
    var recent := RecentStart(|v|, config.horizon);
    Evidence(
      EvaluateRange(f, values, closes, PreliminaryStart(config, s), s.discoveryEnd, config.horizon, 0,
                    config.thresholds, n),
      WindowMetrics(f, values, closes, config, s, n),
      EvaluateRange(f, v, c, recent, |v| - config.horizon, config.horizon, 0, config.thresholds, n),
      v[recent..], c[recent..],
      RankIcs(f, v, c, config.horizon, n))
  }

  lemma WindowMetricsFootprint(f: Statistics, v: Panel, w: Panel, c: Panel, d: Panel, config: Config, s: Split, n: nat)
    requires SameShape(v, c, n) && SameShape(w, d, n) && |v| == |w| && config.horizon > 0
    requires AgreeOn(v, w, 0, s.discoveryEnd) && AgreeOn(c, d, 0, s.discoveryEnd)
    ensures WindowMetrics(f, v, c, config, s, n) == WindowMetrics(f, w, d, config, s, n)
  {
    hide EvaluateRange;
    hide EvalWindows;
    var start, end := AtLeast(s.discoveryStart, 0), Least(|v| - config.horizon, s.discoveryEnd);
    var windows := EvalWindows(start, end, config.nWindows, config.embargo);
    forall i | 0 <= i < |windows|
      ensures EvaluateRange(f, v, c, windows[i].0, windows[i].1, config.horizon, 0, config.thresholds, n)
           == EvaluateRange(f, w, d, windows[i].0, windows[i].1, config.horizon, 0, config.thresholds, n)
    {
      WindowInside(start, end, config.nWindows, config.embargo, i);
      EvaluateRangeFootprint(f, v, w, c, d, windows[i].0, windows[i].1, config.horizon, 0, config.thresholds, n);
    }
  }

  lemma WindowInside(start: int, end: int, n: int, embargo: int, i: nat)
    requires i < |EvalWindows(start, end, n, embargo)|
    ensures start <= EvalWindows(start, end, n, embargo)[i].0 && EvalWindows(start, end, n, embargo)[i].1 <= end
  {
    StartBounds(start, end, AtLeast(n, 1), AtLeast(embargo, 0), i);
  }

  /** The evidence looks at no day from the end of discovery on. */
  lemma CollectFootprint(f: Statistics, v: Panel, w: Panel, c: Panel, d: Panel, config: Config, s: Split, n: nat)
    requires SameShape(v, c, n) && SameShape(w, d, n) && |v| == |w| && config.horizon > 0
    requires 0 <= s.discoveryStart <= s.discoveryEnd <= |v|
    requires AgreeOn(v, w, 0, s.discoveryEnd) && AgreeOn(c, d, 0, s.discoveryEnd)
    ensures Collect(f, v, c, config, s, n) == Collect(f, w, d, config, s, n)
  {
    hide EvaluateRange;
    hide WindowMetrics;
    hide RankIcs;
    assert v[..s.discoveryEnd] == w[..s.discoveryEnd] && c[..s.discoveryEnd] == d[..s.discoveryEnd];
    EvaluateRangeFootprint(f, v, w, c, d, PreliminaryStart(config, s), s.discoveryEnd, config.horizon, 0,
                           config.thresholds, n);
    WindowMetricsFootprint(f, v, w, c, d, config, s, n);
  }

  // ------------------------------------------------------------------ the holdout stays unseen

  lemma PastFeatures(g: Aggregate, a: Features, b: Features, symbols: seq<string>, dates: seq<int>,
                     signals: seq<Signal>, others: seq<Signal>, t: nat)
    requires SameBars(a, b, t, |dates|, |symbols|) && Ascending(dates)
    requires SeenBy(signals, CutoffOf(dates[t])) == SeenBy(others, CutoffOf(dates[t]))
    ensures Lookback.SamePastFeatures(BuildPanel(g, a, symbols, dates, signals),
                                      BuildPanel(g, b, symbols, dates, others), t)
  {
    hide BuildPanel;
    var p, q := BuildPanel(g, a, symbols, dates, signals), BuildPanel(g, b, symbols, dates, others);
    assert p.Keys == q.Keys;
    forall f | f in p ensures Lookback.SamePast(p[f], q[f], t) {
      forall u | 0 <= u <= t ensures p[f][u] == q[f][u] {
        FeatureOfThePast(g, a, b, symbols, dates, signals, others, t, f, u);
      }
    }
  }

  function ValuesOf(k: Kernel, g: Aggregate, rpn: seq<Token>, bars: Features, symbols: seq<string>, dates: seq<int>,
                    signals: seq<Signal>): (r: Option<Panel>)
    requires BarsOk(bars, |dates|, |symbols|)
    ensures r.Some? ==> SameShape(r.value, bars[Close], |symbols|) && |r.value| == |dates|
  {
    Value(k, rpn, BuildPanel(g, bars, symbols, dates, signals), |dates|, |symbols|)
  }

  lemma ValuesOfThePast(k: Kernel, g: Aggregate, rpn: seq<Token>, a: Features, b: Features, symbols: seq<string>,
                        dates: seq<int>, signals: seq<Signal>, others: seq<Signal>, t: nat)
    requires SameBars(a, b, t, |dates|, |symbols|) && Ascending(dates)
    requires SeenBy(signals, CutoffOf(dates[t])) == SeenBy(others, CutoffOf(dates[t]))
    ensures var v, w := ValuesOf(k, g, rpn, a, symbols, dates, signals), ValuesOf(k, g, rpn, b, symbols, dates, others);
            (v.Some? <==> w.Some?) && (v.Some? ==> AgreeOn(v.value, w.value, 0, t + 1))
  {
    hide BuildPanel;
    hide Exec;
    hide SeenBy;
    PastFeatures(g, a, b, symbols, dates, signals, others, t);
    var p, q := BuildPanel(g, a, symbols, dates, signals), BuildPanel(g, b, symbols, dates, others);
    Lookback.ExecIsCausal(k, rpn, p, q, t, |dates|, |dates|, |symbols|);
    if Exec(k, rpn, p, |dates|, |symbols|).Some? && |Exec(k, rpn, p, |dates|, |symbols|).value| == 1 {
      assert Lookback.SamePast(Exec(k, rpn, p, |dates|, |symbols|).value[0],
                               Exec(k, rpn, q, |dates|, |symbols|).value[0], t);
    }
  }

  /** There is a split, and the two histories agree through the last discovery day. */
  ghost predicate SameThroughDiscovery(a: Features, b: Features, symbols: seq<string>, dates: seq<int>,
                                       signals: seq<Signal>, others: seq<Signal>, config: Config)
  {
    Ascending(dates) && ResearchSplit(|dates|, config.split, config.horizon).Some? &&
    var last := ResearchSplit(|dates|, config.split, config.horizon).value.discoveryEnd - 1;
    && last < |dates| && SameBars(a, b, last, |dates|, |symbols|)
    && SeenBy(signals, CutoffOf(dates[last])) == SeenBy(others, CutoffOf(dates[last]))
  }

  function EvidenceOf(f: Statistics, values: Panel, bars: Features, symbols: seq<string>, dates: seq<int>,
                      config: Config): Evidence
    requires BarsOk(bars, |dates|, |symbols|) && SameShape(values, bars[Close], |symbols|) && |values| == |dates|
    requires ResearchSplit(|dates|, config.split, config.horizon).Some?
  {
    Collect(f, values, bars[Close], config, ResearchSplit(|dates|, config.split, config.horizon).value, |symbols|)
  }

  /**
   * The holdout stays unseen. Change bars from the end of discovery on, and signals that become available
   * after the cutoff of the last discovery day, in any way: a candidate's evidence is the same.
   */
  lemma DiscoverySeesNoHoldout(k: Kernel, f: Statistics, g: Aggregate, rpn: seq<Token>, a: Features, b: Features,
                               symbols: seq<string>, dates: seq<int>, signals: seq<Signal>, others: seq<Signal>,
                               config: Config)
    requires SameThroughDiscovery(a, b, symbols, dates, signals, others, config)
    requires ValuesOf(k, g, rpn, a, symbols, dates, signals).Some?
    ensures ValuesOf(k, g, rpn, b, symbols, dates, others).Some?
    ensures EvidenceOf(f, ValuesOf(k, g, rpn, a, symbols, dates, signals).value, a, symbols, dates, config)
         == EvidenceOf(f, ValuesOf(k, g, rpn, b, symbols, dates, others).value, b, symbols, dates, config)
  {
    hide ValuesOf;
    hide Collect;
    hide SeenBy;
    var s := ResearchSplit(|dates|, config.split, config.horizon).value;
    ValuesOfThePast(k, g, rpn, a, b, symbols, dates, signals, others, s.discoveryEnd - 1);
    assert Close in BARS;
    CollectFootprint(f, ValuesOf(k, g, rpn, a, symbols, dates, signals).value,
                     ValuesOf(k, g, rpn, b, symbols, dates, others).value, a[Close], b[Close], config, s, |symbols|);
  }

  // ------------------------------------------------------------------ whether there is evidence at all

  /** A value is present on one of the days from `a` up to `b`. */
  ghost predicate PresentOn(p: Panel, a: nat, b: nat) {
    exists t, i :: 0 <= t < |p| && a <= t < b && 0 <= i < |p[t]| && p[t][i].Some?
  }

  /** A candidate as discovery sees it: skipped when the machine gives nothing, otherwise its evidence. */
  function Evaluation(maxTokens: nat, k: Kernel, f: Statistics, g: Aggregate, rpn: seq<Token>, bars: Features,
                      symbols: seq<string>, dates: seq<int>, signals: seq<Signal>, config: Config): Option<Evidence>
    requires BarsOk(bars, |dates|, |symbols|) && ResearchSplit(|dates|, config.split, config.horizon).Some?
  {
    var v := Executed(maxTokens, k, rpn, BuildPanel(g, bars, symbols, dates, signals), |dates|, |symbols|);
    if v.None? then None else Some(EvidenceOf(f, v.value, bars, symbols, dates, config))
  }

  /** In terms of the panel that the program leaves. */
  lemma EvaluationIs(maxTokens: nat, k: Kernel, f: Statistics, g: Aggregate, rpn: seq<Token>, bars: Features,
                     symbols: seq<string>, dates: seq<int>, signals: seq<Signal>, config: Config)
    requires BarsOk(bars, |dates|, |symbols|) && ResearchSplit(|dates|, config.split, config.horizon).Some?
    ensures var v := ValuesOf(k, g, rpn, bars, symbols, dates, signals);
            Evaluation(maxTokens, k, f, g, rpn, bars, symbols, dates, signals, config)
            == (if Leaves(maxTokens, rpn, v) && !AllMissing(v.value)
                then Some(EvidenceOf(f, v.value, bars, symbols, dates, config))
                else None)
  {
    hide EvidenceOf;
    hide BuildPanel;
    hide Value;
    hide AllMissing;
  }

  /** The program is legal and leaves one panel. */
  predicate Leaves(maxTokens: nat, rpn: seq<Token>, v: Option<Panel>) {
    0 < |rpn| <= maxTokens && v.Some?
  }

  lemma PresentSomewhere(p: Panel, end: nat)
    ensures !AllMissing(p) <==> PresentOn(p, 0, end) || PresentOn(p, end, |p|)
  {
    if !AllMissing(p) {
      var t, i :| 0 <= t < |p| && 0 <= i < |p[t]| && p[t][i].Some?;
      assert t < end || t >= end;
    }
  }

  lemma SamePresence(p: Panel, q: Panel, end: nat)
    requires AgreeOn(p, q, 0, end)
    ensures PresentOn(p, 0, end) <==> PresentOn(q, 0, end)
  {
    if PresentOn(p, 0, end) {
      var t, i :| 0 <= t < |p| && 0 <= t < end && 0 <= i < |p[t]| && p[t][i].Some?;
      assert q[t][i].Some?;
    }
    if PresentOn(q, 0, end) {
      var t, i :| 0 <= t < |q| && 0 <= t < end && 0 <= i < |q[t]| && q[t][i].Some?;
      assert p[t][i].Some?;
    }
  }

  /**
   * What the final test for an all-missing panel lets through from the holdout. For two histories that agree
   * through the last discovery day: once there is evidence on both it is equal; a value on a discovery day
   * gives evidence on both; without one, later days alone decide on either side. So the two evaluations
   * agree exactly when a discovery day has a value, or both or neither have one later.
   */
  lemma SameEvaluationIff(maxTokens: nat, k: Kernel, f: Statistics, g: Aggregate, rpn: seq<Token>, a: Features,
                          b: Features, symbols: seq<string>, dates: seq<int>, signals: seq<Signal>, others: seq<Signal>,
                          config: Config)
    requires SameThroughDiscovery(a, b, symbols, dates, signals, others, config)
    requires Leaves(maxTokens, rpn, ValuesOf(k, g, rpn, a, symbols, dates, signals))
    ensures Leaves(maxTokens, rpn, ValuesOf(k, g, rpn, b, symbols, dates, others))
    ensures var end := ResearchSplit(|dates|, config.split, config.horizon).value.discoveryEnd;
            var v := ValuesOf(k, g, rpn, a, symbols, dates, signals).value;
            var w := ValuesOf(k, g, rpn, b, symbols, dates, others).value;
            var x := Evaluation(maxTokens, k, f, g, rpn, a, symbols, dates, signals, config);
            var y := Evaluation(maxTokens, k, f, g, rpn, b, symbols, dates, others, config);
            && (PresentOn(v, 0, end) <==> PresentOn(w, 0, end))
            && (x.Some? <==> PresentOn(v, 0, end) || PresentOn(v, end, |dates|))
            && (y.Some? <==> PresentOn(w, 0, end) || PresentOn(w, end, |dates|))
            && (x.Some? && y.Some? ==> x == y)
            && (x == y <==> PresentOn(v, 0, end) || (PresentOn(v, end, |dates|) <==> PresentOn(w, end, |dates|)))
  {
    var end := ResearchSplit(|dates|, config.split, config.horizon).value.discoveryEnd;
    DiscoverySeesNoHoldout(k, f, g, rpn, a, b, symbols, dates, signals, others, config);
    ValuesOfThePast(k, g, rpn, a, b, symbols, dates, signals, others, end - 1);
    EvaluationIs(maxTokens, k, f, g, rpn, a, symbols, dates, signals, config);
    EvaluationIs(maxTokens, k, f, g, rpn, b, symbols, dates, others, config);
    hide SeenBy;
    hide EvidenceOf;
    hide Evaluation;
    hide ValuesOf;
    var v := ValuesOf(k, g, rpn, a, symbols, dates, signals).value;
    var w := ValuesOf(k, g, rpn, b, symbols, dates, others).value;
    PresentSomewhere(v, end);
    PresentSomewhere(w, end);
    SamePresence(v, w, end);
    hide SameThroughDiscovery;
    hide PresentOn;
    hide AllMissing;
    hide ResearchSplit;
  }

  /** No bar has a value, but for `close` on the last day. */
  function LateBars(days: nat, n: nat, last: Cell): (bars: Features)
    requires days > 0
    ensures BarsOk(bars, days, n)
  {
    map f | f in BARS :: seq(days, t => seq(n, i => if f == Close && t == days - 1 then last else None))
  }

  lemma CloseIsLeft(k: Kernel, g: Aggregate, bars: Features, symbols: seq<string>, dates: seq<int>,
                    signals: seq<Signal>)
    requires BarsOk(bars, |dates|, |symbols|)
    ensures ValuesOf(k, g, [Feat(Close)], bars, symbols, dates, signals) == Some(bars[Close])
  {
    hide BuildPanel;
    var p := BuildPanel(g, bars, symbols, dates, signals);
    assert Exec(k, [Feat(Close)][..0], p, |dates|, |symbols|) == Some([]);
    assert [] + [p[Close]] == [p[Close]];
    assert Close in BARS && Close !in CONTENT;
    forall t | 0 <= t < |dates| ensures p[Close][t] == bars[Close][t] {
      PanelAt(g, bars, symbols, dates, signals, Close, t);
    }
    assert p[Close] == bars[Close];
  }

  lemma LateBarsAgree(days: nat, n: nat, price: real, t: nat)
    requires t + 1 < days
    ensures SameBars(LateBars(days, n, None), LateBars(days, n, Some(price)), t, days, n)
  {
  }

  lemma LateClose(days: nat, n: nat, last: Cell)
    requires days > 0 && n > 0
    ensures AllMissing(LateBars(days, n, last)[Close]) <==> last.None?
  {
    assert Close in BARS;
    var p := LateBars(days, n, last)[Close];
    assert p[days - 1][0] == last;
  }

  lemma LateEvaluation(maxTokens: nat, k: Kernel, f: Statistics, g: Aggregate, symbols: seq<string>, dates: seq<int>,
                       signals: seq<Signal>, config: Config, last: Cell)
    requires ResearchSplit(|dates|, config.split, config.horizon).Some? && dates != []
    requires symbols != [] && maxTokens > 0
    ensures Evaluation(maxTokens, k, f, g, [Feat(Close)], LateBars(|dates|, |symbols|, last), symbols, dates, signals,
                       config).Some?
       <==> last.Some?
  {
    var bars := LateBars(|dates|, |symbols|, last);
    CloseIsLeft(k, g, bars, symbols, dates, signals);
    EvaluationIs(maxTokens, k, f, g, [Feat(Close)], bars, symbols, dates, signals, config);
    LateClose(|dates|, |symbols|, last);
    hide EvidenceOf;
    hide ValuesOf;
    hide Evaluation;
    hide AllMissing;
    hide LateBars;
    hide ResearchSplit;
  }

  /** The holdout can decide: with no bars before it, `close` is evaluated if and only if the last day has a price. */
  lemma HoldoutDecides(maxTokens: nat, k: Kernel, f: Statistics, g: Aggregate, symbols: seq<string>, dates: seq<int>,
                       signals: seq<Signal>, config: Config, price: real)
    requires Ascending(dates) && ResearchSplit(|dates|, config.split, config.horizon).Some?
    requires symbols != [] && maxTokens > 0
    ensures var a, b := LateBars(|dates|, |symbols|, None), LateBars(|dates|, |symbols|, Some(price));
            && SameThroughDiscovery(a, b, symbols, dates, signals, signals, config)
            && Evaluation(maxTokens, k, f, g, [Feat(Close)], a, symbols, dates, signals, config).None?
            && Evaluation(maxTokens, k, f, g, [Feat(Close)], b, symbols, dates, signals, config).Some?
  {
    var end := ResearchSplit(|dates|, config.split, config.horizon).value.discoveryEnd;
    LateBarsAgree(|dates|, |symbols|, price, end - 1);
    LateEvaluation(maxTokens, k, f, g, symbols, dates, signals, config, None);
    LateEvaluation(maxTokens, k, f, g, symbols, dates, signals, config, Some(price));
    hide Evaluation;
    hide SameBars;
    hide LateBars;
    hide SeenBy;
  }
}
