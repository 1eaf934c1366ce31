/** The feature panel: derived columns, and content features behind the 09:25 cutoff. */
module FeaturePanel {
  import opened Wrappers
  import opened Numbers
  import opened Vocab
  import opened Ops
  import opened StackVM

  /** Moments are microseconds and dates are day numbers, both in China time. */
  const DAY: int := 86400000000
  const CUTOFF: int := 33900000000
  const LOOKBACK_DAYS: int := 5

  const BARS: set<Feature> := {Open, High, Low, Close, Volume, Amount, Turnover}
  const CONTENT: set<Feature> := {
    EventHeat, ThemeSentiment, BullishClaims, BearishClaims, VerifiedCatalysts, VerifiedRisks, ContentAttention,
    AuthorAttention, CrossVideoConsensus, CrossVideoDisagreement
  }

  /** A content signal: when it may be seen, the symbols it resolves to, and everything else it says. */
  datatype Signal = Signal(rejected: bool, availableFrom: Option<int>, symbols: set<string>, content: string)

  /** The value of a content cell from its signals, in order. */
  type Aggregate = (Feature, seq<Signal>) -> real

  function DateOf(moment: int): int {
    moment / DAY
  }

  function CutoffOf(date: int): int {
    date * DAY + CUTOFF
  }

  /** Does the signal count on this trading day? */
  predicate Visible(s: Signal, date: int) {
    && !s.rejected && s.availableFrom.Some?
    && s.availableFrom.value <= CutoffOf(date)
    && 0 <= date - DateOf(s.availableFrom.value) <= LOOKBACK_DAYS
  }

  ghost predicate Ascending(dates: seq<int>) {
    forall t, u :: 0 <= t <= u < |dates| ==> dates[t] <= dates[u]
  }

  // ------------------------------------------------------------------ when a signal is first seen

  /** The first date a signal may be seen on: its own date before the cutoff, otherwise the next. */
  function FirstDate(available: int): int {
    if available <= CutoffOf(DateOf(available)) then DateOf(available) else DateOf(available) + 1
  }

  /** The first trading day that shows a signal. */
  ghost predicate FirstShown(s: Signal, dates: seq<int>, t: nat) {
    t < |dates| && Visible(s, dates[t]) && forall u :: 0 <= u < t ==> !Visible(s, dates[u])
  }

  /** The first trading day on or after a date. */
  ghost predicate FirstFrom(dates: seq<int>, date: int, t: nat) {
    t < |dates| && date <= dates[t] && forall u :: 0 <= u < t ==> dates[u] < date
  }

  lemma VisibleBetween(s: Signal, date: int)
    requires !s.rejected && s.availableFrom.Some?
    ensures Visible(s, date)
       <==> FirstDate(s.availableFrom.value) <= date <= DateOf(s.availableFrom.value) + LOOKBACK_DAYS
  {
    var available := s.availableFrom.value;
    assert DateOf(available) * DAY <= available < DateOf(available) * DAY + DAY;
  }

  /** A signal is first shown on the first trading day from its first date on, unless that day is past the look-back. */
  lemma ShownFirstOn(s: Signal, dates: seq<int>, t: nat)
    requires !s.rejected && s.availableFrom.Some? && Ascending(dates)
    ensures FirstShown(s, dates, t)
       <==> && FirstFrom(dates, FirstDate(s.availableFrom.value), t)
            && dates[t] <= DateOf(s.availableFrom.value) + LOOKBACK_DAYS
  {
    var available := s.availableFrom.value;
    hide Visible;
    hide FirstDate;
    forall u | 0 <= u < |dates|
      ensures Visible(s, dates[u]) <==> FirstDate(available) <= dates[u] <= DateOf(available) + LOOKBACK_DAYS
    {
      VisibleBetween(s, dates[u]);
    }
  }

  /** Exactly when a signal is shown on its own date: that is a trading day and the signal is available by 09:25. */
  lemma ShownTheSameDayIff(s: Signal, dates: seq<int>)
    requires !s.rejected && s.availableFrom.Some? && Ascending(dates)
    ensures (exists t: nat :: FirstShown(s, dates, t) && dates[t] == DateOf(s.availableFrom.value))
       <==> && DateOf(s.availableFrom.value) in dates
            && s.availableFrom.value <= CutoffOf(DateOf(s.availableFrom.value))
  {
    var available := s.availableFrom.value;
    var own := DateOf(available);
    if own in dates && available <= CutoffOf(own) {
      var t: nat := FirstIndex(dates, own);
      ShownFirstOn(s, dates, t);
      assert FirstShown(s, dates, t) && dates[t] == own;
    }
  }

  /** The first index that holds a date. */
  function FirstIndex(dates: seq<int>, date: int): (t: nat)
    requires date in dates
    ensures t < |dates| && dates[t] == date && forall u :: 0 <= u < t ==> dates[u] != date
  {
    if dates[0] == date then 0
    else
      assert date in dates[1..];
      1 + FirstIndex(dates[1..], date)
  }

  /** Available at midnight of a trading day: shown on that day, not on the next. */
  lemma ShownOnItsOwnDay(symbols: set<string>, content: string)
    ensures FirstShown(Signal(false, Some(0), symbols, content), [0, 1], 0)
  {
    ShownFirstOn(Signal(false, Some(0), symbols, content), [0, 1], 0);
  }

  /** The index of a symbol: a later duplicate wins. */
  function RowOf(symbols: seq<string>, s: string): (r: Option<nat>)
    ensures r.Some? ==> r.value < |symbols| && symbols[r.value] == s
  {
    if symbols == [] then None
    else if symbols[|symbols| - 1] == s then Some(|symbols| - 1)
    else RowOf(symbols[..|symbols| - 1], s)
  }

  predicate Mentions(signal: Signal, symbols: seq<string>, row: nat)
    requires row < |symbols|
  {
    symbols[row] in signal.symbols && RowOf(symbols, symbols[row]) == Some(row)
  }

  /** The signals of one cell, in the order they were given. */
  function CellSignals(signals: seq<Signal>, symbols: seq<string>, row: nat, date: int): seq<Signal>
    requires row < |symbols|
  {
    if signals == [] then []
    else
      var last := signals[|signals| - 1];
      CellSignals(signals[..|signals| - 1], symbols, row, date)
      + if Visible(last, date) && Mentions(last, symbols, row) then [last] else []
  }

  function ContentCell(g: Aggregate, f: Feature, cell: seq<Signal>): Cell {
    Some(if cell == [] then 0.0 else g(f, cell))
  }

  function ContentColumn(g: Aggregate, f: Feature, symbols: seq<string>, date: int, signals: seq<Signal>): (c: Column)
    ensures |c| == |symbols|
  {
    seq(|symbols|, row requires 0 <= row < |symbols| => ContentCell(g, f, CellSignals(signals, symbols, row, date)))
  }

  function ContentPanel(g: Aggregate, f: Feature, symbols: seq<string>, dates: seq<int>,
                        signals: seq<Signal>): (p: Panel)
    ensures Shaped(p, |dates|, |symbols|)
  {
    seq(|dates|, t requires 0 <= t < |dates| => ContentColumn(g, f, symbols, dates[t], signals))
  }

  /** `_content_feature_panel`, first half: distributes the signals over the cells they are visible in. */
  method DistributeSignals(symbols: seq<string>, dates: seq<int>, signals: seq<Signal>)
    returns (cells: map<(nat, nat), seq<Signal>>)
    ensures forall row, t :: 0 <= row < |symbols| && 0 <= t < |dates| ==>
              At(cells, row, t) == CellSignals(signals, symbols, row, dates[t])
  {
    cells := map[];
    for i := 0 to |signals|
      invariant forall row, t :: 0 <= row < |symbols| && 0 <= t < |dates| ==>
                  At(cells, row, t) == CellSignals(signals[..i], symbols, row, dates[t])
    {
      cells := DistributeOne(symbols, dates, signals[i], cells);
      assert signals[..i + 1][..i] == signals[..i];
    }
    assert signals[..|signals|] == signals;
  }

  function At(cells: map<(nat, nat), seq<Signal>>, row: nat, t: nat): seq<Signal> {
    if (row, t) in cells then cells[(row, t)] else []
  }

  /** Adds a visible signal to the day's cells of every symbol it mentions. */
  method DistributeDay(symbols: seq<string>, signal: Signal, t: nat, before: map<(nat, nat), seq<Signal>>)
    returns (cells: map<(nat, nat), seq<Signal>>)
    ensures forall row :: 0 <= row < |symbols| ==>
              At(cells, row, t) == At(before, row, t) + if Mentions(signal, symbols, row) then [signal] else []
    ensures forall row, u :: u != t ==> At(cells, row, u) == At(before, row, u)
  {
    hide Mentions;
    cells := before;
    for row := 0 to |symbols|
      invariant forall r :: 0 <= r < row ==>
                  At(cells, r, t) == At(before, r, t) + if Mentions(signal, symbols, r) then [signal] else []
      invariant forall r :: row <= r ==> At(cells, r, t) == At(before, r, t)
      invariant forall r, u :: u != t ==> At(cells, r, u) == At(before, r, u)
    {
      if Mentions(signal, symbols, row) {
        cells := cells[(row, t) := At(cells, row, t) + [signal]];
      }
    }
  }

  method DistributeOne(symbols: seq<string>, dates: seq<int>, signal: Signal, before: map<(nat, nat), seq<Signal>>)
    returns (cells: map<(nat, nat), seq<Signal>>)
    ensures forall row, t :: 0 <= row < |symbols| && 0 <= t < |dates| ==>
              At(cells, row, t) == At(before, row, t)
                                   + (if Visible(signal, dates[t]) && Mentions(signal, symbols, row)
                                      then [signal] else [])
  {
    hide Mentions;
    hide At;
    cells := before;
    if signal.rejected || signal.availableFrom.None? {
      return;
    }
    for t := 0 to |dates|
      invariant forall row, u :: 0 <= row < |symbols| && 0 <= u < t ==>
                  At(cells, row, u) == At(before, row, u)
                                       + (if Visible(signal, dates[u]) && Mentions(signal, symbols, row)
                                          then [signal] else [])
      invariant forall row, u :: t <= u ==> At(cells, row, u) == At(before, row, u)
    {
      var available := signal.availableFrom.value;
      var delta := dates[t] - DateOf(available);
      if !(available > CutoffOf(dates[t]) || delta < 0 || delta > LOOKBACK_DAYS) {
        cells := DistributeDay(symbols, signal, t, cells);
      }
    }
  }

  // ------------------------------------------------------------------ derived columns

  function Ratio(x: Cell, y: Cell): Cell {
    if x.Some? && y.Some? && y.value != 0.0 then Some(x.value / y.value) else None
  }

  function Gain(x: Cell, y: Cell): Cell {
    var r := Ratio(x, y);
    if r.Some? then Some(r.value - 1.0) else None
  }

  function VwapColumn(amount: Column, volume: Column, n: nat): (c: Column)
    requires |amount| == n && |volume| == n
    ensures |c| == n
  {
    seq(n, i requires 0 <= i < n => Ratio(amount[i], volume[i]))
  }

  function ReturnColumn(close: Panel, t: nat, n: nat): (c: Column)
    requires Shaped(close, |close|, n) && t < |close|
    ensures |c| == n
  {
    if t == 0 then BlankColumn(n)
    else seq(n, i requires 0 <= i < n => Gain(close[t][i], close[t - 1][i]))
  }

  ghost predicate BarsOk(bars: Features, days: nat, n: nat) {
    bars.Keys == BARS && ShapedFeatures(bars, days, n)
  }

  lemma EveryFeatureIsBuilt()
    ensures forall f: Feature :: f in BARS + {Vwap, Ret} + CONTENT
  {
    forall f: Feature ensures f in BARS + {Vwap, Ret} + CONTENT {
      match f
      case Open =>
      case High =>
      case Low =>
      case Close =>
      case Volume =>
      case Amount =>
      case Turnover =>
      case Vwap =>
      case Ret =>
      case EventHeat =>
      case ThemeSentiment =>
      case BullishClaims =>
      case BearishClaims =>
      case VerifiedCatalysts =>
      case VerifiedRisks =>
      case ContentAttention =>
      case AuthorAttention =>
      case CrossVideoConsensus =>
      case CrossVideoDisagreement =>
    }
  }

  function ContentPanels(g: Aggregate, symbols: seq<string>, dates: seq<int>, signals: seq<Signal>): (p: Features)
    ensures ShapedFeatures(p, |dates|, |symbols|) && p.Keys == CONTENT
  {
    map f | f in CONTENT :: ContentPanel(g, f, symbols, dates, signals)
  }

  function BarPanels(bars: Features, days: nat, n: nat): (p: Features)
    requires BarsOk(bars, days, n)
    ensures ShapedFeatures(p, days, n) && p.Keys == BARS + {Vwap, Ret}
  {
    var vwap := seq(days, t requires 0 <= t < days => VwapColumn(bars[Amount][t], bars[Volume][t], n));
    var ret := seq(days, t requires 0 <= t < days => ReturnColumn(bars[Close], t, n));
    bars[Vwap := vwap][Ret := ret]
  }

  /** `build_feature_panel`: bars, `vwap`, `ret` and the content features. */
  function BuildPanel(g: Aggregate, bars: Features, symbols: seq<string>, dates: seq<int>,
                      signals: seq<Signal>): (p: Features)
    requires BarsOk(bars, |dates|, |symbols|)
    ensures ShapedFeatures(p, |dates|, |symbols|) && forall f: Feature :: f in p
  {
    EveryFeatureIsBuilt();
    BarPanels(bars, |dates|, |symbols|) + ContentPanels(g, symbols, dates, signals)
  }

  // ------------------------------------------------------------------ what a day's features depend on

  /** The signals that may be seen by a moment, in order. */
  function SeenBy(signals: seq<Signal>, moment: int): seq<Signal> {
    if signals == [] then []
    else
      var last := signals[|signals| - 1];
      SeenBy(signals[..|signals| - 1], moment)
      + if !last.rejected && last.availableFrom.Some? && last.availableFrom.value <= moment then [last] else []
  }

  lemma {:induction false} CellSeesOnlyThePast(signals: seq<Signal>, symbols: seq<string>, row: nat, date: int,
                                               moment: int)
    requires row < |symbols| && CutoffOf(date) <= moment
    ensures CellSignals(SeenBy(signals, moment), symbols, row, date) == CellSignals(signals, symbols, row, date)
  {
    hide Mentions;
    if signals != [] {
      var front, last := signals[..|signals| - 1], signals[|signals| - 1];
      CellSeesOnlyThePast(front, symbols, row, date, moment);
      var kept, now := SeenBy(front, moment), SeenBy(signals, moment);
      if last.rejected || last.availableFrom.None? || last.availableFrom.value > moment {
        assert now == kept && !Visible(last, date);
      } else {
        assert now == kept + [last] && now[..|kept|] == kept;
      }
    }
  }

  lemma ContentSeesOnlyThePast(g: Aggregate, f: Feature, symbols: seq<string>, date: int, signals: seq<Signal>,
                               moment: int)
    requires CutoffOf(date) <= moment
    ensures ContentColumn(g, f, symbols, date, signals) == ContentColumn(g, f, symbols, date, SeenBy(signals, moment))
  {
    forall row | 0 <= row < |symbols|
      ensures CellSignals(SeenBy(signals, moment), symbols, row, date) == CellSignals(signals, symbols, row, date)
    {
      CellSeesOnlyThePast(signals, symbols, row, date, moment);
    }
  }

  /** Bars that agree on the days up to `t`. */
  ghost predicate SameBars(a: Features, b: Features, t: nat, days: nat, n: nat) {
    BarsOk(a, days, n) && BarsOk(b, days, n) && t < days
    && forall f, u :: f in BARS && 0 <= u <= t ==> a[f][u] == b[f][u]
  }

  lemma DerivedAgree(a: Features, b: Features, t: nat, u: nat, days: nat, n: nat)
    requires SameBars(a, b, t, days, n) && u <= t
    ensures VwapColumn(a[Amount][u], a[Volume][u], n) == VwapColumn(b[Amount][u], b[Volume][u], n)
    ensures ReturnColumn(a[Close], u, n) == ReturnColumn(b[Close], u, n)
  {
    assert Close in BARS && Amount in BARS && Volume in BARS;
    assert a[Close][u] == b[Close][u] && a[Amount][u] == b[Amount][u] && a[Volume][u] == b[Volume][u];
    if u > 0 {
      assert a[Close][u - 1] == b[Close][u - 1];
    }
  }

  /** Which column `BuildPanel` puts where. */
  lemma PanelAt(g: Aggregate, bars: Features, symbols: seq<string>, dates: seq<int>, signals: seq<Signal>, f: Feature,
                u: nat)
    requires BarsOk(bars, |dates|, |symbols|) && u < |dates|
    ensures BuildPanel(g, bars, symbols, dates, signals)[f][u]
         == if f in CONTENT then ContentColumn(g, f, symbols, dates[u], signals)
            else if f == Vwap then VwapColumn(bars[Amount][u], bars[Volume][u], |symbols|)
            else if f == Ret then ReturnColumn(bars[Close], u, |symbols|)
            else if f in BARS then bars[f][u] else BlankColumn(|symbols|)
  {
    EveryFeatureIsBuilt();
    hide ContentColumn;
    hide VwapColumn;
    hide ReturnColumn;
  }

  lemma RatioLaw(x: Cell, y: Cell)
    ensures Ratio(x, y).Some? <==> x.Some? && y.Some? && y.value != 0.0
    ensures Ratio(x, y).Some? ==> Ratio(x, y).value * y.value == x.value
  {
  }

  lemma GainLaw(x: Cell, y: Cell)
    ensures Gain(x, y).Some? <==> x.Some? && y.Some? && y.value != 0.0
    ensures Gain(x, y).Some? ==> (1.0 + Gain(x, y).value) * y.value == x.value
  {
    RatioLaw(x, y);
  }

  /** `vwap` times the volume is the amount, and `1 + ret` takes the close of the day before to today's. */
  lemma DerivedLaw(g: Aggregate, bars: Features, symbols: seq<string>, dates: seq<int>, signals: seq<Signal>, t: nat,
                   i: nat)
    requires BarsOk(bars, |dates|, |symbols|) && t < |dates| && i < |symbols|
    ensures var p := BuildPanel(g, bars, symbols, dates, signals);
            var vwap, amount, volume := p[Vwap][t][i], bars[Amount][t][i], bars[Volume][t][i];
            && (vwap.Some? <==> amount.Some? && volume.Some? && volume.value != 0.0)
            && (vwap.Some? ==> vwap.value * volume.value == amount.value)
    ensures var ret: Cell := BuildPanel(g, bars, symbols, dates, signals)[Ret][t][i];
            var close: Panel := bars[Close];
            if t == 0 then ret.None?
            else
              && (ret.Some? <==> close[t][i].Some? && close[t - 1][i].Some? && close[t - 1][i].value != 0.0)
              && (ret.Some? ==> (1.0 + ret.value) * close[t - 1][i].value == close[t][i].value)
  {
    hide BuildPanel;
    hide Ratio;
    hide Gain;
    hide ContentColumn;
    assert Amount in BARS && Volume in BARS && Close in BARS && Vwap !in CONTENT && Ret !in CONTENT;
    PanelAt(g, bars, symbols, dates, signals, Vwap, t);
    PanelAt(g, bars, symbols, dates, signals, Ret, t);
    RatioLaw(bars[Amount][t][i], bars[Volume][t][i]);
    if t > 0 {
      GainLaw(bars[Close][t][i], bars[Close][t - 1][i]);
    }
  }

  /** The signals of a cell are those that are visible on its day and mention its symbol. */
  lemma {:induction false} CellSignalsAre(signals: seq<Signal>, symbols: seq<string>, row: nat, date: int, s: Signal)
    requires row < |symbols|
    ensures s in CellSignals(signals, symbols, row, date)
       <==> s in signals && Visible(s, date) && Mentions(s, symbols, row)
  {
    hide Visible;
    hide Mentions;
    if signals != [] {
      var front, last := signals[..|signals| - 1], signals[|signals| - 1];
      assert signals == front + [last];
      CellSignalsAre(front, symbols, row, date, s);
    }
  }

  /** A content cell without such a signal is zero, never missing. */
  lemma QuietCellIsZero(g: Aggregate, bars: Features, symbols: seq<string>, dates: seq<int>, signals: seq<Signal>,
                        f: Feature, t: nat, row: nat)
    requires BarsOk(bars, |dates|, |symbols|) && t < |dates| && row < |symbols| && f in CONTENT
    ensures var cell := BuildPanel(g, bars, symbols, dates, signals)[f][t][row];
            && cell.Some?
            && ((forall s :: s in signals && Visible(s, dates[t]) ==> !Mentions(s, symbols, row)) ==> cell.value == 0.0)
  {
    hide BuildPanel;
    hide Visible;
    hide Mentions;
    PanelAt(g, bars, symbols, dates, signals, f, t);
    var cell := CellSignals(signals, symbols, row, dates[t]);
    if cell != [] {
      CellSignalsAre(signals, symbols, row, dates[t], cell[0]);
    }
  }

  /**
   * No look-ahead. The features of the days up to `t` depend only on the bars of those days and on the
   * signals available by the cutoff of day `t`.
   */
  lemma FeatureOfThePast(g: Aggregate, a: Features, b: Features, symbols: seq<string>, dates: seq<int>,
                         signals: seq<Signal>, others: seq<Signal>, t: nat, f: Feature, u: nat)
    requires SameBars(a, b, t, |dates|, |symbols|) && Ascending(dates) && u <= t
    requires SeenBy(signals, CutoffOf(dates[t])) == SeenBy(others, CutoffOf(dates[t]))
    ensures BuildPanel(g, a, symbols, dates, signals)[f][u] == BuildPanel(g, b, symbols, dates, others)[f][u]
  {
    hide ContentColumn;
    hide VwapColumn;
    hide ReturnColumn;
    hide BuildPanel;
    PanelAt(g, a, symbols, dates, signals, f, u);
    PanelAt(g, b, symbols, dates, others, f, u);
    DerivedAgree(a, b, t, u, |dates|, |symbols|);
    if f in CONTENT {
      assert dates[u] <= dates[t];
      var moment := CutoffOf(dates[t]);
      ContentSeesOnlyThePast(g, f, symbols, dates[u], signals, moment);
      ContentSeesOnlyThePast(g, f, symbols, dates[u], others, moment);
    }
  }
}
