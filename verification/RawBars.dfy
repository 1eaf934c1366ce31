/**
 * Look-back over raw bars. The feature `ret` counts as one day in the static analysis but is built from two
 * closes, so over bars the analysis has to count it as two.
 */
module RawBars {
  import opened Wrappers
  import opened Vocab
  import opened Ops
  import opened StackVM
  import opened FeaturePanel
  import opened Discovery
  import opened Lookback
  import Mutation

  // ------------------------------------------------------------------ the analysis over bars

  /** How many days of bars a feature is built from. */
  function Depth(f: Feature): nat {
    if f == Ret then 2 else 1
  }

  function BarLook(token: Token, stack: seq<nat>): Option<seq<nat>> {
    if token.Feat? then Some(stack + [Depth(token.feature)]) else Look(token, stack)
  }

  function BarLooks(rpn: seq<Token>): Option<seq<nat>> {
    if rpn == [] then Some([])
    else
      var before := BarLooks(rpn[..|rpn| - 1]);
      if before.None? then None else BarLook(rpn[|rpn| - 1], before.value)
  }

  /** The look-back over bars, None where the analysis raises. */
  function BarLookback(rpn: seq<Token>): Option<nat> {
    var stack := BarLooks(rpn);
    if stack.Some? && |stack.value| == 1 then Some(if stack.value[0] > 1 then stack.value[0] else 1) else None
  }

  lemma BarLookBetween(token: Token, a: seq<nat>, b: seq<nat>)
    requires Mutation.Between(a, b, 1)
    ensures Mutation.SameOutcome(Look(token, a), BarLook(token, b), 1)
  {
    hide Arity;
    hide Reach;
    if !token.Feat? {
      Mutation.LookBetween(token, token, a, b, 1, 0);
    }
  }

  lemma {:induction false} BarLooksBetween(rpn: seq<Token>)
    ensures Mutation.SameOutcome(Looks(rpn), BarLooks(rpn), 1)
  {
    hide Look;
    hide BarLook;
    if rpn != [] {
      var front := rpn[..|rpn| - 1];
      BarLooksBetween(front);
      if Looks(front).Some? {
        BarLookBetween(rpn[|rpn| - 1], Looks(front).value, BarLooks(front).value);
      }
    }
  }

  lemma {:induction false} BarLooksWithoutReturns(rpn: seq<Token>)
    requires Feat(Ret) !in rpn
    ensures BarLooks(rpn) == Looks(rpn)
  {
    if rpn != [] {
      assert rpn[|rpn| - 1] in rpn;
      BarLooksWithoutReturns(rpn[..|rpn| - 1]);
    }
  }

  /** Counting `ret` twice accepts the same programs and adds at most one day, and none to a program without `ret`. */
  lemma BarLookbackBounds(rpn: seq<Token>)
    ensures BarLookback(rpn).Some? <==> StackVM.Lookback(rpn).Some?
    ensures BarLookback(rpn).Some?
            ==> StackVM.Lookback(rpn).value <= BarLookback(rpn).value <= StackVM.Lookback(rpn).value + 1
    ensures Feat(Ret) !in rpn ==> BarLookback(rpn) == StackVM.Lookback(rpn)
  {
    BarLooksBetween(rpn);
    if Feat(Ret) !in rpn {
      BarLooksWithoutReturns(rpn);
    }
  }

  // ------------------------------------------------------------------ exactness over bars

  lemma SlicedBarsOk(bars: Features, a: nat, b: nat, days: nat, n: nat)
    requires BarsOk(bars, days, n) && a <= b <= days
    ensures BarsOk(Slice(bars, a, b, days, n), b - a, n)
    ensures forall f, u :: f in BARS && a <= u < b ==> Slice(bars, a, b, days, n)[f][u - a] == bars[f][u]
  {
  }

  /** A feature built from the bars of the days `a` up to `b` agrees with the full one from its depth on. */
  lemma FeatureAgrees(g: Aggregate, bars: Features, symbols: seq<string>, dates: seq<int>, signals: seq<Signal>, a: nat,
                      b: nat, f: Feature)
    requires BarsOk(bars, |dates|, |symbols|) && a <= b <= |dates|
    requires BarsOk(Slice(bars, a, b, |dates|, |symbols|), b - a, |symbols|)
    ensures Agree(BuildPanel(g, bars, symbols, dates, signals)[f],
                  BuildPanel(g, Slice(bars, a, b, |dates|, |symbols|), symbols, dates[a..b], signals)[f], a, b,
                      Depth(f))
  {
    hide BuildPanel;
    hide ContentColumn;
    hide Slice;
    var cut := Slice(bars, a, b, |dates|, |symbols|);
    SlicedBarsOk(bars, a, b, |dates|, |symbols|);
    var p, q := BuildPanel(g, bars, symbols, dates, signals)[f], BuildPanel(g, cut, symbols, dates[a..b], signals)[f];
    forall u | a + Depth(f) <= u + 1 && a <= u < b ensures p[u] == q[u - a] {
      PanelAt(g, bars, symbols, dates, signals, f, u);
      PanelAt(g, cut, symbols, dates[a..b], signals, f, u - a);
      BarsMeet(bars, cut, a, b, |dates|, |symbols|, u);
      if f == Ret {
        BarsMeet(bars, cut, a, b, |dates|, |symbols|, u - 1);
      }
    }
  }

  /** What the derived columns read of one day of bars. */
  lemma BarsMeet(bars: Features, cut: Features, a: nat, b: nat, days: nat, n: nat, u: nat)
    requires BarsOk(bars, days, n) && a <= u < b <= days && BarsOk(cut, b - a, n)
    requires forall f, v :: f in BARS && a <= v < b ==> cut[f][v - a] == bars[f][v]
    ensures cut[Close][u - a] == bars[Close][u] && cut[Amount][u - a] == bars[Amount][u]
    ensures cut[Volume][u - a] == bars[Volume][u]
    ensures forall f :: f in BARS ==> cut[f][u - a] == bars[f][u]
  {
    assert Close in BARS && Amount in BARS && Volume in BARS;
  }

  lemma {:induction false} BarExecAgrees(k: Kernel, g: Aggregate, rpn: seq<Token>, bars: Features, symbols: seq<string>,
                                         dates: seq<int>, signals: seq<Signal>, a: nat, b: nat)
    requires BarsOk(bars, |dates|, |symbols|) && a <= b <= |dates| && BarLooks(rpn).Some?
    requires BarsOk(Slice(bars, a, b, |dates|, |symbols|), b - a, |symbols|)
    ensures var n := |symbols|;
            var p := BuildPanel(g, bars, symbols, dates, signals);
            var q := BuildPanel(g, Slice(bars, a, b, |dates|, n), symbols, dates[a..b], signals);
            && Exec(k, rpn, p, |dates|, n).Some? && Exec(k, rpn, q, b - a, n).Some?
            && StacksAgree(Exec(k, rpn, p, |dates|, n).value, Exec(k, rpn, q, b - a, n).value, a, b,
                           BarLooks(rpn).value)
  {
    hide Push;
    hide Slice;
    hide BuildPanel;
    hide StacksAgree;
    hide Agree;
    hide Look;
    var days, n := |dates|, |symbols|;
    var p := BuildPanel(g, bars, symbols, dates, signals);
    var q := BuildPanel(g, Slice(bars, a, b, days, n), symbols, dates[a..b], signals);
    if rpn == [] {
      NothingDisagrees(a, b);
    } else {
      var front, token := rpn[..|rpn| - 1], rpn[|rpn| - 1];
      BarExecAgrees(k, g, front, bars, symbols, dates, signals, a, b);
      if token.Feat? {
        FeatureAgrees(g, bars, symbols, dates, signals, a, b, token.feature);
      }
      PushAgrees(k, token, p, q, Exec(k, front, p, days, n).value, Exec(k, front, q, b - a, n).value,
                 a, b, days, n, BarLooks(front).value, if token.Feat? then Depth(token.feature) else 1);
    }
  }

  lemma AgreeAt(full: Panel, cut: Panel, a: nat, b: nat, look: nat, t: nat)
    requires Agree(full, cut, a, b, look) && a <= t < b && a + look <= t + 1
    ensures full[t] == cut[t - a]
  {
  }

  /**
   * Exactness over bars. For a program with look-back `l` over bars, day `t` of the full run is the last day
   * of a run that is given nothing but the bars of days `t - l + 1 .. t`.
   */
  lemma BarLookbackIsExact(k: Kernel, g: Aggregate, rpn: seq<Token>, bars: Features, symbols: seq<string>,
                           dates: seq<int>, signals: seq<Signal>, t: nat)
    requires BarsOk(bars, |dates|, |symbols|) && BarLookback(rpn).Some?
    requires BarLookback(rpn).value <= t + 1 && t < |dates|
    ensures var l := BarLookback(rpn).value;
            && BarsOk(Slice(bars, t + 1 - l, t + 1, |dates|, |symbols|), l, |symbols|)
            && var full := ValuesOf(k, g, rpn, bars, symbols, dates, signals);
            && var cut := ValuesOf(k, g, rpn, Slice(bars, t + 1 - l, t + 1, |dates|, |symbols|), symbols,
                                   dates[t + 1 - l..t + 1], signals);
            && full.Some? && cut.Some? && full.value[t] == cut.value[l - 1]
  {
    hide BuildPanel;
    hide BarLooks;
    hide Exec;
    hide Slice;
    var l, n := BarLookback(rpn).value, |symbols|;
    var a := t + 1 - l;
    SlicedBarsOk(bars, a, t + 1, |dates|, n);
    BarExecAgrees(k, g, rpn, bars, symbols, dates, signals, a, t + 1);
    var p := BuildPanel(g, bars, symbols, dates, signals);
    var q := BuildPanel(g, Slice(bars, a, t + 1, |dates|, n), symbols, dates[a..t + 1], signals);
    AgreeAt(Exec(k, rpn, p, |dates|, n).value[0], Exec(k, rpn, q, l, n).value[0], a, t + 1, BarLooks(rpn).value[0], t);
  }

  // ------------------------------------------------------------------ when the look-back itself is enough

  /** The first of the `l` days up to `t`, or the first day there is. */
  function Since(t: nat, l: nat): nat {
    if t + 1 > l then t + 1 - l else 0
  }

  ghost predicate SameBarsOn(a: Features, b: Features, from: nat, t: nat, days: nat, n: nat) {
    BarsOk(a, days, n) && BarsOk(b, days, n) && t < days
    && forall f, u :: f in BARS && from <= u <= t ==> a[f][u] == b[f][u]
  }

  lemma SameSlices(a: Features, b: Features, from: nat, t: nat, days: nat, n: nat)
    requires SameBarsOn(a, b, from, t, days, n) && from <= t + 1
    ensures Slice(a, from, t + 1, days, n) == Slice(b, from, t + 1, days, n)
  {
    assert a.Keys == b.Keys;
    forall f | f in a ensures a[f][from..t + 1] == b[f][from..t + 1] {
      assert forall u :: from <= u <= t ==> a[f][u] == b[f][u];
    }
  }

  /** Day `t` depends on the bars of as many days as the look-back over bars says, or on all there are. */
  lemma BarLookbackSuffices(k: Kernel, g: Aggregate, rpn: seq<Token>, a: Features, b: Features, symbols: seq<string>,
                            dates: seq<int>, signals: seq<Signal>, t: nat)
    requires BarLookback(rpn).Some? && Ascending(dates)
    requires SameBarsOn(a, b, Since(t, BarLookback(rpn).value), t, |dates|, |symbols|)
    ensures var v := ValuesOf(k, g, rpn, a, symbols, dates, signals);
            var w := ValuesOf(k, g, rpn, b, symbols, dates, signals);
            v.Some? && w.Some? && v.value[t] == w.value[t]
  {
    hide ValuesOf;
    hide Slice;
    hide BarLookback;
    hide SeenBy;
    var l := BarLookback(rpn).value;
    ValuesExist(k, g, rpn, a, symbols, dates, signals);
    ValuesExist(k, g, rpn, b, symbols, dates, signals);
    if t + 1 >= l {
      BarLookbackIsExact(k, g, rpn, a, symbols, dates, signals, t);
      BarLookbackIsExact(k, g, rpn, b, symbols, dates, signals, t);
      SameSlices(a, b, t + 1 - l, t, |dates|, |symbols|);
    } else {
      ValuesOfThePast(k, g, rpn, a, b, symbols, dates, signals, signals, t);
    }
  }

  lemma ValuesExist(k: Kernel, g: Aggregate, rpn: seq<Token>, bars: Features, symbols: seq<string>, dates: seq<int>,
                    signals: seq<Signal>)
    requires BarsOk(bars, |dates|, |symbols|) && BarLookback(rpn).Some?
    ensures ValuesOf(k, g, rpn, bars, symbols, dates, signals).Some?
  {
    hide BuildPanel;
    hide Exec;
    hide BarLooks;
    hide Looks;
    BarLookbackBounds(rpn);
    AcceptedIffRuns(k, rpn, BuildPanel(g, bars, symbols, dates, signals), |dates|, |symbols|);
  }

  /**
   * The look-back of the static analysis is enough over bars whenever counting `ret` twice gives the same
   * number, in particular for every program without `ret`.
   */
  lemma LookbackSuffices(k: Kernel, g: Aggregate, rpn: seq<Token>, a: Features, b: Features, symbols: seq<string>,
                         dates: seq<int>, signals: seq<Signal>, t: nat)
    requires StackVM.Lookback(rpn).Some? && Ascending(dates)
    requires BarLookback(rpn) == StackVM.Lookback(rpn) || Feat(Ret) !in rpn
    requires SameBarsOn(a, b, Since(t, StackVM.Lookback(rpn).value), t, |dates|, |symbols|)
    ensures var v := ValuesOf(k, g, rpn, a, symbols, dates, signals);
            var w := ValuesOf(k, g, rpn, b, symbols, dates, signals);
            v.Some? && w.Some? && v.value[t] == w.value[t]
  {
    hide ValuesOf;
    BarLookbackBounds(rpn);
    hide BarLookback;
    BarLookbackSuffices(k, g, rpn, a, b, symbols, dates, signals, t);
  }

  // ------------------------------------------------------------------ when it is not

  /** Two bars that agree on the day but not on the day before. */
  function ExampleBars(before: real): (bars: Features)
    ensures BarsOk(bars, 2, 1)
  {
    map f | f in BARS :: [[Some(before)], [Some(2.0)]]
  }

  /** For the program `ret` one day of bars is not enough, and the analysis over bars says two. */
  lemma ReturnLooksBackTwice(g: Aggregate, symbol: string)
    ensures StackVM.Lookback([Feat(Ret)]) == Some(1) && BarLookback([Feat(Ret)]) == Some(2)
    ensures forall f :: f in BARS ==> ExampleBars(1.0)[f][1] == ExampleBars(1.5)[f][1]
    ensures BuildPanel(g, ExampleBars(1.0), [symbol], [0, 1], [])[Ret][1]
         != BuildPanel(g, ExampleBars(1.5), [symbol], [0, 1], [])[Ret][1]
  {
    hide BuildPanel;
    assert Looks([Feat(Ret)][..0]) == Some([]);
    assert BarLooks([Feat(Ret)][..0]) == Some([]);
    PanelAt(g, ExampleBars(1.0), [symbol], [0, 1], [], Ret, 1);
    PanelAt(g, ExampleBars(1.5), [symbol], [0, 1], [], Ret, 1);
    ExampleReturn(1.0);
    ExampleReturn(1.5);
  }

  lemma ExampleReturn(before: real)
    requires before == 1.0 || before == 1.5
    ensures ReturnColumn(ExampleBars(before)[Close], 1, 1)[0] == Some(2.0 / before - 1.0)
  {
  }

  const SELF_COMPARISON: seq<Token> := [Feat(Ret), Feat(Ret), Binary(Gt)]

  lemma BarLooksNext(rpn: seq<Token>, i: nat, stack: seq<nat>)
    requires i < |rpn| && BarLooks(rpn[..i]) == Some(stack)
    ensures BarLooks(rpn[..i + 1]) == BarLook(rpn[i], stack)
  {
    assert rpn[..i + 1][..i] == rpn[..i];
  }

  lemma ExecNext(k: Kernel, rpn: seq<Token>, i: nat, stack: seq<Panel>, features: Features, days: nat, n: nat)
    requires ShapedFeatures(features, days, n) && i < |rpn|
    requires Exec(k, rpn[..i], features, days, n) == Some(stack) && Ops.Windows(stack, days, n)
    ensures Exec(k, rpn[..i + 1], features, days, n) == Push(k, rpn[i], stack, features, days, n)
  {
    assert rpn[..i + 1][..i] == rpn[..i];
  }

  lemma LooksOfComparison(x: nat)
    ensures Look(Binary(Gt), [x, x]) == Some([x])
  {
    assert [x, x][0..] == [x, x] && [x, x][..1] == [x];
    assert Largest([x]) == x && Largest([x, x]) == x;
    assert [x, x][..0] + [x] == [x];
  }

  lemma LooksOfReturn(stack: seq<nat>)
    ensures Look(Feat(Ret), stack) == Some(stack + [1]) && BarLook(Feat(Ret), stack) == Some(stack + [2])
  {
  }

  lemma SelfComparisonLook()
    ensures StackVM.Lookback(SELF_COMPARISON) == Some(1)
  {
    hide Look;
    var r := SELF_COMPARISON;
    assert Looks(r[..0]) == Some([]);
    assert [] + [1] == [1] && [1] + [1] == [1, 1];
    LooksOfReturn([]);
    LooksOfReturn([1]);
    LooksOfComparison(1);
    LooksNext(r, 0, []);
    LooksNext(r, 1, [1]);
    LooksNext(r, 2, [1, 1]);
    hide Looks;
    assert r[..3] == r;
  }

  lemma SelfComparisonBarLook()
    ensures BarLookback(SELF_COMPARISON) == Some(2)
  {
    var r := SELF_COMPARISON;
    assert BarLooks(r[..0]) == Some([]);
    assert [] + [2] == [2] && [2] + [2] == [2, 2];
    LooksOfReturn([]);
    LooksOfReturn([2]);
    LooksOfComparison(2);
    assert BarLook(Binary(Gt), [2, 2]) == Look(Binary(Gt), [2, 2]);
    hide Look;
    hide BarLook;
    BarLooksNext(r, 0, []);
    BarLooksNext(r, 1, [2]);
    BarLooksNext(r, 2, [2, 2]);
    hide BarLooks;
    assert r[..3] == r;
  }

  lemma PushComparison(k: Kernel, p: Panel, features: Features, days: nat, n: nat)
    requires ShapedFeatures(features, days, n) && Ops.Windows([p, p], days, n)
    ensures Push(k, Binary(Gt), [p, p], features, days, n) == Some([Apply(k, Binary(Gt), [p, p], days, n)])
  {
    hide Apply;
    var r := Apply(k, Binary(Gt), [p, p], days, n);
    assert Arity(Binary(Gt)) == Some(2);
    assert [p, p][0..] == [p, p] && [p, p][..0] + [r] == [r];
  }

  lemma PushReturn(k: Kernel, stack: seq<Panel>, features: Features, days: nat, n: nat)
    requires ShapedFeatures(features, days, n) && Ops.Windows(stack, days, n) && Ret in features
    ensures Push(k, Feat(Ret), stack, features, days, n) == Some(stack + [features[Ret]])
  {
    hide Apply;
  }

  lemma SelfComparisonRuns(k: Kernel, features: Features, days: nat, n: nat)
    requires ShapedFeatures(features, days, n) && Ret in features
    ensures Ops.Windows([features[Ret], features[Ret]], days, n)
    ensures Value(k, SELF_COMPARISON, features, days, n)
         == Some(Apply(k, Binary(Gt), [features[Ret], features[Ret]], days, n))
  {
    var r, p := SELF_COMPARISON, features[Ret];
    assert Exec(k, r[..0], features, days, n) == Some([]);
    assert [] + [p] == [p] && [p] + [p] == [p, p];
    PushReturn(k, [], features, days, n);
    PushReturn(k, [p], features, days, n);
    PushComparison(k, p, features, days, n);
    hide Apply;
    hide Push;
    ExecNext(k, r, 0, [], features, days, n);
    ExecNext(k, r, 1, [p], features, days, n);
    ExecNext(k, r, 2, [p, p], features, days, n);
    hide Exec;
    assert r[..3] == r;
  }

  lemma ComparesItself(k: Kernel, p: Panel, days: nat, n: nat, t: nat, i: nat)
    requires Ops.Windows([p, p], days, n) && t < days && i < n
    ensures Apply(k, Binary(Gt), [p, p], days, n)[t][i] == Some(0.0)
  {
    var w := Recent([p, p], t, 0, days, n);
    assert w[0] == w[1] == p[t..t + 1];
    assert ApplyAt(k, Binary(Gt), [p, p], t, days, n) == WindowColumn(k, Binary(Gt), w, n);
    assert BinaryCell(Gt, w[0][0][i], w[1][0][i]) == Some(0.0);
  }

  /**
   * The converse fails: `ret ret gt` is 0 everywhere, so no bars at all are enough for it, although counting
   * `ret` twice gives two days. Whether fewer days happen to be enough is a question of the values, not of
   * the analysis.
   */
  lemma SelfComparisonIsConstant(k: Kernel, features: Features, days: nat, n: nat, t: nat, i: nat)
    requires ShapedFeatures(features, days, n) && Ret in features && t < days && i < n
    ensures BarLookback(SELF_COMPARISON) != StackVM.Lookback(SELF_COMPARISON)
    ensures Value(k, SELF_COMPARISON, features, days, n).Some?
    ensures Value(k, SELF_COMPARISON, features, days, n).value[t][i] == Some(0.0)
  {
    hide Value;
    hide Apply;
    hide BarLookback;
    SelfComparisonLook();
    SelfComparisonBarLook();
    SelfComparisonRuns(k, features, days, n);
    ComparesItself(k, features[Ret], days, n, t, i);
  }
}
