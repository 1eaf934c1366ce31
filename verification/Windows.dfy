/** Walk-forward windows and the research split. */
module Windows {
  import opened Wrappers

  type Window = (int, int)

  function AtLeast(x: int, least: int): int {
    if x > least then x else least
  }

  function Usable(start: int, end: int, count: int, gap: int): int {
    end - start - gap * (count - 1)
  }

  /** Where the window after the first `k` begins. */
  function StartOf(start: int, base: nat, remainder: nat, gap: nat, k: nat): int {
    if k == 0 then start
    else StartOf(start, base, remainder, gap, k - 1) + Width(base, remainder, k - 1) + gap
  }

  function Width(base: nat, remainder: nat, k: nat): nat {
    base + if k < remainder then 1 else 0
  }

  function WindowAt(start: int, base: nat, remainder: nat, gap: nat, k: nat): Window {
    var s := StartOf(start, base, remainder, gap, k);
    (s, s + Width(base, remainder, k))
  }

  /** The windows of both implementations. */
  function EvalWindows(start: int, end: int, n: int, embargo: int): seq<Window> {
    var count, gap := AtLeast(n, 1), AtLeast(embargo, 0);
    var usable := Usable(start, end, count, gap);
    if usable < count then []
    else seq(count, k requires 0 <= k < count => WindowAt(start, usable / count, usable % count, gap, k))
  }

  lemma {:induction false} StartClosed(start: int, base: nat, remainder: nat, gap: nat, k: nat)
    ensures StartOf(start, base, remainder, gap, k) == start + k * (base + gap) + if k < remainder then k else remainder
  {
    if k > 0 {
      StartClosed(start, base, remainder, gap, k - 1);
      assert k * (base + gap) == (k - 1) * (base + gap) + (base + gap);
    }
  }

  /** The last window ends exactly where the range does. */
  lemma LastEnd(start: int, end: int, count: nat, gap: nat)
    requires count >= 1 && Usable(start, end, count, gap) >= count
    ensures var usable := Usable(start, end, count, gap);
            StartOf(start, usable / count, usable % count, gap, count - 1)
                + Width(usable / count, usable % count, count - 1) == end
  {
    var usable := Usable(start, end, count, gap);
    var base, remainder := usable / count, usable % count;
    StartClosed(start, base, remainder, gap, count - 1);
    assert (count - 1) * (base + gap) == count * base - base + gap * (count - 1);
  }

  lemma {:induction false} StartsGrow(start: int, base: nat, remainder: nat, gap: nat, j: nat, k: nat)
    requires j <= k && base >= 1
    ensures StartOf(start, base, remainder, gap, j) + (k - j) <= StartOf(start, base, remainder, gap, k)
  {
    if j < k {
      StartsGrow(start, base, remainder, gap, j, k - 1);
    }
  }

  lemma BaseIsPositive(usable: int, count: nat)
    requires count >= 1 && usable >= count
    ensures usable / count >= 1
  {
    assert usable == count * (usable / count) + usable % count;
  }

  /** Windows stay inside the range and, except the last, leave room after them. */
  lemma StartBounds(start: int, end: int, count: nat, gap: nat, k: nat)
    requires count >= 1 && Usable(start, end, count, gap) >= count && k < count
    ensures var usable := Usable(start, end, count, gap);
            var (s, e) := WindowAt(start, usable / count, usable % count, gap, k);
            start <= s < e <= end && (k < count - 1 ==> e + gap < end)
  {
    var usable := Usable(start, end, count, gap);
    var base, remainder := usable / count, usable % count;
    BaseIsPositive(usable, count);
    StartsGrow(start, base, remainder, gap, 0, k);
    StartsGrow(start, base, remainder, gap, k, count - 1);
    LastEnd(start, end, count, gap);
    if k < count - 1 {
      StartsGrow(start, base, remainder, gap, k + 1, count - 1);
    }
  }

  /** `_build_eval_windows`: its `min`, its `if` and its `break` never change the result. */
  method BuildPurgedWindows(start: int, end: int, nWindows: int, embargo: Option<int>) returns (windows: seq<Window>)
    ensures windows == EvalWindows(start, end, nWindows, if embargo.Some? then embargo.value else 0)
  {
    var count := AtLeast(nWindows, 1);
    var gap := AtLeast(if embargo.Some? then embargo.value else 0, 0);
    var usable := end - start - gap * (count - 1);
    if usable < count {
      return [];
    }
    var base, remainder := usable / count, usable % count;
    BaseIsPositive(usable, count);
    windows := [];
    var cursor := start;
    for index := 0 to count
      invariant |windows| == index && cursor == StartOf(start, base, remainder, gap, index)
      invariant forall k :: 0 <= k < index ==> windows[k] == WindowAt(start, base, remainder, gap, k)
    {
      StartBounds(start, end, count, gap, index);
      var s := cursor;
      var width := base + if index < remainder then 1 else 0;
      var e := if end < s + width then end else s + width;
      if e > s {
        windows := windows + [(s, e)];
      }
      cursor := e + gap;
      if cursor >= end {
        break;
      }
    }
  }

  /** `build_eval_windows` */
  method BuildEvalWindows(start: int, end: int, nWindows: int, embargo: int) returns (windows: seq<Window>)
    ensures windows == EvalWindows(start, end, nWindows, embargo)
  {
    var count, gap := AtLeast(nWindows, 1), AtLeast(embargo, 0);
    var usable := end - start - gap * (count - 1);
    if usable < count {
      return [];
    }
    var base, remainder := usable / count, usable % count;
    BaseIsPositive(usable, count);
    var cursor := start;
    windows := [];
    for index := 0 to count
      invariant |windows| == index && cursor == StartOf(start, base, remainder, gap, index)
      invariant forall k :: 0 <= k < index ==> windows[k] == WindowAt(start, base, remainder, gap, k)
    {
      var e := cursor + base + if index < remainder then 1 else 0;
      windows := windows + [(cursor, e)];
      cursor := e + gap;
    }
  }

  /** Windows of almost equal width that cover the range with gaps of `gap` between them. */
  ghost predicate Tiles(w: seq<Window>, start: int, end: int, count: nat, gap: nat) {
    && |w| == count && count >= 1
    && w[0].0 == start && w[count - 1].1 == end
    && (forall k :: 0 <= k < count ==> w[k].0 < w[k].1)
    && (forall k :: 0 < k < count ==> w[k].0 == w[k - 1].1 + gap)
    && (forall j, k :: 0 <= j <= k < count ==> 0 <= (w[j].1 - w[j].0) - (w[k].1 - w[k].0) <= 1)
  }

  /** There are windows exactly when each can hold a day, and then they tile the range. */
  lemma WindowsTile(start: int, end: int, n: int, embargo: int)
    ensures var count, gap := AtLeast(n, 1), AtLeast(embargo, 0);
            var w := EvalWindows(start, end, n, embargo);
            (w == [] <==> end - start - gap * (count - 1) < count) && (w != [] ==> Tiles(w, start, end, count, gap))
  {
    var count, gap := AtLeast(n, 1), AtLeast(embargo, 0);
    var w := EvalWindows(start, end, n, embargo);
    if w != [] {
      var usable := Usable(start, end, count, gap);
      BaseIsPositive(usable, count);
      LastEnd(start, end, count, gap);
      assert w[0] == WindowAt(start, usable / count, usable % count, gap, 0);
      assert w[count - 1] == WindowAt(start, usable / count, usable % count, gap, count - 1);
    }
  }

  /** Evaluated days and embargo gaps add up to the range. */
  lemma WindowsConserveDays(w: seq<Window>, start: int, end: int, count: nat, gap: nat)
    requires Tiles(w, start, end, count, gap)
    ensures WidthSum(w, count) == end - start - gap * (count - 1)
  {
    Spread(w, start, end, count, gap, count);
  }

  function WidthSum(w: seq<Window>, k: nat): int
    requires k <= |w|
  {
    if k == 0 then 0 else WidthSum(w, k - 1) + w[k - 1].1 - w[k - 1].0
  }

  lemma {:induction false} Spread(w: seq<Window>, start: int, end: int, count: nat, gap: nat, k: nat)
    requires Tiles(w, start, end, count, gap) && 1 <= k <= count
    ensures w[k - 1].1 == start + WidthSum(w, k) + gap * (k - 1)
  {
    if k > 1 {
      Spread(w, start, end, count, gap, k - 1);
      assert gap * (k - 1) == gap * (k - 2) + gap;
    }
  }

  // ------------------------------------------------------------------ the research split

  datatype SplitConfig = SplitConfig(discoveryDays: int, finalOosDays: int, maxWarmupDays: int)
  datatype Split = Split(warmupStart: int, discoveryStart: int, discoveryEnd: int, finalStart: int, finalEnd: int)

  function Layout(days: int, config: SplitConfig, horizon: int): Split {
    var finalEnd := days - horizon;
    var finalStart := finalEnd - config.finalOosDays;
    var discoveryStart := finalStart - config.discoveryDays;
    Split(AtLeast(discoveryStart - config.maxWarmupDays, 0), discoveryStart, finalStart, finalStart, finalEnd)
  }

  /** `build_research_split` of the research-split module. */
  function ResearchSplit(days: int, config: SplitConfig, horizon: int): (r: Option<Split>)
    ensures r.Some? ==>
              var s := r.value;
              && 0 <= s.warmupStart < s.discoveryStart < s.discoveryEnd == s.finalStart < s.finalEnd
              && s.finalEnd + horizon == days && horizon > 0
  {
    var s := Layout(days, config, horizon);
    if horizon <= 0 || s.finalEnd <= 0 || s.discoveryStart <= s.warmupStart || s.discoveryEnd <= s.discoveryStart
       || s.finalStart < s.discoveryEnd || s.finalEnd <= s.finalStart || s.finalEnd + horizon > days
    then None
    else Some(s)
  }

  /** `build_research_split` of the validation module, which checks less. */
  function ValidationSplit(days: int, config: SplitConfig, horizon: int): Option<Split> {
    var s := Layout(days, config, horizon);
    if horizon <= 0 || s.discoveryStart <= s.warmupStart || s.finalStart < s.discoveryEnd || s.finalEnd + horizon > days
    then None
    else Some(s)
  }

  /** The two agree exactly when the second refuses the layout anyway or both period lengths are positive. */
  lemma SplitsAgreeIff(days: int, config: SplitConfig, horizon: int)
    ensures ResearchSplit(days, config, horizon) == ValidationSplit(days, config, horizon) <==>
            || horizon <= 0
            || (var s := Layout(days, config, horizon); s.discoveryStart <= s.warmupStart)
            || (config.discoveryDays > 0 && config.finalOosDays > 0)
  {
  }

  /** They do differ: without a final period only the second accepts the layout. */
  lemma SplitsDiffer()
    ensures ResearchSplit(200, SplitConfig(0, 40, 10), 5).None? && ValidationSplit(200, SplitConfig(0, 40, 10), 5).Some?
  {
  }
}
