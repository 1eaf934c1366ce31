/** Sampling windows of the training dataset, one date range per split. Dates are day numbers. */
module Sampler {
  import opened Wrappers
  import opened Numbers

  datatype Range = Range(name: string, start: int, end: int)
  datatype SplitError = Overlap | GapTooSmall | Inverted
  datatype SplitConfig = SplitConfig(trainStart: int, trainEnd: int, validStart: int, validEnd: int,
                                     testStart: int, testEnd: int, gapDays: int)

  /** `next` begins after `previous` has ended and the gap has passed, and neither is inverted. */
  predicate Follows(previous: Range, next: Range, gapDays: int) {
    previous.start <= previous.end < next.start <= next.end && next.start - previous.end >= gapDays
  }

  /** `SplitConfig.ranges`: the three ranges, checked pair by pair. */
  method Ranges(c: SplitConfig) returns (r: Result<seq<Range>, SplitError>)
    ensures var train := Range("train", c.trainStart, c.trainEnd);
            var valid := Range("valid", c.validStart, c.validEnd);
            var test := Range("test", c.testStart, c.testEnd);
            && (r.Success? <==> Follows(train, valid, c.gapDays) && Follows(valid, test, c.gapDays))
            && (r.Success? ==> r.value == [train, valid, test])
  {
    var ordered := [Range("train", c.trainStart, c.trainEnd), Range("valid", c.validStart, c.validEnd),
                    Range("test", c.testStart, c.testEnd)];
    for i := 1 to 3
      invariant forall j :: 1 <= j < i ==> Follows(ordered[j - 1], ordered[j], c.gapDays)
    {
      var previous, next := ordered[i - 1], ordered[i];
      if next.start <= previous.end {
        return Failure(Overlap);
      }
      if next.start - previous.end < c.gapDays {
        return Failure(GapTooSmall);
      }
      if next.end < next.start || previous.end < previous.start {
        return Failure(Inverted);
      }
    }
    assert Follows(ordered[1 - 1], ordered[1], c.gapDays) && Follows(ordered[2 - 1], ordered[2], c.gapDays);
    return Success(ordered);
  }

  // ------------------------------------------------------------------ eligible ends

  datatype Series = Series(dates: seq<int>, listing: seq<real>, quality: seq<real>)
  datatype Rules = Rules(step: nat, stride: int, minListing: real, minQuality: real)
  datatype Sample = Sample(end: nat, start: nat, asOf: int, split: string, quality: real)

  predicate Valid(s: Series, rules: Rules) {
    |s.listing| == |s.dates| && |s.quality| == |s.dates| && rules.step >= 1
  }

  ghost predicate Sorted(s: Series) {
    forall i, j :: 0 <= i <= j < |s.dates| ==> s.dates[i] <= s.dates[j]
  }

  predicate InRange(s: Series, r: Range, i: nat)
    requires i < |s.dates|
  {
    r.start <= s.dates[i] <= r.end
  }

  function QualityRatio(s: Series, rules: Rules, i: nat): real
    requires Valid(s, rules) && i < |s.dates| && rules.step <= i + 1
  {
    Sum(s.quality[i + 1 - rules.step..i + 1]) / rules.step as real
  }

  /** May a window end at day `i`, when the first day of the range is `first`? */
  predicate Eligible(s: Series, rules: Rules, r: Range, first: nat, i: nat)
    requires Valid(s, rules) && i < |s.dates|
  {
    && InRange(s, r, i) && i >= first + rules.step - 1
    && s.dates[i + 1 - rules.step] >= r.start
    && s.listing[i] >= rules.minListing && s.quality[i] > 0.0
    && QualityRatio(s, rules, i) >= rules.minQuality
  }

  /** The first day inside the range, or the number of days. */
  function First(s: Series, r: Range, i: nat): (f: nat)
    requires i <= |s.dates|
    ensures i <= f <= |s.dates| && (f < |s.dates| ==> InRange(s, r, f))
    ensures forall j :: i <= j < f ==> !InRange(s, r, j)
    decreases |s.dates| - i
  {
    if i == |s.dates| || InRange(s, r, i) then i else First(s, r, i + 1)
  }

  predicate Spaced(ends: seq<nat>, i: nat, stride: int) {
    ends == [] || i - ends[|ends| - 1] >= stride
  }

  /** The ends chosen among the first `m` days: each eligible one that is far enough from the last. */
  function Chosen(s: Series, rules: Rules, r: Range, first: nat, m: nat): (c: seq<nat>)
    requires Valid(s, rules) && m <= |s.dates|
    ensures forall i :: 0 <= i < |c| ==> c[i] < m
  {
    if m == 0 then []
    else
      var before := Chosen(s, rules, r, first, m - 1);
      if Eligible(s, rules, r, first, m - 1) && Spaced(before, m - 1, rules.stride) then before + [m - 1] else before
  }

  function SampleAt(s: Series, rules: Rules, r: Range, i: nat): Sample
    requires Valid(s, rules) && i < |s.dates| && rules.step <= i + 1
  {
    Sample(i, i + 1 - rules.step, s.dates[i], r.name, QualityRatio(s, rules, i))
  }

  lemma {:induction false} ChosenAreEligible(s: Series, rules: Rules, r: Range, first: nat, m: nat, k: nat)
    requires Valid(s, rules) && m <= |s.dates| && k < |Chosen(s, rules, r, first, m)|
    ensures Eligible(s, rules, r, first, Chosen(s, rules, r, first, m)[k])
  {
    hide Eligible;
    if k < |Chosen(s, rules, r, first, m - 1)| {
      ChosenAreEligible(s, rules, r, first, m - 1, k);
    }
  }

  /** Every window that ends at one of these days fits. */
  ghost predicate AllFit(rules: Rules, ends: seq<nat>, days: nat) {
    forall i :: 0 <= i < |ends| ==> ends[i] < days && rules.step <= ends[i] + 1
  }

  lemma ChosenFit(s: Series, rules: Rules, r: Range, first: nat, m: nat)
    requires Valid(s, rules) && m <= |s.dates|
    ensures AllFit(rules, Chosen(s, rules, r, first, m), |s.dates|)
  {
    var c := Chosen(s, rules, r, first, m);
    forall i | 0 <= i < |c| ensures c[i] < |s.dates| && rules.step <= c[i] + 1 {
      ChosenAreEligible(s, rules, r, first, m, i);
    }
  }

  function SampleList(s: Series, rules: Rules, r: Range, ends: seq<nat>): (samples: seq<Sample>)
    requires Valid(s, rules) && AllFit(rules, ends, |s.dates|)
    ensures |samples| == |ends|
  {
    seq(|ends|, k requires 0 <= k < |ends| => SampleAt(s, rules, r, ends[k]))
  }

  lemma SampleListGrows(s: Series, rules: Rules, r: Range, ends: seq<nat>, i: nat)
    requires Valid(s, rules) && AllFit(rules, ends, |s.dates|) && AllFit(rules, ends + [i], |s.dates|)
    ensures i < |s.dates| && rules.step <= i + 1
    ensures SampleList(s, rules, r, ends + [i]) == SampleList(s, rules, r, ends) + [SampleAt(s, rules, r, i)]
  {
    assert (ends + [i])[|ends|] == i;
  }

  /** The samples of one range, in date order. */
  function SamplesOf(s: Series, rules: Rules, r: Range): (samples: seq<Sample>)
    requires Valid(s, rules)
  {
    ChosenFit(s, rules, r, First(s, r, 0), |s.dates|);
    SampleList(s, rules, r, Chosen(s, rules, r, First(s, r, 0), |s.dates|))
  }

  /** The positions of the dates inside the range. */
  function Positions(s: Series, r: Range, m: nat): (p: seq<nat>)
    requires m <= |s.dates|
    ensures forall k :: 0 <= k < |p| ==> p[k] < m && InRange(s, r, p[k])
    ensures p != [] ==> p[0] == First(s, r, 0)
    ensures p == [] ==> First(s, r, 0) >= m
  {
    if m == 0 then []
    else
      var before := Positions(s, r, m - 1);
      if InRange(s, r, m - 1) then before + [m - 1] else before
  }

  /** Days outside the range change nothing. */
  lemma {:induction false} OutsideIsSkipped(s: Series, rules: Rules, r: Range, first: nat, m: nat, p: nat)
    requires Valid(s, rules) && p <= m <= |s.dates| && forall i :: p <= i < m ==> !InRange(s, r, i)
    ensures Chosen(s, rules, r, first, m) == Chosen(s, rules, r, first, p)
    decreases m
  {
    if p < m {
      OutsideIsSkipped(s, rules, r, first, m - 1, p);
    }
  }

  lemma {:induction false} PositionGaps(s: Series, r: Range, m: nat, k: nat)
    requires m <= |s.dates| && k <= |Positions(s, r, m)|
    ensures var p := Positions(s, r, m);
            var from := if k == 0 then 0 else p[k - 1] + 1;
            var to := if k == |p| then m else p[k];
            from <= to <= m && forall i :: from <= i < to ==> !InRange(s, r, i)
  {
    if m > 0 {
      var before := Positions(s, r, m - 1);
      if k <= |before| {
        PositionGaps(s, r, m - 1, k);
      }
    }
  }

  /** The day of the `k`-th position, or the end of the series. */
  function Stop(s: Series, r: Range, k: nat): nat {
    var p := Positions(s, r, |s.dates|);
    if k < |p| then p[k] else |s.dates|
  }

  /** What has been chosen before the `k`-th position. */
  function Before(s: Series, rules: Rules, r: Range, k: nat): seq<nat>
    requires Valid(s, rules)
  {
    Chosen(s, rules, r, First(s, r, 0), Stop(s, r, k))
  }

  lemma NothingBeforeFirst(s: Series, rules: Rules, r: Range)
    requires Valid(s, rules)
    ensures Before(s, rules, r, 0) == []
  {
    PositionGaps(s, r, |s.dates|, 0);
    OutsideIsSkipped(s, rules, r, First(s, r, 0), Stop(s, r, 0), 0);
  }

  /** One position decides about itself only. */
  lemma AdvancePosition(s: Series, rules: Rules, r: Range, k: nat)
    requires Valid(s, rules) && k < |Positions(s, r, |s.dates|)|
    ensures var i := Positions(s, r, |s.dates|)[k];
            Before(s, rules, r, k + 1) == (
              if Eligible(s, rules, r, First(s, r, 0), i) && Spaced(Before(s, rules, r, k), i, rules.stride)
              then Before(s, rules, r, k) + [i]
              else Before(s, rules, r, k))
  {
    hide Eligible;
    hide Positions;
    var i := Positions(s, r, |s.dates|)[k];
    PositionGaps(s, r, |s.dates|, k + 1);
    OutsideIsSkipped(s, rules, r, First(s, r, 0), Stop(s, r, k + 1), i + 1);
  }

  lemma BeforeFit(s: Series, rules: Rules, r: Range, k: nat)
    requires Valid(s, rules)
    ensures AllFit(rules, Before(s, rules, r, k), |s.dates|)
  {
    ChosenFit(s, rules, r, First(s, r, 0), Stop(s, r, k));
  }

  lemma BeforeEnd(s: Series, rules: Rules, r: Range)
    requires Valid(s, rules) && AllFit(rules, Before(s, rules, r, |Positions(s, r, |s.dates|)|), |s.dates|)
    ensures SampleList(s, rules, r, Before(s, rules, r, |Positions(s, r, |s.dates|)|)) == SamplesOf(s, rules, r)
  {
  }

  function LastOf(ends: seq<nat>): Option<nat> {
    if ends == [] then None else Some(ends[|ends| - 1])
  }

  /** `_eligible_samples_for_range`: walks the positions inside the range and remembers the last one taken. */
  method SamplesForRange(s: Series, rules: Rules, r: Range) returns (samples: seq<Sample>)
    requires Valid(s, rules)
    ensures samples == SamplesOf(s, rules, r)
  {
    hide Eligible;
    hide QualityRatio;
    hide Before;
    hide Positions;
    hide AllFit;
    hide SampleList;
    hide SamplesOf;
    hide First;
    var positions := Positions(s, r, |s.dates|);
    samples := [];
    NothingBeforeFirst(s, rules, r);
    BeforeFit(s, rules, r, 0);
    if positions == [] {
      BeforeEnd(s, rules, r);
      return;
    }
    var last: Option<nat> := None;
    for k := 0 to |positions|
      invariant AllFit(rules, Before(s, rules, r, k), |s.dates|)
      invariant samples == SampleList(s, rules, r, Before(s, rules, r, k))
      invariant last == LastOf(Before(s, rules, r, k))
    {
      var position := positions[k];
      AdvancePosition(s, rules, r, k);
      BeforeFit(s, rules, r, k + 1);
      var taken := TakePosition(s, rules, r, positions[0], position, last);
      if taken {
        SampleListGrows(s, rules, r, Before(s, rules, r, k), position);
        samples := samples + [SampleAt(s, rules, r, position)];
        last := Some(position);
      }
    }
    BeforeEnd(s, rules, r);
  }

  /** The chain of `continue` tests for one position inside the range. */
  method TakePosition(s: Series, rules: Rules, r: Range, first: nat, position: nat, last: Option<nat>)
    returns (taken: bool)
    requires Valid(s, rules) && position < |s.dates| && InRange(s, r, position)
    ensures taken <==> Eligible(s, rules, r, first, position) && (last.Some? ==> position - last.value >= rules.stride)
  {
    if position - first < rules.step - 1 {
      return false;
    }
    var windowStart := position + 1 - rules.step;
    if s.dates[windowStart] < r.start {
      return false;
    }
    if s.listing[position] < rules.minListing {
      return false;
    }
    if s.quality[position] <= 0.0 {
      return false;
    }
    if QualityRatio(s, rules, position) < rules.minQuality {
      return false;
    }
    return last.None? || position - last.value >= rules.stride;
  }

  function AllSamples(s: Series, rules: Rules, ranges: seq<Range>): seq<Sample>
    requires Valid(s, rules)
  {
    if ranges == [] then []
    else AllSamples(s, rules, ranges[..|ranges| - 1]) + SamplesOf(s, rules, ranges[|ranges| - 1])
  }

  /** `_eligible_samples`: one map of last positions, keyed by split, serves all ranges at once. */
  method EligibleSamples(s: Series, rules: Rules, ranges: seq<Range>) returns (samples: seq<Sample>)
    requires Valid(s, rules) && forall i, j :: 0 <= i < j < |ranges| ==> ranges[i].name != ranges[j].name
    ensures samples == AllSamples(s, rules, ranges)
  {
    hide Eligible;
    hide QualityRatio;
    samples := [];
    var lasts: map<string, nat> := map[];
    for n := 0 to |ranges|
      invariant samples == AllSamples(s, rules, ranges[..n])
      invariant forall j :: n <= j < |ranges| ==> ranges[j].name !in lasts
    {
      assert ranges[..n + 1][..n] == ranges[..n];
      var more;
      more, lasts := SamplesOfSplit(s, rules, ranges[n], lasts);
      samples := samples + more;
    }
    assert ranges[..|ranges|] == ranges;
  }

  /** The body of the loop over splits. */
  method SamplesOfSplit(s: Series, rules: Rules, r: Range, lasts: map<string, nat>)
    returns (samples: seq<Sample>, now: map<string, nat>)
    requires Valid(s, rules) && r.name !in lasts
    ensures samples == SamplesOf(s, rules, r)
    ensures forall name :: name != r.name && name !in lasts ==> name !in now
  {
    hide Eligible;
    hide QualityRatio;
    hide Before;
    hide Positions;
    hide AllFit;
    hide SampleList;
    hide SamplesOf;
    hide First;
    var positions := Positions(s, r, |s.dates|);
    samples, now := [], lasts;
    NothingBeforeFirst(s, rules, r);
    BeforeFit(s, rules, r, 0);
    if positions == [] {
      BeforeEnd(s, rules, r);
      return;
    }
    for k := 0 to |positions|
      invariant AllFit(rules, Before(s, rules, r, k), |s.dates|)
      invariant samples == SampleList(s, rules, r, Before(s, rules, r, k))
      invariant (if r.name in now then Some(now[r.name]) else None) == LastOf(Before(s, rules, r, k))
      invariant forall name :: name != r.name && name !in lasts ==> name !in now
    {
      var position := positions[k];
      AdvancePosition(s, rules, r, k);
      BeforeFit(s, rules, r, k + 1);
      var taken := TakePosition(s, rules, r, positions[0], position, if r.name in now then Some(now[r.name]) else None);
      if taken {
        SampleListGrows(s, rules, r, Before(s, rules, r, k), position);
        samples := samples + [SampleAt(s, rules, r, position)];
        now := now[r.name := position];
      }
    }
    BeforeEnd(s, rules, r);
  }

  // ------------------------------------------------------------------ what sampling guarantees

  lemma FirstInside(s: Series, r: Range, i: nat, a: nat)
    requires Sorted(s) && i < |s.dates| && InRange(s, r, i) && a <= i
    ensures First(s, r, 0) <= i
    ensures s.dates[a] >= r.start <==> First(s, r, 0) <= a
  {
    if First(s, r, 0) > a {
      assert !InRange(s, r, a);
    }
  }

  lemma EnoughQuality(total: real, step: nat, least: real)
    requires step >= 1
    ensures total / step as real >= least <==> total >= least * step as real
  {
    var k := step as real;
    assert total / k * k == total;
    if total / k >= least {
      assert (total / k - least) * k >= 0.0;
    } else {
      assert (least - total / k) * k > 0.0;
    }
  }

  /**
   * On sorted dates a window may end at day `i` exactly when all its days lie in the range, day `i` has the
   * listing and a positive quality, and the qualities of its days add up to the minimum for so many days.
   */
  lemma EligibleIff(s: Series, rules: Rules, r: Range, i: nat)
    requires Valid(s, rules) && Sorted(s) && i < |s.dates|
    ensures Eligible(s, rules, r, First(s, r, 0), i)
       <==> && rules.step <= i + 1
            && (forall j :: i + 1 - rules.step <= j <= i ==> r.start <= s.dates[j] <= r.end)
            && s.listing[i] >= rules.minListing && s.quality[i] > 0.0
            && Sum(s.quality[i + 1 - rules.step..i + 1]) >= rules.minQuality * rules.step as real
  {
    hide Sum;
    hide First;
    if InRange(s, r, i) {
      FirstInside(s, r, i, i);
      if rules.step <= i + 1 {
        FirstInside(s, r, i, i + 1 - rules.step);
        EnoughQuality(Sum(s.quality[i + 1 - rules.step..i + 1]), rules.step, rules.minQuality);
      }
    }
  }

  /** On sorted dates every day of a sample's window lies inside the range of its split. */
  lemma WindowInsideRange(s: Series, rules: Rules, r: Range, k: nat, j: nat)
    requires Valid(s, rules) && Sorted(s) && k < |SamplesOf(s, rules, r)|
    requires SamplesOf(s, rules, r)[k].start <= j <= SamplesOf(s, rules, r)[k].end
    ensures SamplesOf(s, rules, r)[k].end < |s.dates|
    ensures SamplesOf(s, rules, r)[k].end + 1 - SamplesOf(s, rules, r)[k].start == rules.step
    ensures r.start <= s.dates[j] <= r.end
  {
    hide QualityRatio;
    ChosenAreEligible(s, rules, r, First(s, r, 0), |s.dates|, k);
  }

  /** Consecutive samples of a split are at least the stride apart. */
  lemma {:induction false} ChosenAreSpaced(s: Series, rules: Rules, r: Range, first: nat, m: nat, k: nat)
    requires Valid(s, rules) && m <= |s.dates| && 0 < k < |Chosen(s, rules, r, first, m)|
    ensures var c := Chosen(s, rules, r, first, m); c[k] - c[k - 1] >= rules.stride && c[k - 1] < c[k]
  {
    hide Eligible;
    if k < |Chosen(s, rules, r, first, m - 1)| {
      ChosenAreSpaced(s, rules, r, first, m - 1, k);
    }
  }

  /** A list of eligible ends that keep the stride. */
  ghost predicate Admissible(s: Series, rules: Rules, r: Range, first: nat, ends: seq<nat>, m: nat)
    requires Valid(s, rules) && m <= |s.dates|
  {
    && (forall i :: 0 <= i < |ends| ==> ends[i] < m && Eligible(s, rules, r, first, ends[i]))
    && (forall i :: 0 < i < |ends| ==> ends[i] - ends[i - 1] >= rules.stride && ends[i - 1] < ends[i])
  }

  lemma AdmissibleFront(s: Series, rules: Rules, r: Range, first: nat, ends: seq<nat>, m: nat)
    requires Valid(s, rules) && 0 < m <= |s.dates| && Admissible(s, rules, r, first, ends, m) && ends != []
    ensures ends[|ends| - 1] < m - 1 ==> Admissible(s, rules, r, first, ends, m - 1)
    ensures ends[|ends| - 1] == m - 1 ==>
              && Admissible(s, rules, r, first, ends[..|ends| - 1], m - 1) && Eligible(s, rules, r, first, m - 1)
              && (|ends| > 1 ==> m - 1 - ends[|ends| - 2] >= rules.stride)
  {
    hide Eligible;
    forall i | 0 <= i < |ends| - 1 ensures ends[i] < ends[|ends| - 1] {
      Increasing(ends, i, |ends| - 1);
    }
  }

  lemma {:induction false} Increasing(ends: seq<nat>, i: nat, j: nat)
    requires (forall k :: 0 < k < |ends| ==> ends[k - 1] < ends[k]) && i < j < |ends|
    ensures ends[i] < ends[j]
  {
    assert ends[j - 1] < ends[j];
    if i < j - 1 {
      Increasing(ends, i, j - 1);
    }
  }

  /** The greedy choice is the largest: no other way to keep the stride finds more samples. */
  lemma {:induction false} GreedyIsLargest(s: Series, rules: Rules, r: Range, first: nat, ends: seq<nat>, m: nat)
    requires Valid(s, rules) && m <= |s.dates| && Admissible(s, rules, r, first, ends, m)
    ensures |ends| <= |Chosen(s, rules, r, first, m)|
    ensures ends != [] ==> Chosen(s, rules, r, first, m)[|ends| - 1] <= ends[|ends| - 1]
  {
    hide Eligible;
    hide Admissible;
    if ends != [] {
      LastBelow(s, rules, r, first, ends, m);
      if m > 0 {
        AdmissibleFront(s, rules, r, first, ends, m);
        if ends[|ends| - 1] < m - 1 {
          GreedyIsLargest(s, rules, r, first, ends, m - 1);
        } else {
          GreedyIsLargest(s, rules, r, first, ends[..|ends| - 1], m - 1);
        }
      }
    }
  }

  lemma LastBelow(s: Series, rules: Rules, r: Range, first: nat, ends: seq<nat>, m: nat)
    requires Valid(s, rules) && m <= |s.dates| && Admissible(s, rules, r, first, ends, m) && ends != []
    ensures ends[|ends| - 1] < m
  {
  }

  // ------------------------------------------------------------------ the whole dataset

  datatype Member = Member(symbol: string, heldOut: bool, series: Series)
  datatype Record = Record(symbol: string, window: Sample)
  datatype DatasetError = BadSplit(error: SplitError) | SampleInTwoSplits

  function CanonicalSplitName(name: string): string {
    if name == "test" then "time_test" else name
  }

  /** The date range a split name stands for. */
  function SplitRange(c: SplitConfig, split: string): Range {
    if split == "train" then Range(split, c.trainStart, c.trainEnd)
    else if split == "valid" || split == "instrument_test" then Range(split, c.validStart, c.validEnd)
    else Range(split, c.testStart, c.testEnd)
  }

  /** A training symbol appears in three splits, a held-out one in two others. */
  function SplitsOf(heldOut: bool): seq<string> {
    if heldOut then ["instrument_test", "double_oos"] else ["train", "valid", "time_test"]
  }

  function SplitRanges(c: SplitConfig, heldOut: bool): (ranges: seq<Range>)
    ensures |ranges| == |SplitsOf(heldOut)|
    ensures forall k :: 0 <= k < |ranges| ==> ranges[k] == SplitRange(c, SplitsOf(heldOut)[k])
  {
    seq(|SplitsOf(heldOut)|, k requires 0 <= k < |SplitsOf(heldOut)| => SplitRange(c, SplitsOf(heldOut)[k]))
  }

  function Tagged(symbol: string, samples: seq<Sample>): (records: seq<Record>)
    ensures |records| == |samples|
  {
    seq(|samples|, k requires 0 <= k < |samples| => Record(symbol, samples[k]))
  }

  function RecordsOf(m: Member, rules: Rules, c: SplitConfig): seq<Record>
    requires Valid(m.series, rules)
  {
    Tagged(m.symbol, AllSamples(m.series, rules, SplitRanges(c, m.heldOut)))
  }

  ghost predicate AllValid(members: seq<Member>, rules: Rules) {
    forall i :: 0 <= i < |members| ==> Valid(members[i].series, rules)
  }

  ghost function Dataset(members: seq<Member>, rules: Rules, c: SplitConfig): seq<Record>
    requires AllValid(members, rules)
  {
    if members == [] then []
    else Dataset(members[..|members| - 1], rules, c) + RecordsOf(members[|members| - 1], rules, c)
  }

  function Renamed(samples: seq<Sample>): (r: seq<Sample>)
    ensures |r| == |samples|
  {
    seq(|samples|, k requires 0 <= k < |samples| => samples[k].(split := CanonicalSplitName(samples[k].split)))
  }

  // The choice of days never looks at the name of the range.

  lemma {:induction false} FirstIgnoresName(s: Series, r: Range, q: Range, i: nat)
    requires i <= |s.dates| && r.(name := q.name) == q
    ensures First(s, r, i) == First(s, q, i)
    decreases |s.dates| - i
  {
    if i < |s.dates| && !InRange(s, r, i) {
      FirstIgnoresName(s, r, q, i + 1);
    }
  }

  lemma {:induction false} ChosenIgnoresName(s: Series, rules: Rules, r: Range, q: Range, first: nat, m: nat)
    requires Valid(s, rules) && m <= |s.dates| && r.(name := q.name) == q
    ensures Chosen(s, rules, r, first, m) == Chosen(s, rules, q, first, m)
  {
    hide QualityRatio;
    if m > 0 {
      ChosenIgnoresName(s, rules, r, q, first, m - 1);
    }
  }

  lemma RenamedSamples(s: Series, rules: Rules, r: Range)
    requires Valid(s, rules)
    ensures Renamed(SamplesOf(s, rules, r)) == SamplesOf(s, rules, r.(name := CanonicalSplitName(r.name)))
  {
    var q := r.(name := CanonicalSplitName(r.name));
    FirstIgnoresName(s, r, q, 0);
    ChosenIgnoresName(s, rules, r, q, First(s, r, 0), |s.dates|);
    hide Chosen;
    hide First;
    hide QualityRatio;
  }

  lemma {:induction false} RenamedAll(s: Series, rules: Rules, ranges: seq<Range>, renamed: seq<Range>)
    requires Valid(s, rules) && |renamed| == |ranges|
    requires forall k :: 0 <= k < |ranges| ==> renamed[k] == ranges[k].(name := CanonicalSplitName(ranges[k].name))
    ensures Renamed(AllSamples(s, rules, ranges)) == AllSamples(s, rules, renamed)
  {
    hide SamplesOf;
    hide CanonicalSplitName;
    if ranges != [] {
      var n := |ranges| - 1;
      RenamedAll(s, rules, ranges[..n], renamed[..n]);
      RenamedSamples(s, rules, ranges[n]);
      RenamedParts(AllSamples(s, rules, ranges[..n]), SamplesOf(s, rules, ranges[n]));
    }
  }

  lemma RenamedParts(a: seq<Sample>, b: seq<Sample>)
    ensures Renamed(a + b) == Renamed(a) + Renamed(b)
  {
  }

  /** The samples of one symbol: all ranges at once if it trains, the later two one by one if it is held out. */
  method SymbolRecords(m: Member, rules: Rules, c: SplitConfig, ranges: seq<Range>) returns (records: seq<Record>)
    requires Valid(m.series, rules)
    requires ranges == [SplitRange(c, "train"), SplitRange(c, "valid"), SplitRange(c, "test")]
    ensures records == RecordsOf(m, rules, c)
  {
    hide SamplesOf;
    records := [];
    if m.heldOut {
      var instrument := SamplesForRange(m.series, rules, Range("instrument_test", ranges[1].start, ranges[1].end));
      var double := SamplesForRange(m.series, rules, Range("double_oos", ranges[2].start, ranges[2].end));
      records := Tagged(m.symbol, instrument + double);
      TwoRanges(m.series, rules, SplitRange(c, "instrument_test"), SplitRange(c, "double_oos"));
      assert SplitRanges(c, true) == [SplitRange(c, "instrument_test"), SplitRange(c, "double_oos")];
    } else {
      var base := EligibleSamples(m.series, rules, ranges);
      for k := 0 to |base|
        invariant records == Tagged(m.symbol, Renamed(base[..k]))
      {
        records := records + [Record(m.symbol, base[k].(split := CanonicalSplitName(base[k].split)))];
      }
      assert base[..|base|] == base;
      RenamedAll(m.series, rules, ranges, SplitRanges(c, false));
    }
  }

  lemma TwoRanges(s: Series, rules: Rules, a: Range, b: Range)
    requires Valid(s, rules)
    ensures AllSamples(s, rules, [a, b]) == SamplesOf(s, rules, a) + SamplesOf(s, rules, b)
  {
    hide SamplesOf;
    assert [a, b][..1] == [a] && [a][..0] == [];
    assert AllSamples(s, rules, [a]) == SamplesOf(s, rules, a);
  }

  lemma {:induction false} RangeOfSample(s: Series, rules: Rules, ranges: seq<Range>, w: Sample) returns (k: nat)
    requires Valid(s, rules) && w in AllSamples(s, rules, ranges)
    ensures k < |ranges| && w in SamplesOf(s, rules, ranges[k])
  {
    hide SamplesOf;
    var n := |ranges| - 1;
    if w in SamplesOf(s, rules, ranges[n]) {
      k := n;
    } else {
      k := RangeOfSample(s, rules, ranges[..n], w);
    }
  }

  lemma SampleOfRange(s: Series, rules: Rules, r: Range, w: Sample)
    requires Valid(s, rules) && w in SamplesOf(s, rules, r)
    ensures w.split == r.name && w.start <= w.end < |s.dates| && w.asOf == s.dates[w.end]
    ensures r.start <= w.asOf <= r.end
  {
    var k :| 0 <= k < |SamplesOf(s, rules, r)| && SamplesOf(s, rules, r)[k] == w;
    hide QualityRatio;
    ChosenFit(s, rules, r, First(s, r, 0), |s.dates|);
    ChosenAreEligible(s, rules, r, First(s, r, 0), |s.dates|, k);
    hide Chosen;
    hide First;
  }

  /** The splits a record can carry, and the range its samples come from. */
  lemma SplitOfRecord(m: Member, rules: Rules, c: SplitConfig, x: Record)
    requires Valid(m.series, rules) && x in RecordsOf(m, rules, c)
    ensures x.symbol == m.symbol && x.window.split in SplitsOf(m.heldOut)
    ensures x.window in SamplesOf(m.series, rules, SplitRange(c, x.window.split))
    ensures var r := SplitRange(c, x.window.split); r.start <= x.window.asOf <= r.end
  {
    hide SamplesOf;
    hide AllSamples;
    hide SplitRange;
    var k := RangeOfSample(m.series, rules, SplitRanges(c, m.heldOut), x.window);
    SampleOfRange(m.series, rules, SplitRanges(c, m.heldOut)[k], x.window);
    SplitRangeName(c, SplitsOf(m.heldOut)[k]);
  }

  lemma SplitRangeName(c: SplitConfig, split: string)
    ensures SplitRange(c, split).name == split
  {
  }

  lemma {:induction false} MemberOfRecord(members: seq<Member>, rules: Rules, c: SplitConfig, x: Record)
    returns (k: nat)
    requires AllValid(members, rules) && x in Dataset(members, rules, c)
    ensures k < |members| && x in RecordsOf(members[k], rules, c)
  {
    hide RecordsOf;
    var n := |members| - 1;
    if x in RecordsOf(members[n], rules, c) {
      k := n;
    } else {
      k := MemberOfRecord(members[..n], rules, c, x);
    }
  }

  lemma DatesOfSample(s: Series, rules: Rules, r: Range, w: Sample, j: nat)
    requires Valid(s, rules) && Sorted(s) && w in SamplesOf(s, rules, r) && w.start <= j <= w.end
    ensures w.end < |s.dates| && r.start <= s.dates[j] <= r.end
  {
    var k :| 0 <= k < |SamplesOf(s, rules, r)| && SamplesOf(s, rules, r)[k] == w;
    WindowInsideRange(s, rules, r, k, j);
  }

  /** A training sample and a doubly out-of-sample one differ in symbol and share no date. */
  lemma TrainAndDoubleOosAreDisjoint(a: Member, b: Member, rules: Rules, c: SplitConfig, x: Record, y: Record, i: nat,
                                     j: nat)
    requires Valid(a.series, rules) && Valid(b.series, rules) && Sorted(a.series) && Sorted(b.series)
    requires c.trainEnd < c.testStart
    requires a.symbol == b.symbol ==> a.heldOut == b.heldOut
    requires x in RecordsOf(a, rules, c) && x.window.split == "train"
    requires y in RecordsOf(b, rules, c) && y.window.split == "double_oos"
    requires x.window.start <= i <= x.window.end && y.window.start <= j <= y.window.end
    ensures x.symbol != y.symbol
    ensures i < |a.series.dates| && j < |b.series.dates| && a.series.dates[i] < b.series.dates[j]
  {
    hide RecordsOf;
    hide SamplesOf;
    SplitOfRecord(a, rules, c, x);
    SplitOfRecord(b, rules, c, y);
    DatesOfSample(a.series, rules, SplitRange(c, "train"), x.window, i);
    DatesOfSample(b.series, rules, SplitRange(c, "double_oos"), y.window, j);
  }

  function Key(x: Record): (string, int) {
    (x.symbol, x.window.asOf)
  }

  predicate SameKey(x: Record, y: Record) {
    Key(x) == Key(y)
  }

  ghost predicate SplitDisjoint(records: seq<Record>) {
    forall i, j :: 0 <= i < j < |records| && SameKey(records[i], records[j]) ==>
                     CanonicalSplitName(records[i].window.split) == CanonicalSplitName(records[j].window.split)
  }

  /** `assert_split_disjoint`: refuses exactly when one symbol and date carry two canonical split names. */
  method AssertSplitDisjoint(records: seq<Record>) returns (ok: bool)
    ensures ok <==> SplitDisjoint(records)
  {
    hide CanonicalSplitName;
    var seen: map<(string, int), string> := map[];
    for i := 0 to |records|
      invariant forall k :: 0 <= k < i ==>
                  Key(records[k]) in seen && seen[Key(records[k])] == CanonicalSplitName(records[k].window.split)
      invariant forall key :: key in seen ==> exists k :: 0 <= k < i && Key(records[k]) == key
    {
      var key := Key(records[i]);
      var split := CanonicalSplitName(records[i].window.split);
      if key in seen && seen[key] != split {
        ghost var k :| 0 <= k < i && Key(records[k]) == key;
        assert SameKey(records[k], records[i]);
        return false;
      }
      seen := seen[key := split];
    }
    return true;
  }

  /** Do the ranges of a configuration pass the checks? */
  predicate Ordered(c: SplitConfig) {
    && Follows(SplitRange(c, "train"), SplitRange(c, "valid"), c.gapDays)
    && Follows(SplitRange(c, "valid"), SplitRange(c, "test"), c.gapDays)
  }

  /** Symbols are told apart by their names. */
  ghost predicate DistinctSymbols(members: seq<Member>) {
    forall i, j :: 0 <= i < j < |members| ==> members[i].symbol != members[j].symbol
  }

  /** Within one symbol the date determines the split. */
  lemma DateDeterminesSplit(m: Member, rules: Rules, c: SplitConfig, x: Record, y: Record)
    requires Valid(m.series, rules) && Ordered(c)
    requires x in RecordsOf(m, rules, c) && y in RecordsOf(m, rules, c) && SameKey(x, y)
    ensures x.window.split == y.window.split
  {
    hide RecordsOf;
    hide SamplesOf;
    SplitOfRecord(m, rules, c, x);
    SplitOfRecord(m, rules, c, y);
  }

  /** No symbol and date of an assembled dataset carry two splits. */
  lemma DatasetIsDisjoint(members: seq<Member>, rules: Rules, c: SplitConfig)
    requires AllValid(members, rules) && DistinctSymbols(members) && Ordered(c)
    ensures SplitDisjoint(Dataset(members, rules, c))
  {
    hide Dataset;
    hide RecordsOf;
    hide Ordered;
    var records := Dataset(members, rules, c);
    forall i, j | 0 <= i < j < |records| && SameKey(records[i], records[j])
      ensures records[i].window.split == records[j].window.split
    {
      var k := MemberOfRecord(members, rules, c, records[i]);
      var l := MemberOfRecord(members, rules, c, records[j]);
      SplitOfRecord(members[k], rules, c, records[i]);
      SplitOfRecord(members[l], rules, c, records[j]);
      assert k == l;
      DateDeterminesSplit(members[k], rules, c, records[i], records[j]);
    }
  }

  /** `build_dataset`, the records: the check at the end never refuses them, so only the split configuration can. */
  method BuildRecords(members: seq<Member>, rules: Rules, c: SplitConfig) returns (r: Result<seq<Record>, DatasetError>)
    requires AllValid(members, rules) && DistinctSymbols(members)
    ensures r.Success? <==> Ordered(c)
    ensures r.Success? ==> r.value == Dataset(members, rules, c) && SplitDisjoint(r.value)
    ensures r.Failure? ==> r.error.BadSplit?
  {
    hide RecordsOf;
    var ranges := Ranges(c);
    if ranges.Failure? {
      return Failure(BadSplit(ranges.error));
    }
    var records: seq<Record> := [];
    for i := 0 to |members|
      invariant records == Dataset(members[..i], rules, c)
    {
      var more := SymbolRecords(members[i], rules, c, ranges.value);
      assert members[..i + 1][..i] == members[..i];
      records := records + more;
    }
    assert members[..|members|] == members;
    DatasetIsDisjoint(members, rules, c);
    var ok := AssertSplitDisjoint(records);
    return if ok then Success(records) else Failure(SampleInTwoSplits);
  }
}
