/** Which samples a dataset has: exactly these, each of them once. */
module SamplerLaws {
  import opened Numbers
  import opened Sequences
  import opened Sampler

  // ------------------------------------------------------------------ one range

  /** May a window end at day `i`: are its days in the range, and is there the listing and the quality? */
  ghost predicate Fits(s: Series, rules: Rules, r: Range, i: nat)
    requires Valid(s, rules)
  {
    && i < |s.dates| && rules.step <= i + 1
    && (forall j :: i + 1 - rules.step <= j <= i ==> r.start <= s.dates[j] <= r.end)
    && s.listing[i] >= rules.minListing && s.quality[i] > 0.0
    && Sum(s.quality[i + 1 - rules.step..i + 1]) >= rules.minQuality * rules.step as real
  }

  /** Is day `i` taken, or too close behind one that is? */
  ghost predicate Settled(ends: seq<nat>, i: nat, stride: int) {
    exists k :: 0 <= k < |ends| && ends[k] <= i && (ends[k] == i || i - ends[k] < stride)
  }

  lemma StillSettled(ends: seq<nat>, more: seq<nat>, i: nat, stride: int)
    requires Settled(ends, i, stride) && ends <= more
    ensures Settled(more, i, stride)
  {
    var k :| 0 <= k < |ends| && ends[k] <= i && (ends[k] == i || i - ends[k] < stride);
    assert more[k] == ends[k];
  }

  lemma {:induction false} GreedySettles(s: Series, rules: Rules, r: Range, first: nat, m: nat, i: nat)
    requires Valid(s, rules) && i < m <= |s.dates| && Eligible(s, rules, r, first, i)
    ensures Settled(Chosen(s, rules, r, first, m), i, rules.stride)
  {
    hide Eligible;
    var before := Chosen(s, rules, r, first, m - 1);
    if i < m - 1 {
      GreedySettles(s, rules, r, first, m - 1, i);
      hide Settled;
      StillSettled(before, Chosen(s, rules, r, first, m), i, rules.stride);
    } else if Spaced(before, i, rules.stride) {
      assert Chosen(s, rules, r, first, m)[|before|] == i;
    } else {
      assert before[|before| - 1] < m - 1;
    }
  }

  ghost function Ends(samples: seq<Sample>): (r: seq<nat>)
    ensures |r| == |samples|
  {
    seq(|samples|, k requires 0 <= k < |samples| => samples[k].end)
  }

  /** Does the sample say what its window says? */
  ghost predicate Describes(s: Series, rules: Rules, r: Range, w: Sample)
    requires Valid(s, rules)
  {
    && Fits(s, rules, r, w.end) && w.start + rules.step == w.end + 1 && w.asOf == s.dates[w.end] && w.split == r.name
    && w.quality * rules.step as real == Sum(s.quality[w.start..w.end + 1])
  }

  lemma QualityTimes(total: real, step: nat)
    requires step >= 1
    ensures total / step as real * step as real == total
  {
  }

  ghost predicate Apart(samples: seq<Sample>, k: nat, stride: int)
    requires 0 < k < |samples|
  {
    samples[k - 1].end < samples[k].end && samples[k].end - samples[k - 1].end >= stride
  }

  /**
   * Each sample ends on a day that fits and says what its window says, they keep the stride, and every day that
   * fits is the end of one or too close behind the end of one.
   */
  ghost predicate SamplesAre(s: Series, rules: Rules, r: Range, samples: seq<Sample>)
    requires Valid(s, rules)
  {
    && (forall k :: 0 <= k < |samples| ==> Describes(s, rules, r, samples[k]))
    && (forall k :: 0 < k < |samples| ==> Apart(samples, k, rules.stride))
    && (forall i :: Fits(s, rules, r, i) ==> Settled(Ends(samples), i, rules.stride))
  }

  lemma SampleDescribes(s: Series, rules: Rules, r: Range, i: nat)
    requires Valid(s, rules) && Sorted(s) && i < |s.dates| && Eligible(s, rules, r, First(s, r, 0), i)
    ensures rules.step <= i + 1 && Describes(s, rules, r, SampleAt(s, rules, r, i))
  {
    FitsIff(s, rules, r, i);
    hide Eligible;
    hide Sorted;
    hide First;
    QualityTimes(Sum(s.quality[i + 1 - rules.step..i + 1]), rules.step);
    hide Sum;
  }

  /** The samples of a range on sorted dates are these. */
  lemma SamplesLaw(s: Series, rules: Rules, r: Range)
    requires Valid(s, rules) && Sorted(s)
    ensures SamplesAre(s, rules, r, SamplesOf(s, rules, r))
  {
    hide Fits;
    hide Sorted;
    hide Eligible;
    hide Chosen;
    hide First;
    hide Settled;
    hide Describes;
    hide SampleAt;
    var first := First(s, r, 0);
    var c, samples := Chosen(s, rules, r, first, |s.dates|), SamplesOf(s, rules, r);
    ChosenFit(s, rules, r, first, |s.dates|);
    forall k | 0 <= k < |c| ensures samples[k].end == c[k] {
      SampleEnd(s, rules, r, c[k]);
    }
    assert Ends(samples) == c;
    forall k | 0 <= k < |samples| ensures Describes(s, rules, r, samples[k]) {
      ChosenAreEligible(s, rules, r, first, |s.dates|, k);
      SampleDescribes(s, rules, r, c[k]);
    }
    forall k | 0 < k < |samples| ensures Apart(samples, k, rules.stride) {
      ChosenAreSpaced(s, rules, r, first, |s.dates|, k);
    }
    forall i | Fits(s, rules, r, i) ensures Settled(Ends(samples), i, rules.stride) {
      InsideSeries(s, rules, r, i);
      FitsIff(s, rules, r, i);
      GreedySettles(s, rules, r, first, |s.dates|, i);
    }
  }

  lemma SampleEnd(s: Series, rules: Rules, r: Range, i: nat)
    requires Valid(s, rules) && i < |s.dates| && rules.step <= i + 1
    ensures SampleAt(s, rules, r, i).end == i
  {
  }

  lemma InsideSeries(s: Series, rules: Rules, r: Range, i: nat)
    requires Valid(s, rules) && Fits(s, rules, r, i)
    ensures i < |s.dates|
  {
  }

  lemma FitsIff(s: Series, rules: Rules, r: Range, i: nat)
    requires Valid(s, rules) && Sorted(s) && i < |s.dates|
    ensures Eligible(s, rules, r, First(s, r, 0), i) <==> Fits(s, rules, r, i)
  {
    hide Eligible;
    hide First;
    hide Sum;
    EligibleIff(s, rules, r, i);
  }

  // ------------------------------------------------------------------ the whole dataset

  /** Is this one of the member's samples between two dates, under this split name? */
  ghost predicate Between(m: Member, rules: Rules, split: string, start: int, end: int, x: Record)
    requires Valid(m.series, rules)
  {
    x.symbol == m.symbol && x.window in SamplesOf(m.series, rules, Range(split, start, end))
  }

  /** A training symbol gives samples to train, valid and time_test, a held-out one to the two out-of-sample splits. */
  ghost predicate Belongs(m: Member, rules: Rules, c: SplitConfig, x: Record)
    requires Valid(m.series, rules)
  {
    if m.heldOut then
      || Between(m, rules, "instrument_test", c.validStart, c.validEnd, x)
      || Between(m, rules, "double_oos", c.testStart, c.testEnd, x)
    else
      || Between(m, rules, "train", c.trainStart, c.trainEnd, x)
      || Between(m, rules, "valid", c.validStart, c.validEnd, x)
      || Between(m, rules, "time_test", c.testStart, c.testEnd, x)
  }

  lemma TaggedAre(symbol: string, samples: seq<Sample>, x: Record)
    ensures x in Tagged(symbol, samples) <==> x.symbol == symbol && x.window in samples
  {
    if x.symbol == symbol && x.window in samples {
      var k :| 0 <= k < |samples| && samples[k] == x.window;
      assert Tagged(symbol, samples)[k] == x;
    }
  }

  lemma ThreeRanges(s: Series, rules: Rules, a: Range, b: Range, c: Range)
    requires Valid(s, rules)
    ensures AllSamples(s, rules, [a, b, c]) == SamplesOf(s, rules, a) + SamplesOf(s, rules, b) + SamplesOf(s, rules, c)
  {
    hide SamplesOf;
    TwoRanges(s, rules, a, b);
    assert [a, b, c][..2] == [a, b];
  }

  lemma MemberRecords(m: Member, rules: Rules, c: SplitConfig)
    requires Valid(m.series, rules)
    ensures var s := m.series;
            AllSamples(s, rules, SplitRanges(c, m.heldOut))
            == if m.heldOut then
                 SamplesOf(s, rules, Range("instrument_test", c.validStart, c.validEnd))
                 + SamplesOf(s, rules, Range("double_oos", c.testStart, c.testEnd))
               else
                 SamplesOf(s, rules, Range("train", c.trainStart, c.trainEnd))
                 + SamplesOf(s, rules, Range("valid", c.validStart, c.validEnd))
                 + SamplesOf(s, rules, Range("time_test", c.testStart, c.testEnd))
  {
    hide SamplesOf;
    hide AllSamples;
    var valid, test := Range("valid", c.validStart, c.validEnd), Range("time_test", c.testStart, c.testEnd);
    if m.heldOut {
      TwoRanges(m.series, rules, valid.(name := "instrument_test"), test.(name := "double_oos"));
      assert SplitRanges(c, true) == [valid.(name := "instrument_test"), test.(name := "double_oos")];
    } else {
      var train := Range("train", c.trainStart, c.trainEnd);
      ThreeRanges(m.series, rules, train, valid, test);
      assert SplitRanges(c, false) == [train, valid, test];
    }
  }

  lemma BelongsIff(m: Member, rules: Rules, c: SplitConfig, x: Record)
    requires Valid(m.series, rules)
    ensures x in RecordsOf(m, rules, c) <==> Belongs(m, rules, c, x)
  {
    hide SamplesOf;
    hide AllSamples;
    MemberRecords(m, rules, c);
    TaggedAre(m.symbol, AllSamples(m.series, rules, SplitRanges(c, m.heldOut)), x);
    hide SplitRanges;
  }

  /** A record is in the dataset exactly when it belongs to one of the members. */
  lemma {:induction false} DatasetIff(members: seq<Member>, rules: Rules, c: SplitConfig, x: Record)
    requires AllValid(members, rules)
    ensures x in Dataset(members, rules, c) <==> exists k :: 0 <= k < |members| && Belongs(members[k], rules, c, x)
  {
    hide Belongs;
    hide RecordsOf;
    if members != [] {
      var front, last := members[..|members| - 1], members[|members| - 1];
      DatasetIff(front, rules, c, x);
      BelongsIff(last, rules, c, x);
      assert forall k :: 0 <= k < |front| ==> front[k] == members[k];
      assert Belongs(last, rules, c, x) ==> Belongs(members[|members| - 1], rules, c, x);
    }
  }

  // ------------------------------------------------------------------ no sample twice

  lemma DistinctJoin<T>(a: seq<T>, b: seq<T>)
    requires Distinct(a) && Distinct(b) && forall x :: x in a ==> x !in b
    ensures Distinct(a + b)
  {
    forall i, j | 0 <= i < j < |a + b| ensures (a + b)[i] != (a + b)[j] {
      if i < |a| <= j {
        assert a[i] in a && b[j - |a|] in b;
      }
    }
  }

  lemma SamplesAreDistinct(s: Series, rules: Rules, r: Range)
    requires Valid(s, rules)
    ensures Distinct(SamplesOf(s, rules, r))
  {
    hide Eligible;
    var first := First(s, r, 0);
    var c, samples := Chosen(s, rules, r, first, |s.dates|), SamplesOf(s, rules, r);
    forall k | 0 < k < |c| ensures c[k - 1] < c[k] {
      ChosenAreSpaced(s, rules, r, first, |s.dates|, k);
    }
    ChosenFit(s, rules, r, first, |s.dates|);
    hide Chosen;
    hide First;
    forall i, j | 0 <= i < j < |samples| ensures samples[i] != samples[j] {
      Increasing(c, i, j);
    }
  }

  lemma TaggedDistinct(symbol: string, samples: seq<Sample>)
    requires Distinct(samples)
    ensures Distinct(Tagged(symbol, samples))
  {
    var t := Tagged(symbol, samples);
    forall i, j | 0 <= i < j < |t| ensures t[i] != t[j] {
      assert t[i].window == samples[i] && t[j].window == samples[j];
    }
  }

  /** Samples under different names differ. */
  lemma NamesTellApart(s: Series, rules: Rules, a: Range, b: Range)
    requires Valid(s, rules) && a.name != b.name
    ensures forall w :: w in SamplesOf(s, rules, a) ==> w !in SamplesOf(s, rules, b)
  {
    hide SamplesOf;
    forall w | w in SamplesOf(s, rules, a) ensures w !in SamplesOf(s, rules, b) {
      SampleOfRange(s, rules, a, w);
      if w in SamplesOf(s, rules, b) {
        SampleOfRange(s, rules, b, w);
      }
    }
  }

  lemma MemberHasNoRepetition(m: Member, rules: Rules, c: SplitConfig)
    requires Valid(m.series, rules)
    ensures Distinct(RecordsOf(m, rules, c))
  {
    hide SamplesOf;
    hide AllSamples;
    hide Distinct;
    var s, all := m.series, AllSamples(m.series, rules, SplitRanges(c, m.heldOut));
    var train := Range("train", c.trainStart, c.trainEnd);
    var valid, test := Range("valid", c.validStart, c.validEnd), Range("time_test", c.testStart, c.testEnd);
    var instrument := valid.(name := "instrument_test");
    var double := test.(name := "double_oos");
    MemberRecords(m, rules, c);
    if m.heldOut {
      SamplesAreDistinct(s, rules, instrument);
      SamplesAreDistinct(s, rules, double);
      NamesTellApart(s, rules, instrument, double);
      DistinctJoin(SamplesOf(s, rules, instrument), SamplesOf(s, rules, double));
    } else {
      SamplesAreDistinct(s, rules, train);
      SamplesAreDistinct(s, rules, valid);
      SamplesAreDistinct(s, rules, test);
      NamesTellApart(s, rules, train, valid);
      NamesTellApart(s, rules, train, test);
      NamesTellApart(s, rules, valid, test);
      DistinctJoin(SamplesOf(s, rules, train), SamplesOf(s, rules, valid));
      DistinctJoin(SamplesOf(s, rules, train) + SamplesOf(s, rules, valid), SamplesOf(s, rules, test));
    }
    TaggedDistinct(m.symbol, all);
  }

  /** No record is in the dataset twice. */
  lemma {:induction false} DatasetHasNoRepetition(members: seq<Member>, rules: Rules, c: SplitConfig)
    requires AllValid(members, rules) && DistinctSymbols(members)
    ensures Distinct(Dataset(members, rules, c))
  {
    hide RecordsOf;
    hide Distinct;
    if members == [] {
      NothingIsDistinct<Record>();
    } else {
      var front, last := members[..|members| - 1], members[|members| - 1];
      DatasetHasNoRepetition(front, rules, c);
      MemberHasNoRepetition(last, rules, c);
      forall x | x in Dataset(front, rules, c) ensures x !in RecordsOf(last, rules, c) {
        var k := MemberOfRecord(front, rules, c, x);
        SymbolsTellApart(front[k], last, rules, c, x);
      }
      DistinctJoin(Dataset(front, rules, c), RecordsOf(last, rules, c));
    }
  }

  lemma NothingIsDistinct<T>()
    ensures Distinct<T>([])
  {
  }

  lemma SymbolsTellApart(a: Member, b: Member, rules: Rules, c: SplitConfig, x: Record)
    requires Valid(a.series, rules) && Valid(b.series, rules) && a.symbol != b.symbol && x in RecordsOf(a, rules, c)
    ensures x !in RecordsOf(b, rules, c)
  {
    hide RecordsOf;
    SymbolOfRecord(a, rules, c, x);
    if x in RecordsOf(b, rules, c) {
      SymbolOfRecord(b, rules, c, x);
    }
  }

  lemma SymbolOfRecord(m: Member, rules: Rules, c: SplitConfig, x: Record)
    requires Valid(m.series, rules) && x in RecordsOf(m, rules, c)
    ensures x.symbol == m.symbol
  {
    hide AllSamples;
  }
}
