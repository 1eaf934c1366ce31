/** Tie-averaged ranks of the evaluation metrics. */
module TieRanks {
  import opened Sorting

  /** (number strictly smaller) + (number equal - 1) / 2 */
  function TieRank(values: seq<real>, x: real): real {
    CountLt(values, x) as real + (CountLe(values, x) - CountLt(values, x) - 1) as real / 2.0
  }

  /** In a sorted sequence, a run of equal values starts after the smaller ones and ends at the larger ones. */
  lemma RunCounts(s: seq<real>, start: nat, end: nat)
    requires SortedReals(s) && start < end <= |s|
    requires (start == 0 || s[start - 1] < s[start]) && s[end - 1] == s[start] && (end == |s| || s[end] != s[start])
    ensures CountLt(s, s[start]) == start && CountLe(s, s[start]) == end
  {
    SortedPrefix(s, s[start]);
    if start > 0 {
      assert s[start - 1] < s[start];
    }
    if end < |s| {
      assert s[start] <= s[end];
    }
  }

  lemma RunRank(values: seq<real>, start: nat, end: nat, i: nat)
    requires var s := Gather(values, Argsort(values));
             && start <= i < end <= |s|
             && (start == 0 || s[start - 1] < s[start]) && s[end - 1] == s[start] && (end == |s| || s[end] != s[start])
    ensures (start + end - 1) as real / 2.0 == TieRank(values, values[Argsort(values)[i]])
  {
    hide OrderOf;
    hide CountLt;
    hide CountLe;
    hide Stable;
    hide IsPermutation;
    var s := Gather(values, Argsort(values));
    ArgsortSorts(values);
    RunCounts(s, start, end);
    assert s[start] <= s[i] <= s[end - 1];
    assert values[..|values|] == values;
    OrderCounts(values, |values|, s[i]);
  }

  /** `_rank`: sorts, then gives every run of equal values the middle of its places. */
  method Rank(values: seq<real>) returns (ranks: seq<real>)
    ensures |ranks| == |values| && forall i :: 0 <= i < |values| ==> ranks[i] == TieRank(values, values[i])
  {
    hide OrderOf;
    hide TieRank;
    var n, order := |values|, Argsort(values);
    var s := Gather(values, order);
    ArgsortSorts(values);
    var out := new real[n](_ => 0.0);
    var start := 0;
    while start < n
      invariant 0 <= start <= n && (0 < start < n ==> s[start - 1] < s[start])
      invariant forall k :: 0 <= k < start ==> out[order[k]] == TieRank(values, values[order[k]])
    {
      var end := start + 1;
      while end < n && s[end] == s[start]
        invariant start < end <= n && s[end - 1] == s[start]
      {
        end := end + 1;
      }
      assert end < n ==> s[end - 1] <= s[end];
      for k := start to end
        invariant forall j :: 0 <= j < k ==> out[order[j]] == TieRank(values, values[order[j]])
      {
        RunRank(values, start, end, k);
        out[order[k]] := (start + end - 1) as real / 2.0;
      }
      start := end;
    }
    ranks := out[..];
    forall i | 0 <= i < n ensures ranks[i] == TieRank(values, values[i]) {
      var k := PositionOf(values, i);
      assert out[order[k]] == TieRank(values, values[order[k]]);
    }
  }

  // ------------------------------------------------------------------ laws

  lemma {:induction false} CountsGrow(values: seq<real>, x: real, y: real, i: nat)
    requires x < y && i < |values| && values[i] == x
    ensures CountLe(values, x) <= CountLt(values, y) && CountLt(values, x) + 1 <= CountLe(values, x)
  {
    if i < |values| - 1 {
      CountsGrow(values[..|values| - 1], x, y, i);
    } else {
      Nested(values[..|values| - 1], x, y);
    }
  }

  lemma {:induction false} Nested(values: seq<real>, x: real, y: real)
    requires x < y
    ensures CountLt(values, x) <= CountLe(values, x) <= CountLt(values, y) <= CountLe(values, y)
  {
    if values != [] {
      Nested(values[..|values| - 1], x, y);
    }
  }

  /** Ranks follow the values: smaller ranks lower, and only equal values tie. */
  lemma RankFollowsValue(values: seq<real>, i: nat, j: nat)
    requires i < |values| && j < |values|
    ensures TieRank(values, values[i]) < TieRank(values, values[j]) <==> values[i] < values[j]
  {
    if values[i] < values[j] {
      Smaller(values, i, j);
    } else if values[j] < values[i] {
      Smaller(values, j, i);
    }
  }

  lemma Smaller(values: seq<real>, i: nat, j: nat)
    requires i < |values| && j < |values| && values[i] < values[j]
    ensures TieRank(values, values[i]) < TieRank(values, values[j])
  {
    CountsGrow(values, values[i], values[j], i);
    CountsGrow(values, values[j], values[j] + 1.0, j);
  }

  /** Rearranging the values rearranges the ranks with them. */
  lemma RankIgnoresOrder(values: seq<real>, others: seq<real>, x: real)
    requires multiset(values) == multiset(others)
    ensures TieRank(values, x) == TieRank(others, x)
  {
    CountsIgnoreOrder(values, others, x);
  }

  /** The sum over `s` of (smaller in `t`) + (at most in `t`). */
  function Comparisons(s: seq<real>, t: seq<real>): nat {
    if s == [] then 0 else Comparisons(s[..|s| - 1], t) + CountLt(t, s[|s| - 1]) + CountLe(t, s[|s| - 1])
  }

  /** One more value to compare with. */
  lemma {:induction false} ComparisonsPush(s: seq<real>, t: seq<real>, x: real)
    ensures Comparisons(s, t + [x]) == Comparisons(s, t) + 2 * |s| - CountLt(s, x) - CountLe(s, x)
  {
    if s != [] {
      ComparisonsPush(s[..|s| - 1], t, x);
      CountPush(t, x, s[|s| - 1]);
    }
  }

  lemma NextSquare(m: nat)
    ensures (m + 1) * (m + 1) == m * m + 2 * m + 1
  {
  }

  lemma ComparisonsSplit(s: seq<real>, t: seq<real>)
    requires s != []
    ensures Comparisons(s, t) == Comparisons(s[..|s| - 1], t) + CountLt(t, s[|s| - 1]) + CountLe(t, s[|s| - 1])
  {
  }

  lemma {:induction false} ComparisonsTotal(s: seq<real>)
    ensures Comparisons(s, s) == |s| * |s|
  {
    if s != [] {
      hide CountLt;
      hide CountLe;
      hide Comparisons;
      var front, last := s[..|s| - 1], s[|s| - 1];
      assert s == front + [last];
      ComparisonsTotal(front);
      ComparisonsPush(front, front, last);
      CountPush(front, last, last);
      ComparisonsSplit(s, s);
      NextSquare(|front|);
    }
  }

  function RankSum(s: seq<real>, values: seq<real>): real {
    if s == [] then 0.0 else RankSum(s[..|s| - 1], values) + TieRank(values, s[|s| - 1])
  }

  lemma {:induction false} RankSumIs(s: seq<real>, values: seq<real>)
    ensures 2.0 * RankSum(s, values) == (Comparisons(s, values) - |s|) as real
  {
    if s != [] {
      RankSumIs(s[..|s| - 1], values);
    }
  }

  /** The ranks of `n` values sum to `n (n - 1) / 2`, ties or not. */
  lemma RanksSum(values: seq<real>)
    ensures RankSum(values, values) == (|values| * (|values| - 1)) as real / 2.0
  {
    RankSumIs(values, values);
    ComparisonsTotal(values);
    assert |values| * |values| - |values| == |values| * (|values| - 1);
  }
}
