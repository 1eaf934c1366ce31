/**
 * `numpy.argsort(values, kind="mergesort")`: the stable order of a sequence of reals, and the counts
 * that rank statistics are made of.
 */
module Sorting {
  import opened Sequences

  /** The number of elements that are at most `x`. */
  function CountLe(s: seq<real>, x: real): (n: nat)
    ensures n <= |s|
  {
    if s == [] then 0 else CountLe(s[..|s| - 1], x) + if s[|s| - 1] <= x then 1 else 0
  }

  /** The number of elements strictly below `x`. */
  function CountLt(s: seq<real>, x: real): (n: nat)
    ensures n <= |s|
  {
    if s == [] then 0 else CountLt(s[..|s| - 1], x) + if s[|s| - 1] < x then 1 else 0
  }

  ghost predicate SortedReals(s: seq<real>) {
    forall i, j :: 0 <= i <= j < |s| ==> s[i] <= s[j]
  }

  /** Inserts index `k` behind every index whose value is at most its own. */
  function InsertIndex(values: seq<real>, order: seq<nat>, k: nat): (r: seq<nat>)
    requires k < |values| && forall i :: 0 <= i < |order| ==> order[i] < |values|
    ensures |r| == |order| + 1
    ensures forall i :: 0 <= i < |r| ==> r[i] < |values|
    ensures multiset(r) == multiset(order) + multiset{k}
  {
    if order == [] || values[order[|order| - 1]] <= values[k] then order + [k]
    else
      assert order == order[..|order| - 1] + [order[|order| - 1]];
      InsertIndex(values, order[..|order| - 1], k) + [order[|order| - 1]]
  }

  /** The stable order of the first `n` indices. */
  function OrderOf(values: seq<real>, n: nat): (r: seq<nat>)
    requires n <= |values|
    ensures |r| == n
    ensures forall i :: 0 <= i < |r| ==> r[i] < |values|
  {
    if n == 0 then [] else InsertIndex(values, OrderOf(values, n - 1), n - 1)
  }

  function Argsort(values: seq<real>): (r: seq<nat>)
    ensures |r| == |values|
    ensures forall i :: 0 <= i < |r| ==> r[i] < |values|
  {
    OrderOf(values, |values|)
  }

  /** `values[order]` */
  function Gather<T>(values: seq<T>, order: seq<nat>): (r: seq<T>)
    requires forall i :: 0 <= i < |order| ==> order[i] < |values|
    ensures |r| == |order| && forall i :: 0 <= i < |r| ==> r[i] == values[order[i]]
  {
    seq(|order|, i requires 0 <= i < |order| => values[order[i]])
  }

  /** A rearrangement of the indices `0..n`. */
  ghost predicate IsPermutation(order: seq<nat>, n: nat) {
    && |order| == n
    && (forall i :: 0 <= i < n ==> order[i] < n)
    && (forall i, j :: 0 <= i < j < n ==> order[i] != order[j])
  }

  predicate Before(values: seq<real>, a: nat, b: nat)
    requires a < |values| && b < |values|
  {
    values[a] < values[b] || (values[a] == values[b] && a < b)
  }

  /** The values are sorted and ties keep their original order. */
  ghost predicate Stable(values: seq<real>, order: seq<nat>)
    requires forall i :: 0 <= i < |order| ==> order[i] < |values|
  {
    forall i, j :: 0 <= i < j < |order| ==> Before(values, order[i], order[j])
  }

  lemma StablePush(values: seq<real>, order: seq<nat>, k: nat)
    requires k < |values| && forall i :: 0 <= i < |order| ==> order[i] < |values|
    requires Stable(values, order) && forall i :: 0 <= i < |order| ==> Before(values, order[i], k)
    ensures Stable(values, order + [k])
  {
  }

  lemma {:induction false} InsertKeepsOrder(values: seq<real>, order: seq<nat>, k: nat)
    requires k < |values| && forall i :: 0 <= i < |order| ==> order[i] < k
    requires Stable(values, order)
    ensures forall i :: 0 <= i < |order| + 1 ==> InsertIndex(values, order, k)[i] <= k
    ensures Stable(values, InsertIndex(values, order, k))
  {
    if order == [] || values[order[|order| - 1]] <= values[k] {
      forall i | 0 <= i < |order| ensures Before(values, order[i], k) {
        assert i < |order| - 1 ==> Before(values, order[i], order[|order| - 1]);
      }
      StablePush(values, order, k);
    } else {
      var front, last := order[..|order| - 1], order[|order| - 1];
      InsertKeepsOrder(values, front, k);
      var inner := InsertIndex(values, front, k);
      forall i | 0 <= i < |inner| ensures Before(values, inner[i], last) {
        assert inner[i] in multiset(inner);
        assert inner[i] == k || inner[i] in front;
      }
      StablePush(values, inner, last);
    }
  }

  lemma OrderStep(values: seq<real>, n: nat)
    requires n < |values|
    ensures OrderOf(values, n + 1) == InsertIndex(values, OrderOf(values, n), n)
  {
    hide InsertIndex;
  }

  lemma NothingIsStable(values: seq<real>)
    ensures |OrderOf(values, 0)| == 0 && Stable(values, OrderOf(values, 0))
  {
  }

  lemma {:induction false} OrderIsStable(values: seq<real>, n: nat)
    requires n <= |values|
    ensures forall i :: 0 <= i < n ==> OrderOf(values, n)[i] < n
    ensures Stable(values, OrderOf(values, n))
  {
    hide InsertIndex;
    hide Stable;
    hide OrderOf;
    if n == 0 {
      NothingIsStable(values);
    } else {
      OrderIsStable(values, n - 1);
      InsertKeepsOrder(values, OrderOf(values, n - 1), n - 1);
      OrderStep(values, n - 1);
    }
  }

  /** The order is a permutation that sorts the values and keeps ties in place. */
  lemma ArgsortSorts(values: seq<real>)
    ensures IsPermutation(Argsort(values), |values|)
    ensures SortedReals(Gather(values, Argsort(values)))
    ensures Stable(values, Argsort(values))
  {
    OrderIsStable(values, |values|);
  }

  // ------------------------------------------------------------------ counting through the order

  lemma {:induction false} CountAppend(s: seq<real>, t: seq<real>, x: real)
    ensures CountLe(s + t, x) == CountLe(s, x) + CountLe(t, x)
    ensures CountLt(s + t, x) == CountLt(s, x) + CountLt(t, x)
  {
    if t == [] {
      assert s + t == s;
    } else {
      assert (s + t)[..|s + t| - 1] == s + t[..|t| - 1];
      CountAppend(s, t[..|t| - 1], x);
    }
  }

  lemma WithoutCounts(s: seq<real>, k: nat, x: real)
    requires k < |s|
    ensures CountLe(s, x) == CountLe(Without(s, k), x) + if s[k] <= x then 1 else 0
    ensures CountLt(s, x) == CountLt(Without(s, k), x) + if s[k] < x then 1 else 0
  {
    var before, after := s[..k], s[k + 1..];
    assert s == (before + [s[k]]) + after;
    CountAppend(before, after, x);
    CountAppend(before + [s[k]], after, x);
    assert (before + [s[k]])[..k] == before;
  }

  lemma {:induction false} CountsIgnoreOrder(s: seq<real>, t: seq<real>, x: real)
    requires multiset(s) == multiset(t)
    ensures CountLe(s, x) == CountLe(t, x) && CountLt(s, x) == CountLt(t, x)
    decreases |s|
  {
    SameLength(s, t);
    if s != [] {
      assert s[0] in multiset(t);
      var k :| 0 <= k < |t| && t[k] == s[0];
      WithoutMultiset(s, 0);
      WithoutMultiset(t, k);
      CountsIgnoreOrder(Without(s, 0), Without(t, k), x);
      WithoutCounts(s, 0, x);
      WithoutCounts(t, k, x);
    }
  }

  lemma CountPush(s: seq<real>, v: real, x: real)
    ensures CountLe(s + [v], x) == CountLe(s, x) + if v <= x then 1 else 0
    ensures CountLt(s + [v], x) == CountLt(s, x) + if v < x then 1 else 0
  {
    assert (s + [v])[..|s|] == s;
  }

  lemma GatherPush<T>(values: seq<T>, order: seq<nat>, k: nat)
    requires k < |values| && forall i :: 0 <= i < |order| ==> order[i] < |values|
    ensures Gather(values, order + [k]) == Gather(values, order) + [values[k]]
  {
  }

  lemma {:induction false} InsertCounts(values: seq<real>, order: seq<nat>, k: nat, x: real)
    requires k < |values| && forall i :: 0 <= i < |order| ==> order[i] < |values|
    ensures CountLe(Gather(values, InsertIndex(values, order, k)), x)
         == CountLe(Gather(values, order), x) + if values[k] <= x then 1 else 0
    ensures CountLt(Gather(values, InsertIndex(values, order, k)), x)
         == CountLt(Gather(values, order), x) + if values[k] < x then 1 else 0
  {
    hide CountLe;
    hide CountLt;
    hide Gather;
    if order == [] || values[order[|order| - 1]] <= values[k] {
      GatherPush(values, order, k);
      CountPush(Gather(values, order), values[k], x);
    } else {
      var front, last := order[..|order| - 1], order[|order| - 1];
      assert order == front + [last];
      var inner := InsertIndex(values, front, k);
      InsertCounts(values, front, k, x);
      GatherPush(values, front, last);
      GatherPush(values, inner, last);
      CountPush(Gather(values, front), values[last], x);
      CountPush(Gather(values, inner), values[last], x);
    }
  }

  lemma NothingOrdered<T>(items: seq<T>, values: seq<real>)
    ensures Gather(items, OrderOf(values, 0)) == items[..0]
  {
  }

  lemma {:induction false} OrderCounts(values: seq<real>, n: nat, x: real)
    requires n <= |values|
    ensures CountLe(Gather(values, OrderOf(values, n)), x) == CountLe(values[..n], x)
    ensures CountLt(Gather(values, OrderOf(values, n)), x) == CountLt(values[..n], x)
  {
    hide CountLe;
    hide CountLt;
    hide Gather;
    hide InsertIndex;
    hide OrderOf;
    if n == 0 {
      NothingOrdered(values, values);
    } else {
      OrderStep(values, n - 1);
      OrderCounts(values, n - 1, x);
      InsertCounts(values, OrderOf(values, n - 1), n - 1, x);
      assert values[..n] == values[..n - 1] + [values[n - 1]];
      CountPush(values[..n - 1], values[n - 1], x);
    }
  }

  /** In a sorted sequence the elements at most `x` are a prefix of length `CountLe`. */
  lemma {:induction false} SortedPrefix(s: seq<real>, x: real)
    requires SortedReals(s)
    ensures forall i :: 0 <= i < |s| ==> (s[i] <= x <==> i < CountLe(s, x))
    ensures forall i :: 0 <= i < |s| ==> (s[i] < x <==> i < CountLt(s, x))
  {
    if s != [] {
      var front := s[..|s| - 1];
      SortedPrefix(front, x);
      if s[|s| - 1] <= x {
        assert forall i :: 0 <= i < |front| ==> front[i] <= x;
        assert front != [] ==> front[|front| - 1] <= x;
        assert CountLe(front, x) == |front|;
      }
      if s[|s| - 1] < x {
        assert front != [] ==> front[|front| - 1] < x;
        assert CountLt(front, x) == |front|;
      }
    }
  }

  /** Where a value stands in the order: behind all smaller ones, and not behind the last equal one. */
  lemma RankBounds(values: seq<real>, k: nat)
    requires k < |values|
    ensures var v := values[Argsort(values)[k]]; CountLt(values, v) <= k < CountLe(values, v)
  {
    var order := Argsort(values);
    var s := Gather(values, order);
    ArgsortSorts(values);
    assert values[..|values|] == values;
    OrderCounts(values, |values|, s[k]);
    SortedPrefix(s, s[k]);
  }

  /** Every index occurs in the order. */
  lemma PositionOf(values: seq<real>, i: nat) returns (k: nat)
    requires i < |values|
    ensures k < |values| && Argsort(values)[k] == i
  {
    OrderContains(values, |values|, i);
    k :| 0 <= k < |values| && Argsort(values)[k] == i;
  }

  lemma {:induction false} OrderContains(values: seq<real>, n: nat, i: nat)
    requires i < n <= |values|
    ensures i in OrderOf(values, n)
  {
    var r := OrderOf(values, n);
    if i < n - 1 {
      OrderContains(values, n - 1, i);
      assert i in multiset(OrderOf(values, n - 1));
    }
    assert i in multiset(r);
  }
}
