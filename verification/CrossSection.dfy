/** Ordinal ranks across one day: the sorting code computes the count of symbols that stand ahead. */
module CrossSection {
  import opened Wrappers
  import opened Numbers
  import opened Sorting
  import opened Ops

  /** The number of the first `n` values that stand before value `i`. */
  function AheadOf(values: seq<real>, n: nat, i: nat): (r: nat)
    requires n <= |values| && i < |values|
    ensures r <= n
  {
    if n == 0 then 0 else AheadOf(values, n - 1, i) + if Before(values, n - 1, i) then 1 else 0
  }

  /** Inserting an index moves exactly the larger values back by one. */
  lemma {:induction false} InsertShifts(values: seq<real>, order: seq<nat>, k: nat, pos: nat)
    requires k < |values| && pos < |order| && (forall i :: 0 <= i < |order| ==> order[i] < k) && Stable(values, order)
    ensures InsertIndex(values, order, k)[pos + if values[k] < values[order[pos]] then 1 else 0] == order[pos]
  {
    var last := order[|order| - 1];
    if values[last] <= values[k] {
      assert pos < |order| - 1 ==> Before(values, order[pos], last);
    } else if pos < |order| - 1 {
      InsertShifts(values, order[..|order| - 1], k, pos);
    }
  }

  /** Behind the last value at most its own, the count of values at most its own is the length. */
  lemma PlaceAtEnd(values: seq<real>, order: seq<nat>, k: nat)
    requires k < |values| && order != [] && (forall i :: 0 <= i < |order| ==> order[i] < k) && Stable(values, order)
    requires values[order[|order| - 1]] <= values[k]
    ensures CountLe(Gather(values, order), values[k]) == |order|
  {
    var front, last := order[..|order| - 1], order[|order| - 1];
    assert order == front + [last];
    AllAtMost(values, front, values[k], last);
    hide Gather;
    hide Stable;
    GatherPush(values, front, last);
    CountPush(Gather(values, front), values[last], values[k]);
  }

  /** The inserted index stands behind all values at most its own. */
  lemma {:induction false} InsertPlace(values: seq<real>, order: seq<nat>, k: nat)
    requires k < |values| && (forall i :: 0 <= i < |order| ==> order[i] < k) && Stable(values, order)
    ensures InsertIndex(values, order, k)[CountLe(Gather(values, order), values[k])] == k
  {
    hide CountLe;
    if order == [] {
      NothingToCount(values, values[k]);
    } else if values[order[|order| - 1]] <= values[k] {
      PlaceAtEnd(values, order, k);
    } else {
      var front, last := order[..|order| - 1], order[|order| - 1];
      assert order == front + [last];
      InsertPlace(values, front, k);
      hide Gather;
      hide Stable;
      GatherPush(values, front, last);
      CountPush(Gather(values, front), values[last], values[k]);
    }
  }

  lemma NothingToCount(values: seq<real>, x: real)
    ensures CountLe(Gather(values, []), x) == 0
  {
  }

  lemma {:induction false} AllAtMost(values: seq<real>, order: seq<nat>, x: real, last: nat)
    requires last < |values| && values[last] <= x
    requires forall i :: 0 <= i < |order| ==> order[i] < |values| && Before(values, order[i], last)
    ensures CountLe(Gather(values, order), x) == |order|
  {
    hide Gather;
    if order == [] {
      assert Gather(values, order) == [];
    } else {
      var front, l := order[..|order| - 1], order[|order| - 1];
      assert order == front + [l];
      assert Before(values, order[|order| - 1], last);
      GatherPush(values, front, l);
      CountPush(Gather(values, front), values[l], x);
      AllAtMost(values, front, x, last);
    }
  }

  lemma {:induction false} AheadOfLast(values: seq<real>, n: nat, i: nat)
    requires n <= i < |values|
    ensures AheadOf(values, n, i) == CountLe(values[..n], values[i])
  {
    if n > 0 {
      AheadOfLast(values, n - 1, i);
      assert values[..n] == values[..n - 1] + [values[n - 1]];
      CountPush(values[..n - 1], values[n - 1], values[i]);
    }
  }

  lemma LastPlace(values: seq<real>, n: nat)
    requires n < |values|
    ensures AheadOf(values, n + 1, n) == CountLe(values[..n], values[n]) <= n
    ensures OrderOf(values, n + 1)[CountLe(values[..n], values[n])] == n
  {
    hide InsertIndex;
    hide Stable;
    hide CountLe;
    OrderIsStable(values, n);
    InsertPlace(values, OrderOf(values, n), n);
    OrderCounts(values, n, values[n]);
    AheadOfLast(values, n, n);
  }

  lemma EarlierPlace(values: seq<real>, n: nat, i: nat)
    requires i < n < |values| && AheadOf(values, n, i) < n && OrderOf(values, n)[AheadOf(values, n, i)] == i
    ensures AheadOf(values, n + 1, i) < n + 1 && OrderOf(values, n + 1)[AheadOf(values, n + 1, i)] == i
  {
    hide InsertIndex;
    hide OrderOf;
    hide Stable;
    OrderIsStable(values, n);
    OrderStep(values, n);
    InsertShifts(values, OrderOf(values, n), n, AheadOf(values, n, i));
    assert AheadOf(values, n + 1, i) == AheadOf(values, n, i) + if values[n] < values[i] then 1 else 0;
  }

  /** Index `i` stands in the stable order behind exactly the indices that come before it. */
  lemma {:induction false} OrderPosition(values: seq<real>, n: nat, i: nat)
    requires i < n <= |values|
    ensures AheadOf(values, n, i) < n && OrderOf(values, n)[AheadOf(values, n, i)] == i
  {
    hide OrderOf;
    hide AheadOf;
    if i < n - 1 {
      OrderPosition(values, n - 1, i);
      EarlierPlace(values, n - 1, i);
    } else {
      LastPlace(values, n - 1);
    }
  }

  lemma {:induction false} PresentTake(c: Column, m: nat, i: nat)
    requires m <= |c| && i < |PresentSymbols(c, m)|
    ensures |Present(c[..m])| <= |Present(c[..|c|])|
    ensures i < |PresentSymbols(c, |c|)| && PresentSymbols(c, |c|)[i] == PresentSymbols(c, m)[i]
    ensures Present(c[..|c|])[i] == Present(c[..m])[i]
    decreases |c| - m
  {
    if m < |c| {
      assert c[..m + 1][..m] == c[..m];
      PresentTake(c, m + 1, i);
    }
  }

  lemma {:induction false} SymbolsIncrease(c: Column, n: nat, i: nat, j: nat)
    requires n <= |c| && i < j < |PresentSymbols(c, n)|
    ensures PresentSymbols(c, n)[i] < PresentSymbols(c, n)[j]
  {
    if j < |PresentSymbols(c, n - 1)| {
      SymbolsIncrease(c, n - 1, i, j);
    }
  }

  /** Where the next present symbol goes. */
  lemma NextSymbol(c: Column, m: nat)
    requires m < |c|
    ensures var p := |PresentSymbols(c, m)|;
            && |PresentSymbols(c, m + 1)| == p + (if c[m].Some? then 1 else 0) <= |PresentSymbols(c, |c|)|
            && (c[m].Some? ==> PresentSymbols(c, |c|)[p] == m)
  {
    var p := |PresentSymbols(c, m)|;
    if c[m].Some? {
      PresentTake(c, m + 1, p);
    } else if p > 0 {
      PresentTake(c, m + 1, p - 1);
    }
  }

  /** Present values stand before one another as their symbols do. */
  lemma BeforeAmongPresent(c: Column, p: nat, i: nat)
    requires p < |PresentSymbols(c, |c|)| && i < |PresentSymbols(c, |c|)|
    ensures var symbols := PresentSymbols(c, |c|);
            Before(Present(c[..|c|]), p, i) <==>
              c[symbols[p]].value < c[symbols[i]].value
                  || (c[symbols[p]].value == c[symbols[i]].value && symbols[p] < symbols[i])
  {
    if p < i {
      SymbolsIncrease(c, |c|, p, i);
    } else if i < p {
      SymbolsIncrease(c, |c|, i, p);
    }
  }

  lemma NobodyAhead(c: Column, i: nat)
    requires i < |PresentSymbols(c, |c|)|
    ensures Ahead(c, 0, PresentSymbols(c, |c|)[i]) == 0 && |PresentSymbols(c, 0)| == 0
  {
  }

  /** Dropping the missing symbols does not change who stands ahead. */
  lemma {:induction false} AheadAmongPresent(c: Column, m: nat, i: nat)
    requires m <= |c| && i < |PresentSymbols(c, |c|)|
    ensures |PresentSymbols(c, m)| <= |PresentSymbols(c, |c|)|
    ensures Ahead(c, m, PresentSymbols(c, |c|)[i]) == AheadOf(Present(c[..|c|]), |PresentSymbols(c, m)|, i)
  {
    hide PresentSymbols;
    hide Present;
    hide Before;
    if m == 0 {
      NobodyAhead(c, i);
    } else {
      AheadAmongPresent(c, m - 1, i);
      NextSymbol(c, m - 1);
      if c[m - 1].Some? {
        BeforeAmongPresent(c, |PresentSymbols(c, m - 1)|, i);
      }
    }
  }

  lemma {:induction false} EverySymbolListed(c: Column, n: nat, s: nat)
    requires s < n <= |c| && c[s].Some?
    ensures s in PresentSymbols(c, n)
  {
    if s < n - 1 {
      EverySymbolListed(c, n - 1, s);
    }
  }

  lemma Unrepeated(c: Column, i: nat)
    requires i < |PresentSymbols(c, |c|)|
    ensures forall j :: 0 <= j < i ==> PresentSymbols(c, |c|)[j] != PresentSymbols(c, |c|)[i]
  {
    forall j | 0 <= j < i ensures PresentSymbols(c, |c|)[j] != PresentSymbols(c, |c|)[i] {
      SymbolsIncrease(c, |c|, j, i);
    }
  }

  /** Ordinal ranks from one: sorts, then scatters the places back. */
  method RankValues(values: seq<real>) returns (ranks: seq<nat>)
    ensures |ranks| == |values| && forall i :: 0 <= i < |values| ==> ranks[i] == AheadOf(values, |values|, i) + 1
  {
    hide OrderOf;
    hide AheadOf;
    var order := Argsort(values);
    ArgsortSorts(values);
    var out := new nat[|values|](_ => 0);
    for k := 0 to |values|
      invariant forall j :: 0 <= j < k ==> out[order[j]] == j + 1
    {
      out[order[k]] := k + 1;
    }
    ranks := out[..];
    forall i | 0 <= i < |values| ensures ranks[i] == AheadOf(values, |values|, i) + 1 {
      OrderPosition(values, |values|, i);
      assert order[AheadOf(values, |values|, i)] == i;
    }
  }

  /** One day of `_cs_rank`, and `rank`: ranks the present values and writes their shares back. */
  method RankDay(c: Column) returns (out: Column)
    ensures |out| == |c| && forall i :: 0 <= i < |c| ==> out[i] == CsRankCell(c, i)
  {
    hide Present;
    hide PresentSymbols;
    hide Ahead;
    hide AheadOf;
    assert c[..|c|] == c;
    var symbols, values := PresentSymbols(c, |c|), Present(c);
    var count := |values|;
    var ranks := RankValues(values);
    var filled := new Cell[|c|](_ => None);
    for i := 0 to count
      invariant forall j :: 0 <= j < i ==> filled[symbols[j]] == Some(ranks[j] as real / count as real)
      invariant forall s :: 0 <= s < |c| && c[s].None? ==> filled[s].None?
    {
      Unrepeated(c, i);
      filled[symbols[i]] := Some(ranks[i] as real / count as real);
    }
    out := filled[..];
    forall s | 0 <= s < |c| ensures out[s] == CsRankCell(c, s) {
      if c[s].Some? {
        EverySymbolListed(c, |c|, s);
        var j :| 0 <= j < count && symbols[j] == s;
        AheadAmongPresent(c, |c|, j);
      }
    }
  }

  lemma {:induction false} AheadIsStrict(values: seq<real>, n: nat, i: nat, j: nat)
    requires n <= |values| && i < |values| && j < |values| && Before(values, i, j)
    ensures AheadOf(values, n, i) + (if i < n then 1 else 0) <= AheadOf(values, n, j)
  {
    if n > 0 {
      AheadIsStrict(values, n - 1, i, j);
      assert Before(values, n - 1, i) ==> Before(values, n - 1, j);
    }
  }

  /** Ranks are strictly ordered like the values, ties by position; so no two symbols share a rank. */
  lemma RanksFollowValues(values: seq<real>, i: nat, j: nat)
    requires i < |values| && j < |values| && i != j
    ensures AheadOf(values, |values|, i) < AheadOf(values, |values|, j) <==> Before(values, i, j)
  {
    if Before(values, i, j) {
      AheadIsStrict(values, |values|, i, j);
    } else {
      AheadIsStrict(values, |values|, j, i);
    }
  }
}
