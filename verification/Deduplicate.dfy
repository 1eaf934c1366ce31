/** Removing near-identical candidates: one representative of each cluster, the fittest first. */
module Deduplicate {
  import opened Wrappers
  import opened Sorting

  /** A candidate with its fitness; `values` stands for its panel. */
  datatype Item = Item(hash: string, fitness: real, values: string)
  datatype Rejection = Rejection(item: Item, representative: Item)

  /** Are the panels of two items correlated beyond the threshold? */
  type Similar = (Item, Item) -> bool

  function Negated(items: seq<Item>): (r: seq<real>)
    ensures |r| == |items| && forall i :: 0 <= i < |r| ==> r[i] == -items[i].fitness
  {
    seq(|items|, i requires 0 <= i < |items| => -items[i].fitness)
  }

  /** `sorted(items, key=fitness, reverse=True)`, which keeps ties in place. */
  function ByFitness(items: seq<Item>): (r: seq<Item>)
    ensures |r| == |items|
  {
    Gather(items, Argsort(Negated(items)))
  }

  lemma {:induction false} PickInsert(items: seq<Item>, order: seq<nat>, k: nat)
    requires k < |items| && forall i :: 0 <= i < |order| ==> order[i] < |items|
    ensures multiset(Gather(items, InsertIndex(Negated(items), order, k))) == multiset(Gather(items, order))
            + multiset{items[k]}
  {
    hide Gather;
    hide Negated;
    if order == [] || Negated(items)[order[|order| - 1]] <= Negated(items)[k] {
      GatherPush(items, order, k);
    } else {
      var front, last := order[..|order| - 1], order[|order| - 1];
      assert order == front + [last];
      PickInsert(items, front, k);
      GatherPush(items, front, last);
      GatherPush(items, InsertIndex(Negated(items), front, k), last);
    }
  }

  function Bag(items: seq<Item>, order: seq<nat>): multiset<Item>
    requires forall i :: 0 <= i < |order| ==> order[i] < |items|
  {
    multiset(Gather(items, order))
  }

  function FirstOnes(items: seq<Item>, n: nat): multiset<Item>
    requires n <= |items|
  {
    multiset(items[..n])
  }

  lemma FirstOnesGrow(items: seq<Item>, n: nat)
    requires n < |items|
    ensures FirstOnes(items, 0) == multiset{}
    ensures FirstOnes(items, n + 1) == FirstOnes(items, n) + multiset{items[n]}
  {
    assert items[..n + 1] == items[..n] + [items[n]];
  }

  lemma OrderGrows(items: seq<Item>, n: nat)
    requires n < |items|
    ensures Bag(items, OrderOf(Negated(items), 0)) == multiset{}
    ensures Bag(items, OrderOf(Negated(items), n + 1)) == Bag(items, OrderOf(Negated(items), n)) + multiset{items[n]}
  {
    hide InsertIndex;
    hide Gather;
    OrderStep(Negated(items), n);
    PickInsert(items, OrderOf(Negated(items), n), n);
    NothingOrdered(items, Negated(items));
  }

  lemma {:induction false} PickOrder(items: seq<Item>, n: nat)
    requires 0 < n <= |items|
    ensures Bag(items, OrderOf(Negated(items), n)) == FirstOnes(items, n)
  {
    hide OrderOf;
    hide Bag;
    hide FirstOnes;
    hide Negated;
    FirstOnesGrow(items, n - 1);
    OrderGrows(items, n - 1);
    if n > 1 {
      PickOrder(items, n - 1);
    }
  }

  /** Sorting rearranges: nothing is lost or repeated. */
  lemma ByFitnessKeepsAll(items: seq<Item>)
    ensures multiset(ByFitness(items)) == multiset(items)
  {
    hide OrderOf;
    if items != [] {
      PickOrder(items, |items|);
      assert items[..|items|] == items;
    }
  }

  lemma ByFitnessIsSorted(items: seq<Item>, i: nat, j: nat)
    requires i <= j < |items|
    ensures ByFitness(items)[i].fitness >= ByFitness(items)[j].fitness
  {
    hide OrderOf;
    ArgsortSorts(Negated(items));
    var s := Gather(Negated(items), Argsort(Negated(items)));
    assert s[i] <= s[j];
  }

  /** No later representative resembles an earlier one. */
  ghost predicate Separate(retained: seq<Item>, similar: Similar) {
    forall i, j :: 0 <= i < j < |retained| ==> !similar(retained[j], retained[i])
  }

  /** Every rejection names a representative that it resembles and that is at least as fit. */
  ghost predicate Justified(rejected: seq<Rejection>, retained: seq<Item>, similar: Similar) {
    forall k :: 0 <= k < |rejected| ==>
      && rejected[k].representative in retained
      && similar(rejected[k].item, rejected[k].representative)
      && rejected[k].representative.fitness >= rejected[k].item.fitness
  }

  function Items(rejected: seq<Rejection>): (r: seq<Item>)
    ensures |r| == |rejected| && forall k :: 0 <= k < |r| ==> r[k] == rejected[k].item
  {
    seq(|rejected|, k requires 0 <= k < |rejected| => rejected[k].item)
  }

  /** The first of the representatives from `i` on that the item resembles. */
  function FirstLike(item: Item, retained: seq<Item>, similar: Similar, i: nat): (r: Option<Item>)
    requires i <= |retained|
    ensures r.None? ==> forall j :: i <= j < |retained| ==> !similar(item, retained[j])
    ensures r.Some? ==> r.value in retained && similar(item, r.value)
    decreases |retained| - i
  {
    if i == |retained| then None
    else if similar(item, retained[i]) then Some(retained[i])
    else FirstLike(item, retained, similar, i + 1)
  }

  /** What is kept of a list in order of fitness: whatever resembles nothing kept before it. */
  function Kept(ordered: seq<Item>, similar: Similar): seq<Item> {
    if ordered == [] then []
    else
      var before, item := Kept(ordered[..|ordered| - 1], similar), ordered[|ordered| - 1];
      if FirstLike(item, before, similar, 0).None? then before + [item] else before
  }

  /** What is rejected, each with the first kept item that it resembles. */
  function Refused(ordered: seq<Item>, similar: Similar): seq<Rejection> {
    if ordered == [] then []
    else
      var before, item := Kept(ordered[..|ordered| - 1], similar), ordered[|ordered| - 1];
      var like := FirstLike(item, before, similar, 0);
      Refused(ordered[..|ordered| - 1], similar) + if like.Some? then [Rejection(item, like.value)] else []
  }

  method FindRepresentative(item: Item, retained: seq<Item>, similar: Similar) returns (r: Option<Item>)
    ensures r == FirstLike(item, retained, similar, 0)
  {
    for k := 0 to |retained|
      invariant FirstLike(item, retained, similar, 0) == FirstLike(item, retained, similar, k)
    {
      if similar(item, retained[k]) {
        return Some(retained[k]);
      }
    }
    return None;
  }

  /** What holds after the first `i` items in order of fitness. */
  ghost predicate Progress(ordered: seq<Item>, i: nat, retained: seq<Item>, rejected: seq<Rejection>, similar: Similar)
    requires i <= |ordered|
  {
    && multiset(retained) + multiset(Items(rejected)) == multiset(ordered[..i])
    && Separate(retained, similar) && Justified(rejected, retained, similar)
    && (i > 0 ==> retained != [] && retained[0] == ordered[0])
    && forall k :: 0 <= k < |retained| ==> retained[k] in ordered[..i]
  }

  lemma RejectOne(ordered: seq<Item>, i: nat, retained: seq<Item>, rejected: seq<Rejection>, similar: Similar, x: Item)
    requires i < |ordered| && Progress(ordered, i, retained, rejected, similar)
    requires x in retained && similar(ordered[i], x) && x.fitness >= ordered[i].fitness
    ensures Progress(ordered, i + 1, retained, rejected + [Rejection(ordered[i], x)], similar)
  {
    assert ordered[..i + 1] == ordered[..i] + [ordered[i]];
    assert Items(rejected + [Rejection(ordered[i], x)]) == Items(rejected) + [ordered[i]];
  }

  lemma RetainOne(ordered: seq<Item>, i: nat, retained: seq<Item>, rejected: seq<Rejection>, similar: Similar)
    requires i < |ordered| && Progress(ordered, i, retained, rejected, similar)
    requires forall j :: 0 <= j < |retained| ==> !similar(ordered[i], retained[j])
    ensures Progress(ordered, i + 1, retained + [ordered[i]], rejected, similar)
  {
    assert ordered[..i + 1] == ordered[..i] + [ordered[i]];
  }

  /** `correlation_deduplicate`: every candidate is kept or rejected in favour of one that is kept. */
  method CorrelationDeduplicate(evaluated: seq<Item>, similar: Similar)
    returns (retained: seq<Item>, rejected: seq<Rejection>)
    ensures retained == Kept(ByFitness(evaluated), similar) && rejected == Refused(ByFitness(evaluated), similar)
    ensures multiset(retained) + multiset(Items(rejected)) == multiset(evaluated)
    ensures Separate(retained, similar) && Justified(rejected, retained, similar)
    ensures evaluated != [] ==> retained != [] && forall x :: x in evaluated ==> x.fitness <= retained[0].fitness
  {
    hide ByFitness;
    hide Separate;
    hide Justified;
    hide FirstLike;
    var ordered := ByFitness(evaluated);
    retained, rejected := [], [];
    Begin(ordered, similar);
    for i := 0 to |ordered|
      invariant retained == Kept(ordered[..i], similar) && rejected == Refused(ordered[..i], similar)
      invariant Progress(ordered, i, retained, rejected, similar)
    {
      var item := ordered[i];
      KeptGrows(ordered, i, similar);
      var representative := FindRepresentative(item, retained, similar);
      if representative.Some? {
        assert representative.value in ordered[..i];
        EarlierIsFitter(evaluated, i, representative.value);
        RejectOne(ordered, i, retained, rejected, similar, representative.value);
        rejected := rejected + [Rejection(item, representative.value)];
      } else {
        RetainOne(ordered, i, retained, rejected, similar);
        retained := retained + [item];
      }
    }
    assert ordered[..|ordered|] == ordered;
    ByFitnessKeepsAll(evaluated);
    FirstIsFittest(evaluated);
  }

  lemma KeptGrows(ordered: seq<Item>, i: nat, similar: Similar)
    requires i < |ordered|
    ensures var kept := Kept(ordered[..i], similar);
            var like := FirstLike(ordered[i], kept, similar, 0);
            && Kept(ordered[..i + 1], similar) == (if like.None? then kept + [ordered[i]] else kept)
            && Refused(ordered[..i + 1], similar)
               == Refused(ordered[..i], similar) + if like.Some? then [Rejection(ordered[i], like.value)] else []
  {
    assert ordered[..i + 1][..i] == ordered[..i];
  }

  lemma Begin(ordered: seq<Item>, similar: Similar)
    ensures Progress(ordered, 0, [], [], similar)
  {
  }

  lemma FirstIsFittest(evaluated: seq<Item>)
    ensures evaluated != [] ==> forall x :: x in evaluated ==> x.fitness <= ByFitness(evaluated)[0].fitness
  {
    hide ByFitness;
    var ordered := ByFitness(evaluated);
    forall x | x in evaluated ensures x.fitness <= ordered[0].fitness {
      ByFitnessKeepsAll(evaluated);
      assert x in multiset(ordered);
      var j :| 0 <= j < |ordered| && ordered[j] == x;
      ByFitnessIsSorted(evaluated, 0, j);
    }
  }

  lemma EarlierIsFitter(items: seq<Item>, i: nat, x: Item)
    requires i < |items| && x in ByFitness(items)[..i]
    ensures x.fitness >= ByFitness(items)[i].fitness
  {
    hide ByFitness;
    var k :| 0 <= k < i && ByFitness(items)[k] == x;
    ByFitnessIsSorted(items, k, i);
  }
}
