/**
 * What the numbers of a factor evaluation mean, over whole runs of the day loop: which days count, which symbols
 * are held and for how long, what they cost, and which changes of the data make no difference.
 */
module FitnessLaws {
  import opened Wrappers
  import opened Numbers
  import opened Sequences
  import opened Sorting
  import opened Ops
  import opened CrossSection
  import opened Fitness
  import opened WindowLaws

  // ------------------------------------------------------------------ sums over sets of symbols

  /** The symbols with both a factor value and a forward gain. */
  ghost function Tradable(factor: Column, gains: Column): set<nat>
    requires |factor| == |gains|
  {
    set i: nat | i < |factor| && factor[i].Some? && gains[i].Some?
  }

  /** The sum of the values of `symbols` among the first `n`. */
  ghost function TotalOver(c: Column, symbols: set<nat>, n: nat): real
    requires n <= |c|
  {
    if n == 0 then 0.0
    else TotalOver(c, symbols, n - 1) + if n - 1 in symbols && c[n - 1].Some? then c[n - 1].value else 0.0
  }

  lemma {:induction false} OneMore(c: Column, symbols: set<nat>, x: nat, n: nat)
    requires x < |c| && n <= |c| && c[x].Some? && x !in symbols
    ensures TotalOver(c, symbols + {x}, n) == TotalOver(c, symbols, n) + if x < n then c[x].value else 0.0
  {
    if n > 0 {
      OneMore(c, symbols, x, n - 1);
    }
  }

  lemma {:induction false} NoSymbols(c: Column, n: nat)
    requires n <= |c|
    ensures TotalOver(c, {}, n) == 0.0
  {
    if n > 0 {
      NoSymbols(c, n - 1);
    }
  }

  lemma LastElement<T>(s: seq<T>)
    requires s != [] && Distinct(s)
    ensures var front, last := s[..|s| - 1], s[|s| - 1];
            Elements(s) == Elements(front) + {last} && last !in Elements(front) && Distinct(front)
  {
    var front, last := s[..|s| - 1], s[|s| - 1];
    forall x | x in Elements(s) ensures x in Elements(front) + {last} {
      var i :| 0 <= i < |s| && s[i] == x;
      assert i < |front| ==> front[i] == x;
    }
    forall x | x in Elements(front) + {last} ensures x in Elements(s) {
      if x == last {
        assert s[|s| - 1] == x;
      } else {
        var i :| 0 <= i < |front| && front[i] == x;
        assert s[i] == x;
      }
    }
  }

  lemma ValuesFront(c: Column, symbols: seq<nat>)
    requires symbols != [] && forall i :: 0 <= i < |symbols| ==> symbols[i] < |c| && c[symbols[i]].Some?
    ensures var m := |symbols| - 1;
            Values(c, symbols)[..m] == Values(c, symbols[..m]) && Values(c, symbols)[m] == c[symbols[m]].value
  {
  }

  /** A list of distinct symbols adds up to the total over their set. */
  lemma {:induction false} SumIsTotal(c: Column, symbols: seq<nat>)
    requires Distinct(symbols) && forall i :: 0 <= i < |symbols| ==> symbols[i] < |c| && c[symbols[i]].Some?
    ensures |Elements(symbols)| == |symbols| && Sum(Values(c, symbols)) == TotalOver(c, Elements(symbols), |c|)
  {
    hide Elements;
    hide Values;
    hide TotalOver;
    if symbols == [] {
      NothingToAdd(c, symbols);
    } else {
      var m := |symbols| - 1;
      LastElement(symbols);
      SumIsTotal(c, symbols[..m]);
      ValuesFront(c, symbols);
      OneMore(c, Elements(symbols[..m]), symbols[m], |c|);
    }
  }

  lemma NothingToAdd(c: Column, symbols: seq<nat>)
    requires symbols == []
    ensures |Elements(symbols)| == 0 && Sum(Values(c, symbols)) == 0.0 == TotalOver(c, Elements(symbols), |c|)
  {
    assert Elements(symbols) == {};
    NoSymbols(c, |c|);
  }

  lemma UsableIs(factor: Column, gains: Column, n: nat)
    requires |factor| == |gains| == n
    ensures var u := Usable(factor, gains, n);
            Distinct(u) && Elements(u) == Tradable(factor, gains) && |u| == |Tradable(factor, gains)|
  {
    var u := Usable(factor, gains, n);
    forall i | i in Tradable(factor, gains) ensures i in Elements(u) {
      var k :| 0 <= k < |u| && u[k] == i;
    }
    assert Elements(u) == Tradable(factor, gains);
    SumIsTotal(gains, u);
  }

  // ------------------------------------------------------------------ one holding period

  /**
   * A holding period: the `selected` highest tradable symbols are held, and together they earn their gains less
   * 0.001 for each that was not among those held `before`. The benchmark is the mean gain of all.
   */
  ghost predicate Explained(factor: Column, gains: Column, selected: nat, p: Period, held: set<nat>, before: set<nat>)
    requires |factor| == |gains|
  {
    var all := Tradable(factor, gains);
    && held <= all && |held| == (if selected < |all| then selected else |all|) && |all| >= 10
    && (forall i, j :: i in held && j in all - held ==> factor[j].value <= factor[i].value)
    && Product(p.strategy, |held| as real) == TotalOver(gains, held, |gains|) - 0.001 * |held - before| as real
    && Product(p.benchmark, |all| as real) == TotalOver(gains, all, |gains|)
  }

  /** The mean gain of `held`. */
  ghost function MeanGain(gains: Column, held: set<nat>): real
    requires held != {}
  {
    TotalOver(gains, held, |gains|) / |held| as real
  }

  /**
   * A period never earns more than the mean gain of what it holds. It falls short by at most 0.001, by nothing
   * exactly when everything was held before, and by more the more newcomers it has.
   */
  lemma CostLaw(factor: Column, gains: Column, selected: nat, p: Period, held: set<nat>, before: set<nat>, q: Period,
                earlier: set<nat>)
    requires |factor| == |gains| && selected > 0 && Explained(factor, gains, selected, p, held, before)
    requires Explained(factor, gains, selected, q, held, earlier)
    ensures held != {} && MeanGain(gains, held) - 0.001 <= p.strategy <= MeanGain(gains, held)
    ensures p.strategy == MeanGain(gains, held) <==> held <= before
    ensures |held - before| > |held - earlier| ==> p.strategy < q.strategy
  {
    assert |held| > 0;
    Newcomers(held, before);
    Shortfall(p.strategy, TotalOver(gains, held, |gains|), |held| as real, |held - before| as real);
    ProductsOrdered(p.strategy, q.strategy, |held| as real);
  }

  lemma Newcomers(held: set<nat>, before: set<nat>)
    ensures |held - before| <= |held| && (|held - before| == 0 <==> held <= before)
  {
    assert held == held * before + (held - before);
  }

  /** `strategy * k == total - 0.001 * m`: the distance from the mean is `0.001 * m / k`. */
  lemma Shortfall(strategy: real, total: real, k: real, m: real)
    requires k > 0.0 && 0.0 <= m <= k && Product(strategy, k) == total - 0.001 * m
    ensures total / k - 0.001 <= strategy <= total / k && (strategy == total / k <==> m == 0.0)
  {
    var short := total / k - strategy;
    QuotientLaw(total, k);
    assert Product(short, k) == Product(total / k, k) - Product(strategy, k);
    ProductsOrdered(0.001, short, k);
    ProductsOrdered(short, 0.0, k);
    ProductsOrdered(0.0, short, k);
  }

  lemma ProductsOrdered(x: real, y: real, k: real)
    requires k > 0.0
    ensures Product(x, k) < Product(y, k) <==> x < y
  {
    if x < y {
      assert (y - x) * k > 0.0;
    } else {
      assert (x - y) * k >= 0.0;
    }
  }

  // ------------------------------------------------------------------ the chosen symbols

  lemma {:induction false} EnteringIs(chosen: seq<nat>, previous: seq<nat>)
    requires Distinct(chosen)
    ensures Entering(chosen, previous) == |Elements(chosen) - Elements(previous)|
  {
    if chosen == [] {
      assert Elements(chosen) == {};
    } else {
      LastElement(chosen);
      var front, last := chosen[..|chosen| - 1], chosen[|chosen| - 1];
      EnteringIs(front, previous);
      InElements(previous, last);
      if last in previous {
        assert Elements(chosen) - Elements(previous) == Elements(front) - Elements(previous);
      } else {
        assert Elements(chosen) - Elements(previous) == Elements(front) - Elements(previous) + {last};
      }
    }
  }

  lemma InElements<T>(s: seq<T>, x: T)
    ensures x in s <==> x in Elements(s)
  {
    if x in s {
      var i :| 0 <= i < |s| && s[i] == x;
    }
  }

  lemma ChosenAre(factor: Column, gains: Column, selected: nat, n: nat)
    requires |factor| == |gains| == n
    ensures var symbols, all := Usable(factor, gains, n), Tradable(factor, gains);
            var chosen := Chosen(symbols, Values(factor, symbols), selected);
            var held := Elements(chosen);
            && Distinct(chosen) && held <= all && |held| == |chosen| == (if selected < |all| then selected else |all|)
            && (forall i, j :: i in held && j in all - held ==> factor[j].value <= factor[i].value)
  {
    var symbols, all := Usable(factor, gains, n), Tradable(factor, gains);
    var x := Values(factor, symbols);
    var chosen := Chosen(symbols, x, selected);
    UsableIs(factor, gains, n);
    ChosenAreHighest(symbols, x, selected);
    hide Chosen;
    hide Elements;
    hide Usable;
    ChosenHaveGains(symbols, x, selected, gains);
    SumIsTotal(gains, chosen);
    forall i | i in Elements(chosen) ensures i in all && i in chosen && i in symbols {
      InElements(chosen, i);
      InElements(symbols, i);
    }
    forall i, j | i in Elements(chosen) && j in all - Elements(chosen) ensures factor[j].value <= factor[i].value {
      InElements(chosen, j);
      InElements(symbols, j);
      var a, b :| 0 <= a < |symbols| && symbols[a] == i && 0 <= b < |symbols| && symbols[b] == j;
      assert x[b] <= x[a];
    }
  }

  ghost function HeldBefore(previous: Option<seq<nat>>): set<nat> {
    if previous.None? then {} else Elements(previous.value)
  }

  lemma HeldEarns(gains: Column, chosen: seq<nat>, previous: Option<seq<nat>>, strategy: real)
    requires chosen != [] && Distinct(chosen)
    requires forall i :: 0 <= i < |chosen| ==> chosen[i] < |gains| && gains[chosen[i]].Some?
    requires strategy == MeanOrZero(Values(gains, chosen)) - TURNOVER_COST * Turnover(chosen, previous)
    ensures var held := Elements(chosen);
            Product(strategy, |held| as real)
            == TotalOver(gains, held, |gains|) - 0.001 * |held - HeldBefore(previous)| as real
  {
    hide Elements;
    hide Values;
    hide TotalOver;
    hide Turnover;
    hide MeanOrZero;
    hide Product;
    hide HeldBefore;
    SumIsTotal(gains, chosen);
    MeanTimes(Values(gains, chosen));
    TurnoverTimes(chosen, previous);
    NetOfCost(strategy, MeanOrZero(Values(gains, chosen)), Turnover(chosen, previous), |chosen| as real);
  }

  lemma AllEarn(factor: Column, gains: Column, n: nat, benchmark: real)
    requires |factor| == |gains| == n && Usable(factor, gains, n) != []
    requires benchmark == Mean(Values(gains, Usable(factor, gains, n)))
    ensures var all := Tradable(factor, gains);
            |all| == |Usable(factor, gains, n)| && Product(benchmark, |all| as real) == TotalOver(gains, all, n)
  {
    hide Elements;
    hide Usable;
    hide Values;
    hide TotalOver;
    var symbols := Usable(factor, gains, n);
    UsableIs(factor, gains, n);
    SumIsTotal(gains, symbols);
    MeanTimes(Values(gains, symbols));
  }

  /** The period a rebalancing day adds. */
  lemma PeriodIs(factor: Column, gains: Column, selected: nat, n: nat, chosen: seq<nat>, previous: Option<seq<nat>>,
                 p: Period)
    requires |factor| == |gains| == n && selected > 0 && |Usable(factor, gains, n)| >= 10
    requires chosen == Chosen(Usable(factor, gains, n), Values(factor, Usable(factor, gains, n)), selected)
    requires forall i :: 0 <= i < |chosen| ==> chosen[i] < |gains| && gains[chosen[i]].Some?
    requires p.strategy == MeanOrZero(Values(gains, chosen)) - TURNOVER_COST * Turnover(chosen, previous)
    requires p.benchmark == Mean(Values(gains, Usable(factor, gains, n)))
    ensures Explained(factor, gains, selected, p, Elements(chosen), HeldBefore(previous))
  {
    hide Elements;
    hide Usable;
    hide Chosen;
    hide Values;
    hide TotalOver;
    hide Turnover;
    hide Product;
    hide MeanOrZero;
    hide Mean;
    hide HeldBefore;
    hide Distinct;
    ChosenAre(factor, gains, selected, n);
    AllEarn(factor, gains, n, p.benchmark);
    HeldEarns(gains, chosen, previous, p.strategy);
  }

  lemma MeanTimes(s: seq<real>)
    requires s != []
    ensures MeanOrZero(s) == Mean(s) && Product(Mean(s), |s| as real) == Sum(s)
  {
    QuotientLaw(Sum(s), |s| as real);
  }

  lemma TurnoverTimes(chosen: seq<nat>, previous: Option<seq<nat>>)
    requires chosen != [] && Distinct(chosen)
    ensures Product(Turnover(chosen, previous), |chosen| as real) == |Elements(chosen) - HeldBefore(previous)| as real
  {
    hide Elements;
    hide Distinct;
    if previous.None? {
      AllEnter(chosen);
      assert Elements(chosen) - {} == Elements(chosen);
    } else {
      hide Product;
      EnteringIs(chosen, previous.value);
      hide Entering;
      QuotientLaw(Entering(chosen, previous.value) as real, |chosen| as real);
    }
  }

  lemma {:induction false} AllEnter(chosen: seq<nat>)
    requires Distinct(chosen)
    ensures |Elements(chosen)| == |chosen|
  {
    if chosen == [] {
      assert Elements(chosen) == {};
    } else {
      LastElement(chosen);
      AllEnter(chosen[..|chosen| - 1]);
    }
  }

  lemma NetOfCost(strategy: real, mean: real, turnover: real, k: real)
    requires strategy == mean - TURNOVER_COST * turnover
    ensures Product(strategy, k) == Product(mean, k) - 0.001 * Product(turnover, k)
  {
  }

  // ------------------------------------------------------------------ the whole loop

  /** Does the loop count a day? At least ten symbols, and neither factor nor gains all but constant. */
  predicate Counts(f: Statistics, factor: Column, gains: Column, n: nat)
    requires |factor| == |gains| == n
  {
    var u := Usable(factor, gains, n);
    && |u| >= 10
    && f.std(Values(factor, u)) >= 0.000000000001 && f.std(Values(gains, u)) >= 0.000000000001
  }

  /** What the loop runs on. */
  datatype Inputs = Inputs(f: Statistics, values: Panel, closes: Panel, start: nat, limit: nat, horizon: nat,
                           selected: nat, n: nat)

  ghost predicate Ready(x: Inputs) {
    && SameShape(x.values, x.closes, x.n) && x.limit + x.horizon <= |x.values| && x.start <= |x.values|
    && x.selected > 0 && x.horizon > 0
  }

  function GainsOf(x: Inputs, day: nat): (c: Column)
    requires Ready(x)
    ensures |c| == x.n
  {
    Forward(x.closes, day, x.limit, x.horizon, x.n)
  }

  ghost predicate CountedDay(x: Inputs, t: nat, day: nat)
    requires Ready(x) && t <= |x.values|
  {
    x.start <= day < t && Counts(x.f, x.values[day], GainsOf(x, day), x.n)
  }

  /** The two correlations of a day, over its usable symbols. */
  ghost predicate Correlated(x: Inputs, day: nat, ic: real, rankIc: real)
    requires Ready(x) && day < |x.values|
  {
    var factor, gains := x.values[day], GainsOf(x, day);
    var u := Usable(factor, gains, x.n);
    && ic == x.f.correlation(Values(factor, u), Values(gains, u))
    && rankIc == x.f.correlation(Ranks(Values(factor, u)), Ranks(Values(gains, u)))
  }

  /** `days` are the counted days before `t`, and the state has their correlations. */
  ghost predicate DayLog(x: Inputs, t: nat, s: DayState, days: seq<nat>)
    requires Ready(x) && t <= |x.values|
  {
    && |s.ics| == |s.rankIcs| == |days|
    && (forall i, j :: 0 <= i < j < |days| ==> days[i] < days[j])
    && (forall day: nat :: day in days <==> CountedDay(x, t, day))
    && (forall k :: 0 <= k < |days| ==> days[k] < t && Correlated(x, days[k], s.ics[k], s.rankIcs[k]))
  }

  /** A period starts on the first counted day, and again on the first one that is `horizon` days later. */
  ghost predicate Greedy(x: Inputs, periods: seq<Period>, days: seq<nat>) {
    && (forall k :: 0 <= k < |periods| ==> Among(days, periods[k].day))
    && (forall k :: 0 < k < |periods| ==> Apart(x.horizon, periods, k))
    && (forall i :: 0 <= i < |days| ==> Covered(x.horizon, periods, days[i]))
  }

  ghost predicate Among(days: seq<nat>, day: int) {
    exists i :: 0 <= i < |days| && days[i] == day
  }

  ghost predicate Apart(horizon: nat, periods: seq<Period>, k: nat)
    requires 0 < k < |periods|
  {
    periods[k].day >= periods[k - 1].day + horizon
  }

  ghost predicate Covered(horizon: nat, periods: seq<Period>, day: nat) {
    exists k :: 0 <= k < |periods| && periods[k].day <= day < periods[k].day + horizon
  }

  /** `held` are the symbols each period holds. */
  ghost predicate Ledger(x: Inputs, periods: seq<Period>, held: seq<set<nat>>)
    requires Ready(x)
  {
    |held| == |periods| && forall k :: 0 <= k < |periods| ==> ExplainedAt(x, periods[k], held, k)
  }

  ghost predicate ExplainedAt(x: Inputs, p: Period, held: seq<set<nat>>, k: nat)
    requires Ready(x) && k < |held|
  {
    && 0 <= p.day < |x.values|
    && Explained(x.values[p.day], GainsOf(x, p.day), x.selected, p, held[k], if k == 0 then {} else held[k - 1])
  }

  /** What the loop remembers of the last period. */
  ghost predicate Linked(x: Inputs, s: DayState, held: seq<set<nat>>) {
    && |held| == |s.periods|
    && (s.previous.None? <==> held == [])
    && (s.previous.Some? ==> Elements(s.previous.value) == held[|held| - 1])
    && s.lastDay == if held == [] then x.start - x.horizon else s.periods[|s.periods| - 1].day
  }

  function DaysOf(x: Inputs, t: nat): DayState
    requires Ready(x) && x.start <= t <= |x.values|
  {
    Days(x.f, x.values, x.closes, x.start, t, x.limit, x.horizon, x.selected, x.n)
  }

  ghost predicate LoopLog(x: Inputs, t: nat, s: DayState, days: seq<nat>, held: seq<set<nat>>)
    requires Ready(x) && t <= |x.values|
  {
    DayLog(x, t, s, days) && Greedy(x, s.periods, days) && Ledger(x, s.periods, held)
  }

  /** A day that does not count changes nothing. */
  lemma UncountedDay(x: Inputs, t: nat, s: DayState, days: seq<nat>)
    requires Ready(x) && x.start <= t < |x.values| && DayLog(x, t, s, days) && !CountedDay(x, t + 1, t)
    ensures DayLog(x, t + 1, s, days)
    ensures DayStep(x.f, x.values[t], GainsOf(x, t), t, x.horizon, x.selected, x.n, s) == s
  {
    hide Counts;
    hide Correlated;
    SkippedDay(x, t, s);
    hide DayStep;
    forall day: nat ensures CountedDay(x, t + 1, day) <==> CountedDay(x, t, day) {
    }
  }

  lemma SkippedDay(x: Inputs, t: nat, s: DayState)
    requires Ready(x) && x.start <= t < |x.values| && !Counts(x.f, x.values[t], GainsOf(x, t), x.n)
    ensures DayStep(x.f, x.values[t], GainsOf(x, t), t, x.horizon, x.selected, x.n, s) == s
  {
  }

  lemma CountedDayIsLogged(x: Inputs, t: nat, s: DayState, days: seq<nat>, r: DayState)
    requires Ready(x) && x.start <= t < |x.values| && DayLog(x, t, s, days) && CountedDay(x, t + 1, t)
    requires |r.ics| == |s.ics| + 1 && |r.rankIcs| == |s.rankIcs| + 1
    requires r.ics[..|s.ics|] == s.ics && r.rankIcs[..|s.rankIcs|] == s.rankIcs
    requires Correlated(x, t, r.ics[|s.ics|], r.rankIcs[|s.ics|])
    ensures DayLog(x, t + 1, r, days + [t])
  {
    hide Counts;
    hide Correlated;
    var all := days + [t];
    forall day: nat ensures day in all <==> CountedDay(x, t + 1, day) {
      assert day in days <==> CountedDay(x, t, day);
    }
    forall k | 0 <= k < |all| ensures all[k] < t + 1 && Correlated(x, all[k], r.ics[k], r.rankIcs[k]) {
      if k < |days| {
        assert r.ics[k] == s.ics[k] && r.rankIcs[k] == s.rankIcs[k];
      }
    }
  }

  /** A counted day adds its correlations, and a period when the last one is `horizon` days old. */
  lemma CountedStep(x: Inputs, t: nat, s: DayState) returns (r: DayState, chosen: seq<nat>)
    requires Ready(x) && x.start <= t < |x.values| && Counts(x.f, x.values[t], GainsOf(x, t), x.n)
    ensures r == DayStep(x.f, x.values[t], GainsOf(x, t), t, x.horizon, x.selected, x.n, s)
    ensures |r.ics| == |s.ics| + 1 && |r.rankIcs| == |s.rankIcs| + 1
    ensures r.ics[..|s.ics|] == s.ics && r.rankIcs[..|s.rankIcs|] == s.rankIcs
    ensures |s.ics| == |s.rankIcs| ==> Correlated(x, t, r.ics[|s.ics|], r.rankIcs[|s.ics|])
    ensures t - s.lastDay < x.horizon ==> r == s.(ics := r.ics, rankIcs := r.rankIcs)
    ensures t - s.lastDay >= x.horizon ==>
              && |r.periods| == |s.periods| + 1 && r.periods[..|s.periods|] == s.periods
              && r.lastDay == r.periods[|s.periods|].day == t && r.previous == Some(chosen)
              && Explained(x.values[t], GainsOf(x, t), x.selected, r.periods[|s.periods|], Elements(chosen),
                           HeldBefore(s.previous))
  {
    hide Usable;
    hide Values;
    hide Chosen;
    hide Turnover;
    hide Elements;
    hide Explained;
    hide Ranks;
    hide Forward;
    var factor, gains := x.values[t], GainsOf(x, t);
    r := DayStep(x.f, factor, gains, t, x.horizon, x.selected, x.n, s);
    var u := Usable(factor, gains, x.n);
    chosen := Chosen(u, Values(factor, u), x.selected);
    ChosenHaveGains(u, Values(factor, u), x.selected, gains);
    if t - s.lastDay >= x.horizon {
      PeriodIs(factor, gains, x.selected, x.n, chosen, s.previous, r.periods[|s.periods|]);
    }
  }

  lemma LedgerGrows(x: Inputs, periods: seq<Period>, held: seq<set<nat>>, p: Period, now: set<nat>)
    requires Ready(x) && Ledger(x, periods, held) && ExplainedAt(x, p, held + [now], |held|)
    ensures Ledger(x, periods + [p], held + [now])
  {
    hide Explained;
    forall k | 0 <= k < |periods| + 1 ensures ExplainedAt(x, (periods + [p])[k], held + [now], k) {
      if k < |periods| {
        assert ExplainedAt(x, periods[k], held, k);
      }
    }
  }

  lemma StillAmong(days: seq<nat>, day: int, t: nat)
    ensures Among(days, day) ==> Among(days + [t], day)
    ensures Among(days + [t], t)
  {
    assert (days + [t])[|days|] == t;
    if Among(days, day) {
      var i :| 0 <= i < |days| && days[i] == day;
      assert (days + [t])[i] == day;
    }
  }

  lemma StillCovered(horizon: nat, periods: seq<Period>, p: Period, day: nat)
    requires Covered(horizon, periods, day)
    ensures Covered(horizon, periods + [p], day)
  {
    var k :| 0 <= k < |periods| && periods[k].day <= day < periods[k].day + horizon;
    assert (periods + [p])[k] == periods[k];
  }

  /** A counted day within the last period. */
  lemma GreedyHolds(x: Inputs, periods: seq<Period>, days: seq<nat>, t: nat)
    requires Greedy(x, periods, days) && Covered(x.horizon, periods, t)
    ensures Greedy(x, periods, days + [t])
  {
    hide Among;
    hide Covered;
    hide Apart;
    forall k | 0 <= k < |periods| ensures Among(days + [t], periods[k].day) {
      StillAmong(days, periods[k].day, t);
    }
  }

  /** A counted day that starts a period. */
  lemma GreedyGrows(x: Inputs, periods: seq<Period>, days: seq<nat>, p: Period, t: nat)
    requires Greedy(x, periods, days) && p.day == t && x.horizon > 0
    requires periods != [] ==> t >= periods[|periods| - 1].day + x.horizon
    ensures Greedy(x, periods + [p], days + [t])
  {
    hide Among;
    hide Covered;
    var q := periods + [p];
    forall k | 0 <= k < |q| ensures Among(days + [t], q[k].day) {
      StillAmong(days, q[k].day, t);
    }
    forall k | 0 < k < |q| ensures Apart(x.horizon, q, k) {
      assert k < |periods| ==> Apart(x.horizon, periods, k);
    }
    NewlyCovered(x.horizon, periods, p);
    forall i | 0 <= i < |days| ensures Covered(x.horizon, q, days[i]) {
      StillCovered(x.horizon, periods, p, days[i]);
    }
  }

  lemma NewlyCovered(horizon: nat, periods: seq<Period>, p: Period)
    requires horizon > 0 && p.day >= 0
    ensures Covered(horizon, periods + [p], p.day)
  {
    assert (periods + [p])[|periods|] == p;
  }

  lemma LastIsEarlier(x: Inputs, t: nat, s: DayState, days: seq<nat>)
    requires Ready(x) && t <= |x.values| && DayLog(x, t, s, days) && Greedy(x, s.periods, days)
    ensures s.periods != [] ==> s.periods[|s.periods| - 1].day < t
  {
    hide Correlated;
    hide Counts;
    hide Covered;
    assert s.periods != [] ==> Among(days, s.periods[|s.periods| - 1].day);
  }

  lemma SameNumbers(x: Inputs, t: nat, s: DayState, days: seq<nat>)
    requires Ready(x) && t <= |x.values| && DayLog(x, t, s, days)
    ensures |s.ics| == |s.rankIcs|
  {
  }

  lemma StepIsLogged(x: Inputs, t: nat, s: DayState, days: seq<nat>, held: seq<set<nat>>)
    returns (days': seq<nat>, held': seq<set<nat>>)
    requires Ready(x) && x.start <= t < |x.values| && LoopLog(x, t, s, days, held) && Linked(x, s, held)
    ensures var r := DayStep(x.f, x.values[t], GainsOf(x, t), t, x.horizon, x.selected, x.n, s);
            LoopLog(x, t + 1, r, days', held') && Linked(x, r, held')
  {
    hide DayStep;
    hide Counts;
    hide DayLog;
    hide Greedy;
    hide Ledger;
    hide Linked;
    if Counts(x.f, x.values[t], GainsOf(x, t), x.n) {
      SameNumbers(x, t, s, days);
      var r, chosen := CountedStep(x, t, s);
      days' := days + [t];
      CountedDayIsLogged(x, t, s, days, r);
      LastIsEarlier(x, t, s, days);
      if t - s.lastDay < x.horizon {
        held' := held;
        WithinStep(x, t, s, days, held, r);
      } else {
        held' := held + [Elements(chosen)];
        RebalancingStep(x, t, s, days, held, r, Elements(chosen));
      }
    } else {
      UncountedDay(x, t, s, days);
      days', held' := days, held;
    }
  }

  lemma WithinStep(x: Inputs, t: nat, s: DayState, days: seq<nat>, held: seq<set<nat>>, r: DayState)
    requires Ready(x) && Greedy(x, s.periods, days) && Ledger(x, s.periods, held) && Linked(x, s, held)
    requires x.start <= t < |x.values| && t - s.lastDay < x.horizon && r == s.(ics := r.ics, rankIcs := r.rankIcs)
    requires s.periods != [] ==> s.periods[|s.periods| - 1].day < t
    ensures Greedy(x, r.periods, days + [t]) && Ledger(x, r.periods, held) && Linked(x, r, held)
  {
    hide Elements;
    hide Greedy;
    hide Ledger;
    assert s.periods[|s.periods| - 1].day <= t < s.periods[|s.periods| - 1].day + x.horizon;
    assert Covered(x.horizon, s.periods, t);
    GreedyHolds(x, s.periods, days, t);
  }

  lemma RebalancingStep(x: Inputs, t: nat, s: DayState, days: seq<nat>, held: seq<set<nat>>, r: DayState,
                        now: set<nat>)
    requires Ready(x) && Greedy(x, s.periods, days) && Ledger(x, s.periods, held) && Linked(x, s, held)
    requires x.start <= t < |x.values| && t - s.lastDay >= x.horizon
    requires |r.periods| == |s.periods| + 1 && r.periods[..|s.periods|] == s.periods
    requires r.lastDay == r.periods[|s.periods|].day == t
    requires r.previous.Some? && Elements(r.previous.value) == now
    requires Explained(x.values[t], GainsOf(x, t), x.selected, r.periods[|s.periods|], now, HeldBefore(s.previous))
    ensures Greedy(x, r.periods, days + [t]) && Ledger(x, r.periods, held + [now]) && Linked(x, r, held + [now])
  {
    hide Elements;
    hide Explained;
    hide Greedy;
    hide Ledger;
    hide GainsOf;
    var p := r.periods[|s.periods|];
    assert r.periods == s.periods + [p];
    LedgerGrows(x, s.periods, held, p, now);
    GreedyGrows(x, s.periods, days, p, t);
  }

  lemma NothingLogged(x: Inputs)
    requires Ready(x)
    ensures LoopLog(x, x.start, DaysOf(x, x.start), [], []) && Linked(x, DaysOf(x, x.start), [])
  {
  }

  lemma {:induction false} RunIsLogged(x: Inputs, t: nat) returns (days: seq<nat>, held: seq<set<nat>>)
    requires Ready(x) && x.start <= t <= |x.values|
    ensures LoopLog(x, t, DaysOf(x, t), days, held) && Linked(x, DaysOf(x, t), held)
    decreases t
  {
    hide DayStep;
    hide LoopLog;
    hide Linked;
    if t == x.start {
      NothingLogged(x);
      return [], [];
    }
    days, held := RunIsLogged(x, t - 1);
    days, held := StepIsLogged(x, t - 1, DaysOf(x, t - 1), days, held);
  }

  // ------------------------------------------------------------------ the forward gains and the ranks

  /**
   * A forward gain `g` takes today's close to the one `horizon` days later. It is there exactly when that day lies
   * in the panel and before the end of the range, and both closes are there and today's is not zero.
   */
  lemma ForwardLaw(closes: Panel, evalEnd: int, horizon: nat, n: nat, t: nat, i: nat)
    requires Shaped(closes, |closes|, n) && t < |closes| && i < n && horizon <= |closes|
    ensures var limit := Limit(|closes|, evalEnd, horizon);
            && limit >= 0 && limit + horizon <= |closes|
            && var g := Forward(closes, t, limit, horizon, n)[i];
            && (g.Some? <==> && t + horizon < |closes| && t + horizon < evalEnd
                             && closes[t][i].Some? && closes[t + horizon][i].Some? && closes[t][i].value != 0.0)
            && (g.Some? ==> Product(closes[t][i].value, 1.0 + g.value) == closes[t + horizon][i].value)
  {
    if t + horizon < |closes| && closes[t][i].Some? && closes[t + horizon][i].Some? && closes[t][i].value != 0.0 {
      GainLaw(closes[t][i].value, closes[t + horizon][i].value);
    }
  }

  lemma GainLaw(now: real, later: real)
    requires now != 0.0
    ensures Product(now, 1.0 + (later / now - 1.0)) == later
  {
    QuotientLaw(later, now);
  }

  /** The indices that do not stand behind index `i`: smaller values, and equal ones up to `i`. */
  ghost function UpTo(values: seq<real>, m: nat, i: nat): set<nat>
    requires m <= |values| && i < |values|
  {
    set j: nat | j < m && (values[j] < values[i] || (values[j] == values[i] && j <= i))
  }

  /** Those of the first `m` that stand before index `i`. */
  ghost function Earlier(values: seq<real>, m: nat, i: nat): set<nat>
    requires m <= |values| && i < |values|
  {
    set j: nat | j < m && Before(values, j, i)
  }

  lemma EarlierGrows(values: seq<real>, m: nat, i: nat)
    requires m < |values| && i < |values|
    ensures |Earlier(values, m + 1, i)| == |Earlier(values, m, i)| + if Before(values, m, i) then 1 else 0
  {
    hide Before;
    var a, b := Earlier(values, m + 1, i), Earlier(values, m, i);
    if Before(values, m, i) {
      assert a == b + {m};
    } else {
      assert a == b;
    }
  }

  lemma {:induction false} AheadCounts(values: seq<real>, m: nat, i: nat)
    requires m <= |values| && i < |values|
    ensures AheadOf(values, m, i) == |Earlier(values, m, i)|
  {
    hide Before;
    if m == 0 {
      assert Earlier(values, m, i) == {};
    } else {
      AheadCounts(values, m - 1, i);
      EarlierGrows(values, m - 1, i);
      hide Earlier;
    }
  }

  lemma UpToIsEarlier(values: seq<real>, i: nat)
    requires i < |values|
    ensures |UpTo(values, |values|, i)| == |Earlier(values, |values|, i)| + 1
  {
    assert UpTo(values, |values|, i) == Earlier(values, |values|, i) + {i};
  }

  /** A rank is the share of the values that do not stand behind it. */
  lemma RankLaw(values: seq<real>, i: nat)
    requires i < |values|
    ensures Product(Ranks(values)[i], |values| as real) == |UpTo(values, |values|, i)| as real
  {
    hide UpTo;
    hide Earlier;
    hide AheadOf;
    AheadCounts(values, |values|, i);
    UpToIsEarlier(values, i);
    QuotientLaw(|UpTo(values, |values|, i)| as real, |values| as real);
  }

  // ------------------------------------------------------------------ the metrics

  ghost function StrategyTotal(periods: seq<Period>): real {
    if periods == [] then 0.0 else StrategyTotal(periods[..|periods| - 1]) + periods[|periods| - 1].strategy
  }

  ghost function BenchmarkTotal(periods: seq<Period>): real {
    if periods == [] then 0.0 else BenchmarkTotal(periods[..|periods| - 1]) + periods[|periods| - 1].benchmark
  }

  /** `rate` is the yearly rate of periods of `horizon` days that add up to `total`, 250 trading days a year. */
  ghost predicate Yearly(rate: real, total: real, number: nat, horizon: nat) {
    if number == 0 then rate == 0.0 else Product(Product(rate, horizon as real), number as real) == 250.0 * total
  }

  /** The metrics that a loop over `days` days reports. */
  ghost predicate Reported(x: Inputs, thresholds: Thresholds, days: nat, s: DayState, m: Metrics) {
    && !m.TooShort? && m.evaluatedDays == days && m.validDays == |s.ics|
    && Product(m.coverage, days as real) == |s.ics| as real
    && (m.Sparse? <==> m.coverage < thresholds.minCoverage || s.ics == [])
    && (m.Full? ==>
          && Product(m.rankIc, |s.rankIcs| as real) == Sum(s.rankIcs)
          && Product(m.icMean, |s.ics| as real) == Sum(s.ics)
          && (if x.f.std(s.rankIcs) > 0.000000000001 then Product(m.icir, x.f.std(s.rankIcs)) == m.rankIc
              else m.icir == 100.0 * m.rankIc)
          && Yearly(m.strategy, StrategyTotal(s.periods), |s.periods|, x.horizon)
          && Yearly(m.benchmark, BenchmarkTotal(s.periods), |s.periods|, x.horizon)
          && m.excess == m.strategy - m.benchmark
          && m.fitness == 5.0 * m.rankIc + m.icir / 2.0 + m.excess
          && (m.passed <==> && m.rankIc >= thresholds.minRankIc && m.icir >= thresholds.minIcir
                            && m.excess > thresholds.minExcess)
          && m.topK == x.selected)
  }

  lemma {:induction false} TotalsAre(periods: seq<Period>)
    ensures Sum(Strategies(periods)) == StrategyTotal(periods) && Sum(Benchmarks(periods)) == BenchmarkTotal(periods)
  {
    if periods != [] {
      var front := periods[..|periods| - 1];
      TotalsAre(front);
      assert Strategies(periods)[..|front|] == Strategies(front);
      assert Benchmarks(periods)[..|front|] == Benchmarks(front);
    }
  }

  lemma YearlyIs(s: seq<real>, horizon: nat)
    requires horizon > 0
    ensures Yearly(MeanOrZero(s) * TRADING_DAYS_PER_YEAR / horizon as real, Sum(s), |s|, horizon)
  {
    if s != [] {
      var mean, h := MeanOrZero(s), horizon as real;
      QuotientLaw(mean * TRADING_DAYS_PER_YEAR, h);
      MeanTimes(s);
      assert mean * TRADING_DAYS_PER_YEAR == 250.0 * mean;
      assert Product(250.0 * mean, |s| as real) == 250.0 * Product(mean, |s| as real);
    }
  }

  lemma IcirIs(rankIc: real, d: real)
    ensures var icir := rankIc / if d > TINY then d else 0.01;
            if d > 0.000000000001 then Product(icir, d) == rankIc else icir == 100.0 * rankIc
  {
    if d > TINY {
      QuotientLaw(rankIc, d);
    }
  }

  lemma SummaryLaw(x: Inputs, thresholds: Thresholds, days: nat, s: DayState)
    requires days > 0 && x.horizon > 0 && |s.ics| == |s.rankIcs|
    ensures Reported(x, thresholds, days, s, Summary(x.f, s, days, x.horizon, x.selected, thresholds))
  {
    hide Product;
    hide Yearly;
    hide Sum;
    hide StrategyTotal;
    hide BenchmarkTotal;
    hide Mean;
    QuotientLaw(|s.ics| as real, days as real);
    TotalsAre(s.periods);
    YearlyIs(Strategies(s.periods), x.horizon);
    YearlyIs(Benchmarks(s.periods), x.horizon);
    if s.ics != [] {
      MeanTimes(s.ics);
      MeanTimes(s.rankIcs);
      IcirIs(Mean(s.rankIcs), x.f.std(s.rankIcs));
    }
    hide MeanOrZero;
  }

  /** The number of symbols to hold: as asked for, or one in a hundred and at least five. */
  lemma SelectedLaw(topK: nat, n: nat)
    ensures var k := Selected(topK, n);
            if topK > 0 then k == topK else k >= 5 && n < 100 * k + 100 && (k == 5 || 100 * k <= n)
  {
  }

  /** The metrics `m` are those of a complete account of the loop up to day `end`. */
  ghost predicate Accounted(x: Inputs, end: nat, thresholds: Thresholds, m: Metrics)
    requires Ready(x) && x.start <= end <= |x.values|
  {
    exists s, days, held :: LoopLog(x, end, s, days, held) && Reported(x, thresholds, end - x.start, s, m)
  }

  /**
   * Every number of an evaluation is accounted for: the counted days with their correlations, the holding periods
   * with what they hold, earn and cost, and the metrics made of them.
   */
  lemma EvaluationLaw(f: Statistics, values: Panel, closes: Panel, evalStart: int, evalEnd: int, horizon: nat,
                      topK: nat, thresholds: Thresholds, n: nat)
    requires SameShape(values, closes, n) && horizon > 0
    ensures var m := EvaluateRange(f, values, closes, evalStart, evalEnd, horizon, topK, thresholds, n);
            var start := if evalStart > 0 then evalStart else 0;
            var end := if evalEnd < |values| - horizon then evalEnd else |values| - horizon;
            && (m.TooShort? <==> end <= start)
            && (end > start ==>
                  var x := Inputs(f, values, closes, start, Limit(|values|, evalEnd, horizon), horizon,
                                  Selected(topK, n), n);
                  Ready(x) && Accounted(x, end, thresholds, m))
  {
    hide Days;
    hide Summary;
    hide LoopLog;
    hide Linked;
    hide Reported;
    var start, end := if evalStart > 0 then evalStart else 0, Least(evalEnd, |values| - horizon);
    if end > start {
      var x := Inputs(f, values, closes, start, Limit(|values|, evalEnd, horizon), horizon, Selected(topK, n), n);
      var days, held := RunIsLogged(x, end);
      var s := DaysOf(x, end);
      LoggedNumbers(x, end, s, days, held);
      SummaryLaw(x, thresholds, end - start, s);
      assert LoopLog(x, end, s, days, held);
      NotTooShort(f, s, end - start, horizon, Selected(topK, n), thresholds);
    }
  }

  lemma LoggedNumbers(x: Inputs, t: nat, s: DayState, days: seq<nat>, held: seq<set<nat>>)
    requires Ready(x) && t <= |x.values| && LoopLog(x, t, s, days, held)
    ensures |s.ics| == |s.rankIcs|
  {
  }

  lemma NotTooShort(f: Statistics, s: DayState, days: nat, horizon: nat, selected: nat, thresholds: Thresholds)
    requires days > 0 && horizon > 0
    ensures !Summary(f, s, days, horizon, selected, thresholds).TooShort?
  {
  }

  // ------------------------------------------------------------------ what makes no difference

  /** Closes whose prices of symbol `i` are those of `c`, times `scales[i]`. */
  ghost predicate Rescaled(c: Panel, d: Panel, scales: seq<real>) {
    && |c| == |d| && Shaped(c, |c|, |scales|) && Shaped(d, |c|, |scales|)
    && (forall i :: 0 <= i < |scales| ==> scales[i] > 0.0)
    && forall t, i :: 0 <= t < |c| && 0 <= i < |scales| ==> TimesCell(c[t][i], d[t][i], scales[i])
  }

  ghost predicate TimesCell(a: Cell, b: Cell, scale: real) {
    (b.Some? <==> a.Some?) && (a.Some? ==> b.value == Product(a.value, scale))
  }

  lemma ReturnRescaled(later: Cell, now: Cell, later': Cell, now': Cell, scale: real)
    requires scale > 0.0 && TimesCell(later, later', scale) && TimesCell(now, now', scale)
    ensures Return(later', now') == Return(later, now)
  {
    if later.Some? && now.Some? && now.value != 0.0 {
      assert later.value * scale / (now.value * scale) == later.value / now.value;
    }
  }

  lemma ForwardRescaled(c: Panel, d: Panel, scales: seq<real>, t: nat, limit: int, horizon: nat)
    requires Rescaled(c, d, scales) && limit + horizon <= |c|
    ensures Forward(d, t, limit, horizon, |scales|) == Forward(c, t, limit, horizon, |scales|)
  {
    hide Return;
    hide TimesCell;
    var a, b := Forward(c, t, limit, horizon, |scales|), Forward(d, t, limit, horizon, |scales|);
    if t < limit {
      forall i | 0 <= i < |scales| ensures a[i] == b[i] {
        ReturnRescaled(c[t + horizon][i], c[t][i], d[t + horizon][i], d[t][i], scales[i]);
      }
    }
  }

  lemma {:induction false} DaysRescaled(f: Statistics, values: Panel, c: Panel, d: Panel, scales: seq<real>, start: nat,
                                        t: nat, limit: nat, horizon: nat, selected: nat)
    requires Rescaled(c, d, scales) && SameShape(values, c, |scales|) && SameShape(values, d, |scales|)
    requires start <= t <= |values| && limit + horizon <= |values|
    ensures Days(f, values, d, start, t, limit, horizon, selected, |scales|)
         == Days(f, values, c, start, t, limit, horizon, selected, |scales|)
    decreases t
  {
    hide DayStep;
    hide Forward;
    hide Rescaled;
    if t > start {
      DaysRescaled(f, values, c, d, scales, start, t - 1, limit, horizon, selected);
      ForwardRescaled(c, d, scales, t - 1, limit, horizon);
    }
  }

  /** Multiplying the closes of every symbol by a positive number of its own changes no metric. */
  lemma ScaleMakesNoDifference(f: Statistics, values: Panel, c: Panel, d: Panel, scales: seq<real>, evalStart: int,
                               evalEnd: int, horizon: nat, topK: nat, thresholds: Thresholds)
    requires Rescaled(c, d, scales) && SameShape(values, c, |scales|) && SameShape(values, d, |scales|) && horizon > 0
    ensures EvaluateRange(f, values, d, evalStart, evalEnd, horizon, topK, thresholds, |scales|)
         == EvaluateRange(f, values, c, evalStart, evalEnd, horizon, topK, thresholds, |scales|)
  {
    hide Days;
    hide Summary;
    hide Rescaled;
    var start, end := if evalStart > 0 then evalStart else 0, Least(evalEnd, |values| - horizon);
    if end > start {
      DaysRescaled(f, values, c, d, scales, start, end, Limit(|values|, evalEnd, horizon), horizon,
                   Selected(topK, |scales|));
    }
  }

  /** Factor columns that order the symbols with a gain alike. */
  ghost predicate SameOrder(p: Column, q: Column, gains: Column)
    requires |p| == |q| == |gains|
  {
    && (forall i :: 0 <= i < |p| && gains[i].Some? ==> (p[i].Some? <==> q[i].Some?))
    && forall i, j :: 0 <= i < |p| && 0 <= j < |p| && i in Tradable(p, gains) && j in Tradable(p, gains) ==>
         (p[i].value <= p[j].value <==> q[i].value <= q[j].value)
  }

  ghost predicate SameRealOrder(x: seq<real>, y: seq<real>) {
    |x| == |y| && forall a, b :: 0 <= a < |x| && 0 <= b < |x| ==> (x[a] <= x[b] <==> y[a] <= y[b])
  }

  lemma {:induction false} AheadFollowsOrder(x: seq<real>, y: seq<real>, m: nat, i: nat)
    requires SameRealOrder(x, y) && m <= |x| && i < |x|
    ensures AheadOf(x, m, i) == AheadOf(y, m, i)
  {
    if m > 0 {
      AheadFollowsOrder(x, y, m - 1, i);
      assert x[m - 1] <= x[i] <==> y[m - 1] <= y[i];
      assert x[i] <= x[m - 1] <==> y[i] <= y[m - 1];
    }
  }

  lemma RanksFollowOrder(x: seq<real>, y: seq<real>)
    requires SameRealOrder(x, y)
    ensures Ranks(x) == Ranks(y)
  {
    forall i | 0 <= i < |x| ensures Ranks(x)[i] == Ranks(y)[i] {
      AheadFollowsOrder(x, y, |x|, i);
    }
  }

  lemma ArgsortFollowsOrder(x: seq<real>, y: seq<real>)
    requires SameRealOrder(x, y)
    ensures Argsort(x) == Argsort(y)
  {
    hide OrderOf;
    hide AheadOf;
    forall k | 0 <= k < |x| ensures Argsort(x)[k] == Argsort(y)[k] {
      var i := Argsort(x)[k];
      OrderPosition(x, |x|, i);
      OrderPosition(y, |y|, i);
      AheadFollowsOrder(x, y, |x|, i);
      PlaceIsUnique(x, k, AheadOf(x, |x|, i));
    }
  }

  lemma PlaceIsUnique(x: seq<real>, j: nat, k: nat)
    requires j < |x| && k < |x| && Argsort(x)[j] == Argsort(x)[k]
    ensures j == k
  {
    hide OrderOf;
    ArgsortSorts(x);
  }

  lemma {:induction false} SameUsable(p: Column, q: Column, gains: Column, n: nat)
    requires |p| == |q| == |gains| && n <= |p|
    requires forall i :: 0 <= i < |p| && gains[i].Some? ==> (p[i].Some? <==> q[i].Some?)
    ensures Usable(p, gains, n) == Usable(q, gains, n)
  {
    hide Usable;
    if n == 0 {
      NoneUsable(p, gains);
      NoneUsable(q, gains);
    } else {
      SameUsable(p, q, gains, n - 1);
      OneMoreUsable(p, gains, n);
      OneMoreUsable(q, gains, n);
    }
  }

  lemma NoneUsable(p: Column, gains: Column)
    ensures Usable(p, gains, 0) == []
  {
  }

  lemma OneMoreUsable(p: Column, gains: Column, n: nat)
    requires |p| == |gains| && 0 < n <= |p|
    ensures Usable(p, gains, n)
         == Usable(p, gains, n - 1) + if p[n - 1].Some? && gains[n - 1].Some? then [n - 1] else []
  {
  }

  lemma ValuesFollowOrder(p: Column, q: Column, gains: Column)
    requires |p| == |q| == |gains| && SameOrder(p, q, gains)
    ensures var u := Usable(p, gains, |p|);
            u == Usable(q, gains, |p|) && SameRealOrder(Values(p, u), Values(q, u))
  {
    SameUsable(p, q, gains, |p|);
  }

  /** Where both days count, only the correlation of the values themselves can differ. */
  lemma StepFollowsOrder(f: Statistics, p: Column, q: Column, gains: Column, day: int, horizon: nat, selected: nat,
                         n: nat, s: DayState, r: DayState)
    requires |p| == |q| == |gains| == n && SameOrder(p, q, gains)
    requires Counts(f, p, gains, n) <==> Counts(f, q, gains, n)
    requires r == s.(ics := r.ics) && |r.ics| == |s.ics|
    ensures var a, b := DayStep(f, p, gains, day, horizon, selected, n, s),
                        DayStep(f, q, gains, day, horizon, selected, n, r);
            b == a.(ics := b.ics) && |b.ics| == |a.ics|
  {
    hide Usable;
    hide Values;
    hide Ranks;
    hide Argsort;
    hide Turnover;
    hide SameOrder;
    ValuesFollowOrder(p, q, gains);
    var u := Usable(p, gains, n);
    RanksFollowOrder(Values(p, u), Values(q, u));
    ArgsortFollowsOrder(Values(p, u), Values(q, u));
    assert Chosen(u, Values(p, u), selected) == Chosen(u, Values(q, u), selected);
    hide Chosen;
  }

  /** On the days `a` up to `b` the factor panels order the symbols alike and count on the same days. */
  ghost predicate SameOrders(x: Inputs, w: Panel, a: nat, b: int)
    requires Ready(x) && Shaped(w, |x.values|, x.n)
  {
    forall t: nat :: a <= t < b && t < |w| ==>
      && SameOrder(x.values[t], w[t], GainsOf(x, t))
      && (Counts(x.f, x.values[t], GainsOf(x, t), x.n) <==> Counts(x.f, w[t], GainsOf(x, t), x.n))
  }

  lemma {:induction false} DaysFollowOrder(x: Inputs, w: Panel, t: nat)
    requires Ready(x) && Shaped(w, |x.values|, x.n) && x.start <= t <= |w| && SameOrders(x, w, x.start, t)
    ensures var s, r := DaysOf(x, t), DaysOf(x.(values := w), t);
            r == s.(ics := r.ics) && |r.ics| == |s.ics|
    decreases t
  {
    hide DayStep;
    hide SameOrder;
    hide Counts;
    if t > x.start {
      DaysFollowOrder(x, w, t - 1);
      StepFollowsOrder(x.f, x.values[t - 1], w[t - 1], GainsOf(x, t - 1), t - 1, x.horizon, x.selected, x.n,
                       DaysOf(x, t - 1), DaysOf(x.(values := w), t - 1));
    }
  }

  lemma SummaryFollowsOrder(f: Statistics, s: DayState, r: DayState, days: nat, horizon: nat, selected: nat,
                            thresholds: Thresholds)
    requires days > 0 && horizon > 0 && r == s.(ics := r.ics) && |r.ics| == |s.ics|
    ensures var a, b := Summary(f, s, days, horizon, selected, thresholds),
                        Summary(f, r, days, horizon, selected, thresholds);
            if a.Full? then b.Full? && b == a.(icMean := b.icMean) else b == a
  {
  }

  /**
   * The order is all that matters: a change of the factor that keeps the order of the symbols with a gain on every
   * day, and the days that count, changes no metric but the mean correlation of the values themselves.
   */
  lemma OrderIsAllThatMatters(x: Inputs, w: Panel, evalStart: int, evalEnd: int, topK: nat, thresholds: Thresholds)
    requires Ready(x) && Shaped(w, |x.values|, x.n) && x.start == (if evalStart > 0 then evalStart else 0)
    requires x.limit == Limit(|x.values|, evalEnd, x.horizon) && x.selected == Selected(topK, x.n)
    requires SameOrders(x, w, x.start, evalEnd)
    ensures var a := EvaluateRange(x.f, x.values, x.closes, evalStart, evalEnd, x.horizon, topK, thresholds, x.n);
            var b := EvaluateRange(x.f, w, x.closes, evalStart, evalEnd, x.horizon, topK, thresholds, x.n);
            if a.Full? then b.Full? && b == a.(icMean := b.icMean) else b == a
  {
    hide Days;
    hide Summary;
    hide SameOrder;
    hide Counts;
    var end := Least(evalEnd, |x.values| - x.horizon);
    if end > x.start {
      DaysFollowOrder(x, w, end);
      SummaryFollowsOrder(x.f, DaysOf(x, end), DaysOf(x.(values := w), end), end - x.start, x.horizon, x.selected,
                          thresholds);
    }
  }
}
