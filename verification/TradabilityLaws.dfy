/** What the turnover, the participation and the hit rates of a tradability assessment mean. */
module TradabilityLaws {
  import opened Wrappers
  import opened Numbers
  import opened Tradability
  import opened WindowLaws

  /** `f(0) + .. + f(n - 1)` */
  ghost function Added(n: nat, f: nat -> real): real {
    if n == 0 then 0.0 else Added(n - 1, f) + f(n - 1)
  }

  lemma {:induction false} AddedAlike(n: nat, f: nat -> real, g: nat -> real)
    requires forall i :: 0 <= i < n ==> f(i) == g(i)
    ensures Added(n, f) == Added(n, g)
  {
    if n > 0 {
      AddedAlike(n - 1, f, g);
    }
  }

  /** The weight at `i`, nothing beyond the end. */
  function At(p: seq<real>, i: nat): real {
    if i < |p| then p[i] else 0.0
  }

  lemma {:induction false} SumIsAdded(p: seq<real>)
    ensures Sum(p) == Added(|p|, (i: nat) => At(p, i))
  {
    if p != [] {
      var front := p[..|p| - 1];
      SumIsAdded(front);
      AddedAlike(|front|, (i: nat) => At(front, i), (i: nat) => At(p, i));
    }
  }

  lemma {:induction false} NormIsAdded(p: seq<real>)
    ensures Norm(p) == Added(|p|, (i: nat) => AbsOf(At(p, i)))
  {
    if p != [] {
      var front := p[..|p| - 1];
      NormIsAdded(front);
      AddedAlike(|front|, (i: nat) => AbsOf(At(front, i)), (i: nat) => AbsOf(At(p, i)));
    }
  }

  // ------------------------------------------------------------------ one portfolio

  lemma {:induction false} SumOfDemeaned(p: seq<real>, mean: real, m: nat)
    requires m <= |p|
    ensures Added(m, (i: nat) => At(p, i) - mean) == Added(m, (i: nat) => At(p, i)) - Product(mean, m as real)
  {
    if m > 0 {
      SumOfDemeaned(p, mean, m - 1);
    }
  }

  lemma DemeanedSumsToZero(p: seq<real>)
    ensures Sum(Demeaned(p)) == 0.0
  {
    if p != [] {
      var mean, d := Sum(p) / |p| as real, Demeaned(p);
      SumIsAdded(p);
      SumIsAdded(d);
      SumOfDemeaned(p, mean, |p|);
      AddedAlike(|p|, (i: nat) => At(d, i), (i: nat) => At(p, i) - mean);
      QuotientLaw(Sum(p), |p| as real);
    }
  }

  lemma {:induction false} SumOfQuotient(p: seq<real>, scale: real)
    requires scale > 0.0
    ensures Sum(DividedBy(p, scale)) == Ratio(Sum(p), scale)
  {
    if p == [] {
      assert Ratio(0.0, scale) == 0.0;
    } else {
      hide DividedBy;
      hide Ratio;
      var n := |p| - 1;
      SumOfQuotient(p[..n], scale);
      DividedFront(p, scale);
      RatioOfSum(Sum(p[..n]), p[n], scale);
    }
  }

  lemma {:induction false} SumOfZeros(n: nat)
    ensures Sum(seq(n, _ => 0.0)) == 0.0
  {
    if n > 0 {
      SumOfZeros(n - 1);
      assert seq(n, _ => 0.0)[..n - 1] == seq(n - 1, _ => 0.0);
    }
  }

  /** Weights that add up to zero and differ as the positions do, times `k`. */
  ghost predicate Balanced(p: seq<real>, r: seq<real>, k: real) {
    && |r| == |p| && Sum(r) == 0.0
    && (forall i, j :: 0 <= i < |p| && 0 <= j < |p| ==> r[i] - r[j] == Product(k, p[i] - p[j]))
  }

  ghost predicate Flat(p: seq<real>) {
    forall i, j :: 0 <= i < |p| && 0 <= j < |p| ==> p[i] == p[j]
  }

  /**
   * A portfolio adds up to zero and its weights differ as the positions do, times one positive factor; their
   * absolute values add up to one, unless all positions are equal, when nothing is held.
   */
  lemma PortfolioLaw(values: seq<Cell>, valid: seq<bool>)
    requires Masked(values, valid)
    ensures var p, r := Positions(values, valid), Portfolio(values, valid);
            && (exists k :: k > 0.0 && Balanced(p, r, k))
            && Added(|r|, (i: nat) => AbsOf(At(r, i))) == if Flat(p) then 0.0 else 1.0
  {
    hide Demeaned;
    hide Normalised;
    hide Balanced;
    hide Flat;
    hide Added;
    var p, r := Positions(values, valid), Portfolio(values, valid);
    NormIsAtMostOne(Demeaned(p));
    NormIsAdded(r);
    FlatIff(p);
    if Norm(Demeaned(p)) > 0.0 {
      LivePortfolio(p);
    } else {
      FlatPortfolio(p);
    }
  }

  lemma LivePortfolio(p: seq<real>)
    requires Norm(Demeaned(p)) > 0.0
    ensures exists k :: k > 0.0 && Balanced(p, Normalised(Demeaned(p)), k)
  {
    hide Norm;
    hide Sum;
    hide Ratio;
    var d := Demeaned(p);
    var r, k := Normalised(d), Ratio(1.0, Norm(d));
    DemeanedSumsToZero(p);
    SumOfQuotient(d, Norm(d));
    NothingShared(Norm(d));
    forall i, j | 0 <= i < |p| && 0 <= j < |p| ensures r[i] - r[j] == Product(k, p[i] - p[j]) {
      ProportionLaw(d[i], d[j], Norm(d));
    }
    assert k > 0.0 && Balanced(p, r, k);
  }

  lemma FlatPortfolio(p: seq<real>)
    requires Norm(Demeaned(p)) <= 0.0
    ensures exists k :: k > 0.0 && Balanced(p, Normalised(Demeaned(p)), k)
  {
    hide Sum;
    hide Norm;
    hide Demeaned;
    FlatIff(p);
    SumOfZeros(|p|);
    assert Balanced(p, Normalised(Demeaned(p)), 1.0);
  }

  lemma NothingShared(scale: real)
    requires scale > 0.0
    ensures Ratio(0.0, scale) == 0.0 < Ratio(1.0, scale)
  {
  }

  lemma ProportionLaw(x: real, y: real, scale: real)
    requires scale > 0.0
    ensures Ratio(1.0, scale) > 0.0 && Ratio(x, scale) - Ratio(y, scale) == Product(Ratio(1.0, scale), x - y)
  {
  }

  lemma {:induction false} NormOfNothing(p: seq<real>)
    requires forall i :: 0 <= i < |p| ==> p[i] == 0.0
    ensures Norm(p) == 0.0
  {
    if p != [] {
      NormOfNothing(p[..|p| - 1]);
    }
  }

  /** The demeaned positions have norm zero exactly when all positions are equal. */
  lemma FlatIff(p: seq<real>)
    ensures Norm(Demeaned(p)) == 0.0 <==> Flat(p)
  {
    hide Norm;
    hide Sum;
    var d := Demeaned(p);
    if Norm(d) == 0.0 {
      forall i | 0 <= i < |p| ensures d[i] == 0.0 {
        NormCovers(d, i);
      }
      forall i, j | 0 <= i < |p| && 0 <= j < |p| ensures p[i] == p[j] {
        assert d[i] == d[j];
      }
    } else if Flat(p) {
      DemeanedSumsToZero(p);
      if p != [] {
        SumOfEqual(d, d[0]);
        ProductIsZero(d[0], |d| as real);
      }
      NormOfNothing(d);
    }
  }

  lemma {:induction false} SumOfEqual(s: seq<real>, x: real)
    requires forall i :: 0 <= i < |s| ==> s[i] == x
    ensures Sum(s) == Product(x, |s| as real)
  {
    if s != [] {
      SumOfEqual(s[..|s| - 1], x);
    }
  }

  lemma ProductIsZero(x: real, k: real)
    requires Product(x, k) == 0.0 && k > 0.0
    ensures x == 0.0
  {
  }

  // ------------------------------------------------------------------ one step

  function Rise(x: real): real {
    if x > 0.0 then x else 0.0
  }

  /** What has to be bought to get from the weights `a` to the weights `b`. */
  ghost function Bought(a: seq<real>, b: seq<real>): real {
    Added(|a|, (i: nat) => Rise(At(b, i) - At(a, i)))
  }

  lemma BoughtGrows(a: seq<real>, b: seq<real>)
    requires |a| == |b| && a != []
    ensures var n := |a| - 1; Bought(a, b) == Bought(a[..n], b[..n]) + Rise(b[n] - a[n])
  {
    var n := |a| - 1;
    AddedAlike(n, (i: nat) => Rise(At(b, i) - At(a, i)), (i: nat) => Rise(At(b[..n], i) - At(a[..n], i)));
  }

  lemma {:induction false} DistanceIs(a: seq<real>, b: seq<real>)
    requires |a| == |b|
    ensures Distance(a, b) == Bought(a, b) + Bought(b, a) && Sum(b) - Sum(a) == Bought(a, b) - Bought(b, a)
  {
    hide Bought;
    if a == [] {
      NothingBought(a, b);
    } else {
      var n := |a| - 1;
      DistanceIs(a[..n], b[..n]);
      BoughtGrows(a, b);
      BoughtGrows(b, a);
    }
  }

  lemma NothingBought(a: seq<real>, b: seq<real>)
    requires a == [] == b
    ensures Bought(a, b) == 0.0
  {
  }

  /** What is bought between the days `t` and `t + 1`. */
  ghost function BoughtOn(values: seq<seq<Cell>>, valid: seq<seq<bool>>, n: nat, t: nat): real
    requires MaskedDays(values, valid, n)
  {
    if t + 1 < |values| then Bought(Portfolio(values[t], valid[t]), Portfolio(values[t + 1], valid[t + 1])) else 0.0
  }

  lemma PortfolioBalances(values: seq<Cell>, valid: seq<bool>)
    requires Masked(values, valid)
    ensures Sum(Portfolio(values, valid)) == 0.0
  {
    hide Portfolio;
    hide Sum;
    hide Added;
    PortfolioLaw(values, valid);
  }

  /** Half the distance is what is bought, and what is sold. */
  lemma StepLaw(values: seq<seq<Cell>>, valid: seq<seq<bool>>, n: nat, t: nat)
    requires MaskedDays(values, valid, n) && t + 1 < |values|
    ensures var a, b := Portfolio(values[t], valid[t]), Portfolio(values[t + 1], valid[t + 1]);
            Distance(a, b) / 2.0 == BoughtOn(values, valid, n, t) == Bought(b, a)
  {
    hide Portfolio;
    hide Bought;
    hide Distance;
    hide Sum;
    PortfolioBalances(values[t], valid[t]);
    PortfolioBalances(values[t + 1], valid[t + 1]);
    DistanceIs(Portfolio(values[t], valid[t]), Portfolio(values[t + 1], valid[t + 1]));
  }

  // ------------------------------------------------------------------ the turnover

  lemma {:induction false} StepsAdded(values: seq<seq<Cell>>, valid: seq<seq<bool>>, n: nat, m: nat)
    requires MaskedDays(values, valid, n) && (m == 0 || m < |values|)
    ensures Sum(Steps(values, valid, n, m)) == Added(m, (t: nat) => BoughtOn(values, valid, n, t))
  {
    hide Portfolio;
    hide Distance;
    hide BoughtOn;
    if m > 0 {
      StepsAdded(values, valid, n, m - 1);
      StepLaw(values, valid, n, m - 1);
      var front := Steps(values, valid, n, m - 1);
      assert Steps(values, valid, n, m)[..m - 1] == front;
    }
  }

  /** The turnover times the number of steps is what is bought over all of them. */
  lemma TurnoverLaw(values: seq<seq<Cell>>, valid: seq<seq<bool>>, n: nat)
    requires MaskedDays(values, valid, n)
    ensures var x := TurnoverOf(values, valid, n);
            if |values| < 2 then x == 1.0
            else Product(x, (|values| - 1) as real) == Added(|values| - 1, (t: nat) => BoughtOn(values, valid, n, t))
  {
    hide Steps;
    hide Sum;
    hide BoughtOn;
    if |values| >= 2 {
      StepsAdded(values, valid, n, |values| - 1);
      QuotientLaw(Sum(Steps(values, valid, n, |values| - 1)), (|values| - 1) as real);
    }
  }

  lemma {:induction false} AddedConstant(n: nat, f: nat -> real, x: real)
    requires forall i :: 0 <= i < n ==> f(i) == x
    ensures Added(n, f) == Product(x, n as real)
  {
    if n > 0 {
      AddedConstant(n - 1, f, x);
    }
  }

  lemma ProductCancels(x: real, y: real, k: real)
    requires k > 0.0 && Product(x, k) == Product(y, k)
    ensures x == y
  {
    ProductIsZero(x - y, k);
  }

  /** If every step buys the same, the turnover is what one step buys, for every number of days from two on. */
  lemma ConstantTurnover(values: seq<seq<Cell>>, valid: seq<seq<bool>>, n: nat, x: real)
    requires MaskedDays(values, valid, n) && |values| >= 2
    requires forall t :: 0 <= t < |values| - 1 ==> BoughtOn(values, valid, n, t) == x
    ensures TurnoverOf(values, valid, n) == x
  {
    hide TurnoverOf;
    hide BoughtOn;
    hide Product;
    TurnoverLaw(values, valid, n);
    AddedConstant(|values| - 1, (t: nat) => BoughtOn(values, valid, n, t), x);
    ProductCancels(TurnoverOf(values, valid, n), x, (|values| - 1) as real);
  }

  lemma {:induction false} NothingToBuy(a: seq<real>)
    ensures Bought(a, a) == 0.0
  {
    if a != [] {
      BoughtGrows(a, a);
      NothingToBuy(a[..|a| - 1]);
    }
  }

  function Opposite(a: seq<real>): (r: seq<real>)
    ensures |r| == |a|
  {
    seq(|a|, i requires 0 <= i < |a| => -a[i])
  }

  lemma {:induction false} BoughtToSwap(a: seq<real>)
    ensures Bought(a, Opposite(a)) + Bought(Opposite(a), a) == 2.0 * Norm(a)
  {
    hide Bought;
    if a == [] {
      NothingBought(a, Opposite(a));
    } else {
      var n := |a| - 1;
      assert Opposite(a)[..n] == Opposite(a[..n]);
      BoughtToSwap(a[..n]);
      BoughtGrows(a, Opposite(a));
      BoughtGrows(Opposite(a), a);
    }
  }

  /** Portfolios that never change have turnover zero. */
  lemma UnchangedTurnover(values: seq<seq<Cell>>, valid: seq<seq<bool>>, n: nat)
    requires MaskedDays(values, valid, n) && |values| >= 2
    requires forall t :: 0 < t < |values| ==> Portfolio(values[t], valid[t]) == Portfolio(values[0], valid[0])
    ensures TurnoverOf(values, valid, n) == 0.0
  {
    hide TurnoverOf;
    hide Portfolio;
    hide Bought;
    NothingToBuy(Portfolio(values[0], valid[0]));
    ConstantTurnover(values, valid, n, 0.0);
  }

  /** Portfolios that swap sides every day have turnover one. */
  lemma SwappedTurnover(values: seq<seq<Cell>>, valid: seq<seq<bool>>, n: nat)
    requires MaskedDays(values, valid, n) && |values| >= 2
    requires forall t :: 0 <= t < |values| - 1 ==>
               && !Flat(Positions(values[t], valid[t]))
               && Portfolio(values[t + 1], valid[t + 1]) == Opposite(Portfolio(values[t], valid[t]))
    ensures TurnoverOf(values, valid, n) == 1.0
  {
    hide TurnoverOf;
    hide Portfolio;
    hide Positions;
    hide Flat;
    hide Added;
    forall t | 0 <= t < |values| - 1 ensures BoughtOn(values, valid, n, t) == 1.0 {
      var a := Portfolio(values[t], valid[t]);
      assert !Flat(Positions(values[t], valid[t]));
      PortfolioLaw(values[t], valid[t]);
      NormIsAdded(a);
      BoughtToSwap(a);
      StepLaw(values, valid, n, t);
    }
    ConstantTurnover(values, valid, n, 1.0);
  }

  lemma {:induction false} AddedJoin(m: nat, k: nat, f: nat -> real, g: nat -> real)
    requires forall i: nat :: i < k ==> f(m + i) == g(i)
    ensures Added(m + k, f) == Added(m, f) + Added(k, g)
  {
    if k > 0 {
      AddedJoin(m, k - 1, f, g);
      assert f(m + (k - 1)) == g(k - 1);
    }
  }

  /** Two histories joined at a day they share have the average turnover, weighted by their numbers of steps. */
  lemma JoinedTurnover(values: seq<seq<Cell>>, valid: seq<seq<bool>>, n: nat, day: nat)
    requires MaskedDays(values, valid, n) && 0 < day < |values| - 1
    ensures var m, k := day as real, (|values| - 1 - day) as real;
            && MaskedDays(values[..day + 1], valid[..day + 1], n) && MaskedDays(values[day..], valid[day..], n)
            && Product(TurnoverOf(values, valid, n), m + k)
               == Product(TurnoverOf(values[..day + 1], valid[..day + 1], n), m)
                  + Product(TurnoverOf(values[day..], valid[day..], n), k)
  {
    hide TurnoverOf;
    hide Portfolio;
    hide Product;
    hide Bought;
    var a, av, b, bv := values[..day + 1], valid[..day + 1], values[day..], valid[day..];
    TurnoverLaw(values, valid, n);
    TurnoverLaw(a, av, n);
    TurnoverLaw(b, bv, n);
    var f := (t: nat) => BoughtOn(values, valid, n, t);
    AddedAlike(day, f, (t: nat) => BoughtOn(a, av, n, t));
    AddedJoin(day, |b| - 1, f, (t: nat) => BoughtOn(b, bv, n, t));
  }

  // ------------------------------------------------------------------ scaling and shifting a day

  ghost predicate Affine(p: seq<real>, q: seq<real>, k: real, d: real) {
    |p| == |q| && forall i :: 0 <= i < |p| ==> q[i] == Product(k, p[i]) + d
  }

  lemma {:induction false} AffineSum(p: seq<real>, q: seq<real>, k: real, d: real)
    requires Affine(p, q, k, d)
    ensures Sum(q) == Product(k, Sum(p)) + Product(|p| as real, d)
  {
    if p != [] {
      AffineSum(p[..|p| - 1], q[..|q| - 1], k, d);
    }
  }

  lemma AffineMean(sum: real, k: real, d: real, n: real)
    requires n > 0.0
    ensures (Product(k, sum) + Product(n, d)) / n == Product(k, sum / n) + d
  {
    assert k * sum / n == k * (sum / n);
    assert n * d / n == d;
  }

  lemma AffineDemeaned(p: seq<real>, q: seq<real>, k: real, d: real)
    requires Affine(p, q, k, d)
    ensures Affine(Demeaned(p), Demeaned(q), k, 0.0)
  {
    hide Sum;
    if p != [] {
      AffineSum(p, q, k, d);
      AffineMean(Sum(p), k, d, |p| as real);
      forall i | 0 <= i < |p| ensures Demeaned(q)[i] == Product(k, Demeaned(p)[i]) {
        assert Product(k, p[i] - Sum(p) / |p| as real) == Product(k, p[i]) - Product(k, Sum(p) / |p| as real);
      }
    }
  }

  lemma AbsScaled(x: real, k: real)
    requires k > 0.0
    ensures AbsOf(Product(k, x)) == Product(k, AbsOf(x))
  {
  }

  lemma {:induction false} NormScaled(p: seq<real>, q: seq<real>, k: real)
    requires Affine(p, q, k, 0.0) && k > 0.0
    ensures Norm(q) == Product(k, Norm(p))
  {
    hide AbsOf;
    if p != [] {
      var n := |p| - 1;
      NormScaled(p[..n], q[..n], k);
      AbsScaled(p[n], k);
    }
  }

  lemma RatioScaled(x: real, scale: real, k: real)
    requires scale > 0.0 && k > 0.0
    ensures Product(k, scale) > 0.0 && Ratio(Product(k, x), Product(k, scale)) == Ratio(x, scale)
  {
  }

  lemma NormalisedAlike(p: seq<real>, q: seq<real>, k: real)
    requires Affine(p, q, k, 0.0) && k > 0.0
    ensures Normalised(q) == Normalised(p)
  {
    hide Norm;
    hide Ratio;
    NormScaled(p, q, k);
    if Norm(p) > 0.0 {
      RatioScaled(0.0, Norm(p), k);
      forall i | 0 <= i < |p| ensures Normalised(q)[i] == Normalised(p)[i] {
        RatioScaled(p[i], Norm(p), k);
      }
    } else {
      assert Product(k, 0.0) == 0.0;
    }
  }

  /** The valid values of `moved` are `k` times those of `values`, plus `d`. */
  ghost predicate Moved(values: seq<Cell>, moved: seq<Cell>, valid: seq<bool>, k: real, d: real) {
    && Masked(values, valid) && Masked(moved, valid)
    && forall i :: 0 <= i < |valid| && valid[i] ==> moved[i].value == Product(k, values[i].value) + d
  }

  ghost predicate AllOrNone(valid: seq<bool>) {
    forall i, j :: 0 <= i < |valid| && 0 <= j < |valid| ==> valid[i] == valid[j]
  }

  /**
   * A positive factor on the valid values of a day changes nothing, and neither does a shift of them when all
   * symbols are valid, or none.
   */
  lemma MovedPortfolio(values: seq<Cell>, moved: seq<Cell>, valid: seq<bool>, k: real, d: real)
    requires Moved(values, moved, valid, k, d) && k > 0.0 && (d == 0.0 || AllOrNone(valid))
    ensures Portfolio(moved, valid) == Portfolio(values, valid)
  {
    var p, q := Positions(values, valid), Positions(moved, valid);
    var shift := if valid != [] && valid[0] then d else 0.0;
    assert Product(k, 0.0) == 0.0;
    if d == 0.0 {
      assert Affine(p, q, k, 0.0);
      AffineDemeaned(p, q, k, 0.0);
    } else {
      assert Affine(p, q, k, shift);
      AffineDemeaned(p, q, k, shift);
    }
    NormalisedAlike(Demeaned(p), Demeaned(q), k);
  }

  function Constant(n: nat, x: real): (c: seq<Cell>)
    ensures |c| == n
  {
    seq(n, _ => Some(x))
  }

  /**
   * The mean runs over all symbols, the invalid ones at position zero. So a shift of the valid values changes
   * nothing for every factor if and only if all symbols of the day are valid, or none.
   */
  lemma ShiftMakesNoDifferenceIff(valid: seq<bool>)
    ensures AllOrNone(valid)
       <==> forall values: seq<Cell>, moved: seq<Cell>, d: real :: Moved(values, moved, valid, 1.0, d) ==>
              Portfolio(moved, valid) == Portfolio(values, valid)
  {
    hide Portfolio;
    if AllOrNone(valid) {
      forall values: seq<Cell>, moved: seq<Cell>, d: real | Moved(values, moved, valid, 1.0, d)
        ensures Portfolio(moved, valid) == Portfolio(values, valid)
      {
        MovedPortfolio(values, moved, valid, 1.0, d);
      }
    } else {
      var values, moved := Constant(|valid|, 0.0), Constant(|valid|, 1.0);
      assert Moved(values, moved, valid, 1.0, 1.0);
      var i: nat, j: nat :| i < |valid| && j < |valid| && valid[i] && !valid[j];
      assert Positions(moved, valid)[i] != Positions(moved, valid)[j];
      assert Flat(Positions(values, valid));
      hide Added;
      PortfolioLaw(values, valid);
      PortfolioLaw(moved, valid);
    }
  }

  lemma {:induction false} SameSteps(values: seq<seq<Cell>>, moved: seq<seq<Cell>>, valid: seq<seq<bool>>, n: nat,
                                     m: nat)
    requires MaskedDays(values, valid, n) && MaskedDays(moved, valid, n) && (m == 0 || m < |values|)
    requires forall t :: 0 <= t < |values| ==> Portfolio(moved[t], valid[t]) == Portfolio(values[t], valid[t])
    ensures Steps(moved, valid, n, m) == Steps(values, valid, n, m)
  {
    hide Portfolio;
    if m > 0 {
      SameSteps(values, moved, valid, n, m - 1);
    }
  }

  /** So the turnover stays, whatever positive factors the days have, and whatever shifts the full ones. */
  lemma MovedTurnover(values: seq<seq<Cell>>, moved: seq<seq<Cell>>, valid: seq<seq<bool>>, n: nat, k: seq<real>,
                      d: seq<real>)
    requires MaskedDays(values, valid, n) && MaskedDays(moved, valid, n) && |k| == |d| == |values|
    requires forall t :: 0 <= t < |values| ==> Moved(values[t], moved[t], valid[t], k[t], d[t]) && k[t] > 0.0
    requires forall t :: 0 <= t < |values| ==> d[t] == 0.0 || AllOrNone(valid[t])
    ensures TurnoverOf(moved, valid, n) == TurnoverOf(values, valid, n)
  {
    hide Portfolio;
    hide Steps;
    hide Moved;
    hide AllOrNone;
    forall t | 0 <= t < |values| ensures Portfolio(moved[t], valid[t]) == Portfolio(values[t], valid[t]) {
      MovedPortfolio(values[t], moved[t], valid[t], k[t], d[t]);
    }
    SameSteps(values, moved, valid, n, if values == [] then 0 else |values| - 1);
  }

  // ------------------------------------------------------------------ the participation

  ghost function ValidValue(values: seq<Cell>, valid: seq<bool>, i: nat): real
    requires Masked(values, valid)
  {
    if i < |valid| && valid[i] then AbsOf(values[i].value) else 0.0
  }

  ghost function ValidAmount(valid: seq<bool>, amounts: seq<Cell>, i: nat): real
    requires |valid| == |amounts|
  {
    if i < |valid| && valid[i] && amounts[i].Some? then amounts[i].value else 0.0
  }

  lemma {:induction false} AvailableIs(valid: seq<bool>, amounts: seq<Cell>)
    requires |valid| == |amounts|
    ensures Available(valid, amounts) == Added(|valid|, (i: nat) => ValidAmount(valid, amounts, i))
  {
    if valid != [] {
      var n := |valid| - 1;
      AvailableIs(valid[..n], amounts[..n]);
      AddedAlike(n, (i: nat) => ValidAmount(valid[..n], amounts[..n], i), (i: nat) => ValidAmount(valid, amounts, i));
    }
  }

  lemma NormIs(values: seq<Cell>, valid: seq<bool>)
    requires Masked(values, valid)
    ensures Norm(Positions(values, valid)) == Added(|valid|, (i: nat) => ValidValue(values, valid, i))
  {
    var p := Positions(values, valid);
    NormIsAdded(p);
    AddedAlike(|p|, (i: nat) => AbsOf(At(p, i)), (i: nat) => ValidValue(values, valid, i));
  }

  function AmountAt(amounts: seq<Cell>, i: nat): real {
    if i < |amounts| then Amount(amounts[i]) else 0.0
  }

  lemma ShareTimes(x: real, scale: real, amount: Cell)
    requires scale > 0.0
    ensures Product(Share(x, scale, amount), scale) == Product(AbsOf(x), Amount(amount))
  {
    var w, a := AbsOf(x) / scale, Amount(amount);
    QuotientLaw(AbsOf(x), scale);
    assert w * a * scale == w * scale * a;
  }

  lemma {:induction false} TradedTimes(p: seq<real>, amounts: seq<Cell>, scale: real)
    requires |p| == |amounts| && scale > 0.0
    ensures Product(Traded(p, amounts, scale), scale)
            == Added(|p|, (i: nat) => Product(AbsOf(At(p, i)), AmountAt(amounts, i)))
  {
    hide Share;
    hide AbsOf;
    hide Amount;
    if p != [] {
      var n := |p| - 1;
      TradedTimes(p[..n], amounts[..n], scale);
      ShareTimes(p[n], scale, amounts[n]);
      AddedAlike(n, (i: nat) => Product(AbsOf(At(p[..n], i)), AmountAt(amounts[..n], i)),
                 (i: nat) => Product(AbsOf(At(p, i)), AmountAt(amounts, i)));
    }
  }

  /** Weights given by the absolute values of the valid symbols, times their amounts. */
  ghost function WeightedValue(values: seq<Cell>, valid: seq<bool>, amounts: seq<Cell>, i: nat): real
    requires Masked(values, valid) && |amounts| == |valid|
  {
    Product(ValidValue(values, valid, i), ValidAmount(valid, amounts, i))
  }

  /**
   * The rate of a day is the weighted mean amount of its valid symbols as a share of what is available in them;
   * it is zero when nothing is available or no value differs from zero.
   */
  lemma RateLaw(values: seq<Cell>, valid: seq<bool>, amounts: seq<Cell>)
    requires Masked(values, valid) && |amounts| == |values|
    ensures var rate := Rate(values, valid, amounts);
            var norm := Added(|valid|, (i: nat) => ValidValue(values, valid, i));
            var available := Added(|valid|, (i: nat) => ValidAmount(valid, amounts, i));
            if available > 0.0 && norm > 0.0 then
              Product(Product(rate, available), norm)
              == Added(|valid|, (i: nat) => WeightedValue(values, valid, amounts, i))
            else rate == 0.0
  {
    hide Traded;
    hide Available;
    hide Norm;
    hide Added;
    var p := Positions(values, valid);
    NormIs(values, valid);
    AvailableIs(valid, amounts);
    var available := Available(valid, amounts);
    if available > 0.0 {
      QuotientLaw(Traded(p, amounts, Norm(p)), available);
      if Norm(p) > 0.0 {
        TradedTimes(p, amounts, Norm(p));
        forall i: nat | i < |p|
          ensures Product(AbsOf(At(p, i)), AmountAt(amounts, i)) == WeightedValue(values, valid, amounts, i)
        {
          assert Product(0.0, AmountAt(amounts, i)) == 0.0 == Product(0.0, 0.0);
        }
        AddedAlike(|p|, (i: nat) => Product(AbsOf(At(p, i)), AmountAt(amounts, i)),
                   (i: nat) => WeightedValue(values, valid, amounts, i));
      } else {
        NothingTraded(p, amounts);
        NothingShared(available);
      }
    }
  }

  lemma {:induction false} NothingTraded(p: seq<real>, amounts: seq<Cell>)
    requires |p| == |amounts|
    ensures Traded(p, amounts, 0.0) == 0.0
  {
    if p != [] {
      NothingTraded(p[..|p| - 1], amounts[..|p| - 1]);
      assert Weight(p[|p| - 1], 0.0) == 0.0;
    }
  }

  ghost function RateOn(values: seq<seq<Cell>>, valid: seq<seq<bool>>, amounts: seq<seq<Cell>>, n: nat, t: nat): real
    requires MaskedDays(values, valid, n) && MaskedAmounts(values, amounts, n)
  {
    if t < |values| then Rate(values[t], valid[t], amounts[t]) else 0.0
  }

  lemma RatesAdded(values: seq<seq<Cell>>, valid: seq<seq<bool>>, amounts: seq<seq<Cell>>, n: nat)
    requires MaskedDays(values, valid, n) && MaskedAmounts(values, amounts, n)
    ensures Sum(Rates(values, valid, amounts, n)) == Added(|values|, (t: nat) => RateOn(values, valid, amounts, n, t))
  {
    hide Rate;
    var rates := Rates(values, valid, amounts, n);
    SumIsAdded(rates);
    AddedAlike(|values|, (t: nat) => At(rates, t), (t: nat) => RateOn(values, valid, amounts, n, t));
  }

  /** The participation times the number of days is the turnover times the sum of the rates. */
  lemma ParticipationLaw(values: seq<seq<Cell>>, valid: seq<seq<bool>>, amounts: seq<seq<Cell>>, turnover: real, n: nat)
    requires MaskedDays(values, valid, n) && MaskedAmounts(values, amounts, n)
    ensures ParticipationOf(values, valid, None, turnover, n) == 0.0
    ensures var x := ParticipationOf(values, valid, Some(amounts), turnover, n);
            if values == [] then x == 0.0
            else Product(x, |values| as real)
                 == Product(Added(|values|, (t: nat) => RateOn(values, valid, amounts, n, t)), turnover)
  {
    hide Rates;
    hide RateOn;
    hide Sum;
    hide Added;
    hide ParticipationOf;
    ParticipationTimes(values, valid, amounts, turnover, n);
    if values != [] {
      RatesAdded(values, valid, amounts, n);
    }
  }

  lemma ParticipationTimes(values: seq<seq<Cell>>, valid: seq<seq<bool>>, amounts: seq<seq<Cell>>, turnover: real,
                           n: nat)
    requires MaskedDays(values, valid, n) && MaskedAmounts(values, amounts, n)
    ensures ParticipationOf(values, valid, None, turnover, n) == 0.0
    ensures var x := ParticipationOf(values, valid, Some(amounts), turnover, n);
            if values == [] then x == 0.0
            else Product(x, |values| as real) == Product(Sum(Rates(values, valid, amounts, n)), turnover)
  {
    hide Rates;
    hide Sum;
    if values != [] {
      MeanTimesTurnover(Sum(Rates(values, valid, amounts, n)), |values| as real, turnover);
    }
  }

  lemma MeanTimesTurnover(sum: real, m: real, turnover: real)
    requires m > 0.0
    ensures Product(sum / m * turnover, m) == Product(sum, turnover)
  {
    var mean := sum / m;
    QuotientLaw(sum, m);
    assert mean * turnover * m == mean * m * turnover;
  }

  /** If every day has the same rate, the participation is that rate times the turnover. */
  lemma ConstantParticipation(values: seq<seq<Cell>>, valid: seq<seq<bool>>, amounts: seq<seq<Cell>>, turnover: real,
                              n: nat, rate: real)
    requires MaskedDays(values, valid, n) && MaskedAmounts(values, amounts, n) && values != []
    requires forall t :: 0 <= t < |values| ==> Rate(values[t], valid[t], amounts[t]) == rate
    ensures ParticipationOf(values, valid, Some(amounts), turnover, n) == Product(rate, turnover)
  {
    hide ParticipationOf;
    hide Rate;
    var m := |values| as real;
    ParticipationLaw(values, valid, amounts, turnover, n);
    AddedConstant(|values|, (t: nat) => RateOn(values, valid, amounts, n, t), rate);
    assert Product(Product(rate, m), turnover) == Product(Product(rate, turnover), m);
    ProductCancels(ParticipationOf(values, valid, Some(amounts), turnover, n), Product(rate, turnover), m);
  }

  /** At one turnover, two histories joined have the average participation, weighted by their numbers of days. */
  lemma JoinedParticipation(values: seq<seq<Cell>>, valid: seq<seq<bool>>, amounts: seq<seq<Cell>>, turnover: real,
                            n: nat, day: nat)
    requires MaskedDays(values, valid, n) && MaskedAmounts(values, amounts, n) && 0 < day < |values|
    ensures var m, k := day as real, (|values| - day) as real;
            && MaskedDays(values[..day], valid[..day], n) && MaskedAmounts(values[..day], amounts[..day], n)
            && MaskedDays(values[day..], valid[day..], n) && MaskedAmounts(values[day..], amounts[day..], n)
            && Product(ParticipationOf(values, valid, Some(amounts), turnover, n), m + k)
               == Product(ParticipationOf(values[..day], valid[..day], Some(amounts[..day]), turnover, n), m)
                  + Product(ParticipationOf(values[day..], valid[day..], Some(amounts[day..]), turnover, n), k)
  {
    hide ParticipationOf;
    hide Rate;
    var f := (t: nat) => RateOn(values, valid, amounts, n, t);
    var g := (t: nat) => RateOn(values[..day], valid[..day], amounts[..day], n, t);
    var h := (t: nat) => RateOn(values[day..], valid[day..], amounts[day..], n, t);
    ParticipationLaw(values, valid, amounts, turnover, n);
    ParticipationLaw(values[..day], valid[..day], amounts[..day], turnover, n);
    ParticipationLaw(values[day..], valid[day..], amounts[day..], turnover, n);
    AddedAlike(day, f, g);
    AddedJoin(day, |values| - day, f, h);
    ProductOfSum(Added(day, g), Added(|values| - day, h), turnover);
  }

  lemma ProductOfSum(x: real, y: real, k: real)
    ensures Product(x + y, k) == Product(x, k) + Product(y, k)
  {
  }

  // ------------------------------------------------------------------ the hit rates

  ghost function Hits(hits: seq<bool>): set<nat> {
    set i: nat | i < |hits| && hits[i]
  }

  lemma {:induction false} CountTrueIs(hits: seq<bool>)
    ensures CountTrue(hits) == |Hits(hits)|
  {
    if hits == [] {
      assert Hits(hits) == {};
    } else {
      var n := |hits| - 1;
      CountTrueIs(hits[..n]);
      if hits[n] {
        assert Hits(hits) == Hits(hits[..n]) + {n};
      } else {
        assert Hits(hits) == Hits(hits[..n]);
      }
    }
  }

  /** The hit rate times the number of places is the number of hits; it is one when there are no places. */
  lemma HitRateLaw(hits: seq<bool>)
    ensures if hits == [] then HitRate(hits) == 1.0
            else Product(HitRate(hits), |hits| as real) == |Hits(hits)| as real
  {
    CountTrueIs(hits);
    if hits != [] {
      QuotientLaw(CountTrue(hits) as real, |hits| as real);
    }
  }
}
