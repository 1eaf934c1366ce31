/** The stratified, symbol-disjoint training and hold-out split. */
module SymbolSplit {
  import opened Sequences

  function Clamp(ratio: real): (r: real)
    ensures 0.0 <= r <= 0.95
  {
    var low := if ratio > 0.0 then ratio else 0.0;
    if low < 0.95 then low else 0.95
  }

  /** Python's `round`: ties go to the even neighbour. */
  function Rounded(x: real): (n: int)
    ensures x >= 0.0 ==> n >= 0
  {
    var floor := x.Floor;
    var rest := x - floor as real;
    if rest < 0.5 || (rest == 0.5 && floor % 2 == 0) then floor else floor + 1
  }

  /** How many symbols a stratum of `size` symbols gives up; it always keeps one. */
  function Desired(size: nat, ratio: real): (n: nat)
    requires 0.0 <= ratio
    ensures n <= (if size > 0 then size - 1 else 0)
    ensures ratio > 0.0 && size >= 5 ==> n >= 1
    ensures ratio == 0.0 ==> n == 0
  {
    var share := size as real * ratio;
    assert share >= 0.0;
    var rounded := Rounded(share);
    var wanted := if ratio > 0.0 && size >= 5 && rounded < 1 then 1 else rounded;
    var most := if size > 0 then size - 1 else 0;
    if wanted < most then wanted else most
  }

  /** Is `n` an integer nearest to `x`, the even one of two? */
  ghost predicate Nearest(x: real, n: int) {
    -0.5 <= x - n as real <= 0.5 && (x - n as real == 0.5 || x - n as real == -0.5 ==> n % 2 == 0)
  }

  lemma RoundedIsNearest(x: real)
    ensures Nearest(x, Rounded(x)) && forall n: int :: Nearest(x, n) ==> n == Rounded(x)
  {
    forall n: int | Nearest(x, n) ensures n == Rounded(x) {
      assert n == x.Floor || n == x.Floor + 1;
    }
  }

  /** The ratio that is used: the one nearest to what is asked for that lies between 0 and 0.95. */
  lemma ClampIsNearest(ratio: real, other: real)
    requires 0.0 <= other <= 0.95 && other != Clamp(ratio)
    ensures var used := Clamp(ratio);
            if ratio <= used then used - ratio < (if other < ratio then ratio - other else other - ratio)
            else ratio - used < ratio - other
  {
  }

  /**
   * A stratum gives up its share, rounded to the nearest number, if that leaves a symbol; at least one if it has
   * five symbols and anything is held out; and all but one otherwise.
   */
  lemma DesiredLaw(size: nat, ratio: real, n: nat)
    requires 0.0 <= ratio && Nearest(size as real * ratio, n)
    ensures var d := Desired(size, ratio);
            && (n < size && n > 0 ==> d == n)
            && (n >= size ==> d == if size > 0 then size - 1 else 0)
            && (n == 0 ==> d == if ratio > 0.0 && size >= 5 then 1 else 0)
  {
    RoundedIsNearest(size as real * ratio);
  }

  function Flatten(groups: seq<seq<string>>): seq<string> {
    if groups == [] then [] else Flatten(groups[..|groups| - 1]) + groups[|groups| - 1]
  }

  /** The first symbols of every stratum in its hash order. */
  function Drawn(groups: seq<seq<string>>, ratio: real): seq<string>
    requires 0.0 <= ratio
  {
    if groups == [] then []
    else
      var last := groups[|groups| - 1];
      Drawn(groups[..|groups| - 1], ratio) + last[..Desired(|last|, ratio)]
  }

  function Keep(symbols: seq<string>, chosen: set<string>, inside: bool): (r: seq<string>)
    ensures forall x :: x in r <==> x in symbols && (x in chosen) == inside
  {
    if symbols == [] then []
    else
      var front, last := symbols[..|symbols| - 1], symbols[|symbols| - 1];
      assert symbols == front + [last];
      Keep(front, chosen, inside) + if (last in chosen) == inside then [last] else []
  }

  lemma {:induction false} ElementCount(s: seq<string>)
    ensures |Elements(s)| <= |s|
    ensures Distinct(s) ==> |Elements(s)| == |s|
  {
    if s != [] {
      var front, last := s[..|s| - 1], s[|s| - 1];
      ElementCount(front);
      assert Elements(s) == Elements(front) + {last};
    }
  }

  lemma Subset(a: set<string>, b: set<string>)
    requires a <= b
    ensures |a| <= |b|
  {
    assert b == a + (b - a);
  }

  /** Strata that are not empty never give up all their symbols. */
  lemma {:induction false} DrawnIsFewer(groups: seq<seq<string>>, ratio: real)
    requires 0.0 <= ratio && forall i :: 0 <= i < |groups| ==> groups[i] != []
    ensures |Drawn(groups, ratio)| + |groups| <= |Flatten(groups)|
    ensures forall x :: x in Drawn(groups, ratio) ==> x in Flatten(groups)
    ensures ratio == 0.0 ==> Drawn(groups, ratio) == []
  {
    if groups != [] {
      DrawnIsFewer(groups[..|groups| - 1], ratio);
    }
  }

  lemma {:induction false} DrawnFromStrata(groups: seq<seq<string>>, ratio: real, x: string)
    requires 0.0 <= ratio && x in Drawn(groups, ratio)
    ensures x in Flatten(groups)
  {
    if groups != [] {
      var front, last := groups[..|groups| - 1], groups[|groups| - 1];
      if x in Drawn(front, ratio) {
        DrawnFromStrata(front, ratio, x);
      }
    }
  }

  lemma {:induction false} InFlatten(groups: seq<seq<string>>, g: nat, j: nat)
    requires g < |groups| && j < |groups[g]|
    ensures groups[g][j] in Flatten(groups)
  {
    if g < |groups| - 1 {
      InFlatten(groups[..|groups| - 1], g, j);
    }
  }

  lemma DistinctParts(a: seq<string>, b: seq<string>)
    requires Distinct(a + b)
    ensures Distinct(a) && Distinct(b) && forall x :: x in a ==> x !in b
  {
    forall i, j | 0 <= i < j < |a| ensures a[i] != a[j] {
      assert (a + b)[i] == a[i] && (a + b)[j] == a[j];
    }
    forall i, j | 0 <= i < j < |b| ensures b[i] != b[j] {
      assert (a + b)[|a| + i] == b[i] && (a + b)[|a| + j] == b[j];
    }
    forall i, j | 0 <= i < |a| && 0 <= j < |b| ensures a[i] != b[j] {
      assert (a + b)[i] == a[i] && (a + b)[|a| + j] == b[j];
    }
  }

  /** The symbols drawn from a stratum are its first ones, as many as it gives up. */
  lemma {:induction false} DrawnIff(groups: seq<seq<string>>, ratio: real, g: nat, j: nat)
    requires 0.0 <= ratio && Distinct(Flatten(groups)) && g < |groups| && j < |groups[g]|
    ensures groups[g][j] in Drawn(groups, ratio) <==> j < Desired(|groups[g]|, ratio)
  {
    hide Desired;
    var front, last, x := groups[..|groups| - 1], groups[|groups| - 1], groups[g][j];
    DistinctParts(Flatten(front), last);
    if g < |groups| - 1 {
      DrawnIff(front, ratio, g, j);
      InFlatten(front, g, j);
      assert front[g] == groups[g];
    } else {
      if x in Drawn(front, ratio) {
        DrawnFromStrata(front, ratio, x);
      }
      var d := Desired(|last|, ratio);
      if x in last[..d] {
        var i :| 0 <= i < d && last[..d][i] == x;
        assert last[i] == last[j];
      }
      assert j < d ==> last[..d][j] == x;
    }
  }

  /** The hold-out before the two small-sample corrections, and after them. */
  function HoldOut(unique: seq<string>, groups: seq<seq<string>>, smallest: string, ratio: real): seq<string>
    requires 0.0 <= ratio
  {
    var drawn := Drawn(groups, ratio);
    if ratio > 0.0 && |unique| >= 2 && drawn == [] then [smallest] else drawn
  }

  /** `holdout[:-1]` when the hold-out has as many symbols as there are. */
  function Trimmed(holdout: seq<string>, all: nat): seq<string> {
    if |holdout| >= all && holdout != [] then holdout[..|holdout| - 1] else holdout
  }

  /** The strata hold every symbol once, and `smallest` is the symbol with the smallest hash. */
  ghost predicate Stratified(unique: seq<string>, groups: seq<seq<string>>, smallest: string) {
    && Distinct(unique) && multiset(Flatten(groups)) == multiset(unique)
    && (forall i :: 0 <= i < |groups| ==> groups[i] != [])
    && (unique != [] ==> smallest in unique)
  }

  lemma HoldOutIsProper(unique: seq<string>, groups: seq<seq<string>>, smallest: string, ratio: real)
    requires Stratified(unique, groups, smallest) && unique != [] && 0.0 <= ratio
    ensures var h := HoldOut(unique, groups, smallest, ratio);
            |h| < |unique| && (forall x :: x in h ==> x in unique) && (h != [] <==> ratio > 0.0 && |unique| >= 2)
  {
    DrawnIsFewer(groups, ratio);
    assert |multiset(Flatten(groups))| == |Flatten(groups)| && |multiset(unique)| == |unique|;
    var drawn := Drawn(groups, ratio);
    forall x | x in drawn ensures x in unique {
      assert x in multiset(Flatten(groups));
    }
  }

  /**
   * Who is held out: of every stratum the first symbols, as many as it gives up; or the one with the smallest hash
   * if no stratum gives up any, something is asked for and there are two symbols.
   */
  lemma HoldOutLaw(unique: seq<string>, groups: seq<seq<string>>, smallest: string, ratio: real, g: nat, j: nat)
    requires Stratified(unique, groups, smallest) && 0.0 <= ratio && g < |groups| && j < |groups[g]|
    ensures var x, h := groups[g][j], HoldOut(unique, groups, smallest, ratio);
            if forall i :: 0 <= i < |groups| ==> Desired(|groups[i]|, ratio) == 0
            then h == if ratio > 0.0 && |unique| >= 2 then [smallest] else []
            else x in h <==> j < Desired(|groups[g]|, ratio)
  {
    DistinctRearranged(unique, Flatten(groups));
    hide Desired;
    DrawnIff(groups, ratio, g, j);
    if forall i :: 0 <= i < |groups| ==> Desired(|groups[i]|, ratio) == 0 {
      NothingDrawn(groups, ratio);
    } else {
      var i :| 0 <= i < |groups| && Desired(|groups[i]|, ratio) != 0;
      AtMostAll(|groups[i]|, ratio);
      DrawnIff(groups, ratio, i, 0);
    }
  }

  lemma AtMostAll(size: nat, ratio: real)
    requires 0.0 <= ratio && Desired(size, ratio) != 0
    ensures size > 0
  {
  }

  lemma {:induction false} NothingDrawn(groups: seq<seq<string>>, ratio: real)
    requires 0.0 <= ratio && forall i :: 0 <= i < |groups| ==> Desired(|groups[i]|, ratio) == 0
    ensures Drawn(groups, ratio) == []
  {
    hide Desired;
    if groups != [] {
      NothingDrawn(groups[..|groups| - 1], ratio);
    }
  }

  /**
   * `deterministic_symbol_split`: the two sides partition the symbols, training is never empty, and the
   * hold-out is empty exactly when nothing was asked for or there is only one symbol. The source's last
   * guard, for a hold-out that takes every symbol, never acts.
   */
  method Split(unique: seq<string>, groups: seq<seq<string>>, smallest: string, holdoutRatio: real)
    returns (train: seq<string>, holdout: seq<string>)
    requires Stratified(unique, groups, smallest)
    ensures forall x :: x in unique <==> x in train || x in holdout
    ensures forall x :: !(x in train && x in holdout)
    ensures unique != [] ==> train != []
    ensures holdout != [] <==> Clamp(holdoutRatio) > 0.0 && |unique| >= 2
    ensures forall x :: x in holdout <==> unique != [] && x in HoldOut(unique, groups, smallest, Clamp(holdoutRatio))
  {
    if unique == [] {
      return [], [];
    }
    var ratio := Clamp(holdoutRatio);
    var drawn: seq<string> := [];
    for g := 0 to |groups|
      invariant drawn == Drawn(groups[..g], ratio)
    {
      drawn := drawn + groups[g][..Desired(|groups[g]|, ratio)];
      assert groups[..g + 1][..g] == groups[..g];
    }
    assert groups[..|groups|] == groups;
    if ratio > 0.0 && |unique| >= 2 && drawn == [] {
      drawn := [smallest];
    }
    assert drawn == HoldOut(unique, groups, smallest, ratio);
    HoldOutIsProper(unique, groups, smallest, ratio);
    drawn := Trimmed(drawn, |unique|);
    var chosen := Elements(drawn);
    ElementCount(drawn);
    ElementCount(unique);
    train, holdout := Keep(unique, chosen, false), Keep(unique, chosen, true);
    if train == [] {
      forall x | x in Elements(unique) ensures x in chosen {
        assert x in unique && x !in train;
      }
      Subset(Elements(unique), chosen);
    }
    if drawn != [] {
      assert drawn[0] in drawn && drawn[0] in unique && drawn[0] in chosen;
      assert drawn[0] in holdout;
    }
    assert holdout != [] ==> holdout[0] in holdout;
  }
}
