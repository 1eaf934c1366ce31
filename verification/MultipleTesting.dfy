/**
 * Bonferroni, Holm and Benjamini-Hochberg adjustments in exact arithmetic.
 *
 * Each adjusted value has a reference definition that mentions no sort order; the array code is
 * proved to compute it, and the statistical laws are proved about the reference.
 */
module MultipleTesting {
  import opened Wrappers
  import opened Sequences
  import opened Sorting

  datatype Adjustment = Adjustment(adjusted: seq<real>, rejected: seq<bool>, anyRejected: bool)

  predicate ValidPValues(p: seq<real>) {
    forall i :: 0 <= i < |p| ==> 0.0 <= p[i] <= 1.0
  }

  // ------------------------------------------------------------------ reference definitions

  /** `x * n / c` */
  function Scaled(x: real, n: nat, c: nat): real
    requires c > 0
  {
    x * n as real / c as real
  }

  lemma ScaledMonotone(x: real, y: real, n: nat, c: nat)
    requires x <= y && c > 0
    ensures Scaled(x, n, c) <= Scaled(y, n, c)
  {
    assert x * n as real <= y * n as real;
  }

  lemma ScaledAntitone(x: real, n: nat, c: nat, d: nat)
    requires 0.0 <= x && 0 < c <= d
    ensures Scaled(x, n, d) <= Scaled(x, n, c)
  {
    var q := Scaled(x, n, d);
    assert q * d as real == x * n as real;
    assert q >= 0.0;
    assert q * c as real <= q * d as real;
  }

  /** The threshold of the step-up rule: the `k`-th smallest of `n` p-values is at most `k * alpha / n`. */
  predicate Passes(x: real, n: nat, k: nat, alpha: real) {
    x * n as real <= k as real * alpha
  }

  lemma ScaledLe(x: real, n: nat, c: nat, alpha: real)
    requires c > 0
    ensures Scaled(x, n, c) <= alpha <==> Passes(x, n, c, alpha)
  {
    var q := Scaled(x, n, c);
    assert q * c as real == x * n as real;
    if q <= alpha { assert q * c as real <= alpha * c as real; } else { assert q * c as real > alpha * c as real; }
  }

  lemma ScaledSelf(x: real, n: nat)
    requires n > 0
    ensures Scaled(x, n, n) == x
  {
  }

  /** The bound that hypothesis `j` offers to every hypothesis with a p-value at most its own. */
  function BhTerm(p: seq<real>, j: nat): real
    requires j < |p|
  {
    CountAtLeastOne(p, j);
    Scaled(p[j], |p|, CountLe(p, p[j]))
  }

  lemma {:induction false} CountAtLeastOne(p: seq<real>, j: nat)
    requires j < |p|
    ensures CountLe(p, p[j]) >= 1
    ensures CountLt(p, p[j]) < CountLe(p, p[j])
  {
    var front, last := p[..|p| - 1], p[|p| - 1];
    if j < |p| - 1 {
      CountAtLeastOne(front, j);
    } else {
      LtWithinLe(front, last);
    }
  }

  lemma {:induction false} LtWithinLe(p: seq<real>, x: real)
    ensures CountLt(p, x) <= CountLe(p, x)
  {
    if p != [] {
      LtWithinLe(p[..|p| - 1], x);
    }
  }

  /** `a` is the smallest term among the hypotheses with a p-value at least that of `i`. */
  ghost predicate IsBh(p: seq<real>, i: nat, a: real)
    requires i < |p|
  {
    && (forall j :: 0 <= j < |p| && p[j] >= p[i] ==> a <= BhTerm(p, j))
    && (exists j :: 0 <= j < |p| && p[j] >= p[i] && a == BhTerm(p, j))
  }

  /** `min(x * (n - m), 1)` */
  function Stepped(x: real, n: nat, m: nat): real {
    Min1(x * (n - m) as real)
  }

  lemma SteppedAntitone(x: real, n: nat, m: nat, l: nat)
    requires 0.0 <= x && m <= l
    ensures Stepped(x, n, l) <= Stepped(x, n, m)
  {
    assert x * (n - l) as real <= x * (n - m) as real;
  }

  lemma SteppedMonotone(x: real, y: real, n: nat, m: nat)
    requires x <= y && m <= n
    ensures Stepped(x, n, m) <= Stepped(y, n, m)
  {
    var factor := (n - m) as real;
    assert factor >= 0.0;
    assert (y - x) * factor >= 0.0;
    assert x * factor <= y * factor;
    assert Stepped(x, n, m) == Min1(x * factor) && Stepped(y, n, m) == Min1(y * factor);
  }

  /** The threshold of the step-down rule. */
  predicate StepPasses(x: real, n: nat, m: nat, alpha: real) {
    x * (n - m) as real <= alpha
  }

  lemma SteppedBelow(x: real, n: nat, m: nat, alpha: real)
    ensures Stepped(x, n, m) <= 1.0
    ensures alpha < 1.0 ==> (Stepped(x, n, m) <= alpha <==> StepPasses(x, n, m, alpha))
  {
  }

  function HolmTerm(p: seq<real>, j: nat): real
    requires j < |p|
  {
    Stepped(p[j], |p|, CountLt(p, p[j]))
  }

  /** `a` is the largest term among the hypotheses with a p-value at most that of `i`. */
  ghost predicate IsHolm(p: seq<real>, i: nat, a: real)
    requires i < |p|
  {
    && (forall j :: 0 <= j < |p| && p[j] <= p[i] ==> HolmTerm(p, j) <= a)
    && (exists j :: 0 <= j < |p| && p[j] <= p[i] && a == HolmTerm(p, j))
  }

  function Min1(x: real): real {
    if x <= 1.0 then x else 1.0
  }

  // ------------------------------------------------------------------ the array code

  /** The running minimum from the right of `ordered * count / rank`. */
  function SuffixMin(s: seq<real>, k: nat): real
    requires k < |s|
    decreases |s| - k
  {
    var term := Scaled(s[k], |s|, k + 1);
    if k + 1 == |s| then term
    else
      var rest := SuffixMin(s, k + 1);
      if term <= rest then term else rest
  }

  lemma {:induction false} SuffixMinIsMin(s: seq<real>, k: nat) returns (m: nat)
    requires k < |s|
    ensures k <= m < |s| && SuffixMin(s, k) == Scaled(s[m], |s|, m + 1)
    ensures forall j :: k <= j < |s| ==> SuffixMin(s, k) <= Scaled(s[j], |s|, j + 1)
    decreases |s| - k
  {
    hide Scaled;
    m := k;
    if k + 1 < |s| {
      var later := SuffixMinIsMin(s, k + 1);
      if SuffixMin(s, k) != Scaled(s[k], |s|, k + 1) {
        m := later;
      }
    }
  }

  function PrefixMax(s: seq<real>, k: nat): real
    requires k < |s|
  {
    var term := Stepped(s[k], |s|, k);
    if k == 0 then term
    else
      var before := PrefixMax(s, k - 1);
      if term <= before then before else term
  }

  lemma {:induction false} PrefixMaxIsMax(s: seq<real>, k: nat) returns (m: nat)
    requires k < |s|
    ensures m <= k && PrefixMax(s, k) == Stepped(s[m], |s|, m)
    ensures forall j :: 0 <= j <= k ==> Stepped(s[j], |s|, j) <= PrefixMax(s, k)
  {
    hide Stepped;
    m := k;
    if k > 0 {
      var earlier := PrefixMaxIsMax(s, k - 1);
      if PrefixMax(s, k) != Stepped(s[k], |s|, k) {
        m := earlier;
      }
    }
  }

  /** The sorted value at the last place of the ties of `j`. */
  lemma LastTie(p: seq<real>, j: nat) returns (m: nat)
    requires j < |p|
    ensures m == CountLe(p, p[j]) - 1 && m < |p| && Gather(p, Argsort(p))[m] == p[j]
  {
    CountAtLeastOne(p, j);
    m := CountLe(p, p[j]) - 1;
    var s := Gather(p, Argsort(p));
    ArgsortSorts(p);
    assert p[..|p|] == p;
    OrderCounts(p, |p|, p[j]);
    SortedPrefix(s, p[j]);
    var k := PositionOf(p, j);
    RankBounds(p, k);
  }

  /** The sorted value at the first place of the ties of `j`. */
  lemma FirstTie(p: seq<real>, j: nat) returns (m: nat)
    requires j < |p|
    ensures m == CountLt(p, p[j]) && m < |p| && Gather(p, Argsort(p))[m] == p[j]
  {
    CountAtLeastOne(p, j);
    m := CountLt(p, p[j]);
    var s := Gather(p, Argsort(p));
    ArgsortSorts(p);
    assert p[..|p|] == p;
    OrderCounts(p, |p|, p[j]);
    SortedPrefix(s, p[j]);
    var k := PositionOf(p, j);
    RankBounds(p, k);
  }

  lemma {:induction false} CountMonotone(p: seq<real>, x: real, y: real)
    requires x <= y
    ensures CountLe(p, x) <= CountLe(p, y) && CountLt(p, x) <= CountLt(p, y)
  {
    if p != [] {
      CountMonotone(p[..|p| - 1], x, y);
    }
  }

  lemma SuffixMinIsBh(p: seq<real>, k: nat)
    requires ValidPValues(p) && k < |p|
    ensures IsBh(p, Argsort(p)[k], SuffixMin(Gather(p, Argsort(p)), k))
  {
    hide Scaled;
    var order := Argsort(p);
    var s, i := Gather(p, order), order[k];
    var m := SuffixMinIsMin(s, k);
    ArgsortSorts(p);
    forall j | 0 <= j < |p| && p[j] >= p[i] ensures SuffixMin(s, k) <= BhTerm(p, j) {
      var last := LastTie(p, j);
      RankBounds(p, k);
      CountMonotone(p, p[i], p[j]);
      assert k <= last;
    }
    var j := order[m];
    assert s[k] <= s[m];
    RankBounds(p, m);
    ScaledAntitone(s[m], |p|, m + 1, CountLe(p, p[j]));
    assert BhTerm(p, j) <= SuffixMin(s, k);
  }

  lemma PrefixMaxIsHolm(p: seq<real>, k: nat)
    requires ValidPValues(p) && k < |p|
    ensures IsHolm(p, Argsort(p)[k], PrefixMax(Gather(p, Argsort(p)), k))
  {
    hide Stepped;
    var order := Argsort(p);
    var s, i := Gather(p, order), order[k];
    var m := PrefixMaxIsMax(s, k);
    ArgsortSorts(p);
    forall j | 0 <= j < |p| && p[j] <= p[i] ensures HolmTerm(p, j) <= PrefixMax(s, k) {
      var first := FirstTie(p, j);
      RankBounds(p, k);
      CountMonotone(p, p[j], p[i]);
      assert first <= k;
    }
    assert s[m] <= s[k];
    RankBounds(p, m);
    SteppedAntitone(s[m], |p|, CountLt(p, s[m]), m);
    assert PrefixMax(s, k) <= HolmTerm(p, order[m]);
  }

  /** Both references are defined for every hypothesis of every family. */
  lemma AdjustmentsExist(p: seq<real>, i: nat) returns (bh: real, holm: real)
    requires ValidPValues(p) && i < |p|
    ensures IsBh(p, i, bh) && IsHolm(p, i, holm)
  {
    hide IsBh;
    hide IsHolm;
    hide Argsort;
    var k := PositionOf(p, i);
    bh, holm := SuffixMin(Gather(p, Argsort(p)), k), PrefixMax(Gather(p, Argsort(p)), k);
    SuffixMinIsBh(p, k);
    PrefixMaxIsHolm(p, k);
  }

  /** `benjamini_hochberg`: sort, accumulate the minimum from the right, cap at one, scatter back. */
  method BenjaminiHochberg(p: seq<real>, alpha: real) returns (r: Option<Adjustment>)
    ensures r.Some? <==> ValidPValues(p)
    ensures r.Some? ==>
              && |r.value.adjusted| == |r.value.rejected| == |p|
              && (forall i :: 0 <= i < |p| ==> IsBh(p, i, r.value.adjusted[i]))
              && (forall i :: 0 <= i < |p| ==> r.value.rejected[i] == (r.value.adjusted[i] <= alpha))
              && (r.value.anyRejected <==> true in r.value.rejected)
  {
    hide Scaled;
    hide IsBh;
    hide Argsort;
    if !ValidPValues(p) {
      return None;
    }
    var n := |p|;
    var order := Argsort(p);
    var ordered := Gather(p, order);
    var expanded := new real[n](_ => 0.0);
    var running := 1.0;
    ArgsortSorts(p);
    for k := n downto 0
      invariant k < n ==> running == SuffixMin(ordered, k)
      invariant forall m :: k <= m < n ==> IsBh(p, order[m], expanded[order[m]])
    {
      var term := Scaled(ordered[k], n, k + 1);
      running := if k == n - 1 || term <= running then term else running;
      SuffixMinIsBh(p, k);
      BhAtMostOne(p, order[k], running);
      expanded[order[k]] := if running <= 1.0 then running else 1.0;
    }
    var adjusted := expanded[..];
    forall i | 0 <= i < n ensures IsBh(p, i, adjusted[i]) {
      var k := PositionOf(p, i);
      assert IsBh(p, order[k], expanded[order[k]]);
    }
    var rejected := seq(n, i requires 0 <= i < n => adjusted[i] <= alpha);
    return Some(Adjustment(adjusted, rejected, true in rejected));
  }

  /** `holm`: sort, cap, accumulate the maximum from the left, scatter back. */
  method Holm(p: seq<real>, alpha: real) returns (r: Option<Adjustment>)
    ensures r.Some? <==> ValidPValues(p)
    ensures r.Some? ==>
              && |r.value.adjusted| == |r.value.rejected| == |p|
              && (forall i :: 0 <= i < |p| ==> IsHolm(p, i, r.value.adjusted[i]))
              && (forall i :: 0 <= i < |p| ==> r.value.rejected[i] == (r.value.adjusted[i] <= alpha))
              && (r.value.anyRejected <==> true in r.value.rejected)
  {
    hide Stepped;
    hide IsHolm;
    hide Argsort;
    if !ValidPValues(p) {
      return None;
    }
    var n := |p|;
    var order := Argsort(p);
    var ordered := Gather(p, order);
    var expanded := new real[n](_ => 0.0);
    var running := 0.0;
    ArgsortSorts(p);
    for k := 0 to n
      invariant k > 0 ==> running == PrefixMax(ordered, k - 1)
      invariant forall m :: 0 <= m < k ==> IsHolm(p, order[m], expanded[order[m]])
    {
      var term := Stepped(ordered[k], n, k);
      running := if k == 0 || running < term then term else running;
      PrefixMaxIsHolm(p, k);
      expanded[order[k]] := running;
    }
    var adjusted := expanded[..];
    forall i | 0 <= i < n ensures IsHolm(p, i, adjusted[i]) {
      var k := PositionOf(p, i);
      assert IsHolm(p, order[k], expanded[order[k]]);
    }
    var rejected := seq(n, i requires 0 <= i < n => adjusted[i] <= alpha);
    return Some(Adjustment(adjusted, rejected, true in rejected));
  }

  function BonferroniValue(p: seq<real>, i: nat): real
    requires i < |p|
  {
    Stepped(p[i], |p|, 0)
  }

  // ------------------------------------------------------------------ laws

  /** The cap at one never acts: the largest p-value is itself a term. */
  lemma BhAtMostOne(p: seq<real>, i: nat, a: real)
    requires ValidPValues(p) && i < |p| && IsBh(p, i, a)
    ensures p[i] <= a <= 1.0
  {
    hide Scaled;
    var top := LargestIndex(p);
    CountAll(p, p[top]);
    ScaledSelf(p[top], |p|);
    assert a <= BhTerm(p, top);
    var j :| 0 <= j < |p| && p[j] >= p[i] && a == BhTerm(p, j);
    CountAtLeastOne(p, j);
    ScaledAntitone(p[j], |p|, CountLe(p, p[j]), |p|);
    ScaledSelf(p[j], |p|);
  }

  lemma {:induction false} LargestIndex(p: seq<real>) returns (top: nat)
    requires p != []
    ensures top < |p| && forall i :: 0 <= i < |p| ==> p[i] <= p[top]
  {
    if |p| == 1 {
      top := 0;
    } else {
      top := LargestIndex(p[..|p| - 1]);
      if p[top] < p[|p| - 1] {
        top := |p| - 1;
      }
    }
  }

  lemma {:induction false} CountAll(p: seq<real>, x: real)
    requires forall i :: 0 <= i < |p| ==> p[i] <= x
    ensures CountLe(p, x) == |p|
  {
    if p != [] {
      CountAll(p[..|p| - 1], x);
    }
  }

  lemma {:induction false} LowerValuesCountMore(p: seq<real>, q: seq<real>, x: real)
    requires |p| == |q| && forall i :: 0 <= i < |p| ==> q[i] <= p[i]
    ensures CountLe(p, x) <= CountLe(q, x)
  {
    if p != [] {
      LowerValuesCountMore(p[..|p| - 1], q[..|q| - 1], x);
    }
  }

  /** The largest element that does not exceed `x` is counted like `x` itself. */
  lemma {:induction false} LargestBelow(q: seq<real>, x: real) returns (j: nat)
    requires CountLe(q, x) >= 1
    ensures j < |q| && q[j] <= x
    ensures forall i :: 0 <= i < |q| && q[i] <= x ==> q[i] <= q[j]
    ensures CountLe(q, q[j]) == CountLe(q, x)
  {
    var front, last := q[..|q| - 1], q[|q| - 1];
    if CountLe(front, x) >= 1 {
      j := LargestBelow(front, x);
      if q[j] < last <= x {
        j := |q| - 1;
      }
    } else {
      j := |q| - 1;
      forall i | 0 <= i < |front| ensures q[i] > x {
        if front[i] <= x {
          CountAtLeastOne(front, i);
          CountMonotone(front, front[i], x);
        }
      }
    }
    SameCount(q, q[j], x);
  }

  lemma {:induction false} SameCount(q: seq<real>, y: real, x: real)
    requires y <= x && forall i :: 0 <= i < |q| && q[i] <= x ==> q[i] <= y
    ensures CountLe(q, y) == CountLe(q, x)
  {
    if q != [] {
      SameCount(q[..|q| - 1], y, x);
    }
  }

  /**
   * Monotonicity. Lowering p-values lowers every adjusted value, so no hypothesis that was rejected is
   * un-rejected, however much the order of the p-values changes.
   */
  lemma BhIsMonotone(p: seq<real>, q: seq<real>, i: nat, a: real, b: real)
    requires ValidPValues(p) && ValidPValues(q) && |p| == |q| && i < |p|
    requires forall k :: 0 <= k < |p| ==> q[k] <= p[k]
    requires IsBh(p, i, a) && IsBh(q, i, b)
    ensures b <= a
  {
    hide Scaled;
    var j :| 0 <= j < |p| && p[j] >= p[i] && a == BhTerm(p, j);
    var x := p[j];
    CountAtLeastOne(p, j);
    LowerValuesCountMore(p, q, x);
    var k := LargestBelow(q, x);
    assert q[i] <= q[k];
    ScaledAntitone(x, |p|, CountLe(p, x), CountLe(q, x));
    ScaledMonotone(q[k], x, |p|, CountLe(q, x));
    assert b <= BhTerm(q, k);
  }

  /**
   * Permutation-equivariance. Rearranging the p-values rearranges the adjusted values with them, and
   * equal p-values get equal adjusted values, however the sort breaks ties.
   */
  lemma BhIgnoresOrder(p: seq<real>, q: seq<real>, i: nat, k: nat, a: real, b: real)
    requires multiset(p) == multiset(q) && i < |p| && k < |q| && p[i] == q[k]
    requires IsBh(p, i, a) && IsBh(q, k, b)
    ensures a == b
  {
    BhLowerBound(p, q, i, k, a, b);
    BhLowerBound(q, p, k, i, b, a);
  }

  lemma BhLowerBound(p: seq<real>, q: seq<real>, i: nat, k: nat, a: real, b: real)
    requires multiset(p) == multiset(q) && i < |p| && k < |q| && p[i] == q[k]
    requires IsBh(p, i, a) && IsBh(q, k, b)
    ensures a <= b
  {
    hide Scaled;
    var l :| 0 <= l < |q| && q[l] >= q[k] && b == BhTerm(q, l);
    SameLength(p, q);
    assert q[l] in multiset(p);
    var j :| 0 <= j < |p| && p[j] == q[l];
    CountsIgnoreOrder(p, q, q[l]);
    assert a <= BhTerm(p, j);
  }

  /** Does the `k`-th smallest value (from 1) pass its threshold? */
  predicate PassesAt(s: seq<real>, alpha: real, k: nat)
    requires 0 < k <= |s|
  {
    Passes(s[k - 1], |s|, k, alpha)
  }

  /** The largest `k` with `p_(k) <= k * alpha / n`, or 0. */
  function StepUp(s: seq<real>, alpha: real, k: nat): (top: nat)
    requires k <= |s|
    ensures top <= k
    ensures top > 0 ==> PassesAt(s, alpha, top)
    ensures forall m :: top < m <= k ==> !PassesAt(s, alpha, m)
  {
    if k == 0 then 0 else if PassesAt(s, alpha, k) then k else StepUp(s, alpha, k - 1)
  }

  /**
   * Refinement of the step-up rule: the hypothesis at sorted position `k` (from 0) is rejected exactly
   * when its rank is at most the step-up count.
   */
  lemma BhIsStepUp(p: seq<real>, alpha: real, k: nat, a: real)
    requires ValidPValues(p) && k < |p| && IsBh(p, Argsort(p)[k], a)
    ensures var s := Gather(p, Argsort(p)); a <= alpha <==> k + 1 <= StepUp(s, alpha, |s|)
  {
    hide Scaled;
    hide Passes;
    var order := Argsort(p);
    var s, i := Gather(p, order), order[k];
    ArgsortSorts(p);
    SuffixMinIsBh(p, k);
    assert a == SuffixMin(s, k);
    var m := SuffixMinIsMin(s, k);
    ScaledLe(s[m], |s|, m + 1, alpha);
    var top := StepUp(s, alpha, |s|);
    assert PassesAt(s, alpha, m + 1) ==> m + 1 <= top;
    if k + 1 <= top {
      var j := top - 1;
      assert SuffixMin(s, k) <= Scaled(s[j], |s|, j + 1);
      ScaledLe(s[j], |s|, top, alpha);
    }
  }

  /** Below one, Holm rejects exactly when every hypothesis up to this p-value passes its own threshold. */
  lemma HolmIsStepDown(p: seq<real>, alpha: real, i: nat, a: real)
    requires i < |p| && IsHolm(p, i, a) && alpha < 1.0
    ensures a <= alpha <==>
              forall j :: 0 <= j < |p| && p[j] <= p[i] ==> StepPasses(p[j], |p|, CountLt(p, p[j]), alpha)
  {
    hide Stepped;
    hide StepPasses;
    if a <= alpha {
      forall j | 0 <= j < |p| && p[j] <= p[i] ensures StepPasses(p[j], |p|, CountLt(p, p[j]), alpha) {
        assert HolmTerm(p, j) <= a;
        SteppedBelow(p[j], |p|, CountLt(p, p[j]), alpha);
      }
    } else {
      var j :| 0 <= j < |p| && p[j] <= p[i] && a == HolmTerm(p, j);
      SteppedBelow(p[j], |p|, CountLt(p, p[j]), alpha);
    }
  }

  lemma RankProduct(n: int, m: int)
    requires 0 <= m < n
    ensures n as real <= (m + 1) as real * (n - m) as real
  {
    var a, b := m as real, (n - m - 1) as real;
    assert a * b >= 0.0;
    var c := b + 1.0;
    assert a * c == a * b + a;
    assert (a + 1.0) * c == a * c + c;
  }

  lemma ProductBound(x: real, a: real, b: real, c: real, h: real)
    requires 0.0 <= x && 0.0 <= c && a <= c * b && x * b <= h
    ensures x * a <= h * c
  {
    var ab, xb := c * b, x * b;
    assert x * a <= x * ab;
    assert x * ab == c * xb;
    assert c * xb <= c * h;
  }

  lemma RankInequality(n: int, m: int, x: real, h: real)
    requires 0 <= m < n && x * (n - m) as real <= h && 0.0 <= x
    ensures x * n as real <= h * (m + 1) as real
  {
    RankProduct(n, m);
    ProductBound(x, n as real, (n - m) as real, (m + 1) as real, h);
  }

  /** Raw value, Benjamini-Hochberg, Holm and Bonferroni are ordered, so their rejection sets nest. */
  lemma AdjustmentsAreOrdered(p: seq<real>, i: nat, bh: real, holm: real)
    requires ValidPValues(p) && i < |p| && IsBh(p, i, bh) && IsHolm(p, i, holm)
    ensures p[i] <= bh <= holm <= BonferroniValue(p, i) <= 1.0
  {
    BhAtMostOne(p, i, bh);
    BhBelowHolm(p, i, bh, holm);
    HolmBelowBonferroni(p, i, holm);
  }

  lemma BhBelowHolm(p: seq<real>, i: nat, bh: real, holm: real)
    requires ValidPValues(p) && i < |p| && IsBh(p, i, bh) && IsHolm(p, i, holm)
    ensures bh <= holm
  {
    hide Scaled;
    hide Stepped;
    BhAtMostOne(p, i, bh);
    CountAtLeastOne(p, i);
    assert HolmTerm(p, i) <= holm && bh <= BhTerm(p, i);
    ScaledBelowStepped(p[i], |p|, CountLt(p, p[i]), CountLe(p, p[i]), bh);
  }

  lemma ScaledBelowStepped(x: real, n: nat, m: nat, c: nat, bh: real)
    requires 0.0 <= x && 0 <= m < c <= n && bh <= 1.0 && bh <= Scaled(x, n, c)
    ensures bh <= Stepped(x, n, m)
  {
    if x * (n - m) as real <= 1.0 {
      var h := x * (n - m) as real;
      ScaledAntitone(x, n, m + 1, c);
      RankInequality(n, m, x, h);
      ScaledLe(x, n, m + 1, h);
    }
  }

  lemma HolmBelowBonferroni(p: seq<real>, i: nat, holm: real)
    requires ValidPValues(p) && i < |p| && IsHolm(p, i, holm)
    ensures holm <= BonferroniValue(p, i) <= 1.0
  {
    hide Stepped;
    var j :| 0 <= j < |p| && p[j] <= p[i] && holm == HolmTerm(p, j);
    SteppedAntitone(p[j], |p|, 0, CountLt(p, p[j]));
    SteppedMonotone(p[j], p[i], |p|, 0);
    SteppedBelow(p[i], |p|, 0, 1.0);
  }
}
