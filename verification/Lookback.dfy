/** What the look-back analysis promises about the programs the stack machine runs. */
module Lookback {
  import opened Wrappers
  import opened Vocab
  import opened Ops
  import opened StackVM

  ghost predicate HasFeatures(rpn: seq<Token>, features: Features) {
    forall i :: 0 <= i < |rpn| && rpn[i].Feat? ==> rpn[i].feature in features
  }

  /** Analysis and execution succeed together and keep stacks of the same height. */
  lemma {:induction false} SameHeight(k: Kernel, rpn: seq<Token>, features: Features, days: nat, n: nat)
    requires ShapedFeatures(features, days, n) && HasFeatures(rpn, features)
    ensures Looks(rpn).Some? <==> Exec(k, rpn, features, days, n).Some?
    ensures Looks(rpn).Some? ==> |Looks(rpn).value| == |Exec(k, rpn, features, days, n).value|
  {
    hide Apply;
    if rpn != [] {
      SameHeight(k, rpn[..|rpn| - 1], features, days, n);
    }
  }

  /** The analysis accepts exactly the programs on which the machine never underflows and ends with one panel. */
  lemma AcceptedIffRuns(k: Kernel, rpn: seq<Token>, features: Features, days: nat, n: nat)
    requires ShapedFeatures(features, days, n) && HasFeatures(rpn, features)
    ensures Lookback(rpn).Some? <==> Value(k, rpn, features, days, n).Some?
  {
    SameHeight(k, rpn, features, days, n);
  }

  // ------------------------------------------------------------------ exactness

  /** The days `a` up to `b` of every feature. */
  function Slice(features: Features, a: nat, b: nat, days: nat, n: nat): (r: Features)
    requires ShapedFeatures(features, days, n) && a <= b <= days
    ensures ShapedFeatures(r, b - a, n) && r.Keys == features.Keys
  {
    map f | f in features :: features[f][a..b]
  }

  /** A panel and its counterpart on the slice agree from the look-back on. */
  ghost predicate Agree(full: Panel, cut: Panel, a: nat, b: nat, look: nat) {
    && b <= |full| && a <= b && |cut| == b - a
    && forall u :: a + look <= u + 1 && a <= u < b ==> full[u] == cut[u - a]
  }

  ghost predicate StacksAgree(full: seq<Panel>, cut: seq<Panel>, a: nat, b: nat, looks: seq<nat>) {
    && |full| == |cut| == |looks|
    && forall j :: 0 <= j < |looks| ==> looks[j] >= 1 && Agree(full[j], cut[j], a, b, looks[j])
  }

  /** One operator at one day sees the same window in the full panels and in the slice. */
  lemma SameWindow(full: seq<Panel>, cut: seq<Panel>, a: nat, b: nat, days: nat, n: nat, looks: seq<nat>, u: nat,
                   reach: nat)
    requires a <= b <= days && Windows(full, days, n) && Windows(cut, b - a, n)
    requires StacksAgree(full, cut, a, b, looks)
    requires a + Largest(looks) + reach <= u + 1 && u < b && a + reach <= u
    ensures Recent(full, u, reach, days, n) == Recent(cut, u - a, reach, b - a, n)
  {
    if looks != [] {
      LargestBounds(looks);
    }
    var w, v := Recent(full, u, reach, days, n), Recent(cut, u - a, reach, b - a, n);
    forall j | 0 <= j < |full| ensures w[j] == v[j] {
      assert Agree(full[j], cut[j], a, b, looks[j]);
      forall i | 0 <= i < reach + 1 ensures w[j][i] == v[j][i] {
        assert full[j][u - reach + i] == cut[j][u - reach + i - a];
      }
    }
  }

  lemma ApplyAtAgrees(k: Kernel, token: Token, full: seq<Panel>, cut: seq<Panel>, a: nat, b: nat, days: nat, n: nat,
                      looks: seq<nat>, u: nat)
    requires a <= b <= days && Windows(full, days, n) && Windows(cut, b - a, n)
    requires Arity(token) == Some(|looks|) && looks != [] && StacksAgree(full, cut, a, b, looks)
    requires a + Largest(looks) + Reach(token) <= u + 1 && a <= u < b
    ensures Windows(full, days, n) && |full| == |cut| == |looks|
    ensures ApplyAt(k, token, full, u, days, n) == ApplyAt(k, token, cut, u - a, b - a, n)
  {
    hide WindowColumn;
    LargestBounds(looks);
    assert looks[0] >= 1;
    SameWindow(full, cut, a, b, days, n, looks, u, Reach(token));
  }

  lemma AgreeByDays(k: Kernel, token: Token, full: seq<Panel>, cut: seq<Panel>, a: nat, b: nat, days: nat, n: nat,
                    look: nat)
    requires a <= b <= days && Windows(full, days, n) && Windows(cut, b - a, n)
    requires Arity(token) == Some(|full|) && |full| == |cut|
    requires forall u :: a + look <= u + 1 && a <= u < b ==>
               ApplyAt(k, token, full, u, days, n) == ApplyAt(k, token, cut, u - a, b - a, n)
    ensures Agree(Apply(k, token, full, days, n), Apply(k, token, cut, b - a, n), a, b, look)
  {
    hide ApplyAt;
    hide Windows;
    hide Arity;
  }

  lemma ApplyAgrees(k: Kernel, token: Token, full: seq<Panel>, cut: seq<Panel>, a: nat, b: nat, days: nat, n: nat,
                    looks: seq<nat>)
    requires a <= b <= days && Windows(full, days, n) && Windows(cut, b - a, n)
    requires Arity(token) == Some(|looks|) && looks != [] && StacksAgree(full, cut, a, b, looks)
    ensures Agree(Apply(k, token, full, days, n), Apply(k, token, cut, b - a, n), a, b, Largest(looks) + Reach(token))
  {
    var look := Largest(looks) + Reach(token);
    forall u | a + look <= u + 1 && a <= u < b
      ensures ApplyAt(k, token, full, u, days, n) == ApplyAt(k, token, cut, u - a, b - a, n)
    {
      ApplyAtAgrees(k, token, full, cut, a, b, days, n, looks, u);
    }
    AgreeByDays(k, token, full, cut, a, b, days, n, look);
  }

  lemma Heights(full: seq<Panel>, cut: seq<Panel>, a: nat, b: nat, looks: seq<nat>)
    requires StacksAgree(full, cut, a, b, looks)
    ensures |full| == |cut| == |looks|
  {
  }

  /** Replacing the top of two agreeing stacks by agreeing panels. */
  lemma ReplaceTop(full: seq<Panel>, cut: seq<Panel>, a: nat, b: nat, looks: seq<nat>, rest: nat, p: Panel, q: Panel,
                   look: nat)
    requires StacksAgree(full, cut, a, b, looks) && rest <= |looks| && look >= 1 && Agree(p, q, a, b, look)
    ensures StacksAgree(full[..rest] + [p], cut[..rest] + [q], a, b, looks[..rest] + [look])
  {
    hide Agree;
  }

  lemma TopAgrees(full: seq<Panel>, cut: seq<Panel>, a: nat, b: nat, looks: seq<nat>, rest: nat)
    requires StacksAgree(full, cut, a, b, looks) && rest < |looks|
    ensures StacksAgree(full[rest..], cut[rest..], a, b, looks[rest..]) && Largest(looks[rest..]) >= 1
  {
    hide Agree;
    LargestBounds(looks[rest..]);
    assert looks[rest..][0] >= 1;
  }

  /** One token on full features `f` and on features `g` of the days `a` up to `b`; a feature agrees from `depth` on. */
  lemma PushAgrees(k: Kernel, token: Token, f: Features, g: Features, full: seq<Panel>, cut: seq<Panel>, a: nat, b: nat,
                   days: nat, n: nat, looks: seq<nat>, depth: nat)
    requires ShapedFeatures(f, days, n) && a <= b <= days && ShapedFeatures(g, b - a, n)
    requires Windows(full, days, n) && Windows(cut, b - a, n) && StacksAgree(full, cut, a, b, looks)
    requires token.Feat? ==> token.feature in f && token.feature in g && depth >= 1
                             && Agree(f[token.feature], g[token.feature], a, b, depth)
    requires !token.Feat? ==> Look(token, looks).Some?
    ensures Push(k, token, full, f, days, n).Some? && Push(k, token, cut, g, b - a, n).Some?
    ensures StacksAgree(Push(k, token, full, f, days, n).value, Push(k, token, cut, g, b - a, n).value,
                        a, b, if token.Feat? then looks + [depth] else Look(token, looks).value)
  {
    hide Apply;
    hide Arity;
    hide Reach;
    hide Agree;
    hide StacksAgree;
    assert |full| == |cut| == |looks| by { Heights(full, cut, a, b, looks); }
    if token.Feat? {
      ReplaceTop(full, cut, a, b, looks, |looks|, f[token.feature], g[token.feature], depth);
      assert full[..|looks|] == full && cut[..|looks|] == cut && looks[..|looks|] == looks;
    } else {
      ArityPositive(token);
      var rest := |looks| - Arity(token).value;
      var top, bottom, tops := full[rest..], cut[rest..], looks[rest..];
      TopAgrees(full, cut, a, b, looks, rest);
      ApplyAgrees(k, token, top, bottom, a, b, days, n, tops);
      ReplaceTop(full, cut, a, b, looks, rest, Apply(k, token, top, days, n), Apply(k, token, bottom, b - a, n),
                 Largest(tops) + Reach(token));
    }
  }

  lemma ArityPositive(token: Token)
    ensures Arity(token).Some? ==> Arity(token).value > 0
  {
  }

  lemma NothingDisagrees(a: nat, b: nat)
    ensures StacksAgree([], [], a, b, [])
  {
  }

  lemma SliceAgrees(features: Features, a: nat, b: nat, days: nat, n: nat, f: Feature)
    requires ShapedFeatures(features, days, n) && a <= b <= days && f in features
    ensures Agree(features[f], Slice(features, a, b, days, n)[f], a, b, 1)
  {
  }

  lemma {:induction false} ExecAgrees(k: Kernel, rpn: seq<Token>, features: Features, a: nat, b: nat, days: nat, n: nat)
    requires ShapedFeatures(features, days, n) && HasFeatures(rpn, features) && a <= b <= days && Looks(rpn).Some?
    ensures Exec(k, rpn, features, days, n).Some? && Exec(k, rpn, Slice(features, a, b, days, n), b - a, n).Some?
    ensures StacksAgree(Exec(k, rpn, features, days, n).value,
                        Exec(k, rpn, Slice(features, a, b, days, n), b - a, n).value, a, b, Looks(rpn).value)
  {
    hide Push;
    hide Slice;
    hide StacksAgree;
    if rpn == [] {
      NothingDisagrees(a, b);
    } else {
      var front, token := rpn[..|rpn| - 1], rpn[|rpn| - 1];
      var cut := Slice(features, a, b, days, n);
      ExecAgrees(k, front, features, a, b, days, n);
      if token.Feat? {
        SliceAgrees(features, a, b, days, n, token.feature);
      }
      PushAgrees(k, token, features, cut, Exec(k, front, features, days, n).value, Exec(k, front, cut, b - a, n).value,
                 a, b, days, n, Looks(front).value, 1);
    }
  }

  /**
   * Exactness. For a program accepted with look-back `l`, day `t` of the full run is the last day of a run
   * on days `t - l + 1 .. t` alone.
   */
  lemma LookbackIsExact(k: Kernel, rpn: seq<Token>, features: Features, t: nat, days: nat, n: nat)
    requires ShapedFeatures(features, days, n) && HasFeatures(rpn, features) && Lookback(rpn).Some?
    requires Lookback(rpn).value <= t + 1 && t < days
    ensures var l := Lookback(rpn).value;
            var cut := Value(k, rpn, Slice(features, t + 1 - l, t + 1, days, n), l, n);
            cut.Some? && Value(k, rpn, features, days, n).Some?
            && Value(k, rpn, features, days, n).value[t] == cut.value[l - 1]
  {
    hide Exec;
    hide Looks;
    hide Slice;
    var l := Lookback(rpn).value;
    ExecAgrees(k, rpn, features, t + 1 - l, t + 1, days, n);
    var full := Exec(k, rpn, features, days, n).value[0];
    var cut := Exec(k, rpn, Slice(features, t + 1 - l, t + 1, days, n), l, n).value[0];
    assert Agree(full, cut, t + 1 - l, t + 1, Looks(rpn).value[0]);
  }

  // ------------------------------------------------------------------ causality

  ghost predicate SamePast(p: Panel, q: Panel, t: nat) {
    t < |p| && t < |q| && forall u :: 0 <= u <= t ==> p[u] == q[u]
  }

  /** The features two panels have in common agree up to day `t`. */
  ghost predicate SamePastFeatures(f: Features, g: Features, t: nat) {
    f.Keys == g.Keys && forall x :: x in f ==> SamePast(f[x], g[x], t)
  }

  ghost predicate StacksSamePast(s: seq<Panel>, r: seq<Panel>, t: nat) {
    |s| == |r| && forall j :: 0 <= j < |s| ==> SamePast(s[j], r[j], t)
  }

  lemma ApplySamePast(k: Kernel, token: Token, s: seq<Panel>, r: seq<Panel>, t: nat, days: nat, more: nat, n: nat)
    requires Arity(token) == Some(|s|) && Windows(s, days, n) && Windows(r, more, n) && t < days && t < more
    requires StacksSamePast(s, r, t)
    ensures SamePast(Apply(k, token, s, days, n), Apply(k, token, r, more, n), t)
  {
    hide WindowColumn;
    forall u | 0 <= u <= t ensures ApplyAt(k, token, s, u, days, n) == ApplyAt(k, token, r, u, more, n) {
      if u >= Reach(token) {
        var w, v := Recent(s, u, Reach(token), days, n), Recent(r, u, Reach(token), more, n);
        forall j | 0 <= j < |s| ensures w[j] == v[j] {
          assert SamePast(s[j], r[j], t);
        }
        assert w == v;
      }
    }
  }

  lemma PushSamePast(k: Kernel, token: Token, f: Features, g: Features, s: seq<Panel>, r: seq<Panel>, t: nat, days: nat,
                     more: nat, n: nat)
    requires ShapedFeatures(f, days, n) && ShapedFeatures(g, more, n) && Windows(s, days, n) && Windows(r, more, n)
    requires t < days && t < more && SamePastFeatures(f, g, t) && StacksSamePast(s, r, t)
    ensures Push(k, token, s, f, days, n).Some? <==> Push(k, token, r, g, more, n).Some?
    ensures Push(k, token, s, f, days, n).Some? ==>
              StacksSamePast(Push(k, token, s, f, days, n).value, Push(k, token, r, g, more, n).value, t)
  {
    hide Apply;
    if !token.Feat? && Arity(token).Some? && Arity(token).value <= |s| {
      var rest := |s| - Arity(token).value;
      ApplySamePast(k, token, s[rest..], r[rest..], t, days, more, n);
    }
  }

  /** Causality, for every program: equal features up to day `t` leave equal panels up to day `t`. */
  lemma {:induction false} ExecIsCausal(k: Kernel, rpn: seq<Token>, f: Features, g: Features, t: nat, days: nat,
                                        more: nat, n: nat)
    requires ShapedFeatures(f, days, n) && ShapedFeatures(g, more, n) && t < days && t < more
    requires SamePastFeatures(f, g, t)
    ensures Exec(k, rpn, f, days, n).Some? <==> Exec(k, rpn, g, more, n).Some?
    ensures Exec(k, rpn, f, days, n).Some? ==>
              StacksSamePast(Exec(k, rpn, f, days, n).value, Exec(k, rpn, g, more, n).value, t)
  {
    hide Push;
    if rpn != [] {
      var front, token := rpn[..|rpn| - 1], rpn[|rpn| - 1];
      ExecIsCausal(k, front, f, g, t, days, more, n);
      if Exec(k, front, f, days, n).Some? {
        PushSamePast(k, token, f, g, Exec(k, front, f, days, n).value, Exec(k, front, g, more, n).value, t, days, more,
                     n);
      }
    }
  }
}
