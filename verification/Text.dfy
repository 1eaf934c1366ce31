/** Python's string order, `str.strip` blankness, and `sorted(items, key=...)`. */
module Text {

  /** The code points that `str.strip` removes. */
  predicate IsSpace(c: char) {
    || '\t' <= c <= '\r'
    || '\U{001C}' <= c <= ' '
    || c in {'\U{0085}', '\U{00A0}', '\U{1680}', '\U{2028}', '\U{2029}', '\U{202F}', '\U{205F}', '\U{3000}'}
    || '\U{2000}' <= c <= '\U{200A}'
  }

  /** `not value.strip()` */
  predicate Blank(s: string) {
    forall i :: 0 <= i < |s| ==> IsSpace(s[i])
  }

  /** Lexicographic `a <= b`. */
  predicate Leq(a: string, b: string) {
    if a == [] then true
    else if b == [] then false
    else if a[0] != b[0] then a[0] < b[0]
    else Leq(a[1..], b[1..])
  }

  lemma {:induction false} LeqTotal(a: string, b: string)
    ensures Leq(a, b) || Leq(b, a)
  {
    if a != [] && b != [] && a[0] == b[0] {
      LeqTotal(a[1..], b[1..]);
    }
  }

  lemma {:induction false} LeqAntisymmetric(a: string, b: string)
    requires Leq(a, b) && Leq(b, a)
    ensures a == b
  {
    if a != [] && b != [] {
      LeqAntisymmetric(a[1..], b[1..]);
      assert a == [a[0]] + a[1..] && b == [b[0]] + b[1..];
    }
  }

  lemma {:induction false} LeqTransitive(a: string, b: string, c: string)
    requires Leq(a, b) && Leq(b, c)
    ensures Leq(a, c)
  {
    if a != [] && b != [] && c != [] && a[0] == b[0] == c[0] {
      LeqTransitive(a[1..], b[1..], c[1..]);
    }
  }

  ghost predicate DistinctKeys<T>(s: seq<T>, key: T -> string) {
    forall i, j :: 0 <= i < j < |s| ==> key(s[i]) != key(s[j])
  }

  ghost predicate SortedByKey<T>(s: seq<T>, key: T -> string) {
    forall i, j :: 0 <= i <= j < |s| ==> Leq(key(s[i]), key(s[j]))
  }

  function Insert<T>(x: T, s: seq<T>, key: T -> string): (r: seq<T>)
    ensures multiset(r) == multiset(s) + multiset{x}
  {
    if s == [] then [x]
    else if Leq(key(x), key(s[0])) then [x] + s
    else
      assert s == [s[0]] + s[1..];
      [s[0]] + Insert(x, s[1..], key)
  }

  /** `sorted(s, key=key)` */
  function Sorted<T>(s: seq<T>, key: T -> string): (r: seq<T>)
    ensures multiset(r) == multiset(s)
    ensures |r| == |s|
  {
    if s == [] then []
    else
      assert s == [s[0]] + s[1..];
      var r := Insert(s[0], Sorted(s[1..], key), key);
      assert |multiset(r)| == |r| && |multiset(s)| == |s|;
      r
  }

  lemma {:induction false} InsertSorted<T>(x: T, s: seq<T>, key: T -> string)
    requires SortedByKey(s, key)
    ensures SortedByKey(Insert(x, s, key), key)
  {
    LeqTotal(key(x), key(x));
    if s == [] {
    } else if Leq(key(x), key(s[0])) {
      var r := [x] + s;
      forall i, j | 0 <= i <= j < |r| ensures Leq(key(r[i]), key(r[j])) {
        if i == 0 && 0 < j {
          LeqTransitive(key(x), key(s[0]), key(s[j - 1]));
        }
      }
    } else {
      LeqTotal(key(x), key(s[0]));
      InsertSorted(x, s[1..], key);
      var tail := Insert(x, s[1..], key);
      var r := [s[0]] + tail;
      forall i, j | 0 <= i <= j < |r| ensures Leq(key(r[i]), key(r[j])) {
        if i == 0 && 0 < j {
          assert tail[j - 1] in multiset(tail);
          assert tail[j - 1] == x || tail[j - 1] in s[1..];
        } else if i == 0 {
          LeqTotal(key(s[0]), key(s[0]));
        }
      }
    }
  }

  lemma {:induction false} SortedIsSorted<T>(s: seq<T>, key: T -> string)
    ensures SortedByKey(Sorted(s, key), key)
  {
    if s != [] {
      SortedIsSorted(s[1..], key);
      InsertSorted(s[0], Sorted(s[1..], key), key);
    }
  }

  /** The smallest row is the same in both arrangements. */
  lemma HeadsAgree<T>(s: seq<T>, t: seq<T>, key: T -> string)
    requires multiset(s) == multiset(t) && DistinctKeys(s, key)
    requires SortedByKey(s, key) && SortedByKey(t, key)
    requires s != [] && t != []
    ensures s[0] == t[0]
  {
    assert s[0] in multiset(t) && t[0] in multiset(s);
    var i :| 0 <= i < |t| && t[i] == s[0];
    var j :| 0 <= j < |s| && s[j] == t[0];
    assert Leq(key(t[0]), key(t[i])) && Leq(key(s[0]), key(s[j]));
    LeqAntisymmetric(key(s[0]), key(t[0]));
  }

  lemma TailMultiset<T>(s: seq<T>)
    requires s != []
    ensures multiset(s[1..]) == multiset(s) - multiset{s[0]}
  {
    assert s == [s[0]] + s[1..];
  }

  lemma TailKeeps<T>(s: seq<T>, key: T -> string)
    requires s != []
    ensures SortedByKey(s, key) ==> SortedByKey(s[1..], key)
    ensures DistinctKeys(s, key) ==> DistinctKeys(s[1..], key)
  {
    hide Leq;
  }

  /** A sorted arrangement of rows with distinct keys is unique. */
  lemma {:induction false} SortedUnique<T>(s: seq<T>, t: seq<T>, key: T -> string)
    requires multiset(s) == multiset(t) && DistinctKeys(s, key)
    requires SortedByKey(s, key) && SortedByKey(t, key)
    ensures s == t
    decreases |s|
  {
    hide SortedByKey;
    hide DistinctKeys;
    assert |multiset(s)| == |s| && |multiset(t)| == |t|;
    if s != [] {
      HeadsAgree(s, t, key);
      TailKeeps(s, key);
      TailKeeps(t, key);
      TailMultiset(s);
      TailMultiset(t);
      SortedUnique(s[1..], t[1..], key);
      assert s == [s[0]] + s[1..] && t == [t[0]] + t[1..];
    }
  }

  lemma {:induction false} InsertDistinct<T>(x: T, s: seq<T>, key: T -> string)
    requires DistinctKeys(s, key) && forall y :: y in s ==> key(y) != key(x)
    ensures DistinctKeys(Insert(x, s, key), key)
  {
    if s != [] && !Leq(key(x), key(s[0])) {
      InsertDistinct(x, s[1..], key);
      var tail := Insert(x, s[1..], key);
      forall y | y in tail ensures key(y) != key(s[0]) {
        assert y in multiset(tail);
      }
    }
  }

  lemma {:induction false} SortedKeepsDistinct<T>(s: seq<T>, key: T -> string)
    requires DistinctKeys(s, key)
    ensures DistinctKeys(Sorted(s, key), key)
  {
    if s != [] {
      SortedKeepsDistinct(s[1..], key);
      forall y | y in Sorted(s[1..], key) ensures key(y) != key(s[0]) {
        assert y in multiset(Sorted(s[1..], key));
      }
      InsertDistinct(s[0], Sorted(s[1..], key), key);
    }
  }

  /** `sorted` forgets the order of its input when the keys are distinct. */
  lemma SortedForgetsOrder<T>(s: seq<T>, t: seq<T>, key: T -> string)
    requires multiset(s) == multiset(t) && DistinctKeys(s, key)
    ensures Sorted(s, key) == Sorted(t, key)
  {
    SortedIsSorted(s, key);
    SortedIsSorted(t, key);
    SortedKeepsDistinct(s, key);
    SortedUnique(Sorted(s, key), Sorted(t, key), key);
  }
}
