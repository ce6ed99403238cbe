/**
 * A stable sort into descending order of a real-valued key: the order
 * a comparator that subtracts the first key from the second produces in a
 * JavaScript engine with a stable sort, and the order the contact listing
 * asks of its store (ties kept in insertion order).
 */
module Sorting {

  predicate SortedDesc<T>(s: seq<T>, key: T -> real) {
    forall i, j :: 0 <= i < j < |s| ==> key(s[i]) >= key(s[j])
  }

  /** The elements of `s` whose key is `v`, in their order in `s`. */
  function WithKey<T>(s: seq<T>, key: T -> real, v: real): seq<T> {
    if s == [] then [] else (if key(s[0]) == v then [s[0]] else []) + WithKey(s[1..], key, v)
  }

  /** Places `x` before the first element whose key does not exceed its own. */
  function Insert<T>(x: T, s: seq<T>, key: T -> real): seq<T> {
    if s == [] || key(s[0]) <= key(x) then [x] + s else [s[0]] + Insert(x, s[1..], key)
  }

  function SortDesc<T>(s: seq<T>, key: T -> real): seq<T> {
    if s == [] then [] else Insert(s[0], SortDesc(s[1..], key), key)
  }

  lemma SortedTail<T>(s: seq<T>, key: T -> real)
    requires s != [] && SortedDesc(s, key)
    ensures SortedDesc(s[1..], key)
  {
    var t := s[1..];
    forall i, j | 0 <= i < j < |t| ensures key(t[i]) >= key(t[j]) {
      assert t[i] == s[i + 1] && t[j] == s[j + 1];
    }
  }

  /** Every key of `s` is at most `bound` when every key in its multiset is. */
  lemma BoundedByMultiset<T>(s: seq<T>, key: T -> real, bound: real, src: seq<T>)
    requires multiset(s) <= multiset(src)
    requires forall k :: 0 <= k < |src| ==> key(src[k]) <= bound
    ensures forall k :: 0 <= k < |s| ==> key(s[k]) <= bound
  {
    forall k | 0 <= k < |s| ensures key(s[k]) <= bound {
      assert s[k] in multiset(s);
      assert s[k] in multiset(src);
      var m :| 0 <= m < |src| && src[m] == s[k];
    }
  }

  /** Insert adds exactly `x`. */
  lemma {:induction false} InsertMultiset<T>(x: T, s: seq<T>, key: T -> real)
    ensures multiset(Insert(x, s, key)) == multiset(s) + multiset{x}
    ensures |Insert(x, s, key)| == |s| + 1
  {
    if s != [] && key(x) < key(s[0]) {
      InsertMultiset(x, s[1..], key);
      assert s == [s[0]] + s[1..];
    }
  }

  /** Insert keeps a descending sequence descending. */
  lemma {:induction false} InsertSorted<T>(x: T, s: seq<T>, key: T -> real)
    requires SortedDesc(s, key)
    ensures SortedDesc(Insert(x, s, key), key)
  {
    if s == [] || key(s[0]) <= key(x) {
      var r := [x] + s;
      assert Insert(x, s, key) == r;
      forall i, j | 0 <= i < j < |r| ensures key(r[i]) >= key(r[j]) {
        assert r[j] == s[j - 1];
        if i > 0 {
          assert r[i] == s[i - 1];
        }
      }
    } else {
      var t := s[1..];
      SortedTail(s, key);
      InsertSorted(x, t, key);
      InsertMultiset(x, t, key);
      var i := Insert(x, t, key);
      assert s == [s[0]] + t;
      InsertSortedCons(s[0], x, t, i, key);
      assert Insert(x, s, key) == [s[0]] + i;
    }
  }

  /** Putting `y` in front keeps `i` descending when no element of `i` has a larger key than `y`. */
  lemma InsertSortedCons<T>(y: T, x: T, t: seq<T>, i: seq<T>, key: T -> real)
    requires SortedDesc([y] + t, key) && SortedDesc(i, key) && key(x) < key(y)
    requires multiset(i) == multiset(t) + multiset{x}
    ensures SortedDesc([y] + i, key)
  {
    var src := [x] + t;
    assert multiset(i) == multiset(src);
    forall k | 0 <= k < |src| ensures key(src[k]) <= key(y) {
      var yt := [y] + t;
      assert yt[0] == y;
      if k > 0 {
        assert src[k] == yt[k];
      }
    }
    BoundedByMultiset(i, key, key(y), src);
    var r := [y] + i;
    forall a, b | 0 <= a < b < |r| ensures key(r[a]) >= key(r[b]) {
      assert r[b] == i[b - 1];
      if a > 0 {
        assert r[a] == i[a - 1];
      }
    }
  }

  /** The sorted sequence is in descending key order and is a permutation of the input. */
  lemma {:induction false} SortDescFacts<T>(s: seq<T>, key: T -> real)
    ensures SortedDesc(SortDesc(s, key), key)
    ensures multiset(SortDesc(s, key)) == multiset(s)
    ensures |SortDesc(s, key)| == |s|
  {
    if s != [] {
      var t := SortDesc(s[1..], key);
      SortDescFacts(s[1..], key);
      InsertSorted(s[0], t, key);
      InsertMultiset(s[0], t, key);
      assert SortDesc(s, key) == Insert(s[0], t, key);
      MultisetCons(s);
    }
  }

  lemma MultisetCons<T>(s: seq<T>)
    requires s != []
    ensures multiset(s) == multiset(s[1..]) + multiset{s[0]}
  {
    assert s == [s[0]] + s[1..];
  }

  lemma WithKeyCons<T>(y: T, t: seq<T>, key: T -> real, v: real)
    ensures WithKey([y] + t, key, v) == (if key(y) == v then [y] else []) + WithKey(t, key, v)
  {
    assert ([y] + t)[0] == y;
    assert ([y] + t)[1..] == t;
  }

  lemma {:induction false} WithKeyInsert<T>(x: T, s: seq<T>, key: T -> real, v: real)
    ensures WithKey(Insert(x, s, key), key, v) == (if key(x) == v then [x] else []) + WithKey(s, key, v)
  {
    if s == [] || key(s[0]) <= key(x) {
      WithKeyCons(x, s, key, v);
    } else {
      var i := Insert(x, s[1..], key);
      assert Insert(x, s, key) == [s[0]] + i;
      WithKeyInsert(x, s[1..], key, v);
      WithKeyCons(s[0], i, key, v);
      WithKeyCons(s[0], s[1..], key, v);
      assert s == [s[0]] + s[1..];
      if key(x) == v {
        assert key(s[0]) != v;
      }
    }
  }

  /** Stability: the elements sharing any one key keep their input order. */
  lemma {:induction false} SortDescStable<T>(s: seq<T>, key: T -> real, v: real)
    ensures WithKey(SortDesc(s, key), key, v) == WithKey(s, key, v)
  {
    if s != [] {
      SortDescStable(s[1..], key, v);
      WithKeyInsert(s[0], SortDesc(s[1..], key), key, v);
    }
  }

  /** An element whose key is strictly the largest comes first. */
  lemma SortDescHead<T>(s: seq<T>, key: T -> real)
    requires s != []
    requires forall j :: 0 < j < |s| ==> key(s[j]) < key(s[0])
    ensures SortDesc(s, key) != [] && SortDesc(s, key)[0] == s[0]
  {
    var t := SortDesc(s[1..], key);
    SortDescFacts(s[1..], key);
    if t != [] {
      assert t[0] in multiset(s[1..]);
      var m :| 0 <= m < |s[1..]| && s[1..][m] == t[0];
      assert s[1..][m] == s[m + 1];
    }
  }
}
