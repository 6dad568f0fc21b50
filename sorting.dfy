/**
 * `Array.prototype.sort` with a comparator, as the scripts use it: the
 * comparator orders two elements by a key (a title under Spanish collation,
 * or a video count), and the sort is stable (ECMAScript 2019 and later).
 * The key order `le` is "a sorts no later than b"; where the scripts compare
 * with `localeCompare`, `le` is an abstract total preorder.
 */
module Sorting {

  /** `le` is total and transitive: what a consistent comparator induces. */
  ghost predicate TotalPreorder<K(!new)>(le: (K, K) -> bool) {
    && (forall a, b :: le(a, b) || le(b, a))
    && (forall a, b, c :: le(a, b) && le(b, c) ==> le(a, c))
  }

  /** Two keys the comparator calls equal (it returns 0 for them). */
  predicate Equivalent<K>(le: (K, K) -> bool, a: K, b: K) {
    le(a, b) && le(b, a)
  }

  predicate SortedBy<T, K>(s: seq<T>, key: T -> K, le: (K, K) -> bool) {
    forall i, j :: 0 <= i < j < |s| ==> le(key(s[i]), key(s[j]))
  }

  /**
   * Puts `x`, which came before every element of `s` in the input, in front
   * of the first element of `s` it sorts no later than.
   */
  function Insert<T, K>(x: T, s: seq<T>, key: T -> K, le: (K, K) -> bool): (r: seq<T>)
    ensures |r| == |s| + 1
    ensures multiset(r) == multiset(s) + multiset{x}
  {
    if s == [] then [x]
    else if le(key(x), key(s[0])) then [x] + s
    else
      assert s == [s[0]] + s[1..];
      [s[0]] + Insert(x, s[1..], key, le)
  }

  /** `s.slice().sort((a, b) => compare(key(a), key(b)))`, stable. */
  function SortBy<T, K>(s: seq<T>, key: T -> K, le: (K, K) -> bool): (r: seq<T>)
    ensures |r| == |s|
    ensures multiset(r) == multiset(s)
  {
    if s == [] then []
    else
      assert s == [s[0]] + s[1..];
      Insert(s[0], SortBy(s[1..], key, le), key, le)
  }

  lemma {:induction false} InsertSorted<T, K(!new)>(x: T, s: seq<T>, key: T -> K, le: (K, K) -> bool)
    requires TotalPreorder(le) && SortedBy(s, key, le)
    ensures SortedBy(Insert(x, s, key, le), key, le)
  {
    if s != [] && !le(key(x), key(s[0])) {
      InsertSorted(x, s[1..], key, le);
      var r := Insert(x, s, key, le);
      var t := Insert(x, s[1..], key, le);
      assert r == [s[0]] + t;
      assert multiset(t) == multiset(s[1..]) + multiset{x};
      forall j | 0 < j < |r|
        ensures le(key(s[0]), key(r[j]))
      {
        assert r[j] == t[j - 1];
        assert t[j - 1] in multiset(t);
        if t[j - 1] == x {
          assert le(key(s[0]), key(x));
        } else {
          assert t[j - 1] in multiset(s[1..]);
          var m :| 0 <= m < |s[1..]| && s[1..][m] == t[j - 1];
          assert s[m + 1] == t[j - 1];
        }
      }
    }
  }

  /** The sort returns its input, reordered, in non-decreasing key order. */
  lemma {:induction false} SortBySorted<T, K(!new)>(s: seq<T>, key: T -> K, le: (K, K) -> bool)
    requires TotalPreorder(le)
    ensures SortedBy(SortBy(s, key, le), key, le)
    ensures multiset(SortBy(s, key, le)) == multiset(s)
  {
    if s != [] {
      SortBySorted(s[1..], key, le);
      InsertSorted(s[0], SortBy(s[1..], key, le), key, le);
    }
  }

  /** The elements of `s` whose key the comparator calls equal to `k`, in order. */
  function Tied<T, K>(s: seq<T>, key: T -> K, le: (K, K) -> bool, k: K): (r: seq<T>)
    ensures |r| <= |s|
  {
    if s == [] then []
    else if Equivalent(le, key(s[0]), k) then [s[0]] + Tied(s[1..], key, le, k)
    else Tied(s[1..], key, le, k)
  }

  lemma {:induction false} TiedAppend<T, K>(a: seq<T>, b: seq<T>, key: T -> K, le: (K, K) -> bool, k: K)
    ensures Tied(a + b, key, le, k) == Tied(a, key, le, k) + Tied(b, key, le, k)
  {
    if a == [] {
      assert a + b == b;
    } else {
      assert (a + b)[1..] == a[1..] + b;
      TiedAppend(a[1..], b, key, le, k);
    }
  }

  lemma {:induction false} InsertTied<T, K(!new)>(x: T, s: seq<T>, key: T -> K, le: (K, K) -> bool, k: K)
    requires TotalPreorder(le)
    ensures Tied(Insert(x, s, key, le), key, le, k) ==
      (if Equivalent(le, key(x), k) then [x] else []) + Tied(s, key, le, k)
  {
    var r := Insert(x, s, key, le);
    if s == [] || le(key(x), key(s[0])) {
      assert r == [x] + s;
      TiedAppend([x], s, key, le, k);
    } else {
      var t := Insert(x, s[1..], key, le);
      assert r == [s[0]] + t;
      TiedAppend([s[0]], t, key, le, k);
      InsertTied(x, s[1..], key, le, k);
      TiedAppend([s[0]], s[1..], key, le, k);
      assert s == [s[0]] + s[1..];
      // s[0] sorts strictly after x, so the two are never tied with the same key
      assert !(Equivalent(le, key(x), k) && Equivalent(le, key(s[0]), k));
    }
  }

  /**
   * Stability: the elements tied with any key keep their input order, so
   * ties are broken by position in the input.
   */
  lemma {:induction false} SortByStable<T, K(!new)>(s: seq<T>, key: T -> K, le: (K, K) -> bool, k: K)
    requires TotalPreorder(le)
    ensures Tied(SortBy(s, key, le), key, le, k) == Tied(s, key, le, k)
  {
    if s != [] {
      SortByStable(s[1..], key, le, k);
      InsertTied(s[0], SortBy(s[1..], key, le), key, le, k);
    }
  }
}
