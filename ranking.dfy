/**
 * Stable ranking by a numeric key, highest first: the ordering behind
 * Python's `Counter.most_common(n)`, which lists the n largest counts and
 * keeps elements with equal counts in the order they were first met.
 */
module Ranking {

  /** Keys never increase along `s`. */
  predicate SortedDesc<T>(s: seq<T>, key: T -> int)
  {
    forall i, j :: 0 <= i < j < |s| ==> key(s[i]) >= key(s[j])
  }

  /** The elements of `s` whose key is `k`, in their order in `s`. */
  function WithKey<T>(s: seq<T>, key: T -> int, k: int): seq<T>
  {
    if s == [] then []
    else (if key(s[0]) == k then [s[0]] else []) + WithKey(s[1..], key, k)
  }

  lemma {:induction false} WithKeyAppend<T>(a: seq<T>, b: seq<T>, key: T -> int, k: int)
    ensures WithKey(a + b, key, k) == WithKey(a, key, k) + WithKey(b, key, k)
  {
    if a == [] {
      assert a + b == b;
    } else {
      assert (a + b)[1..] == a[1..] + b;
      WithKeyAppend(a[1..], b, key, k);
    }
  }

  lemma {:induction false} WithKeyBelow<T>(s: seq<T>, key: T -> int, k: int)
    requires forall i :: 0 <= i < |s| ==> key(s[i]) < k
    ensures WithKey(s, key, k) == []
  {
    if s != [] {
      WithKeyBelow(s[1..], key, k);
    }
  }

  /**
   * Inserts `x` into the descending `r` after every element whose key is at
   * least `key(x)`: `x` goes behind the equal keys met before it.
   */
  function Insert<T>(r: seq<T>, x: T, key: T -> int): (res: seq<T>)
    ensures multiset(res) == multiset(r) + multiset{x}
  {
    if r == [] then [x]
    else if key(r[0]) >= key(x) then
      assert r == [r[0]] + r[1..];
      [r[0]] + Insert(r[1..], x, key)
    else
      [x] + r
  }

  lemma {:induction false} InsertBounded<T>(r: seq<T>, x: T, key: T -> int, b: int)
    requires forall i :: 0 <= i < |r| ==> key(r[i]) <= b
    requires key(x) <= b
    ensures forall i :: 0 <= i < |Insert(r, x, key)| ==> key(Insert(r, x, key)[i]) <= b
  {
    if r != [] && key(r[0]) >= key(x) {
      InsertBounded(r[1..], x, key, b);
    }
  }

  lemma {:induction false} InsertSorted<T>(r: seq<T>, x: T, key: T -> int)
    requires SortedDesc(r, key)
    ensures SortedDesc(Insert(r, x, key), key)
  {
    if r != [] && key(r[0]) >= key(x) {
      InsertSorted(r[1..], x, key);
      InsertBounded(r[1..], x, key, key(r[0]));
    }
  }

  /** Stable sort of `s` by descending key (insertion sort, left to right). */
  function SortDesc<T>(s: seq<T>, key: T -> int): (r: seq<T>)
    ensures multiset(r) == multiset(s)
    ensures SortedDesc(r, key)
  {
    if s == [] then []
    else
      assert s == s[..|s| - 1] + [s[|s| - 1]];
      InsertSorted(SortDesc(s[..|s| - 1], key), s[|s| - 1], key);
      Insert(SortDesc(s[..|s| - 1], key), s[|s| - 1], key)
  }

  lemma {:induction false} InsertStable<T>(r: seq<T>, x: T, key: T -> int, k: int)
    requires SortedDesc(r, key)
    ensures WithKey(Insert(r, x, key), key, k) == WithKey(r, key, k) + WithKey([x], key, k)
  {
    if r == [] {
      assert Insert(r, x, key) == [x];
    } else if key(r[0]) >= key(x) {
      InsertStable(r[1..], x, key, k);
      InsertBehind(r, x, key, k);
    } else {
      InsertFront(r, x, key, k);
    }
  }

  lemma ConcatAssoc<T>(a: seq<T>, b: seq<T>, c: seq<T>)
    ensures a + (b + c) == (a + b) + c
  {
  }

  /** `r[0]` stays first; the insertion happens in the rest of `r`. */
  lemma InsertBehind<T>(r: seq<T>, x: T, key: T -> int, k: int)
    requires r != [] && key(r[0]) >= key(x)
    requires WithKey(Insert(r[1..], x, key), key, k) == WithKey(r[1..], key, k) + WithKey([x], key, k)
    ensures WithKey(Insert(r, x, key), key, k) == WithKey(r, key, k) + WithKey([x], key, k)
  {
    var rest := Insert(r[1..], x, key);
    var res := [r[0]] + rest;
    assert Insert(r, x, key) == res;
    assert res[0] == r[0] && res[1..] == rest;
    var head := if key(r[0]) == k then [r[0]] else [];
    var a, b := WithKey(r[1..], key, k), WithKey([x], key, k);
    calc {
      WithKey(res, key, k);
      head + WithKey(rest, key, k);
      head + (a + b);
      { ConcatAssoc(head, a, b); }
      (head + a) + b;
      WithKey(r, key, k) + b;
    }
  }

  /** `x` outranks all of `r` and goes first; no element of `r` shares its key. */
  lemma InsertFront<T>(r: seq<T>, x: T, key: T -> int, k: int)
    requires SortedDesc(r, key) && r != [] && key(r[0]) < key(x)
    ensures WithKey(Insert(r, x, key), key, k) == WithKey(r, key, k) + WithKey([x], key, k)
  {
    assert Insert(r, x, key) == [x] + r;
    assert ([x] + r)[1..] == r;
    assert [x][1..] == [];
    if key(x) == k {
      WithKeyBelow(r, key, k);
    }
  }

  /** Sorting is stable: the elements sharing any one key keep their relative order. */
  lemma {:induction false} SortStable<T>(s: seq<T>, key: T -> int, k: int)
    ensures WithKey(SortDesc(s, key), key, k) == WithKey(s, key, k)
  {
    if s != [] {
      var init, last := s[..|s| - 1], s[|s| - 1];
      assert s == init + [last];
      SortStable(init, key, k);
      InsertStable(SortDesc(init, key), last, key, k);
      WithKeyAppend(init, [last], key, k);
    }
  }

  /** `most_common(n)`: the first `n` elements of the stable descending sort. */
  function Top<T>(s: seq<T>, key: T -> int, n: nat): (t: seq<T>)
    ensures |t| <= n
    ensures SortedDesc(t, key)
  {
    var r := SortDesc(s, key);
    if |r| <= n then r else r[..n]
  }

  /** `Top` keeps `n` elements, or all of `s` when it has fewer, drawn from `s`. */
  lemma TopSize<T>(s: seq<T>, key: T -> int, n: nat)
    ensures |Top(s, key, n)| == if |s| <= n then |s| else n
    ensures multiset(Top(s, key, n)) <= multiset(s)
    ensures |s| <= n ==> multiset(Top(s, key, n)) == multiset(s)
  {
    var r := SortDesc(s, key);
    assert |r| == |s| by { assert |multiset(r)| == |multiset(s)|; }
    var t := Top(s, key, n);
    assert r == t + r[|t|..];
    assert multiset(r) == multiset(t) + multiset(r[|t|..]);
  }

  /** `Top` lists its elements by descending key. */
  lemma TopSorted<T>(s: seq<T>, key: T -> int, n: nat)
    ensures SortedDesc(Top(s, key, n), key)
  {
  }

  /** No element of `s` that `Top` leaves out outranks one it keeps. */
  lemma TopKeepsBest<T>(s: seq<T>, key: T -> int, n: nat, x: T, y: T)
    requires x in s && x !in Top(s, key, n) && y in Top(s, key, n)
    ensures key(x) <= key(y)
  {
    var r := SortDesc(s, key);
    var t := Top(s, key, n);
    assert x in multiset(r);
    var j :| 0 <= j < |r| && r[j] == x;
    var i :| 0 <= i < |t| && t[i] == y;
    assert j >= |t|;
  }

  /**
   * Among elements with equal keys, `Top` keeps the earliest ones of `s`,
   * in their order in `s`.
   */
  lemma TopStable<T>(s: seq<T>, key: T -> int, n: nat, k: int)
    ensures WithKey(Top(s, key, n), key, k) <= WithKey(s, key, k)
  {
    var r := SortDesc(s, key);
    var t := Top(s, key, n);
    assert r == t + r[|t|..];
    WithKeyAppend(t, r[|t|..], key, k);
    SortStable(s, key, k);
  }
}
