/** Sorting records by a string field, as Python's `list.sort(key=...)` and
    `list.sort(key=..., reverse=True)` do: the result is a permutation of the
    input ordered by the key (Python's ordering of `str`). */
module Ordering {
  import opened Text

  /** `a` may precede `b`: ascending, or descending when `desc` holds. */
  predicate InOrder<T>(a: T, b: T, key: T -> string, desc: bool) {
    if desc then StrLe(key(b), key(a)) else StrLe(key(a), key(b))
  }

  predicate SortedBy<T>(s: seq<T>, key: T -> string, desc: bool) {
    forall i, j :: 0 <= i < j < |s| ==> InOrder(s[i], s[j], key, desc)
  }

  lemma InOrderTotal<T>(a: T, b: T, key: T -> string, desc: bool)
    ensures InOrder(a, b, key, desc) || InOrder(b, a, key, desc)
  {
    StrLeTotal(key(a), key(b));
  }

  lemma InOrderTrans<T>(a: T, b: T, c: T, key: T -> string, desc: bool)
    requires InOrder(a, b, key, desc) && InOrder(b, c, key, desc)
    ensures InOrder(a, c, key, desc)
  {
    if desc {
      StrLeTrans(key(c), key(b), key(a));
    } else {
      StrLeTrans(key(a), key(b), key(c));
    }
  }

  /** Inserts `x` in front of the first element it may precede. */
  function Insert<T(==)>(x: T, ys: seq<T>, key: T -> string, desc: bool): (r: seq<T>)
    requires SortedBy(ys, key, desc)
    ensures multiset(r) == multiset(ys) + multiset{x}
    ensures SortedBy(r, key, desc)
    decreases |ys|
  {
    if |ys| == 0 then [x]
    else if InOrder(x, ys[0], key, desc) then
      InsertHeadSorted(x, ys, key, desc);
      [x] + ys
    else
      var rest := Insert(x, ys[1..], key, desc);
      InsertBehindHead(x, ys, rest, key, desc);
      [ys[0]] + rest
  }

  lemma InsertHeadSorted<T>(x: T, ys: seq<T>, key: T -> string, desc: bool)
    requires |ys| > 0 && SortedBy(ys, key, desc) && InOrder(x, ys[0], key, desc)
    ensures SortedBy([x] + ys, key, desc)
  {
    var r := [x] + ys;
    forall i, j | 0 <= i < j < |r|
      ensures InOrder(r[i], r[j], key, desc)
    {
      if i == 0 && j > 1 {
        InOrderTrans(x, ys[0], ys[j - 1], key, desc);
      }
    }
  }

  lemma InsertBehindHead<T>(x: T, ys: seq<T>, rest: seq<T>, key: T -> string, desc: bool)
    requires |ys| > 0 && SortedBy(ys, key, desc) && !InOrder(x, ys[0], key, desc)
    requires SortedBy(rest, key, desc)
    requires multiset(rest) == multiset(ys[1..]) + multiset{x}
    ensures SortedBy([ys[0]] + rest, key, desc)
    ensures multiset([ys[0]] + rest) == multiset(ys) + multiset{x}
  {
    InOrderTotal(x, ys[0], key, desc);
    var r := [ys[0]] + rest;
    forall j | 0 <= j < |rest|
      ensures InOrder(ys[0], rest[j], key, desc)
    {
      assert rest[j] in multiset(rest);
      if rest[j] != x {
        assert rest[j] in multiset(ys[1..]);
        var k :| 0 <= k < |ys[1..]| && ys[1..][k] == rest[j];
        assert ys[k + 1] == rest[j];
      }
    }
    forall i, j | 0 <= i < j < |r|
      ensures InOrder(r[i], r[j], key, desc)
    {
      if i > 0 {
        assert r[i] == rest[i - 1] && r[j] == rest[j - 1];
      } else {
        assert r[j] == rest[j - 1];
      }
    }
    assert ys == [ys[0]] + ys[1..];
  }

  /** Insertion sort: a permutation of `xs` ordered by `key`. */
  function SortBy<T(==)>(xs: seq<T>, key: T -> string, desc: bool): (r: seq<T>)
    ensures multiset(r) == multiset(xs)
    ensures SortedBy(r, key, desc)
    decreases |xs|
  {
    if |xs| == 0 then []
    else
      assert xs == [xs[0]] + xs[1..];
      Insert(xs[0], SortBy(xs[1..], key, desc), key, desc)
  }
}
