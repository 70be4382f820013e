/** Sequence operations the handlers and queries are built from. */
module Seqs {
  import opened Results

  /** Index of the first element satisfying `p` (what `findOne`/`findById` return). */
  function FirstIndex<T>(s: seq<T>, p: T -> bool): (r: Option<nat>)
    ensures r.Some? ==> r.value < |s| && p(s[r.value])
    ensures r.Some? ==> forall j :: 0 <= j < r.value ==> !p(s[j])
    ensures r.None? <==> forall j :: 0 <= j < |s| ==> !p(s[j])
  {
    if s == [] then None
    else if p(s[0]) then Some(0)
    else match FirstIndex(s[1..], p)
      case None => None
      case Some(k) => Some(k + 1)
  }

  /** The elements satisfying `p`, in their original order (a `find` with a filter). */
  function Filter<T(!new)>(s: seq<T>, p: T -> bool): (r: seq<T>)
    ensures forall x :: multiset(r)[x] == if p(x) then multiset(s)[x] else 0
    ensures forall i :: 0 <= i < |r| ==> p(r[i])
  {
    if s == [] then []
    else
      assert s == [s[0]] + s[1..];
      (if p(s[0]) then [s[0]] else []) + Filter(s[1..], p)
  }

  /** `s` with every occurrence of `x` removed, order kept: `s.filter(y => y !== x)`. */
  function Without<T(==,!new)>(s: seq<T>, x: T): (r: seq<T>)
    ensures x !in r
    ensures forall y :: y != x ==> multiset(r)[y] == multiset(s)[y]
    ensures forall y :: y != x ==> (y in r <==> y in s)
    ensures x !in s ==> r == s
  {
    if s == [] then []
    else
      assert s == [s[0]] + s[1..];
      (if s[0] == x then [] else [s[0]]) + Without(s[1..], x)
  }

  /** `Without` keeps the other elements in their order: it is the filter that drops `x`. */
  lemma {:induction false} WithoutIsFilter<T(!new)>(s: seq<T>, x: T)
    ensures Without(s, x) == Filter(s, (y: T) => y != x)
  {
    if s != [] {
      WithoutIsFilter(s[1..], x);
    }
  }

  lemma {:induction false} WithoutConcat<T(!new)>(a: seq<T>, b: seq<T>, x: T)
    ensures Without(a + b, x) == Without(a, x) + Without(b, x)
  {
    if a == [] {
      assert a + b == b;
    } else {
      assert (a + b)[0] == a[0];
      assert (a + b)[1..] == a[1..] + b;
      WithoutConcat(a[1..], b, x);
    }
  }

  /** Two keys in the requested order: descending (`sort({k: -1})`) or ascending (`sort({k: 1})`). */
  predicate InOrder(a: int, b: int, desc: bool) {
    if desc then a >= b else a <= b
  }

  ghost predicate SortedBy<T>(s: seq<T>, key: T -> int, desc: bool) {
    forall i, j :: 0 <= i < j < |s| ==> InOrder(key(s[i]), key(s[j]), desc)
  }

  function Insert<T>(x: T, s: seq<T>, key: T -> int, desc: bool): (r: seq<T>)
    requires SortedBy(s, key, desc)
    ensures SortedBy(r, key, desc)
    ensures multiset(r) == multiset(s) + multiset{x}
  {
    if s == [] || InOrder(key(x), key(s[0]), desc) then [x] + s
    else
      assert s == [s[0]] + s[1..];
      var rest := Insert(x, s[1..], key, desc);
      assert forall j :: 0 <= j < |rest| ==> InOrder(key(s[0]), key(rest[j]), desc) by {
        forall j | 0 <= j < |rest| ensures InOrder(key(s[0]), key(rest[j]), desc) {
          assert rest[j] in multiset(rest);
          assert rest[j] == x || rest[j] in s[1..];
        }
      }
      PrependSorted(s[0], rest, key, desc);
      [s[0]] + rest
  }

  lemma PrependSorted<T>(h: T, s: seq<T>, key: T -> int, desc: bool)
    requires SortedBy(s, key, desc)
    requires forall j :: 0 <= j < |s| ==> InOrder(key(h), key(s[j]), desc)
    ensures SortedBy([h] + s, key, desc)
  {
    var r := [h] + s;
    forall i, j | 0 <= i < j < |r| ensures InOrder(key(r[i]), key(r[j]), desc) {
      if i > 0 {
        assert r[i] == s[i - 1] && r[j] == s[j - 1];
      }
    }
  }

  /** The elements of `s` ordered by `key` (insertion sort). */
  function SortBy<T>(s: seq<T>, key: T -> int, desc: bool): (r: seq<T>)
    ensures SortedBy(r, key, desc)
    ensures multiset(r) == multiset(s)
  {
    if s == [] then []
    else
      assert s == [s[0]] + s[1..];
      Insert(s[0], SortBy(s[1..], key, desc), key, desc)
  }

  /** An element whose key exceeds every other element's heads the descending order. */
  lemma SortedHead<T>(s: seq<T>, x: T, key: T -> int)
    requires x in s
    requires forall y :: y in s && y != x ==> key(y) < key(x)
    ensures SortBy(s, key, true) != [] && SortBy(s, key, true)[0] == x
  {
    var r := SortBy(s, key, true);
    assert x in multiset(r);
    var j :| 0 <= j < |r| && r[j] == x;
    assert r[0] in multiset(s);
    assert InOrder(key(r[0]), key(r[j]), true);
  }
}
