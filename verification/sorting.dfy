/** `Array.prototype.sort` with a `(a, b) => key(b) - key(a)` comparator:
    a stable sort into non-increasing key order, as insertion sort. */
module Sorting {

  predicate SortedDesc<T>(xs: seq<T>, key: T -> real) {
    forall i, j :: 0 <= i < j < |xs| ==> key(xs[i]) >= key(xs[j])
  }

  /** Inserts `x` after every element whose key is at least its own, so that
      an element never overtakes an earlier one of equal key. */
  function Insert<T>(x: T, s: seq<T>, key: T -> real): (r: seq<T>)
    ensures multiset(r) == multiset(s) + multiset{x}
    ensures |r| == |s| + 1
  {
    if |s| == 0 then [x]
    else if key(s[0]) >= key(x) then
      assert s == [s[0]] + s[1..];
      [s[0]] + Insert(x, s[1..], key)
    else
      [x] + s
  }

  /** Insertion keeps a sorted list sorted. */
  lemma {:induction false} InsertSorted<T>(x: T, s: seq<T>, key: T -> real)
    requires SortedDesc(s, key)
    ensures SortedDesc(Insert(x, s, key), key)
  {
    if |s| > 0 && key(s[0]) >= key(x) {
      var rest := Insert(x, s[1..], key);
      InsertSorted(x, s[1..], key);
      assert s == [s[0]] + s[1..];
      assert multiset(rest) == multiset(s[1..]) + multiset{x};
      forall k | 0 <= k < |rest| ensures key(s[0]) >= key(rest[k]) {
        assert rest[k] in multiset(rest);
        assert rest[k] in multiset(s[1..]) + multiset{x};
      }
      ConsSorted(s[0], rest, key);
    }
  }

  lemma ConsSorted<T>(h: T, rest: seq<T>, key: T -> real)
    requires SortedDesc(rest, key)
    requires forall k :: 0 <= k < |rest| ==> key(h) >= key(rest[k])
    ensures SortedDesc([h] + rest, key)
  {
    var r := [h] + rest;
    forall i, j | 0 <= i < j < |r| ensures key(r[i]) >= key(r[j]) {
      assert r[j] == rest[j - 1];
      if i > 0 {
        assert r[i] == rest[i - 1];
      }
    }
  }

  /** Sorting by key, non-increasing; a permutation of the input. */
  function SortDesc<T>(xs: seq<T>, key: T -> real): (r: seq<T>)
    ensures multiset(r) == multiset(xs)
    ensures SortedDesc(r, key)
    ensures |r| == |xs|
  {
    if |xs| == 0 then []
    else
      var init := xs[..|xs| - 1];
      assert xs == init + [xs[|xs| - 1]];
      InsertSorted(xs[|xs| - 1], SortDesc(init, key), key);
      Insert(xs[|xs| - 1], SortDesc(init, key), key)
  }

  function Map<T, U>(xs: seq<T>, f: T -> U): (ys: seq<U>)
    ensures |ys| == |xs| && forall i :: 0 <= i < |xs| ==> ys[i] == f(xs[i])
  {
    seq(|xs|, i requires 0 <= i < |xs| => f(xs[i]))
  }

  lemma MapAppend<T, U>(a: seq<T>, b: seq<T>, f: T -> U)
    ensures Map(a + b, f) == Map(a, f) + Map(b, f)
  {
  }

  /** Rearranging a list rearranges the list of its images the same way. */
  lemma {:induction false} MapPermutes<T, U>(a: seq<T>, b: seq<T>, f: T -> U)
    requires multiset(a) == multiset(b)
    ensures multiset(Map(a, f)) == multiset(Map(b, f))
    decreases |a|
  {
    if |a| > 0 {
      var x := a[|a| - 1];
      var init := a[..|a| - 1];
      assert x in multiset(a);
      var j :| 0 <= j < |b| && b[j] == x;
      DropSame(a, b, j);
      MapPermutes(init, b[..j] + b[j + 1..], f);
      MapRemove(a, |a| - 1, f);
      assert a[..|a| - 1] + a[|a|..] == init;
      MapRemove(b, j, f);
    } else {
      assert multiset(b) == multiset{};
    }
  }

  /** Dropping the last of `a` and a matching element of `b` keeps the two
      rearrangements of each other. */
  lemma DropSame<T>(a: seq<T>, b: seq<T>, j: nat)
    requires multiset(a) == multiset(b) && |a| > 0 && j < |b| && b[j] == a[|a| - 1]
    ensures multiset(a[..|a| - 1]) == multiset(b[..j] + b[j + 1..])
  {
    RemoveAt(a, |a| - 1);
    assert a[..|a| - 1] + a[|a|..] == a[..|a| - 1];
    RemoveAt(b, j);
    Cancel(multiset(a[..|a| - 1]), multiset(b[..j] + b[j + 1..]), multiset{b[j]});
  }

  /** A list holds the elements of the list without its `j`th, plus that
      one. */
  lemma RemoveAt<T>(b: seq<T>, j: nat)
    requires j < |b|
    ensures multiset(b) == multiset(b[..j] + b[j + 1..]) + multiset{b[j]}
  {
    assert b == b[..j] + [b[j]] + b[j + 1..];
  }

  lemma Cancel<T>(p: multiset<T>, q: multiset<T>, x: multiset<T>)
    requires p + x == q + x
    ensures p == q
  {
    assert p == (p + x) - x;
    assert q == (q + x) - x;
  }

  /** The images of a list are those of the list without one element, plus
      that element's. */
  lemma MapRemove<T, U>(b: seq<T>, j: nat, f: T -> U)
    requires j < |b|
    ensures multiset(Map(b, f)) == multiset(Map(b[..j] + b[j + 1..], f)) + multiset{f(b[j])}
  {
    var pre, post := b[..j], b[j + 1..];
    var mp, mq := Map(pre, f), Map(post, f);
    assert b == (pre + [b[j]]) + post;
    MapAppend(pre + [b[j]], post, f);
    MapAppend(pre, [b[j]], f);
    MapAppend(pre, post, f);
    assert Map([b[j]], f) == [f(b[j])];
    assert Map(b, f) == (mp + [f(b[j])]) + mq;
    assert multiset(Map(b, f)) == multiset(mp) + multiset{f(b[j])} + multiset(mq);
    assert multiset(Map(pre + post, f)) == multiset(mp) + multiset(mq);
  }

  /** Rearrangements of each other hold the same elements. */
  lemma SameMembers<T>(a: seq<T>, b: seq<T>)
    requires multiset(a) == multiset(b)
    ensures forall x :: x in a <==> x in b
  {
    forall x ensures x in a <==> x in b {
      assert x in a <==> x in multiset(a);
      assert x in b <==> x in multiset(b);
    }
  }

  /** `.slice(0, n)`. */
  function Take<T>(xs: seq<T>, n: nat): (r: seq<T>)
    ensures |r| == if |xs| < n then |xs| else n
    ensures r <= xs
  {
    if |xs| < n then xs else xs[..n]
  }

  /** The first `n` of a sorted list: as many as there are, up to `n`,
      sorted, every member drawn from the input, and none of the elements
      left out ranks above a kept one. */
  lemma TopIsBest<T>(xs: seq<T>, key: T -> real, n: nat)
    ensures var top := Take(SortDesc(xs, key), n);
            && SortedDesc(top, key) && |top| == (if |xs| < n then |xs| else n)
            && multiset(top) <= multiset(xs)
            && (forall i, j :: 0 <= i < |top| <= j < |SortDesc(xs, key)| ==>
                 key(top[i]) >= key(SortDesc(xs, key)[j]))
            && forall x :: x in multiset(xs) - multiset(top) ==> forall i :: 0 <= i < |top| ==> key(top[i]) >= key(x)
  {
    var s := SortDesc(xs, key);
    var top := Take(s, n);
    assert top == s[..|top|];
    PrefixSorted(s, key, |top|);
    LeftOutRanksLower(xs, s, |top|, key);
  }

  /** The left-out half of `TopIsBest` alone. */
  lemma TopLeavesLower<T>(xs: seq<T>, key: T -> real, n: nat)
    ensures forall x :: x in multiset(xs) - multiset(Take(SortDesc(xs, key), n)) ==>
              forall i :: 0 <= i < |Take(SortDesc(xs, key), n)| ==> key(Take(SortDesc(xs, key), n)[i]) >= key(x)
  {
    TopIsBest(xs, key, n);
  }

  /** When the first `m` of a rearrangement of `xs` rank above the rest,
      they are drawn from `xs` and rank above everything left out. */
  lemma LeftOutRanksLower<T>(xs: seq<T>, s: seq<T>, m: nat, key: T -> real)
    requires multiset(s) == multiset(xs) && m <= |s|
    requires forall i, j :: 0 <= i < m <= j < |s| ==> key(s[i]) >= key(s[j])
    ensures multiset(s[..m]) <= multiset(xs)
    ensures forall x :: x in multiset(xs) - multiset(s[..m]) ==> forall i :: 0 <= i < m ==> key(s[..m][i]) >= key(x)
  {
    var top, rest := s[..m], s[m..];
    assert s == top + rest;
    assert multiset(xs) == multiset(top) + multiset(rest);
    assert multiset(xs) - multiset(top) == multiset(rest);
    forall x | x in multiset(xs) - multiset(top) ensures forall i :: 0 <= i < m ==> key(top[i]) >= key(x) {
      assert x in multiset(rest);
      var j :| 0 <= j < |rest| && rest[j] == x;
      assert s[m + j] == x;
      assert forall i :: 0 <= i < m ==> top[i] == s[i];
    }
  }

  /** A prefix of a sorted list is sorted and ranks above the rest. */
  lemma PrefixSorted<T>(s: seq<T>, key: T -> real, m: nat)
    requires SortedDesc(s, key) && m <= |s|
    ensures SortedDesc(s[..m], key)
    ensures forall i, j :: 0 <= i < m <= j < |s| ==> key(s[..m][i]) >= key(s[j])
  {
  }
}
