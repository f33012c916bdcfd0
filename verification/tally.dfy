/** Counting occurrences into an object (`acc[v] = (acc[v] || 0) + 1`),
    as the admin aggregations do, and the order in which `Object.entries`
    lists such an object. */
module Tally {
  import Strings
  import Sorting

  /** A property of the counting object and its count. */
  datatype Entry = Entry(value: string, count: nat)

  function Values(t: seq<Entry>): (vs: seq<string>)
    ensures |vs| == |t| && forall i :: 0 <= i < |t| ==> vs[i] == t[i].value
  {
    seq(|t|, i requires 0 <= i < |t| => t[i].value)
  }

  function Sum(t: seq<Entry>): nat
    decreases |t|
  {
    if |t| == 0 then 0 else Sum(t[..|t| - 1]) + t[|t| - 1].count
  }

  predicate DistinctValues(t: seq<Entry>) {
    forall i, j :: 0 <= i < j < |t| ==> t[i].value != t[j].value
  }

  /** Where `v` is already counted, if anywhere. */
  function IndexOf(t: seq<Entry>, v: string): (r: int)
    ensures -1 <= r < |t|
    ensures r >= 0 ==> t[r].value == v
    ensures r < 0 ==> v !in Values(t)
    decreases |t|
  {
    if |t| == 0 then -1
    else if t[|t| - 1].value == v then |t| - 1
    else
      var r := IndexOf(t[..|t| - 1], v);
      assert Values(t) == Values(t[..|t| - 1]) + [t[|t| - 1].value];
      r
  }

  /** Counts one more `v`: a new property goes last with count one. */
  function Bump(t: seq<Entry>, v: string): (r: seq<Entry>)
  {
    var i := IndexOf(t, v);
    if i >= 0 then t[i := Entry(v, t[i].count + 1)] else t + [Entry(v, 1)]
  }

  /** The counting object after the values, in order of first occurrence. */
  function Count(vals: seq<string>): seq<Entry>
    decreases |vals|
  {
    if |vals| == 0 then [] else Bump(Count(vals[..|vals| - 1]), vals[|vals| - 1])
  }

  /** Summing is additive over concatenation. */
  lemma {:induction false} SumAppend(a: seq<Entry>, b: seq<Entry>)
    ensures Sum(a + b) == Sum(a) + Sum(b)
    decreases |b|
  {
    if |b| == 0 {
      assert a + b == a;
    } else {
      assert (a + b)[..|a + b| - 1] == a + b[..|b| - 1];
      SumAppend(a, b[..|b| - 1]);
    }
  }

  /** Appending one entry adds its count. */
  lemma SumSnoc(a: seq<Entry>, e: Entry)
    ensures Sum(a + [e]) == Sum(a) + e.count
  {
    assert (a + [e])[..|a|] == a;
  }

  /** Raising one count by one raises the sum by one. */
  lemma SumBumped(t: seq<Entry>, i: nat, e: Entry)
    requires i < |t| && e.count == t[i].count + 1
    ensures Sum(t[i := e]) == Sum(t) + 1
  {
    var pre, post := t[..i], t[i + 1..];
    assert t == (pre + [t[i]]) + post;
    assert t[i := e] == (pre + [e]) + post;
    SumAppend(pre + [t[i]], post);
    SumAppend(pre + [e], post);
    SumSnoc(pre, t[i]);
    SumSnoc(pre, e);
  }

  /** Prepending one entry adds its count. */
  lemma SumCons(e: Entry, a: seq<Entry>)
    ensures Sum([e] + a) == e.count + Sum(a)
  {
    SumAppend([e], a);
    assert [e][..0] == [];
  }

  /** The sum split around one entry. */
  lemma SumSplit(b: seq<Entry>, j: nat)
    requires j < |b|
    ensures Sum(b) == Sum(b[..j]) + b[j].count + Sum(b[j + 1..])
  {
    var pre, post := b[..j], b[j + 1..];
    assert b == pre + ([b[j]] + post);
    SumAppend(pre, [b[j]] + post);
    SumCons(b[j], post);
  }

  /** Taking one entry out lowers the sum by its count. */
  lemma SumRemove(b: seq<Entry>, j: nat)
    requires j < |b|
    ensures Sum(b) == Sum(b[..j] + b[j + 1..]) + b[j].count
  {
    SumSplit(b, j);
    SumAppend(b[..j], b[j + 1..]);
  }

  /** Entries drawn from another list sum to no more than it. */
  lemma {:induction false} SumSubMultiset(a: seq<Entry>, b: seq<Entry>)
    requires multiset(a) <= multiset(b)
    ensures Sum(a) <= Sum(b)
    decreases |a|
  {
    if |a| > 0 {
      var x := a[|a| - 1];
      assert x in multiset(a);
      var j :| 0 <= j < |b| && b[j] == x;
      DropMatched(a, b, j);
      SumSubMultiset(a[..|a| - 1], b[..j] + b[j + 1..]);
      SumRemove(b, j);
      assert a == a[..|a| - 1] + [x];
      SumSnoc(a[..|a| - 1], x);
    }
  }

  /** Dropping the last of `a` and a matching entry of `b` keeps `a`
      drawn from `b`. */
  lemma DropMatched(a: seq<Entry>, b: seq<Entry>, j: nat)
    requires multiset(a) <= multiset(b) && |a| > 0 && j < |b| && b[j] == a[|a| - 1]
    ensures multiset(a[..|a| - 1]) <= multiset(b[..j] + b[j + 1..])
  {
    var x := b[j];
    var init, rest := a[..|a| - 1], b[..j] + b[j + 1..];
    assert a == init + [x];
    assert b == b[..j] + [x] + b[j + 1..];
    assert multiset(b) == multiset(rest) + multiset{x};
    assert multiset(a) == multiset(init) + multiset{x};
    forall y ensures multiset(init)[y] <= multiset(rest)[y] {
      assert multiset(a)[y] <= multiset(b)[y];
    }
  }

  /** The counting object holds each distinct value once, with its number
      of occurrences, and nothing else; the counts add up to the number of
      values. */
  lemma CountCorrect(vals: seq<string>)
    ensures var t := Count(vals);
            && DistinctValues(t)
            && (forall i :: 0 <= i < |t| ==> t[i].count == multiset(vals)[t[i].value] && t[i].count >= 1)
            && (forall v :: v in vals <==> v in Values(t))
            && Sum(t) == |vals|
  {
    CountDistinctAndExact(vals);
    CountSum(vals);
    var t := Count(vals);
    forall i | 0 <= i < |t| ensures t[i].count >= 1 {
      assert t[i].value in Values(t);
    }
  }

  /** `t` is the counting object of `vals`: one entry per distinct value,
      holding its number of occurrences. */
  ghost predicate Counts(t: seq<Entry>, vals: seq<string>) {
    && DistinctValues(t)
    && (forall i :: 0 <= i < |t| ==> t[i].count == multiset(vals)[t[i].value])
    && (forall v :: v in vals <==> v in Values(t))
  }

  /** Membership and counts, by induction on the values. */
  lemma {:induction false} CountDistinctAndExact(vals: seq<string>)
    ensures Counts(Count(vals), vals)
    decreases |vals|
  {
    if |vals| > 0 {
      var init := vals[..|vals| - 1];
      var v := vals[|vals| - 1];
      assert vals == init + [v];
      CountDistinctAndExact(init);
      var t0 := Count(init);
      var k := IndexOf(t0, v);
      if k >= 0 {
        BumpCounted(t0, init, v, k);
      } else {
        BumpUncounted(t0, init, v);
      }
    }
  }

  /** Counting a value seen before raises its entry's count. */
  lemma BumpCounted(t: seq<Entry>, vals: seq<string>, v: string, k: int)
    requires Counts(t, vals) && k == IndexOf(t, v) && k >= 0
    ensures Counts(Bump(t, v), vals + [v])
  {
    BumpExisting(t, v, k);
    var u := Bump(t, v);
    assert multiset(vals + [v]) == multiset(vals) + multiset{v};
    assert Values(u) == Values(t);
    forall x ensures x in vals + [v] <==> x in Values(u) {
      assert x in vals + [v] <==> x in vals || x == v;
      assert t[k].value in Values(t);
    }
  }

  /** Counting a value not seen before adds an entry with count one. */
  lemma BumpUncounted(t: seq<Entry>, vals: seq<string>, v: string)
    requires Counts(t, vals) && IndexOf(t, v) < 0
    ensures Counts(Bump(t, v), vals + [v])
  {
    var u := t + [Entry(v, 1)];
    assert Bump(t, v) == u;
    assert multiset(vals + [v]) == multiset(vals) + multiset{v};
    assert multiset(vals)[v] == 0 by { assert v !in Values(t); }
    assert Values(u) == Values(t) + [v];
    forall x ensures x in vals + [v] <==> x in Values(u) {
      assert x in vals + [v] <==> x in vals || x == v;
    }
  }

  /** Bumping a value already counted changes its count only. */
  lemma BumpExisting(t: seq<Entry>, v: string, k: int)
    requires k == IndexOf(t, v) && k >= 0
    ensures Bump(t, v) == t[k := Entry(v, t[k].count + 1)]
    ensures Values(Bump(t, v)) == Values(t)
  {
  }

  /** The counts add up to the number of values. */
  lemma {:induction false} CountSum(vals: seq<string>)
    ensures Sum(Count(vals)) == |vals|
    decreases |vals|
  {
    if |vals| > 0 {
      var init := vals[..|vals| - 1];
      var v := vals[|vals| - 1];
      CountSum(init);
      var t0 := Count(init);
      var k := IndexOf(t0, v);
      if k >= 0 {
        SumBumped(t0, k, Entry(v, t0[k].count + 1));
      } else {
        SumAppend(t0, [Entry(v, 1)]);
        assert Sum([Entry(v, 1)]) == 1 by { assert [Entry(v, 1)][..0] == []; }
      }
    }
  }

  /** The distinct values. */
  function Distinct(vals: seq<string>): set<string> {
    set v | v in vals
  }

  /** The counting object has one entry per distinct value. */
  lemma {:induction false} CountSize(vals: seq<string>)
    ensures |Count(vals)| == |Distinct(vals)|
    decreases |vals|
  {
    if |vals| > 0 {
      var init := vals[..|vals| - 1];
      var v := vals[|vals| - 1];
      assert vals == init + [v];
      CountSize(init);
      CountDistinctAndExact(init);
      var t0 := Count(init);
      assert Distinct(vals) == Distinct(init) + {v};
      if IndexOf(t0, v) >= 0 {
        assert v in Values(t0);
        assert Distinct(vals) == Distinct(init);
      } else {
        assert v !in Distinct(init);
      }
    }
  }

  /** `t` lists values of `vals` in order of their first occurrence. */
  predicate FirstSeenOrder(t: seq<Entry>, vals: seq<string>) {
    forall i, j :: 0 <= i < j < |t| ==>
      && t[i].value in vals && t[j].value in vals
      && Strings.FirstIndex(vals, t[i].value) < Strings.FirstIndex(vals, t[j].value)
  }

  /** The counting object lists the values in order of first occurrence,
      as insertion into an object does. */
  lemma {:induction false} CountFirstSeen(vals: seq<string>)
    ensures FirstSeenOrder(Count(vals), vals)
    decreases |vals|
  {
    if |vals| > 0 {
      var init := vals[..|vals| - 1];
      var v := vals[|vals| - 1];
      assert vals == init + [v];
      CountFirstSeen(init);
      CountDistinctAndExact(init);
      var t0 := Count(init);
      if IndexOf(t0, v) >= 0 {
        FirstSeenBumped(t0, init, v, IndexOf(t0, v));
      } else {
        FirstSeenAppended(t0, init, v);
      }
    }
  }

  /** Counting a value seen before keeps the order. */
  lemma FirstSeenBumped(t: seq<Entry>, vals: seq<string>, v: string, k: int)
    requires FirstSeenOrder(t, vals) && k == IndexOf(t, v) && k >= 0
    ensures FirstSeenOrder(Bump(t, v), vals + [v])
  {
    BumpExisting(t, v, k);
    FirstIndexKept(vals, v);
    var u := Bump(t, v);
    forall i, j | 0 <= i < j < |u|
      ensures && u[i].value in vals + [v] && u[j].value in vals + [v]
              && Strings.FirstIndex(vals + [v], u[i].value) < Strings.FirstIndex(vals + [v], u[j].value)
    {
      assert u[i].value == Values(u)[i] == t[i].value;
      assert u[j].value == Values(u)[j] == t[j].value;
    }
  }

  /** Counting a value not seen before puts it after every earlier one. */
  lemma FirstSeenAppended(t: seq<Entry>, vals: seq<string>, v: string)
    requires FirstSeenOrder(t, vals) && IndexOf(t, v) < 0
    requires forall x :: x in vals <==> x in Values(t)
    ensures FirstSeenOrder(t + [Entry(v, 1)], vals + [v])
  {
    FirstIndexKept(vals, v);
    assert v !in vals;
    assert (vals + [v])[..|vals|] == vals;
    Strings.FirstIndexAt(vals + [v], v, |vals|);
    var u := t + [Entry(v, 1)];
    forall i, j | 0 <= i < j < |u|
      ensures && u[i].value in vals + [v] && u[j].value in vals + [v]
              && Strings.FirstIndex(vals + [v], u[i].value) < Strings.FirstIndex(vals + [v], u[j].value)
    {
      assert u[i].value == Values(t)[i];
      if j == |t| {
        assert u[i].value in vals;
      } else {
        assert u[j].value == t[j].value;
      }
    }
  }

  /** Appending a value leaves the first positions of the earlier values
      where they were. */
  lemma FirstIndexKept(init: seq<string>, v: string)
    ensures forall c :: c in init ==> Strings.FirstIndex(init + [v], c) == Strings.FirstIndex(init, c) < |init|
  {
    forall c | c in init ensures Strings.FirstIndex(init + [v], c) == Strings.FirstIndex(init, c) {
      var f := Strings.FirstIndex(init, c);
      assert (init + [v])[..f] == init[..f];
      Strings.FirstIndexAt(init + [v], c, f);
    }
  }

  /** Entries drawn from the counting object count no more than all the
      values. */
  lemma CountedSum(vals: seq<string>, es: seq<Entry>)
    requires multiset(es) <= multiset(Count(vals))
    ensures Sum(es) <= |vals|
  {
    SumSubMultiset(es, Count(vals));
    CountSum(vals);
  }

  // ----- The order of `Object.entries` -----

  /** A canonical array index: a decimal numeral without leading zeros
      whose value is below 2^32 - 1. Such property names are listed first,
      in increasing numeric order. */
  predicate IsArrayIndex(s: string) {
    && |s| > 0
    && (forall i :: 0 <= i < |s| ==> Strings.IsDigit(s[i]))
    && Strings.NatToString(Strings.DigitsValue(s)) == s
    && Strings.DigitsValue(s) < 0x1_0000_0000 - 1
  }

  predicate IsIndexEntry(e: Entry) {
    IsArrayIndex(e.value)
  }

  /** The entries `e` with `p(e) == want`, in their order. */
  function Filter(t: seq<Entry>, p: Entry -> bool, want: bool): (r: seq<Entry>)
    ensures |r| <= |t|
    ensures forall e :: e in r <==> e in t && p(e) == want
    ensures multiset(r) <= multiset(t)
    decreases |t|
  {
    if |t| == 0 then []
    else
      var rest := Filter(t[1..], p, want);
      assert t == [t[0]] + t[1..];
      if p(t[0]) == want then [t[0]] + rest else rest
  }

  function IndexKey(e: Entry): real {
    if IsArrayIndex(e.value) then -(Strings.DigitsValue(e.value) as real) else 0.0
  }

  /** `Object.entries` of the counting object: array-index names first, by
      increasing value, then the other names in insertion order. */
  function Entries(t: seq<Entry>): (r: seq<Entry>)
    ensures multiset(r) == multiset(t)
  {
    var idx := Filter(t, IsIndexEntry, true);
    var other := Filter(t, IsIndexEntry, false);
    PartitionPermutes(t, IsIndexEntry);
    Sorting.SortDesc(idx, IndexKey) + other
  }

  /** Splitting by a test loses and duplicates nothing. */
  lemma {:induction false} PartitionPermutes(t: seq<Entry>, p: Entry -> bool)
    ensures multiset(Filter(t, p, true)) + multiset(Filter(t, p, false)) == multiset(t)
    decreases |t|
  {
    if |t| > 0 {
      var rest := t[1..];
      PartitionPermutes(rest, p);
      assert t == [t[0]] + rest;
      assert multiset(t) == multiset{t[0]} + multiset(rest);
      if p(t[0]) {
        assert Filter(t, p, true) == [t[0]] + Filter(rest, p, true);
        assert Filter(t, p, false) == Filter(rest, p, false);
      } else {
        assert Filter(t, p, true) == Filter(rest, p, true);
        assert Filter(t, p, false) == [t[0]] + Filter(rest, p, false);
      }
    }
  }

  /** Every entry `Filter` keeps passes the test as wanted. */
  lemma FilterAt(t: seq<Entry>, p: Entry -> bool, want: bool, k: nat)
    requires k < |Filter(t, p, want)|
    ensures p(Filter(t, p, want)[k]) == want
  {
    assert Filter(t, p, want)[k] in Filter(t, p, want);
  }

  /** The array-index names come first, in increasing numeric order. */
  lemma EntriesOrder(t: seq<Entry>, i: nat, j: nat)
    requires i < j < |Entries(t)|
    requires IsArrayIndex(Entries(t)[j].value)
    ensures IsArrayIndex(Entries(t)[i].value)
    ensures Strings.DigitsValue(Entries(t)[i].value) <= Strings.DigitsValue(Entries(t)[j].value)
  {
    var fi := Filter(t, IsIndexEntry, true);
    var idx := Sorting.SortDesc(fi, IndexKey);
    var other := Filter(t, IsIndexEntry, false);
    assert Entries(t) == idx + other;
    if j >= |idx| {
      FilterAt(t, IsIndexEntry, false, j - |idx|);
    }
    assert j < |idx|;
    assert idx[i] in multiset(fi) && idx[j] in multiset(fi);
    FilterIndexed(fi, t, idx[i]);
    FilterIndexed(fi, t, idx[j]);
  }

  lemma FilterIndexed(fi: seq<Entry>, t: seq<Entry>, e: Entry)
    requires fi == Filter(t, IsIndexEntry, true) && e in fi
    ensures IsArrayIndex(e.value)
  {
  }
}
