/** The array idioms of the front end and the command-line analyser, on sequences:
    `[...new Set(xs)]`, the default `sort()` of strings, `reverse()`, `slice(0, n)`, a
    `Map` of running totals in insertion order, and a sort by amount, largest first. */
module Collections {

  predicate NoDuplicates<T(==)>(xs: seq<T>) {
    forall i, j :: 0 <= i < j < |xs| ==> xs[i] != xs[j]
  }

  /** `[...new Set(xs)]`: every value once, in the order of its first occurrence. */
  function Distinct<T(==, !new)>(xs: seq<T>): (r: seq<T>)
    ensures forall x :: x in r <==> x in xs
    ensures NoDuplicates(r)
    ensures |r| <= |xs|
    decreases |xs|
  {
    if |xs| == 0 then []
    else
      var p := Distinct(xs[..|xs| - 1]);
      if xs[|xs| - 1] in p then p else p + [xs[|xs| - 1]]
  }

  /** The distinct values keep the order in which they first occur: a value that occurs before
      another's first occurrence comes first. */
  lemma {:induction false} DistinctOrder<T(!new)>(xs: seq<T>, i: nat, j: nat)
    requires i < |Distinct(xs)| && j < |Distinct(xs)| && i < j
    ensures exists a :: 0 <= a < |xs| && xs[a] == Distinct(xs)[i] && Distinct(xs)[j] !in xs[..a + 1]
    decreases |xs|
  {
    var n := |xs| - 1;
    var p := Distinct(xs[..n]);
    if xs[n] in p || j < |p| {
      DistinctOrder(xs[..n], i, j);
      DistinctOrderEarlier(xs, i, j);
    } else {
      DistinctOrderLast(xs, i, j);
    }
  }

  /** `DistinctOrder` when the later value already occurs before the last element. */
  lemma DistinctOrderEarlier<T(!new)>(xs: seq<T>, i: nat, j: nat)
    requires |xs| > 0 && i < j < |Distinct(xs)|
    requires var p := Distinct(xs[..|xs| - 1]); xs[|xs| - 1] in p || j < |p|
    requires var n := |xs| - 1; var p := Distinct(xs[..n]);
      exists a :: 0 <= a < |xs[..n]| && xs[..n][a] == p[i] && p[j] !in xs[..n][..a + 1]
    ensures exists a :: 0 <= a < |xs| && xs[a] == Distinct(xs)[i] && Distinct(xs)[j] !in xs[..a + 1]
  {
    var n := |xs| - 1;
    var p := Distinct(xs[..n]);
    var a :| 0 <= a < |xs[..n]| && xs[..n][a] == p[i] && p[j] !in xs[..n][..a + 1];
    PrefixOfPrefix(xs, n, a + 1);
    assert Distinct(xs)[i] == p[i] && Distinct(xs)[j] == p[j];
  }

  /** `DistinctOrder` when the later value first occurs as the last element. */
  lemma DistinctOrderLast<T(!new)>(xs: seq<T>, i: nat, j: nat)
    requires |xs| > 0 && i < j < |Distinct(xs)|
    requires var p := Distinct(xs[..|xs| - 1]); xs[|xs| - 1] !in p && j >= |p|
    ensures exists a :: 0 <= a < |xs| && xs[a] == Distinct(xs)[i] && Distinct(xs)[j] !in xs[..a + 1]
  {
    var n := |xs| - 1;
    assert Distinct(xs)[j] == xs[n] && xs[n] !in xs[..n];
    assert Distinct(xs)[i] in xs[..n];
    var a :| 0 <= a < n && xs[a] == Distinct(xs)[i];
    PrefixOfPrefix(xs, n, a + 1);
  }

  /** A prefix of a prefix is a prefix, and holds nothing the longer one lacks. */
  lemma PrefixOfPrefix<T>(xs: seq<T>, n: nat, m: nat)
    requires m <= n <= |xs|
    ensures xs[..n][..m] == xs[..m]
    ensures forall x :: x !in xs[..n] ==> x !in xs[..m]
  {
    forall x | x in xs[..m]
      ensures x in xs[..n]
    {
      var k :| 0 <= k < m && xs[..m][k] == x;
      assert xs[..n][k] == x;
    }
  }

  /** The elements whose `keep` holds, in their order (`xs.filter(keep)`). */
  function Filter<T(==, !new)>(data: seq<T>, keep: T -> bool): (r: seq<T>)
    ensures |r| <= |data|
    ensures forall x :: x in r <==> x in data && keep(x)
    decreases |data|
  {
    if |data| == 0 then []
    else
      var n := |data| - 1;
      Filter(data[..n], keep) + (if keep(data[n]) then [data[n]] else [])
  }

  /** Filtering keeps the elements in their original order: the kept elements of a prefix are
      a prefix of the kept elements. */
  lemma {:induction false} FilterPrefix<T(!new)>(data: seq<T>, keep: T -> bool, k: nat)
    requires k <= |data|
    ensures Filter(data[..k], keep) <= Filter(data, keep)
    decreases |data| - k
  {
    if k < |data| {
      FilterPrefix(data, keep, k + 1);
      assert data[..k + 1][..k] == data[..k];
      PrefixTrans(Filter(data[..k], keep), Filter(data[..k + 1], keep), Filter(data, keep));
    } else {
      assert data[..k] == data;
    }
  }

  /** How a concatenation ends: with nothing after `a`, or with the last element of `b`. */
  lemma ConcatLast<T>(a: seq<T>, b: seq<T>)
    ensures |b| == 0 ==> a + b == a
    ensures |b| > 0 ==> (a + b)[..|a + b| - 1] == a + b[..|b| - 1] && (a + b)[|a + b| - 1] == b[|b| - 1]
  {
    if |b| > 0 {
      assert (a + b)[..|a + b| - 1] == a + b[..|b| - 1];
    }
  }

  lemma PrefixTrans<T>(a: seq<T>, b: seq<T>, c: seq<T>)
    requires a <= b && b <= c
    ensures a <= c
  {
    assert c[..|b|][..|a|] == c[..|a|];
  }

  /** `xs.map(f)`, built from the back. */
  function Map<A, B>(f: A -> B, xs: seq<A>): (r: seq<B>)
    ensures |r| == |xs|
    decreases |xs|
  {
    if |xs| == 0 then [] else Map(f, xs[..|xs| - 1]) + [f(xs[|xs| - 1])]
  }

  /** The i-th element of the mapped list is `f` of the i-th element. */
  lemma {:induction false} MapIndex<A, B>(f: A -> B, xs: seq<A>)
    ensures forall i :: 0 <= i < |xs| ==> Map(f, xs)[i] == f(xs[i])
    decreases |xs|
  {
    if |xs| > 0 {
      var n := |xs| - 1;
      MapIndex(f, xs[..n]);
      forall i | 0 <= i < n
        ensures Map(f, xs)[i] == f(xs[i])
      {
        assert xs[..n][i] == xs[i];
      }
    }
  }

  /** `xs.slice(0, n)`. */
  function Take<T>(xs: seq<T>, n: nat): (r: seq<T>)
    ensures |r| == if |xs| < n then |xs| else n
    ensures r <= xs
  {
    if |xs| <= n then xs else xs[..n]
  }

  /** `xs.reverse()`. */
  function Reverse<T>(xs: seq<T>): (r: seq<T>)
    ensures |r| == |xs|
    ensures forall i :: 0 <= i < |xs| ==> r[i] == xs[|xs| - 1 - i]
  {
    if |xs| == 0 then [] else [xs[|xs| - 1]] + Reverse(xs[..|xs| - 1])
  }

  /** The order of the default `sort()` on strings: character by character, a proper prefix
      first. */
  predicate StrLe(a: string, b: string)
    decreases |a|
  {
    |a| == 0 || (|b| > 0 && (a[0] < b[0] || (a[0] == b[0] && StrLe(a[1..], b[1..]))))
  }

  lemma {:induction false} StrLeTotal(a: string, b: string)
    ensures StrLe(a, b) || StrLe(b, a)
    decreases |a|
  {
    if |a| > 0 && |b| > 0 && a[0] == b[0] {
      StrLeTotal(a[1..], b[1..]);
    }
  }

  lemma {:induction false} StrLeTrans(a: string, b: string, c: string)
    requires StrLe(a, b) && StrLe(b, c)
    ensures StrLe(a, c)
    decreases |a|
  {
    if |a| > 0 && a[0] == b[0] && b[0] == c[0] {
      StrLeTrans(a[1..], b[1..], c[1..]);
    }
  }

  lemma {:induction false} StrLeAntisym(a: string, b: string)
    requires StrLe(a, b) && StrLe(b, a)
    ensures a == b
    decreases |a|
  {
    if |a| > 0 {
      StrLeAntisym(a[1..], b[1..]);
      assert a == [a[0]] + a[1..] && b == [b[0]] + b[1..];
    }
  }

  predicate SortedStrings(xs: seq<string>) {
    forall i, j :: 0 <= i < j < |xs| ==> StrLe(xs[i], xs[j])
  }

  function InsertString(x: string, s: seq<string>): (r: seq<string>)
    requires SortedStrings(s)
    ensures SortedStrings(r)
    ensures multiset(r) == multiset(s) + multiset{x}
    ensures forall j :: 0 <= j < |r| ==> r[j] == x || r[j] in s
    decreases |s|
  {
    if |s| == 0 then [x]
    else if StrLe(x, s[0]) then
      BelowAll(x, s);
      [x] + s
    else
      var rest := InsertString(x, s[1..]);
      StrLeTotal(x, s[0]);
      assert s == [s[0]] + s[1..];
      PrependSorted(s[0], rest);
      [s[0]] + rest
  }

  /** A string no greater than the head of a sorted list is no greater than any of it. */
  lemma BelowAll(x: string, s: seq<string>)
    requires SortedStrings(s) && |s| > 0 && StrLe(x, s[0])
    ensures forall j :: 0 <= j < |s| ==> StrLe(x, s[j])
  {
    forall j | 0 <= j < |s| ensures StrLe(x, s[j]) { if j > 0 { StrLeTrans(x, s[0], s[j]); } }
  }

  /** A string no greater than every element of a sorted list can head it. */
  lemma PrependSorted(x: string, s: seq<string>)
    requires SortedStrings(s) && forall j :: 0 <= j < |s| ==> StrLe(x, s[j])
    ensures SortedStrings([x] + s)
  {
  }

  /** `xs.sort()` on strings: ascending, and a permutation of `xs`. */
  function SortStrings(xs: seq<string>): (r: seq<string>)
    ensures SortedStrings(r)
    ensures multiset(r) == multiset(xs)
    decreases |xs|
  {
    if |xs| == 0 then []
    else
      assert xs == xs[..|xs| - 1] + [xs[|xs| - 1]];
      InsertString(xs[|xs| - 1], SortStrings(xs[..|xs| - 1]))
  }

  /** Sorting keeps exactly the values it was given. */
  lemma SortedMembers(xs: seq<string>)
    ensures forall y :: y in SortStrings(xs) <==> y in xs
  {
    var r := SortStrings(xs);
    assert forall y :: y in r <==> y in multiset(r);
    assert forall y :: y in xs <==> y in multiset(xs);
  }

  /** Reversing keeps exactly the values it was given. */
  lemma ReverseMembers<T>(xs: seq<T>)
    ensures forall y :: y in Reverse(xs) <==> y in xs
  {
    var r := Reverse(xs);
    forall y | y in xs
      ensures y in r
    {
      var k :| 0 <= k < |xs| && xs[k] == y;
      assert r[|xs| - 1 - k] == y;
    }
  }

  /** Sorting distinct strings keeps them distinct. */
  lemma SortedDistinct(xs: seq<string>)
    requires NoDuplicates(xs)
    ensures NoDuplicates(SortStrings(xs))
  {
    var r := SortStrings(xs);
    forall i, j | 0 <= i < j < |r|
      ensures r[i] != r[j]
    {
      if r[i] == r[j] {
        TwoOccurrences(r, i, j);
        CountDistinct(xs, r[i]);
      }
    }
  }

  /** Reversing sorted distinct strings gives them distinct, greatest first. */
  lemma ReverseSorted(s: seq<string>)
    requires SortedStrings(s) && NoDuplicates(s)
    ensures NoDuplicates(Reverse(s))
    ensures forall i, j :: 0 <= i < j < |Reverse(s)| ==> StrLe(Reverse(s)[j], Reverse(s)[i])
  {
    var r := Reverse(s);
    forall i, j | 0 <= i < j < |r|
      ensures r[i] != r[j] && StrLe(r[j], r[i])
    {
      assert r[i] == s[|s| - 1 - i] && r[j] == s[|s| - 1 - j];
    }
  }

  /** Two equal entries make a value occur twice. */
  lemma TwoOccurrences<T>(xs: seq<T>, i: nat, j: nat)
    requires i < j < |xs| && xs[i] == xs[j]
    ensures multiset(xs)[xs[i]] >= 2
  {
    assert xs == xs[..j] + xs[j..];
    assert multiset(xs) == multiset(xs[..j]) + multiset(xs[j..]);
    assert xs[i] in multiset(xs[..j]) by { assert xs[..j][i] == xs[i]; }
    assert xs[j] in multiset(xs[j..]) by { assert xs[j..][0] == xs[j]; }
  }

  /** A value occurs at most once in a sequence without duplicates. */
  lemma {:induction false} CountDistinct<T>(xs: seq<T>, x: T)
    requires NoDuplicates(xs)
    ensures multiset(xs)[x] <= 1
    decreases |xs|
  {
    if |xs| > 0 {
      var n := |xs| - 1;
      CountDistinct(xs[..n], x);
      assert xs == xs[..n] + [xs[n]];
      if xs[n] == x {
        assert x !in xs[..n];
      }
    }
  }

  /** A strictly increasing sequence of whole numbers. */
  predicate Increasing(xs: seq<int>) {
    forall i, j :: 0 <= i < j < |xs| ==> xs[i] < xs[j]
  }

  function InsertInt(x: int, s: seq<int>): (r: seq<int>)
    requires Increasing(s)
    ensures Increasing(r)
    ensures forall y :: y in r <==> y in s || y == x
    decreases |s|
  {
    if |s| == 0 then [x]
    else if x < s[0] then
      assert forall y :: y in s ==> x < y;
      PrependIncreasing(x, s);
      [x] + s
    else if x == s[0] then s
    else
      var rest := InsertInt(x, s[1..]);
      assert forall y :: y in s[1..] ==> s[0] < y;
      PrependIncreasing(s[0], rest);
      assert s == [s[0]] + s[1..];
      [s[0]] + rest
  }

  /** A value below every element may go in front of an increasing sequence. */
  lemma PrependIncreasing(x: int, s: seq<int>)
    requires Increasing(s) && forall y :: y in s ==> x < y
    ensures Increasing([x] + s)
  {
    forall i, j | 0 <= i < j < |[x] + s|
      ensures ([x] + s)[i] < ([x] + s)[j]
    {
      if i > 0 {
        assert ([x] + s)[i] == s[i - 1];
      }
      assert ([x] + s)[j] == s[j - 1] && s[j - 1] in s;
    }
  }

  /** A strictly increasing sequence drawn from a set is no longer than the set is large. */
  lemma {:induction false} IncreasingWithin(xs: seq<int>, s: set<int>)
    requires Increasing(xs) && forall i :: 0 <= i < |xs| ==> xs[i] in s
    ensures |xs| <= |s|
    decreases |xs|
  {
    if |xs| > 0 {
      var rest := xs[1..];
      var smaller := s - {xs[0]};
      forall i | 0 <= i < |rest|
        ensures rest[i] in smaller
      {
        assert rest[i] == xs[i + 1] && xs[0] < xs[i + 1];
      }
      IncreasingWithin(rest, smaller);
    }
  }

  /** The distinct values of `xs` in ascending order. */
  function SortedSet(xs: seq<int>): (r: seq<int>)
    ensures Increasing(r)
    ensures forall y :: y in r <==> y in xs
    decreases |xs|
  {
    if |xs| == 0 then [] else InsertInt(xs[|xs| - 1], SortedSet(xs[..|xs| - 1]))
  }

  /** A `Map<string, number>` of running totals: its keys in insertion order and the total
      of each. */
  datatype Totals = Totals(keys: seq<string>, sums: map<string, real>)

  predicate ValidTotals(t: Totals) {
    NoDuplicates(t.keys) && (forall k :: k in t.keys ==> k in t.sums) && (forall k :: k in t.sums ==> k in t.keys)
  }

  const EmptyTotals := Totals([], map[])

  /** `t.get(key) || 0`. */
  function Get(t: Totals, key: string): real {
    if key in t.sums then t.sums[key] else 0.0
  }

  /** `t.set(key, (t.get(key) || 0) + v)`: an existing key keeps its place, a new one goes last. */
  function AddTo(t: Totals, key: string, v: real): (r: Totals)
    requires ValidTotals(t)
    ensures ValidTotals(r)
    ensures key in t.keys ==> r.keys == t.keys
    ensures key !in t.keys ==> r.keys == t.keys + [key]
    ensures Get(r, key) == Get(t, key) + v
    ensures forall k :: k != key ==> Get(r, k) == Get(t, k)
  {
    if key in t.sums then Totals(t.keys, t.sums[key := t.sums[key] + v])
    else Totals(t.keys + [key], t.sums[key := v])
  }

  /** `Array.from(t.entries())`. */
  function Entries(t: Totals): (es: seq<(string, real)>)
    requires ValidTotals(t)
    ensures |es| == |t.keys|
    ensures forall i :: 0 <= i < |es| ==> es[i] == (t.keys[i], t.sums[t.keys[i]])
  {
    seq(|t.keys|, i requires 0 <= i < |t.keys| => (t.keys[i], t.sums[t.keys[i]]))
  }

  /** Entries sorted by amount, largest first. */
  predicate Descending(es: seq<(string, real)>) {
    forall i, j :: 0 <= i < j < |es| ==> es[i].1 >= es[j].1
  }

  /** Places `x` after every entry with an amount at least its own: the insertion step of a
      stable sort with comparator `(a, b) => b.amount - a.amount`. */
  function InsertDesc(x: (string, real), s: seq<(string, real)>): (r: seq<(string, real)>)
    requires Descending(s)
    ensures Descending(r)
    ensures multiset(r) == multiset(s) + multiset{x}
    ensures forall j :: 0 <= j < |r| ==> r[j] == x || r[j] in s
    decreases |s|
  {
    if |s| == 0 then [x]
    else if s[0].1 < x.1 then
      assert forall j :: 0 <= j < |s| ==> s[0].1 >= s[j].1;
      PrependDesc(x, s);
      [x] + s
    else
      var rest := InsertDesc(x, s[1..]);
      DescHead(x, s, rest);
      assert s == [s[0]] + s[1..];
      [s[0]] + rest
  }

  /** The head of a descending list, no smaller than `x`, can head the list `x` was inserted
      into. */
  lemma DescHead(x: (string, real), s: seq<(string, real)>, rest: seq<(string, real)>)
    requires |s| > 0 && Descending(s) && s[0].1 >= x.1 && Descending(rest)
    requires forall j :: 0 <= j < |rest| ==> rest[j] == x || rest[j] in s[1..]
    ensures Descending([s[0]] + rest)
  {
    forall j | 0 <= j < |rest| ensures s[0].1 >= rest[j].1 {
      if rest[j] != x {
        var k :| 0 <= k < |s[1..]| && s[1..][k] == rest[j];
        assert s[k + 1] == rest[j];
      }
    }
    PrependDesc(s[0], rest);
  }

  /** An entry at least as large as the head of a descending list can head it. */
  lemma PrependDesc(x: (string, real), s: seq<(string, real)>)
    requires Descending(s) && forall j :: 0 <= j < |s| ==> x.1 >= s[j].1
    ensures Descending([x] + s)
  {
  }

  /** `entries.sort((a, b) => b.amount - a.amount)`: largest first, a permutation. */
  function SortDesc(es: seq<(string, real)>): (r: seq<(string, real)>)
    ensures Descending(r)
    ensures multiset(r) == multiset(es)
    decreases |es|
  {
    if |es| == 0 then []
    else
      assert es == es[..|es| - 1] + [es[|es| - 1]];
      InsertDesc(es[|es| - 1], SortDesc(es[..|es| - 1]))
  }
}
