/** Counter dictionaries: `d[k] = d.get(k, 0) + 1`, in insertion order. */
module Counting {
  type Counter<K> = seq<(K, int)>

  function Position<K(==)>(c: Counter<K>, k: K): (i: int)
    ensures -1 <= i < |c|
    ensures i >= 0 ==> c[i].0 == k
    ensures i == -1 ==> forall j :: 0 <= j < |c| ==> c[j].0 != k
  {
    if c == [] then -1
    else if c[|c| - 1].0 == k then |c| - 1
    else Position(c[..|c| - 1], k)
  }

  function CountOf<K(==)>(c: Counter<K>, k: K): int {
    var i := Position(c, k);
    if i >= 0 then c[i].1 else 0
  }

  function Bump<K(==)>(c: Counter<K>, k: K): Counter<K> {
    var i := Position(c, k);
    if i >= 0 then c[i := (k, c[i].1 + 1)] else c + [(k, 1)]
  }

  function Tally<K(==)>(keys: seq<K>): Counter<K> {
    if keys == [] then [] else Bump(Tally(keys[..|keys| - 1]), keys[|keys| - 1])
  }

  function Occurrences<K(==)>(keys: seq<K>, k: K): nat {
    if keys == [] then 0 else Occurrences(keys[..|keys| - 1], k) + (if keys[|keys| - 1] == k then 1 else 0)
  }

  function Total<K>(c: Counter<K>): int {
    if c == [] then 0 else Total(c[..|c| - 1]) + c[|c| - 1].1
  }

  ghost predicate DistinctKeys<K>(c: Counter<K>) {
    forall i, j :: 0 <= i < j < |c| ==> c[i].0 != c[j].0
  }

  lemma PositionIs<K>(c: Counter<K>, i: nat)
    requires DistinctKeys(c) && i < |c|
    ensures Position(c, c[i].0) == i
  {
  }

  lemma {:induction false} TotalOfUpdate<K>(c: Counter<K>, i: nat, entry: (K, int))
    requires i < |c|
    ensures Total(c[i := entry]) == Total(c) - c[i].1 + entry.1
    decreases |c|
  {
    var n := |c| - 1;
    if i < n {
      TotalOfUpdate(c[..n], i, entry);
      assert c[i := entry][..n] == c[..n][i := entry];
    } else {
      assert c[i := entry][..n] == c[..n];
    }
  }

  lemma {:induction false} TotalAppend<K>(c: Counter<K>, d: Counter<K>)
    ensures Total(c + d) == Total(c) + Total(d)
    decreases |d|
  {
    if d == [] {
      assert c + d == c;
    } else {
      TotalAppend(c, d[..|d| - 1]);
      assert (c + d)[..|c + d| - 1] == c + d[..|d| - 1];
    }
  }

  lemma BumpCounts<K>(c: Counter<K>, k: K, other: K)
    requires DistinctKeys(c)
    ensures DistinctKeys(Bump(c, k)) && Total(Bump(c, k)) == Total(c) + 1
    ensures CountOf(Bump(c, k), other) == CountOf(c, other) + (if other == k then 1 else 0)
  {
    var i, c' := Position(c, k), Bump(c, k);
    if i >= 0 {
      TotalOfUpdate(c, i, (k, c[i].1 + 1));
    } else {
      assert c'[..|c|] == c;
    }
    var j := Position(c', other);
    if j >= 0 {
      PositionIs(c', j);
      if j < |c| {
        PositionIs(c, j);
      }
    }
    var l := Position(c, other);
    if l >= 0 {
      PositionIs(c', l);
    }
  }

  /** A tally has one positive entry per key that occurs, counts its occurrences, and loses none. */
  lemma {:induction false} TallyCounts<K>(keys: seq<K>, k: K)
    ensures CountOf(Tally(keys), k) == Occurrences(keys, k)
    ensures DistinctKeys(Tally(keys)) && Total(Tally(keys)) == |keys|
    ensures forall i :: 0 <= i < |Tally(keys)| ==> Tally(keys)[i].1 > 0
    decreases |keys|
  {
    if keys != [] {
      var n := |keys| - 1;
      TallyCounts(keys[..n], k);
      BumpCounts(Tally(keys[..n]), keys[n], k);
    }
  }

  lemma {:induction false} OccurrencesOf<K>(keys: seq<K>, k: K)
    ensures Occurrences(keys, k) == multiset(keys)[k]
    decreases |keys|
  {
    if keys != [] {
      var n := |keys| - 1;
      assert keys == keys[..n] + [keys[n]];
      OccurrencesOf(keys[..n], k);
    }
  }

  /** Taking one element out of two sequences with the same elements leaves the same elements. */
  lemma TakeOne<T>(s: seq<T>, t: seq<T>, i: nat)
    requires multiset(s) == multiset(t) && s != [] && i < |t| && t[i] == s[|s| - 1]
    ensures multiset(t[..i] + t[i + 1..]) == multiset(s[..|s| - 1])
  {
    var n := |s| - 1;
    WithoutOne(s, n);
    WithoutOne(t, i);
    assert s[..n] + s[n + 1..] == s[..n];
  }

  lemma WithoutOne<T>(s: seq<T>, i: nat)
    requires i < |s|
    ensures multiset(s[..i] + s[i + 1..]) == multiset(s) - multiset{s[i]}
  {
    assert s == s[..i] + [s[i]] + s[i + 1..];
  }

  /** The last element of one sequence, found in another with the same elements. */
  lemma FindLast<T>(s: seq<T>, t: seq<T>) returns (a: seq<T>, b: seq<T>)
    requires multiset(s) == multiset(t) && s != []
    ensures t == a + [s[|s| - 1]] + b
    ensures multiset(s[..|s| - 1]) == multiset(a + b)
  {
    assert s[|s| - 1] in multiset(t);
    var i :| 0 <= i < |t| && t[i] == s[|s| - 1];
    TakeOne(s, t, i);
    a, b := t[..i], t[i + 1..];
  }

  lemma {:induction false} OccurrencesAppend<K>(a: seq<K>, b: seq<K>, k: K)
    ensures Occurrences(a + b, k) == Occurrences(a, k) + Occurrences(b, k)
    decreases |b|
  {
    if b == [] {
      assert a + b == a;
    } else {
      OccurrencesAppend(a, b[..|b| - 1], k);
      assert (a + b)[..|a + b| - 1] == a + b[..|b| - 1];
    }
  }

  lemma TallyEntry<K>(keys: seq<K>, i: nat)
    requires i < |Tally(keys)|
    ensures Tally(keys)[i].1 == multiset(keys)[Tally(keys)[i].0] > 0
  {
    var k := Tally(keys)[i].0;
    TallyCounts(keys, k);
    PositionIs(Tally(keys), i);
    OccurrencesOf(keys, k);
  }

  /** The entries are exactly the keys that occur, each with its number of occurrences. */
  lemma TallyMember<K>(keys: seq<K>, entry: (K, int))
    ensures entry in Tally(keys) <==> entry.1 > 0 && entry.1 == multiset(keys)[entry.0]
  {
    var c := Tally(keys);
    TallyCounts(keys, entry.0);
    OccurrencesOf(keys, entry.0);
    var i := Position(c, entry.0);
    if i >= 0 {
      TallyEntry(keys, i);
    }
    if entry in c {
      var j :| 0 <= j < |c| && c[j] == entry;
      TallyEntry(keys, j);
    }
  }
}

/** Concatenating what each element of a sequence contributes: a loop that appends. */
module Gathering {
  import opened Common
  import opened Counting

  function FlatMap<T, U>(s: seq<T>, f: T -> seq<U>): seq<U> {
    if s == [] then [] else FlatMap(s[..|s| - 1], f) + f(s[|s| - 1])
  }

  lemma FlatNext<T, U>(s: seq<T>, x: T, f: T -> seq<U>)
    ensures FlatMap(s + [x], f) == FlatMap(s, f) + f(x)
  {
    assert (s + [x])[..|s|] == s;
  }

  lemma FlatPrefix<T, U>(s: seq<T>, i: nat, f: T -> seq<U>)
    requires i < |s|
    ensures FlatMap(s[..i + 1], f) == FlatMap(s[..i], f) + f(s[i])
  {
    assert s[..i + 1] == s[..i] + [s[i]];
    FlatNext(s[..i], s[i], f);
  }

  lemma {:induction false} FlatAppend<T, U>(a: seq<T>, b: seq<T>, f: T -> seq<U>)
    ensures FlatMap(a + b, f) == FlatMap(a, f) + FlatMap(b, f)
    decreases |b|
  {
    if b == [] {
      assert a + b == a;
    } else {
      var front, x := b[..|b| - 1], b[|b| - 1];
      FlatAppend(a, front, f);
      FlatNext(a + front, x, f);
      assert a + b == (a + front) + [x];
    }
  }

  lemma FlatAround<T, U>(a: seq<T>, x: T, b: seq<T>, f: T -> seq<U>)
    ensures multiset(FlatMap(a + [x] + b, f)) == multiset(FlatMap(a + b, f)) + multiset(f(x))
  {
    FlatAppend(a + [x], b, f);
    FlatNext(a, x, f);
    FlatAppend(a, b, f);
  }

  /** What is gathered does not depend on the order, up to its own order. */
  lemma {:induction false} FlatIgnoresOrder<T, U>(s: seq<T>, t: seq<T>, f: T -> seq<U>)
    requires multiset(s) == multiset(t)
    ensures multiset(FlatMap(s, f)) == multiset(FlatMap(t, f)) && |s| == |t|
    decreases |s|
  {
    assert |multiset(s)| == |multiset(t)|;
    if s != [] {
      var a, b := FindLast(s, t);
      FlatIgnoresOrder(s[..|s| - 1], a + b, f);
      FlatAround(a, s[|s| - 1], b, f);
    }
  }

  lemma {:induction false} FilterCountIgnoresOrder<T>(s: seq<T>, t: seq<T>, p: T -> bool)
    requires multiset(s) == multiset(t)
    ensures |Filter(s, p)| == |Filter(t, p)|
    decreases |s|
  {
    assert |multiset(s)| == |multiset(t)|;
    if s != [] {
      var n := |s| - 1;
      assert s[n] in multiset(s);
      var i :| 0 <= i < |t| && t[i] == s[n];
      TakeOne(s, t, i);
      FilterCountIgnoresOrder(s[..n], t[..i] + t[i + 1..], p);
      FilterUpdate(t, i, t[i], p);
      FilterAppend(t[..i], t[i + 1..], p);
    }
  }

  /** The places at which the gathered parts hold an element that satisfies `p`. */
  ghost function Places<T(!new), U(!new)>(s: seq<T>, f: T -> seq<U>, p: U -> bool): set<(int, int)> {
    set i, j | 0 <= i < |s| && 0 <= j < |f(s[i])| && p(f(s[i])[j]) :: (i, j)
  }

  ghost function RowOf<U(!new)>(part: seq<U>, p: U -> bool, i: int): set<(int, int)> {
    set j | 0 <= j < |part| && p(part[j]) :: (i, j)
  }

  lemma {:induction false} CountInRow<U(!new)>(part: seq<U>, p: U -> bool, i: int)
    ensures |Filter(part, p)| == |RowOf(part, p, i)|
    decreases |part|
  {
    if part == [] {
      assert RowOf(part, p, i) == {};
    } else {
      var n := |part| - 1;
      CountInRow(part[..n], p, i);
      assert RowOf(part, p, i) == RowOf(part[..n], p, i) + if p(part[n]) then {(i, n)} else {};
    }
  }

  lemma PlacesNext<T(!new), U(!new)>(s: seq<T>, x: T, f: T -> seq<U>, p: U -> bool)
    ensures |Places(s + [x], f, p)| == |Places(s, f, p)| + |RowOf(f(x), p, |s|)|
  {
    var all := s + [x];
    var row := RowOf(f(x), p, |s|);
    forall i, j ensures (i, j) in Places(all, f, p) <==> (i, j) in Places(s, f, p) || (i, j) in row {
      if 0 <= i < |s| {
        assert all[i] == s[i];
      }
    }
    assert Places(all, f, p) == Places(s, f, p) + row;
  }

  /** Counting what is gathered is counting places. */
  lemma {:induction false} CountIsPlaces<T(!new), U(!new)>(s: seq<T>, f: T -> seq<U>, p: U -> bool)
    ensures |Filter(FlatMap(s, f), p)| == |Places(s, f, p)|
    decreases |s|
  {
    if s == [] {
      assert Places(s, f, p) == {};
    } else {
      var front, x := s[..|s| - 1], s[|s| - 1];
      assert s == front + [x];
      CountIsPlaces(front, f, p);
      FilterAppend(FlatMap(front, f), f(x), p);
      CountInRow(f(x), p, |front|);
      PlacesNext(front, x, f, p);
    }
  }
}

/** Sorting by weight, heaviest first, then by name: `sorted(..., key=lambda r: (-weight, name))`. */
module Ranking {
  datatype Ranked = Ranked(name: string, weight: real)

  /** Python's order on strings. */
  predicate TextLess(a: string, b: string) {
    if b == "" then false
    else if a == "" then true
    else a[0] < b[0] || (a[0] == b[0] && TextLess(a[1..], b[1..]))
  }

  predicate Before(a: Ranked, b: Ranked) {
    a.weight > b.weight || (a.weight == b.weight && TextLess(a.name, b.name))
  }

  lemma {:induction false} TextLessIsTotal(a: string, b: string)
    ensures a == b || TextLess(a, b) || TextLess(b, a)
    ensures !(TextLess(a, b) && TextLess(b, a))
    ensures !TextLess(a, a)
    decreases |a|
  {
    if a != "" && b != "" {
      TextLessIsTotal(a[1..], b[1..]);
      assert a == [a[0]] + a[1..] && b == [b[0]] + b[1..];
    }
    if a != "" {
      TextLessIsTotal(a[1..], a[1..]);
    }
  }

  lemma {:induction false} TextLessTransitive(a: string, b: string, c: string)
    requires TextLess(a, b) && TextLess(b, c)
    ensures TextLess(a, c)
    decreases |a|
  {
    if a != "" && a[0] == b[0] == c[0] {
      TextLessTransitive(a[1..], b[1..], c[1..]);
    }
  }

  lemma BeforeIsTotal(a: Ranked, b: Ranked)
    ensures a == b || Before(a, b) || Before(b, a)
    ensures !(Before(a, b) && Before(b, a)) && !Before(a, a)
  {
    TextLessIsTotal(a.name, b.name);
    TextLessIsTotal(a.name, a.name);
  }

  lemma BeforeTransitive(a: Ranked, b: Ranked, c: Ranked)
    requires Before(a, b) && Before(b, c)
    ensures Before(a, c)
  {
    if a.weight == c.weight {
      TextLessTransitive(a.name, b.name, c.name);
    }
  }

  function Insert(sorted: seq<Ranked>, r: Ranked): (s: seq<Ranked>)
    ensures multiset(s) == multiset(sorted) + multiset{r}
  {
    if sorted == [] then [r]
    else
      var n := |sorted| - 1;
      assert sorted == sorted[..n] + [sorted[n]];
      if Before(r, sorted[n]) then Insert(sorted[..n], r) + [sorted[n]] else sorted + [r]
  }

  function SortRanked(items: seq<Ranked>): (s: seq<Ranked>)
    ensures multiset(s) == multiset(items)
  {
    if items == [] then []
    else
      var n := |items| - 1;
      assert items == items[..n] + [items[n]];
      Insert(SortRanked(items[..n]), items[n])
  }

  ghost predicate Ordered(s: seq<Ranked>) {
    forall i, j :: 0 <= i < j < |s| ==> Before(s[i], s[j])
  }

  ghost predicate DistinctNames(s: seq<Ranked>) {
    forall i, j :: 0 <= i < j < |s| ==> s[i].name != s[j].name
  }

  lemma Members(s: seq<Ranked>, t: seq<Ranked>, r: Ranked)
    requires multiset(s) == multiset(t)
    ensures r in s <==> r in t
  {
    assert r in s <==> r in multiset(s);
    assert r in t <==> r in multiset(t);
  }

  lemma InsertedMembers(sorted: seq<Ranked>, r: Ranked, x: Ranked)
    ensures x in Insert(sorted, r) <==> x in sorted || x == r
  {
    assert x in Insert(sorted, r) <==> x in multiset(Insert(sorted, r));
    assert x in sorted <==> x in multiset(sorted);
  }

  lemma {:induction false} InsertKeepsOrder(sorted: seq<Ranked>, r: Ranked)
    requires Ordered(sorted) && r !in sorted
    ensures Ordered(Insert(sorted, r))
    decreases |sorted|
  {
    if sorted != [] {
      var n := |sorted| - 1;
      var front, last := sorted[..n], sorted[n];
      BeforeIsTotal(r, last);
      if Before(r, last) {
        InsertKeepsOrder(front, r);
        forall x | x in Insert(front, r) ensures Before(x, last) {
          InsertedMembers(front, r, x);
        }
      } else {
        forall i | 0 <= i < n ensures Before(sorted[i], r) {
          BeforeTransitive(sorted[i], last, r);
        }
      }
    }
  }

  lemma {:induction false} SortIsOrdered(items: seq<Ranked>)
    requires DistinctNames(items)
    ensures Ordered(SortRanked(items))
    decreases |items|
  {
    if items != [] {
      var n := |items| - 1;
      SortIsOrdered(items[..n]);
      Members(SortRanked(items[..n]), items[..n], items[n]);
      assert items[n] !in items[..n];
      InsertKeepsOrder(SortRanked(items[..n]), items[n]);
    }
  }

  ghost predicate SameMembers(a: seq<Ranked>, b: seq<Ranked>) {
    forall r: Ranked :: r in a <==> r in b
  }

  lemma SameHead(a: seq<Ranked>, b: seq<Ranked>)
    requires Ordered(a) && Ordered(b) && SameMembers(a, b) && a != []
    ensures b != [] && a[0] == b[0]
  {
    assert a[0] in b;
    var j :| 0 <= j < |b| && b[j] == a[0];
    assert b[0] in a;
    var i :| 0 <= i < |a| && a[i] == b[0];
    BeforeIsTotal(a[0], b[0]);
  }

  lemma HeadNotInTail(a: seq<Ranked>)
    requires Ordered(a) && a != []
    ensures a[0] !in a[1..]
  {
    BeforeIsTotal(a[0], a[0]);
  }

  lemma SomeMember(b: seq<Ranked>)
    ensures b == [] || exists r :: r in b
  {
    if b != [] {
      assert b[0] in b;
    }
  }

  /** Two ordered listings of the same items are the same. */
  lemma {:induction false} OrderedIsUnique(a: seq<Ranked>, b: seq<Ranked>)
    requires Ordered(a) && Ordered(b) && SameMembers(a, b)
    ensures a == b
    decreases |a|
  {
    if a == [] {
      SomeMember(b);
    } else {
      SameHead(a, b);
      HeadNotInTail(a);
      HeadNotInTail(b);
      assert a == [a[0]] + a[1..] && b == [b[0]] + b[1..];
      forall r: Ranked ensures r in a[1..] <==> r in b[1..] {
        assert r in a <==> r in b;
      }
      OrderedIsUnique(a[1..], b[1..]);
    }
  }

  /** The sorted listing does not depend on the order of the items. */
  lemma SortIgnoresOrder(items: seq<Ranked>, items': seq<Ranked>)
    requires DistinctNames(items) && DistinctNames(items') && SameMembers(items, items')
    ensures SortRanked(items) == SortRanked(items')
  {
    SortIsOrdered(items);
    SortIsOrdered(items');
    forall r: Ranked ensures r in SortRanked(items) <==> r in SortRanked(items') {
      Members(SortRanked(items), items, r);
      Members(SortRanked(items'), items', r);
    }
    OrderedIsUnique(SortRanked(items), SortRanked(items'));
  }

  /** `s[:limit]`, where a negative limit counts from the end. */
  function Slice<T>(s: seq<T>, limit: int): seq<T> {
    if limit >= |s| then s
    else if limit >= 0 then s[..limit]
    else if |s| + limit >= 0 then s[..|s| + limit]
    else []
  }
}
