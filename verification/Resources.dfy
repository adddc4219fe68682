/** Small helpers shared by the modules. */
module Common {
  datatype Option<+T> = None | Some(value: T)

  /** The elements of `s` that satisfy `p`, in order. */
  function Filter<T>(s: seq<T>, p: T -> bool): seq<T> {
    if s == [] then []
    else
      var n := |s| - 1;
      if p(s[n]) then Filter(s[..n], p) + [s[n]] else Filter(s[..n], p)
  }

  lemma {:induction false} FilterIn<T>(s: seq<T>, p: T -> bool, x: T)
    ensures x in Filter(s, p) <==> x in s && p(x)
    decreases |s|
  {
    if s != [] {
      var n := |s| - 1;
      assert s == s[..n] + [s[n]];
      FilterIn(s[..n], p, x);
    }
  }

  lemma FilterNext<T>(s: seq<T>, x: T, p: T -> bool)
    ensures Filter(s + [x], p) == if p(x) then Filter(s, p) + [x] else Filter(s, p)
  {
    assert (s + [x])[..|s|] == s;
  }

  lemma {:induction false} FilterAppend<T>(s: seq<T>, t: seq<T>, p: T -> bool)
    ensures Filter(s + t, p) == Filter(s, p) + Filter(t, p)
    decreases |t|
  {
    if t == [] {
      assert s + t == s;
    } else {
      var n := |t| - 1;
      FilterAppend(s, t[..n], p);
      assert (s + t)[..|s + t| - 1] == s + t[..n];
    }
  }

  lemma {:induction false} FilterAll<T>(s: seq<T>, p: T -> bool)
    requires forall x :: x in s ==> p(x)
    ensures Filter(s, p) == s
    decreases |s|
  {
    if s != [] {
      var n := |s| - 1;
      assert s == s[..n] + [s[n]];
      FilterAll(s[..n], p);
    }
  }

  lemma {:induction false} FilterNone<T>(s: seq<T>, p: T -> bool)
    requires forall x :: x in s ==> !p(x)
    ensures Filter(s, p) == []
    decreases |s|
  {
    if s != [] {
      FilterNone(s[..|s| - 1], p);
    }
  }

  lemma SubsetSize<T>(a: set<T>, b: set<T>)
    requires a <= b
    ensures |a| <= |b|
  {
    assert b == a + (b - a);
  }

  /** A stable insertion, largest key first; equal keys keep their order. */
  function InsertDescending<T(==)>(sorted: seq<T>, x: T, key: T -> int): (s: seq<T>)
    ensures multiset(s) == multiset(sorted) + multiset{x}
    ensures |s| == |sorted| + 1
  {
    if sorted == [] then [x]
    else
      var n := |sorted| - 1;
      assert sorted == sorted[..n] + [sorted[n]];
      if key(sorted[n]) >= key(x) then sorted + [x]
      else InsertDescending(sorted[..n], x, key) + [sorted[n]]
  }

  function SortDescending<T(==)>(items: seq<T>, key: T -> int): (s: seq<T>)
    ensures multiset(s) == multiset(items)
    ensures |s| == |items|
  {
    if items == [] then []
    else
      var n := |items| - 1;
      assert items == items[..n] + [items[n]];
      InsertDescending(SortDescending(items[..n], key), items[n], key)
  }

  /** The first element that satisfies `p`, None exactly if there is none. */
  ghost predicate IsFirst<T(!new)>(s: seq<T>, p: T -> bool, found: Option<T>) {
    match found
    case None => forall x :: x in s ==> !p(x)
    case Some(x) => exists i :: 0 <= i < |s| && s[i] == x && p(x) && forall j :: 0 <= j < i ==> !p(s[j])
  }

  lemma FirstIsUnique<T(!new)>(s: seq<T>, p: T -> bool, a: Option<T>, b: Option<T>)
    requires IsFirst(s, p, a) && IsFirst(s, p, b)
    ensures a == b
  {
  }

  // ---------- what the sort does ----------

  ghost predicate Descending<T>(s: seq<T>, key: T -> int) {
    forall i, j :: 0 <= i < j < |s| ==> key(s[i]) >= key(s[j])
  }

  function WithKey<T>(key: T -> int, k: int): T -> bool {
    (x: T) => key(x) == k
  }

  lemma InsertedMembers<T>(sorted: seq<T>, x: T, key: T -> int, y: T)
    ensures y in InsertDescending(sorted, x, key) <==> y in sorted || y == x
  {
    assert y in InsertDescending(sorted, x, key) <==> y in multiset(InsertDescending(sorted, x, key));
    assert y in sorted <==> y in multiset(sorted);
  }

  lemma AppendSmallest<T>(front: seq<T>, x: T, key: T -> int)
    requires Descending(front, key) && forall y :: y in front ==> key(y) >= key(x)
    ensures Descending(front + [x], key)
  {
    forall i | 0 <= i < |front| ensures key(front[i]) >= key(x) {
      assert front[i] in front;
    }
  }

  lemma {:induction false} InsertKeepsDescending<T>(sorted: seq<T>, x: T, key: T -> int)
    requires Descending(sorted, key)
    ensures Descending(InsertDescending(sorted, x, key), key)
    decreases |sorted|
  {
    if sorted != [] {
      var front, last := sorted[..|sorted| - 1], sorted[|sorted| - 1];
      if key(last) >= key(x) {
        AppendSmallest(sorted, x, key);
      } else {
        InsertKeepsDescending(front, x, key);
        forall y | y in InsertDescending(front, x, key) ensures key(y) >= key(last) {
          InsertedMembers(front, x, key, y);
        }
        AppendSmallest(InsertDescending(front, x, key), last, key);
      }
    }
  }

  /** The sort puts the largest keys first. */
  lemma {:induction false} SortIsDescending<T>(items: seq<T>, key: T -> int)
    ensures Descending(SortDescending(items, key), key)
    decreases |items|
  {
    if items != [] {
      SortIsDescending(items[..|items| - 1], key);
      InsertKeepsDescending(SortDescending(items[..|items| - 1], key), items[|items| - 1], key);
    }
  }

  lemma {:induction false} InsertIsStable<T>(sorted: seq<T>, x: T, key: T -> int, k: int)
    ensures Filter(InsertDescending(sorted, x, key), WithKey(key, k)) == Filter(sorted + [x], WithKey(key, k))
    decreases |sorted|
  {
    FilterNext(sorted, x, WithKey(key, k));
    if sorted == [] {
      assert sorted + [x] == [x];
    } else {
      var front, last := sorted[..|sorted| - 1], sorted[|sorted| - 1];
      if key(last) < key(x) {
        InsertIsStable(front, x, key, k);
        FilterNext(InsertDescending(front, x, key), last, WithKey(key, k));
        FilterNext(front, x, WithKey(key, k));
      }
    }
  }

  /** The sort keeps the order of elements with the same key. */
  lemma {:induction false} SortIsStable<T>(items: seq<T>, key: T -> int, k: int)
    ensures Filter(SortDescending(items, key), WithKey(key, k)) == Filter(items, WithKey(key, k))
    decreases |items|
  {
    if items != [] {
      var front, last := items[..|items| - 1], items[|items| - 1];
      SortIsStable(front, key, k);
      InsertIsStable(SortDescending(front, key), last, key, k);
      FilterNext(SortDescending(front, key), last, WithKey(key, k));
    }
  }

  lemma SortedMembers<T>(items: seq<T>, key: T -> int, x: T)
    ensures x in SortDescending(items, key) <==> x in items
  {
    assert x in SortDescending(items, key) <==> x in multiset(SortDescending(items, key));
    assert x in items <==> x in multiset(items);
  }

  function First<T>(s: seq<T>, n: nat): seq<T> {
    if |s| <= n then s else s[..n]
  }

  /**
   * `top` holds `n` of the items, or all of them, largest keys first. An item that is left out has no
   * larger key than any in it, and items with the same key stand in their own order.
   */
  ghost predicate IsTop<T(!new)>(items: seq<T>, key: T -> int, n: nat, top: seq<T>) {
    && |top| == (if |items| <= n then |items| else n)
    && multiset(top) <= multiset(items)
    && Descending(top, key)
    && (forall x, y :: x in items && x !in top && y in top ==> key(y) >= key(x))
    && (forall k :: Filter(top, WithKey(key, k)) <= Filter(items, WithKey(key, k)))
  }

  lemma OmittedAreSmaller<T>(top: seq<T>, rest: seq<T>, key: T -> int, x: T, y: T)
    requires Descending(top + rest, key) && y in top && x in rest
    ensures key(y) >= key(x)
  {
    var i :| 0 <= i < |top| && top[i] == y;
    var j :| 0 <= j < |rest| && rest[j] == x;
    assert (top + rest)[i] == y && (top + rest)[|top| + j] == x;
  }

  lemma DescendingPrefix<T>(top: seq<T>, rest: seq<T>, key: T -> int)
    requires Descending(top + rest, key)
    ensures Descending(top, key)
  {
    forall i, j | 0 <= i < j < |top| ensures key(top[i]) >= key(top[j]) {
      assert (top + rest)[i] == top[i] && (top + rest)[j] == top[j];
    }
  }

  lemma FirstOfSortedIsTop<T(!new)>(items: seq<T>, key: T -> int, n: nat)
    ensures IsTop(items, key, n, First(SortDescending(items, key), n))
  {
    var all := SortDescending(items, key);
    var top := First(all, n);
    var rest := all[|top|..];
    assert all == top + rest;
    SortIsDescending(items, key);
    DescendingPrefix(top, rest, key);
    assert multiset(all) == multiset(top) + multiset(rest);
    forall x, y | x in items && x !in top && y in top ensures key(y) >= key(x) {
      SortedMembers(items, key, x);
      OmittedAreSmaller(top, rest, key, x, y);
    }
    forall k ensures Filter(top, WithKey(key, k)) <= Filter(items, WithKey(key, k)) {
      SortIsStable(items, key, k);
      FilterAppend(top, rest, WithKey(key, k));
    }
  }

  lemma AppendIsAssociative<T>(a: seq<T>, b: seq<T>, c: seq<T>)
    ensures a + (b + c) == a + b + c
  {
  }

  lemma FilterAround<T>(a: seq<T>, x: T, b: seq<T>, p: T -> bool)
    ensures Filter(a + [x] + b, p) == Filter(a, p) + (if p(x) then [x] else []) + Filter(b, p)
  {
    FilterAppend(a + [x], b, p);
    FilterNext(a, x, p);
  }

  /** Replacing one element, seen through a filter. */
  lemma FilterUpdate<T>(s: seq<T>, i: nat, x: T, p: T -> bool)
    requires i < |s|
    ensures Filter(s, p) == Filter(s[..i], p) + (if p(s[i]) then [s[i]] else []) + Filter(s[i + 1..], p)
    ensures Filter(s[i := x], p) == Filter(s[..i], p) + (if p(x) then [x] else []) + Filter(s[i + 1..], p)
  {
    FilterAround(s[..i], s[i], s[i + 1..], p);
    FilterAround(s[..i], x, s[i + 1..], p);
    assert s == s[..i] + [s[i]] + s[i + 1..];
    assert s[i := x] == s[..i] + [x] + s[i + 1..];
  }
}

/** The resource store: an insertion-ordered dictionary of rows, and its Postgres counterpart. */
module Resources {
  import opened Common

  /** `JTime` is the ISO 8601 text of an instant. */
  datatype Json =
    | JNull
    | JBool(flag: bool)
    | JInt(num: int)
    | JStr(text: string)
    | JTime(at: int)
    | JList(items: seq<Json>)
    | JObject(fields: map<string, Json>)

  datatype Resource = Resource(
    id: string,
    tenantId: string,
    sourceId: Option<string>,
    kind: string,
    externalId: Option<string>,
    data: map<string, Json>,
    summary: string,
    status: string,
    createdAt: int,
    updatedAt: int)

  /** The id and creation time that a new `Resource` object gets. */
  datatype Mint = Mint(id: string, at: int)

  // ---------- the in-memory rows ----------

  ghost predicate DistinctIds(rows: seq<Resource>) {
    forall i, j :: 0 <= i < j < |rows| ==> rows[i].id != rows[j].id
  }

  function IndexOfId(rows: seq<Resource>, id: string): (i: int)
    ensures -1 <= i < |rows|
    ensures i >= 0 ==> rows[i].id == id
    ensures i == -1 <==> forall r :: r in rows ==> r.id != id
  {
    if rows == [] then -1
    else
      var n := |rows| - 1;
      assert rows == rows[..n] + [rows[n]];
      var i := IndexOfId(rows[..n], id);
      if i >= 0 then i else if rows[n].id == id then n else -1
  }

  ghost predicate FreshMints(rows: seq<Resource>, mints: seq<Mint>) {
    && (forall i :: 0 <= i < |mints| ==> IndexOfId(rows, mints[i].id) == -1)
    && (forall i, j :: 0 <= i < j < |mints| ==> mints[i].id != mints[j].id)
  }

  /** `_by_id[r.id] = r`: an existing entry keeps its place. */
  function Put(rows: seq<Resource>, r: Resource): seq<Resource> {
    var i := IndexOfId(rows, r.id);
    if i >= 0 then rows[i := r] else rows + [r]
  }

  function OtherThan(id: string): Resource -> bool {
    (r: Resource) => r.id != id
  }

  function Without(rows: seq<Resource>, id: string): seq<Resource> {
    Filter(rows, OtherThan(id))
  }

  function GetById(rows: seq<Resource>, id: string): Option<Resource> {
    var i := IndexOfId(rows, id);
    if i >= 0 then Some(rows[i]) else None
  }

  function WithId(id: string): Resource -> bool {
    (r: Resource) => r.id == id
  }

  /** The lookup by id finds the row with that id, and nothing exactly if there is none. */
  lemma GetIsFirst(rows: seq<Resource>, id: string)
    ensures IsFirst(rows, WithId(id), GetById(rows, id))
  {
    IndexIsFirst(rows, id);
  }

  lemma {:induction false} IndexIsFirst(rows: seq<Resource>, id: string)
    ensures forall j :: 0 <= j < IndexOfId(rows, id) ==> rows[j].id != id
    decreases |rows|
  {
    if rows != [] {
      IndexIsFirst(rows[..|rows| - 1], id);
    }
  }

  predicate HasRef(r: Resource, tenantId: string, kind: string, externalId: string) {
    r.tenantId == tenantId && r.kind == kind && r.externalId == Some(externalId)
  }

  /** The first row, in insertion order, with this tenant, kind and external id. */
  function FindRef(rows: seq<Resource>, tenantId: string, kind: string, externalId: string): (found: Option<Resource>)
    ensures found.Some? ==> found.value in rows && HasRef(found.value, tenantId, kind, externalId)
    ensures found.None? <==> forall r :: r in rows ==> !HasRef(r, tenantId, kind, externalId)
  {
    if rows == [] then None
    else
      var n := |rows| - 1;
      assert rows == rows[..n] + [rows[n]];
      var found := FindRef(rows[..n], tenantId, kind, externalId);
      if found.Some? then found
      else if HasRef(rows[n], tenantId, kind, externalId) then Some(rows[n])
      else None
  }

  datatype Key = Key(tenantId: string, sourceId: string, externalId: string)

  /** The deduplication key; a row with a missing part has none. */
  function KeyOf(r: Resource): Option<Key> {
    if r.sourceId.Some? && r.externalId.Some?
    then Some(Key(r.tenantId, r.sourceId.value, r.externalId.value))
    else None
  }

  /** Rows that `upsert` pops before it stores `r`. */
  predicate Displaced(old_: Resource, r: Resource) {
    KeyOf(r).Some? && KeyOf(old_) == KeyOf(r) && old_.id != r.id
  }

  function SurvivesUpsert(r: Resource): Resource -> bool {
    (x: Resource) => !Displaced(x, r)
  }

  function Purge(rows: seq<Resource>, r: Resource): seq<Resource> {
    Filter(rows, SurvivesUpsert(r))
  }

  function UpsertRow(rows: seq<Resource>, r: Resource): seq<Resource> {
    Put(Purge(rows, r), r)
  }

  function CreatedAt(): Resource -> int {
    (r: Resource) => r.createdAt
  }

  function Listed(tenantId: string, kind: Option<string>): Resource -> bool {
    (r: Resource) => r.tenantId == tenantId && r.status == "active" && (kind.None? || r.kind == kind.value)
  }

  /** Newest first; rows created at the same instant keep insertion order. */
  function ListRows(rows: seq<Resource>, tenantId: string, kind: Option<string>, limit: nat): seq<Resource> {
    First(SortDescending(Filter(rows, Listed(tenantId, kind)), CreatedAt()), limit)
  }

  /** The listed rows are the newest active ones of the tenant and kind. */
  ghost predicate IsListing(rows: seq<Resource>, tenantId: string, kind: Option<string>, limit: nat,
                            listed: seq<Resource>) {
    && IsTop(Filter(rows, Listed(tenantId, kind)), CreatedAt(), limit, listed)
    && forall r :: r in listed ==>
         r in rows && r.tenantId == tenantId && r.status == "active" && (kind.None? || r.kind == kind.value)
  }

  lemma ListIsNewestFirst(rows: seq<Resource>, tenantId: string, kind: Option<string>, limit: nat)
    ensures IsListing(rows, tenantId, kind, limit, ListRows(rows, tenantId, kind, limit))
  {
    var active, listed := Filter(rows, Listed(tenantId, kind)), ListRows(rows, tenantId, kind, limit);
    FirstOfSortedIsTop(active, CreatedAt(), limit);
    forall r | r in listed ensures r in rows && Listed(tenantId, kind)(r) {
      assert r in multiset(listed) && r in multiset(active);
      FilterIn(rows, Listed(tenantId, kind), r);
    }
  }

  class ResourceRepository {
    var rows: seq<Resource>

    ghost predicate Valid()
      reads this
    {
      DistinctIds(rows)
    }

    constructor ()
      ensures Valid() && rows == []
    {
      rows := [];
    }

    method Add(r: Resource)
      requires Valid()
      modifies this
      ensures Valid() && rows == Put(old(rows), r)
    {
      var i := IndexOfId(rows, r.id);
      if i >= 0 {
        rows := rows[i := r];
      } else {
        rows := rows + [r];
      }
    }

    /** The popping loop of `upsert`, for a row with both key parts. */
    method PopDuplicates(r: Resource)
      requires Valid() && r.externalId.Some? && r.sourceId.Some?
      modifies this
      ensures rows == Purge(old(rows), r)
    {
      var values := rows;
      for i := 0 to |values|
        invariant rows == Purge(values[..i], r) + values[i..]
      {
        var existing := values[i];
        PurgeNext(values, i, r);
        if existing.tenantId == r.tenantId && existing.sourceId == r.sourceId
           && existing.externalId == r.externalId && existing.id != r.id {
          rows := Without(rows, existing.id);
        }
      }
      assert values[..|values|] == values && values[|values|..] == [];
    }

    method Upsert(r: Resource)
      requires Valid()
      modifies this
      ensures Valid() && rows == UpsertRow(old(rows), r)
    {
      FilterKeepsIds(rows, SurvivesUpsert(r));
      if r.externalId.Some? && r.sourceId.Some? {
        PopDuplicates(r);
      } else {
        FilterAll(rows, SurvivesUpsert(r));
      }
      Add(r);
    }

    method Get(id: string) returns (found: Option<Resource>)
      ensures IsFirst(rows, WithId(id), found) && found == GetById(rows, id)
    {
      GetIsFirst(rows, id);
      var i := IndexOfId(rows, id);
      found := if i >= 0 then Some(rows[i]) else None;
    }

    method FindByExternalId(tenantId: string, kind: string, externalId: string) returns (found: Option<Resource>)
      ensures found == FindRef(rows, tenantId, kind, externalId)
    {
      for i := 0 to |rows|
        invariant FindRef(rows[..i], tenantId, kind, externalId) == None
      {
        assert rows[..i + 1][..i] == rows[..i];
        if rows[i].tenantId == tenantId && rows[i].kind == kind && rows[i].externalId == Some(externalId) {
          FirstRefStays(rows, i + 1, tenantId, kind, externalId);
          return Some(rows[i]);
        }
      }
      assert rows[..|rows|] == rows;
      return None;
    }

    method ListFor(tenantId: string, kind: Option<string>, limit: nat) returns (listed: seq<Resource>)
      ensures IsListing(rows, tenantId, kind, limit, listed) && listed == ListRows(rows, tenantId, kind, limit)
    {
      ListIsNewestFirst(rows, tenantId, kind, limit);
      listed := SortDescending(Filter(rows, Listed(tenantId, kind)), CreatedAt());
      if |listed| > limit {
        listed := listed[..limit];
      }
    }

    method Delete(id: string)
      requires Valid()
      modifies this
      ensures Valid() && rows == Without(old(rows), id)
    {
      FilterKeepsIds(rows, OtherThan(id));
      rows := Without(rows, id);
    }
  }

  lemma {:induction false} FilterKeepsIds(rows: seq<Resource>, p: Resource -> bool)
    requires DistinctIds(rows)
    ensures DistinctIds(Filter(rows, p))
    decreases |rows|
  {
    if rows != [] {
      var n := |rows| - 1;
      FilterKeepsIds(rows[..n], p);
      forall x | x in Filter(rows[..n], p) ensures x.id != rows[n].id {
        FilterIn(rows[..n], p, x);
      }
    }
  }

  lemma WithoutMiddle(front: seq<Resource>, v: Resource, rest: seq<Resource>)
    requires forall x :: x in front || x in rest ==> x.id != v.id
    ensures Without(front + ([v] + rest), v.id) == front + rest
  {
    var others := OtherThan(v.id);
    FilterAppend(front, [v] + rest, others);
    FilterAppend([v], rest, others);
    FilterAll(front, others);
    FilterNone([v], others);
    FilterAll(rest, others);
    assert [] + rest == rest;
  }

  lemma PurgeOne(before: seq<Resource>, v: Resource, rest: seq<Resource>, r: Resource)
    requires forall x :: x in before || x in rest ==> x.id != v.id
    ensures Purge(before + [v], r) + rest
      == if Displaced(v, r) then Without(Purge(before, r) + ([v] + rest), v.id) else Purge(before, r) + ([v] + rest)
  {
    FilterNext(before, v, SurvivesUpsert(r));
    if Displaced(v, r) {
      forall x | x in Purge(before, r) ensures x.id != v.id {
        FilterIn(before, SurvivesUpsert(r), x);
      }
      WithoutMiddle(Purge(before, r), v, rest);
    } else {
      assert Purge(before, r) + [v] + rest == Purge(before, r) + ([v] + rest);
    }
  }

  /** One turn of the purging loop: a displaced row goes, any other stays. */
  lemma PurgeNext(values: seq<Resource>, i: nat, r: Resource)
    requires i < |values| && DistinctIds(values)
    ensures var front := Purge(values[..i], r);
      Purge(values[..i + 1], r) + values[i + 1..]
        == if Displaced(values[i], r) then Without(front + values[i..], values[i].id) else front + values[i..]
  {
    PurgeOne(values[..i], values[i], values[i + 1..], r);
    assert values[i..] == [values[i]] + values[i + 1..];
    assert values[..i + 1] == values[..i] + [values[i]];
  }

  lemma {:induction false} FirstRefStays(rows: seq<Resource>, n: nat, tenantId: string, kind: string,
                                         externalId: string)
    requires n <= |rows| && FindRef(rows[..n], tenantId, kind, externalId).Some?
    ensures FindRef(rows, tenantId, kind, externalId) == FindRef(rows[..n], tenantId, kind, externalId)
    decreases |rows|
  {
    if n < |rows| {
      assert rows[..|rows| - 1][..n] == rows[..n];
      FirstRefStays(rows[..|rows| - 1], n, tenantId, kind, externalId);
    } else {
      assert rows[..n] == rows;
    }
  }

  lemma PutKeepsIds(rows: seq<Resource>, r: Resource)
    requires DistinctIds(rows)
    ensures DistinctIds(Put(rows, r))
    ensures forall x :: x in Put(rows, r) <==> x == r || (x in rows && x.id != r.id)
  {
    var i := IndexOfId(rows, r.id);
    var rows' := Put(rows, r);
    forall x ensures x in rows' <==> x == r || (x in rows && x.id != r.id) {
      if x in rows && x.id != r.id {
        var j :| 0 <= j < |rows| && rows[j] == x;
        assert rows'[j] == x;
      }
      if i < 0 {
        assert rows'[|rows|] == r;
      } else {
        assert rows'[i] == r;
      }
    }
  }

  /** What storing one row does to any selection of the rows. */
  lemma PutFilter(rows: seq<Resource>, r: Resource, p: Resource -> bool)
    ensures IndexOfId(rows, r.id) == -1 ==> Filter(Put(rows, r), p) == Filter(rows, p) + (if p(r) then [r] else [])
    ensures var i := IndexOfId(rows, r.id);
      i >= 0 && !p(rows[i]) && !p(r) ==> Filter(Put(rows, r), p) == Filter(rows, p)
    ensures var i := IndexOfId(rows, r.id);
      i >= 0 && p(rows[i]) && p(r) ==>
        && |Filter(Put(rows, r), p)| == |Filter(rows, p)|
        && (|Filter(rows, p)| == 1 ==> Filter(rows, p) == [rows[i]] && Filter(Put(rows, r), p) == [r])
  {
    var i := IndexOfId(rows, r.id);
    if i >= 0 {
      FilterUpdate(rows, i, r, p);
    } else {
      FilterNext(rows, r, p);
    }
  }

  /** `find_by_external_id` is the first of all rows with that reference. */
  function RefersTo(tenantId: string, kind: string, externalId: string): Resource -> bool {
    (r: Resource) => HasRef(r, tenantId, kind, externalId)
  }

  lemma {:induction false} FindRefIsFirst(rows: seq<Resource>, tenantId: string, kind: string, externalId: string)
    ensures var all := Filter(rows, RefersTo(tenantId, kind, externalId));
      FindRef(rows, tenantId, kind, externalId) == if all == [] then None else Some(all[0])
    decreases |rows|
  {
    if rows != [] {
      FindRefIsFirst(rows[..|rows| - 1], tenantId, kind, externalId);
    }
  }
}
