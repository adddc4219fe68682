/** Upserting into Postgres, and what a keyed upsert means for both stores. */
module KeyedStore {
  import opened Common
  import opened Resources

  /** The part of a row that re-importing it must reproduce. */
  datatype Item = Item(kind: string, data: map<string, Json>, summary: string, status: string)

  function ItemOf(r: Resource): Item {
    Item(r.kind, r.data, r.summary, r.status)
  }

  /** What the rows say about each deduplication key; a later row wins. */
  function View(rows: seq<Resource>): map<Key, Item> {
    if rows == [] then map[]
    else
      var n := |rows| - 1;
      if KeyOf(rows[n]).Some? then View(rows[..n])[KeyOf(rows[n]).value := ItemOf(rows[n])] else View(rows[..n])
  }

  ghost predicate UniqueKeys(rows: seq<Resource>) {
    forall i, j :: 0 <= i < j < |rows| && KeyOf(rows[i]).Some? ==> KeyOf(rows[i]) != KeyOf(rows[j])
  }

  function HasKey(k: Key): Resource -> bool {
    (r: Resource) => KeyOf(r) == Some(k)
  }

  function IndexOfKey(rows: seq<Resource>, k: Key): (i: int)
    ensures -1 <= i < |rows|
    ensures i >= 0 ==> KeyOf(rows[i]) == Some(k)
    ensures i == -1 <==> forall r :: r in rows ==> KeyOf(r) != Some(k)
  {
    if rows == [] then -1
    else
      var n := |rows| - 1;
      assert rows == rows[..n] + [rows[n]];
      var i := IndexOfKey(rows[..n], k);
      if i >= 0 then i else if KeyOf(rows[n]) == Some(k) then n else -1
  }

  /**
   * INSERT ... ON CONFLICT (tenant_id, source_id, external_id) DO UPDATE. The existing row keeps its
   * id and creation time. A NULL key part never conflicts, so a known id is then a primary-key error.
   */
  function PgUpsert(table: seq<Resource>, r: Resource): Option<seq<Resource>> {
    var i := if KeyOf(r).Some? then IndexOfKey(table, KeyOf(r).value) else -1;
    if i >= 0 then
      Some(table[i := table[i].(data := r.data, summary := r.summary, status := r.status,
                                updatedAt := r.updatedAt, kind := r.kind)])
    else if IndexOfId(table, r.id) >= 0 then None
    else Some(table + [r])
  }

  lemma ViewNext(rows: seq<Resource>, r: Resource)
    ensures View(rows + [r]) == if KeyOf(r).Some? then View(rows)[KeyOf(r).value := ItemOf(r)] else View(rows)
  {
    assert (rows + [r])[..|rows|] == rows;
  }

  lemma {:induction false} ViewHasKey(rows: seq<Resource>, k: Key)
    ensures k in View(rows) <==> exists r :: r in rows && KeyOf(r) == Some(k)
    decreases |rows|
  {
    if rows != [] {
      var n := |rows| - 1;
      assert rows == rows[..n] + [rows[n]];
      ViewHasKey(rows[..n], k);
    }
  }

  lemma UpdateThenDrop<K, V>(m: map<K, V>, at: K, v: V, k: K)
    ensures m[at := v] - {k} == if at == k then m - {k} else (m - {k})[at := v]
  {
  }

  lemma ViewOfPurgeNext(front: seq<Resource>, x: Resource, r: Resource)
    requires KeyOf(r).Some? && x.id != r.id
    requires View(Purge(front, r)) == View(front) - {KeyOf(r).value}
    ensures View(Purge(front + [x], r)) == View(front + [x]) - {KeyOf(r).value}
  {
    FilterNext(front, x, SurvivesUpsert(r));
    ViewNext(front, x);
    if KeyOf(x).Some? {
      UpdateThenDrop(View(front), KeyOf(x).value, ItemOf(x), KeyOf(r).value);
    }
    if !Displaced(x, r) {
      ViewNext(Purge(front, r), x);
    }
  }

  lemma {:induction false} ViewOfPurge(rows: seq<Resource>, r: Resource)
    requires KeyOf(r).Some? && IndexOfId(rows, r.id) == -1
    ensures View(Purge(rows, r)) == View(rows) - {KeyOf(r).value}
    decreases |rows|
  {
    if rows != [] {
      var front, x := rows[..|rows| - 1], rows[|rows| - 1];
      assert rows == front + [x];
      ViewOfPurge(front, r);
      ViewOfPurgeNext(front, x, r);
    }
  }

  lemma PurgeAddsNoId(rows: seq<Resource>, r: Resource, id: string)
    requires IndexOfId(rows, id) == -1
    ensures IndexOfId(Purge(rows, r), id) == -1
  {
    forall x | x in Purge(rows, r) ensures x in rows {
      FilterIn(rows, SurvivesUpsert(r), x);
    }
  }

  /** A new keyed row replaces whatever the in-memory store said about its key. */
  lemma ViewOfUpsert(rows: seq<Resource>, r: Resource)
    requires KeyOf(r).Some? && IndexOfId(rows, r.id) == -1
    ensures View(UpsertRow(rows, r)) == View(rows)[KeyOf(r).value := ItemOf(r)]
  {
    PurgeAddsNoId(rows, r, r.id);
    ViewOfPurge(rows, r);
    ViewNext(Purge(rows, r), r);
  }

  lemma {:induction false} ViewOfOverwrite(rows: seq<Resource>, i: nat, r: Resource)
    requires i < |rows| && UniqueKeys(rows) && KeyOf(r).Some? && KeyOf(rows[i]) == KeyOf(r)
    ensures View(rows[i := r]) == View(rows)[KeyOf(r).value := ItemOf(r)]
    decreases |rows|
  {
    var n := |rows| - 1;
    if i == n {
      assert rows[i := r][..n] == rows[..n];
    } else {
      ViewOfOverwrite(rows[..n], i, r);
      assert rows[i := r][..n] == rows[..n][i := r];
    }
  }

  /** ON CONFLICT does the same to the table, and keeps its keys unique. */
  lemma ViewOfPgUpsert(table: seq<Resource>, r: Resource)
    requires UniqueKeys(table) && KeyOf(r).Some? && IndexOfId(table, r.id) == -1
    ensures PgUpsert(table, r).Some?
    ensures var table' := PgUpsert(table, r).value;
      UniqueKeys(table') && View(table') == View(table)[KeyOf(r).value := ItemOf(r)]
  {
    var k := KeyOf(r).value;
    var i := IndexOfKey(table, k);
    if i >= 0 {
      ViewOfOverwrite(table, i, PgUpsert(table, r).value[i]);
    } else {
      ViewNext(table, r);
    }
  }

  /**
   * The two stores part exactly on a known id: where the in-memory store overwrites the row, the
   * table refuses the insert unless the key, with both parts set, is already there.
   */
  lemma PgRefusesExactly(table: seq<Resource>, r: Resource)
    ensures PgUpsert(table, r).None? <==>
      && (exists x :: x in table && x.id == r.id)
      && (KeyOf(r).Some? ==> forall x :: x in table ==> KeyOf(x) != KeyOf(r))
  {
  }

  lemma {:induction false} PurgeLeavesOthers(rows: seq<Resource>, r: Resource, p: Resource -> bool)
    requires forall x :: KeyOf(x).Some? && KeyOf(x) == KeyOf(r) ==> !p(x)
    ensures Filter(Purge(rows, r), p) == Filter(rows, p)
    decreases |rows|
  {
    if rows != [] {
      var n := |rows| - 1;
      PurgeLeavesOthers(rows[..n], r, p);
      if !Displaced(rows[n], r) {
        FilterNext(Purge(rows[..n], r), rows[n], p);
      }
    }
  }

  lemma {:induction false} PurgeEmptiesKey(rows: seq<Resource>, r: Resource)
    requires KeyOf(r).Some? && IndexOfId(rows, r.id) == -1
    ensures Filter(Purge(rows, r), HasKey(KeyOf(r).value)) == []
    decreases |rows|
  {
    if rows != [] {
      var n := |rows| - 1;
      assert rows == rows[..n] + [rows[n]];
      PurgeEmptiesKey(rows[..n], r);
      if !Displaced(rows[n], r) {
        FilterNext(Purge(rows[..n], r), rows[n], HasKey(KeyOf(r).value));
      }
    }
  }

  /** Whatever was stored before, exactly one row is left under the key. */
  lemma UpsertLeavesOneRow(rows: seq<Resource>, r: Resource)
    requires KeyOf(r).Some? && IndexOfId(rows, r.id) == -1
    ensures Filter(UpsertRow(rows, r), HasKey(KeyOf(r).value)) == [r]
  {
    PurgeAddsNoId(rows, r, r.id);
    PurgeEmptiesKey(rows, r);
    FilterNext(Purge(rows, r), r, HasKey(KeyOf(r).value));
  }

  /** No row under another key, and no row without a key, moves or changes. */
  lemma UpsertLeavesOthers(rows: seq<Resource>, r: Resource, p: Resource -> bool)
    requires KeyOf(r).Some? && IndexOfId(rows, r.id) == -1
    requires forall x :: KeyOf(x) == KeyOf(r) ==> !p(x)
    ensures Filter(UpsertRow(rows, r), p) == Filter(rows, p)
  {
    PurgeAddsNoId(rows, r, r.id);
    PurgeLeavesOthers(rows, r, p);
    FilterNext(Purge(rows, r), r, p);
  }
}

/** Registered upstreams. */
module Sources {
  import opened Common
  import opened Resources

  datatype DataSource = DataSource(
    id: string,
    tenantId: string,
    config: map<string, Json>,
    lastSyncedAt: Option<int>,
    lastSyncOk: Option<bool>,
    lastSyncCount: Option<nat>,
    lastSyncError: Option<string>,
    status: string,
    createdAt: int)

  ghost predicate DistinctSources(sources: seq<DataSource>) {
    forall i, j :: 0 <= i < j < |sources| ==> sources[i].id != sources[j].id
  }

  function SourceIndex(sources: seq<DataSource>, id: string): (i: int)
    ensures -1 <= i < |sources|
    ensures i >= 0 ==> sources[i].id == id
    ensures i == -1 <==> forall s :: s in sources ==> s.id != id
  {
    if sources == [] then -1
    else
      var n := |sources| - 1;
      assert sources == sources[..n] + [sources[n]];
      var i := SourceIndex(sources[..n], id);
      if i >= 0 then i else if sources[n].id == id then n else -1
  }

  function IsActive(): DataSource -> bool {
    (s: DataSource) => s.status == "active"
  }

  function RegisteredAt(): DataSource -> int {
    (s: DataSource) => s.createdAt
  }

  function ActiveSources(sources: seq<DataSource>): seq<DataSource> {
    SortDescending(Filter(sources, IsActive()), RegisteredAt())
  }

  class DataSourceRepository {
    var sources: seq<DataSource>

    ghost predicate Valid()
      reads this
    {
      DistinctSources(sources)
    }

    constructor (sources: seq<DataSource>)
      requires DistinctSources(sources)
      ensures Valid() && this.sources == sources
    {
      this.sources := sources;
    }

    method Get(id: string) returns (found: Option<DataSource>)
      ensures found == var i := SourceIndex(sources, id); if i >= 0 then Some(sources[i]) else None
    {
      var i := SourceIndex(sources, id);
      found := if i >= 0 then Some(sources[i]) else None;
    }

    /** False stands for the `KeyError` of an unknown source. */
    method Update(source: DataSource) returns (known: bool)
      requires Valid()
      modifies this
      ensures Valid()
      ensures known <==> exists s :: s in old(sources) && s.id == source.id
      ensures sources == var i := SourceIndex(old(sources), source.id);
        if i >= 0 then old(sources)[i := source] else old(sources)
    {
      var i := SourceIndex(sources, source.id);
      if i < 0 {
        return false;
      }
      assert sources[i] in sources;
      sources := sources[i := source];
      return true;
    }
  }
}

/** One sync run: fetch, then upsert every item under its key. */
module Sync {
  import opened Common
  import opened PyText
  import opened Resources
  import opened KeyedStore
  import opened Sources

  type Row = map<string, Json>

  /** What the adapter's `fetch` does; only an adapter error is caught. */
  datatype Fetch = Fetched(items: seq<Row>) | AdapterFailed(message: string) | Crashed

  datatype SyncReport = SyncReport(sourceId: string, ok: bool, itemCount: nat, error: Option<string>)

  datatype SyncResult = Report(report: SyncReport) | Raised

  /** JSON text and its SHA-256 prefix, as functions of the row. */
  datatype Encoders = Encoders(digest: Row -> string, dumps: Row -> string)

  const ID_FIELDS := ["external_id", "id", "code", "sku", "slug"]
  const SUMMARY_FIELDS := ["title", "name", "label", "description"]

  /** `str(value)` for a string or an integer; a boolean is an integer to Python. */
  function ScalarText(v: Json): Option<string> {
    match v
    case JStr(s) => Some(s)
    case JInt(n) => Some(IntText(n))
    case JBool(b) => Some(if b then "True" else "False")
    case _ => None
  }

  function FirstId(row: Row, fields: seq<string>): Option<string> {
    if fields == [] then None
    else
      var text := if fields[0] in row then ScalarText(row[fields[0]]) else None;
      if text.Some? && Strip(text.value) != "" then text else FirstId(row, fields[1..])
  }

  function ExternalIdOf(row: Row, enc: Encoders): string {
    match FirstId(row, ID_FIELDS)
    case Some(id) => id
    case None => enc.digest(row)
  }

  function FirstText(row: Row, fields: seq<string>): Option<string> {
    if fields == [] then None
    else if fields[0] in row && row[fields[0]].JStr? && Strip(row[fields[0]].text) != "" then
      Some(Truncate(Strip(row[fields[0]].text), 240))
    else FirstText(row, fields[1..])
  }

  function SummaryOf(row: Row, enc: Encoders): string {
    match FirstText(row, SUMMARY_FIELDS)
    case Some(text) => text
    case None => Truncate(enc.dumps(row), 240)
  }

  /** A `resource_kind` that is not a string fails the model's validation. */
  function KindOf(config: map<string, Json>): Option<string> {
    if "resource_kind" !in config then Some("item")
    else if config["resource_kind"].JStr? then Some(config["resource_kind"].text)
    else None
  }

  /** The constant part of a run: whose rows, of which kind, rendered how. */
  datatype Job = Job(tenantId: string, sourceId: string, kind: string, enc: Encoders)

  function RowFor(job: Job, row: Row, mint: Mint): Resource {
    Resource(mint.id, job.tenantId, Some(job.sourceId), job.kind, Some(ExternalIdOf(row, job.enc)), row,
             SummaryOf(row, job.enc), "active", mint.at, mint.at)
  }

  function KeyFor(job: Job, row: Row): Key {
    Key(job.tenantId, job.sourceId, ExternalIdOf(row, job.enc))
  }

  function ItemFor(job: Job, row: Row): Item {
    Item(job.kind, row, SummaryOf(row, job.enc), "active")
  }

  function SyncRows(rows: seq<Resource>, job: Job, items: seq<Row>, mints: seq<Mint>): seq<Resource>
    requires |mints| == |items|
  {
    if items == [] then rows
    else
      var n := |items| - 1;
      UpsertRow(SyncRows(rows, job, items[..n], mints[..n]), RowFor(job, items[n], mints[n]))
  }

  /** The same items against the Postgres table. */
  function PgSyncRows(table: seq<Resource>, job: Job, items: seq<Row>, mints: seq<Mint>): Option<seq<Resource>>
    requires |mints| == |items|
  {
    if items == [] then Some(table)
    else
      var n := |items| - 1;
      var before := PgSyncRows(table, job, items[..n], mints[..n]);
      if before.None? then None else PgUpsert(before.value, RowFor(job, items[n], mints[n]))
  }

  /** Every fetched key with the last item that has it. */
  function LastItems(job: Job, items: seq<Row>): map<Key, Item> {
    if items == [] then map[]
    else
      var n := |items| - 1;
      LastItems(job, items[..n])[KeyFor(job, items[n]) := ItemFor(job, items[n])]
  }

  datatype Outcome = Outcome(result: SyncResult, rows: seq<Resource>, sources: seq<DataSource>)

  /** The source row after a run: the sync metadata is written whether or not the fetch worked. */
  function Stamp(source: DataSource, report: SyncReport, finishedAt: int): DataSource {
    source.(lastSyncedAt := Some(finishedAt), lastSyncOk := Some(report.ok),
            lastSyncCount := Some(report.itemCount), lastSyncError := report.error)
  }

  function SyncOutcome(rows: seq<Resource>, sources: seq<DataSource>, sourceId: string, enc: Encoders,
                       fetch: Fetch, mints: seq<Mint>, finishedAt: int): Outcome
    requires fetch.Fetched? ==> |mints| == |fetch.items|
  {
    var i := SourceIndex(sources, sourceId);
    if i == -1 || fetch.Crashed? then Outcome(Raised, rows, sources)
    else if fetch.AdapterFailed? then
      var report := SyncReport(sourceId, false, 0, Some(Truncate(fetch.message, 500)));
      Outcome(Report(report), rows, sources[i := Stamp(sources[i], report, finishedAt)])
    else
      var kind := KindOf(sources[i].config);
      var report := SyncReport(sourceId, true, |fetch.items|, None);
      var sources' := sources[i := Stamp(sources[i], report, finishedAt)];
      if fetch.items == [] then Outcome(Report(report), rows, sources')
      else if kind.None? then Outcome(Raised, rows, sources)
      else
        var job := Job(sources[i].tenantId, sourceId, kind.value, enc);
        Outcome(Report(report), SyncRows(rows, job, fetch.items, mints), sources')
  }

  class ResourceSynchronizer {
    const resources: ResourceRepository
    const sources: DataSourceRepository

    constructor (resources: ResourceRepository, sources: DataSourceRepository)
      ensures this.resources == resources && this.sources == sources
    {
      this.resources := resources;
      this.sources := sources;
    }

    method UpsertItems(job: Job, items: seq<Row>, mints: seq<Mint>) returns (count: nat)
      requires resources.Valid() && |mints| == |items|
      modifies resources
      ensures resources.Valid() && count == |items|
      ensures resources.rows == SyncRows(old(resources.rows), job, items, mints)
    {
      count := 0;
      while count < |items|
        invariant count <= |items| && resources.Valid()
        invariant resources.rows == SyncRows(old(resources.rows), job, items[..count], mints[..count])
      {
        SyncNext(old(resources.rows), job, items, mints, count);
        resources.Upsert(RowFor(job, items[count], mints[count]));
        count := count + 1;
      }
      assert items[..count] == items && mints[..count] == mints;
    }

    method Sync(sourceId: string, enc: Encoders, fetch: Fetch, mints: seq<Mint>, finishedAt: int)
      returns (result: SyncResult)
      requires resources.Valid() && sources.Valid()
      requires fetch.Fetched? ==> |mints| == |fetch.items|
      modifies resources, sources
      ensures resources.Valid() && sources.Valid()
      ensures Outcome(result, resources.rows, sources.sources)
        == SyncOutcome(old(resources.rows), old(sources.sources), sourceId, enc, fetch, mints, finishedAt)
    {
      var found := sources.Get(sourceId);
      if found.None? || fetch.Crashed? {
        return Raised;
      }
      var source := found.value;
      var ok, error, count, items := true, None, 0, [];
      match fetch {
        case AdapterFailed(message) =>
          ok, error := false, Some(Truncate(message, 500));
        case Fetched(rows) =>
          items := rows;
      }
      if ok && items != [] {
        var kind := KindOf(source.config);
        if kind.None? {
          return Raised;
        }
        count := UpsertItems(Job(source.tenantId, source.id, kind.value, enc), items, mints);
      }
      var known := sources.Update(source.(lastSyncedAt := Some(finishedAt), lastSyncOk := Some(ok),
                                          lastSyncCount := Some(count), lastSyncError := error));
      return Report(SyncReport(source.id, ok, count, error));
    }
  }

  lemma SyncNext(rows: seq<Resource>, job: Job, items: seq<Row>, mints: seq<Mint>, n: nat)
    requires |mints| == |items| && n < |items|
    ensures SyncRows(rows, job, items[..n + 1], mints[..n + 1])
      == UpsertRow(SyncRows(rows, job, items[..n], mints[..n]), RowFor(job, items[n], mints[n]))
  {
    assert items[..n + 1][..n] == items[..n] && mints[..n + 1][..n] == mints[..n];
  }

  // ---------- what a sync leaves behind ----------

  lemma UpsertIds(rows: seq<Resource>, r: Resource, id: string)
    requires id != r.id && IndexOfId(rows, id) == -1
    ensures IndexOfId(UpsertRow(rows, r), id) == -1
  {
    PurgeAddsNoId(rows, r, id);
  }

  lemma {:induction false} StillFresh(rows: seq<Resource>, job: Job, items: seq<Row>, mints: seq<Mint>, id: string)
    requires |mints| == |items| && IndexOfId(rows, id) == -1
    requires forall i :: 0 <= i < |mints| ==> mints[i].id != id
    ensures IndexOfId(SyncRows(rows, job, items, mints), id) == -1
    decreases |items|
  {
    if items != [] {
      var n := |items| - 1;
      StillFresh(rows, job, items[..n], mints[..n], id);
      UpsertIds(SyncRows(rows, job, items[..n], mints[..n]), RowFor(job, items[n], mints[n]), id);
    }
  }

  lemma AddThenUpdate<K, V>(m: map<K, V>, w: map<K, V>, k: K, v: V)
    ensures (m + w)[k := v] == m + w[k := v]
  {
  }

  lemma RowForIsKeyed(job: Job, row: Row, mint: Mint)
    ensures KeyOf(RowFor(job, row, mint)) == Some(KeyFor(job, row))
    ensures ItemOf(RowFor(job, row, mint)) == ItemFor(job, row)
  {
  }

  lemma ViewOfOneMore(rows: seq<Resource>, job: Job, items: seq<Row>, mints: seq<Mint>, n: nat)
    requires |mints| == |items| == n + 1 && FreshMints(rows, mints)
    ensures View(SyncRows(rows, job, items, mints))
      == View(SyncRows(rows, job, items[..n], mints[..n]))[KeyFor(job, items[n]) := ItemFor(job, items[n])]
  {
    StillFresh(rows, job, items[..n], mints[..n], mints[n].id);
    RowForIsKeyed(job, items[n], mints[n]);
    ViewOfUpsert(SyncRows(rows, job, items[..n], mints[..n]), RowFor(job, items[n], mints[n]));
  }

  /** From any store, every fetched key ends up with its last item and every other key as it was. */
  lemma {:induction false} LastItemWins(rows: seq<Resource>, job: Job, items: seq<Row>, mints: seq<Mint>)
    requires |mints| == |items| && FreshMints(rows, mints)
    ensures View(SyncRows(rows, job, items, mints)) == View(rows) + LastItems(job, items)
    decreases |items|
  {
    if items != [] {
      var n := |items| - 1;
      LastItemWins(rows, job, items[..n], mints[..n]);
      ViewOfOneMore(rows, job, items, mints, n);
      AddThenUpdate(View(rows), LastItems(job, items[..n]), KeyFor(job, items[n]), ItemFor(job, items[n]));
    }
  }

  predicate IsLastWithKey(job: Job, items: seq<Row>, j: nat)
    requires j < |items|
  {
    forall i :: j < i < |items| ==> KeyFor(job, items[i]) != KeyFor(job, items[j])
  }

  /** Exactly one row per fetched key, and it is the row made from the last item with that key. */
  lemma {:induction false} OneRowPerKey(rows: seq<Resource>, job: Job, items: seq<Row>, mints: seq<Mint>, j: nat)
    requires |mints| == |items| && FreshMints(rows, mints)
    requires j < |items| && IsLastWithKey(job, items, j)
    ensures Filter(SyncRows(rows, job, items, mints), HasKey(KeyFor(job, items[j])))
      == [RowFor(job, items[j], mints[j])]
    decreases |items|
  {
    var n := |items| - 1;
    var before := SyncRows(rows, job, items[..n], mints[..n]);
    var r := RowFor(job, items[n], mints[n]);
    StillFresh(rows, job, items[..n], mints[..n], mints[n].id);
    if j == n {
      UpsertLeavesOneRow(before, r);
    } else {
      OneRowPerKey(rows, job, items[..n], mints[..n], j);
      UpsertLeavesOthers(before, r, HasKey(KeyFor(job, items[j])));
    }
  }

  function NotFetched(job: Job, items: seq<Row>): Resource -> bool {
    (r: Resource) => KeyOf(r).None? || KeyOf(r).value !in LastItems(job, items)
  }

  lemma {:induction false} FilterSame<T(!new)>(s: seq<T>, p: T -> bool, q: T -> bool, t: seq<T>)
    requires Filter(s, p) == Filter(t, p)
    requires forall x :: q(x) ==> p(x)
    ensures Filter(s, q) == Filter(t, q)
  {
    FilterTwice(s, p, q);
    FilterTwice(t, p, q);
  }

  lemma {:induction false} FilterTwice<T(!new)>(s: seq<T>, p: T -> bool, q: T -> bool)
    requires forall x :: q(x) ==> p(x)
    ensures Filter(Filter(s, p), q) == Filter(s, q)
    decreases |s|
  {
    if s != [] {
      var n := |s| - 1;
      FilterTwice(s[..n], p, q);
      FilterNext(Filter(s[..n], p), s[n], q);
    }
  }

  /** All rows whose key was not fetched stay as they were, in the same order. */
  lemma {:induction false} OtherRowsKept(rows: seq<Resource>, job: Job, items: seq<Row>, mints: seq<Mint>)
    requires |mints| == |items| && FreshMints(rows, mints)
    ensures Filter(SyncRows(rows, job, items, mints), NotFetched(job, items)) == Filter(rows, NotFetched(job, items))
    decreases |items|
  {
    if items != [] {
      var n := |items| - 1;
      var before := SyncRows(rows, job, items[..n], mints[..n]);
      OtherRowsKept(rows, job, items[..n], mints[..n]);
      FilterSame(before, NotFetched(job, items[..n]), NotFetched(job, items), rows);
      StillFresh(rows, job, items[..n], mints[..n], mints[n].id);
      UpsertLeavesOthers(before, RowFor(job, items[n], mints[n]), NotFetched(job, items));
    }
  }

  /** Syncing the same items again changes nothing the keys say. */
  lemma ResyncIsIdempotent(rows: seq<Resource>, job: Job, items: seq<Row>, mints: seq<Mint>, again: seq<Mint>)
    requires |mints| == |items| == |again| && FreshMints(rows, mints)
    requires FreshMints(SyncRows(rows, job, items, mints), again)
    ensures View(SyncRows(SyncRows(rows, job, items, mints), job, items, again))
      == View(SyncRows(rows, job, items, mints))
  {
    LastItemWins(rows, job, items, mints);
    LastItemWins(SyncRows(rows, job, items, mints), job, items, again);
  }

  lemma {:induction false} PgStillFresh(table: seq<Resource>, job: Job, items: seq<Row>, mints: seq<Mint>, id: string)
    requires |mints| == |items| && IndexOfId(table, id) == -1
    requires forall i :: 0 <= i < |mints| ==> mints[i].id != id
    requires PgSyncRows(table, job, items, mints).Some?
    ensures IndexOfId(PgSyncRows(table, job, items, mints).value, id) == -1
    decreases |items|
  {
    if items != [] {
      var n := |items| - 1;
      PgStillFresh(table, job, items[..n], mints[..n], id);
      assert mints[n].id != id;
    }
  }

  /** Postgres never refuses a sync, and ends with the same view as the in-memory store. */
  lemma {:induction false} AdaptersAgree(rows: seq<Resource>, table: seq<Resource>, job: Job,
                                         items: seq<Row>, mints: seq<Mint>)
    requires |mints| == |items| && FreshMints(rows, mints) && FreshMints(table, mints)
    requires UniqueKeys(table) && View(table) == View(rows)
    ensures var after := PgSyncRows(table, job, items, mints);
      && after.Some? && UniqueKeys(after.value)
      && View(after.value) == View(SyncRows(rows, job, items, mints))
    decreases |items|
  {
    if items != [] {
      var n := |items| - 1;
      AdaptersAgree(rows, table, job, items[..n], mints[..n]);
      PgStillFresh(table, job, items[..n], mints[..n], mints[n].id);
      ViewOfPgUpsert(PgSyncRows(table, job, items[..n], mints[..n]).value, RowFor(job, items[n], mints[n]));
      ViewOfOneMore(rows, job, items, mints, n);
    }
  }

  // ---------- the external id ----------

  predicate Usable(row: Row, field: string) {
    field in row && ScalarText(row[field]).Some? && Strip(ScalarText(row[field]).value) != ""
  }

  ghost predicate FirstUsable(row: Row, fields: seq<string>, i: int) {
    0 <= i < |fields| && Usable(row, fields[i]) && forall j :: 0 <= j < i ==> !Usable(row, fields[j])
  }

  /**
   * The external id is the text of the first of the five id fields with a usable scalar, as it
   * stands and not trimmed; only a row without any gets its digest.
   */
  lemma ExternalIdExactly(row: Row, enc: Encoders)
    ensures forall i :: FirstUsable(row, ID_FIELDS, i) ==> ExternalIdOf(row, enc) == ScalarText(row[ID_FIELDS[i]]).value
    ensures (forall i :: 0 <= i < |ID_FIELDS| ==> !Usable(row, ID_FIELDS[i])) ==>
      ExternalIdOf(row, enc) == enc.digest(row)
  {
    FirstIdExactly(row, ID_FIELDS);
  }

  lemma {:induction false} FirstIdExactly(row: Row, fields: seq<string>)
    ensures forall i :: FirstUsable(row, fields, i) ==> FirstId(row, fields) == ScalarText(row[fields[i]])
    ensures (forall i :: 0 <= i < |fields| ==> !Usable(row, fields[i])) ==> FirstId(row, fields).None?
    decreases |fields|
  {
    if fields != [] {
      var rest := fields[1..];
      FirstIdExactly(row, rest);
      forall i | FirstUsable(row, fields, i)
        ensures FirstId(row, fields) == ScalarText(row[fields[i]])
      {
        if i > 0 {
          assert rest[i - 1] == fields[i] && !Usable(row, fields[0]);
          assert FirstUsable(row, rest, i - 1);
        }
      }
    }
  }
}
