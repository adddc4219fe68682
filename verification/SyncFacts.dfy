/** What one sync leaves, field by field. */
module SyncFacts {
  import opened Common
  import opened PyText
  import opened Resources
  import opened KeyedStore
  import opened Sources
  import opened Sync

  // ---------- keys, by their fields ----------

  /** The row of this tenant, source and external id. */
  function Under(tenantId: string, sourceId: string, externalId: string): Resource -> bool {
    (r: Resource) => r.tenantId == tenantId && r.sourceId == Some(sourceId) && r.externalId == Some(externalId)
  }

  lemma {:induction false} FilterAgree<T(!new)>(s: seq<T>, p: T -> bool, q: T -> bool)
    requires forall x :: p(x) <==> q(x)
    ensures Filter(s, p) == Filter(s, q)
    decreases |s|
  {
    if s != [] {
      FilterAgree(s[..|s| - 1], p, q);
    }
  }

  /** After an upsert the three fields name one row, and every other row is as it was. */
  lemma UpsertByFields(rows: seq<Resource>, r: Resource, tenantId: string, sourceId: string, externalId: string)
    requires r.sourceId.Some? && r.externalId.Some? && IndexOfId(rows, r.id) == -1
    ensures Filter(UpsertRow(rows, r), Under(tenantId, sourceId, externalId)) ==
      if r.tenantId == tenantId && r.sourceId == Some(sourceId) && r.externalId == Some(externalId) then [r]
      else Filter(rows, Under(tenantId, sourceId, externalId))
  {
    var k := Key(tenantId, sourceId, externalId);
    FilterAgree(rows, Under(tenantId, sourceId, externalId), HasKey(k));
    FilterAgree(UpsertRow(rows, r), Under(tenantId, sourceId, externalId), HasKey(k));
    if KeyOf(r) == Some(k) {
      UpsertLeavesOneRow(rows, r);
    } else {
      UpsertLeavesOthers(rows, r, HasKey(k));
    }
  }

  /** On a conflict the table's row keeps its id and creation time, and all other rows stay in place. */
  lemma ConflictKeepsIdentity(table: seq<Resource>, i: nat, r: Resource)
    requires UniqueKeys(table) && i < |table| && r.sourceId.Some? && r.externalId.Some?
    requires Under(r.tenantId, r.sourceId.value, r.externalId.value)(table[i])
    ensures PgUpsert(table, r) == Some(table[i := r.(id := table[i].id, createdAt := table[i].createdAt)])
  {
    var j := IndexOfKey(table, KeyOf(r).value);
    assert table[i] in table;
    assert j == i;
  }

  /** Without one it is appended as it is, unless its id is known: then it is refused. */
  lemma InsertAppends(table: seq<Resource>, r: Resource)
    requires r.sourceId.None? || r.externalId.None? ||
      forall x :: x in table ==> !Under(r.tenantId, r.sourceId.value, r.externalId.value)(x)
    ensures PgUpsert(table, r) == if exists x :: x in table && x.id == r.id then None else Some(table + [r])
  {
    if r.sourceId.Some? && r.externalId.Some? {
      forall x | x in table ensures KeyOf(x) != KeyOf(r) {
        assert !Under(r.tenantId, r.sourceId.value, r.externalId.value)(x);
      }
    }
  }

  // ---------- what an item is called ----------

  /** `str(value)` of a text, a number or a flag, which Python counts as a number. */
  ghost predicate IsScalarText(v: Json, text: string) {
    match v
    case JStr(s) => text == s
    case JInt(n) => text == IntText(n)
    case JBool(b) => text == if b then "True" else "False"
    case _ => false
  }

  ghost predicate IsBlank(text: string) {
    forall p :: 0 <= p < |text| ==> IsSpace(text[p])
  }

  /** The field has a scalar whose text is not blank. */
  ghost predicate Names(row: Row, field: string, text: string) {
    field in row && IsScalarText(row[field], text) && !IsBlank(text)
  }

  lemma BlankStrips(text: string)
    ensures Strip(text) == "" <==> IsBlank(text)
  {
    StripIsExact(text, IsSpace);
    var t := Strip(text);
    var a, b :| Surrounds(text, a, t, b, IsSpace);
    if t == "" {
      assert forall p :: 0 <= p < |text| ==> text[p] == (a + b)[p];
    } else {
      assert text[|a|] == t[0];
    }
  }

  /** The first of the fields that has such a text. */
  ghost predicate FirstNamed(row: Row, fields: seq<string>, i: int, text: string) {
    && 0 <= i < |fields| && Names(row, fields[i], text)
    && forall j, t :: 0 <= j < i ==> !Names(row, fields[j], t)
  }

  ghost predicate FindsNamed(row: Row, fields: seq<string>, found: Option<string>) {
    if found.Some? then exists i :: FirstNamed(row, fields, i, found.value) else NoneNamed(row, fields)
  }

  ghost predicate NoneNamed(row: Row, fields: seq<string>) {
    forall j, t :: 0 <= j < |fields| ==> !Names(row, fields[j], t)
  }

  /** The id is the text of the first usable field, and the digest of a row that has none. */
  ghost predicate IsExternalId(row: Row, enc: Encoders, id: string) {
    var fields := ["external_id", "id", "code", "sku", "slug"];
    (exists i :: FirstNamed(row, fields, i, id)) || (NoneNamed(row, fields) && id == enc.digest(row))
  }

  lemma UsableNames(row: Row, field: string)
    ensures Usable(row, field) ==> Names(row, field, ScalarText(row[field]).value)
    ensures forall t :: Names(row, field, t) ==> Usable(row, field) && ScalarText(row[field]) == Some(t)
  {
    if field in row && ScalarText(row[field]).Some? {
      BlankStrips(ScalarText(row[field]).value);
    }
    forall t | Names(row, field, t) ensures Usable(row, field) && ScalarText(row[field]) == Some(t) {
      assert ScalarText(row[field]) == Some(t);
    }
  }

  lemma {:induction false} FirstIdNames(row: Row, fields: seq<string>)
    ensures FindsNamed(row, fields, FirstId(row, fields))
    decreases |fields|
  {
    if fields != [] {
      UsableNames(row, fields[0]);
      if Usable(row, fields[0]) {
        assert FirstNamed(row, fields, 0, ScalarText(row[fields[0]]).value);
        assert FirstId(row, fields) == ScalarText(row[fields[0]]);
      } else {
        FirstIdNames(row, fields[1..]);
        LaterNamed(row, fields, FirstId(row, fields[1..]));
        assert FirstId(row, fields) == FirstId(row, fields[1..]);
      }
    }
  }

  lemma LaterNamed(row: Row, fields: seq<string>, text: Option<string>)
    requires fields != [] && forall t :: !Names(row, fields[0], t)
    requires FindsNamed(row, fields[1..], text)
    ensures FindsNamed(row, fields, text)
  {
    forall j | 1 <= j < |fields| ensures fields[j] == fields[1..][j - 1] { }
    if text.Some? {
      var i :| FirstNamed(row, fields[1..], i, text.value);
      assert FirstNamed(row, fields, i + 1, text.value);
    }
  }

  lemma ExternalIdIs(row: Row, enc: Encoders)
    ensures IsExternalId(row, enc, ExternalIdOf(row, enc))
  {
    FirstIdNames(row, ["external_id", "id", "code", "sku", "slug"]);
  }

  /** The field is a text that is not blank; stripped, it starts with these characters, 240 at most. */
  ghost predicate Titles(row: Row, field: string, text: string) {
    && field in row && row[field].JStr? && !IsBlank(row[field].text)
    && exists t :: IsStripped(row[field].text, t, IsSpace) && text == if |t| <= 240 then t else t[..240]
  }

  ghost predicate FirstTitled(row: Row, fields: seq<string>, i: int, text: string) {
    && 0 <= i < |fields| && Titles(row, fields[i], text)
    && forall j, t :: 0 <= j < i ==> !Titles(row, fields[j], t)
  }

  ghost predicate FindsTitled(row: Row, fields: seq<string>, found: Option<string>) {
    if found.Some? then exists i :: FirstTitled(row, fields, i, found.value) else NoneTitled(row, fields)
  }

  ghost predicate NoneTitled(row: Row, fields: seq<string>) {
    forall j, t :: 0 <= j < |fields| ==> !Titles(row, fields[j], t)
  }

  /** The summary is the first of four fields with text, and the start of the row's JSON without one. */
  ghost predicate IsSummary(row: Row, enc: Encoders, text: string) {
    var fields, dump := ["title", "name", "label", "description"], enc.dumps(row);
    || (exists i :: FirstTitled(row, fields, i, text))
    || (NoneTitled(row, fields) && text == if |dump| <= 240 then dump else dump[..240])
  }

  lemma {:induction false} FirstTextTitles(row: Row, fields: seq<string>)
    ensures FindsTitled(row, fields, FirstText(row, fields))
    decreases |fields|
  {
    if fields != [] {
      if fields[0] in row && row[fields[0]].JStr? && Strip(row[fields[0]].text) != "" {
        BlankStrips(row[fields[0]].text);
        StripIsExact(row[fields[0]].text, IsSpace);
        var text := Truncate(Strip(row[fields[0]].text), 240);
        assert Titles(row, fields[0], text);
        assert FirstTitled(row, fields, 0, text) && FirstText(row, fields) == Some(text);
      } else {
        if fields[0] in row && row[fields[0]].JStr? {
          BlankStrips(row[fields[0]].text);
        }
        FirstTextTitles(row, fields[1..]);
        LaterTitled(row, fields, FirstText(row, fields[1..]));
        assert FirstText(row, fields) == FirstText(row, fields[1..]);
      }
    }
  }

  lemma LaterTitled(row: Row, fields: seq<string>, text: Option<string>)
    requires fields != [] && forall t :: !Titles(row, fields[0], t)
    requires FindsTitled(row, fields[1..], text)
    ensures FindsTitled(row, fields, text)
  {
    forall j | 1 <= j < |fields| ensures fields[j] == fields[1..][j - 1] { }
    if text.Some? {
      var i :| FirstTitled(row, fields[1..], i, text.value);
      assert FirstTitled(row, fields, i + 1, text.value);
    }
  }

  lemma SummaryIs(row: Row, enc: Encoders)
    ensures IsSummary(row, enc, SummaryOf(row, enc))
  {
    FirstTextTitles(row, ["title", "name", "label", "description"]);
  }

  // ---------- one sync ----------

  /** `resource_kind`, which must be a text, or "item". */
  ghost predicate IsKind(config: map<string, Json>, kind: string) {
    if "resource_kind" in config then config["resource_kind"] == JStr(kind) else kind == "item"
  }

  /** The row of an item: of the source's tenant and kind, holding the item as it came. */
  ghost predicate IsRowOf(r: Resource, source: DataSource, item: Row, enc: Encoders, mint: Mint) {
    && r.id == mint.id && r.createdAt == mint.at && r.updatedAt == mint.at
    && r.tenantId == source.tenantId && r.sourceId == Some(source.id) && IsKind(source.config, r.kind)
    && r.externalId.Some? && IsExternalId(item, enc, r.externalId.value)
    && r.data == item && IsSummary(item, enc, r.summary) && r.status == "active"
  }

  /** The time stamp, the outcome and the count of a sync, and nothing else of the source. */
  function Stamped(source: DataSource, at: int, ok: bool, count: nat, error: Option<string>): DataSource {
    source.(lastSyncedAt := Some(at), lastSyncOk := Some(ok), lastSyncCount := Some(count), lastSyncError := error)
  }

  /** What a sync reports and notes at its source. */
  ghost predicate Notes(o: Outcome, sources: seq<DataSource>, i: nat, at: int, ok: bool, count: nat,
                        error: Option<string>)
    requires i < |sources|
  {
    && o.result == Report(SyncReport(sources[i].id, ok, count, error))
    && o.sources == sources[i := Stamped(sources[i], at, ok, count, error)]
  }

  lemma OwnSource(sources: seq<DataSource>, i: nat)
    requires DistinctSources(sources) && i < |sources|
    ensures SourceIndex(sources, sources[i].id) == i
  {
    assert sources[i] in sources;
  }

  /** Which fetches fail, and what is left then: an adapter's error is noted, everything else raises. */
  lemma FailedSync(rows: seq<Resource>, sources: seq<DataSource>, i: nat, enc: Encoders, fetch: Fetch,
                   mints: seq<Mint>, at: int)
    requires DistinctSources(sources) && i < |sources| && (fetch.Fetched? ==> |mints| == |fetch.items|)
    ensures var o := SyncOutcome(rows, sources, sources[i].id, enc, fetch, mints, at);
      match fetch
      case AdapterFailed(message) =>
        o.rows == rows
        && Notes(o, sources, i, at, false, 0, Some(if |message| <= 500 then message else message[..500]))
      case Crashed => o == Outcome(Raised, rows, sources)
      case Fetched(items) =>
        && (items == [] ==> o.rows == rows && Notes(o, sources, i, at, true, 0, None))
        && (items != [] && (forall kind :: !IsKind(sources[i].config, kind)) ==> o == Outcome(Raised, rows, sources))
  {
    OwnSource(sources, i);
    var config := sources[i].config;
    if KindOf(config).Some? {
      assert IsKind(config, KindOf(config).value);
    }
  }

  /** An item whose external id no later item has. */
  ghost predicate IsLast(items: seq<Row>, enc: Encoders, j: int) {
    0 <= j < |items| && forall i :: j < i < |items| ==> ExternalIdOf(items[i], enc) != ExternalIdOf(items[j], enc)
  }

  function Elsewhere(tenantId: string, sourceId: string): Resource -> bool {
    (r: Resource) => r.tenantId != tenantId || r.sourceId != Some(sourceId) || r.externalId.None?
  }

  /**
   * A sync that fetches: it is noted with its count; of the items with one external id exactly one row
   * is left, made of the last of them; and the rows of other tenants and sources stay as they were.
   */
  lemma SyncStores(rows: seq<Resource>, sources: seq<DataSource>, i: nat, enc: Encoders, items: seq<Row>,
                   mints: seq<Mint>, at: int, kind: string)
    requires DistinctSources(sources) && i < |sources| && |mints| == |items| && FreshMints(rows, mints)
    requires items != [] && IsKind(sources[i].config, kind)
    ensures var s := sources[i];
      var o := SyncOutcome(rows, sources, s.id, enc, Fetched(items), mints, at);
      && Notes(o, sources, i, at, true, |items|, None)
      && (forall j :: IsLast(items, enc, j) ==> LeavesRow(o.rows, s, items[j], enc, mints[j]))
      && Filter(o.rows, Elsewhere(s.tenantId, s.id)) == Filter(rows, Elsewhere(s.tenantId, s.id))
  {
    var s := sources[i];
    var job := Job(s.tenantId, s.id, kind, enc);
    OwnSource(sources, i);
    assert KindOf(s.config) == Some(kind);
    var after := SyncRows(rows, job, items, mints);
    forall j | IsLast(items, enc, j) ensures LeavesRow(after, s, items[j], enc, mints[j]) {
      LastLeavesRow(rows, s, kind, enc, items, mints, j);
    }
    OtherRowsKept(rows, job, items, mints);
    ElsewhereIsNotFetched(job, items);
    FilterSame(after, NotFetched(job, items), Elsewhere(s.tenantId, s.id), rows);
  }

  /** Exactly one row is left under the item's id, and it is the item's. */
  ghost predicate LeavesRow(rows: seq<Resource>, source: DataSource, item: Row, enc: Encoders, mint: Mint) {
    var left := Filter(rows, Under(source.tenantId, source.id, ExternalIdOf(item, enc)));
    |left| == 1 && IsRowOf(left[0], source, item, enc, mint)
  }

  lemma LastLeavesRow(rows: seq<Resource>, s: DataSource, kind: string, enc: Encoders, items: seq<Row>,
                      mints: seq<Mint>, j: nat)
    requires |mints| == |items| && FreshMints(rows, mints) && IsKind(s.config, kind) && IsLast(items, enc, j)
    ensures LeavesRow(SyncRows(rows, Job(s.tenantId, s.id, kind, enc), items, mints), s, items[j], enc, mints[j])
  {
    var job := Job(s.tenantId, s.id, kind, enc);
    var after := SyncRows(rows, job, items, mints);
    OneRowPerKey(rows, job, items, mints, j);
    FilterAgree(after, Under(s.tenantId, s.id, ExternalIdOf(items[j], enc)), HasKey(KeyFor(job, items[j])));
    ExternalIdIs(items[j], enc);
    SummaryIs(items[j], enc);
  }

  lemma {:induction false} LastItemsHere(job: Job, items: seq<Row>, k: Key)
    requires k in LastItems(job, items)
    ensures k.tenantId == job.tenantId && k.sourceId == job.sourceId
    decreases |items|
  {
    if items != [] && k != KeyFor(job, items[|items| - 1]) {
      LastItemsHere(job, items[..|items| - 1], k);
    }
  }

  lemma ElsewhereIsNotFetched(job: Job, items: seq<Row>)
    ensures forall r :: Elsewhere(job.tenantId, job.sourceId)(r) ==> NotFetched(job, items)(r)
  {
    forall r: Resource | Elsewhere(job.tenantId, job.sourceId)(r) ensures NotFetched(job, items)(r) {
      if KeyOf(r).Some? && KeyOf(r).value in LastItems(job, items) {
        LastItemsHere(job, items, KeyOf(r).value);
      }
    }
  }
}

/** What one tick does, in terms of the sources' own fields. */
module SchedulerFacts {
  import opened Common
  import opened Resources
  import opened Sources
  import opened Sync
  import opened Scheduler
  import opened SyncFacts
  import opened Gathering

  /** The seconds between two syncs: the source's own setting if it is a number, else the default. */
  function Interval(source: DataSource, cfg: Settings): real {
    if "sync_interval_seconds" in source.config && cfg.toFloat(source.config["sync_interval_seconds"]).Some?
    then cfg.toFloat(source.config["sync_interval_seconds"]).value
    else cfg.fallback
  }

  /** Active, and never synced or not for its interval. */
  predicate Waits(source: DataSource, now: int, cfg: Settings) {
    && source.status == "active"
    && (source.lastSyncedAt.None?
        || (now - source.lastSyncedAt.value) as real / 1000000.0 >= Interval(source, cfg))
  }

  /** The run notes something: the adapter failed, or it fetched nothing, or rows of a kind that is a text. */
  ghost predicate IsNoted(source: DataSource, run: SyncRun, ok: bool, count: nat, error: Option<string>) {
    match run.fetch
    case Crashed => false
    case AdapterFailed(message) =>
      !ok && count == 0 && error == Some(if |message| <= 500 then message else message[..500])
    case Fetched(items) =>
      ok && count == |items| && error == None && (items == [] || exists kind :: IsKind(source.config, kind))
  }

  lemma NotedExactly(source: DataSource, run: SyncRun, ok: bool, count: nat, error: Option<string>)
    ensures IsNoted(source, run, ok, count, error) <==>
      Completes(source, run) && ReportOf(source, run) == SyncReport(source.id, ok, count, error)
  {
    if KindOf(source.config).Some? {
      assert IsKind(source.config, KindOf(source.config).value);
    }
  }

  /**
   * After a tick, source by source: exactly those that wait and whose run notes something are stamped,
   * with what it notes; every other is as it was.
   */
  lemma TickStamps(st: TickState, now: int, cfg: Settings, runs: Runs, i: nat)
    requires Matched(runs) && DistinctSources(st.sources) && i < |st.sources|
    ensures var after := SyncEach(st, ActiveSources(st.sources), now, cfg, runs).sources;
      var s, run := st.sources[i], runs(st.sources[i].id);
      && |after| == |st.sources|
      && (forall ok, count, error :: Waits(s, now, cfg) && IsNoted(s, run, ok, count, error) ==>
            after[i] == Stamped(s, run.finishedAt, ok, count, error))
      && (!Waits(s, now, cfg) || (forall ok, count, error :: !IsNoted(s, run, ok, count, error)) ==> after[i] == s)
  {
    TickEffect(st, now, cfg, runs);
    var s, run := st.sources[i], runs(st.sources[i].id);
    assert Waits(s, now, cfg) <==> s.status == "active" && IsDue(s, now, cfg);
    forall ok, count, error
      ensures IsNoted(s, run, ok, count, error) <==>
        Completes(s, run) && ReportOf(s, run) == SyncReport(s.id, ok, count, error)
    {
      NotedExactly(s, run, ok, count, error);
    }
    var report := ReportOf(s, run);
    assert Completes(s, run) ==> IsNoted(s, run, report.ok, report.itemCount, report.error);
  }

  // ---------- how many ----------

  /** Does the run note anything? */
  predicate NotesSomething(source: DataSource, run: SyncRun) {
    && !run.fetch.Crashed?
    && (run.fetch.Fetched? && run.fetch.items != [] && "resource_kind" in source.config ==>
          source.config["resource_kind"].JStr?)
  }

  function Stamping(now: int, cfg: Settings, runs: Runs): DataSource -> bool {
    (s: DataSource) => Waits(s, now, cfg) && NotesSomething(s, runs(s.id))
  }

  lemma OneCounts(sources: seq<DataSource>, before: TickState, front: seq<DataSource>, s: DataSource, now: int,
                  cfg: Settings, runs: Runs)
    requires Matched(runs) && DistinctSources(sources) && s in sources && s.status == "active"
    requires TickedIn(sources, before.sources, front, now, cfg, runs)
    ensures SyncOne(before, s, now, cfg, runs).synced
      == before.synced + (if Stamping(now, cfg, runs)(s) then 1 else 0)
  {
    var k :| 0 <= k < |sources| && sources[k] == s;
    assert forall i :: 0 <= i < |sources| && i != k ==> sources[i] != s;
    if IsDue(s, now, cfg) {
      OutcomeOnSource(before, k, s, cfg, runs(s.id));
    }
  }

  lemma {:induction false} ListedCount(st: TickState, listed: seq<DataSource>, now: int, cfg: Settings, runs: Runs)
    requires Matched(runs) && DistinctSources(st.sources)
    requires forall s :: s in listed ==> s in st.sources && s.status == "active"
    ensures SyncEach(st, listed, now, cfg, runs).synced == st.synced + |Filter(listed, Stamping(now, cfg, runs))|
    decreases |listed|
  {
    if listed != [] {
      var n := |listed| - 1;
      var front, s := listed[..n], listed[n];
      assert listed == front + [s] && s in listed;
      ListedCount(st, front, now, cfg, runs);
      TickSources(st, front, now, cfg, runs);
      OneCounts(st.sources, SyncEach(st, front, now, cfg, runs), front, s, now, cfg, runs);
    }
  }

  /** A tick reports as many syncs as sources waited and noted something. */
  lemma TickCounts(rows: seq<Resource>, sources: seq<DataSource>, now: int, cfg: Settings, runs: Runs)
    requires Matched(runs) && DistinctSources(sources)
    ensures SyncEach(TickState(rows, sources, 0), ActiveSources(sources), now, cfg, runs).synced
      == |Filter(sources, Stamping(now, cfg, runs))|
  {
    var listed, active := ActiveSources(sources), Filter(sources, IsActive());
    forall s | s in listed ensures s in sources && s.status == "active" {
      assert s in multiset(listed) && s in multiset(active);
      FilterIn(sources, IsActive(), s);
    }
    ListedCount(TickState(rows, sources, 0), listed, now, cfg, runs);
    FilterCountIgnoresOrder(listed, active, Stamping(now, cfg, runs));
    FilterTwice(sources, IsActive(), Stamping(now, cfg, runs));
  }

  /** The scan goes over exactly the active sources, the ones registered last first. */
  lemma ScanOrder(sources: seq<DataSource>, s: DataSource, i: nat, j: nat)
    ensures s in ActiveSources(sources) <==> s in sources && s.status == "active"
    ensures i < j < |ActiveSources(sources)| ==>
      ActiveSources(sources)[i].createdAt >= ActiveSources(sources)[j].createdAt
  {
    FilterIn(sources, IsActive(), s);
    SortedMembers(Filter(sources, IsActive()), RegisteredAt(), s);
    SortIsDescending(Filter(sources, IsActive()), RegisteredAt());
    if i < j < |ActiveSources(sources)| {
      assert RegisteredAt()(ActiveSources(sources)[i]) >= RegisteredAt()(ActiveSources(sources)[j]);
    }
  }
}
