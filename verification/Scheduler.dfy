/** The polling loop that re-syncs every active source whose interval has passed. */
module Scheduler {
  import opened Clock
  import opened Common
  import opened PyText
  import opened Resources
  import opened Sources
  import opened Sync

  /** `float(...)`: None where it raises. */
  type ToFloat = Json -> Option<real>

  function IntervalOf(config: map<string, Json>, toFloat: ToFloat, fallback: real): real {
    if "sync_interval_seconds" !in config then fallback
    else
      match toFloat(config["sync_interval_seconds"])
      case Some(seconds) => seconds
      case None => fallback
  }

  datatype Settings = Settings(toFloat: ToFloat, fallback: real, enc: Encoders)

  predicate IsDue(source: DataSource, now: int, cfg: Settings) {
    source.lastSyncedAt.None?
    || Seconds(now - source.lastSyncedAt.value) >= IntervalOf(source.config, cfg.toFloat, cfg.fallback)
  }

  /** What one source's sync does if this tick starts it. */
  datatype SyncRun = SyncRun(fetch: Fetch, mints: seq<Mint>, finishedAt: int)

  type Runs = string -> SyncRun

  ghost predicate Matched(runs: Runs) {
    forall id: string :: runs(id).fetch.Fetched? ==> |runs(id).mints| == |runs(id).fetch.items|
  }

  datatype TickState = TickState(rows: seq<Resource>, sources: seq<DataSource>, synced: nat)

  function SyncOne(st: TickState, source: DataSource, now: int, cfg: Settings, runs: Runs): TickState
    requires Matched(runs)
  {
    if !IsDue(source, now, cfg) then st
    else
      var run := runs(source.id);
      var o := SyncOutcome(st.rows, st.sources, source.id, cfg.enc, run.fetch, run.mints, run.finishedAt);
      TickState(o.rows, o.sources, st.synced + (if o.result.Report? then 1 else 0))
  }

  function SyncEach(st: TickState, listed: seq<DataSource>, now: int, cfg: Settings, runs: Runs): TickState
    requires Matched(runs)
  {
    if listed == [] then st
    else
      var n := |listed| - 1;
      SyncOne(SyncEach(st, listed[..n], now, cfg, runs), listed[n], now, cfg, runs)
  }

  class SyncScheduler {
    const synchronizer: ResourceSynchronizer

    constructor (synchronizer: ResourceSynchronizer)
      ensures this.synchronizer == synchronizer
    {
      this.synchronizer := synchronizer;
    }

    method TickOnce(now: int, cfg: Settings, runs: Runs) returns (synced: nat)
      requires synchronizer.resources.Valid() && synchronizer.sources.Valid() && Matched(runs)
      modifies synchronizer.resources, synchronizer.sources
      ensures synchronizer.resources.Valid() && synchronizer.sources.Valid()
      ensures TickState(synchronizer.resources.rows, synchronizer.sources.sources, synced)
        == SyncEach(TickState(old(synchronizer.resources.rows), old(synchronizer.sources.sources), 0),
                    ActiveSources(old(synchronizer.sources.sources)), now, cfg, runs)
    {
      synced := 0;
      var listed := ActiveSources(synchronizer.sources.sources);
      ghost var start := TickState(synchronizer.resources.rows, synchronizer.sources.sources, 0);
      for k := 0 to |listed|
        invariant synchronizer.resources.Valid() && synchronizer.sources.Valid()
        invariant TickState(synchronizer.resources.rows, synchronizer.sources.sources, synced)
          == SyncEach(start, listed[..k], now, cfg, runs)
      {
        var source := listed[k];
        assert listed[..k + 1][..k] == listed[..k];
        if !IsDue(source, now, cfg) {
          continue;
        }
        var run := runs(source.id);
        var result := synchronizer.Sync(source.id, cfg.enc, run.fetch, run.mints, run.finishedAt);
        if result.Report? {
          synced := synced + 1;
        }
      }
      assert listed[..|listed|] == listed;
    }
  }

  // ---------- one tick, source by source ----------

  /** Does the sync return a report rather than raise? */
  predicate Completes(source: DataSource, run: SyncRun) {
    !run.fetch.Crashed? && (run.fetch.Fetched? && run.fetch.items != [] ==> KindOf(source.config).Some?)
  }

  function ReportOf(source: DataSource, run: SyncRun): SyncReport {
    match run.fetch
    case Fetched(items) => SyncReport(source.id, true, |items|, None)
    case AdapterFailed(message) => SyncReport(source.id, false, 0, Some(Truncate(message, 500)))
    case Crashed => SyncReport(source.id, false, 0, None)
  }

  predicate SyncsIn(source: DataSource, now: int, cfg: Settings, runs: Runs) {
    source.status == "active" && IsDue(source, now, cfg) && Completes(source, runs(source.id))
  }

  /** What a tick does to one source. */
  function Ticked(source: DataSource, now: int, cfg: Settings, runs: Runs): DataSource {
    if SyncsIn(source, now, cfg, runs)
    then Stamp(source, ReportOf(source, runs(source.id)), runs(source.id).finishedAt)
    else source
  }

  lemma OutcomeOnSource(st: TickState, i: nat, source: DataSource, cfg: Settings, run: SyncRun)
    requires DistinctSources(st.sources) && i < |st.sources|
    requires st.sources[i].id == source.id && st.sources[i].config == source.config
    requires run.fetch.Fetched? ==> |run.mints| == |run.fetch.items|
    ensures var o := SyncOutcome(st.rows, st.sources, source.id, cfg.enc, run.fetch, run.mints, run.finishedAt);
      && (o.result.Report? <==> Completes(source, run))
      && o.sources == if Completes(source, run)
         then st.sources[i := Stamp(st.sources[i], ReportOf(source, run), run.finishedAt)] else st.sources
  {
    var j := SourceIndex(st.sources, source.id);
    assert st.sources[i] in st.sources;
    assert j == i;
  }

  /** Exactly the due sources in `listed` are stamped. */
  ghost predicate TickedIn(sources: seq<DataSource>, after: seq<DataSource>, listed: seq<DataSource>, now: int,
                           cfg: Settings, runs: Runs) {
    && |after| == |sources|
    && forall i :: 0 <= i < |after| ==>
         after[i] == if sources[i] in listed then Ticked(sources[i], now, cfg, runs) else sources[i]
  }

  lemma TickedNext(sources: seq<DataSource>, before: TickState, front: seq<DataSource>, s: DataSource, now: int,
                   cfg: Settings, runs: Runs)
    requires Matched(runs) && DistinctSources(sources) && s in sources && s.status == "active"
    requires TickedIn(sources, before.sources, front, now, cfg, runs)
    ensures TickedIn(sources, SyncOne(before, s, now, cfg, runs).sources, front + [s], now, cfg, runs)
  {
    var k :| 0 <= k < |sources| && sources[k] == s;
    assert forall i :: 0 <= i < |sources| && i != k ==> sources[i] != s;
    if IsDue(s, now, cfg) {
      OutcomeOnSource(before, k, s, cfg, runs(s.id));
    }
  }

  /** So it is after the first part of the listing. */
  lemma {:induction false} TickSources(st: TickState, listed: seq<DataSource>, now: int, cfg: Settings, runs: Runs)
    requires Matched(runs) && DistinctSources(st.sources)
    requires forall s :: s in listed ==> s in st.sources && s.status == "active"
    ensures TickedIn(st.sources, SyncEach(st, listed, now, cfg, runs).sources, listed, now, cfg, runs)
    decreases |listed|
  {
    if listed != [] {
      var n := |listed| - 1;
      var front, s := listed[..n], listed[n];
      assert listed == front + [s] && s in listed;
      TickSources(st, front, now, cfg, runs);
      TickedNext(st.sources, SyncEach(st, front, now, cfg, runs), front, s, now, cfg, runs);
    }
  }

  lemma TickEffect(st: TickState, now: int, cfg: Settings, runs: Runs)
    requires Matched(runs) && DistinctSources(st.sources)
    ensures var after := SyncEach(st, ActiveSources(st.sources), now, cfg, runs).sources;
      && |after| == |st.sources| && DistinctSources(after)
      && forall i :: 0 <= i < |after| ==> after[i] == Ticked(st.sources[i], now, cfg, runs)
  {
    var listed := ActiveSources(st.sources);
    var active := Filter(st.sources, IsActive());
    forall s ensures s in listed <==> s in st.sources && s.status == "active" {
      FilterIn(st.sources, IsActive(), s);
      assert s in multiset(listed) <==> s in multiset(active);
    }
    TickSources(st, listed, now, cfg, runs);
    var after := SyncEach(st, listed, now, cfg, runs).sources;
    forall i | 0 <= i < |after| ensures after[i] == Ticked(st.sources[i], now, cfg, runs) {
      assert st.sources[i] in st.sources;
    }
  }

  /** Nothing a tick scanned without a raising sync is still due at that tick's clock. */
  lemma NothingLeftDue(source: DataSource, now: int, cfg: Settings, runs: Runs)
    requires source.status == "active" && Completes(source, runs(source.id))
    requires runs(source.id).finishedAt >= now
    requires IntervalOf(source.config, cfg.toFloat, cfg.fallback) > 0.0
    ensures !IsDue(Ticked(source, now, cfg, runs), now, cfg)
  {
  }

  // ---------- whole runs ----------

  datatype Tick = Tick(now: int, end: int, runs: Runs)

  /** The sources before tick `n`. */
  function SourcesAt(sources: seq<DataSource>, ticks: seq<Tick>, cfg: Settings, n: nat): seq<DataSource>
    requires n <= |ticks|
  {
    if n == 0 then sources
    else
      var before := SourcesAt(sources, ticks, cfg, n - 1);
      seq(|before|, i requires 0 <= i < |before| => Ticked(before[i], ticks[n - 1].now, cfg, ticks[n - 1].runs))
  }

  /** Those are the sources `TickOnce` leaves, whatever the resource rows are. */
  lemma TicksFollowEachOther(rows: seq<Resource>, sources: seq<DataSource>, ticks: seq<Tick>, cfg: Settings, n: nat)
    requires n < |ticks| && Matched(ticks[n].runs) && DistinctSources(SourcesAt(sources, ticks, cfg, n))
    ensures var before := SourcesAt(sources, ticks, cfg, n);
      && SourcesAt(sources, ticks, cfg, n + 1)
         == SyncEach(TickState(rows, before, 0), ActiveSources(before), ticks[n].now, cfg, ticks[n].runs).sources
      && DistinctSources(SourcesAt(sources, ticks, cfg, n + 1))
  {
    TickEffect(TickState(rows, SourcesAt(sources, ticks, cfg, n), 0), ticks[n].now, cfg, ticks[n].runs);
  }

  /** Ticks of length at most `d`, `poll` or less apart; a sync finishes within its tick. */
  ghost predicate Timed(ticks: seq<Tick>, poll: nat, d: nat) {
    && (forall n :: 0 <= n < |ticks| ==> ticks[n].now <= ticks[n].end <= ticks[n].now + d)
    && (forall n, id: string :: 0 <= n < |ticks| ==> ticks[n].now <= ticks[n].runs(id).finishedAt <= ticks[n].end)
    && (forall n :: 0 <= n && n + 1 < |ticks| ==> ticks[n].end <= ticks[n + 1].now <= ticks[n].end + poll)
  }

  /** When source `i` finishes a sync in tick `n`, if it does. */
  function FinishIn(sources: seq<DataSource>, ticks: seq<Tick>, cfg: Settings, i: nat, n: nat): Option<int>
    requires n < |ticks|
  {
    var before := SourcesAt(sources, ticks, cfg, n);
    if i < |before| && SyncsIn(before[i], ticks[n].now, cfg, ticks[n].runs)
    then Some(ticks[n].runs(before[i].id).finishedAt) else None
  }

  /** A run changes only the sync metadata of a source. */
  lemma {:induction false} SourceStays(sources: seq<DataSource>, ticks: seq<Tick>, cfg: Settings, i: nat, n: nat)
    requires n <= |ticks| && i < |sources|
    ensures var after := SourcesAt(sources, ticks, cfg, n);
      && |after| == |sources| && after[i].id == sources[i].id && after[i].config == sources[i].config
      && after[i].status == sources[i].status
    decreases n
  {
    if n > 0 {
      SourceStays(sources, ticks, cfg, i, n - 1);
    }
  }

  /** The recorded time is the finish of the latest completed sync: no tick after `m` completed one. */
  lemma {:induction false} RecordsLastFinish(sources: seq<DataSource>, ticks: seq<Tick>, cfg: Settings, i: nat,
                                             m: nat, n: nat)
    requires m < n <= |ticks| && i < |sources|
    requires FinishIn(sources, ticks, cfg, i, m).Some?
    requires forall k :: m < k < n ==> FinishIn(sources, ticks, cfg, i, k).None?
    ensures |SourcesAt(sources, ticks, cfg, n)| == |sources|
    ensures SourcesAt(sources, ticks, cfg, n)[i].lastSyncedAt == FinishIn(sources, ticks, cfg, i, m)
    decreases n
  {
    SourceStays(sources, ticks, cfg, i, n - 1);
    SourceStays(sources, ticks, cfg, i, n);
    if m < n - 1 {
      RecordsLastFinish(sources, ticks, cfg, i, m, n - 1);
      assert FinishIn(sources, ticks, cfg, i, n - 1).None?;
    }
  }

  /**
   * Spacing: if tick `m` completed a sync of the source and no tick between `m` and `n` did, a tick
   * `n` that starts another one starts it at least the interval after the first had finished.
   */
  lemma SyncsAreSpaced(sources: seq<DataSource>, ticks: seq<Tick>, cfg: Settings, i: nat, m: nat, n: nat)
    requires m < n < |ticks| && i < |sources|
    requires FinishIn(sources, ticks, cfg, i, m).Some?
    requires forall k :: m < k < n ==> FinishIn(sources, ticks, cfg, i, k).None?
    requires var before := SourcesAt(sources, ticks, cfg, n); i < |before| && IsDue(before[i], ticks[n].now, cfg)
    ensures Seconds(ticks[n].now - FinishIn(sources, ticks, cfg, i, m).value)
      >= IntervalOf(sources[i].config, cfg.toFloat, cfg.fallback)
  {
    RecordsLastFinish(sources, ticks, cfg, i, m, n);
    SourceStays(sources, ticks, cfg, i, n);
  }

  lemma {:induction false} LastFinishExists(sources: seq<DataSource>, ticks: seq<Tick>, cfg: Settings, i: nat,
                                            m: nat, n: nat) returns (last: nat)
    requires m < n <= |ticks| && FinishIn(sources, ticks, cfg, i, m).Some?
    ensures m <= last < n && FinishIn(sources, ticks, cfg, i, last).Some?
    ensures forall k :: last < k < n ==> FinishIn(sources, ticks, cfg, i, k).None?
    decreases n
  {
    if FinishIn(sources, ticks, cfg, i, n - 1).Some? {
      last := n - 1;
    } else {
      last := LastFinishExists(sources, ticks, cfg, i, m, n - 1);
    }
  }

  /** No sync of source `i` raises anywhere in the run. */
  ghost predicate NeverRaises(sources: seq<DataSource>, ticks: seq<Tick>, i: nat)
    requires i < |sources|
  {
    forall n :: 0 <= n < |ticks| ==> Completes(sources[i], ticks[n].runs(sources[i].id))
  }

  /** At the end of tick `n` the recorded sync is at most the interval older than the tick's clock. */
  lemma FreshAfterTick(sources: seq<DataSource>, ticks: seq<Tick>, cfg: Settings, i: nat, n: nat, poll: nat, d: nat)
    requires n < |ticks| && i < |sources| && Timed(ticks, poll, d)
    requires sources[i].status == "active" && NeverRaises(sources, ticks, i)
    requires IntervalOf(sources[i].config, cfg.toFloat, cfg.fallback) > 0.0
    ensures |SourcesAt(sources, ticks, cfg, n + 1)| == |sources|
    ensures var last := SourcesAt(sources, ticks, cfg, n + 1)[i].lastSyncedAt;
      last.Some? && Seconds(ticks[n].now - last.value) < IntervalOf(sources[i].config, cfg.toFloat, cfg.fallback)
  {
    SourceStays(sources, ticks, cfg, i, n);
    SourceStays(sources, ticks, cfg, i, n + 1);
    NothingLeftDue(SourcesAt(sources, ticks, cfg, n)[i], ticks[n].now, cfg, ticks[n].runs);
  }

  /** The last tick that had ended by time `t`. */
  lemma {:induction false} LastEndedTick(ticks: seq<Tick>, m: nat, t: int) returns (n: nat)
    requires m < |ticks| && ticks[m].end <= t
    ensures m <= n < |ticks| && ticks[n].end <= t
    ensures n + 1 < |ticks| ==> t < ticks[n + 1].end
    decreases |ticks| - m
  {
    if m + 1 < |ticks| && ticks[m + 1].end <= t {
      n := LastEndedTick(ticks, m + 1, t);
    } else {
      n := m;
    }
  }

  /**
   * Staleness: once a source has been synced, at every later moment of the run its latest finished
   * sync is at most the interval, one poll and two tick lengths old.
   */
  lemma BoundedStaleness(sources: seq<DataSource>, ticks: seq<Tick>, cfg: Settings, i: nat, m: nat, t: int,
                         poll: nat, d: nat)
    requires i < |sources| && Timed(ticks, poll, d)
    requires sources[i].status == "active" && NeverRaises(sources, ticks, i)
    requires IntervalOf(sources[i].config, cfg.toFloat, cfg.fallback) > 0.0
    requires m < |ticks| && FinishIn(sources, ticks, cfg, i, m).Some?
    requires ticks[m].end <= t <= ticks[|ticks| - 1].end
    ensures exists k ::
      (&& m <= k < |ticks| && FinishIn(sources, ticks, cfg, i, k).Some?
       && FinishIn(sources, ticks, cfg, i, k).value <= t
       && Seconds(t - FinishIn(sources, ticks, cfg, i, k).value)
          <= IntervalOf(sources[i].config, cfg.toFloat, cfg.fallback) + Seconds(poll + 2 * d))
  {
    var n := LastEndedTick(ticks, m, t);
    var k := LastFinishExists(sources, ticks, cfg, i, m, n + 1);
    RecordsLastFinish(sources, ticks, cfg, i, k, n + 1);
    FreshAfterTick(sources, ticks, cfg, i, n, poll, d);
    EndsInOrder(ticks, k, n, poll, d);
    assert t <= ticks[n].now + poll + 2 * d;
  }

  lemma {:induction false} EndsInOrder(ticks: seq<Tick>, k: nat, n: nat, poll: nat, d: nat)
    requires k <= n < |ticks| && Timed(ticks, poll, d)
    ensures ticks[k].end <= ticks[n].end
    decreases n
  {
    if k < n {
      EndsInOrder(ticks, k, n - 1, poll, d);
      assert ticks[n - 1].end <= ticks[n - 1 + 1].now;
    }
  }
}
