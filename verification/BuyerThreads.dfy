/** The two listings of conversations: one summary per buyer, out of the ring buffers or out of the table. */
module BuyerThreads {
  import opened Common
  import opened BuyerMemory
  import opened Naming

  /** The preview of the last text is cut from `last`, by each adapter in its own way. */
  datatype Summary = Summary(buyerId: string, count: nat, last: Interaction)

  function SummaryOf(buyerId: string, turns: seq<Interaction>): Summary
    requires turns != []
  {
    Summary(buyerId, |turns|, turns[|turns| - 1])
  }

  predicate StartsWith(prefix: Option<string>, buyerId: string) {
    prefix.Some? ==> prefix.value <= buyerId
  }

  function RingThreads(store: Store, prefix: Option<string>): set<Summary> {
    set b | b in store && StartsWith(prefix, b) && store[b] != [] :: SummaryOf(b, store[b])
  }

  /** The loop over the buckets; sorting by time and the cut to the limit come after it. */
  method GatherThreads(memory: InMemoryBuyerMemory, prefix: Option<string>) returns (found: set<Summary>)
    ensures found == RingThreads(memory.store, prefix)
  {
    found := {};
    var rest, done := memory.store.Keys, {};
    while rest != {}
      invariant rest !! done && rest + done == memory.store.Keys
      invariant found == set b | b in done && StartsWith(prefix, b) && memory.store[b] != []
                           :: SummaryOf(b, memory.store[b])
    {
      var b :| b in rest;
      var bucket := memory.store[b];
      if (prefix.None? || prefix.value <= b) && bucket != [] {
        found := found + {Summary(b, |bucket|, bucket[|bucket| - 1])};
      }
      rest, done := rest - {b}, done + {b};
    }
  }

  predicate Newest(m: Row, rows: set<Row>) {
    m in rows && forall r :: r in rows && r != m ==> Newer(m, r)
  }

  /** What the SELECT returns: per buyer the newest row and the number of rows. */
  ghost predicate InTableThreads(s: Summary, rows: set<Row>, prefix: Option<string>) {
    var mine := RowsOf(rows, s.buyerId);
    && (prefix.Some? ==> Like(s.buyerId, prefix.value + "%"))
    && s.count == |mine|
    && exists m :: Newest(m, mine) && m.turn == s.last
  }

  // ---------- how many turns ----------

  lemma MineIsTop(all: set<Row>, n: nat, buyerId: string)
    ensures RowsOf(Top(all, n), buyerId) == Top(RowsOf(all, buyerId), n)
  {
    var mine := RowsOf(all, buyerId);
    forall r | r in mine ensures Rank(all, r) == Rank(mine, r) {
      assert NewerThan(all, r) == NewerThan(mine, r);
    }
  }

  lemma TopOfFew(rows: set<Row>, n: nat)
    ensures Top(rows, n) == Top(rows, Min(n, |rows|))
  {
    forall r | r in rows ensures Rank(rows, r) < |rows| {
      NewerIsProper(rows, r);
    }
  }

  lemma HistorySize(entries: seq<Entry>, buyerId: string)
    ensures |RowsOf(Everything(entries), buyerId)| == |HistoryOf(entries, buyerId)|
  {
    HistoryRowsAre(entries, buyerId);
    ElementsSize(HistoryRows(entries, buyerId));
  }

  /** Whatever the order of the time stamps, both memories hold the same number of a buyer's turns. */
  lemma CountsAgree(entries: seq<Entry>, maxItems: nat, buyerId: string)
    ensures |RowsOf(TableAfter(entries, maxItems), buyerId)| == Min(|HistoryOf(entries, buyerId)|, maxItems)
    ensures |Bucket(RingAfter(entries, maxItems), buyerId)| == Min(|HistoryOf(entries, buyerId)|, maxItems)
  {
    var mine := RowsOf(Everything(entries), buyerId);
    TableIds(entries, maxItems);
    TableIsTopOfEverything(entries, maxItems);
    MineIsTop(Everything(entries), maxItems, buyerId);
    HistorySize(entries, buyerId);
    TopOfFew(mine, maxItems);
    TopSize(mine, Min(maxItems, |mine|), buyerId);
    RingIsWindow(entries, maxItems, buyerId);
  }

  // ---------- which turn is last ----------

  /** No turn of the history is later than its last. */
  ghost predicate EndsLatest(history: seq<Interaction>) {
    history != [] && forall t :: t in history ==> t.at <= history[|history| - 1].at
  }

  lemma NewestIsUnique(rows: set<Row>, a: Row, b: Row)
    requires Newest(a, rows) && Newest(b, rows)
    ensures a == b
  {
  }

  /** The newest row is kept, and is the one told last exactly if no earlier turn is later. */
  lemma NewestKept(entries: seq<Entry>, maxItems: nat, buyerId: string) returns (m: Row)
    requires maxItems >= 1 && HistoryOf(entries, buyerId) != []
    ensures Newest(m, RowsOf(TableAfter(entries, maxItems), buyerId))
    ensures var h := HistoryOf(entries, buyerId); m.turn == h[|h| - 1] <==> EndsLatest(h)
  {
    var mine := RowsOf(Everything(entries), buyerId);
    HistorySize(entries, buyerId);
    TableIds(entries, maxItems);
    TableIsTopOfEverything(entries, maxItems);
    MineIsTop(Everything(entries), maxItems, buyerId);
    m := NewestExists(mine);
    assert NewerThan(mine, m) == {};
    NewestOfHistory(entries, buyerId, m);
  }

  lemma NewestOfHistory(entries: seq<Entry>, buyerId: string, m: Row)
    requires Newest(m, RowsOf(Everything(entries), buyerId)) && HistoryOf(entries, buyerId) != []
    ensures var h := HistoryOf(entries, buyerId); m.turn == h[|h| - 1] <==> EndsLatest(h)
  {
    HistoryRowsAre(entries, buyerId);
    var q, h := HistoryRows(entries, buyerId), HistoryOf(entries, buyerId);
    var n := |q| - 1;
    assert m in Elements(q) && q[n] in Elements(q);
    var i :| 0 <= i < |q| && q[i] == m;
    assert h[i] == m.turn && h[n] == q[n].turn;
    forall t | t in h ensures t.at <= m.turn.at {
      var j :| 0 <= j < |h| && h[j] == t;
      assert q[j] in Elements(q);
    }
    assert h[i] in h;
  }

  // ---------- the listings ----------

  /** The ring's summary counts min(n, maxItems) of n turns and shows the one remembered last. */
  lemma RingListing(entries: seq<Entry>, maxItems: nat, prefix: Option<string>, s: Summary)
    requires maxItems >= 1
    ensures var h := HistoryOf(entries, s.buyerId);
      s in RingThreads(RingAfter(entries, maxItems), prefix) <==>
        StartsWith(prefix, s.buyerId) && h != [] && s == Summary(s.buyerId, Min(|h|, maxItems), h[|h| - 1])
  {
    RingIsWindow(entries, maxItems, s.buyerId);
  }

  lemma TableListing(rows: set<Row>, prefix: Option<string>, s: Summary)
    requires prefix.Some? ==> Literal(prefix.value)
    ensures InTableThreads(s, rows, prefix) <==>
      && StartsWith(prefix, s.buyerId) && s.count == |RowsOf(rows, s.buyerId)|
      && exists m :: Newest(m, RowsOf(rows, s.buyerId)) && m.turn == s.last
  {
    if prefix.Some? {
      LikeOfLiteral(s.buyerId, prefix.value);
    }
  }

  lemma NothingListed(rows: set<Row>, prefix: Option<string>, s: Summary)
    requires |RowsOf(rows, s.buyerId)| == 0
    ensures !InTableThreads(s, rows, prefix)
  {
  }

  /** The one summary of a buyer with turns. */
  lemma TableSummary(entries: seq<Entry>, maxItems: nat, prefix: Option<string>, buyerId: string)
    returns (last: Interaction)
    requires maxItems >= 1 && (prefix.Some? ==> Literal(prefix.value)) && StartsWith(prefix, buyerId)
    requires HistoryOf(entries, buyerId) != []
    ensures var h := HistoryOf(entries, buyerId);
      && (last == h[|h| - 1] <==> EndsLatest(h))
      && forall s: Summary :: s.buyerId == buyerId ==>
           (InTableThreads(s, TableAfter(entries, maxItems), prefix) <==>
              s == Summary(buyerId, Min(|h|, maxItems), last))
  {
    var table, h := TableAfter(entries, maxItems), HistoryOf(entries, buyerId);
    var m := NewestKept(entries, maxItems, buyerId);
    last := m.turn;
    CountsAgree(entries, maxItems, buyerId);
    forall s: Summary | s.buyerId == buyerId
      ensures InTableThreads(s, table, prefix) <==> s == Summary(buyerId, Min(|h|, maxItems), last)
    {
      TableListing(table, prefix, s);
      if r :| Newest(r, RowsOf(table, buyerId)) && r.turn == s.last {
        NewestIsUnique(RowsOf(table, buyerId), r, m);
      }
    }
  }

  /** The two listings say the same of a buyer. */
  ghost predicate SameOf(rows: set<Row>, listed: set<Summary>, prefix: Option<string>, buyerId: string) {
    forall s: Summary :: s.buyerId == buyerId ==> (InTableThreads(s, rows, prefix) <==> s in listed)
  }

  lemma OneEach(rows: set<Row>, listed: set<Summary>, prefix: Option<string>, a: Summary, b: Summary)
    requires a.buyerId == b.buyerId
    requires forall s: Summary :: s.buyerId == a.buyerId ==> (InTableThreads(s, rows, prefix) <==> s == a)
    requires forall s: Summary :: s.buyerId == a.buyerId ==> (s in listed <==> s == b)
    ensures SameOf(rows, listed, prefix, a.buyerId) <==> a == b
  {
  }

  /**
   * For a literal prefix the two listings say the same of a buyer exactly if the prefix leaves the buyer
   * out, nothing was remembered, or no turn is later than the one remembered last.
   */
  lemma ThreadsAgreeExactly(entries: seq<Entry>, maxItems: nat, prefix: Option<string>, buyerId: string)
    requires maxItems >= 1 && (prefix.Some? ==> Literal(prefix.value))
    ensures var h := HistoryOf(entries, buyerId);
      SameOf(TableAfter(entries, maxItems), RingThreads(RingAfter(entries, maxItems), prefix), prefix, buyerId) <==>
        !StartsWith(prefix, buyerId) || h == [] || EndsLatest(h)
  {
    if StartsWith(prefix, buyerId) && HistoryOf(entries, buyerId) != [] {
      AgreeOnTurns(entries, maxItems, prefix, buyerId);
    } else {
      NeitherLists(entries, maxItems, prefix, buyerId);
    }
  }

  lemma AgreeOnTurns(entries: seq<Entry>, maxItems: nat, prefix: Option<string>, buyerId: string)
    requires maxItems >= 1 && (prefix.Some? ==> Literal(prefix.value)) && StartsWith(prefix, buyerId)
    requires HistoryOf(entries, buyerId) != []
    ensures EndsLatest(HistoryOf(entries, buyerId)) <==>
      SameOf(TableAfter(entries, maxItems), RingThreads(RingAfter(entries, maxItems), prefix), prefix, buyerId)
  {
    var h := HistoryOf(entries, buyerId);
    var last := TableSummary(entries, maxItems, prefix, buyerId);
    var own := Summary(buyerId, Min(|h|, maxItems), h[|h| - 1]);
    forall s: Summary | s.buyerId == buyerId
      ensures s in RingThreads(RingAfter(entries, maxItems), prefix) <==> s == own
    {
      RingListing(entries, maxItems, prefix, s);
    }
    OneEach(TableAfter(entries, maxItems), RingThreads(RingAfter(entries, maxItems), prefix), prefix,
            Summary(buyerId, Min(|h|, maxItems), last), own);
  }

  lemma NeitherLists(entries: seq<Entry>, maxItems: nat, prefix: Option<string>, buyerId: string)
    requires maxItems >= 1 && (prefix.Some? ==> Literal(prefix.value))
    requires !StartsWith(prefix, buyerId) || HistoryOf(entries, buyerId) == []
    ensures SameOf(TableAfter(entries, maxItems), RingThreads(RingAfter(entries, maxItems), prefix), prefix, buyerId)
  {
    var table := TableAfter(entries, maxItems);
    CountsAgree(entries, maxItems, buyerId);
    forall s: Summary | s.buyerId == buyerId
      ensures !InTableThreads(s, table, prefix) && s !in RingThreads(RingAfter(entries, maxItems), prefix)
    {
      TableListing(table, prefix, s);
      RingListing(entries, maxItems, prefix, s);
      if HistoryOf(entries, buyerId) == [] {
        NothingListed(table, prefix, s);
      }
    }
  }
}
