/** The two buyer memories: a ring buffer per buyer, and a table trimmed after every insert. */
module BuyerMemory {
  import opened Common

  datatype Interaction = Interaction(text: string, role: string, at: int, metadata: map<string, string>)

  /** One `remember` call. */
  datatype Entry = Entry(buyerId: string, turn: Interaction)

  function Min(a: nat, b: nat): nat {
    if a < b then a else b
  }

  /** The last `n` elements, or all of them. */
  function Window<T>(s: seq<T>, n: nat): seq<T> {
    if |s| <= n then s else s[|s| - n..]
  }

  // ---------- ring buffer ----------

  type Store = map<string, seq<Interaction>>

  function Bucket(store: Store, buyerId: string): seq<Interaction> {
    if buyerId in store then store[buyerId] else []
  }

  function RingRemember(store: Store, e: Entry, maxItems: nat): Store {
    store[e.buyerId := Window(Bucket(store, e.buyerId) + [e.turn], maxItems)]
  }

  function RingAfter(entries: seq<Entry>, maxItems: nat): Store {
    if entries == [] then map[]
    else RingRemember(RingAfter(entries[..|entries| - 1], maxItems), entries[|entries| - 1], maxItems)
  }

  /** `bucket[-limit:]`, all of it without a limit, nothing for a limit below one. */
  function Recent<T>(s: seq<T>, limit: Option<int>): seq<T> {
    match limit
    case None => s
    case Some(n) => if n <= 0 then [] else Window(s, n)
  }

  class InMemoryBuyerMemory {
    const maxItems: nat
    var store: Store

    constructor (maxItems: nat)
      ensures this.maxItems == maxItems && store == map[]
    {
      this.maxItems := maxItems;
      store := map[];
    }

    method Remember(buyerId: string, interaction: Interaction)
      modifies this
      ensures store == RingRemember(old(store), Entry(buyerId, interaction), maxItems)
    {
      var bucket := if buyerId in store then store[buyerId] else [];
      bucket := bucket + [interaction];
      if |bucket| > maxItems {
        bucket := bucket[|bucket| - maxItems..];
      }
      store := store[buyerId := bucket];
    }

    method Recall(buyerId: string, limit: Option<int>) returns (turns: seq<Interaction>)
      ensures turns == Recent(Bucket(store, buyerId), limit)
    {
      var bucket := if buyerId in store then store[buyerId] else [];
      if limit.None? {
        return bucket;
      }
      if limit.value <= 0 {
        return [];
      }
      return if |bucket| <= limit.value then bucket else bucket[|bucket| - limit.value..];
    }
  }

  /** Everything one buyer's memory was ever told. */
  function HistoryOf(entries: seq<Entry>, buyerId: string): seq<Interaction> {
    if entries == [] then []
    else
      var n := |entries| - 1;
      var before := HistoryOf(entries[..n], buyerId);
      if entries[n].buyerId == buyerId then before + [entries[n].turn] else before
  }

  lemma WindowSlides<T>(s: seq<T>, x: T, n: nat)
    ensures Window(Window(s, n) + [x], n) == Window(s + [x], n)
  {
  }

  lemma WindowTwice<T>(s: seq<T>, m: nat, n: nat)
    ensures Window(Window(s, m), n) == Window(s, Min(m, n))
  {
  }

  /** The ring buffer is a window onto the full history. */
  lemma {:induction false} RingIsWindow(entries: seq<Entry>, maxItems: nat, buyerId: string)
    ensures Bucket(RingAfter(entries, maxItems), buyerId) == Window(HistoryOf(entries, buyerId), maxItems)
    decreases |entries|
  {
    if entries != [] {
      var n := |entries| - 1;
      RingIsWindow(entries[..n], maxItems, buyerId);
      WindowSlides(HistoryOf(entries[..n], buyerId), entries[n].turn, maxItems);
    }
  }

  // ---------- table ----------

  datatype Row = Row(id: nat, buyerId: string, turn: Interaction)

  /** ORDER BY at DESC, id DESC. */
  predicate Newer(a: Row, b: Row) {
    a.turn.at > b.turn.at || (a.turn.at == b.turn.at && a.id > b.id)
  }

  ghost predicate UniqueIds(rows: set<Row>) {
    forall a, b :: a in rows && b in rows && a.id == b.id ==> a == b
  }

  function NewerThan(rows: set<Row>, r: Row): set<Row> {
    set s | s in rows && s.buyerId == r.buyerId && Newer(s, r)
  }

  /** The number of the buyer's rows that the ordering lists before this one. */
  function Rank(rows: set<Row>, r: Row): nat {
    |NewerThan(rows, r)|
  }

  /** DELETE of what `ORDER BY at DESC, id DESC OFFSET maxItems` selects for the buyer. */
  function Trim(rows: set<Row>, buyerId: string, maxItems: nat): set<Row> {
    set r | r in rows && (r.buyerId != buyerId || Rank(rows, r) < maxItems)
  }

  function TableRemember(rows: set<Row>, row: Row, maxItems: nat): set<Row> {
    Trim(rows + {row}, row.buyerId, maxItems)
  }

  function RowAt(entries: seq<Entry>, k: nat): Row
    requires k < |entries|
  {
    Row(k, entries[k].buyerId, entries[k].turn)
  }

  /** The table after these inserts; ids are given out in order. */
  function TableAfter(entries: seq<Entry>, maxItems: nat): set<Row> {
    if entries == [] then {}
    else
      var n := |entries| - 1;
      TableRemember(TableAfter(entries[..n], maxItems), RowAt(entries, n), maxItems)
  }

  /** Every row ever inserted. */
  function Everything(entries: seq<Entry>): set<Row> {
    set k | 0 <= k < |entries| :: RowAt(entries, k)
  }

  /** Each buyer's newest `n` rows. */
  function Top(rows: set<Row>, n: nat): set<Row> {
    set r | r in rows && Rank(rows, r) < n
  }

  lemma {:induction false} OldestExists(rows: set<Row>) returns (m: Row)
    requires rows != {} && UniqueIds(rows)
    ensures m in rows && forall r :: r in rows && r != m ==> Newer(r, m)
    decreases rows
  {
    m :| m in rows;
    if rows != {m} {
      var rest := rows - {m};
      var o := OldestExists(rest);
      if Newer(m, o) {
        m := o;
      } else {
        forall r | r in rows && r != m ensures Newer(r, m) {
          assert r == o || Newer(r, o);
        }
      }
    }
  }

  /** Among n rows of one buyer exactly k have rank below k. */
  lemma {:induction false} TopSize(rows: set<Row>, k: nat, buyerId: string)
    requires UniqueIds(rows) && k <= |rows| && forall r :: r in rows ==> r.buyerId == buyerId
    ensures |Top(rows, k)| == k
    decreases |rows|
  {
    if k == 0 {
      assert Top(rows, k) == {};
      return;
    }
    var m := OldestExists(rows);
    var rest := rows - {m};
    assert NewerThan(rows, m) == rest;
    forall r | r in rest ensures Rank(rows, r) == Rank(rest, r) {
      assert !Newer(m, r);
      assert NewerThan(rows, r) == NewerThan(rest, r);
    }
    if k == |rows| {
      forall r | r in rows ensures Rank(rows, r) < k {
        NewerIsProper(rows, r);
      }
      assert Top(rows, k) == rows;
    } else {
      TopSize(rest, k, buyerId);
      assert Top(rows, k) == Top(rest, k);
    }
  }

  lemma NewerIsProper(rows: set<Row>, r: Row)
    requires r in rows
    ensures Rank(rows, r) < |rows|
  {
    SubsetSize(NewerThan(rows, r), rows - {r});
  }

  lemma RankGrows(rows: set<Row>, more: set<Row>, r: Row)
    requires rows <= more
    ensures Rank(rows, r) <= Rank(more, r)
  {
    SubsetSize(NewerThan(rows, r), NewerThan(more, r));
  }

  /** A row that is not among the newest n of everything is not among the newest n of any part that holds those. */
  lemma LowStaysLow(all: set<Row>, part: set<Row>, r: Row, n: nat)
    requires UniqueIds(all) && part <= all
    requires forall t :: t in all && t.buyerId == r.buyerId && Rank(all, t) < n ==> t in part
    requires Rank(all, r) >= n
    ensures Rank(part, r) >= n
  {
    var above := NewerThan(all, r);
    TopSize(above, n, r.buyerId);
    forall t | t in Top(above, n) ensures t in NewerThan(part, r) {
      assert NewerThan(above, t) == NewerThan(all, t);
    }
    SubsetSize(Top(above, n), NewerThan(part, r));
  }

  /** Trimming after one insert keeps the table at the newest rows of everything. */
  lemma TrimKeepsTop(all: set<Row>, row: Row, n: nat)
    requires UniqueIds(all + {row}) && row !in all
    ensures TableRemember(Top(all, n), row, n) == Top(all + {row}, n)
  {
    var more, kept := all + {row}, Top(all, n) + {row};
    forall r | r in all && r.buyerId != row.buyerId ensures Rank(more, r) == Rank(all, r) {
      assert NewerThan(more, r) == NewerThan(all, r);
    }
    forall t | t in more && t.buyerId == row.buyerId && Rank(more, t) < n ensures t in kept {
      RankGrows(all, more, t);
    }
    forall r | r in kept && r.buyerId == row.buyerId ensures Rank(kept, r) < n <==> Rank(more, r) < n {
      RankGrows(kept, more, r);
      if Rank(more, r) >= n {
        LowStaysLow(more, kept, r, n);
      }
    }
  }

  lemma EverythingNext(entries: seq<Entry>)
    requires entries != []
    ensures var n := |entries| - 1;
      && Everything(entries) == Everything(entries[..n]) + {RowAt(entries, n)}
      && RowAt(entries, n) !in Everything(entries[..n])
    ensures UniqueIds(Everything(entries))
  {
    var n := |entries| - 1;
    forall k | 0 <= k < n ensures RowAt(entries, k) == RowAt(entries[..n], k) { }
    forall r | r in Everything(entries) ensures r in Everything(entries[..n]) + {RowAt(entries, n)} {
      var k :| 0 <= k < |entries| && r == RowAt(entries, k);
      if k < n {
        assert r == RowAt(entries[..n], k);
      }
    }
  }

  /** Whatever the order of the time stamps: the trimmed table holds each buyer's newest rows of all time. */
  lemma {:induction false} TableIsTopOfEverything(entries: seq<Entry>, maxItems: nat)
    ensures TableAfter(entries, maxItems) == Top(Everything(entries), maxItems)
    decreases |entries|
  {
    if entries != [] {
      var n := |entries| - 1;
      TableIsTopOfEverything(entries[..n], maxItems);
      EverythingNext(entries);
      TrimKeepsTop(Everything(entries[..n]), RowAt(entries, n), maxItems);
    }
  }

  // ---------- recall ----------

  function RowsOf(rows: set<Row>, buyerId: string): set<Row> {
    set r | r in rows && r.buyerId == buyerId
  }

  lemma OldestThere(rows: set<Row>)
    requires rows != {} && UniqueIds(rows)
    ensures exists m :: m in rows && forall r :: r in rows && r != m ==> Newer(r, m)
  {
    var m := OldestExists(rows);
  }

  /** ORDER BY at, id. */
  ghost function Listing(rows: set<Row>): seq<Row>
    requires UniqueIds(rows)
    decreases |rows|
  {
    if rows == {} then []
    else
      OldestThere(rows);
      var m :| m in rows && forall r :: r in rows && r != m ==> Newer(r, m);
      [m] + Listing(rows - {m})
  }

  function Turns(rows: seq<Row>): seq<Interaction> {
    seq(|rows|, i requires 0 <= i < |rows| => rows[i].turn)
  }

  /** The two SELECTs, and the limit test before them. */
  ghost function TableRecall(rows: set<Row>, buyerId: string, limit: Option<int>): seq<Interaction>
    requires UniqueIds(rows)
  {
    match limit
    case None => Turns(Listing(RowsOf(rows, buyerId)))
    case Some(n) =>
      if n <= 0 then []
      else Turns(Listing(TopOf(rows, buyerId, n)))
  }

  /** The buyer's rows in insertion order. */
  function HistoryRows(entries: seq<Entry>, buyerId: string): seq<Row> {
    if entries == [] then []
    else
      var n := |entries| - 1;
      var before := HistoryRows(entries[..n], buyerId);
      if entries[n].buyerId == buyerId then before + [RowAt(entries, n)] else before
  }

  ghost predicate Ascending(q: seq<Row>) {
    forall i, j :: 0 <= i < j < |q| ==> Newer(q[j], q[i])
  }

  function Elements(q: seq<Row>): set<Row> {
    set r | r in q
  }

  /** The buyer's time stamps never decrease. */
  ghost predicate Chronological(entries: seq<Entry>, buyerId: string) {
    var h := HistoryOf(entries, buyerId);
    forall i, j :: 0 <= i < j < |h| ==> h[i].at <= h[j].at
  }

  lemma {:induction false} HistoryRowsAre(entries: seq<Entry>, buyerId: string)
    ensures Turns(HistoryRows(entries, buyerId)) == HistoryOf(entries, buyerId)
    ensures Elements(HistoryRows(entries, buyerId)) == RowsOf(Everything(entries), buyerId)
    ensures var q := HistoryRows(entries, buyerId);
      && (forall i :: 0 <= i < |q| ==> q[i].id < |entries|)
      && forall i, j :: 0 <= i < j < |q| ==> q[i].id < q[j].id
    decreases |entries|
  {
    if entries != [] {
      var n := |entries| - 1;
      HistoryRowsAre(entries[..n], buyerId);
      EverythingNext(entries);
      var before, q := HistoryRows(entries[..n], buyerId), HistoryRows(entries, buyerId);
      assert Elements(before + [RowAt(entries, n)]) == Elements(before) + {RowAt(entries, n)};
    }
  }

  lemma ChronologicalAscends(entries: seq<Entry>, buyerId: string)
    requires Chronological(entries, buyerId)
    ensures Ascending(HistoryRows(entries, buyerId))
  {
    HistoryRowsAre(entries, buyerId);
    var q, h := HistoryRows(entries, buyerId), HistoryOf(entries, buyerId);
    forall i, j | 0 <= i < j < |q| ensures Newer(q[j], q[i]) {
      assert q[i].turn == h[i] && q[j].turn == h[j];
    }
  }

  lemma {:induction false} ElementsSize(q: seq<Row>)
    requires forall i, j :: 0 <= i < j < |q| ==> q[i] != q[j]
    ensures |Elements(q)| == |q|
    decreases |q|
  {
    if q != [] {
      var n := |q| - 1;
      ElementsSize(q[..n]);
      assert Elements(q) == Elements(q[..n]) + {q[n]};
      assert q[n] !in q[..n];
    }
  }

  lemma {:induction false} ListingOfAscending(q: seq<Row>)
    requires Ascending(q) && UniqueIds(Elements(q))
    ensures Listing(Elements(q)) == q
    decreases |q|
  {
    if q != [] {
      var rows := Elements(q);
      assert q[0] in rows;
      OldestThere(rows);
      var m := Listing(rows)[0];
      assert m == q[0];
      assert q == [q[0]] + q[1..];
      assert q[0] !in q[1..];
      assert rows - {m} == Elements(q[1..]);
      ListingOfAscending(q[1..]);
    }
  }

  /** In a chronological history the rank of a row counts the rows after it. */
  lemma RankFromEnd(rows: set<Row>, buyerId: string, q: seq<Row>, j: nat)
    requires Ascending(q) && RowsOf(rows, buyerId) == Elements(q) && j < |q|
    ensures Rank(rows, q[j]) == |q| - 1 - j
  {
    var later := q[j + 1..];
    assert q[j] in Elements(q);
    forall r | r in NewerThan(rows, q[j]) ensures r in later {
      assert r in Elements(q);
      var i :| 0 <= i < |q| && q[i] == r;
      assert later[i - j - 1] == r;
    }
    forall r | r in later ensures r in NewerThan(rows, q[j]) {
      var i :| 0 <= i < |later| && later[i] == r;
      assert q[j + 1 + i] == r && r in Elements(q);
    }
    assert NewerThan(rows, q[j]) == Elements(later);
    ElementsSize(later);
  }

  function TopOf(rows: set<Row>, buyerId: string, n: nat): set<Row> {
    set r | r in rows && r.buyerId == buyerId && Rank(rows, r) < n
  }

  lemma TopIsWindow(rows: set<Row>, buyerId: string, q: seq<Row>, n: nat)
    requires Ascending(q) && RowsOf(rows, buyerId) == Elements(q)
    ensures TopOf(rows, buyerId, n) == Elements(Window(q, n))
    ensures Ascending(Window(q, n))
  {
    var w := Window(q, n);
    var skipped := |q| - |w|;
    forall r | r in TopOf(rows, buyerId, n) ensures r in w {
      assert r in RowsOf(rows, buyerId);
      var j :| 0 <= j < |q| && q[j] == r;
      RankFromEnd(rows, buyerId, q, j);
      assert w[j - skipped] == r;
    }
    forall r | r in w ensures r in TopOf(rows, buyerId, n) {
      var i :| 0 <= i < |w| && w[i] == r;
      assert q[i + skipped] == r && r in Elements(q);
      RankFromEnd(rows, buyerId, q, i + skipped);
    }
  }

  lemma TableIds(entries: seq<Entry>, maxItems: nat)
    ensures UniqueIds(TableAfter(entries, maxItems)) && UniqueIds(Everything(entries))
  {
    TableIsTopOfEverything(entries, maxItems);
    if entries != [] {
      EverythingNext(entries);
    }
  }

  /** The rows kept for a chronological buyer are the window of the history. */
  lemma KeptRows(entries: seq<Entry>, maxItems: nat, buyerId: string)
    requires Chronological(entries, buyerId)
    ensures var w := Window(HistoryRows(entries, buyerId), maxItems);
      && UniqueIds(TableAfter(entries, maxItems))
      && Ascending(w) && RowsOf(TableAfter(entries, maxItems), buyerId) == Elements(w)
      && Turns(w) == Window(HistoryOf(entries, buyerId), maxItems)
  {
    TableIds(entries, maxItems);
    TableIsTopOfEverything(entries, maxItems);
    HistoryRowsAre(entries, buyerId);
    ChronologicalAscends(entries, buyerId);
    TopIsWindow(Everything(entries), buyerId, HistoryRows(entries, buyerId), maxItems);
    KeptIsTop(Everything(entries), maxItems, buyerId);
    TurnsOfWindow(HistoryRows(entries, buyerId), maxItems);
  }

  lemma KeptIsTop(all: set<Row>, n: nat, buyerId: string)
    ensures RowsOf(Top(all, n), buyerId) == TopOf(all, buyerId, n)
  {
  }

  lemma TurnsOfWindow(q: seq<Row>, n: nat)
    ensures Turns(Window(q, n)) == Window(Turns(q), n)
  {
  }

  lemma ListedTurns(rows: set<Row>, buyerId: string, w: seq<Row>, limit: Option<int>)
    requires UniqueIds(rows) && Ascending(w) && RowsOf(rows, buyerId) == Elements(w)
    ensures TableRecall(rows, buyerId, limit) == Recent(Turns(w), limit)
  {
    if limit.None? {
      ListingOfAscending(w);
    } else if limit.value > 0 {
      TopIsWindow(rows, buyerId, w, limit.value);
      ListingOfAscending(Window(w, limit.value));
      TurnsOfWindow(w, limit.value);
    }
  }

  /**
   * On a chronological history both memories recall the same turns for every limit: the last
   * min(limit, maxItems, n) of the n turns ever remembered.
   */
  lemma RecallsAgree(entries: seq<Entry>, maxItems: nat, buyerId: string, limit: Option<int>)
    requires Chronological(entries, buyerId)
    ensures UniqueIds(TableAfter(entries, maxItems))
    ensures TableRecall(TableAfter(entries, maxItems), buyerId, limit)
      == Recent(Bucket(RingAfter(entries, maxItems), buyerId), limit)
    ensures Recent(Bucket(RingAfter(entries, maxItems), buyerId), limit) ==
      match limit
      case None => Window(HistoryOf(entries, buyerId), maxItems)
      case Some(n) => if n <= 0 then [] else Window(HistoryOf(entries, buyerId), Min(n, maxItems))
  {
    KeptRows(entries, maxItems, buyerId);
    ListedTurns(TableAfter(entries, maxItems), buyerId, Window(HistoryRows(entries, buyerId), maxItems), limit);
    RingIsWindow(entries, maxItems, buyerId);
    if limit.Some? && limit.value > 0 {
      WindowTwice(HistoryOf(entries, buyerId), maxItems, limit.value);
    }
  }

  // ---------- when the two differ ----------

  lemma {:induction false} NewestExists(rows: set<Row>) returns (m: Row)
    requires rows != {} && UniqueIds(rows)
    ensures m in rows && forall r :: r in rows && r != m ==> Newer(m, r)
    decreases rows
  {
    m :| m in rows;
    if rows != {m} {
      var o := NewestExists(rows - {m});
      if Newer(o, m) {
        m := o;
      } else {
        forall r | r in rows && r != m ensures Newer(m, r) {
          assert r == o || Newer(o, r);
        }
      }
    }
  }

  lemma {:induction false} ListingEndsNewest(rows: set<Row>, r: Row)
    requires UniqueIds(rows) && r in rows
    ensures Listing(rows) != [] && Listing(rows)[|Listing(rows)| - 1] in rows
    ensures var last := Listing(rows)[|Listing(rows)| - 1]; last == r || Newer(last, r)
    decreases |rows|
  {
    var m := Listing(rows)[0];
    OldestThere(rows);
    if rows == {m} {
      assert rows - {m} == {};
    } else if r == m {
      var o :| o in rows - {m};
      ListingEndsNewest(rows - {m}, o);
    } else {
      ListingEndsNewest(rows - {m}, r);
    }
  }

  lemma NewestInTop(all: set<Row>, n: nat, r: Row) returns (m: Row)
    requires UniqueIds(all) && r in all && n >= 1
    ensures m in Top(all, n) && m.buyerId == r.buyerId && m.turn.at >= r.turn.at
  {
    var mine := RowsOf(all, r.buyerId);
    assert r in mine;
    m := NewestExists(mine);
    assert forall s :: s in all && s.buyerId == m.buyerId ==> s in mine;
    assert NewerThan(all, m) == {};
  }

  lemma NewestIsKept(entries: seq<Entry>, maxItems: nat, buyerId: string, r: Row)
    requires maxItems >= 1 && r in RowsOf(Everything(entries), buyerId)
    ensures UniqueIds(TableAfter(entries, maxItems))
    ensures var listed := Listing(RowsOf(TableAfter(entries, maxItems), buyerId));
      listed != [] && listed[|listed| - 1].turn.at >= r.turn.at
  {
    TableIds(entries, maxItems);
    TableIsTopOfEverything(entries, maxItems);
    var m := NewestInTop(Everything(entries), maxItems, r);
    assert m in RowsOf(TableAfter(entries, maxItems), buyerId);
    ListingEndsNewest(RowsOf(TableAfter(entries, maxItems), buyerId), m);
  }

  lemma HistoryHasRow(entries: seq<Entry>, buyerId: string, t: Interaction) returns (r: Row)
    requires t in HistoryOf(entries, buyerId)
    ensures r in RowsOf(Everything(entries), buyerId) && r.turn == t
  {
    HistoryRowsAre(entries, buyerId);
    var rows := HistoryRows(entries, buyerId);
    var i :| 0 <= i < |HistoryOf(entries, buyerId)| && HistoryOf(entries, buyerId)[i] == t;
    r := rows[i];
    assert Turns(rows)[i] == t && r in Elements(rows);
  }

  lemma EverythingGrows(entries: seq<Entry>, buyerId: string)
    requires entries != []
    ensures RowsOf(Everything(entries[..|entries| - 1]), buyerId) <= RowsOf(Everything(entries), buyerId)
  {
    EverythingNext(entries);
  }

  /** The table's recall ends with a turn at least as late as any it was told. */
  lemma TableEndsLatest(entries: seq<Entry>, maxItems: nat, buyerId: string, r: Row)
    requires maxItems >= 1 && r in RowsOf(Everything(entries), buyerId)
    ensures UniqueIds(TableAfter(entries, maxItems))
    ensures var turns := TableRecall(TableAfter(entries, maxItems), buyerId, None);
      turns != [] && turns[|turns| - 1].at >= r.turn.at
  {
    NewestIsKept(entries, maxItems, buyerId, r);
  }

  /** The ring's recall ends with the turn it was told last. */
  lemma RingEndsLast(entries: seq<Entry>, maxItems: nat, buyerId: string)
    requires maxItems >= 1 && entries != [] && entries[|entries| - 1].buyerId == buyerId
    ensures var turns := Recent(Bucket(RingAfter(entries, maxItems), buyerId), None);
      turns != [] && turns[|turns| - 1] == entries[|entries| - 1].turn
  {
  }

  /** A turn older than one remembered before it: the ring ends with it, the table does not. */
  lemma LateTurnSplitsThem(entries: seq<Entry>, maxItems: nat, buyerId: string, t: Interaction)
    requires maxItems >= 1 && entries != [] && entries[|entries| - 1].buyerId == buyerId
    requires t in HistoryOf(entries[..|entries| - 1], buyerId) && t.at > entries[|entries| - 1].turn.at
    ensures UniqueIds(TableAfter(entries, maxItems))
    ensures TableRecall(TableAfter(entries, maxItems), buyerId, None)
      != Recent(Bucket(RingAfter(entries, maxItems), buyerId), None)
  {
    var r := HistoryHasRow(entries[..|entries| - 1], buyerId, t);
    EverythingGrows(entries, buyerId);
    TableEndsLatest(entries, maxItems, buyerId, r);
    RingEndsLast(entries, maxItems, buyerId);
  }

  /** After every prefix of the run the two memories show the same bucket. */
  ghost predicate AlwaysAgree(entries: seq<Entry>, maxItems: nat, buyerId: string) {
    forall n :: 0 <= n <= |entries| ==>
      && UniqueIds(TableAfter(entries[..n], maxItems))
      && TableRecall(TableAfter(entries[..n], maxItems), buyerId, None)
         == Recent(Bucket(RingAfter(entries[..n], maxItems), buyerId), None)
  }

  lemma AgreePrefix(entries: seq<Entry>, maxItems: nat, buyerId: string, n: nat)
    requires AlwaysAgree(entries, maxItems, buyerId) && n <= |entries|
    ensures AlwaysAgree(entries[..n], maxItems, buyerId)
  {
    forall k | 0 <= k <= n ensures entries[..n][..k] == entries[..k] { }
  }

  lemma ChronologicalNext(entries: seq<Entry>, buyerId: string)
    requires entries != [] && Chronological(entries[..|entries| - 1], buyerId)
    requires entries[|entries| - 1].buyerId == buyerId ==>
      forall t :: t in HistoryOf(entries[..|entries| - 1], buyerId) ==> t.at <= entries[|entries| - 1].turn.at
    ensures Chronological(entries, buyerId)
  {
    var before := HistoryOf(entries[..|entries| - 1], buyerId);
    forall i | 0 <= i < |before| ensures before[i] in before { }
  }

  lemma {:induction false} AgreeingIsChronological(entries: seq<Entry>, maxItems: nat, buyerId: string)
    requires maxItems >= 1 && AlwaysAgree(entries, maxItems, buyerId)
    ensures Chronological(entries, buyerId)
    decreases |entries|
  {
    if entries != [] {
      var n := |entries| - 1;
      AgreePrefix(entries, maxItems, buyerId, n);
      AgreeingIsChronological(entries[..n], maxItems, buyerId);
      assert entries[..|entries|] == entries;
      if entries[n].buyerId == buyerId {
        forall t | t in HistoryOf(entries[..n], buyerId) ensures t.at <= entries[n].turn.at {
          if t.at > entries[n].turn.at {
            LateTurnSplitsThem(entries, maxItems, buyerId, t);
          }
        }
      }
      ChronologicalNext(entries, buyerId);
    }
  }

  lemma {:induction false} ChronologicalPrefix(entries: seq<Entry>, n: nat, buyerId: string)
    requires n <= |entries| && Chronological(entries, buyerId)
    ensures Chronological(entries[..n], buyerId)
    decreases |entries|
  {
    if n < |entries| {
      var m := |entries| - 1;
      assert HistoryOf(entries[..m], buyerId) <= HistoryOf(entries, buyerId);
      assert entries[..m][..n] == entries[..n];
      ChronologicalPrefix(entries[..m], n, buyerId);
    } else {
      assert entries[..n] == entries;
    }
  }

  /** The memories agree throughout a run exactly if the buyer's time stamps never decrease. */
  lemma AgreeExactlyWhenChronological(entries: seq<Entry>, maxItems: nat, buyerId: string)
    requires maxItems >= 1
    ensures AlwaysAgree(entries, maxItems, buyerId) <==> Chronological(entries, buyerId)
  {
    if AlwaysAgree(entries, maxItems, buyerId) {
      AgreeingIsChronological(entries, maxItems, buyerId);
    }
    if Chronological(entries, buyerId) {
      forall n | 0 <= n <= |entries|
        ensures UniqueIds(TableAfter(entries[..n], maxItems))
        ensures TableRecall(TableAfter(entries[..n], maxItems), buyerId, None)
          == Recent(Bucket(RingAfter(entries[..n], maxItems), buyerId), None)
      {
        ChronologicalPrefix(entries, n, buyerId);
        RecallsAgree(entries[..n], maxItems, buyerId, None);
      }
    }
  }
}
