/**
 * The recorder over the Postgres table. Its contacts and activities have no source, so ON CONFLICT never
 * applies to them, and storing a changed contact is an insert of a known id. All adapters share one
 * connection without autocommit, and nothing rolls back: after a refused statement all later ones fail.
 */
module CrmPostgres {
  import opened Common
  import opened Resources
  import opened KeyedStore
  import opened CrmRecorder
  import opened CrmRuns
  import opened CrmTimeline

  // ---------- the statements ----------

  /** `ORDER BY created_at DESC LIMIT 1`; of several newest rows, the one stored first. */
  function PgFindRef(table: seq<Resource>, tenantId: string, kind: string, externalId: string): Option<Resource> {
    var found := SortDescending(Filter(table, RefersTo(tenantId, kind, externalId)), CreatedAt());
    if found == [] then None else Some(found[0])
  }

  /** INSERT: None for a known id or a taken key. */
  function PgInsert(table: seq<Resource>, r: Resource): Option<seq<Resource>> {
    if IndexOfId(table, r.id) >= 0 || (KeyOf(r).Some? && IndexOfKey(table, KeyOf(r).value) >= 0) then None
    else Some(table + [r])
  }

  /** What the lookup sees of a phone. */
  function Known(table: seq<Resource>, turn: Turn): Option<Resource> {
    PgFindRef(table, turn.tenantId, CONTACT, ContactRef(turn.fromNumber))
  }

  /** Storing the contact of a message; None where the table refuses it. */
  function StoreContact(table: seq<Resource>, turn: Turn, mint: Mint): Option<seq<Resource>>
    requires ContactFrom(Known(table, turn), turn, mint).Some?
  {
    var contact := ContactFrom(Known(table, turn), turn, mint).value;
    if Known(table, turn).None? then PgInsert(table, contact) else PgUpsert(table, contact)
  }

  /** The table, and whether the connection's transaction is aborted. */
  datatype Conn = Conn(table: seq<Resource>, aborted: bool)

  /** One write and its commit. A refused statement leaves the table alone and aborts the transaction. */
  function Attempt(table: seq<Resource>, stored: Option<seq<Resource>>): Conn {
    if stored.Some? then Conn(stored.value, false) else Conn(table, true)
  }

  function PgActivity(table: seq<Resource>, m: Message, mint: Mint): Conn {
    if PgFindRef(table, m.tenantId, ACTIVITY, ActivityRef(m.direction, m.messageId)).Some? then Conn(table, false)
    else Attempt(table, PgInsert(table, NewActivity(m, mint)))
  }

  function PgInbound(table: seq<Resource>, turn: Turn, contactMint: Mint, activityMint: Mint): Conn {
    match ContactFrom(Known(table, turn), turn, contactMint)
    case None => Conn(table, false)
    case Some(contact) =>
      match StoreContact(table, turn, contactMint)
      case None => Conn(table, true)
      case Some(stored) => PgActivity(stored, InboundMessage(turn, contact.id), activityMint)
  }

  function PgOutbound(table: seq<Resource>, reply: Reply, mint: Mint): Conn {
    match PgFindRef(table, reply.tenantId, CONTACT, ContactRef(reply.fromNumber))
    case None => Conn(table, false)
    case Some(contact) => PgActivity(table, OutboundMessage(reply, contact.id), mint)
  }

  /** The lookup finds a newest row with the reference, and nothing exactly if there is none. */
  lemma FindsNewest(table: seq<Resource>, tenantId: string, kind: string, externalId: string)
    ensures var all := Filter(table, RefersTo(tenantId, kind, externalId));
      var found := PgFindRef(table, tenantId, kind, externalId);
      && (found.None? <==> all == [])
      && (found.Some? ==> found.value in all && found.value in table && HasRef(found.value, tenantId, kind, externalId))
      && (found.Some? ==> forall r :: r in all ==> r.createdAt <= found.value.createdAt)
  {
    var all := Filter(table, RefersTo(tenantId, kind, externalId));
    var sorted := SortDescending(all, CreatedAt());
    SortIsDescending(all, CreatedAt());
    if sorted != [] {
      SortedMembers(all, CreatedAt(), sorted[0]);
      FilterIn(table, RefersTo(tenantId, kind, externalId), sorted[0]);
      forall r | r in all ensures r.createdAt <= sorted[0].createdAt {
        SortedMembers(all, CreatedAt(), r);
        var i :| 0 <= i < |sorted| && sorted[i] == r;
        assert CreatedAt()(sorted[0]) >= CreatedAt()(sorted[i]);
      }
    }
  }

  // ---------- one message ----------

  /**
   * The table refuses a message's contact exactly if the phone already has one: with the in-memory
   * store the second message would have counted.
   */
  lemma RefusesSecondTurnExactly(table: seq<Resource>, turn: Turn, mint: Mint)
    requires IndexOfId(table, mint.id) == -1
    requires Known(table, turn).Some? ==> Known(table, turn).value.sourceId.None?
    requires ContactFrom(Known(table, turn), turn, mint).Some?
    ensures StoreContact(table, turn, mint).None? <==>
      exists r :: r in table && HasRef(r, turn.tenantId, CONTACT, ContactRef(turn.fromNumber))
  {
    var p := RefersTo(turn.tenantId, CONTACT, ContactRef(turn.fromNumber));
    FindsNewest(table, turn.tenantId, CONTACT, ContactRef(turn.fromNumber));
    if r :| r in table && HasRef(r, turn.tenantId, CONTACT, ContactRef(turn.fromNumber)) {
      FilterIn(table, p, r);
      assert Known(table, turn).value in table;
    }
  }

  // ---------- runs ----------

  /**
   * `Store` is any other write of the table: a synced row, a task, a breadcrumb, or a patched contact.
   * `Elsewhere` is a statement on another table over the same connection, and `Restart` a new process.
   */
  datatype Event =
    | TurnIn(turn: Turn, contactMint: Mint, activityMint: Mint)
    | ReplyOut(reply: Reply, mint: Mint)
    | Store(row: Resource)
    | Elsewhere(refused: bool)
    | Restart

  /** An event over an open connection. */
  function Do(table: seq<Resource>, e: Event): Conn {
    match e
    case TurnIn(turn, contactMint, activityMint) => PgInbound(table, turn, contactMint, activityMint)
    case ReplyOut(reply, mint) => PgOutbound(table, reply, mint)
    case Store(row) => Attempt(table, PgUpsert(table, row))
    case Elsewhere(refused) => Conn(table, refused)
    case Restart => Conn(table, false)
  }

  function Step(c: Conn, e: Event): Conn {
    if c.aborted && !e.Restart? then c else Do(c.table, e)
  }

  function Run(events: seq<Event>): Conn {
    if events == [] then Conn([], false) else Step(Run(events[..|events| - 1]), events[|events| - 1])
  }

  predicate Used(table: seq<Resource>, id: string) {
    IndexOfId(table, id) >= 0
  }

  /** The only contacts that others write are patched ones, under their own id. */
  predicate Allowed(table: seq<Resource>, e: Event) {
    e.Store? && e.row.kind == CONTACT ==> e.row.sourceId.None? && Used(table, e.row.id)
  }

  ghost predicate IsRun(events: seq<Event>) {
    events == [] ||
    (IsRun(events[..|events| - 1]) && Allowed(Run(events[..|events| - 1]).table, events[|events| - 1]))
  }

  predicate IsTurnOf(e: Event, tenantId: string, fromNumber: string) {
    e.TurnIn? && e.turn.tenantId == tenantId && e.turn.fromNumber == fromNumber
  }

  /** The messages of one phone, in order. */
  function TurnsIn(events: seq<Event>, tenantId: string, fromNumber: string): seq<Turn> {
    if events == [] then []
    else
      var e, before := events[|events| - 1], TurnsIn(events[..|events| - 1], tenantId, fromNumber);
      if IsTurnOf(e, tenantId, fromNumber) then before + [e.turn] else before
  }

  /** Is this a message of the phone that comes over an open connection, with an id that is not in use? */
  predicate Hears(c: Conn, e: Event, tenantId: string, fromNumber: string) {
    IsTurnOf(e, tenantId, fromNumber) && !c.aborted && !Used(c.table, e.contactMint.id)
  }

  /** The first message of the phone that is heard. */
  function FirstHeard(events: seq<Event>, tenantId: string, fromNumber: string): Option<Turn> {
    if events == [] then None
    else
      var n := |events| - 1;
      HeardNext(FirstHeard(events[..n], tenantId, fromNumber), Run(events[..n]), events[n], tenantId, fromNumber)
  }

  function HeardNext(before: Option<Turn>, c: Conn, e: Event, tenantId: string, fromNumber: string): Option<Turn> {
    if before.None? && Hears(c, e, tenantId, fromNumber) then Some(e.turn) else before
  }

  ghost predicate ContactsLackSource(table: seq<Resource>) {
    forall r :: r in table && r.kind == CONTACT ==> r.sourceId.None?
  }

  /** The phone's one contact is the one its first heard message made. */
  ghost predicate FirstOnly(table: seq<Resource>, heard: Option<Turn>, tenantId: string, fromNumber: string) {
    var contacts := ContactsOf(table, tenantId, fromNumber);
    if heard.None? then contacts == []
    else |contacts| == 1 && contacts[0].data == NewContact(heard.value, Mint("", 0)).data
  }

  /** A step that stores at most rows that are no contacts. */
  ghost predicate SameContacts(table: seq<Resource>, table': seq<Resource>) {
    && (ContactsLackSource(table) ==> ContactsLackSource(table'))
    && forall tenantId, fromNumber ::
         ContactsOf(table', tenantId, fromNumber) == ContactsOf(table, tenantId, fromNumber)
  }

  lemma AppendKeepsContacts(table: seq<Resource>, r: Resource)
    requires r.kind != CONTACT
    ensures SameContacts(table, table + [r])
  {
    forall tenantId, fromNumber
      ensures ContactsOf(table + [r], tenantId, fromNumber) == ContactsOf(table, tenantId, fromNumber)
    {
      FilterNext(table, r, RefersTo(tenantId, CONTACT, ContactRef(fromNumber)));
    }
  }

  lemma ActivityKeepsContacts(table: seq<Resource>, m: Message, mint: Mint)
    ensures SameContacts(table, PgActivity(table, m, mint).table)
  {
    AppendKeepsContacts(table, NewActivity(m, mint));
  }

  lemma OverwriteKeepsContacts(table: seq<Resource>, i: nat, r: Resource)
    requires i < |table| && table[i].kind != CONTACT && r.kind != CONTACT
    ensures SameContacts(table, table[i := r])
  {
    forall tenantId, fromNumber
      ensures ContactsOf(table[i := r], tenantId, fromNumber) == ContactsOf(table, tenantId, fromNumber)
    {
      FilterUpdate(table, i, r, RefersTo(tenantId, CONTACT, ContactRef(fromNumber)));
    }
    forall x | x in table[i := r] ensures x in table || x == r { }
  }

  lemma StoreKeepsContacts(table: seq<Resource>, row: Resource)
    requires ContactsLackSource(table) && Allowed(table, Store(row))
    ensures SameContacts(table, Do(table, Store(row)).table)
  {
    var i := if KeyOf(row).Some? then IndexOfKey(table, KeyOf(row).value) else -1;
    if i >= 0 {
      assert table[i] in table;
      OverwriteKeepsContacts(table, i, PgUpsert(table, row).value[i]);
    } else if IndexOfId(table, row.id) < 0 {
      AppendKeepsContacts(table, row);
    }
  }

  /** A contact that counts one message, of that time. */
  ghost predicate CountsOne(contact: Resource, at: int) {
    && Lookup(contact.data, "turn_count") == JInt(1)
    && Lookup(contact.data, "first_contact_at") == JTime(at)
    && Lookup(contact.data, "last_seen_at") == JTime(at)
  }

  lemma NewCountsOne(turn: Turn, mint: Mint)
    ensures CountsOne(NewContact(turn, mint), turn.at) && CountIn(NewContact(turn, mint).data) == Some(1)
  {
  }

  lemma HeardCountsOne(table: seq<Resource>, heard: Option<Turn>, tenantId: string, fromNumber: string)
    requires FirstOnly(table, heard, tenantId, fromNumber) && heard.Some?
    ensures |ContactsOf(table, tenantId, fromNumber)| == 1
    ensures CountsOne(ContactsOf(table, tenantId, fromNumber)[0], heard.value.at)
  {
    NewCountsOne(heard.value, Mint("", 0));
  }

  /** A message of a phone that has a contact changes nothing at all, not even the timeline. */
  lemma LaterTurnIsLost(table: seq<Resource>, turn: Turn, contactMint: Mint, activityMint: Mint)
    requires ContactsLackSource(table) && Known(table, turn).Some?
    ensures PgInbound(table, turn, contactMint, activityMint).table == table
    ensures PgInbound(table, turn, contactMint, activityMint).aborted <==> CountIn(Known(table, turn).value.data).Some?
  {
    FindsNewest(table, turn.tenantId, CONTACT, ContactRef(turn.fromNumber));
    assert Known(table, turn).value in table;
  }

  lemma FirstTurnIsStored(table: seq<Resource>, turn: Turn, contactMint: Mint, activityMint: Mint)
    requires Known(table, turn).None?
    ensures PgInbound(table, turn, contactMint, activityMint)
      == if Used(table, contactMint.id) then Conn(table, true)
         else PgActivity(table + [NewContact(turn, contactMint)], InboundMessage(turn, contactMint.id), activityMint)
  {
    var contact := NewContact(turn, contactMint);
    assert ContactFrom(Known(table, turn), turn, contactMint) == Some(contact);
    assert KeyOf(contact).None?;
    assert StoreContact(table, turn, contactMint)
        == if Used(table, contactMint.id) then None else Some(table + [contact]);
  }

  lemma ContactAppended(table: seq<Resource>, turn: Turn, mint: Mint, tenantId: string, fromNumber: string)
    ensures ContactsOf(table + [NewContact(turn, mint)], tenantId, fromNumber)
      == ContactsOf(table, tenantId, fromNumber)
         + if turn.tenantId == tenantId && turn.fromNumber == fromNumber then [NewContact(turn, mint)] else []
    ensures ContactsLackSource(table) ==> ContactsLackSource(table + [NewContact(turn, mint)])
  {
    FilterNext(table, NewContact(turn, mint), RefersTo(tenantId, CONTACT, ContactRef(fromNumber)));
    if ContactRef(turn.fromNumber) == ContactRef(fromNumber) {
      ContactRefInjective(turn.fromNumber, fromNumber);
    }
    assert ContactsOf(table, tenantId, fromNumber) + [] == ContactsOf(table, tenantId, fromNumber);
  }

  lemma FirstTurnAppends(table: seq<Resource>, turn: Turn, contactMint: Mint, activityMint: Mint,
                         tenantId: string, fromNumber: string)
    requires ContactsLackSource(table) && Known(table, turn).None? && !Used(table, contactMint.id)
    ensures ContactsLackSource(PgInbound(table, turn, contactMint, activityMint).table)
    ensures ContactsOf(PgInbound(table, turn, contactMint, activityMint).table, tenantId, fromNumber)
      == ContactsOf(table, tenantId, fromNumber)
         + if turn.tenantId == tenantId && turn.fromNumber == fromNumber then [NewContact(turn, contactMint)] else []
  {
    FirstTurnIsStored(table, turn, contactMint, activityMint);
    ContactAppended(table, turn, contactMint, tenantId, fromNumber);
    ActivityKeepsContacts(table + [NewContact(turn, contactMint)], InboundMessage(turn, contactMint.id), activityMint);
  }

  lemma TurnKeepsFirst(table: seq<Resource>, e: Event, heard: Option<Turn>, tenantId: string, fromNumber: string)
    requires e.TurnIn? && ContactsLackSource(table) && FirstOnly(table, heard, tenantId, fromNumber)
    ensures ContactsLackSource(Do(table, e).table)
    ensures FirstOnly(Do(table, e).table, HeardNext(heard, Conn(table, false), e, tenantId, fromNumber),
                      tenantId, fromNumber)
  {
    FindsNewest(table, e.turn.tenantId, CONTACT, ContactRef(e.turn.fromNumber));
    if Known(table, e.turn).Some? {
      LaterTurnIsLost(table, e.turn, e.contactMint, e.activityMint);
    } else if Used(table, e.contactMint.id) {
      FirstTurnIsStored(table, e.turn, e.contactMint, e.activityMint);
    } else {
      FirstTurnAppends(table, e.turn, e.contactMint, e.activityMint, tenantId, fromNumber);
    }
  }

  lemma OtherStepsKeepFirst(table: seq<Resource>, e: Event, heard: Option<Turn>, tenantId: string, fromNumber: string)
    requires !e.TurnIn? && Allowed(table, e) && ContactsLackSource(table)
    requires FirstOnly(table, heard, tenantId, fromNumber)
    ensures ContactsLackSource(Do(table, e).table) && FirstOnly(Do(table, e).table, heard, tenantId, fromNumber)
  {
    match e
    case ReplyOut(reply, mint) =>
      var found := PgFindRef(table, reply.tenantId, CONTACT, ContactRef(reply.fromNumber));
      if found.Some? {
        ActivityKeepsContacts(table, OutboundMessage(reply, found.value.id), mint);
      }
    case Store(row) => StoreKeepsContacts(table, row);
    case Elsewhere(_) =>
    case Restart =>
  }

  lemma StepKeepsFirst(c: Conn, e: Event, heard: Option<Turn>, tenantId: string, fromNumber: string)
    requires Allowed(c.table, e) && ContactsLackSource(c.table) && FirstOnly(c.table, heard, tenantId, fromNumber)
    ensures ContactsLackSource(Step(c, e).table)
    ensures FirstOnly(Step(c, e).table, HeardNext(heard, c, e, tenantId, fromNumber), tenantId, fromNumber)
  {
    if !c.aborted && e.TurnIn? {
      TurnKeepsFirst(c.table, e, heard, tenantId, fromNumber);
    } else if !c.aborted || e.Restart? {
      OtherStepsKeepFirst(c.table, e, heard, tenantId, fromNumber);
    }
  }

  lemma {:induction false} RunKeepsFirst(events: seq<Event>, tenantId: string, fromNumber: string)
    requires IsRun(events)
    ensures ContactsLackSource(Run(events).table)
    ensures FirstOnly(Run(events).table, FirstHeard(events, tenantId, fromNumber), tenantId, fromNumber)
    decreases |events|
  {
    if events != [] {
      var n := |events| - 1;
      RunKeepsFirst(events[..n], tenantId, fromNumber);
      StepKeepsFirst(Run(events[..n]), events[n], FirstHeard(events[..n], tenantId, fromNumber), tenantId, fromNumber);
    }
  }

  /**
   * After every run, whatever else is stored, refused or restarted in between, a phone has a contact
   * exactly if one of its messages was heard, and the contact is as the first of them left it. So its
   * count is the number of its messages exactly if it wrote once and that message was heard.
   */
  lemma OnlyFirstHeardCounts(events: seq<Event>, tenantId: string, fromNumber: string)
    requires IsRun(events)
    ensures var turns, heard := TurnsIn(events, tenantId, fromNumber), FirstHeard(events, tenantId, fromNumber);
      var contacts := ContactsOf(Run(events).table, tenantId, fromNumber);
      && (contacts == [] <==> heard.None?)
      && (heard.Some? ==> |contacts| == 1 && CountsOne(contacts[0], heard.value.at) && heard.value in turns)
      && (contacts != [] && Lookup(contacts[0].data, "turn_count") == JInt(|turns|) <==>
            heard.Some? && |turns| == 1)
  {
    RunKeepsFirst(events, tenantId, fromNumber);
    HeardIsTurn(events, tenantId, fromNumber);
    if FirstHeard(events, tenantId, fromNumber).Some? {
      HeardCountsOne(Run(events).table, FirstHeard(events, tenantId, fromNumber), tenantId, fromNumber);
    }
  }

  lemma {:induction false} HeardIsTurn(events: seq<Event>, tenantId: string, fromNumber: string)
    ensures var heard := FirstHeard(events, tenantId, fromNumber);
      heard.Some? ==> heard.value in TurnsIn(events, tenantId, fromNumber)
    decreases |events|
  {
    if events != [] {
      HeardIsTurn(events[..|events| - 1], tenantId, fromNumber);
    }
  }

  // ---------- what is stored ----------

  lemma NewMessageStored(table: seq<Resource>, x: Entry, mint: Mint) returns (activity: seq<Resource>)
    requires ContactsOf(table, x.tenantId, x.fromNumber) != [] && !Used(table, mint.id) && IsWay(x.direction)
    ensures PgActivity(table, MessageFor(ContactsOf(table, x.tenantId, x.fromNumber)[0], x), mint)
      == Conn(table + activity, false)
    ensures |activity| == (if MessagesOf(table, x.tenantId, x.direction, x.messageId) == [] then 1 else 0)
    ensures forall r :: r in activity ==> Carries(table + activity, r, x)
  {
    var contact := ContactsOf(table, x.tenantId, x.fromNumber)[0];
    var m := MessageFor(contact, x);
    FindsNewest(table, x.tenantId, ACTIVITY, ActivityRef(x.direction, x.messageId));
    if MessagesOf(table, x.tenantId, x.direction, x.messageId) == [] {
      activity := [NewActivity(m, mint)];
      assert KeyOf(activity[0]).None?;
      FilterNext(table, activity[0], RefersTo(x.tenantId, CONTACT, ContactRef(x.fromNumber)));
      NewCarries(table + activity, m, mint, x);
    } else {
      activity := [];
      assert table + [] == table;
    }
  }

  function TurnEntry(turn: Turn): Entry {
    Entry(turn.tenantId, turn.fromNumber, "inbound", turn.text, turn.messageId, turn.at, map[])
  }

  /**
   * The first message of a phone over an open connection, with new ids: the table gains its contact,
   * and exactly if the message id is new, the activity that tells it.
   */
  lemma FirstTurnStores(table: seq<Resource>, turn: Turn, contactMint: Mint, activityMint: Mint)
    returns (contact: Resource, activity: seq<Resource>)
    requires ContactsOf(table, turn.tenantId, turn.fromNumber) == []
    requires NewIds(table, TurnIn(turn, contactMint, activityMint))
    ensures PgInbound(table, turn, contactMint, activityMint) == Conn(table + [contact] + activity, false)
    ensures ContactsOf(table + [contact], turn.tenantId, turn.fromNumber) == [contact] && CountsOne(contact, turn.at)
    ensures |activity| == (if MessagesOf(table, turn.tenantId, "inbound", turn.messageId) == [] then 1 else 0)
    ensures forall r :: r in activity ==> Carries(table + [contact] + activity, r, TurnEntry(turn))
  {
    contact := NewContact(turn, contactMint);
    FindsNewest(table, turn.tenantId, CONTACT, ContactRef(turn.fromNumber));
    FirstTurnIsStored(table, turn, contactMint, activityMint);
    ContactAppended(table, turn, contactMint, turn.tenantId, turn.fromNumber);
    NewCountsOne(turn, contactMint);
    ContactIsNoMessage(table, turn, contactMint, InboundMessage(turn, contact.id), activityMint.id);
    activity := NewMessageStored(table + [contact], TurnEntry(turn), activityMint);
  }

  /** A reply to a phone with one contact gains its activity, exactly if the message was not replied to yet. */
  lemma ReplyStores(table: seq<Resource>, reply: Reply, mint: Mint) returns (activity: seq<Resource>)
    requires |ContactsOf(table, reply.tenantId, reply.fromNumber)| == 1 && !Used(table, mint.id)
    ensures PgOutbound(table, reply, mint) == Conn(table + activity, false)
    ensures |activity| == (if MessagesOf(table, reply.tenantId, "outbound", reply.replyTo) == [] then 1 else 0)
    ensures forall r :: r in activity ==>
      Carries(table + activity, r, Entry(reply.tenantId, reply.fromNumber, "outbound", reply.text, reply.replyTo,
                                         reply.at, reply.extra))
  {
    FindsNewest(table, reply.tenantId, CONTACT, ContactRef(reply.fromNumber));
    activity := NewMessageStored(table, Entry(reply.tenantId, reply.fromNumber, "outbound", reply.text, reply.replyTo,
                                              reply.at, reply.extra), mint);
  }

  /** A reply to a phone without a contact stores nothing. */
  lemma ReplyToNobody(table: seq<Resource>, reply: Reply, mint: Mint)
    requires ContactsOf(table, reply.tenantId, reply.fromNumber) == []
    ensures PgOutbound(table, reply, mint) == Conn(table, false)
  {
    FindsNewest(table, reply.tenantId, CONTACT, ContactRef(reply.fromNumber));
  }

  // ---------- refusals ----------

  /** What an open connection refuses, and is aborted by. */
  ghost predicate Refuses(table: seq<Resource>, e: Event) {
    match e
    case TurnIn(turn, contactMint, activityMint) =>
      || ContactsOf(table, turn.tenantId, turn.fromNumber) != []
      || Used(table, contactMint.id)
      || (&& MessagesOf(table, turn.tenantId, "inbound", turn.messageId) == []
          && (Used(table, activityMint.id) || activityMint.id == contactMint.id))
    case ReplyOut(reply, mint) =>
      && ContactsOf(table, reply.tenantId, reply.fromNumber) != []
      && MessagesOf(table, reply.tenantId, "outbound", reply.replyTo) == [] && Used(table, mint.id)
    case Store(row) => Used(table, row.id) && (KeyOf(row).Some? ==> forall x :: x in table ==> KeyOf(x) != KeyOf(row))
    case Elsewhere(refused) => refused
    case Restart => false
  }

  lemma ActivityRefusedExactly(table: seq<Resource>, m: Message, mint: Mint)
    ensures PgActivity(table, m, mint).aborted <==>
      MessagesOf(table, m.tenantId, m.direction, m.messageId) == [] && Used(table, mint.id)
  {
    FindsNewest(table, m.tenantId, ACTIVITY, ActivityRef(m.direction, m.messageId));
    assert KeyOf(NewActivity(m, mint)).None?;
  }

  lemma ContactIsNoMessage(table: seq<Resource>, turn: Turn, mint: Mint, m: Message, id: string)
    ensures var more := table + [NewContact(turn, mint)];
      && MessagesOf(more, m.tenantId, m.direction, m.messageId)
         == MessagesOf(table, m.tenantId, m.direction, m.messageId)
      && (Used(more, id) <==> Used(table, id) || id == mint.id)
  {
    FilterNext(table, NewContact(turn, mint), RefersTo(m.tenantId, ACTIVITY, ActivityRef(m.direction, m.messageId)));
    assert (table + [NewContact(turn, mint)])[..|table|] == table;
  }

  lemma TurnRefusedExactly(table: seq<Resource>, e: Event, heard: Option<Turn>)
    requires e.TurnIn? && ContactsLackSource(table) && FirstOnly(table, heard, e.turn.tenantId, e.turn.fromNumber)
    ensures Do(table, e).aborted <==> Refuses(table, e)
  {
    var turn, contactMint, activityMint := e.turn, e.contactMint, e.activityMint;
    FindsNewest(table, turn.tenantId, CONTACT, ContactRef(turn.fromNumber));
    if heard.Some? {
      NewCountsOne(heard.value, Mint("", 0));
      LaterTurnIsLost(table, turn, contactMint, activityMint);
    } else {
      var m := InboundMessage(turn, contactMint.id);
      FirstTurnIsStored(table, turn, contactMint, activityMint);
      ActivityRefusedExactly(table + [NewContact(turn, contactMint)], m, activityMint);
      ContactIsNoMessage(table, turn, contactMint, m, activityMint.id);
    }
  }

  lemma OtherRefusedExactly(table: seq<Resource>, e: Event)
    requires !e.TurnIn?
    ensures Do(table, e).aborted <==> Refuses(table, e)
  {
    match e
    case ReplyOut(reply, mint) =>
      var found := PgFindRef(table, reply.tenantId, CONTACT, ContactRef(reply.fromNumber));
      FindsNewest(table, reply.tenantId, CONTACT, ContactRef(reply.fromNumber));
      if found.Some? {
        ActivityRefusedExactly(table, OutboundMessage(reply, found.value.id), mint);
      }
    case Store(row) => PgRefusesExactly(table, row);
    case Elsewhere(_) =>
    case Restart =>
  }

  /** Has a statement been refused since the process started? */
  ghost predicate Stuck(events: seq<Event>) {
    events != [] &&
    (var front, e := events[..|events| - 1], events[|events| - 1];
     !e.Restart? && (Stuck(front) || Refuses(Run(front).table, e)))
  }

  lemma RefusedExactly(events: seq<Event>, e: Event)
    requires IsRun(events)
    ensures Do(Run(events).table, e).aborted <==> Refuses(Run(events).table, e)
  {
    if e.TurnIn? {
      RunKeepsFirst(events, e.turn.tenantId, e.turn.fromNumber);
      TurnRefusedExactly(Run(events).table, e, FirstHeard(events, e.turn.tenantId, e.turn.fromNumber));
    } else {
      OtherRefusedExactly(Run(events).table, e);
    }
  }

  /** The transaction is aborted exactly if a statement was refused since the process started. */
  lemma {:induction false} AbortedExactly(events: seq<Event>)
    requires IsRun(events)
    ensures Run(events).aborted <==> Stuck(events)
    decreases |events|
  {
    if events != [] {
      var n := |events| - 1;
      AbortedExactly(events[..n]);
      RefusedExactly(events[..n], events[n]);
    }
  }

  /** Generated ids are new and distinct. */
  predicate NewIds(table: seq<Resource>, e: Event) {
    match e
    case TurnIn(_, contactMint, activityMint) =>
      !Used(table, contactMint.id) && !Used(table, activityMint.id) && contactMint.id != activityMint.id
    case ReplyOut(_, mint) => !Used(table, mint.id)
    case _ => true
  }

  /**
   * With new ids the recorder's first refusal is the second message of some phone: a message is refused
   * exactly if one of the phone was heard before, a reply never, and a patched contact always.
   */
  lemma SecondTurnIsRefused(events: seq<Event>, e: Event)
    requires IsRun(events) && !Run(events).aborted
    requires Allowed(Run(events).table, e) && NewIds(Run(events).table, e)
    ensures e.TurnIn? ==>
      (Step(Run(events), e).aborted <==> FirstHeard(events, e.turn.tenantId, e.turn.fromNumber).Some?)
    ensures e.ReplyOut? ==> !Step(Run(events), e).aborted
    ensures e.Store? && e.row.kind == CONTACT ==> Step(Run(events), e).aborted
  {
    RefusedExactly(events, e);
    if e.TurnIn? {
      RunKeepsFirst(events, e.turn.tenantId, e.turn.fromNumber);
    }
  }

  ghost predicate NoRestartSince(events: seq<Event>, n: nat) {
    forall i :: n <= i < |events| ==> !events[i].Restart?
  }

  /** Nothing is stored after a refusal, by whomever, until the process restarts. */
  lemma {:induction false} FrozenAfterRefusal(events: seq<Event>, n: nat)
    requires n <= |events| && Run(events[..n]).aborted && NoRestartSince(events, n)
    ensures Run(events) == Run(events[..n])
    decreases |events|
  {
    if n == |events| {
      assert events[..n] == events;
    } else {
      assert events[..|events| - 1][..n] == events[..n];
      FrozenAfterRefusal(events[..|events| - 1], n);
    }
  }

  /** The place of the phone's first message, or the run's length. */
  function FirstTurnAt(events: seq<Event>, tenantId: string, fromNumber: string): (n: nat)
    ensures n <= |events| && (n < |events| ==> IsTurnOf(events[n], tenantId, fromNumber))
    ensures forall i :: 0 <= i < n ==> !IsTurnOf(events[i], tenantId, fromNumber)
  {
    if events == [] then 0
    else
      var front := |events| - 1;
      var n := FirstTurnAt(events[..front], tenantId, fromNumber);
      if n < front || IsTurnOf(events[front], tenantId, fromNumber) then n else |events|
  }

  /**
   * In one process the first message decides: the phone is heard exactly if that message came over an
   * open connection. A phone that another one locked out is never heard.
   */
  lemma {:induction false} FirstMessageDecides(events: seq<Event>, tenantId: string, fromNumber: string)
    requires NoRestartSince(events, 0)
    requires var n := FirstTurnAt(events, tenantId, fromNumber);
      n < |events| ==> !Used(Run(events[..n]).table, events[n].contactMint.id)
    ensures var n := FirstTurnAt(events, tenantId, fromNumber);
      FirstHeard(events, tenantId, fromNumber)
        == if n < |events| && !Run(events[..n]).aborted then Some(events[n].turn) else None
    decreases |events|
  {
    if events != [] {
      var front := events[..|events| - 1];
      var n := FirstTurnAt(front, tenantId, fromNumber);
      if n < |front| {
        assert front[..n] == events[..n];
        FirstMessageDecides(front, tenantId, fromNumber);
        if Run(events[..n]).aborted {
          FrozenAfterRefusal(front, n);
        }
      } else {
        assert front[..n] == front;
        FirstMessageDecides(front, tenantId, fromNumber);
      }
    }
  }

  /** A phone that was heard writes again, and the first message of another phone is lost too. */
  lemma OthersAreLost(events: seq<Event>, again: Event, other: Event)
    requires IsRun(events) && !Run(events).aborted && again.TurnIn? && other.TurnIn?
    requires FirstHeard(events, again.turn.tenantId, again.turn.fromNumber).Some?
    requires FirstHeard(events, other.turn.tenantId, other.turn.fromNumber).None?
    ensures Run(events + [again] + [other]) == Conn(Run(events).table, true)
    ensures ContactsOf(Run(events + [again] + [other]).table, other.turn.tenantId, other.turn.fromNumber) == []
  {
    RunNext(events, again);
    RunNext(events + [again], other);
    RefusedExactly(events, again);
    RunKeepsFirst(events, again.turn.tenantId, again.turn.fromNumber);
    RunKeepsFirst(events, other.turn.tenantId, other.turn.fromNumber);
    FindsNewest(Run(events).table, again.turn.tenantId, CONTACT, ContactRef(again.turn.fromNumber));
    LaterTurnIsLost(Run(events).table, again.turn, again.contactMint, again.activityMint);
  }

  lemma RunNext(events: seq<Event>, e: Event)
    ensures Run(events + [e]) == Step(Run(events), e)
  {
    assert (events + [e])[..|events|] == events;
  }

  /** So it is in the shortest such run: A writes, A writes again, B writes once, and B has no contact. */
  lemma ThreeMessages(first: Event, again: Event, other: Event)
    requires first.TurnIn? && again.TurnIn? && other.TurnIn? && first.contactMint.id != first.activityMint.id
    requires IsTurnOf(again, first.turn.tenantId, first.turn.fromNumber)
    requires !IsTurnOf(other, first.turn.tenantId, first.turn.fromNumber)
    ensures ContactsOf(Run([first] + [again] + [other]).table, other.turn.tenantId, other.turn.fromNumber) == []
    ensures |TurnsIn([first] + [again] + [other], other.turn.tenantId, other.turn.fromNumber)| == 1
  {
    FirstIsHeard(first, other.turn.tenantId, other.turn.fromNumber);
    FirstIsHeard(first, first.turn.tenantId, first.turn.fromNumber);
    OthersAreLost([first], again, other);
    TurnsNext([first], again, other.turn.tenantId, other.turn.fromNumber);
    TurnsNext([first] + [again], other, other.turn.tenantId, other.turn.fromNumber);
  }

  lemma FirstIsHeard(first: Event, tenantId: string, fromNumber: string)
    requires first.TurnIn? && first.contactMint.id != first.activityMint.id
    ensures IsRun([first]) && !Run([first]).aborted
    ensures FirstHeard([first], tenantId, fromNumber)
      == if IsTurnOf(first, tenantId, fromNumber) then Some(first.turn) else None
  {
    var none: seq<Event> := [];
    assert [first][..0] == none && Run(none) == Conn([], false);
    assert Run([first]) == Step(Run(none), first);
    RefusedExactly(none, first);
  }

  lemma TurnsNext(events: seq<Event>, e: Event, tenantId: string, fromNumber: string)
    ensures TurnsIn(events + [e], tenantId, fromNumber)
      == TurnsIn(events, tenantId, fromNumber) + if IsTurnOf(e, tenantId, fromNumber) then [e.turn] else []
  {
    assert (events + [e])[..|events|] == events;
  }
}
