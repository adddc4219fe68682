/** The timeline that every run of recorder and extractor steps leaves, message by message. */
module CrmTimeline {
  import opened Common
  import opened PyText
  import opened Resources
  import opened CrmRecorder
  import opened CrmRuns
  import opened CrmGuarantees

  predicate IsWay(direction: string) {
    direction == "inbound" || direction == "outbound"
  }

  /** One message as it came, in either direction. */
  datatype Entry = Entry(tenantId: string, fromNumber: string, direction: string, text: string, messageId: string,
                         at: int, extra: Data)

  function HeardIn(e: Event, tenantId: string, messageId: string): Option<Entry> {
    match e
    case Inbound(turn, _, _) =>
      if turn.tenantId == tenantId && turn.messageId == messageId
      then Some(Entry(tenantId, turn.fromNumber, "inbound", turn.text, messageId, turn.at, map[])) else None
    case _ => None
  }

  /** A reply counts if its phone wrote before. */
  function SentIn(front: seq<Event>, e: Event, tenantId: string, messageId: string): Option<Entry> {
    match e
    case Outbound(reply, _) =>
      if reply.tenantId == tenantId && reply.replyTo == messageId && TurnsOf(front, tenantId, reply.fromNumber) != []
      then Some(Entry(tenantId, reply.fromNumber, "outbound", reply.text, messageId, reply.at, reply.extra)) else None
    case _ => None
  }

  /** The first event of the run that the timeline must show under this direction and message id. */
  function FirstEntry(events: seq<Event>, tenantId: string, direction: string, messageId: string): Option<Entry> {
    if events == [] then None
    else
      var front, e := events[..|events| - 1], events[|events| - 1];
      var before := FirstEntry(front, tenantId, direction, messageId);
      if before.Some? then before
      else if direction == "inbound" then HeardIn(e, tenantId, messageId)
      else SentIn(front, e, tenantId, messageId)
  }

  ghost predicate SaysUnless(data: Data, extra: Data, key: string, value: Json) {
    key !in extra ==> key in data && data[key] == value
  }

  /** The row points to the contact of the phone and says who wrote what, and when; extra data comes last. */
  ghost predicate Carries(rows: seq<Resource>, r: Resource, x: Entry) {
    var contacts := ContactsOf(rows, x.tenantId, x.fromNumber);
    && contacts != []
    && r.tenantId == x.tenantId && r.kind == "activity" && r.status == "active"
    && Says(r.data, contacts[0].id, x)
    && IsPreview(x.text, r.summary)
  }

  ghost predicate Says(data: Data, contactId: string, x: Entry) {
    && SaysUnless(data, x.extra, "contact_id", JStr(contactId))
    && SaysUnless(data, x.extra, "type", JStr("whatsapp_message"))
    && SaysUnless(data, x.extra, "direction", JStr(x.direction))
    && SaysUnless(data, x.extra, "at", JTime(x.at))
    && SaysUnless(data, x.extra, "text", JStr(x.text))
    && SaysUnless(data, x.extra, "message_id", JStr(x.messageId))
    && forall key :: key in x.extra ==> key in data && data[key] == x.extra[key]
  }

  /** Exactly one row if there is something to show, and none otherwise. */
  ghost predicate Shows(rows: seq<Resource>, tenantId: string, direction: string, messageId: string,
                        first: Option<Entry>) {
    var found := MessagesOf(rows, tenantId, direction, messageId);
    match first
    case None => found == []
    case Some(x) => x.tenantId == tenantId && |found| == 1 && Carries(rows, found[0], x)
  }

  // ---------- the preview ----------

  /** The stripped text with blanks for its line feeds. */
  ghost predicate OneLine(text: string, line: string) {
    && |line| == |Strip(text)|
    && forall p :: 0 <= p < |line| ==> line[p] == if Strip(text)[p] == '\n' then ' ' else Strip(text)[p]
  }

  /** The line, if it has at most 240 characters, or its start and an ellipsis. */
  ghost predicate IsPreview(text: string, summary: string) {
    exists line :: OneLine(text, line) && Elided(line, summary, 240)
  }

  lemma GlanceIsPreview(text: string)
    ensures IsPreview(text, Glance(text))
  {
    var line := seq(|Strip(text)|, i requires 0 <= i < |Strip(text)| =>
      if Strip(text)[i] == '\n' then ' ' else Strip(text)[i]);
    assert OneLine(text, line);
    if |line| > 240 {
      CutIsElided(line, 240);
    }
    assert Elided(line, Glance(text), 240);
  }

  // ---------- one activity ----------

  lemma ActivityRefsDiffer(direction: string, messageId: string, direction': string, messageId': string)
    requires IsWay(direction)
    requires IsWay(direction')
    ensures ActivityRef(direction, messageId) == ActivityRef(direction', messageId') <==>
      direction == direction' && messageId == messageId'
  {
    var a, b := ActivityRef(direction, messageId), ActivityRef(direction', messageId');
    assert a[0] == direction[0] && b[0] == direction'[0];
    assert a[|direction| + 1..] == messageId && b[|direction'| + 1..] == messageId';
  }

  function MessageFor(contact: Resource, x: Entry): Message {
    Message(x.tenantId, contact.id, x.direction, x.text, x.messageId, x.at, x.extra)
  }

  /** A message is appended exactly if the timeline does not have it yet. */
  lemma ActivityAppends(rows: seq<Resource>, m: Message, mint: Mint, tenantId: string, direction: string,
                        messageId: string)
    requires IndexOfId(rows, mint.id) == -1
    requires IsWay(m.direction) && IsWay(direction)
    ensures var found := MessagesOf(rows, tenantId, direction, messageId);
      MessagesOf(ActivityAfter(rows, m, mint), tenantId, direction, messageId) ==
        if m.tenantId == tenantId && m.direction == direction && m.messageId == messageId && found == []
        then [NewActivity(m, mint)] else found
  {
    FindRefIsFirst(rows, m.tenantId, ACTIVITY, ActivityRef(m.direction, m.messageId));
    ActivityRefsDiffer(m.direction, m.messageId, direction, messageId);
    PutFilter(rows, NewActivity(m, mint), RefersTo(tenantId, ACTIVITY, ActivityRef(direction, messageId)));
  }

  lemma NewSays(contactId: string, x: Entry, mint: Mint)
    ensures var m := Message(x.tenantId, contactId, x.direction, x.text, x.messageId, x.at, x.extra);
      Says(NewActivity(m, mint).data, contactId, x)
  {
  }

  lemma NewCarries(rows: seq<Resource>, m: Message, mint: Mint, x: Entry)
    requires ContactsOf(rows, x.tenantId, x.fromNumber) != []
    requires m == MessageFor(ContactsOf(rows, x.tenantId, x.fromNumber)[0], x)
    ensures Carries(rows, NewActivity(m, mint), x)
  {
    NewSays(m.contactId, x, mint);
    GlanceIsPreview(m.text);
  }

  /** The phone keeps the contact it has. */
  ghost predicate KeepsContact(rows: seq<Resource>, rows': seq<Resource>, tenantId: string, fromNumber: string) {
    var before, after := ContactsOf(rows, tenantId, fromNumber), ContactsOf(rows', tenantId, fromNumber);
    before != [] ==> after != [] && after[0].id == before[0].id
  }

  /** Rows that stay on the timeline say what they said. */
  lemma StillShows(rows: seq<Resource>, rows': seq<Resource>, tenantId: string, direction: string, messageId: string,
                   first: Option<Entry>)
    requires Shows(rows, tenantId, direction, messageId, first)
    requires MessagesOf(rows', tenantId, direction, messageId) == MessagesOf(rows, tenantId, direction, messageId)
    requires first.Some? ==> KeepsContact(rows, rows', tenantId, first.value.fromNumber)
    ensures Shows(rows', tenantId, direction, messageId, first)
  {
  }

  // ---------- one step ----------

  /** The contact that an inbound message leaves, before its activity. */
  lemma InboundContact(st: State, e: Event, turns: seq<Turn>)
    requires Sound(st) && e.Inbound? && Allowed(st, e)
    requires Guaranteed(st.rows, turns, e.turn.tenantId, e.turn.fromNumber)
    requires turns != [] ==> turns[0].fromNumber == e.turn.fromNumber
    ensures ContactAfter(st.rows, e.turn, e.contactMint).Some?
    ensures var contact := ContactAfter(st.rows, e.turn, e.contactMint).value;
      var rows := Put(st.rows, contact);
      && ContactsOf(rows, e.turn.tenantId, e.turn.fromNumber) == [contact]
      && IndexOfId(rows, e.activityMint.id) == -1
      && KeepsContact(st.rows, rows, e.turn.tenantId, e.turn.fromNumber)
      && Step(st, e).rows == ActivityAfter(rows, InboundMessage(e.turn, contact.id), e.activityMint)
  {
    ContactCounts(st.rows, e.turn, e.contactMint, turns);
    OwnContact(st, e.turn, e.contactMint, turns);
  }

  /** Storing it keeps every phone's contact and every message. */
  lemma ContactShows(st: State, e: Event, turns: seq<Turn>, tenantId: string, direction: string, messageId: string,
                     first: Option<Entry>)
    requires Sound(st) && e.Inbound? && Allowed(st, e)
    requires Guaranteed(st.rows, turns, e.turn.tenantId, e.turn.fromNumber)
    requires turns != [] ==> turns[0].fromNumber == e.turn.fromNumber
    requires Shows(st.rows, tenantId, direction, messageId, first)
    ensures ContactAfter(st.rows, e.turn, e.contactMint).Some?
    ensures var rows := Put(st.rows, ContactAfter(st.rows, e.turn, e.contactMint).value);
      Shows(rows, tenantId, direction, messageId, first)
  {
    InboundContact(st, e, turns);
    var contact := ContactAfter(st.rows, e.turn, e.contactMint).value;
    ContactLeavesActivities(st.rows, e.turn, e.contactMint,
                            RefersTo(tenantId, ACTIVITY, ActivityRef(direction, messageId)));
    if first.Some? {
      ContactEffect(st.rows, e.turn, e.contactMint, tenantId, first.value.fromNumber);
    }
    StillShows(st.rows, Put(st.rows, contact), tenantId, direction, messageId, first);
  }

  lemma InboundShows(events: seq<Event>, e: Event, tenantId: string, direction: string, messageId: string,
                     first: Option<Entry>)
    requires IsRun(events) && e.Inbound? && Allowed(Run(events), e)
    requires IsWay(direction)
    requires Shows(Run(events).rows, tenantId, direction, messageId, first)
    ensures Shows(Step(Run(events), e).rows, tenantId, direction, messageId,
                  if first.Some? || direction != "inbound" then first else HeardIn(e, tenantId, messageId))
  {
    var st, turns := Run(events), TurnsOf(events, e.turn.tenantId, e.turn.fromNumber);
    NoLostUpdates(events, e.turn.tenantId, e.turn.fromNumber);
    MessagesPointToContacts(events);
    TurnsShareRef(events, e.turn.tenantId, e.turn.fromNumber);
    InboundContact(st, e, turns);
    ContactShows(st, e, turns, tenantId, direction, messageId, first);
    var contact := ContactAfter(st.rows, e.turn, e.contactMint).value;
    var x := Entry(e.turn.tenantId, e.turn.fromNumber, "inbound", e.turn.text, e.turn.messageId, e.turn.at, map[]);
    ActivityShows(Put(st.rows, contact), InboundMessage(e.turn, contact.id), e.activityMint, tenantId, direction,
                  messageId, first, x);
  }

  /** Recording one message whose contact is there. */
  lemma ActivityShows(rows: seq<Resource>, m: Message, mint: Mint, tenantId: string, direction: string,
                      messageId: string, first: Option<Entry>, x: Entry)
    requires IndexOfId(rows, mint.id) == -1 && ContactsOf(rows, x.tenantId, x.fromNumber) != []
    requires IsWay(x.direction) && IsWay(direction)
    requires m == MessageFor(ContactsOf(rows, x.tenantId, x.fromNumber)[0], x)
    requires Shows(rows, tenantId, direction, messageId, first)
    ensures Shows(ActivityAfter(rows, m, mint), tenantId, direction, messageId,
                  if first.None? && x.tenantId == tenantId && x.direction == direction && x.messageId == messageId
                  then Some(x) else first)
  {
    ActivityAppends(rows, m, mint, tenantId, direction, messageId);
    ActivityContacts(rows, m, mint, x.tenantId, x.fromNumber);
    if first.Some? {
      ActivityContacts(rows, m, mint, tenantId, first.value.fromNumber);
      StillShows(rows, ActivityAfter(rows, m, mint), tenantId, direction, messageId, first);
    } else {
      NewCarries(ActivityAfter(rows, m, mint), m, mint, x);
    }
  }

  lemma OutboundShows(events: seq<Event>, e: Event, tenantId: string, direction: string, messageId: string,
                      first: Option<Entry>)
    requires IsRun(events) && e.Outbound? && Allowed(Run(events), e)
    requires IsWay(direction)
    requires Shows(Run(events).rows, tenantId, direction, messageId, first)
    ensures Shows(Step(Run(events), e).rows, tenantId, direction, messageId,
                  if first.Some? || direction == "inbound" then first else SentIn(events, e, tenantId, messageId))
  {
    var rows, reply := Run(events).rows, e.reply;
    NoLostUpdates(events, reply.tenantId, reply.fromNumber);
    OnlyContact(rows, reply.tenantId, reply.fromNumber);
    if TurnsOf(events, reply.tenantId, reply.fromNumber) != [] {
      var contact := ContactsOf(rows, reply.tenantId, reply.fromNumber)[0];
      var x := Entry(reply.tenantId, reply.fromNumber, "outbound", reply.text, reply.replyTo, reply.at, reply.extra);
      ActivityShows(rows, OutboundMessage(reply, contact.id), e.mint, tenantId, direction, messageId, first, x);
    }
  }

  lemma ApplyShows(st: State, e: Event, tenantId: string, direction: string, messageId: string, first: Option<Entry>)
    requires Sound(st) && e.Apply? && Allowed(st, e) && IsWay(direction)
    requires Shows(st.rows, tenantId, direction, messageId, first)
    requires first.Some? ==> |ContactsOf(st.rows, tenantId, first.value.fromNumber)| <= 1
    ensures Shows(Step(st, e).rows, tenantId, direction, messageId, first)
  {
    var i, at, more := ApplyEffect(st, e);
    var rows' := Step(st, e).rows;
    if rows' != st.rows {
      var p := RefersTo(tenantId, ACTIVITY, ActivityRef(direction, messageId));
      forall r | p(r) ensures IsMessage(r) {
        MessageRefIsMessage(r, tenantId, direction, messageId);
      }
      ApplyFilter(st.rows, rows', e, i, at, more, p);
      if first.Some? {
        ApplyContacts(st.rows, rows', e, i, at, more, tenantId, first.value.fromNumber);
      }
      StillShows(st.rows, rows', tenantId, direction, messageId, first);
    }
  }

  lemma StepShows(events: seq<Event>, e: Event, tenantId: string, direction: string, messageId: string)
    requires IsRun(events) && Allowed(Run(events), e) && IsWay(direction)
    requires Shows(Run(events).rows, tenantId, direction, messageId, FirstEntry(events, tenantId, direction, messageId))
    ensures Shows(Step(Run(events), e).rows, tenantId, direction, messageId,
                  var before := FirstEntry(events, tenantId, direction, messageId);
                  if before.Some? then before
                  else if direction == "inbound" then HeardIn(e, tenantId, messageId)
                  else SentIn(events, e, tenantId, messageId))
  {
    var first := FirstEntry(events, tenantId, direction, messageId);
    match e
    case Inbound(_, _, _) => InboundShows(events, e, tenantId, direction, messageId, first);
    case Outbound(_, _) => OutboundShows(events, e, tenantId, direction, messageId, first);
    case Apply(_, _, _, _, _, _) =>
      MessagesPointToContacts(events);
      if first.Some? {
        NoLostUpdates(events, tenantId, first.value.fromNumber);
      }
      ApplyShows(Run(events), e, tenantId, direction, messageId, first);
    case Check(_, _) =>
    case Resolve(_, _) =>
  }

  /**
   * After every run the timeline has exactly one row for each message id a phone of the tenant wrote
   * under, and for each reply to one after its phone had written, and no other. The row is that of the
   * first such event and says what it said.
   */
  lemma {:induction false} TimelineIsComplete(events: seq<Event>, tenantId: string, direction: string,
                                              messageId: string)
    requires IsRun(events) && IsWay(direction)
    ensures Shows(Run(events).rows, tenantId, direction, messageId,
                  FirstEntry(events, tenantId, direction, messageId))
    decreases |events|
  {
    if events != [] {
      var n := |events| - 1;
      TimelineIsComplete(events[..n], tenantId, direction, messageId);
      StepShows(events[..n], events[n], tenantId, direction, messageId);
    }
  }
}

/** The name a contact goes by. */
module CrmNames {
  import opened Common
  import opened Resources
  import opened CrmRecorder
  import opened CrmExtractor
  import opened CrmReapply
  import opened CrmRuns
  import opened CrmGuarantees

  /** The first profile name that is not empty. */
  function FirstName(turns: seq<Turn>): Json {
    if turns == [] then JNull
    else
      var turn, before := turns[|turns| - 1], FirstName(turns[..|turns| - 1]);
      if before == JNull && turn.profileName.Some? && turn.profileName.value != "" then JStr(turn.profileName.value)
      else before
  }

  ghost predicate IsCut(s: string, cut: string, n: nat) {
    if |s| <= n then cut == s else |cut| == n && cut <= s
  }

  /** The contact goes by the first name given, and is shown by it, or by its number as long as there is none. */
  ghost predicate Introduced(contact: Resource, turns: seq<Turn>)
    requires turns != []
  {
    var name := FirstName(turns);
    && Lookup(contact.data, "name") == name && contact.status == "active"
    && IsCut(if name.JStr? then name.text else "+" + turns[0].fromNumber, contact.summary, 240)
  }

  lemma {:induction false} FirstNameIsText(turns: seq<Turn>)
    ensures FirstName(turns) == JNull || (FirstName(turns).JStr? && FirstName(turns).text != "")
    decreases |turns|
  {
    if turns != [] {
      FirstNameIsText(turns[..|turns| - 1]);
    }
  }

  lemma NewIntroduced(turn: Turn, mint: Mint)
    ensures Introduced(NewContact(turn, mint), [turn])
  {
    assert [turn][..0] == [];
    assert FirstName([]) == JNull;
  }

  lemma BumpIntroduced(existing: Resource, count: int, turns: seq<Turn>, turn: Turn)
    requires turns != [] && turns[0].fromNumber == turn.fromNumber && Introduced(existing, turns)
    ensures Introduced(BumpedContact(existing, count, turn), turns + [turn])
  {
    FirstNameIsText(turns);
    assert (turns + [turn])[..|turns|] == turns && (turns + [turn])[0] == turns[0];
    var after := BumpedContact(existing, count, turn);
    assert Lookup(after.data, "name") == FirstName(turns + [turn]);
  }

  /** What a later message does to whatever contact is stored: None for a count Python's `int` refuses. */
  lemma BumpSays(existing: Resource, turn: Turn, mint: Mint)
    ensures var after, data := ContactFrom(Some(existing), turn, mint), existing.data;
      && (after.None? <==> "turn_count" in data && !data["turn_count"].JInt? && !data["turn_count"].JBool?)
      && (after.Some? ==>
            var d := after.value.data;
            && (forall key :: key !in {"turn_count", "last_seen_at", "name"} ==>
                  (key in d <==> key in data) && (key in data ==> d[key] == data[key]))
            && Lookup(d, "last_seen_at") == JTime(turn.at)
            && Lookup(d, "turn_count") == JInt(1 + match Lookup(data, "turn_count")
                                                   case JInt(n) => n
                                                   case JBool(b) => (if b then 1 else 0)
                                                   case _ => 0)
            && after.value == existing.(data := d, summary := after.value.summary, updatedAt := turn.at))
  {
  }

  /** No extraction sets the name. */
  predicate LeavesNames(events: seq<Event>) {
    forall i :: 0 <= i < |events| && events[i].Apply? ==> forall u :: u in events[i].x.updates ==> u.key != "name"
  }

  lemma PatchLeavesName(data: Data, x: Extraction, txt: Texts)
    requires forall u :: u in x.updates ==> u.key != "name"
    ensures Lookup(DataAfter(data, x, txt), "name") == Lookup(data, "name")
  {
    MergeMiss(data, x.updates, "name");
  }

  ghost predicate SameNames(before: seq<Resource>, after: seq<Resource>) {
    && |after| == |before|
    && forall i :: 0 <= i < |before| ==>
         && after[i].summary == before[i].summary && after[i].status == before[i].status
         && Lookup(after[i].data, "name") == Lookup(before[i].data, "name")
  }

  lemma ApplyLeavesNames(rows: seq<Resource>, rows': seq<Resource>, e: Event, i: nat, at: int, more: seq<Resource>,
                         tenantId: string, fromNumber: string)
    requires e.Apply? && PatchesAndAppends(rows, rows', e, i, at, more)
    requires forall u :: u in e.x.updates ==> u.key != "name"
    ensures SameNames(ContactsOf(rows, tenantId, fromNumber), ContactsOf(rows', tenantId, fromNumber))
  {
    var p := RefersTo(tenantId, CONTACT, ContactRef(fromNumber));
    var patched := rows[i].(data := DataAfter(rows[i].data, e.x, e.txt), updatedAt := at);
    PatchLeavesName(rows[i].data, e.x, e.txt);
    FilterUpdate(rows, i, patched, p);
    forall r | r in more ensures !p(r) {
      assert Appendable(rows, r);
    }
    FilterNone(more, p);
    FilterAppend(rows[i := patched], more, p);
    SameNamesAround(Filter(rows[..i], p), rows[i], patched, Filter(rows[i + 1..], p), p(rows[i]));
  }

  lemma SameNamesAround(a: seq<Resource>, x: Resource, y: Resource, b: seq<Resource>, there: bool)
    requires x.summary == y.summary && x.status == y.status && Lookup(x.data, "name") == Lookup(y.data, "name")
    ensures SameNames(a + (if there then [x] else []) + b, a + (if there then [y] else []) + b + [])
  {
  }

  /** What the contacts of a phone look like after its turns. */
  ghost predicate GoesByName(rows: seq<Resource>, turns: seq<Turn>, tenantId: string, fromNumber: string) {
    turns != [] ==>
      |ContactsOf(rows, tenantId, fromNumber)| == 1 && Introduced(ContactsOf(rows, tenantId, fromNumber)[0], turns)
  }

  lemma OwnTurnNames(st: State, e: Event, turns: seq<Turn>)
    requires Sound(st) && e.Inbound? && Allowed(st, e)
    requires Guaranteed(st.rows, turns, e.turn.tenantId, e.turn.fromNumber)
    requires turns != [] ==> turns[0].fromNumber == e.turn.fromNumber
    requires GoesByName(st.rows, turns, e.turn.tenantId, e.turn.fromNumber)
    ensures GoesByName(Step(st, e).rows, turns + [e.turn], e.turn.tenantId, e.turn.fromNumber)
  {
    var turn := e.turn;
    OwnContact(st, turn, e.contactMint, turns);
    var contact := ContactAfter(st.rows, turn, e.contactMint).value;
    ActivityContacts(Put(st.rows, contact), InboundMessage(turn, contact.id), e.activityMint, turn.tenantId,
                     turn.fromNumber);
    OnlyContact(st.rows, turn.tenantId, turn.fromNumber);
    if turns == [] {
      NewIntroduced(turn, e.contactMint);
      assert turns + [turn] == [turn];
    } else {
      BumpIntroduced(ContactsOf(st.rows, turn.tenantId, turn.fromNumber)[0], |turns|, turns, turn);
    }
  }

  lemma OtherTurnNames(st: State, e: Event, own: seq<Turn>, turns: seq<Turn>, tenantId: string, fromNumber: string)
    requires Sound(st) && e.Inbound? && Allowed(st, e)
    requires Guaranteed(st.rows, own, e.turn.tenantId, e.turn.fromNumber)
    requires own != [] ==> own[0].fromNumber == e.turn.fromNumber
    requires tenantId != e.turn.tenantId || fromNumber != e.turn.fromNumber
    requires GoesByName(st.rows, turns, tenantId, fromNumber)
    ensures GoesByName(Step(st, e).rows, turns, tenantId, fromNumber)
  {
    OwnContact(st, e.turn, e.contactMint, own);
    var contact := ContactAfter(st.rows, e.turn, e.contactMint).value;
    ContactEffect(st.rows, e.turn, e.contactMint, tenantId, fromNumber);
    ActivityContacts(Put(st.rows, contact), InboundMessage(e.turn, contact.id), e.activityMint, tenantId, fromNumber);
  }

  /** As long as no extraction sets it, a contact goes by the first profile name its messages gave. */
  lemma {:induction false} NameIsFirstGiven(events: seq<Event>, tenantId: string, fromNumber: string)
    requires IsRun(events) && LeavesNames(events)
    ensures GoesByName(Run(events).rows, TurnsOf(events, tenantId, fromNumber), tenantId, fromNumber)
    decreases |events|
  {
    if events != [] {
      var n := |events| - 1;
      var st, e, turns := Run(events[..n]), events[n], TurnsOf(events[..n], tenantId, fromNumber);
      NameIsFirstGiven(events[..n], tenantId, fromNumber);
      NoLostUpdates(events[..n], tenantId, fromNumber);
      MessagesPointToContacts(events[..n]);
      match e {
        case Inbound(turn, _, _) =>
          var own := TurnsOf(events[..n], turn.tenantId, turn.fromNumber);
          NoLostUpdates(events[..n], turn.tenantId, turn.fromNumber);
          TurnsShareRef(events[..n], turn.tenantId, turn.fromNumber);
          if turn.tenantId == tenantId && turn.fromNumber == fromNumber {
            OwnTurnNames(st, e, turns);
          } else {
            OtherTurnNames(st, e, own, turns, tenantId, fromNumber);
          }
        case Outbound(reply, mint) => OutboundAddsNoContact(st.rows, reply, mint, tenantId, fromNumber);
        case Apply(_, _, _, _, _, _) =>
          var i, at, more := ApplyEffect(st, e);
          if Step(st, e).rows != st.rows {
            ApplyLeavesNames(st.rows, Step(st, e).rows, e, i, at, more, tenantId, fromNumber);
          }
        case Check(_, _) =>
        case Resolve(_, _) =>
      }
    }
  }
}

/** What becomes of an extraction that a background task applies later in a run. */
module CrmBackground {
  import opened Common
  import opened Resources
  import opened CrmRecorder
  import opened CrmExtractor
  import opened CrmWrites
  import opened CrmRuns
  import opened CrmGuarantees
  import opened CrmTimeline

  lemma InboundKeepsContact(st: State, e: Event, turns: seq<Turn>, tenantId: string, fromNumber: string)
    requires Sound(st) && e.Inbound? && Allowed(st, e)
    requires Guaranteed(st.rows, turns, e.turn.tenantId, e.turn.fromNumber)
    requires turns != [] ==> turns[0].fromNumber == e.turn.fromNumber
    ensures KeepsContact(st.rows, Step(st, e).rows, tenantId, fromNumber)
  {
    InboundContact(st, e, turns);
    var contact := ContactAfter(st.rows, e.turn, e.contactMint).value;
    ContactEffect(st.rows, e.turn, e.contactMint, tenantId, fromNumber);
    ActivityContacts(Put(st.rows, contact), InboundMessage(e.turn, contact.id), e.activityMint, tenantId, fromNumber);
  }

  /** Every step keeps a phone's contact and every resolved task. */
  lemma StepKeepsContact(events: seq<Event>, e: Event, tenantId: string, fromNumber: string)
    requires IsRun(events) && Allowed(Run(events), e)
    ensures KeepsContact(Run(events).rows, Step(Run(events), e).rows, tenantId, fromNumber)
    ensures Run(events).pending <= Step(Run(events), e).pending
  {
    var st := Run(events);
    MessagesPointToContacts(events);
    NoLostUpdates(events, tenantId, fromNumber);
    match e
    case Inbound(turn, _, _) =>
      NoLostUpdates(events, turn.tenantId, turn.fromNumber);
      TurnsShareRef(events, turn.tenantId, turn.fromNumber);
      InboundKeepsContact(st, e, TurnsOf(events, turn.tenantId, turn.fromNumber), tenantId, fromNumber);
    case Outbound(reply, mint) => OutboundAddsNoContact(st.rows, reply, mint, tenantId, fromNumber);
    case Apply(_, _, _, _, _, _) =>
      var i, at, more := ApplyEffect(st, e);
      if Step(st, e).rows != st.rows {
        ApplyContacts(st.rows, Step(st, e).rows, e, i, at, more, tenantId, fromNumber);
      }
    case Check(_, _) =>
    case Resolve(_, _) =>
  }

  /** A task that resolved its phone's contact still points to it at the end of the run. */
  ghost predicate PointsTo(st: State, tenantId: string, fromNumber: string) {
    var contacts := ContactsOf(st.rows, tenantId, fromNumber);
    |contacts| == 1 && (tenantId, contacts[0].id) in st.pending
  }

  lemma ResolvePoints(events: seq<Event>, tenantId: string, fromNumber: string)
    requires IsRun(events) && TurnsOf(events, tenantId, fromNumber) != []
    ensures PointsTo(Step(Run(events), Resolve(tenantId, fromNumber)), tenantId, fromNumber)
  {
    NoLostUpdates(events, tenantId, fromNumber);
    OnlyContact(Run(events).rows, tenantId, fromNumber);
  }

  /** Event `i` resolves the contact of a phone which had written. */
  ghost predicate ResolvesAt(events: seq<Event>, i: nat, tenantId: string, fromNumber: string) {
    && i < |events| && events[i] == Resolve(tenantId, fromNumber)
    && TurnsOf(events[..i], tenantId, fromNumber) != []
  }

  lemma ResolvesInFront(events: seq<Event>, i: nat, tenantId: string, fromNumber: string)
    requires ResolvesAt(events, i, tenantId, fromNumber) && i < |events| - 1
    ensures ResolvesAt(events[..|events| - 1], i, tenantId, fromNumber)
  {
    assert events[..|events| - 1][..i] == events[..i];
  }

  lemma {:induction false} ResolvedStays(events: seq<Event>, i: nat, tenantId: string, fromNumber: string)
    requires IsRun(events) && ResolvesAt(events, i, tenantId, fromNumber)
    ensures PointsTo(Run(events), tenantId, fromNumber)
    decreases |events|
  {
    var n := |events| - 1;
    if i == n {
      ResolvePoints(events[..n], tenantId, fromNumber);
    } else {
      ResolvesInFront(events, i, tenantId, fromNumber);
      ResolvedStays(events[..n], i, tenantId, fromNumber);
      StillPoints(events, tenantId, fromNumber);
    }
  }

  lemma StillPoints(events: seq<Event>, tenantId: string, fromNumber: string)
    requires IsRun(events) && events != [] && PointsTo(Run(events[..|events| - 1]), tenantId, fromNumber)
    ensures PointsTo(Run(events), tenantId, fromNumber)
  {
    var n := |events| - 1;
    OneContact(events, tenantId, fromNumber);
    PointsStays(events[..n], events[n], tenantId, fromNumber);
  }

  lemma OneContact(events: seq<Event>, tenantId: string, fromNumber: string)
    requires IsRun(events)
    ensures |ContactsOf(Run(events).rows, tenantId, fromNumber)| <= 1
  {
    NoLostUpdates(events, tenantId, fromNumber);
  }

  lemma PointsStays(events: seq<Event>, e: Event, tenantId: string, fromNumber: string)
    requires IsRun(events) && Allowed(Run(events), e) && PointsTo(Run(events), tenantId, fromNumber)
    requires |ContactsOf(Step(Run(events), e).rows, tenantId, fromNumber)| <= 1
    ensures PointsTo(Step(Run(events), e), tenantId, fromNumber)
  {
    StepKeepsContact(events, e, tenantId, fromNumber);
  }

  /**
   * A task that resolved the contact of a phone which had written applies its result to that contact,
   * however much later and whatever else came in between: it then holds every update and every tag.
   */
  lemma ResultReachesContact(events: seq<Event>, i: nat, e: Event, tenantId: string, fromNumber: string)
    requires IsRun(events) && ResolvesAt(events, i, tenantId, fromNumber)
    requires e.Apply? && Allowed(Run(events), e) && |e.mints.tasks| == |e.x.tasks| && DictItems(e.x.updates)
    requires ContactsOf(Run(events).rows, tenantId, fromNumber) != []
    requires e.tenantId == tenantId && e.contactId == ContactsOf(Run(events).rows, tenantId, fromNumber)[0].id
    requires !IsEmpty(e.x) && !Raises(ContactsOf(Run(events).rows, tenantId, fromNumber)[0].data, e.x)
    ensures var before, after := ContactsOf(Run(events).rows, tenantId, fromNumber),
                                 ContactsOf(Step(Run(events), e).rows, tenantId, fromNumber);
      && |after| == 1 && after[0].id == before[0].id && Stores(before[0].data, after[0].data, e.x, e.txt)
  {
    var rows := Run(events).rows;
    var contact := ContactsOf(rows, tenantId, fromNumber)[0];
    ResolvedStays(events, i, tenantId, fromNumber);
    MessagesPointToContacts(events);
    OnlyContact(rows, tenantId, fromNumber);
    var k :| 0 <= k < |rows| && rows[k] == contact;
    AppliedTo(Run(events), e, k, tenantId, fromNumber);
  }

  lemma AppliedTo(st: State, e: Event, k: nat, tenantId: string, fromNumber: string)
    requires Sound(st) && e.Apply? && Allowed(st, e) && |e.mints.tasks| == |e.x.tasks| && DictItems(e.x.updates)
    requires k < |st.rows| && ContactsOf(st.rows, tenantId, fromNumber) == [st.rows[k]] && e.tenantId == tenantId
    requires HasRef(st.rows[k], tenantId, CONTACT, ContactRef(fromNumber))
    requires e.contactId == st.rows[k].id && (tenantId, e.contactId) in st.pending
    requires !IsEmpty(e.x) && !Raises(st.rows[k].data, e.x)
    ensures var after := ContactsOf(Step(st, e).rows, tenantId, fromNumber);
      && |after| == 1 && after[0].id == st.rows[k].id && Stores(st.rows[k].data, after[0].data, e.x, e.txt)
  {
    var rows' := Step(st, e).rows;
    RowIsPatched(st, e, k);
    var i, at, more := ApplyEffect(st, e);
    if rows' != st.rows {
      ApplyContacts(st.rows, rows', e, i, at, more, tenantId, fromNumber);
    }
    OneContactThere(rows', rows'[k], tenantId, fromNumber);
  }

  lemma RowIsPatched(st: State, e: Event, k: nat)
    requires Sound(st) && e.Apply? && Allowed(st, e) && |e.mints.tasks| == |e.x.tasks| && DictItems(e.x.updates)
    requires k < |st.rows| && e.contactId == st.rows[k].id && e.tenantId == st.rows[k].tenantId
    requires (e.tenantId, e.contactId) in st.pending && !IsEmpty(e.x) && !Raises(st.rows[k].data, e.x)
    ensures var rows' := Step(st, e).rows;
      && k < |rows'| && Stores(st.rows[k].data, rows'[k].data, e.x, e.txt)
      && rows'[k] == st.rows[k].(data := rows'[k].data, updatedAt := rows'[k].updatedAt)
  {
    ApplyStores(st.rows, k, e.tenantId, e.x, e.txt, e.now, e.mints);
  }

  lemma OneContactThere(rows: seq<Resource>, r: Resource, tenantId: string, fromNumber: string)
    requires r in rows && HasRef(r, tenantId, CONTACT, ContactRef(fromNumber))
    requires |ContactsOf(rows, tenantId, fromNumber)| == 1
    ensures ContactsOf(rows, tenantId, fromNumber)[0] == r
  {
    FilterIn(rows, RefersTo(tenantId, CONTACT, ContactRef(fromNumber)), r);
  }
}
