/**
 * Every interleaving of the recorder with background extractor tasks. Recording a message and
 * applying an extraction contain no suspension point, so they are the atomic steps; an extractor task
 * resolves its contact in one step and applies its result in any later one.
 */
module CrmRuns {
  import opened Common
  import opened Resources
  import opened CrmRecorder
  import opened CrmExtractor
  import opened CrmReapply

  datatype Event =
    | Inbound(turn: Turn, contactMint: Mint, activityMint: Mint)
    | Outbound(reply: Reply, mint: Mint)
    | Check(tenantId: string, fromNumber: string)
    | Resolve(tenantId: string, fromNumber: string)
    | Apply(tenantId: string, contactId: string, x: Extraction, txt: Texts, now: int, mints: Mints)

  /** `pending` holds the (tenant, contact id) pairs that extractor tasks have resolved. */
  datatype State = State(rows: seq<Resource>, pending: set<(string, string)>)

  const START := State([], {})

  function Step(st: State, e: Event): State {
    match e
    case Inbound(turn, contactMint, activityMint) =>
      st.(rows := InboundAfter(st.rows, turn, contactMint, activityMint))
    case Outbound(reply, mint) => st.(rows := OutboundAfter(st.rows, reply, mint))
    case Check(_, _) => st
    case Resolve(tenantId, fromNumber) =>
      (match FindRef(st.rows, tenantId, CONTACT, ContactRef(fromNumber))
       case None => st
       case Some(contact) => st.(pending := st.pending + {(tenantId, contact.id)}))
    case Apply(tenantId, contactId, x, txt, now, mints) =>
      if (tenantId, contactId) in st.pending && |mints.tasks| == |x.tasks| then
        st.(rows := ApplyAfter(st.rows, tenantId, contactId, x, txt, now, mints))
      else st
  }

  function Run(events: seq<Event>): State {
    if events == [] then START else Step(Run(events[..|events| - 1]), events[|events| - 1])
  }

  /** Generated ids are new, and a reply's extra data does not redirect the activity. */
  ghost predicate Allowed(st: State, e: Event) {
    match e
    case Inbound(_, contactMint, activityMint) =>
      IndexOfId(st.rows, contactMint.id) == -1 && IndexOfId(st.rows, activityMint.id) == -1
      && contactMint.id != activityMint.id
    case Outbound(reply, mint) => IndexOfId(st.rows, mint.id) == -1 && "contact_id" !in reply.extra
    case Apply(_, _, _, _, _, mints) => FreshFor(st.rows, mints)
    case _ => true
  }

  ghost predicate IsRun(events: seq<Event>) {
    events == [] ||
    (IsRun(events[..|events| - 1]) && Allowed(Run(events[..|events| - 1]), events[|events| - 1]))
  }

  // ---------- what a step does to the rows, seen through a selection ----------

  /** A row keeps everything the recorder looks rows up by. */
  predicate SameIdentity(a: Resource, b: Resource) {
    a.id == b.id && a.tenantId == b.tenantId && a.kind == b.kind && a.externalId == b.externalId
    && a.sourceId == b.sourceId
  }

  ghost predicate Sound(st: State) {
    && DistinctIds(st.rows)
    && (forall r :: r in st.rows ==> r.sourceId.None?)
    && (forall p :: p in st.pending ==> ContactAt(st.rows, p.0, p.1))
    && (forall r :: r in st.rows && IsMessage(r) ==> PointsToContact(st.rows, r))
  }

  ghost predicate ContactAt(rows: seq<Resource>, tenantId: string, id: string) {
    exists r :: r in rows && r.id == id && r.tenantId == tenantId && r.kind == CONTACT
  }

  predicate IsMessage(r: Resource) {
    r.kind == ACTIVITY && r.externalId.Some? && ("inbound:" <= r.externalId.value || "outbound:" <= r.externalId.value)
  }

  ghost predicate PointsToContact(rows: seq<Resource>, r: Resource) {
    && Lookup(r.data, "contact_id").JStr?
    && ContactAt(rows, r.tenantId, Lookup(r.data, "contact_id").text)
  }

  /** Rows are never dropped and keep their identity; a message row is not rewritten at all. */
  ghost predicate Extends(rows: seq<Resource>, rows': seq<Resource>) {
    && |rows| <= |rows'|
    && forall i :: 0 <= i < |rows| ==>
         SameIdentity(rows[i], rows'[i]) && (rows[i].kind != CONTACT ==> rows'[i] == rows[i])
  }

  lemma ExtendsKeepsContacts(rows: seq<Resource>, rows': seq<Resource>, tenantId: string, id: string)
    requires Extends(rows, rows') && ContactAt(rows, tenantId, id)
    ensures ContactAt(rows', tenantId, id)
  {
    var r :| r in rows && r.id == id && r.tenantId == tenantId && r.kind == CONTACT;
    var i :| 0 <= i < |rows| && rows[i] == r;
    assert rows'[i] in rows';
  }

  lemma PutExtends(rows: seq<Resource>, r: Resource)
    requires IndexOfId(rows, r.id) == -1 || (SameIdentity(rows[IndexOfId(rows, r.id)], r) && r.kind == CONTACT)
    ensures Extends(rows, Put(rows, r))
  {
  }

  /** Storing one row that is new, or a contact in its old place. */
  lemma StoreExtends(rows: seq<Resource>, r: Resource)
    requires DistinctIds(rows) && r.sourceId.None?
    requires IndexOfId(rows, r.id) == -1 || (SameIdentity(rows[IndexOfId(rows, r.id)], r) && r.kind == CONTACT)
    ensures UpsertRow(rows, r) == Put(rows, r)
    ensures Extends(rows, Put(rows, r)) && DistinctIds(Put(rows, r))
    ensures forall q :: q in Put(rows, r) ==> q == r || q in rows
  {
    KeylessUpsert(rows, r);
    PutKeepsIds(rows, r);
    PutExtends(rows, r);
  }

  lemma StoreKeepsSound(st: State, r: Resource)
    requires Sound(st) && r.sourceId.None?
    requires IndexOfId(st.rows, r.id) == -1 || (SameIdentity(st.rows[IndexOfId(st.rows, r.id)], r) && r.kind == CONTACT)
    requires IsMessage(r) ==> PointsToContact(st.rows, r)
    ensures Sound(st.(rows := Put(st.rows, r))) && Extends(st.rows, Put(st.rows, r))
  {
    StoreExtends(st.rows, r);
    var rows' := Put(st.rows, r);
    forall p | p in st.pending ensures ContactAt(rows', p.0, p.1) {
      ExtendsKeepsContacts(st.rows, rows', p.0, p.1);
    }
    forall q | q in rows' && IsMessage(q) ensures PointsToContact(rows', q) {
      ExtendsKeepsContacts(st.rows, rows', q.tenantId, Lookup(q.data, "contact_id").text);
    }
  }

  // ---------- selections ----------

  function ContactsOf(rows: seq<Resource>, tenantId: string, fromNumber: string): seq<Resource> {
    Filter(rows, RefersTo(tenantId, CONTACT, ContactRef(fromNumber)))
  }

  function MessagesOf(rows: seq<Resource>, tenantId: string, direction: string, messageId: string): seq<Resource> {
    Filter(rows, RefersTo(tenantId, ACTIVITY, ActivityRef(direction, messageId)))
  }

  function InboundOf(contactId: string): Resource -> bool {
    (r: Resource) =>
      r.kind == ACTIVITY && r.externalId.Some? && "inbound:" <= r.externalId.value
      && Lookup(r.data, "contact_id") == JStr(contactId)
  }

  lemma ContactRefInjective(a: string, b: string)
    requires ContactRef(a) == ContactRef(b)
    ensures a == b
  {
    assert ContactRef(a)[6..] == a && ContactRef(b)[6..] == b;
  }

  lemma MessageRows(m: Message, mint: Mint)
    requires m.direction == "inbound" || m.direction == "outbound"
    requires "contact_id" !in m.extra
    ensures var r := NewActivity(m, mint);
      IsMessage(r) && Lookup(r.data, "contact_id") == JStr(m.contactId)
    ensures "inbound:" <= NewActivity(m, mint).externalId.value <==> m.direction == "inbound"
  {
    assert ActivityRef(m.direction, m.messageId) == (m.direction + ":") + m.messageId;
    assert "inbound" + ":" == "inbound:" && "outbound" + ":" == "outbound:";
    if m.direction == "outbound" {
      assert ActivityRef(m.direction, m.messageId)[0] == 'o';
    }
  }

  /** Appending a message activity leaves contacts alone and keeps message references unique. */
  lemma ActivityStep(st: State, m: Message, mint: Mint)
    requires Sound(st) && IndexOfId(st.rows, mint.id) == -1
    requires m.direction == "inbound" || m.direction == "outbound"
    requires "contact_id" !in m.extra && ContactAt(st.rows, m.tenantId, m.contactId)
    ensures Sound(st.(rows := ActivityAfter(st.rows, m, mint)))
    ensures Extends(st.rows, ActivityAfter(st.rows, m, mint))
  {
    MessageRows(m, mint);
    StoreKeepsSound(st, NewActivity(m, mint));
  }

  lemma ActivityContacts(rows: seq<Resource>, m: Message, mint: Mint, tenantId: string, fromNumber: string)
    requires IndexOfId(rows, mint.id) == -1
    ensures ContactsOf(ActivityAfter(rows, m, mint), tenantId, fromNumber) == ContactsOf(rows, tenantId, fromNumber)
  {
    PutFilter(rows, NewActivity(m, mint), RefersTo(tenantId, CONTACT, ContactRef(fromNumber)));
  }

  lemma ActivityMessages(rows: seq<Resource>, m: Message, mint: Mint, tenantId: string, direction: string,
                         messageId: string)
    requires IndexOfId(rows, mint.id) == -1 && |MessagesOf(rows, tenantId, direction, messageId)| <= 1
    ensures |MessagesOf(ActivityAfter(rows, m, mint), tenantId, direction, messageId)| <= 1
  {
    var ref := ActivityRef(direction, messageId);
    FindRefIsFirst(rows, tenantId, ACTIVITY, ref);
    PutFilter(rows, NewActivity(m, mint), RefersTo(tenantId, ACTIVITY, ref));
  }

  lemma ActivityInbound(rows: seq<Resource>, m: Message, mint: Mint, contactId: string)
    requires IndexOfId(rows, mint.id) == -1 && "contact_id" !in m.extra
    requires m.direction == "inbound" || m.direction == "outbound"
    ensures var before := Filter(rows, InboundOf(contactId));
      var after := Filter(ActivityAfter(rows, m, mint), InboundOf(contactId));
      |after| <= |before| + (if m.direction == "inbound" && m.contactId == contactId then 1 else 0)
  {
    MessageRows(m, mint);
    PutFilter(rows, NewActivity(m, mint), InboundOf(contactId));
  }

  // ---------- inbound ----------

  lemma ContactStep(st: State, turn: Turn, mint: Mint)
    requires Sound(st) && IndexOfId(st.rows, mint.id) == -1 && ContactAfter(st.rows, turn, mint).Some?
    ensures var contact := ContactAfter(st.rows, turn, mint).value;
      var rows' := UpsertRow(st.rows, contact);
      && rows' == Put(st.rows, contact) && contact.kind == CONTACT
      && HasRef(contact, turn.tenantId, CONTACT, ContactRef(turn.fromNumber))
      && Sound(st.(rows := rows')) && Extends(st.rows, rows')
      && ContactAt(rows', turn.tenantId, contact.id)
      && (contact.id == mint.id || ContactAt(st.rows, turn.tenantId, contact.id))
      && forall id :: IndexOfId(st.rows, id) == -1 && id != mint.id ==> IndexOfId(rows', id) == -1
  {
    var contact := ContactAfter(st.rows, turn, mint).value;
    var found := FindRef(st.rows, turn.tenantId, CONTACT, ContactRef(turn.fromNumber));
    if found.Some? {
      var i := IndexOfId(st.rows, found.value.id);
      var k :| 0 <= k < |st.rows| && st.rows[k] == found.value;
      assert i == k;
    }
    KeylessUpsert(st.rows, contact);
    StoreKeepsSound(st, contact);
    PutKeepsIds(st.rows, contact);
  }

  /** The message's own contact becomes the only one under its reference; every other stays. */
  lemma ContactEffect(rows: seq<Resource>, turn: Turn, mint: Mint, tenantId: string, fromNumber: string)
    requires DistinctIds(rows) && IndexOfId(rows, mint.id) == -1 && ContactAfter(rows, turn, mint).Some?
    requires |ContactsOf(rows, turn.tenantId, turn.fromNumber)| <= 1
    ensures var contact := ContactAfter(rows, turn, mint).value;
      ContactsOf(Put(rows, contact), tenantId, fromNumber) ==
        if tenantId == turn.tenantId && fromNumber == turn.fromNumber then [contact]
        else ContactsOf(rows, tenantId, fromNumber)
  {
    var contact := ContactAfter(rows, turn, mint).value;
    var ref := ContactRef(turn.fromNumber);
    FindRefIsFirst(rows, turn.tenantId, CONTACT, ref);
    var found := FindRef(rows, turn.tenantId, CONTACT, ref);
    if found.Some? {
      var k :| 0 <= k < |rows| && rows[k] == found.value;
      assert IndexOfId(rows, found.value.id) == k;
    }
    if fromNumber != turn.fromNumber && ContactRef(fromNumber) == ref {
      ContactRefInjective(fromNumber, turn.fromNumber);
    }
    PutFilter(rows, contact, RefersTo(tenantId, CONTACT, ContactRef(fromNumber)));
  }

  lemma ContactLeavesActivities(rows: seq<Resource>, turn: Turn, mint: Mint, p: Resource -> bool)
    requires DistinctIds(rows) && IndexOfId(rows, mint.id) == -1 && ContactAfter(rows, turn, mint).Some?
    requires forall r :: p(r) ==> r.kind == ACTIVITY
    ensures Filter(Put(rows, ContactAfter(rows, turn, mint).value), p) == Filter(rows, p)
  {
    var contact := ContactAfter(rows, turn, mint).value;
    var found := FindRef(rows, turn.tenantId, CONTACT, ContactRef(turn.fromNumber));
    if found.Some? {
      var k :| 0 <= k < |rows| && rows[k] == found.value;
      assert IndexOfId(rows, found.value.id) == k;
    }
    PutFilter(rows, contact, p);
  }

  lemma InboundKeepsSound(st: State, e: Event)
    requires Sound(st) && e.Inbound? && Allowed(st, e)
    ensures Sound(Step(st, e))
  {
    if ContactAfter(st.rows, e.turn, e.contactMint).Some? {
      ContactStep(st, e.turn, e.contactMint);
      var contact := ContactAfter(st.rows, e.turn, e.contactMint).value;
      ActivityStep(st.(rows := UpsertRow(st.rows, contact)), InboundMessage(e.turn, contact.id), e.activityMint);
    }
  }

  lemma OutboundKeepsSound(st: State, e: Event)
    requires Sound(st) && e.Outbound? && Allowed(st, e)
    ensures Sound(Step(st, e))
  {
    var found := FindRef(st.rows, e.reply.tenantId, CONTACT, ContactRef(e.reply.fromNumber));
    if found.Some? {
      ActivityStep(st, OutboundMessage(e.reply, found.value.id), e.mint);
    }
  }

  // ---------- apply ----------

  /** The row an extractor task points to is a contact of its tenant. */
  lemma PendingIsContact(st: State, tenantId: string, contactId: string)
    requires Sound(st) && (tenantId, contactId) in st.pending
    ensures var i := IndexOfId(st.rows, contactId);
      i >= 0 && st.rows[i].tenantId == tenantId && st.rows[i].kind == CONTACT && st.rows[i].sourceId.None?
  {
    assert ContactAt(st.rows, (tenantId, contactId).0, (tenantId, contactId).1);
  }

  /** An application patches the data of the contact at `i` and appends tasks or a breadcrumb, nothing else. */
  ghost predicate PatchesAndAppends(rows: seq<Resource>, rows': seq<Resource>, e: Event, i: nat, at: int,
                                    more: seq<Resource>)
    requires e.Apply?
  {
    && i < |rows| && i == IndexOfId(rows, e.contactId) && rows[i].kind == CONTACT
    && rows' == rows[i := rows[i].(data := DataAfter(rows[i].data, e.x, e.txt), updatedAt := at)] + more
    && DistinctIds(more) && forall r :: r in more ==> Appendable(rows, r)
  }

  lemma BreadcrumbIsNoMessage(stage: Stage, tenantId: string, contactId: string, now: int, mint: Mint)
    ensures !IsMessage(StageRow(stage, tenantId, contactId, now, mint))
  {
    var ref := StageRow(stage, tenantId, contactId, now, mint).externalId.value;
    assert ref[0] == 's' && "inbound:"[0] == 'i' && "outbound:"[0] == 'o';
  }

  /** A row an application may append: neither contact nor message, unkeyed, with a new id. */
  ghost predicate Appendable(rows: seq<Resource>, r: Resource) {
    r.kind != CONTACT && !IsMessage(r) && r.sourceId.None? && IndexOfId(rows, r.id) == -1
  }

  lemma AddedAppendable(rows: seq<Resource>, patched: seq<Resource>, e: Event)
    requires e.Apply? && |e.mints.tasks| == |e.x.tasks| && FreshFor(patched, e.mints)
    requires |patched| == |rows| && forall k :: 0 <= k < |rows| ==> patched[k].id == rows[k].id
    ensures var added := AddedTo(patched, e.tenantId, e.contactId, e.x, e.txt, e.mints);
      DistinctIds(added) && forall r :: r in added ==> Appendable(rows, r) && r.id != e.mints.stage.id
  {
    var st := TaskState(patched, SeenKeys(patched, e.tenantId, e.contactId, e.txt));
    var added := AddedTo(patched, e.tenantId, e.contactId, e.x, e.txt, e.mints);
    BatchAppends(st, e.tenantId, e.contactId, e.x.tasks, e.txt, e.mints.tasks);
    AddedIdsDiffer(st, e.tenantId, e.contactId, e.x.tasks, e.txt, e.mints.tasks);
    forall r | r in added ensures Appendable(rows, r) && r.id != e.mints.stage.id {
      assert NewTask(st, r, e.tenantId, e.contactId, e.txt, e.mints.tasks);
      SameIdsStayFresh(patched, rows, r.id);
    }
  }

  lemma AppendedRows(rows: seq<Resource>, patched: seq<Resource>, e: Event)
    requires e.Apply? && |e.mints.tasks| == |e.x.tasks| && FreshFor(patched, e.mints)
    requires |patched| == |rows| && forall k :: 0 <= k < |rows| ==> patched[k].id == rows[k].id
    ensures var more := AddedTo(patched, e.tenantId, e.contactId, e.x, e.txt, e.mints)
                        + Breadcrumb(e.tenantId, e.contactId, e.x, e.now, e.mints);
      DistinctIds(more) && forall r :: r in more ==> Appendable(rows, r)
  {
    AddedAppendable(rows, patched, e);
    var added := AddedTo(patched, e.tenantId, e.contactId, e.x, e.txt, e.mints);
    SameIdsStayFresh(patched, rows, e.mints.stage.id);
    if e.x.stage.Some? {
      var crumb := StageRow(e.x.stage.value, e.tenantId, e.contactId, e.now, e.mints.stage);
      BreadcrumbIsNoMessage(e.x.stage.value, e.tenantId, e.contactId, e.now, e.mints.stage);
      AppendDistinct(added, crumb);
    }
  }

  lemma AppendDistinct(rows: seq<Resource>, r: Resource)
    requires DistinctIds(rows) && forall q :: q in rows ==> q.id != r.id
    ensures DistinctIds(rows + [r])
  {
  }

  lemma {:induction false} AddedIdsDiffer(st: TaskState, tenantId: string, contactId: string, tasks: seq<Task>,
                                          txt: Texts, mints: seq<Mint>)
    requires |mints| == |tasks| && FreshMints(st.rows, mints)
    ensures DistinctIds(Added(st, tenantId, contactId, tasks, txt, mints))
    decreases |tasks|
  {
    if tasks != [] {
      var n := |tasks| - 1;
      AddedIdsDiffer(st, tenantId, contactId, tasks[..n], txt, mints[..n]);
      BatchAppends(st, tenantId, contactId, tasks[..n], txt, mints[..n]);
      forall r | r in Added(st, tenantId, contactId, tasks[..n], txt, mints[..n]) ensures r.id != mints[n].id {
        assert NewTask(st, r, tenantId, contactId, txt, mints[..n]);
        var k :| 0 <= k < n && r.id == mints[..n][k].id;
        assert mints[..n][k] == mints[k];
      }
    }
  }

  /** What an application appends to the patched rows. */
  function Appended(patched: seq<Resource>, e: Event): seq<Resource>
    requires e.Apply? && |e.mints.tasks| == |e.x.tasks|
  {
    AddedTo(patched, e.tenantId, e.contactId, e.x, e.txt, e.mints)
    + Breadcrumb(e.tenantId, e.contactId, e.x, e.now, e.mints)
  }

  lemma ApplyIsPatchAndMore(rows: seq<Resource>, e: Event, i: nat)
    requires e.Apply? && |e.mints.tasks| == |e.x.tasks| && FreshFor(rows, e.mints) && !IsEmpty(e.x)
    requires i < |rows| && i == IndexOfId(rows, rows[i].id) && rows[i].id == e.contactId
    requires rows[i].tenantId == e.tenantId && rows[i].sourceId.None? && PatchOf(rows[i].data, e.x, e.txt).Some?
    ensures var patched := PatchRows(rows, rows[i], e.x, e.txt, e.now).value;
      && FreshFor(patched, e.mints)
      && ApplyAfter(rows, e.tenantId, e.contactId, e.x, e.txt, e.now, e.mints) == patched + Appended(patched, e)
  {
    ApplyShape(rows, i, e.tenantId, e.x, e.txt, e.now, e.mints);
    var patched := PatchRows(rows, rows[i], e.x, e.txt, e.now).value;
    AppendIsAssociative(patched, AddedTo(patched, e.tenantId, e.contactId, e.x, e.txt, e.mints),
                        Breadcrumb(e.tenantId, e.contactId, e.x, e.now, e.mints));
  }

  /** The patched rows are the old ones with the contact rewritten in its place. */
  lemma PatchedInPlace(rows: seq<Resource>, i: nat, x: Extraction, txt: Texts, now: int)
    requires i < |rows| && i == IndexOfId(rows, rows[i].id) && rows[i].sourceId.None?
    requires PatchOf(rows[i].data, x, txt).Some?
    ensures var patched := PatchRows(rows, rows[i], x, txt, now).value;
      && |patched| == |rows|
      && patched == rows[i := rows[i].(data := DataAfter(rows[i].data, x, txt), updatedAt := patched[i].updatedAt)]
      && forall k :: 0 <= k < |rows| ==> patched[k].id == rows[k].id
  {
    PatchShape(rows, i, x, txt, now);
  }

  lemma ApplyParts(rows: seq<Resource>, e: Event, i: nat)
    requires e.Apply? && |e.mints.tasks| == |e.x.tasks| && FreshFor(rows, e.mints) && !IsEmpty(e.x)
    requires i < |rows| && i == IndexOfId(rows, e.contactId) && rows[i].id == e.contactId
    requires rows[i].tenantId == e.tenantId && rows[i].kind == CONTACT && rows[i].sourceId.None?
    requires PatchOf(rows[i].data, e.x, e.txt).Some?
    ensures var patched := PatchRows(rows, rows[i], e.x, e.txt, e.now).value;
      && i < |patched|
      && PatchesAndAppends(rows, ApplyAfter(rows, e.tenantId, e.contactId, e.x, e.txt, e.now, e.mints), e, i,
                           patched[i].updatedAt, Appended(patched, e))
  {
    ApplyIsPatchAndMore(rows, e, i);
    PatchedInPlace(rows, i, e.x, e.txt, e.now);
    AppendedRows(rows, PatchRows(rows, rows[i], e.x, e.txt, e.now).value, e);
  }

  lemma ApplyEffect(st: State, e: Event) returns (i: nat, at: int, more: seq<Resource>)
    requires Sound(st) && e.Apply? && Allowed(st, e)
    ensures Step(st, e).rows == st.rows || PatchesAndAppends(st.rows, Step(st, e).rows, e, i, at, more)
  {
    i, at, more := 0, 0, [];
    if (e.tenantId, e.contactId) in st.pending && |e.mints.tasks| == |e.x.tasks| && !IsEmpty(e.x) {
      PendingIsContact(st, e.tenantId, e.contactId);
      i := IndexOfId(st.rows, e.contactId);
      if PatchOf(st.rows[i].data, e.x, e.txt).Some? {
        ApplyParts(st.rows, e, i);
        var patched := PatchRows(st.rows, st.rows[i], e.x, e.txt, e.now).value;
        at, more := patched[i].updatedAt, Appended(patched, e);
      }
    }
  }

  lemma ApplyKeepsIds(rows: seq<Resource>, rows': seq<Resource>, e: Event, i: nat, at: int, more: seq<Resource>)
    requires e.Apply? && DistinctIds(rows) && PatchesAndAppends(rows, rows', e, i, at, more)
    ensures DistinctIds(rows') && Extends(rows, rows')
  {
    forall k, l | 0 <= k < |rows| && 0 <= l < |more| ensures rows'[k].id != more[l].id {
      assert Appendable(rows, more[l]);
      assert rows[k] in rows;
    }
    forall k, l | 0 <= k < l < |rows'| ensures rows'[k].id != rows'[l].id {
      if k >= |rows| {
        assert rows'[k] == more[k - |rows|] && rows'[l] == more[l - |rows|];
      } else if l >= |rows| {
        assert rows'[l] == more[l - |rows|];
      }
    }
  }

  /** The messages after an application are those before it, unchanged. */
  lemma ApplyKeepsMessages(rows: seq<Resource>, rows': seq<Resource>, e: Event, i: nat, at: int, more: seq<Resource>)
    requires e.Apply? && PatchesAndAppends(rows, rows', e, i, at, more)
    ensures forall r :: r in rows' && IsMessage(r) ==> r in rows
    ensures (forall r :: r in rows ==> r.sourceId.None?) ==> forall r :: r in rows' ==> r.sourceId.None?
  {
    forall r | r in more ensures !IsMessage(r) && r.sourceId.None? {
      assert Appendable(rows, r);
    }
    var head := rows[i := rows[i].(data := DataAfter(rows[i].data, e.x, e.txt), updatedAt := at)];
    forall r | r in rows' ensures r in head || r in more { }
  }

  lemma ApplyKeepsSound(st: State, e: Event)
    requires Sound(st) && e.Apply? && Allowed(st, e)
    ensures Sound(Step(st, e))
  {
    var i, at, more := ApplyEffect(st, e);
    var rows' := Step(st, e).rows;
    if rows' != st.rows {
      ApplyKeepsIds(st.rows, rows', e, i, at, more);
      ApplyKeepsMessages(st.rows, rows', e, i, at, more);
      forall p | p in st.pending ensures ContactAt(rows', p.0, p.1) {
        ExtendsKeepsContacts(st.rows, rows', p.0, p.1);
      }
      forall r | r in rows' && IsMessage(r) ensures PointsToContact(rows', r) {
        ExtendsKeepsContacts(st.rows, rows', r.tenantId, Lookup(r.data, "contact_id").text);
      }
    }
  }

  lemma StepKeepsSound(st: State, e: Event)
    requires Sound(st) && Allowed(st, e)
    ensures Sound(Step(st, e))
  {
    match e
    case Inbound(_, _, _) => InboundKeepsSound(st, e);
    case Outbound(_, _) => OutboundKeepsSound(st, e);
    case Apply(_, _, _, _, _, _) => ApplyKeepsSound(st, e);
    case Check(_, _) =>
    case Resolve(_, _) =>
  }

  /** In every run all message activities point to an existing contact of their tenant. */
  lemma {:induction false} MessagesPointToContacts(events: seq<Event>)
    requires IsRun(events)
    ensures Sound(Run(events))
    decreases |events|
  {
    if events != [] {
      var n := |events| - 1;
      MessagesPointToContacts(events[..n]);
      StepKeepsSound(Run(events[..n]), events[n]);
    }
  }
}
