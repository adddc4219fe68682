/** What holds after every run of recorder and extractor steps. */
module CrmGuarantees {
  import opened Common
  import opened Resources
  import opened CrmRecorder
  import opened CrmExtractor
  import opened CrmReapply
  import opened CrmRuns

  /** The inbound messages of one phone, in order. */
  function TurnsOf(events: seq<Event>, tenantId: string, fromNumber: string): seq<Turn> {
    if events == [] then []
    else
      var n := |events| - 1;
      var before := TurnsOf(events[..n], tenantId, fromNumber);
      match events[n]
      case Inbound(turn, _, _) =>
        if turn.tenantId == tenantId && turn.fromNumber == fromNumber then before + [turn] else before
      case _ => before
  }

  /** The counters of a contact that has seen these turns. */
  ghost predicate Reflects(contact: Resource, turns: seq<Turn>)
    requires turns != []
  {
    && Lookup(contact.data, "phone") == JStr(turns[0].fromNumber)
    && Lookup(contact.data, "source") == JStr("whatsapp")
    && Lookup(contact.data, "turn_count") == JInt(|turns|)
    && Lookup(contact.data, "first_contact_at") == JTime(turns[0].at)
    && Lookup(contact.data, "last_seen_at") == JTime(turns[|turns| - 1].at)
  }

  ghost predicate Guaranteed(rows: seq<Resource>, turns: seq<Turn>, tenantId: string, fromNumber: string) {
    var contacts := ContactsOf(rows, tenantId, fromNumber);
    && |contacts| == (if turns == [] then 0 else 1)
    && (turns != [] ==>
          && Reflects(contacts[0], turns)
          && |Filter(rows, InboundOf(contacts[0].id))| <= |turns|)
  }

  lemma ApplyFilter(rows: seq<Resource>, rows': seq<Resource>, e: Event, i: nat, at: int, more: seq<Resource>,
                    p: Resource -> bool)
    requires e.Apply? && PatchesAndAppends(rows, rows', e, i, at, more)
    requires forall r :: p(r) ==> IsMessage(r)
    ensures Filter(rows', p) == Filter(rows, p)
  {
    var patched := rows[i].(data := DataAfter(rows[i].data, e.x, e.txt), updatedAt := at);
    FilterUpdate(rows, i, patched, p);
    forall r | r in more ensures !p(r) {
      assert Appendable(rows, r);
    }
    FilterNone(more, p);
    FilterAppend(rows[i := patched], more, p);
  }

  /** An application leaves each phone its contact, with the same id and the same protected fields. */
  lemma ApplyContacts(rows: seq<Resource>, rows': seq<Resource>, e: Event, i: nat, at: int, more: seq<Resource>,
                      tenantId: string, fromNumber: string)
    requires e.Apply? && PatchesAndAppends(rows, rows', e, i, at, more)
    requires |ContactsOf(rows, tenantId, fromNumber)| <= 1
    ensures var before, after := ContactsOf(rows, tenantId, fromNumber), ContactsOf(rows', tenantId, fromNumber);
      && |after| == |before|
      && (before != [] ==>
            && after[0].id == before[0].id
            && forall key :: key in PROTECTED ==> Lookup(after[0].data, key) == Lookup(before[0].data, key))
  {
    var p := RefersTo(tenantId, CONTACT, ContactRef(fromNumber));
    var patched := rows[i].(data := DataAfter(rows[i].data, e.x, e.txt), updatedAt := at);
    FilterUpdate(rows, i, patched, p);
    forall r | r in more ensures !p(r) {
      assert Appendable(rows, r);
    }
    FilterNone(more, p);
    FilterAppend(rows[i := patched], more, p);
    forall key | key in PROTECTED ensures Lookup(patched.data, key) == Lookup(rows[i].data, key) {
      ProtectedFieldsSurvive(rows[i].data, e.x, e.txt, key);
    }
  }

  lemma ApplyKeepsGuarantee(st: State, e: Event, turns: seq<Turn>, tenantId: string, fromNumber: string)
    requires Sound(st) && e.Apply? && Allowed(st, e)
    requires Guaranteed(st.rows, turns, tenantId, fromNumber)
    ensures Guaranteed(Step(st, e).rows, turns, tenantId, fromNumber)
  {
    var i, at, more := ApplyEffect(st, e);
    var rows' := Step(st, e).rows;
    if rows' != st.rows {
      ApplyContacts(st.rows, rows', e, i, at, more, tenantId, fromNumber);
      if turns != [] {
        var id := ContactsOf(st.rows, tenantId, fromNumber)[0].id;
        ApplyFilter(st.rows, rows', e, i, at, more, InboundOf(id));
      }
    }
  }

  lemma OutboundKeepsGuarantee(st: State, e: Event, turns: seq<Turn>, tenantId: string, fromNumber: string)
    requires Sound(st) && e.Outbound? && Allowed(st, e)
    requires Guaranteed(st.rows, turns, tenantId, fromNumber)
    ensures Guaranteed(Step(st, e).rows, turns, tenantId, fromNumber)
  {
    var found := FindRef(st.rows, e.reply.tenantId, CONTACT, ContactRef(e.reply.fromNumber));
    if found.Some? {
      var m := OutboundMessage(e.reply, found.value.id);
      ActivityContacts(st.rows, m, e.mint, tenantId, fromNumber);
      if turns != [] {
        ActivityInbound(st.rows, m, e.mint, ContactsOf(st.rows, tenantId, fromNumber)[0].id);
      }
    }
  }

  /** No message refers to an id that is not yet in the store. */
  lemma NoMessagesYet(st: State, id: string)
    requires Sound(st) && IndexOfId(st.rows, id) == -1
    ensures Filter(st.rows, InboundOf(id)) == []
  {
    forall r | r in st.rows ensures !InboundOf(id)(r) {
      assert IsMessage(r) ==> PointsToContact(st.rows, r);
    }
    FilterNone(st.rows, InboundOf(id));
  }

  lemma OnlyContact(rows: seq<Resource>, tenantId: string, fromNumber: string)
    ensures var contacts := ContactsOf(rows, tenantId, fromNumber);
      FindRef(rows, tenantId, CONTACT, ContactRef(fromNumber)) == if contacts == [] then None else Some(contacts[0])
    ensures forall r :: r in ContactsOf(rows, tenantId, fromNumber) ==>
      r in rows && HasRef(r, tenantId, CONTACT, ContactRef(fromNumber))
  {
    FindRefIsFirst(rows, tenantId, CONTACT, ContactRef(fromNumber));
    var p := RefersTo(tenantId, CONTACT, ContactRef(fromNumber));
    forall r | r in ContactsOf(rows, tenantId, fromNumber)
      ensures r in rows && HasRef(r, tenantId, CONTACT, ContactRef(fromNumber))
    {
      FilterIn(rows, p, r);
    }
  }

  lemma NewReflects(turn: Turn, mint: Mint)
    ensures Reflects(NewContact(turn, mint), [turn])
  {
  }

  lemma BumpReflects(existing: Resource, turns: seq<Turn>, turn: Turn)
    requires turns != [] && turns[0].fromNumber == turn.fromNumber && Reflects(existing, turns)
    ensures CountIn(existing.data) == Some(|turns|)
    ensures Reflects(BumpedContact(existing, |turns|, turn), turns + [turn])
  {
    assert (turns + [turn])[0] == turns[0];
  }

  /** A phone's own message: the count and the last time move on, the first time stays. */
  lemma ContactCounts(rows: seq<Resource>, turn: Turn, mint: Mint, turns: seq<Turn>)
    requires Guaranteed(rows, turns, turn.tenantId, turn.fromNumber)
    requires turns != [] ==> turns[0].fromNumber == turn.fromNumber
    ensures ContactAfter(rows, turn, mint).Some?
    ensures Reflects(ContactAfter(rows, turn, mint).value, turns + [turn])
    ensures turns == [] ==> ContactAfter(rows, turn, mint).value.id == mint.id
    ensures turns != [] ==>
      ContactAfter(rows, turn, mint).value.id == ContactsOf(rows, turn.tenantId, turn.fromNumber)[0].id
  {
    OnlyContact(rows, turn.tenantId, turn.fromNumber);
    if turns == [] {
      NewReflects(turn, mint);
      assert turns + [turn] == [turn];
    } else {
      BumpReflects(ContactsOf(rows, turn.tenantId, turn.fromNumber)[0], turns, turn);
    }
  }

  lemma OwnContact(st: State, turn: Turn, mint: Mint, turns: seq<Turn>)
    requires Sound(st) && IndexOfId(st.rows, mint.id) == -1
    requires Guaranteed(st.rows, turns, turn.tenantId, turn.fromNumber)
    requires turns != [] ==> turns[0].fromNumber == turn.fromNumber
    ensures ContactAfter(st.rows, turn, mint).Some?
    ensures var contact := ContactAfter(st.rows, turn, mint).value;
      && Reflects(contact, turns + [turn])
      && UpsertRow(st.rows, contact) == Put(st.rows, contact)
      && ContactsOf(Put(st.rows, contact), turn.tenantId, turn.fromNumber) == [contact]
      && |Filter(Put(st.rows, contact), InboundOf(contact.id))| <= |turns|
      && forall id :: IndexOfId(st.rows, id) == -1 && id != mint.id ==> IndexOfId(Put(st.rows, contact), id) == -1
  {
    ContactCounts(st.rows, turn, mint, turns);
    var contact := ContactAfter(st.rows, turn, mint).value;
    ContactStep(st, turn, mint);
    ContactEffect(st.rows, turn, mint, turn.tenantId, turn.fromNumber);
    ContactLeavesActivities(st.rows, turn, mint, InboundOf(contact.id));
    if turns == [] {
      NoMessagesYet(st, contact.id);
    }
  }

  lemma OwnInbound(st: State, e: Event, turns: seq<Turn>)
    requires Sound(st) && e.Inbound? && Allowed(st, e)
    requires Guaranteed(st.rows, turns, e.turn.tenantId, e.turn.fromNumber)
    requires turns != [] ==> turns[0].fromNumber == e.turn.fromNumber
    ensures Guaranteed(Step(st, e).rows, turns + [e.turn], e.turn.tenantId, e.turn.fromNumber)
  {
    OwnContact(st, e.turn, e.contactMint, turns);
    var contact := ContactAfter(st.rows, e.turn, e.contactMint).value;
    var m := InboundMessage(e.turn, contact.id);
    assert Step(st, e).rows == ActivityAfter(Put(st.rows, contact), m, e.activityMint);
    ActivityContacts(Put(st.rows, contact), m, e.activityMint, e.turn.tenantId, e.turn.fromNumber);
    ActivityInbound(Put(st.rows, contact), m, e.activityMint, contact.id);
  }

  lemma OtherInbound(st: State, e: Event, turns: seq<Turn>, tenantId: string, fromNumber: string)
    requires Sound(st) && e.Inbound? && Allowed(st, e)
    requires |ContactsOf(st.rows, e.turn.tenantId, e.turn.fromNumber)| <= 1
    requires tenantId != e.turn.tenantId || fromNumber != e.turn.fromNumber
    requires Guaranteed(st.rows, turns, tenantId, fromNumber)
    ensures Guaranteed(Step(st, e).rows, turns, tenantId, fromNumber)
  {
    if ContactAfter(st.rows, e.turn, e.contactMint).None? {
      return;
    }
    var contact := ContactAfter(st.rows, e.turn, e.contactMint).value;
    var m := InboundMessage(e.turn, contact.id);
    ContactStep(st, e.turn, e.contactMint);
    ContactEffect(st.rows, e.turn, e.contactMint, tenantId, fromNumber);
    ActivityContacts(Put(st.rows, contact), m, e.activityMint, tenantId, fromNumber);
    if turns != [] {
      var own := ContactsOf(st.rows, tenantId, fromNumber)[0];
      ContactLeavesActivities(st.rows, e.turn, e.contactMint, InboundOf(own.id));
      ActivityInbound(Put(st.rows, contact), m, e.activityMint, own.id);
      OnlyContact(Put(st.rows, contact), tenantId, fromNumber);
      DifferentContacts(Put(st.rows, contact), own, contact, tenantId, fromNumber, e.turn.tenantId, e.turn.fromNumber);
    }
  }

  lemma DifferentContacts(rows: seq<Resource>, a: Resource, b: Resource, tenantA: string, phoneA: string,
                          tenantB: string, phoneB: string)
    requires DistinctIds(rows) && a in rows && b in rows
    requires HasRef(a, tenantA, CONTACT, ContactRef(phoneA)) && HasRef(b, tenantB, CONTACT, ContactRef(phoneB))
    requires tenantA != tenantB || phoneA != phoneB
    ensures a.id != b.id
  {
    if a == b {
      ContactRefInjective(phoneA, phoneB);
    }
  }

  lemma {:induction false} TurnsShareRef(events: seq<Event>, tenantId: string, fromNumber: string)
    ensures forall t :: t in TurnsOf(events, tenantId, fromNumber) ==>
      t.tenantId == tenantId && t.fromNumber == fromNumber
    decreases |events|
  {
    if events != [] {
      TurnsShareRef(events[..|events| - 1], tenantId, fromNumber);
    }
  }

  /**
   * No lost update. After every run a phone that wrote has exactly one contact; it counts the phone's
   * messages, remembers the first and the last of them, and has at most as many inbound activities.
   */
  lemma {:induction false} NoLostUpdates(events: seq<Event>, tenantId: string, fromNumber: string)
    requires IsRun(events)
    ensures Guaranteed(Run(events).rows, TurnsOf(events, tenantId, fromNumber), tenantId, fromNumber)
    decreases |events|
  {
    if events != [] {
      var n := |events| - 1;
      var st, e := Run(events[..n]), events[n];
      var turns := TurnsOf(events[..n], tenantId, fromNumber);
      NoLostUpdates(events[..n], tenantId, fromNumber);
      MessagesPointToContacts(events[..n]);
      TurnsShareRef(events[..n], tenantId, fromNumber);
      match e {
        case Inbound(turn, _, _) =>
          if turn.tenantId == tenantId && turn.fromNumber == fromNumber {
            OwnInbound(st, e, turns);
          } else {
            NoLostUpdates(events[..n], turn.tenantId, turn.fromNumber);
            OtherInbound(st, e, turns, tenantId, fromNumber);
          }
        case Outbound(_, _) => OutboundKeepsGuarantee(st, e, turns, tenantId, fromNumber);
        case Apply(_, _, _, _, _, _) => ApplyKeepsGuarantee(st, e, turns, tenantId, fromNumber);
        case Check(_, _) =>
        case Resolve(_, _) =>
      }
    } else {
      assert Run(events).rows == [];
    }
  }

  // ---------- timeline ----------

  lemma MessageRefIsMessage(r: Resource, tenantId: string, direction: string, messageId: string)
    requires direction == "inbound" || direction == "outbound"
    requires RefersTo(tenantId, ACTIVITY, ActivityRef(direction, messageId))(r)
    ensures IsMessage(r)
  {
    assert ActivityRef(direction, messageId) == (direction + ":") + messageId;
    assert "inbound" + ":" == "inbound:" && "outbound" + ":" == "outbound:";
  }

  lemma StepKeepsMessagesUnique(st: State, e: Event, tenantId: string, direction: string, messageId: string)
    requires Sound(st) && Allowed(st, e) && (direction == "inbound" || direction == "outbound")
    requires |MessagesOf(st.rows, tenantId, direction, messageId)| <= 1
    ensures |MessagesOf(Step(st, e).rows, tenantId, direction, messageId)| <= 1
  {
    var p := RefersTo(tenantId, ACTIVITY, ActivityRef(direction, messageId));
    match e
    case Inbound(turn, contactMint, activityMint) =>
      if ContactAfter(st.rows, turn, contactMint).Some? {
        var contact := ContactAfter(st.rows, turn, contactMint).value;
        ContactStep(st, turn, contactMint);
        ContactLeavesActivities(st.rows, turn, contactMint, p);
        ActivityMessages(Put(st.rows, contact), InboundMessage(turn, contact.id), activityMint,
                         tenantId, direction, messageId);
      }
    case Outbound(reply, mint) =>
      var found := FindRef(st.rows, reply.tenantId, CONTACT, ContactRef(reply.fromNumber));
      if found.Some? {
        ActivityMessages(st.rows, OutboundMessage(reply, found.value.id), mint, tenantId, direction, messageId);
      }
    case Apply(_, _, _, _, _, _) =>
      var i, at, more := ApplyEffect(st, e);
      if Step(st, e).rows != st.rows {
        forall r | p(r) ensures IsMessage(r) {
          MessageRefIsMessage(r, tenantId, direction, messageId);
        }
        ApplyFilter(st.rows, Step(st, e).rows, e, i, at, more, p);
      }
    case Check(_, _) =>
    case Resolve(_, _) =>
  }

  /** However often a message is delivered, in either direction, it has at most one activity. */
  lemma {:induction false} OneActivityPerMessage(events: seq<Event>, tenantId: string, direction: string,
                                                 messageId: string)
    requires IsRun(events) && (direction == "inbound" || direction == "outbound")
    ensures |MessagesOf(Run(events).rows, tenantId, direction, messageId)| <= 1
    decreases |events|
  {
    if events != [] {
      var n := |events| - 1;
      OneActivityPerMessage(events[..n], tenantId, direction, messageId);
      MessagesPointToContacts(events[..n]);
      StepKeepsMessagesUnique(Run(events[..n]), events[n], tenantId, direction, messageId);
    }
  }

  /** Recording a reply creates and changes no contact, of any phone. */
  lemma OutboundAddsNoContact(rows: seq<Resource>, reply: Reply, mint: Mint, tenantId: string, fromNumber: string)
    requires IndexOfId(rows, mint.id) == -1
    ensures ContactsOf(OutboundAfter(rows, reply, mint), tenantId, fromNumber) == ContactsOf(rows, tenantId, fromNumber)
  {
    var found := FindRef(rows, reply.tenantId, CONTACT, ContactRef(reply.fromNumber));
    if found.Some? {
      ActivityContacts(rows, OutboundMessage(reply, found.value.id), mint, tenantId, fromNumber);
    }
  }

  /** A reply is dropped unless its phone wrote before. */
  lemma OutboundNeedsInbound(events: seq<Event>, reply: Reply, mint: Mint)
    requires IsRun(events)
    ensures TurnsOf(events, reply.tenantId, reply.fromNumber) == [] ==>
      OutboundAfter(Run(events).rows, reply, mint) == Run(events).rows
  {
    NoLostUpdates(events, reply.tenantId, reply.fromNumber);
    OnlyContact(Run(events).rows, reply.tenantId, reply.fromNumber);
  }

  // ---------- dispatching the extractor ----------

  lemma MultipleGrows(m: int, k: int)
    requires k > 0
    ensures m >= 1 ==> m * k >= k
    ensures m <= -1 ==> m * k <= -k
  {
    assert m * k == k + (m - 1) * k && m * k == -k + (m + 1) * k;
    assert m >= 1 ==> (m - 1) * k >= 0;
    assert m <= -1 ==> (m + 1) * k <= 0;
  }

  lemma DivMod(a: int, q: int, r: int, k: nat)
    requires 0 <= r < k && a == q * k + r
    ensures a / k == q && a % k == r
  {
    assert a == (a / k) * k + a % k;
    assert (q - a / k) * k == q * k - (a / k) * k;
    MultipleGrows(q - a / k, k);
  }

  /** Division and divisibility by repeated subtraction. */
  function Quotient(n: nat, k: nat): nat
    requires k >= 1
  {
    if n < k then 0 else Quotient(n - k, k) + 1
  }

  predicate Divides(k: nat, n: nat)
    requires k >= 1
  {
    n == 0 || (n >= k && Divides(k, n - k))
  }

  lemma {:induction false} QuotientIsDiv(n: nat, k: nat)
    requires k >= 1
    ensures Quotient(n, k) == n / k && (Divides(k, n) <==> n % k == 0)
    decreases n
  {
    if n < k {
      DivMod(n, 0, n, k);
    } else {
      QuotientIsDiv(n - k, k);
      DivMod(n, (n - k) / k + 1, (n - k) % k, k);
    }
  }

  lemma {:induction false} OneDividesAll(n: nat)
    ensures Divides(1, n)
  {
    if n > 0 {
      OneDividesAll(n - 1);
    }
  }

  lemma {:induction false} QuotientNext(n: nat, k: nat)
    requires k >= 1
    ensures Quotient(n + 1, k) == Quotient(n, k) + (if Divides(k, n + 1) then 1 else 0)
    decreases n
  {
    if n >= k {
      QuotientNext(n - k, k);
    }
  }

  /** `_maybe_dispatch_crm_extractor` with the extractor enabled; True counts as 1 to Python. */
  predicate Dispatches(rows: seq<Resource>, stride: nat, tenantId: string, fromNumber: string) {
    if stride <= 1 then true
    else
      match FindRef(rows, tenantId, CONTACT, ContactRef(fromNumber))
      case None => false
      case Some(contact) =>
        match Lookup(contact.data, "turn_count")
        case JInt(n) => !(n > 0 && !Divides(stride, n))
        case JBool(b) => !b
        case _ => true
  }

  /** A check dispatches at once with a stride of one, and otherwise only for a contact whose count allows it. */
  lemma DispatchesExactly(rows: seq<Resource>, stride: nat, tenantId: string, fromNumber: string)
    ensures Dispatches(rows, stride, tenantId, fromNumber) <==>
      || stride <= 1
      || (ContactsOf(rows, tenantId, fromNumber) != []
          && match Lookup(ContactsOf(rows, tenantId, fromNumber)[0].data, "turn_count")
             case JInt(n) => n <= 0 || n % stride == 0
             case JBool(b) => !b
             case _ => true)
  {
    OnlyContact(rows, tenantId, fromNumber);
    if stride > 1 && ContactsOf(rows, tenantId, fromNumber) != [] {
      var count := Lookup(ContactsOf(rows, tenantId, fromNumber)[0].data, "turn_count");
      if count.JInt? && count.num > 0 {
        QuotientIsDiv(count.num, stride);
      }
    }
  }

  function ChecksOf(events: seq<Event>, tenantId: string, fromNumber: string): nat {
    if events == [] then 0
    else
      var n := |events| - 1;
      ChecksOf(events[..n], tenantId, fromNumber) + (if events[n] == Check(tenantId, fromNumber) then 1 else 0)
  }

  function DispatchCount(events: seq<Event>, stride: nat, tenantId: string, fromNumber: string): nat {
    if events == [] then 0
    else
      var n := |events| - 1;
      DispatchCount(events[..n], stride, tenantId, fromNumber)
      + (if events[n] == Check(tenantId, fromNumber) && Dispatches(Run(events[..n]).rows, stride, tenantId, fromNumber)
         then 1 else 0)
  }

  /** Each message of the phone is checked before its next one arrives, and checked once. */
  ghost predicate OneAtATime(events: seq<Event>, tenantId: string, fromNumber: string) {
    events == [] ||
    (var front := events[..|events| - 1];
     && OneAtATime(front, tenantId, fromNumber)
     && (events[|events| - 1] == Check(tenantId, fromNumber) ==>
           |TurnsOf(front, tenantId, fromNumber)| == ChecksOf(front, tenantId, fromNumber) + 1))
  }

  lemma CountFound(rows: seq<Resource>, turns: seq<Turn>, tenantId: string, fromNumber: string)
    requires Guaranteed(rows, turns, tenantId, fromNumber) && turns != []
    ensures var found := FindRef(rows, tenantId, CONTACT, ContactRef(fromNumber));
      found.Some? && Lookup(found.value.data, "turn_count") == JInt(|turns|)
  {
    OnlyContact(rows, tenantId, fromNumber);
  }

  /** A check made after n messages dispatches exactly if the stride divides n. */
  lemma DispatchesOnMultiples(rows: seq<Resource>, n: nat, stride: nat, tenantId: string, fromNumber: string)
    requires var found := FindRef(rows, tenantId, CONTACT, ContactRef(fromNumber));
      found.Some? && Lookup(found.value.data, "turn_count") == JInt(n)
    requires n >= 1 && stride >= 1
    ensures Dispatches(rows, stride, tenantId, fromNumber) <==> Divides(stride, n)
    ensures Quotient(n, stride) == Quotient(n - 1, stride)
      + (if Dispatches(rows, stride, tenantId, fromNumber) then 1 else 0)
  {
    if stride == 1 {
      OneDividesAll(n);
    }
    QuotientNext(n - 1, stride);
  }

  lemma NextCheck(events: seq<Event>, n: nat, stride: nat, tenantId: string, fromNumber: string)
    requires IsRun(events) && stride >= 1 && n >= 1 && n == |TurnsOf(events, tenantId, fromNumber)|
    ensures Quotient(n, stride) == Quotient(n - 1, stride)
      + (if Dispatches(Run(events).rows, stride, tenantId, fromNumber) then 1 else 0)
  {
    NoLostUpdates(events, tenantId, fromNumber);
    var rows := Run(events).rows;
    CountFound(rows, TurnsOf(events, tenantId, fromNumber), tenantId, fromNumber);
    DispatchesOnMultiples(rows, n, stride, tenantId, fromNumber);
  }

  lemma CountNext(events: seq<Event>, stride: nat, tenantId: string, fromNumber: string)
    requires events != [] && stride >= 1
    ensures var n := |events| - 1;
      var checks := ChecksOf(events[..n], tenantId, fromNumber);
      if events[n] == Check(tenantId, fromNumber) then
        && ChecksOf(events, tenantId, fromNumber) == checks + 1
        && DispatchCount(events, stride, tenantId, fromNumber)
             == DispatchCount(events[..n], stride, tenantId, fromNumber)
             + (if Dispatches(Run(events[..n]).rows, stride, tenantId, fromNumber) then 1 else 0)
      else
        && ChecksOf(events, tenantId, fromNumber) == checks
        && DispatchCount(events, stride, tenantId, fromNumber)
             == DispatchCount(events[..n], stride, tenantId, fromNumber)
  {
  }

  /** The invariant behind the cadence, for a run that comes apart into a front and one event. */
  ghost predicate Cadence(events: seq<Event>, stride: nat, tenantId: string, fromNumber: string)
    requires stride >= 1
  {
    DispatchCount(events, stride, tenantId, fromNumber) == Quotient(ChecksOf(events, tenantId, fromNumber), stride)
  }

  lemma CadenceNext(events: seq<Event>, n: nat, stride: nat, tenantId: string, fromNumber: string)
    requires |events| == n + 1 && IsRun(events[..n]) && stride >= 1
    requires Cadence(events[..n], stride, tenantId, fromNumber)
    requires events[n] == Check(tenantId, fromNumber) ==>
      |TurnsOf(events[..n], tenantId, fromNumber)| == ChecksOf(events[..n], tenantId, fromNumber) + 1
    ensures Cadence(events, stride, tenantId, fromNumber)
  {
    CountNext(events, stride, tenantId, fromNumber);
    if events[n] == Check(tenantId, fromNumber) {
      NextCheck(events[..n], ChecksOf(events[..n], tenantId, fromNumber) + 1, stride, tenantId, fromNumber);
    }
  }

  lemma {:induction false} DispatchesAreCounted(events: seq<Event>, stride: nat, tenantId: string, fromNumber: string)
    requires IsRun(events) && OneAtATime(events, tenantId, fromNumber) && stride >= 1
    ensures Cadence(events, stride, tenantId, fromNumber)
    decreases |events|
  {
    if events != [] {
      var n := |events| - 1;
      DispatchesAreCounted(events[..n], stride, tenantId, fromNumber);
      CadenceNext(events, n, stride, tenantId, fromNumber);
    }
  }

  /** With stride k, n handled messages dispatch exactly n / k extractor runs, whatever else interleaves. */
  lemma DispatchesEveryKth(events: seq<Event>, stride: nat, tenantId: string, fromNumber: string)
    requires IsRun(events) && OneAtATime(events, tenantId, fromNumber) && stride >= 1
    ensures DispatchCount(events, stride, tenantId, fromNumber) == ChecksOf(events, tenantId, fromNumber) / stride
  {
    DispatchesAreCounted(events, stride, tenantId, fromNumber);
    QuotientIsDiv(ChecksOf(events, tenantId, fromNumber), stride);
  }
}
