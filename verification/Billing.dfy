/** Subscriptions mirrored from Mercado Pago: fetch on notification, then patch the local row. */
module Billing {
  import opened Common
  import opened Resources
  import opened CrmRecorder

  datatype Status = Pending | Authorized | Paused | Cancelled

  datatype Subscription = Subscription(
    id: string,
    tenantId: string,
    planCode: string,
    status: Status,
    mpId: Option<string>,
    initPoint: Option<string>,
    payerEmail: string,
    startedAt: Option<int>,
    periodEnd: Option<int>,
    createdAt: int,
    updatedAt: int)

  /** A preapproval as Mercado Pago reports it; `status` is the lower-cased text. */
  datatype Preapproval = Preapproval(status: string, nextPayment: Json, expiration: Json)

  function ParseStatus(raw: string): Option<Status> {
    if raw == "pending" then Some(Pending)
    else if raw == "authorized" then Some(Authorized)
    else if raw == "paused" then Some(Paused)
    else if raw == "cancelled" then Some(Cancelled)
    else None
  }

  /** ISO 8601 parsing; None where Python raises. */
  type ParseIso = string -> Option<int>

  // ---------- repository ----------

  ghost predicate DistinctSubs(subs: seq<Subscription>) {
    forall i, j :: 0 <= i < j < |subs| ==> subs[i].id != subs[j].id
  }

  /** The provider's id is unique, in the table by constraint. */
  ghost predicate DistinctMpIds(subs: seq<Subscription>) {
    forall i, j :: 0 <= i < j < |subs| && subs[i].mpId.Some? ==> subs[i].mpId != subs[j].mpId
  }

  function SubIndex(subs: seq<Subscription>, id: string): (i: int)
    ensures -1 <= i < |subs|
    ensures i >= 0 ==> subs[i].id == id
    ensures i == -1 <==> forall s :: s in subs ==> s.id != id
  {
    if subs == [] then -1
    else
      var n := |subs| - 1;
      assert subs == subs[..n] + [subs[n]];
      var i := SubIndex(subs[..n], id);
      if i >= 0 then i else if subs[n].id == id then n else -1
  }

  function MpIndex(subs: seq<Subscription>, mpId: string): (i: int)
    ensures -1 <= i < |subs|
    ensures i >= 0 ==> subs[i].mpId == Some(mpId)
    ensures i == -1 <==> forall s :: s in subs ==> s.mpId != Some(mpId)
  {
    if subs == [] then -1
    else
      var n := |subs| - 1;
      assert subs == subs[..n] + [subs[n]];
      var i := MpIndex(subs[..n], mpId);
      if i >= 0 then i else if subs[n].mpId == Some(mpId) then n else -1
  }

  function WithSubId(id: string): Subscription -> bool {
    (s: Subscription) => s.id == id
  }

  function WithMpId(mpId: string): Subscription -> bool {
    (s: Subscription) => s.mpId == Some(mpId)
  }

  /** The row at an index the lookup returned; None for -1. */
  function RowAt(subs: seq<Subscription>, i: int): Option<Subscription>
    requires -1 <= i < |subs|
  {
    if i >= 0 then Some(subs[i]) else None
  }

  lemma {:induction false} SubIndexIsFirst(subs: seq<Subscription>, id: string)
    ensures IsFirst(subs, WithSubId(id), RowAt(subs, SubIndex(subs, id)))
    decreases |subs|
  {
    if subs != [] && SubIndex(subs, id) >= 0 {
      var n := |subs| - 1;
      SubIndexIsFirst(subs[..n], id);
      assert subs == subs[..n] + [subs[n]];
      if SubIndex(subs[..n], id) < 0 {
        forall j | 0 <= j < n ensures subs[j].id != id {
          assert subs[..n][j] in subs[..n];
        }
      }
    }
  }

  lemma {:induction false} MpIndexIsFirst(subs: seq<Subscription>, mpId: string)
    ensures IsFirst(subs, WithMpId(mpId), RowAt(subs, MpIndex(subs, mpId)))
    decreases |subs|
  {
    if subs != [] && MpIndex(subs, mpId) >= 0 {
      var n := |subs| - 1;
      MpIndexIsFirst(subs[..n], mpId);
      assert subs == subs[..n] + [subs[n]];
      if MpIndex(subs[..n], mpId) < 0 {
        forall j | 0 <= j < n ensures subs[j].mpId != Some(mpId) {
          assert subs[..n][j] in subs[..n];
        }
      }
    }
  }

  /** `_by_id[s.id] = s`: an existing entry keeps its place. */
  function StoreSub(subs: seq<Subscription>, s: Subscription): seq<Subscription> {
    var i := SubIndex(subs, s.id);
    if i >= 0 then subs[i := s] else subs + [s]
  }

  predicate HasActive(subs: seq<Subscription>, tenantId: string) {
    exists i :: 0 <= i < |subs| && subs[i].tenantId == tenantId && subs[i].status == Authorized
  }

  class SubscriptionRepository {
    var subs: seq<Subscription>

    ghost predicate Valid()
      reads this
    {
      DistinctSubs(subs)
    }

    constructor ()
      ensures Valid() && subs == []
    {
      subs := [];
    }

    method Add(s: Subscription)
      requires Valid()
      modifies this
      ensures Valid() && subs == StoreSub(old(subs), s)
    {
      var i := SubIndex(subs, s.id);
      if i >= 0 {
        subs := subs[i := s];
      } else {
        subs := subs + [s];
      }
    }

    method Get(id: string) returns (found: Option<Subscription>)
      ensures IsFirst(subs, WithSubId(id), found) && found == RowAt(subs, SubIndex(subs, id))
    {
      SubIndexIsFirst(subs, id);
      found := RowAt(subs, SubIndex(subs, id));
    }

    method GetByPreapprovalId(mpId: string) returns (found: Option<Subscription>)
      ensures IsFirst(subs, WithMpId(mpId), found) && found == RowAt(subs, MpIndex(subs, mpId))
    {
      MpIndexIsFirst(subs, mpId);
      for i := 0 to |subs|
        invariant forall j :: 0 <= j < i ==> subs[j].mpId != Some(mpId)
      {
        if subs[i].mpId == Some(mpId) {
          FirstIsUnique(subs, WithMpId(mpId), Some(subs[i]), RowAt(subs, MpIndex(subs, mpId)));
          return Some(subs[i]);
        }
      }
      FirstIsUnique(subs, WithMpId(mpId), None, RowAt(subs, MpIndex(subs, mpId)));
      return None;
    }

    method ActiveForTenant(tenantId: string) returns (active: bool)
      ensures active == HasActive(subs, tenantId)
    {
      for i := 0 to |subs|
        invariant forall j :: 0 <= j < i ==> !(subs[j].tenantId == tenantId && subs[j].status == Authorized)
      {
        if subs[i].tenantId == tenantId && subs[i].status == Authorized {
          return true;
        }
      }
      return false;
    }

    /** False stands for the `KeyError` of an unknown subscription. */
    method Update(s: Subscription) returns (known: bool)
      requires Valid()
      modifies this
      ensures Valid() && (known <==> exists x :: x in old(subs) && x.id == s.id)
      ensures subs == if known then StoreSub(old(subs), s) else old(subs)
    {
      var i := SubIndex(subs, s.id);
      if i < 0 {
        return false;
      }
      assert subs[i] in subs;
      subs := subs[i := s];
      return true;
    }
  }

  // ---------- service ----------

  /** What `create_preapproval` returns; None is a provider error. */
  type CreateReply = Option<(string, string)>

  datatype SubscribeResult = Subscribed(subscription: Subscription) | BadPlan | Conflict | ProviderError

  function PendingRow(id: string, tenantId: string, planCode: string, payerEmail: string,
                      createdAt: int): Subscription {
    Subscription(id, tenantId, planCode, Pending, None, None, payerEmail, None, None, createdAt, createdAt)
  }

  function LinkedRow(s: Subscription, reply: (string, string), now: int): Subscription {
    s.(mpId := Some(reply.0), initPoint := Some(reply.1), updatedAt := now)
  }

  function SubscribeAfter(subs: seq<Subscription>, id: string, tenantId: string, planCode: string, known: bool,
                          payerEmail: string, createdAt: int, reply: CreateReply, now: int): seq<Subscription> {
    if !known || HasActive(subs, tenantId) then subs
    else
      var row := PendingRow(id, tenantId, planCode, payerEmail, createdAt);
      subs + [if reply.Some? then LinkedRow(row, reply.value, now) else row]
  }

  /** The update once the provider has replied; there is no row if `subscribe` refused. */
  function LinkAfter(subs: seq<Subscription>, id: string, reply: (string, string), now: int): seq<Subscription> {
    var i := SubIndex(subs, id);
    if i >= 0 then subs[i := LinkedRow(subs[i], reply, now)] else subs
  }

  function CancelAfter(subs: seq<Subscription>, tenantId: string, id: string, now: int): seq<Subscription> {
    var i := SubIndex(subs, id);
    if i >= 0 && subs[i].tenantId == tenantId then subs[i := subs[i].(status := Cancelled, updatedAt := now)]
    else subs
  }

  /** `data.get("next_payment_date") or data.get("date_of_expiration")`, if that is text that parses. */
  function PeriodEnd(old_: Option<int>, data: Preapproval, parse: ParseIso): Option<int> {
    var next := if Truthy(data.nextPayment) then data.nextPayment else data.expiration;
    if next.JStr? && parse(next.text).Some? then parse(next.text) else old_
  }

  /** The row patched with a known status. */
  function Patched(s: Subscription, status: Status, data: Preapproval, parse: ParseIso, startedNow: int,
                   updatedNow: int): Subscription {
    s.(startedAt := if status == Authorized && s.startedAt.None? then Some(startedNow) else s.startedAt,
       periodEnd := PeriodEnd(s.periodEnd, data, parse), status := status, updatedAt := updatedNow)
  }

  /** Writing one fetch result, None for a failed fetch. */
  function CommitAfter(subs: seq<Subscription>, mpId: string, fetched: Option<Preapproval>, parse: ParseIso,
                       startedNow: int, updatedNow: int): seq<Subscription> {
    var i := MpIndex(subs, mpId);
    if i < 0 || fetched.None? || ParseStatus(fetched.value.status).None? then subs
    else
      subs[i := Patched(subs[i], ParseStatus(fetched.value.status).value, fetched.value, parse, startedNow, updatedNow)]
  }

  lemma StoreNew(subs: seq<Subscription>, s: Subscription)
    requires SubIndex(subs, s.id) == -1
    ensures StoreSub(subs, s) == subs + [s] && SubIndex(subs + [s], s.id) == |subs|
  {
    assert (subs + [s])[..|subs|] == subs;
  }

  lemma ReplaceLast(subs: seq<Subscription>, s: Subscription, t: Subscription)
    ensures (subs + [s])[|subs|] == s && (subs + [s])[|subs| := t] == subs + [t]
  {
  }

  lemma LinkLast(subs: seq<Subscription>, s: Subscription, reply: (string, string), now: int)
    requires SubIndex(subs, s.id) == -1
    ensures SubIndex(subs + [s], s.id) == |subs|
    ensures LinkAfter(subs + [s], s.id, reply, now) == subs + [LinkedRow(s, reply, now)]
  {
    StoreNew(subs, s);
    ReplaceLast(subs, s, LinkedRow(s, reply, now));
  }

  lemma StoreTwice(subs: seq<Subscription>, s: Subscription, t: Subscription)
    requires SubIndex(subs, s.id) == -1 && t.id == s.id
    ensures StoreSub(StoreSub(subs, s), t) == subs + [t] && exists x :: x in StoreSub(subs, s) && x.id == t.id
  {
    StoreNew(subs, s);
    assert (subs + [s])[|subs|] == s;
  }

  lemma OwnIndex(subs: seq<Subscription>, i: nat)
    requires DistinctSubs(subs) && i < |subs|
    ensures SubIndex(subs, subs[i].id) == i
  {
    assert subs[i] in subs;
  }

  class BillingService {
    const repo: SubscriptionRepository

    constructor (repo: SubscriptionRepository)
      ensures this.repo == repo
    {
      this.repo := repo;
    }

    method Subscribe(id: string, tenantId: string, planCode: string, known: bool, payerEmail: string, createdAt: int,
                     reply: CreateReply, now: int) returns (result: SubscribeResult)
      requires repo.Valid() && SubIndex(repo.subs, id) == -1
      modifies repo
      ensures repo.Valid()
      ensures repo.subs
        == SubscribeAfter(old(repo.subs), id, tenantId, planCode, known, payerEmail, createdAt, reply, now)
      ensures result ==
        if !known then BadPlan
        else if HasActive(old(repo.subs), tenantId) then Conflict
        else if reply.None? then ProviderError
        else Subscribed(LinkedRow(PendingRow(id, tenantId, planCode, payerEmail, createdAt), reply.value, now))
    {
      if !known {
        return BadPlan;
      }
      var active := repo.ActiveForTenant(tenantId);
      if active {
        return Conflict;
      }
      var subscription := PendingRow(id, tenantId, planCode, payerEmail, createdAt);
      StoreNew(repo.subs, subscription);
      repo.Add(subscription);
      if reply.None? {
        return ProviderError;
      }
      StoreTwice(old(repo.subs), subscription, LinkedRow(subscription, reply.value, now));
      subscription := subscription.(mpId := Some(reply.value.0), initPoint := Some(reply.value.1), updatedAt := now);
      var known := repo.Update(subscription);
      return Subscribed(subscription);
    }

    /** None stands for the `KeyError`; the provider's answer to the cancellation changes nothing here. */
    method Cancel(tenantId: string, id: string, now: int) returns (result: Option<Subscription>)
      requires repo.Valid()
      modifies repo
      ensures repo.Valid() && repo.subs == CancelAfter(old(repo.subs), tenantId, id, now)
      ensures result == var i := SubIndex(old(repo.subs), id);
        if i >= 0 && old(repo.subs)[i].tenantId == tenantId then Some(repo.subs[i]) else None
    {
      var found := repo.Get(id);
      if found.None? || found.value.tenantId != tenantId {
        return None;
      }
      var subscription := found.value.(status := Cancelled, updatedAt := now);
      var known := repo.Update(subscription);
      return Some(subscription);
    }

    method ReconcileFromWebhook(mpId: string, fetched: Option<Preapproval>, parse: ParseIso, startedNow: int,
                                updatedNow: int) returns (result: Option<Subscription>)
      requires repo.Valid()
      modifies repo
      ensures repo.Valid()
      ensures repo.subs == CommitAfter(old(repo.subs), mpId, fetched, parse, startedNow, updatedNow)
      ensures result == var i := MpIndex(old(repo.subs), mpId);
        if i >= 0 && fetched.Some? then Some(repo.subs[i]) else None
    {
      var found := repo.GetByPreapprovalId(mpId);
      if found.None? || fetched.None? {
        return None;
      }
      OwnIndex(repo.subs, MpIndex(repo.subs, mpId));
      var subscription := found.value;
      var status := ParseStatus(fetched.value.status);
      if status.None? {
        return Some(subscription);
      }
      if status.value == Authorized && subscription.startedAt.None? {
        subscription := subscription.(startedAt := Some(startedNow));
      }
      var next := if Truthy(fetched.value.nextPayment) then fetched.value.nextPayment else fetched.value.expiration;
      if next.JStr? {
        var parsed := parse(next.text);
        if parsed.Some? {
          subscription := subscription.(periodEnd := parsed);
        }
      }
      subscription := subscription.(status := status.value, updatedAt := updatedNow);
      var known := repo.Update(subscription);
      return Some(subscription);
    }
  }

  // ---------- runs ----------

  /** A subscription starts with its pending row; the provider's reply links it in a later step. */
  datatype Event =
    | Subscribe(id: string, tenantId: string, planCode: string, known: bool, payerEmail: string, createdAt: int)
    | Link(id: string, reply: (string, string), now: int)
    | ProviderChanges(mpId: string, data: Preapproval)
    | Reconcile(mpId: string, reachable: bool, parse: ParseIso, startedNow: int, updatedNow: int)
    | Cancel(tenantId: string, id: string, accepted: bool, now: int)

  /** The local rows, and what Mercado Pago would answer for each preapproval. */
  datatype State = State(subs: seq<Subscription>, provider: map<string, Preapproval>)

  const START := State([], map[])

  function Answer(st: State, mpId: string, reachable: bool): Option<Preapproval> {
    if reachable && mpId in st.provider then Some(st.provider[mpId]) else None
  }

  function Step(st: State, e: Event): State {
    match e
    case Subscribe(id, tenantId, planCode, known, payerEmail, createdAt) =>
      st.(subs := SubscribeAfter(st.subs, id, tenantId, planCode, known, payerEmail, createdAt, None, createdAt))
    case Link(id, reply, now) => st.(subs := LinkAfter(st.subs, id, reply, now))
    case ProviderChanges(mpId, data) => st.(provider := st.provider[mpId := data])
    case Reconcile(mpId, reachable, parse, startedNow, updatedNow) =>
      st.(subs := CommitAfter(st.subs, mpId, Answer(st, mpId, reachable), parse, startedNow, updatedNow))
    case Cancel(tenantId, id, accepted, now) =>
      var i := SubIndex(st.subs, id);
      if i < 0 || st.subs[i].tenantId != tenantId then st
      else
        var mpId := st.subs[i].mpId;
        State(CancelAfter(st.subs, tenantId, id, now),
              if accepted && mpId.Some? && mpId.value in st.provider
              then st.provider[mpId.value := st.provider[mpId.value].(status := "cancelled")] else st.provider)
  }

  function Run(events: seq<Event>): State {
    if events == [] then START else Step(Run(events[..|events| - 1]), events[|events| - 1])
  }

  /** New rows have new ids, a row is linked once, and the provider never gives out a preapproval id twice. */
  ghost predicate Allowed(st: State, e: Event) {
    match e
    case Subscribe(id, _, _, _, _, _) => SubIndex(st.subs, id) == -1
    case Link(id, reply, _) =>
      var i := SubIndex(st.subs, id);
      MpIndex(st.subs, reply.0) == -1 && (i >= 0 ==> st.subs[i].mpId.None?)
    case _ => true
  }

  /** Run without an interruption, the two steps are what `subscribe` does. */
  lemma SubscribeIsTwoSteps(st: State, id: string, tenantId: string, planCode: string, known: bool, payerEmail: string,
                            createdAt: int, reply: (string, string), now: int)
    requires SubIndex(st.subs, id) == -1
    ensures var begun := Step(st, Event.Subscribe(id, tenantId, planCode, known, payerEmail, createdAt));
      Step(begun, Link(id, reply, now)).subs
        == SubscribeAfter(st.subs, id, tenantId, planCode, known, payerEmail, createdAt, Some(reply), now)
  {
    LinkBegun(st.subs, id, tenantId, planCode, known, payerEmail, createdAt, reply, now);
  }

  lemma LinkBegun(subs: seq<Subscription>, id: string, tenantId: string, planCode: string, known: bool,
                  payerEmail: string, createdAt: int, reply: (string, string), now: int)
    requires SubIndex(subs, id) == -1
    ensures
      LinkAfter(SubscribeAfter(subs, id, tenantId, planCode, known, payerEmail, createdAt, None, createdAt), id, reply,
                now)
        == SubscribeAfter(subs, id, tenantId, planCode, known, payerEmail, createdAt, Some(reply), now)
  {
    LinkLast(subs, PendingRow(id, tenantId, planCode, payerEmail, createdAt), reply, now);
  }

  /**
   * A webhook that comes before the link is lost: the link leaves the status the row had, which is the
   * provider's only if the provider still says the same.
   */
  lemma EarlyWebhookIsLost(st: State, early: Event, link: Event)
    requires Sound(st.subs) && early.Reconcile? && link.Link? && early.mpId == link.reply.0
    requires Allowed(st, link) && SubIndex(st.subs, link.id) >= 0
    ensures Step(Step(st, early), link) == Step(st, link)
    ensures InStep(Step(st, link), early.mpId) <==>
      (&& early.mpId in st.provider
       && ParseStatus(st.provider[early.mpId].status) == Some(st.subs[SubIndex(st.subs, link.id)].status))
  {
    var i := SubIndex(st.subs, link.id);
    LinkKeepsSound(st, link);
    MpIndexOfLink(st.subs, i, LinkedRow(st.subs[i], link.reply, link.now), early.mpId);
  }

  ghost predicate IsRun(events: seq<Event>) {
    events == [] ||
    (IsRun(events[..|events| - 1]) && Allowed(Run(events[..|events| - 1]), events[|events| - 1]))
  }

  /** Ids are unique, and a row that is not linked has not started. */
  ghost predicate Sound(subs: seq<Subscription>) {
    && DistinctSubs(subs) && DistinctMpIds(subs)
    && forall i :: 0 <= i < |subs| && subs[i].mpId.None? ==> subs[i].startedAt.None?
  }

  /** Rows keep their id, and the provider's once they have one. */
  ghost predicate KeepsIds(subs: seq<Subscription>, subs': seq<Subscription>) {
    && |subs| <= |subs'|
    && (forall i :: 0 <= i < |subs| ==> subs[i].id == subs'[i].id)
    && forall i :: 0 <= i < |subs| && subs[i].mpId.Some? ==> subs[i].mpId == subs'[i].mpId
  }

  lemma LinkKeepsSound(st: State, e: Event)
    requires Sound(st.subs) && e.Link? && Allowed(st, e)
    ensures Sound(Step(st, e).subs) && KeepsIds(st.subs, Step(st, e).subs)
  {
    forall i | 0 <= i < |st.subs| ensures st.subs[i].mpId != Some(e.reply.0) {
      assert st.subs[i] in st.subs;
    }
  }

  lemma StepKeepsSound(st: State, e: Event)
    requires Sound(st.subs) && Allowed(st, e)
    ensures Sound(Step(st, e).subs) && KeepsIds(st.subs, Step(st, e).subs)
  {
    match e
    case Subscribe(_, _, _, _, _, _) =>
    case Link(_, _, _) => LinkKeepsSound(st, e);
    case ProviderChanges(_, _) =>
    case Reconcile(_, _, _, _, _) => ReconcileKeepsSound(st, e);
    case Cancel(_, _, _, _) =>
  }

  lemma ReconcileKeepsSound(st: State, e: Event)
    requires Sound(st.subs) && e.Reconcile?
    ensures Sound(Step(st, e).subs) && KeepsIds(st.subs, Step(st, e).subs)
  {
  }

  lemma {:induction false} RunIsSound(events: seq<Event>)
    requires IsRun(events)
    ensures Sound(Run(events).subs)
    decreases |events|
  {
    if events != [] {
      var n := |events| - 1;
      RunIsSound(events[..n]);
      StepKeepsSound(Run(events[..n]), events[n]);
    }
  }

  /** The local row says what the provider says. */
  ghost predicate InStep(st: State, mpId: string) {
    var i := MpIndex(st.subs, mpId);
    i >= 0 && mpId in st.provider && ParseStatus(st.provider[mpId].status) == Some(st.subs[i].status)
  }

  lemma MpIndexStays(subs: seq<Subscription>, subs': seq<Subscription>, mpId: string)
    requires DistinctMpIds(subs') && KeepsIds(subs, subs') && MpIndex(subs, mpId) >= 0
    ensures MpIndex(subs', mpId) == MpIndex(subs, mpId)
  {
    var i := MpIndex(subs, mpId);
    assert subs'[i] in subs';
  }

  /** Cancelling a row whose provider refuses is the one local step that can part them. */
  predicate RefusedCancel(st: State, e: Event, mpId: string) {
    e.Cancel? && !e.accepted && SubIndex(st.subs, e.id) >= 0 && st.subs[SubIndex(st.subs, e.id)].mpId == Some(mpId)
  }

  lemma ReconcileStaysInStep(st: State, e: Event, mpId: string)
    requires Sound(st.subs) && e.Reconcile? && InStep(st, mpId)
    ensures InStep(Step(st, e), mpId)
  {
    StepKeepsSound(st, e);
    MpIndexStays(st.subs, Step(st, e).subs, mpId);
    if e.mpId != mpId && MpIndex(st.subs, e.mpId) >= 0 {
      assert MpIndex(st.subs, e.mpId) != MpIndex(st.subs, mpId);
    }
  }

  lemma CancelStaysInStep(st: State, e: Event, mpId: string)
    requires Sound(st.subs) && e.Cancel? && InStep(st, mpId) && !RefusedCancel(st, e, mpId)
    ensures InStep(Step(st, e), mpId)
  {
    StepKeepsSound(st, e);
    MpIndexStays(st.subs, Step(st, e).subs, mpId);
  }

  lemma StaysInStep(st: State, e: Event, mpId: string)
    requires Sound(st.subs) && Allowed(st, e) && InStep(st, mpId)
    requires !(e.ProviderChanges? && e.mpId == mpId) && !RefusedCancel(st, e, mpId)
    ensures InStep(Step(st, e), mpId)
  {
    match e
    case Reconcile(_, _, _, _, _) => ReconcileStaysInStep(st, e, mpId);
    case Cancel(_, _, _, _) => CancelStaysInStep(st, e, mpId);
    case ProviderChanges(_, _) =>
    case Subscribe(_, _, _, _, _, _) =>
      StepKeepsSound(st, e);
      MpIndexStays(st.subs, Step(st, e).subs, mpId);
    case Link(_, _, _) =>
      StepKeepsSound(st, e);
      MpIndexStays(st.subs, Step(st, e).subs, mpId);
  }

  /** A reconcile of a known row that reaches the provider and reads a known status. */
  predicate Informed(st: State, e: Event) {
    && e.Reconcile? && e.reachable && MpIndex(st.subs, e.mpId) >= 0
    && e.mpId in st.provider && ParseStatus(st.provider[e.mpId].status).Some?
  }

  lemma ReconcileBringsInStep(st: State, e: Event)
    requires Sound(st.subs) && Informed(st, e)
    ensures InStep(Step(st, e), e.mpId)
  {
    StepKeepsSound(st, e);
    MpIndexStays(st.subs, Step(st, e).subs, e.mpId);
  }

  /** After event `c` the provider does not change this preapproval, nor refuse to cancel it. */
  ghost predicate QuietAfter(events: seq<Event>, c: nat, mpId: string) {
    |events| <= c + 1 ||
    (var front, e := events[..|events| - 1], events[|events| - 1];
     && QuietAfter(front, c, mpId)
     && !(e.ProviderChanges? && e.mpId == mpId)
     && !RefusedCancel(Run(front), e, mpId))
  }

  lemma QuietKeepsInStep(events: seq<Event>, c: nat, mpId: string)
    requires IsRun(events) && c + 1 < |events| && QuietAfter(events, c, mpId)
    requires InStep(Run(events[..|events| - 1]), mpId)
    ensures InStep(Run(events), mpId)
  {
    RunIsSound(events[..|events| - 1]);
    StaysInStep(Run(events[..|events| - 1]), events[|events| - 1], mpId);
  }

  lemma {:induction false} InStepFromThere(events: seq<Event>, c: nat, mpId: string)
    requires IsRun(events) && c < |events| && QuietAfter(events, c, mpId)
    requires InStep(Run(events[..c + 1]), mpId)
    ensures InStep(Run(events), mpId)
    decreases |events|
  {
    var n := |events| - 1;
    if c == n {
      assert events[..c + 1] == events;
    } else {
      assert events[..n][..c + 1] == events[..c + 1];
      InStepFromThere(events[..n], c, mpId);
      QuietKeepsInStep(events, c, mpId);
    }
  }

  lemma {:induction false} RunPrefix(events: seq<Event>, n: nat)
    requires IsRun(events) && n <= |events|
    ensures IsRun(events[..n])
    decreases |events|
  {
    if n < |events| {
      RunPrefix(events[..|events| - 1], n);
      assert events[..|events| - 1][..n] == events[..n];
    } else {
      assert events[..n] == events;
    }
  }

  /**
   * Convergence. One reconcile after the provider's last change to a known status is enough: whatever
   * webhooks were lost, doubled or reordered before, and whatever follows except a refused
   * cancellation, the local status equals the provider's.
   */
  lemma Converges(events: seq<Event>, c: nat)
    requires IsRun(events) && c < |events| && Informed(Run(events[..c]), events[c])
    requires QuietAfter(events, c, events[c].mpId)
    ensures InStep(Run(events), events[c].mpId)
  {
    InStepAtOnce(events, c);
    InStepFromThere(events, c, events[c].mpId);
  }

  lemma InStepAtOnce(events: seq<Event>, c: nat)
    requires IsRun(events) && c < |events| && Informed(Run(events[..c]), events[c])
    ensures InStep(Run(events[..c + 1]), events[c].mpId)
  {
    RunPrefix(events, c);
    RunIsSound(events[..c]);
    ReconcileBringsInStep(Run(events[..c]), events[c]);
    RunTake(events, c);
  }

  lemma RunTake(events: seq<Event>, c: nat)
    requires c < |events|
    ensures Run(events[..c + 1]) == Step(Run(events[..c]), events[c])
  {
    assert events[..c + 1][..c] == events[..c];
  }

  /** Overlapping reconciles: the status is that of the last write, even if its answer was fetched first. */
  lemma LastWriteDecides(subs: seq<Subscription>, mpId: string, newer: Preapproval, older: Preapproval,
                         parse: ParseIso, t1: int, t2: int, t3: int, t4: int)
    requires Sound(subs) && MpIndex(subs, mpId) >= 0
    requires ParseStatus(newer.status).Some? && ParseStatus(older.status).Some?
    ensures var i := MpIndex(subs, mpId);
      var after := CommitAfter(CommitAfter(subs, mpId, Some(newer), parse, t1, t2), mpId, Some(older), parse, t3, t4);
      && Some(after[i].status) == ParseStatus(older.status)
      && (Some(after[i].status) == ParseStatus(newer.status) <==>
            ParseStatus(newer.status) == ParseStatus(older.status))
  {
    var once := CommitAfter(subs, mpId, Some(newer), parse, t1, t2);
    MpIndexStays(subs, once, mpId);
  }

  /** An answer with an unknown status, or none at all, leaves every row as it was. */
  lemma OnlyKnownStatusesWrite(subs: seq<Subscription>, mpId: string, fetched: Option<Preapproval>, parse: ParseIso,
                               startedNow: int, updatedNow: int)
    requires Sound(subs)
    ensures var after := CommitAfter(subs, mpId, fetched, parse, startedNow, updatedNow);
      && (fetched.None? || ParseStatus(fetched.value.status).None? ==> after == subs)
      && |after| == |subs|
      && forall j :: 0 <= j < |subs| && subs[j].mpId != Some(mpId) ==> after[j] == subs[j]
  {
  }

  // ---------- the start date ----------

  /** A reconcile that reaches the provider and is told that the preapproval is authorized. */
  predicate SeesAuthorized(st: State, e: Event, mpId: string) {
    e.Reconcile? && e.mpId == mpId && e.reachable && MpIndex(st.subs, mpId) >= 0
    && mpId in st.provider && st.provider[mpId].status == "authorized"
  }

  /** The time at which a reconcile of this preapproval first saw AUTHORIZED. */
  function FirstAuthorized(events: seq<Event>, mpId: string): Option<int> {
    if events == [] then None
    else
      var n := |events| - 1;
      var before := FirstAuthorized(events[..n], mpId);
      if before.None? && SeesAuthorized(Run(events[..n]), events[n], mpId) then Some(events[n].startedNow) else before
  }

  function StartOf(subs: seq<Subscription>, mpId: string): Option<int> {
    var i := MpIndex(subs, mpId);
    if i >= 0 then subs[i].startedAt else None
  }

  lemma StartDateOfReconcile(st: State, e: Event, mpId: string)
    requires Sound(st.subs) && e.Reconcile? && MpIndex(st.subs, mpId) >= 0
    ensures StartOf(Step(st, e).subs, mpId) ==
      if StartOf(st.subs, mpId).None? && SeesAuthorized(st, e, mpId) then Some(e.startedNow) else StartOf(st.subs, mpId)
  {
    StepKeepsSound(st, e);
    MpIndexStays(st.subs, Step(st, e).subs, mpId);
    if e.mpId != mpId && MpIndex(st.subs, e.mpId) >= 0 {
      assert MpIndex(st.subs, e.mpId) != MpIndex(st.subs, mpId);
    }
  }

  lemma StartDateOfSubscribe(st: State, e: Event, mpId: string)
    requires Sound(st.subs) && Allowed(st, e) && e.Subscribe?
    ensures StartOf(Step(st, e).subs, mpId) == StartOf(st.subs, mpId)
  {
    if Step(st, e).subs != st.subs {
      MpIndexOfAppend(st.subs, Step(st, e).subs[|st.subs|], mpId);
    }
  }

  lemma MpIndexOfAppend(subs: seq<Subscription>, s: Subscription, mpId: string)
    ensures MpIndex(subs + [s], mpId) ==
      if MpIndex(subs, mpId) >= 0 then MpIndex(subs, mpId) else if s.mpId == Some(mpId) then |subs| else -1
  {
    assert (subs + [s])[..|subs|] == subs;
  }

  lemma MpIndexOfLink(subs: seq<Subscription>, i: nat, s: Subscription, mpId: string)
    requires i < |subs| && DistinctMpIds(subs[i := s]) && subs[i].mpId.None? && s.mpId.Some?
    ensures MpIndex(subs[i := s], mpId) == if s.mpId == Some(mpId) then i else MpIndex(subs, mpId)
  {
    var after := subs[i := s];
    assert after[i] in after;
    var j := MpIndex(subs, mpId);
    if s.mpId != Some(mpId) {
      if j >= 0 {
        assert after[j] == subs[j] && after[j] in after;
      } else {
        forall x | x in after ensures x.mpId != Some(mpId) {
          var k :| 0 <= k < |after| && after[k] == x;
          assert k != i ==> subs[k] in subs;
        }
      }
    }
  }

  lemma StartDateOfLink(st: State, e: Event, mpId: string)
    requires Sound(st.subs) && Allowed(st, e) && e.Link?
    ensures StartOf(Step(st, e).subs, mpId) == StartOf(st.subs, mpId)
  {
    LinkKeepsSound(st, e);
    var i := SubIndex(st.subs, e.id);
    if i >= 0 {
      MpIndexOfLink(st.subs, i, LinkedRow(st.subs[i], e.reply, e.now), mpId);
    }
  }

  lemma StartDateStep(st: State, e: Event, mpId: string)
    requires Sound(st.subs) && Allowed(st, e)
    ensures StartOf(Step(st, e).subs, mpId) ==
      if StartOf(st.subs, mpId).None? && SeesAuthorized(st, e, mpId) then Some(e.startedNow) else StartOf(st.subs, mpId)
  {
    StepKeepsSound(st, e);
    if e.Subscribe? {
      StartDateOfSubscribe(st, e, mpId);
    } else if e.Link? {
      StartDateOfLink(st, e, mpId);
    } else if MpIndex(st.subs, mpId) >= 0 {
      if e.Reconcile? {
        StartDateOfReconcile(st, e, mpId);
      } else {
        MpIndexStays(st.subs, Step(st, e).subs, mpId);
      }
    } else {
      assert forall i :: 0 <= i < |st.subs| ==> st.subs[i] in st.subs;
    }
  }

  /** `started_at` is the time of the first reconcile that saw AUTHORIZED, and is never written again. */
  lemma {:induction false} StartedOnce(events: seq<Event>, mpId: string)
    requires IsRun(events)
    ensures StartOf(Run(events).subs, mpId) == FirstAuthorized(events, mpId)
    decreases |events|
  {
    if events != [] {
      var n := |events| - 1;
      RunIsSound(events[..n]);
      StartedOnce(events[..n], mpId);
      StartDateStep(Run(events[..n]), events[n], mpId);
    }
  }

  // ---------- one active row per tenant ----------

  predicate IsActive(s: Subscription, tenantId: string) {
    s.tenantId == tenantId && s.status == Authorized
  }

  ghost predicate AtMostOneActive(subs: seq<Subscription>, tenantId: string) {
    forall i, j :: 0 <= i < j < |subs| ==> !(IsActive(subs[i], tenantId) && IsActive(subs[j], tenantId))
  }

  /** Is some other row of the tenant already active? */
  predicate OtherActive(subs: seq<Subscription>, i: nat)
    requires i < |subs|
  {
    exists j :: 0 <= j < |subs| && j != i && IsActive(subs[j], subs[i].tenantId)
  }

  /** A commit that authorizes a row of the tenant beside an active one. */
  predicate ActivatesBeside(subs: seq<Subscription>, mpId: string, fetched: Option<Preapproval>, tenantId: string) {
    var i := MpIndex(subs, mpId);
    i >= 0 && subs[i].tenantId == tenantId && fetched.Some?
    && ParseStatus(fetched.value.status) == Some(Authorized) && OtherActive(subs, i)
  }

  /** A reconcile keeps "one active row per tenant" unless it activates a row beside an active one. */
  lemma OneActiveKeptExactly(subs: seq<Subscription>, mpId: string, fetched: Option<Preapproval>, parse: ParseIso,
                             startedNow: int, updatedNow: int, tenantId: string)
    requires AtMostOneActive(subs, tenantId)
    ensures AtMostOneActive(CommitAfter(subs, mpId, fetched, parse, startedNow, updatedNow), tenantId) <==>
      !ActivatesBeside(subs, mpId, fetched, tenantId)
  {
    var i := MpIndex(subs, mpId);
    var after := CommitAfter(subs, mpId, fetched, parse, startedNow, updatedNow);
    if i >= 0 && subs[i].tenantId == tenantId && OtherActive(subs, i) {
      var j :| 0 <= j < |subs| && j != i && IsActive(subs[j], tenantId);
      assert IsActive(after[j], tenantId);
      if fetched.Some? && ParseStatus(fetched.value.status) == Some(Authorized) {
        assert IsActive(after[i], tenantId);
      }
    }
  }

  predicate BreaksPolicy(st: State, e: Event, tenantId: string) {
    e.Reconcile? && ActivatesBeside(st.subs, e.mpId, Answer(st, e.mpId, e.reachable), tenantId)
  }

  lemma StepKeepsPolicyExactly(st: State, e: Event, tenantId: string)
    requires AtMostOneActive(st.subs, tenantId)
    ensures AtMostOneActive(Step(st, e).subs, tenantId) <==> !BreaksPolicy(st, e, tenantId)
  {
    if e.Reconcile? {
      OneActiveKeptExactly(st.subs, e.mpId, Answer(st, e.mpId, e.reachable), e.parse, e.startedNow, e.updatedNow,
                           tenantId);
    }
  }

  /** The tenant has at most one active row after every prefix of the run. */
  ghost predicate AlwaysOneActive(events: seq<Event>, tenantId: string) {
    && AtMostOneActive(Run(events).subs, tenantId)
    && (events == [] || AlwaysOneActive(events[..|events| - 1], tenantId))
  }

  /** No reconcile of the run authorizes a row of the tenant beside an active one. */
  ghost predicate NeverActivatesBeside(events: seq<Event>, tenantId: string) {
    events == [] ||
    (&& NeverActivatesBeside(events[..|events| - 1], tenantId)
     && !BreaksPolicy(Run(events[..|events| - 1]), events[|events| - 1], tenantId))
  }

  /** A run keeps the policy throughout exactly if no reconcile activates a row beside an active one. */
  lemma {:induction false} PolicyHoldsExactly(events: seq<Event>, tenantId: string)
    ensures AlwaysOneActive(events, tenantId) <==> NeverActivatesBeside(events, tenantId)
    decreases |events|
  {
    if events != [] {
      var n := |events| - 1;
      PolicyHoldsExactly(events[..n], tenantId);
      if AtMostOneActive(Run(events[..n]).subs, tenantId) {
        StepKeepsPolicyExactly(Run(events[..n]), events[n], tenantId);
      }
      AlwaysMeansNow(events[..n], tenantId);
    }
  }

  lemma AlwaysMeansNow(events: seq<Event>, tenantId: string)
    ensures AlwaysOneActive(events, tenantId) ==> AtMostOneActive(Run(events).subs, tenantId)
  {
  }

  /** Two rows of one tenant, each known to the provider: reconciling both after it authorized them. */
  lemma TwoActiveRows(subs: seq<Subscription>, i: nat, j: nat, data: Preapproval, parse: ParseIso, now: int)
    requires Sound(subs) && i < |subs| && j < |subs| && i != j && subs[i].tenantId == subs[j].tenantId
    requires subs[i].mpId.Some? && subs[j].mpId.Some? && data.status == "authorized"
    ensures var after := CommitAfter(CommitAfter(subs, subs[i].mpId.value, Some(data), parse, now, now),
                                     subs[j].mpId.value, Some(data), parse, now, now);
      && IsActive(after[i], subs[i].tenantId) && IsActive(after[j], subs[i].tenantId)
      && !AtMostOneActive(after, subs[i].tenantId)
  {
    var once := CommitAfter(subs, subs[i].mpId.value, Some(data), parse, now, now);
    CommitActivates(subs, i, data, parse, now);
    assert KeepsIds(subs, once);
    CommitActivates(once, j, data, parse, now);
  }

  /** An authorized answer activates the row with the preapproval and no other. */
  lemma CommitActivates(subs: seq<Subscription>, i: nat, data: Preapproval, parse: ParseIso, now: int)
    requires Sound(subs) && i < |subs| && subs[i].mpId.Some? && data.status == "authorized"
    ensures var after := CommitAfter(subs, subs[i].mpId.value, Some(data), parse, now, now);
      && after == subs[i := Patched(subs[i], Authorized, data, parse, now, now)]
      && IsActive(after[i], subs[i].tenantId) && Sound(after)
  {
    assert subs[i] in subs;
    assert MpIndex(subs, subs[i].mpId.value) == i;
  }

  function Signup(id: string, tenantId: string): Event {
    Event.Subscribe(id, tenantId, "STARTER", true, "owner@example.com", 0)
  }

  const PAID := Preapproval("authorized", JNull, JNull)

  /** Two signups of one tenant, with the ids they are given. */
  datatype Pair = Pair(tenantId: string, id1: string, id2: string, mp1: string, mp2: string)

  function TwoSignups(p: Pair): seq<Event> {
    SignedUpOnce(SignedUpOnce([], p.id1, p.tenantId, p.mp1), p.id2, p.tenantId, p.mp2)
  }

  function SignedUpOnce(events: seq<Event>, id: string, tenantId: string, mpId: string): seq<Event> {
    events + [Signup(id, tenantId)] + [Link(id, (mpId, "https://pay"), 1)]
  }

  function BothPaid(p: Pair): seq<Event> {
    TwoSignups(p) + [ProviderChanges(p.mp1, PAID)] + [ProviderChanges(p.mp2, PAID)]
  }

  /** The tenant signs up twice before paying, pays both, and both webhooks arrive. */
  function DoubleSignup(p: Pair, parse: ParseIso): seq<Event> {
    BothPaid(p) + [Reconcile(p.mp1, true, parse, 2, 2)] + [Reconcile(p.mp2, true, parse, 3, 3)]
  }

  lemma RunNext(events: seq<Event>, e: Event)
    ensures Run(events + [e]) == Step(Run(events), e)
    ensures IsRun(events + [e]) <==> IsRun(events) && Allowed(Run(events), e)
  {
    assert (events + [e])[..|events|] == events;
  }

  function Begun(id: string, tenantId: string): Subscription {
    PendingRow(id, tenantId, "STARTER", "owner@example.com", 0)
  }

  function SignedUp(id: string, tenantId: string, mpId: string): Subscription {
    LinkedRow(Begun(id, tenantId), (mpId, "https://pay"), 1)
  }

  lemma NoneActive(subs: seq<Subscription>, tenantId: string)
    requires forall i :: 0 <= i < |subs| ==> subs[i].status == Pending
    ensures !HasActive(subs, tenantId)
  {
  }

  /** One signup, both of its steps, over a store without active rows. */
  lemma SignupAppends(events: seq<Event>, id: string, tenantId: string, mpId: string)
    requires IsRun(events) && SubIndex(Run(events).subs, id) == -1 && MpIndex(Run(events).subs, mpId) == -1
    requires !HasActive(Run(events).subs, tenantId)
    ensures var more := SignedUpOnce(events, id, tenantId, mpId);
      && IsRun(more)
      && Run(more) == Run(events).(subs := Run(events).subs + [SignedUp(id, tenantId, mpId)])
  {
    var begun := events + [Signup(id, tenantId)];
    RunNext(events, Signup(id, tenantId));
    RunNext(begun, Link(id, (mpId, "https://pay"), 1));
    SignupStep(Run(events), id, tenantId, mpId);
  }

  lemma SignupStep(st: State, id: string, tenantId: string, mpId: string)
    requires SubIndex(st.subs, id) == -1 && MpIndex(st.subs, mpId) == -1 && !HasActive(st.subs, tenantId)
    ensures var begun := Step(st, Signup(id, tenantId));
      && Allowed(begun, Link(id, (mpId, "https://pay"), 1))
      && Step(begun, Link(id, (mpId, "https://pay"), 1)) == st.(subs := st.subs + [SignedUp(id, tenantId, mpId)])
  {
    var row := Begun(id, tenantId);
    assert Step(st, Signup(id, tenantId)).subs == st.subs + [row];
    LinkLast(st.subs, row, (mpId, "https://pay"), 1);
    MpIndexOfAppend(st.subs, row, mpId);
  }

  /** The state once both signups are stored and paid. */
  function PaidState(p: Pair): State {
    State([SignedUp(p.id1, p.tenantId, p.mp1)] + [SignedUp(p.id2, p.tenantId, p.mp2)],
          map[p.mp1 := PAID][p.mp2 := PAID])
  }

  lemma OneSignup(id: string, tenantId: string, mpId: string)
    ensures var first := SignedUpOnce([], id, tenantId, mpId);
      IsRun(first) && Run(first) == State([SignedUp(id, tenantId, mpId)], map[])
  {
    NoneActive([], tenantId);
    SignupAppends([], id, tenantId, mpId);
    var row := SignedUp(id, tenantId, mpId);
    assert [] + [row] == [row];
  }

  lemma OnlyRow(s: Subscription, id: string, mpId: string)
    requires s.id != id && s.mpId != Some(mpId)
    ensures SubIndex([s], id) == -1 && MpIndex([s], mpId) == -1
  {
  }

  lemma SecondSignup(events: seq<Event>, p: Pair)
    requires p.id1 != p.id2 && p.mp1 != p.mp2 && IsRun(events)
    requires Run(events) == State([SignedUp(p.id1, p.tenantId, p.mp1)], map[])
    ensures var more := SignedUpOnce(events, p.id2, p.tenantId, p.mp2);
      IsRun(more) && Run(more) == PaidState(p).(provider := map[])
  {
    var row := SignedUp(p.id1, p.tenantId, p.mp1);
    OnlyRow(row, p.id2, p.mp2);
    NoneActive([row], p.tenantId);
    SignupAppends(events, p.id2, p.tenantId, p.mp2);
  }

  lemma BothSigned(p: Pair)
    requires p.id1 != p.id2 && p.mp1 != p.mp2
    ensures IsRun(TwoSignups(p)) && Run(TwoSignups(p)) == PaidState(p).(provider := map[])
  {
    OneSignup(p.id1, p.tenantId, p.mp1);
    SecondSignup(SignedUpOnce([], p.id1, p.tenantId, p.mp1), p);
  }

  lemma BothPaidRuns(p: Pair)
    requires p.id1 != p.id2 && p.mp1 != p.mp2
    ensures IsRun(BothPaid(p)) && Run(BothPaid(p)) == PaidState(p)
  {
    BothSigned(p);
    RunNext(TwoSignups(p), ProviderChanges(p.mp1, PAID));
    RunNext(TwoSignups(p) + [ProviderChanges(p.mp1, PAID)], ProviderChanges(p.mp2, PAID));
  }

  lemma BothReconciled(p: Pair, parse: ParseIso)
    requires p.id1 != p.id2 && p.mp1 != p.mp2
    ensures var once := Step(PaidState(p), Reconcile(p.mp1, true, parse, 2, 2));
      !AtMostOneActive(Step(once, Reconcile(p.mp2, true, parse, 3, 3)).subs, p.tenantId)
  {
    var st := PaidState(p);
    assert st.subs[0] in st.subs && st.subs[1] in st.subs;
    assert MpIndex(st.subs, p.mp1) == 0 && MpIndex(st.subs, p.mp2) == 1;
    var once := Step(st, Reconcile(p.mp1, true, parse, 2, 2));
    assert once.subs[0].mpId == Some(p.mp1) && once.subs[1] == st.subs[1];
    assert once.subs[1] in once.subs && MpIndex(once.subs, p.mp2) == 1;
    var twice := Step(once, Reconcile(p.mp2, true, parse, 3, 3));
    assert IsActive(twice.subs[0], p.tenantId) && IsActive(twice.subs[1], p.tenantId);
  }

  /** So the policy fails in a reachable state, whatever ids the two signups are given. */
  lemma DoubleSignupBreaksPolicy(p: Pair, parse: ParseIso)
    requires p.id1 != p.id2 && p.mp1 != p.mp2
    ensures IsRun(DoubleSignup(p, parse))
    ensures !AtMostOneActive(Run(DoubleSignup(p, parse)).subs, p.tenantId)
  {
    var first, second := Reconcile(p.mp1, true, parse, 2, 2), Reconcile(p.mp2, true, parse, 3, 3);
    BothPaidRuns(p);
    RunNext(BothPaid(p), first);
    RunNext(BothPaid(p) + [first], second);
    BothReconciled(p, parse);
  }
}

/** What the rows say, in the words of the signups and of the provider. */
module BillingFacts {
  import opened Common
  import opened CrmRecorder
  import opened Billing

  // ---------- the provider's words ----------

  predicate IsKnownText(text: string) {
    text == "pending" || text == "authorized" || text == "paused" || text == "cancelled"
  }

  /** The local status is the one the provider's text names. */
  ghost predicate Says(s: Status, text: string) {
    && (s == Pending <==> text == "pending") && (s == Authorized <==> text == "authorized")
    && (s == Paused <==> text == "paused") && (s == Cancelled <==> text == "cancelled")
  }

  /** The date of the next payment, or else of the expiration, if there is a text that parses. */
  ghost predicate IsPeriodEnd(end: Option<int>, before: Option<int>, data: Preapproval, parse: ParseIso) {
    var text := if data.nextPayment.JStr? && data.nextPayment.text != "" then Some(data.nextPayment.text)
      else if !Truthy(data.nextPayment) && data.expiration.JStr? then Some(data.expiration.text)
      else None;
    end == if text.Some? && parse(text.value).Some? then parse(text.value) else before
  }

  /** One answer, written: with a known text one row takes its status, otherwise no row changes. */
  lemma AnswerIsWritten(subs: seq<Subscription>, mpId: string, data: Preapproval, parse: ParseIso, startedNow: int,
                        updatedNow: int)
    requires Sound(subs)
    ensures var after := CommitAfter(subs, mpId, Some(data), parse, startedNow, updatedNow);
      if !IsKnownText(data.status) then after == subs
      else
        && |after| == |subs|
        && forall i :: 0 <= i < |subs| ==>
             if subs[i].mpId != Some(mpId) then after[i] == subs[i]
             else
               && Says(after[i].status, data.status) && after[i].updatedAt == updatedNow
               && after[i].startedAt == (if data.status == "authorized" && subs[i].startedAt.None?
                                         then Some(startedNow) else subs[i].startedAt)
               && IsPeriodEnd(after[i].periodEnd, subs[i].periodEnd, data, parse)
               && after[i] == subs[i].(status := after[i].status, startedAt := after[i].startedAt,
                                       periodEnd := after[i].periodEnd, updatedAt := updatedNow)
  {
    var j := MpIndex(subs, mpId);
    forall i | 0 <= i < |subs| && subs[i].mpId == Some(mpId) ensures i == j {
      assert subs[i] in subs;
    }
  }

  /** A reconcile of a linked row that reaches the provider and is told one of the four texts. */
  ghost predicate IsTold(st: State, e: Event) {
    && e.Reconcile? && e.reachable && (exists s :: s in st.subs && s.mpId == Some(e.mpId))
    && e.mpId in st.provider && IsKnownText(st.provider[e.mpId].status)
  }

  /** The row of the preapproval is there, and says what the provider says. */
  ghost predicate Mirrors(st: State, mpId: string) {
    && mpId in st.provider
    && exists i :: 0 <= i < |st.subs| && st.subs[i].mpId == Some(mpId)
                   && Says(st.subs[i].status, st.provider[mpId].status)
  }

  /** Convergence, in the provider's words. */
  lemma ConvergesToText(events: seq<Event>, c: nat)
    requires IsRun(events) && c < |events| && IsTold(Run(events[..c]), events[c])
    requires QuietAfter(events, c, events[c].mpId)
    ensures Mirrors(Run(events), events[c].mpId)
  {
    Converges(events, c);
    var st, i := Run(events), MpIndex(Run(events).subs, events[c].mpId);
    assert Says(st.subs[i].status, st.provider[events[c].mpId].status);
  }

  // ---------- the rows of a run ----------

  predicate HasAuthorized(subs: seq<Subscription>, tenantId: string) {
    exists s :: s in subs && s.tenantId == tenantId && s.status == Authorized
  }

  predicate IsSignup(st: State, e: Event, id: string) {
    e.Subscribe? && e.id == id && e.known && !HasAuthorized(st.subs, e.tenantId)
  }

  /** The signup that made the row. */
  function SignupOf(events: seq<Event>, id: string): Option<Event> {
    if events == [] then None
    else
      var n := |events| - 1;
      var before := SignupOf(events[..n], id);
      if before.None? && IsSignup(Run(events[..n]), events[n], id) then Some(events[n]) else before
  }

  /** The provider's reply to it, once it is linked. */
  function LinkOf(events: seq<Event>, id: string): Option<(string, string)> {
    if events == [] then None
    else
      var n := |events| - 1;
      var before := LinkOf(events[..n], id);
      if before.None? && events[n].Link? && events[n].id == id && SignupOf(events[..n], id).Some?
      then Some(events[n].reply) else before
  }

  /** Is this an answer for the linked row, with a known text? */
  predicate Hears(st: State, e: Event, link: Option<(string, string)>) {
    && e.Reconcile? && e.reachable && link.Some? && e.mpId == link.value.0
    && e.mpId in st.provider && IsKnownText(st.provider[e.mpId].status)
  }

  /** The text of the last write: the signup's, a cancellation's or the provider's. */
  function LastText(events: seq<Event>, id: string): string {
    if events == [] then "pending"
    else
      var n := |events| - 1;
      var st, e, signup := Run(events[..n]), events[n], SignupOf(events[..n], id);
      if signup.Some? && signup.value.Subscribe? && e.Cancel? && e.id == id && e.tenantId == signup.value.tenantId
      then "cancelled"
      else if signup.Some? && Hears(st, e, LinkOf(events[..n], id)) then st.provider[e.mpId].status
      else LastText(events[..n], id)
  }

  /** The row as the events so far make it. */
  ghost predicate Carries(subs: seq<Subscription>, id: string, signup: Option<Event>, link: Option<(string, string)>,
                          text: string) {
    match signup
    case None => link.None? && text == "pending" && forall s :: s in subs ==> s.id != id
    case Some(e) =>
      e.Subscribe? && exists i :: 0 <= i < |subs| && IsRow(subs[i], id, e, link, text)
  }

  ghost predicate IsRow(s: Subscription, id: string, e: Event, link: Option<(string, string)>, text: string)
    requires e.Subscribe?
  {
    && s.id == id && s.tenantId == e.tenantId && s.planCode == e.planCode && s.payerEmail == e.payerEmail
    && s.createdAt == e.createdAt && Says(s.status, text)
    && s.mpId == (if link.Some? then Some(link.value.0) else None)
    && s.initPoint == (if link.Some? then Some(link.value.1) else None)
  }

  function NextSignup(st: State, e: Event, id: string, signup: Option<Event>): Option<Event> {
    if signup.None? && IsSignup(st, e, id) then Some(e) else signup
  }

  function NextLink(e: Event, id: string, signup: Option<Event>, link: Option<(string, string)>):
    Option<(string, string)>
  {
    if link.None? && e.Link? && e.id == id && signup.Some? then Some(e.reply) else link
  }

  function NextText(st: State, e: Event, id: string, signup: Option<Event>, link: Option<(string, string)>,
                    text: string): string
    requires signup.Some? ==> signup.value.Subscribe?
  {
    if signup.Some? && e.Cancel? && e.id == id && e.tenantId == signup.value.tenantId then "cancelled"
    else if signup.Some? && Hears(st, e, link) then st.provider[e.mpId].status
    else text
  }

  lemma SignupCarries(st: State, e: Event, id: string, signup: Option<Event>, link: Option<(string, string)>,
                      text: string)
    requires Sound(st.subs) && Allowed(st, e) && e.Subscribe? && Carries(st.subs, id, signup, link, text)
    ensures Carries(Step(st, e).subs, id, NextSignup(st, e, id, signup), link, text)
  {
    assert HasActive(st.subs, e.tenantId) <==> HasAuthorized(st.subs, e.tenantId);
    var after := Step(st, e).subs;
    if after != st.subs {
      assert after[|st.subs|].id == e.id;
      assert forall s :: s in after ==> s in st.subs || s == after[|st.subs|];
      if signup.Some? {
        var i :| 0 <= i < |st.subs| && IsRow(st.subs[i], id, signup.value, link, text);
        assert after[i] == st.subs[i];
      } else if e.id == id {
        assert IsRow(after[|st.subs|], id, e, link, text);
      }
    }
  }

  lemma RowIsOwn(subs: seq<Subscription>, i: nat, id: string)
    requires DistinctSubs(subs) && i < |subs| && subs[i].id == id
    ensures SubIndex(subs, id) == i
  {
    assert subs[i] in subs;
  }

  lemma LinkCarries(st: State, e: Event, id: string, signup: Option<Event>, link: Option<(string, string)>,
                    text: string)
    requires Sound(st.subs) && Allowed(st, e) && e.Link? && Carries(st.subs, id, signup, link, text)
    ensures Carries(Step(st, e).subs, id, signup, NextLink(e, id, signup, link), text)
  {
    var after := Step(st, e).subs;
    if signup.Some? {
      var i :| 0 <= i < |st.subs| && IsRow(st.subs[i], id, signup.value, link, text);
      RowIsOwn(st.subs, i, id);
      assert IsRow(after[i], id, signup.value, NextLink(e, id, signup, link), text);
    } else {
      StaysUnknown(st.subs, after, id);
    }
  }

  lemma StaysUnknown(subs: seq<Subscription>, after: seq<Subscription>, id: string)
    requires |after| == |subs| && forall i :: 0 <= i < |subs| ==> after[i].id == subs[i].id
    requires forall s :: s in subs ==> s.id != id
    ensures forall s :: s in after ==> s.id != id
  {
    forall s | s in after ensures s.id != id {
      var i :| 0 <= i < |after| && after[i] == s;
      assert subs[i] in subs;
    }
  }

  /** A cancellation writes the tenant's own row and no other. */
  lemma CancelIsWritten(subs: seq<Subscription>, tenantId: string, id: string, now: int)
    requires DistinctSubs(subs)
    ensures var after := CancelAfter(subs, tenantId, id, now);
      && |after| == |subs|
      && forall i :: 0 <= i < |subs| ==>
           after[i] == if subs[i].id == id && subs[i].tenantId == tenantId
                       then subs[i].(status := Cancelled, updatedAt := now) else subs[i]
  {
    forall i | 0 <= i < |subs| && subs[i].id == id ensures SubIndex(subs, id) == i {
      RowIsOwn(subs, i, id);
    }
  }

  lemma CancelledRow(s: Subscription, id: string, e: Event, link: Option<(string, string)>, text: string, now: int)
    requires e.Subscribe? && IsRow(s, id, e, link, text)
    ensures IsRow(s.(status := Cancelled, updatedAt := now), id, e, link, "cancelled")
  {
  }

  lemma CancelStep(st: State, e: Event)
    requires e.Cancel?
    ensures Step(st, e).subs == CancelAfter(st.subs, e.tenantId, e.id, e.now)
  {
  }

  /** One cancellation, seen from one signup. */
  lemma CancelledCarries(subs: seq<Subscription>, tenantId: string, cancelled: string, now: int, id: string,
                         signup: Option<Event>, link: Option<(string, string)>, text: string)
    requires DistinctSubs(subs) && Carries(subs, id, signup, link, text)
    ensures Carries(CancelAfter(subs, tenantId, cancelled, now), id, signup, link,
                    if signup.Some? && cancelled == id && tenantId == signup.value.tenantId then "cancelled" else text)
  {
    var after := CancelAfter(subs, tenantId, cancelled, now);
    CancelIsWritten(subs, tenantId, cancelled, now);
    if signup.Some? {
      var i :| 0 <= i < |subs| && IsRow(subs[i], id, signup.value, link, text);
      CancelledRow(subs[i], id, signup.value, link, text, now);
      assert IsRow(after[i], id, signup.value, link,
          if cancelled == id && tenantId == signup.value.tenantId then "cancelled" else text);
    } else {
      StaysUnknown(subs, after, id);
    }
  }

  lemma CancelCarries(st: State, e: Event, id: string, signup: Option<Event>, link: Option<(string, string)>,
                      text: string)
    requires Sound(st.subs) && e.Cancel? && Carries(st.subs, id, signup, link, text)
    ensures Carries(Step(st, e).subs, id, signup, link, NextText(st, e, id, signup, link, text))
  {
    CancelStep(st, e);
    CancelledCarries(st.subs, e.tenantId, e.id, e.now, id, signup, link, text);
  }

  lemma ReconcileCarries(st: State, e: Event, id: string, signup: Option<Event>, link: Option<(string, string)>,
                         text: string)
    requires Sound(st.subs) && e.Reconcile? && Carries(st.subs, id, signup, link, text)
    ensures Carries(Step(st, e).subs, id, signup, link, NextText(st, e, id, signup, link, text))
  {
    var after := Step(st, e).subs;
    var answer := Answer(st, e.mpId, e.reachable);
    if answer.Some? {
      AnswerIsWritten(st.subs, e.mpId, answer.value, e.parse, e.startedNow, e.updatedNow);
    }
    if signup.Some? {
      var i :| 0 <= i < |st.subs| && IsRow(st.subs[i], id, signup.value, link, text);
      assert IsRow(after[i], id, signup.value, link, NextText(st, e, id, signup, link, text));
    } else {
      StaysUnknown(st.subs, after, id);
    }
  }

  /**
   * In every run there is one row for every accepted signup and no other. It keeps the signup's tenant,
   * plan, payer and time and the reply it was linked with, and its status is that of the last write.
   */
  lemma {:induction false} RowsCarrySignups(events: seq<Event>, id: string)
    requires IsRun(events)
    ensures Carries(Run(events).subs, id, SignupOf(events, id), LinkOf(events, id), LastText(events, id))
    decreases |events|
  {
    if events != [] {
      var n := |events| - 1;
      var st, e := Run(events[..n]), events[n];
      var signup, link, text := SignupOf(events[..n], id), LinkOf(events[..n], id), LastText(events[..n], id);
      RowsCarrySignups(events[..n], id);
      RunIsSound(events[..n]);
      match e
      case Subscribe(_, _, _, _, _, _) => SignupCarries(st, e, id, signup, link, text);
      case Link(_, _, _) => LinkCarries(st, e, id, signup, link, text);
      case Cancel(_, _, _, _) => CancelCarries(st, e, id, signup, link, text);
      case Reconcile(_, _, _, _, _) => ReconcileCarries(st, e, id, signup, link, text);
      case ProviderChanges(_, _) =>
    }
  }
}
