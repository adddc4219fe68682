/** The registry of muted conversations. */
module BotPauses {
  datatype Conversation = Conversation(tenantId: string, buyerId: string)

  /** Until when each conversation is muted. */
  type Pauses = map<Conversation, int>

  predicate IsPausedAt(pauses: Pauses, key: Conversation, now: int) {
    key in pauses && pauses[key] > now
  }

  class BotPauseRepository {
    var byKey: Pauses

    constructor ()
      ensures byKey == map[]
    {
      byKey := map[];
    }

    method IsPaused(key: Conversation, now: int) returns (paused: bool)
      ensures paused == IsPausedAt(byKey, key, now)
    {
      if key !in byKey {
        return false;
      }
      return byKey[key] > now;
    }

    /** The last write wins, whether it extends or shortens the pause. */
    method Pause(key: Conversation, until: int)
      modifies this
      ensures byKey == old(byKey)[key := until]
    {
      byKey := byKey[key := until];
    }

    method Resume(key: Conversation)
      modifies this
      ensures byKey == old(byKey) - {key}
    {
      byKey := byKey - {key};
    }
  }
}

/** One inbound message, call by call, with every call free to fail. */
module InboundHandler {
  import opened Common
  import opened PyText
  import opened Resources
  import opened BotPauses

  const FALLBACK_REPLY :=
    "Tuvimos un inconveniente procesando tu mensaje. Te respondemos en unos minutos."
  const HOUR := 3600000000

  type Meta = map<string, Json>

  datatype Handoff = Handoff(escalate: bool, keyword: string)

  datatype Answer = Answer(reply: string, model: string, factsCited: nat, historyUsed: nat, handoff: Option<Handoff>)

  /** How one external call goes: whether it returns, when, and what it brings back. */
  datatype Outcome = Outcome(ok: bool, now: int, answer: Answer, error: string, vendorId: string)

  /** The attempts a handler makes, in the order it makes them. */
  datatype Effect =
    | RememberBuyer
    | RecordInbound
    | CheckPause
    | Respond
    | Notify
    | WritePause
    | Send(text: string)
    | RememberAgent(reply: string, meta: Meta)
    | RecordOutbound(outText: string, extra: Meta)
    | MaybeDispatch

  datatype Draft = Draft(reply: string, meta: Meta)

  /** Where a handler stands, with what it has composed so far. */
  datatype Stage =
    | AtRememberBuyer
    | AtRecordInbound
    | AtCheckPause
    | AtRespond
    | AtNotify(draft: Draft)
    | AtWritePause(draft: Draft)
    | AtSend(draft: Draft)
    | AtRememberAgent(draft: Draft)
    | AtRecordOutbound(draft: Draft)
    | AtMaybeDispatch
    | Done(silenced: bool)

  /** `hours` is the tenant's auto-pause setting; None without a handoff configuration. */
  datatype Task = Task(key: Conversation, hours: Option<int>, stage: Stage, did: seq<Effect>)

  function NewTask(key: Conversation, hours: Option<int>): Task {
    Task(key, hours, AtRememberBuyer, [])
  }

  function MetaOf(a: Answer): Meta {
    var base := map["model" := JStr(a.model), "facts_cited" := JStr(NatText(a.factsCited)),
                    "history_used" := JStr(NatText(a.historyUsed))];
    if a.handoff.None? || !a.handoff.value.escalate then base
    else if a.handoff.value.keyword != "" then
      base["handoff" := JStr("true")]["handoff_keyword" := JStr(a.handoff.value.keyword)]
    else base["handoff" := JStr("true")]
  }

  function AfterRespond(o: Outcome): Stage {
    if !o.ok then AtSend(Draft(FALLBACK_REPLY, map["error" := JStr(Truncate(o.error, 200))]))
    else
      var draft := Draft(o.answer.reply, MetaOf(o.answer));
      if o.answer.handoff.Some? && o.answer.handoff.value.escalate then AtNotify(draft) else AtSend(draft)
  }

  predicate AutoPauses(hours: Option<int>) {
    hours.Some? && hours.value > 0
  }

  function PauseEnd(now: int, hours: Option<int>): int
    requires hours.Some?
  {
    now + hours.value * HOUR
  }

  function WithPause(d: Draft, until: int): Draft {
    d.(meta := d.meta["bot_paused_until" := JTime(until)])
  }

  /** The metadata of the stored turn: the vendor's message id, then what the draft gathered. */
  function Delivered(d: Draft, o: Outcome): Draft {
    if o.ok then d.(meta := map["vendor_message_id" := JStr(o.vendorId)] + d.meta)
    else
      d.(meta := map["vendor_message_id" := JStr("")] + d.meta["delivery_error" := JStr(Truncate(o.error, 200))])
  }

  datatype World1 = World1(pauses: Pauses, task: Task)

  /** One attempt of one handler. */
  function Advance(pauses: Pauses, t: Task, o: Outcome): World1 {
    match t.stage
    case AtRememberBuyer => World1(pauses, t.(stage := AtRecordInbound, did := t.did + [RememberBuyer]))
    case AtRecordInbound => World1(pauses, t.(stage := AtCheckPause, did := t.did + [RecordInbound]))
    case AtCheckPause =>
      World1(pauses, t.(stage := if o.ok && IsPausedAt(pauses, t.key, o.now) then Done(true) else AtRespond,
                        did := t.did + [CheckPause]))
    case AtRespond => World1(pauses, t.(stage := AfterRespond(o), did := t.did + [Respond]))
    case AtNotify(d) =>
      World1(pauses, t.(stage := if AutoPauses(t.hours) then AtWritePause(d) else AtSend(d), did := t.did + [Notify]))
    case AtWritePause(d) =>
      if o.ok && t.hours.Some? then
        var until := PauseEnd(o.now, t.hours);
        World1(pauses[t.key := until], t.(stage := AtSend(WithPause(d, until)), did := t.did + [WritePause]))
      else World1(pauses, t.(stage := AtSend(d), did := t.did + [WritePause]))
    case AtSend(d) =>
      World1(pauses, t.(stage := AtRememberAgent(Delivered(d, o)), did := t.did + [Send(d.reply)]))
    case AtRememberAgent(d) =>
      World1(pauses, t.(stage := AtRecordOutbound(d), did := t.did + [RememberAgent(d.reply, d.meta)]))
    case AtRecordOutbound(d) =>
      World1(pauses, t.(stage := AtMaybeDispatch, did := t.did + [RecordOutbound(d.reply, d.meta)]))
    case AtMaybeDispatch => World1(pauses, t.(stage := Done(false), did := t.did + [MaybeDispatch]))
    case Done(_) => World1(pauses, t)
  }

  function StagesLeft(s: Stage): nat {
    match s
    case AtRememberBuyer => 10
    case AtRecordInbound => 9
    case AtCheckPause => 8
    case AtRespond => 7
    case AtNotify(_) => 6
    case AtWritePause(_) => 5
    case AtSend(_) => 4
    case AtRememberAgent(_) => 3
    case AtRecordOutbound(_) => 2
    case AtMaybeDispatch => 1
    case Done(_) => 0
  }

  /** How each kind of call goes for one message. */
  datatype Calls = Calls(rememberBuyer: Outcome, recordInbound: Outcome, check: Outcome, respond: Outcome,
                         notify: Outcome, writePause: Outcome, send: Outcome, rememberAgent: Outcome,
                         recordOutbound: Outcome, dispatch: Outcome)

  function CallAt(calls: Calls, s: Stage): Outcome {
    match s
    case AtRememberBuyer => calls.rememberBuyer
    case AtRecordInbound => calls.recordInbound
    case AtCheckPause => calls.check
    case AtRespond => calls.respond
    case AtNotify(_) => calls.notify
    case AtWritePause(_) => calls.writePause
    case AtSend(_) => calls.send
    case AtRememberAgent(_) => calls.rememberAgent
    case AtRecordOutbound(_) => calls.recordOutbound
    case _ => calls.dispatch
  }

  /** A handler that nothing interrupts. */
  function Finish(pauses: Pauses, t: Task, calls: Calls): World1
    decreases StagesLeft(t.stage)
  {
    if t.stage.Done? then World1(pauses, t)
    else
      var next := Advance(pauses, t, CallAt(calls, t.stage));
      Finish(next.pauses, next.task, calls)
  }

  class MessageHandler {
    const pauses: BotPauseRepository
    var did: seq<Effect>

    constructor (pauses: BotPauseRepository)
      ensures this.pauses == pauses && did == []
    {
      this.pauses := pauses;
      did := [];
    }

    /** Respond, and hand over if the detector says so. */
    method Compose(key: Conversation, hours: Option<int>, calls: Calls) returns (draft: Draft)
      modifies this`did, pauses
      ensures Finish(old(pauses.byKey), Task(key, hours, AtRespond, old(did)), calls)
        == Finish(pauses.byKey, Task(key, hours, AtSend(draft), did), calls)
    {
      ghost var p, t := pauses.byKey, Task(key, hours, AtRespond, did);
      did := did + [Respond];
      if !calls.respond.ok {
        return Draft(FALLBACK_REPLY, map["error" := JStr(Truncate(calls.respond.error, 200))]);
      }
      var turn := calls.respond.answer;
      var meta: Meta := map["model" := JStr(turn.model), "facts_cited" := JStr(NatText(turn.factsCited)),
                            "history_used" := JStr(NatText(turn.historyUsed))];
      if turn.handoff.Some? && turn.handoff.value.escalate {
        meta := meta["handoff" := JStr("true")];
        if turn.handoff.value.keyword != "" {
          meta := meta["handoff_keyword" := JStr(turn.handoff.value.keyword)];
        }
        ghost var w1 := Advance(p, t, calls.respond);
        assert w1.task == Task(key, hours, AtNotify(Draft(turn.reply, meta)), did);
        did := did + [Notify];
        ghost var w2 := Advance(p, w1.task, calls.notify);
        assert Finish(p, t, calls) == Finish(p, w1.task, calls) == Finish(p, w2.task, calls);
        if hours.Some? && hours.value > 0 {
          did := did + [WritePause];
          assert Finish(p, w2.task, calls)
            == Finish(Advance(p, w2.task, calls.writePause).pauses, Advance(p, w2.task, calls.writePause).task, calls);
          if calls.writePause.ok {
            var until := calls.writePause.now + hours.value * HOUR;
            pauses.Pause(key, until);
            meta := meta["bot_paused_until" := JTime(until)];
          }
        }
      }
      return Draft(turn.reply, meta);
    }

    /** Send, then persist whatever happened. */
    method Deliver(ghost key: Conversation, ghost hours: Option<int>, draft: Draft, calls: Calls)
      modifies this`did
      ensures Finish(pauses.byKey, Task(key, hours, AtSend(draft), old(did)), calls)
        == World1(pauses.byKey, Task(key, hours, Done(false), did))
    {
      ghost var p, t0 := pauses.byKey, Task(key, hours, AtSend(draft), did);
      var meta := draft.meta;
      var vendorId := "";
      did := did + [Send(draft.reply)];
      if calls.send.ok {
        vendorId := calls.send.vendorId;
      } else {
        meta := meta["delivery_error" := JStr(Truncate(calls.send.error, 200))];
      }
      meta := map["vendor_message_id" := JStr(vendorId)] + meta;
      ghost var t1 := Advance(p, t0, calls.send).task;
      assert t1 == Task(key, hours, AtRememberAgent(Draft(draft.reply, meta)), did);
      did := did + [RememberAgent(draft.reply, meta)];
      ghost var t2 := Advance(p, t1, calls.rememberAgent).task;
      assert Finish(p, t0, calls) == Finish(p, t1, calls) == Finish(p, t2, calls);
      did := did + [RecordOutbound(draft.reply, meta)];
      ghost var t3 := Advance(p, t2, calls.recordOutbound).task;
      did := did + [MaybeDispatch];
      ghost var t4 := Advance(p, t3, calls.dispatch).task;
      assert Finish(p, t2, calls) == Finish(p, t3, calls) == Finish(p, t4, calls);
    }

    method ProcessInboundMessage(key: Conversation, hours: Option<int>, calls: Calls)
      modifies this`did, pauses
      ensures World1(pauses.byKey, Task(key, hours, Done(IsSilenced(old(pauses.byKey), key, calls)), did))
        == Finish(old(pauses.byKey), NewTask(key, hours).(did := old(did)), calls)
    {
      ghost var p, t0 := pauses.byKey, NewTask(key, hours).(did := did);
      did := did + [RememberBuyer];
      ghost var t1 := Advance(p, t0, calls.rememberBuyer).task;
      did := did + [RecordInbound];
      ghost var t2 := Advance(p, t1, calls.recordInbound).task;
      assert Finish(p, t0, calls) == Finish(p, t1, calls) == Finish(p, t2, calls);
      did := did + [CheckPause];
      ghost var t3 := Advance(p, t2, calls.check).task;
      assert Finish(p, t2, calls) == Finish(p, t3, calls);
      var paused := pauses.IsPaused(key, calls.check.now);
      if calls.check.ok && paused {
        return;
      }
      var draft := Compose(key, hours, calls);
      Deliver(key, hours, draft, calls);
    }
  }

  predicate IsSilenced(pauses: Pauses, key: Conversation, calls: Calls) {
    calls.check.ok && IsPausedAt(pauses, key, calls.check.now)
  }
}

/** Any number of handlers interleaved at every call, with people pausing and resuming in between. */
module PauseProtocol {
  import opened Common
  import opened BotPauses
  import opened InboundHandler

  datatype Act =
    | Arrive(id: nat, key: Conversation, hours: Option<int>)
    | Call(id: nat, o: Outcome)
    | HumanPause(key: Conversation, until: int)
    | HumanResume(key: Conversation)

  datatype World = World(pauses: Pauses, tasks: map<nat, Task>)

  const START := World(map[], map[])

  function Step(w: World, act: Act): World {
    match act
    case Arrive(id, key, hours) => if id in w.tasks then w else w.(tasks := w.tasks[id := NewTask(key, hours)])
    case Call(id, o) =>
      if id !in w.tasks then w
      else
        var next := Advance(w.pauses, w.tasks[id], o);
        World(next.pauses, w.tasks[id := next.task])
    case HumanPause(key, until) => w.(pauses := w.pauses[key := until])
    case HumanResume(key) => w.(pauses := w.pauses - {key})
  }

  function Run(acts: seq<Act>): World {
    if acts == [] then START else Step(Run(acts[..|acts| - 1]), acts[|acts| - 1])
  }

  // ---------- each handler's own order of attempts ----------

  const OPENING := [RememberBuyer, RecordInbound, CheckPause]

  predicate Composed(did: seq<Effect>) {
    || did == OPENING + [Respond]
    || did == OPENING + [Respond, Notify]
    || did == OPENING + [Respond, Notify, WritePause]
  }

  /** What follows composing: one send attempt, then one attempt to persist that same reply. */
  predicate Tail(tail: seq<Effect>, stage: Stage) {
    match stage
    case AtSend(_) => tail == []
    case AtRememberAgent(d) => tail == [Send(d.reply)]
    case AtRecordOutbound(d) => tail == [Send(d.reply), RememberAgent(d.reply, d.meta)]
    case AtMaybeDispatch =>
      |tail| == 3 && tail[0].Send? && tail[1].RememberAgent? && tail[1].reply == tail[0].text
      && tail[2] == RecordOutbound(tail[0].text, tail[1].meta)
    case Done(silenced) =>
      !silenced && |tail| == 4 && tail[0].Send? && tail[1].RememberAgent? && tail[1].reply == tail[0].text
      && tail[2] == RecordOutbound(tail[0].text, tail[1].meta) && tail[3] == MaybeDispatch
    case _ => false
  }

  /** The first `n` attempts composed the reply, the rest deliver it. */
  predicate Cut(t: Task, n: nat) {
    4 <= n <= |t.did| && Composed(t.did[..n]) && Tail(t.did[n..], t.stage)
  }

  ghost predicate Delivering(t: Task) {
    exists n: nat :: Cut(t, n)
  }

  ghost predicate InOrder(t: Task) {
    match t.stage
    case AtRememberBuyer => t.did == []
    case AtRecordInbound => t.did == [RememberBuyer]
    case AtCheckPause => t.did == [RememberBuyer, RecordInbound]
    case AtRespond => t.did == OPENING
    case AtNotify(_) => t.did == OPENING + [Respond]
    case AtWritePause(_) => t.did == OPENING + [Respond, Notify] && AutoPauses(t.hours)
    case Done(silenced) => if silenced then t.did == OPENING else Delivering(t)
    case _ => Delivering(t)
  }

  lemma ReadyToSend(t: Task)
    requires t.stage.AtSend? && Composed(t.did)
    ensures Delivering(t)
  {
    var n := |t.did|;
    assert t.did[..n] == t.did && t.did[n..] == [];
    assert Cut(t, n);
  }

  lemma ComposingKeepsOrder(pauses: Pauses, t: Task, o: Outcome)
    requires InOrder(t) && (t.stage.AtRespond? || t.stage.AtNotify? || t.stage.AtWritePause?)
    ensures InOrder(Advance(pauses, t, o).task)
  {
    var t' := Advance(pauses, t, o).task;
    if t'.stage.AtSend? {
      ReadyToSend(t');
    }
  }

  lemma TailGrows(pauses: Pauses, t: Task, o: Outcome, tail: seq<Effect>) returns (e: Effect)
    requires Tail(tail, t.stage) && !t.stage.Done?
    ensures var t' := Advance(pauses, t, o).task; t'.did == t.did + [e] && Tail(tail + [e], t'.stage)
  {
    e := Advance(pauses, t, o).task.did[|t.did|];
  }

  lemma DeliveringKeepsCut(pauses: Pauses, t: Task, o: Outcome, n: nat)
    requires Cut(t, n) && !t.stage.Done?
    ensures Cut(Advance(pauses, t, o).task, n)
  {
    var e := TailGrows(pauses, t, o, t.did[n..]);
    assert (t.did + [e])[..n] == t.did[..n];
    assert (t.did + [e])[n..] == t.did[n..] + [e];
  }

  lemma AdvanceKeepsOrder(pauses: Pauses, t: Task, o: Outcome)
    requires InOrder(t)
    ensures InOrder(Advance(pauses, t, o).task)
  {
    match t.stage
    case AtRespond => ComposingKeepsOrder(pauses, t, o);
    case AtNotify(_) => ComposingKeepsOrder(pauses, t, o);
    case AtWritePause(_) => ComposingKeepsOrder(pauses, t, o);
    case Done(_) =>
    case AtRememberBuyer =>
    case AtRecordInbound =>
    case AtCheckPause =>
    case _ =>
      var n: nat :| Cut(t, n);
      DeliveringKeepsCut(pauses, t, o, n);
  }

  lemma {:induction false} HandlersStayInOrder(acts: seq<Act>)
    ensures forall id :: id in Run(acts).tasks ==> InOrder(Run(acts).tasks[id])
    decreases |acts|
  {
    if acts != [] {
      var w, act := Run(acts[..|acts| - 1]), acts[|acts| - 1];
      HandlersStayInOrder(acts[..|acts| - 1]);
      if act.Call? && act.id in w.tasks {
        AdvanceKeepsOrder(w.pauses, w.tasks[act.id], act.o);
      }
    }
  }

  function Sends(did: seq<Effect>): nat {
    if did == [] then 0 else Sends(did[..|did| - 1]) + (if did[|did| - 1].Send? then 1 else 0)
  }

  function Persists(did: seq<Effect>): nat {
    if did == [] then 0 else Persists(did[..|did| - 1]) + (if did[|did| - 1].RememberAgent? then 1 else 0)
  }

  lemma {:induction false} CountsAppend(a: seq<Effect>, b: seq<Effect>)
    ensures Sends(a + b) == Sends(a) + Sends(b) && Persists(a + b) == Persists(a) + Persists(b)
    decreases |b|
  {
    if b == [] {
      assert a + b == a;
    } else {
      CountsAppend(a, b[..|b| - 1]);
      assert (a + b)[..|a + b| - 1] == a + b[..|b| - 1];
    }
  }

  lemma {:induction false} NoSendCounts(did: seq<Effect>)
    requires forall e :: e in did ==> !e.Send? && !e.RememberAgent?
    ensures Sends(did) == 0 && Persists(did) == 0
    decreases |did|
  {
    if did != [] {
      assert did[|did| - 1] in did;
      NoSendCounts(did[..|did| - 1]);
    }
  }

  lemma TailCounts(tail: seq<Effect>)
    requires Tail(tail, Done(false))
    ensures Sends(tail) == 1 && Persists(tail) == 1
  {
    var a, b := tail[..2], tail[2..];
    assert tail == a + b;
    CountsAppend(a, b);
    NoSendCounts(b);
    assert a[..1] == [a[0]] && a[..1][..0] == [];
    assert Sends([a[0]]) == 1 && Persists([a[0]]) == 0;
  }

  /** Exactly one send attempt, and right after it exactly one attempt to persist the same reply. */
  ghost predicate SentAndPersistedOnce(did: seq<Effect>) {
    && Sends(did) == 1 && Persists(did) == 1
    && exists m, n :: 0 <= m < n < |did| && n == m + 1 && did[m].Send? && did[n].RememberAgent?
         && did[n].reply == did[m].text
  }

  lemma CutMeansOnce(t: Task, n: nat)
    requires Cut(t, n) && t.stage == Done(false)
    ensures SentAndPersistedOnce(t.did)
  {
    assert t.did == t.did[..n] + t.did[n..];
    CountsAppend(t.did[..n], t.did[n..]);
    NoSendCounts(t.did[..n]);
    TailCounts(t.did[n..]);
    assert t.did[n] == t.did[n..][0] && t.did[n + 1] == t.did[n..][1];
  }

  /**
   * Under every pattern of failures and every interleaving, a finished handler that was not silenced
   * made exactly one send attempt, directly followed by exactly one attempt to persist the same
   * reply; a silenced one made neither.
   */
  lemma OneSendThenOnePersist(acts: seq<Act>, id: nat)
    requires id in Run(acts).tasks && Run(acts).tasks[id].stage.Done?
    ensures var t := Run(acts).tasks[id];
      if t.stage.silenced then Sends(t.did) == 0 && Persists(t.did) == 0 else SentAndPersistedOnce(t.did)
  {
    HandlersStayInOrder(acts);
    var t := Run(acts).tasks[id];
    if t.stage.silenced {
      NoSendCounts(t.did);
    } else {
      var n: nat :| Cut(t, n);
      CutMeansOnce(t, n);
    }
  }

  // ---------- the pause holds ----------

  /** Does this act write the conversation's pause? */
  predicate Touches(w: World, act: Act, key: Conversation) {
    match act
    case HumanPause(k, _) => k == key
    case HumanResume(k) => k == key
    case Call(id, o) => id in w.tasks && w.tasks[id].key == key && w.tasks[id].stage.AtWritePause? && o.ok
    case Arrive(_, _, _) => false
  }

  lemma UntouchedPauseStays(w: World, act: Act, key: Conversation)
    requires !Touches(w, act, key)
    ensures key in Step(w, act).pauses <==> key in w.pauses
    ensures key in w.pauses ==> Step(w, act).pauses[key] == w.pauses[key]
  {
  }

  /** No act strictly between `i` and `j` writes the conversation's pause. */
  ghost predicate Untouched(acts: seq<Act>, i: nat, j: nat, key: Conversation)
    requires j <= |acts|
    decreases j
  {
    j <= i + 1 || (Untouched(acts, i, j - 1, key) && !Touches(Run(acts[..j - 1]), acts[j - 1], key))
  }

  lemma {:induction false} PauseHolds(acts: seq<Act>, i: nat, j: nat, key: Conversation, until: int)
    requires i < j <= |acts|
    requires key in Run(acts[..i + 1]).pauses && Run(acts[..i + 1]).pauses[key] == until
    requires Untouched(acts, i, j, key)
    ensures key in Run(acts[..j]).pauses && Run(acts[..j]).pauses[key] == until
    decreases j
  {
    if i + 1 < j {
      PauseHolds(acts, i, j - 1, key, until);
      assert acts[..j][..j - 1] == acts[..j - 1];
      UntouchedPauseStays(Run(acts[..j - 1]), acts[j - 1], key);
    }
  }

  lemma {:induction false} SilencedStays(acts: seq<Act>, j: nat, id: nat)
    requires j <= |acts| && id in Run(acts[..j]).tasks && Run(acts[..j]).tasks[id].stage == Done(true)
    ensures id in Run(acts).tasks && Run(acts).tasks[id] == Run(acts[..j]).tasks[id]
    decreases |acts|
  {
    if j < |acts| {
      var n := |acts| - 1;
      assert acts[..n][..j] == acts[..j];
      SilencedStays(acts[..n], j, id);
    } else {
      assert acts[..j] == acts;
    }
  }

  /** Act `i` is an escalation's pause write that succeeds. */
  predicate WritesPause(acts: seq<Act>, i: nat)
    requires i < |acts|
  {
    && acts[i].Call? && acts[i].id in Run(acts[..i]).tasks
    && Run(acts[..i]).tasks[acts[i].id].stage.AtWritePause?
    && acts[i].o.ok && Run(acts[..i]).tasks[acts[i].id].hours.Some?
  }

  /** Act `j` is a pause check that succeeds. */
  predicate ChecksPause(acts: seq<Act>, j: nat)
    requires j < |acts|
  {
    && acts[j].Call? && acts[j].id in Run(acts[..j]).tasks
    && Run(acts[..j]).tasks[acts[j].id].stage == AtCheckPause && acts[j].o.ok
  }

  lemma PauseIsWritten(acts: seq<Act>, i: nat)
    requires i < |acts| && WritesPause(acts, i)
    ensures var writer := Run(acts[..i]).tasks[acts[i].id];
      var w := Run(acts[..i + 1]);
      writer.key in w.pauses && w.pauses[writer.key] == PauseEnd(acts[i].o.now, writer.hours)
  {
    assert acts[..i + 1][..i] == acts[..i];
  }

  lemma CheckSilences(acts: seq<Act>, j: nat)
    requires j < |acts| && ChecksPause(acts, j)
    requires IsPausedAt(Run(acts[..j]).pauses, Run(acts[..j]).tasks[acts[j].id].key, acts[j].o.now)
    ensures acts[j].id in Run(acts[..j + 1]).tasks && Run(acts[..j + 1]).tasks[acts[j].id].stage == Done(true)
  {
    assert acts[..j + 1][..j] == acts[..j];
  }

  lemma SilencedForGood(acts: seq<Act>, j: nat)
    requires j < |acts| && ChecksPause(acts, j)
    requires IsPausedAt(Run(acts[..j]).pauses, Run(acts[..j]).tasks[acts[j].id].key, acts[j].o.now)
    ensures acts[j].id in Run(acts).tasks && Run(acts).tasks[acts[j].id].stage == Done(true)
    ensures Sends(Run(acts).tasks[acts[j].id].did) == 0
  {
    CheckSilences(acts, j);
    SilencedStays(acts, j + 1, acts[j].id);
    OneSendThenOnePersist(acts, acts[j].id);
  }

  /**
   * After an escalation whose pause write succeeds at act `i`, no message whose pause check succeeds
   * before the pause ends gets a bot send, unless a resume or another pause came in between.
   */
  lemma EscalationSilencesBot(acts: seq<Act>, i: nat, j: nat, key: Conversation)
    requires i < j < |acts| && WritesPause(acts, i) && ChecksPause(acts, j)
    requires Run(acts[..i]).tasks[acts[i].id].key == key && Run(acts[..j]).tasks[acts[j].id].key == key
    requires acts[j].o.now < PauseEnd(acts[i].o.now, Run(acts[..i]).tasks[acts[i].id].hours)
    requires Untouched(acts, i, j, key)
    ensures var tasks := Run(acts).tasks;
      && acts[j].id in tasks && tasks[acts[j].id].stage == Done(true)
      && Sends(tasks[acts[j].id].did) == 0
  {
    PauseIsWritten(acts, i);
    PauseHolds(acts, i, j, key, PauseEnd(acts[i].o.now, Run(acts[..i]).tasks[acts[i].id].hours));
    SilencedForGood(acts, j);
  }

  /** A handler that writes a pause was configured with a positive number of hours. */
  lemma PauseWritersAutoPause(acts: seq<Act>, id: nat)
    requires id in Run(acts).tasks && Run(acts).tasks[id].stage.AtWritePause?
    ensures AutoPauses(Run(acts).tasks[id].hours)
  {
    HandlersStayInOrder(acts);
  }

  // ---------- what one uninterrupted message leaves ----------

  lemma {:induction false} FinishKeepsOrder(pauses: Pauses, t: Task, calls: Calls)
    requires InOrder(t)
    ensures InOrder(Finish(pauses, t, calls).task) && Finish(pauses, t, calls).task.stage.Done?
    decreases StagesLeft(t.stage)
  {
    if !t.stage.Done? {
      AdvanceKeepsOrder(pauses, t, CallAt(calls, t.stage));
      var next := Advance(pauses, t, CallAt(calls, t.stage));
      FinishKeepsOrder(next.pauses, next.task, calls);
    }
  }

  lemma {:induction false} SendIsCounted(did: seq<Effect>, i: nat)
    requires i < |did| && did[i].Send?
    ensures Sends(did) >= 1
    decreases |did|
  {
    if i < |did| - 1 {
      SendIsCounted(did[..|did| - 1], i);
    }
  }

  lemma {:induction false} OnlySend(did: seq<Effect>, i: nat, j: nat)
    requires i < j < |did| && did[i].Send? && did[j].Send?
    ensures Sends(did) >= 2
    decreases |did|
  {
    if j == |did| - 1 {
      SendIsCounted(did[..j], i);
    } else {
      OnlySend(did[..|did| - 1], i, j);
    }
  }

  /** A handler from its start, in three calls, to composing the reply. */
  lemma ReachesRespond(pauses: Pauses, key: Conversation, hours: Option<int>, calls: Calls)
    requires !IsSilenced(pauses, key, calls)
    ensures Finish(pauses, NewTask(key, hours), calls) == Finish(pauses, Task(key, hours, AtRespond, OPENING), calls)
  {
    var t1 := Advance(pauses, NewTask(key, hours), calls.rememberBuyer).task;
    var t2 := Advance(pauses, t1, calls.recordInbound).task;
    var t3 := Advance(pauses, t2, calls.check).task;
    assert t3 == Task(key, hours, AtRespond, OPENING);
    assert Finish(pauses, NewTask(key, hours), calls) == Finish(pauses, t1, calls) == Finish(pauses, t2, calls)
        == Finish(pauses, t3, calls);
  }

  lemma RepliesWith(pauses: Pauses, key: Conversation, hours: Option<int>, calls: Calls)
    requires !IsSilenced(pauses, key, calls)
    ensures Send(ReplyOf(calls)) in Finish(pauses, NewTask(key, hours), calls).task.did
  {
    ReachesRespond(pauses, key, hours, calls);
    var next := Advance(pauses, Task(key, hours, AtRespond, OPENING), calls.respond);
    HeadsForSend(next.pauses, next.task, calls);
  }

  /** The agent's answer, or the fallback if the agent failed. */
  function ReplyOf(calls: Calls): string {
    if calls.respond.ok then calls.respond.answer.reply else FALLBACK_REPLY
  }

  lemma {:induction false} DoneSilencedOrNot(pauses: Pauses, t: Task, calls: Calls)
    requires t.stage.AtRespond? || t.stage.AtNotify? || t.stage.AtWritePause? || StagesLeft(t.stage) <= 4
    requires t.stage.Done? ==> !t.stage.silenced
    ensures Finish(pauses, t, calls).task.stage == Done(false)
    decreases StagesLeft(t.stage)
  {
    if !t.stage.Done? {
      var next := Advance(pauses, t, CallAt(calls, t.stage));
      DoneSilencedOrNot(next.pauses, next.task, calls);
    }
  }

  /** An unsilenced message sends exactly once, and what it sends is the answer or the fallback. */
  lemma ReplyIsAnswerOrFallback(pauses: Pauses, key: Conversation, hours: Option<int>, calls: Calls)
    requires !IsSilenced(pauses, key, calls)
    ensures var did := Finish(pauses, NewTask(key, hours), calls).task.did;
      Sends(did) == 1 && forall e :: e in did && e.Send? ==> e == Send(ReplyOf(calls))
  {
    var end := Finish(pauses, NewTask(key, hours), calls).task;
    FinishKeepsOrder(pauses, NewTask(key, hours), calls);
    ReachesRespond(pauses, key, hours, calls);
    DoneSilencedOrNot(pauses, Task(key, hours, AtRespond, OPENING), calls);
    var n: nat :| Cut(end, n);
    CutMeansOnce(end, n);
    RepliesWith(pauses, key, hours, calls);
    OnlyOneText(end.did, Send(ReplyOf(calls)));
  }

  lemma OnlyOneText(did: seq<Effect>, sent: Effect)
    requires Sends(did) == 1 && sent in did && sent.Send?
    ensures forall e :: e in did && e.Send? ==> e == sent
  {
    var i :| 0 <= i < |did| && did[i] == sent;
    forall e | e in did && e.Send? ensures e == sent {
      var j :| 0 <= j < |did| && did[j] == e;
      if j < i {
        OnlySend(did, j, i);
      } else if i < j {
        OnlySend(did, i, j);
      }
    }
  }

  function DraftOf(s: Stage): string
    requires s.AtNotify? || s.AtWritePause? || s.AtSend?
  {
    s.draft.reply
  }

  lemma {:induction false} HeadsForSend(pauses: Pauses, t: Task, calls: Calls)
    requires t.stage.AtNotify? || t.stage.AtWritePause? || t.stage.AtSend?
    ensures Send(DraftOf(t.stage)) in Finish(pauses, t, calls).task.did
    decreases StagesLeft(t.stage)
  {
    var next := Advance(pauses, t, CallAt(calls, t.stage));
    if t.stage.AtSend? {
      assert next.task.did[|t.did|] == Send(DraftOf(t.stage));
      DidOnlyGrows(next.pauses, next.task, calls);
    } else {
      HeadsForSend(next.pauses, next.task, calls);
    }
  }

  lemma {:induction false} DidOnlyGrows(pauses: Pauses, t: Task, calls: Calls)
    ensures forall e :: e in t.did ==> e in Finish(pauses, t, calls).task.did
    decreases StagesLeft(t.stage)
  {
    if !t.stage.Done? {
      var next := Advance(pauses, t, CallAt(calls, t.stage));
      DidOnlyGrows(next.pauses, next.task, calls);
    }
  }

  /** The pause a message leaves: exactly an escalation with positive hours and a working registry writes one. */
  lemma PauseAfterMessage(pauses: Pauses, key: Conversation, hours: Option<int>, calls: Calls)
    ensures var after := Finish(pauses, NewTask(key, hours), calls).pauses;
      after == if !IsSilenced(pauses, key, calls) && calls.respond.ok && calls.respond.answer.handoff.Some?
                  && calls.respond.answer.handoff.value.escalate && AutoPauses(hours) && calls.writePause.ok
               then pauses[key := calls.writePause.now + hours.value * HOUR] else pauses
  {
    var t1 := Advance(pauses, NewTask(key, hours), calls.rememberBuyer).task;
    var t2 := Advance(pauses, t1, calls.recordInbound).task;
    var t3 := Advance(pauses, t2, calls.check).task;
    assert Finish(pauses, NewTask(key, hours), calls) == Finish(pauses, t1, calls) == Finish(pauses, t2, calls)
        == Finish(pauses, t3, calls);
    if t3.stage.AtRespond? {
      var t4 := Advance(pauses, t3, calls.respond).task;
      assert Finish(pauses, t3, calls) == Finish(pauses, t4, calls);
      if t4.stage.AtNotify? {
        var t5 := Advance(pauses, t4, calls.notify).task;
        assert Finish(pauses, t4, calls) == Finish(pauses, t5, calls);
        if t5.stage.AtWritePause? {
          var next := Advance(pauses, t5, calls.writePause);
          assert Finish(pauses, t5, calls) == Finish(next.pauses, next.task, calls);
          SendingKeepsPauses(next.pauses, next.task, calls);
        } else {
          SendingKeepsPauses(pauses, t5, calls);
        }
      } else {
        SendingKeepsPauses(pauses, t4, calls);
      }
    }
  }

  lemma {:induction false} SendingKeepsPauses(pauses: Pauses, t: Task, calls: Calls)
    requires StagesLeft(t.stage) <= 4
    ensures Finish(pauses, t, calls).pauses == pauses
    decreases StagesLeft(t.stage)
  {
    if !t.stage.Done? {
      SendingKeepsPauses(pauses, Advance(pauses, t, CallAt(calls, t.stage)).task, calls);
    }
  }
}
