/** What one handler attempts, told from the answers its calls got. */
module HandlerStory {
  import opened Common
  import opened PyText
  import opened Resources
  import opened BotPauses
  import opened InboundHandler
  import opened PauseProtocol

  // ---------- the story ----------

  /** The agent answered, and its detector hands over. */
  predicate Escalated(answer: Outcome) {
    answer.ok && answer.answer.handoff.Some? && answer.answer.handoff.value.escalate
  }

  /** The tenant configured a positive window. */
  predicate HasWindow(hours: Option<int>) {
    hours.Some? && hours.value > 0
  }

  /** What composing the reply attempts: every escalation is notified, whatever the window. */
  function Composing(hours: Option<int>, answer: Outcome): seq<Effect> {
    [RememberBuyer, RecordInbound, CheckPause, Respond]
    + (if Escalated(answer) then [Notify] else [])
    + (if Escalated(answer) && HasWindow(hours) then [WritePause] else [])
  }

  function Delivering(reply: string, meta: Meta): seq<Effect> {
    [Send(reply), RememberAgent(reply, meta), RecordOutbound(reply, meta), MaybeDispatch]
  }

  /** The outcome of the send follows those of composing. */
  function SendAt(hours: Option<int>, answer: Outcome): nat {
    |Composing(hours, answer)|
  }

  function ReplyText(answer: Outcome): string {
    if answer.ok then answer.answer.reply
    else "Tuvimos un inconveniente procesando tu mensaje. Te respondemos en unos minutos."
  }

  ghost predicate IsCut(s: string, cut: Json, n: nat) {
    cut == JStr(if |s| <= n then s else s[..n])
  }

  /** What the answer leaves in the metadata. */
  ghost predicate SaysAnswer(meta: Meta, answer: Outcome) {
    && ("error" in meta <==> !answer.ok)
    && ("error" in meta ==> IsCut(answer.error, meta["error"], 200))
    && ("model" in meta <==> answer.ok)
    && ("model" in meta ==> meta["model"] == JStr(answer.answer.model))
    && ("facts_cited" in meta <==> answer.ok)
    && ("facts_cited" in meta ==> meta["facts_cited"] == JStr(NatText(answer.answer.factsCited)))
    && ("history_used" in meta <==> answer.ok)
    && ("history_used" in meta ==> meta["history_used"] == JStr(NatText(answer.answer.historyUsed)))
    && ("handoff" in meta <==> Escalated(answer))
    && ("handoff" in meta ==> meta["handoff"] == JStr("true"))
    && ("handoff_keyword" in meta <==> Escalated(answer) && answer.answer.handoff.value.keyword != "")
    && ("handoff_keyword" in meta ==> meta["handoff_keyword"] == JStr(answer.answer.handoff.value.keyword))
  }

  /** The end of the pause is there exactly if one was written, as outcome `w` says. */
  ghost predicate SaysPause(meta: Meta, hours: Option<int>, paused: bool, w: Outcome) {
    && ("bot_paused_until" in meta <==> paused && HasWindow(hours) && w.ok)
    && (paused && HasWindow(hours) && w.ok ==> meta["bot_paused_until"] == JTime(w.now + hours.value * 3600000000))
  }

  ghost predicate SaysDelivery(meta: Meta, sent: Outcome) {
    && "vendor_message_id" in meta
    && meta["vendor_message_id"] == JStr(if sent.ok then sent.vendorId else "")
    && ("delivery_error" in meta <==> !sent.ok)
    && ("delivery_error" in meta ==> IsCut(sent.error, meta["delivery_error"], 200))
  }

  const COMPOSED_KEYS :=
    {"error", "model", "facts_cited", "history_used", "handoff", "handoff_keyword", "bot_paused_until"}

  /** The outcome of the pause write, if there was one. */
  function PauseOf(hours: Option<int>, os: seq<Outcome>): Outcome
    requires |os| >= 4
  {
    if Escalated(os[3]) && HasWindow(hours) && |os| >= 6 then os[5] else os[3]
  }

  /** The metadata before the send. */
  ghost predicate Draws(meta: Meta, hours: Option<int>, answer: Outcome, paused: bool, w: Outcome) {
    && SaysAnswer(meta, answer) && SaysPause(meta, hours, paused, w)
    && meta.Keys <= COMPOSED_KEYS
  }

  /** The metadata of the stored turn. */
  ghost predicate Reports(meta: Meta, hours: Option<int>, answer: Outcome, w: Outcome, sent: Outcome) {
    && SaysAnswer(meta, answer) && SaysPause(meta, hours, Escalated(answer), w) && SaysDelivery(meta, sent)
    && meta.Keys <= COMPOSED_KEYS + {"vendor_message_id", "delivery_error"}
  }

  ghost predicate Drafted(d: Draft, hours: Option<int>, os: seq<Outcome>)
    requires |os| >= 4
  {
    d.reply == ReplyText(os[3]) && Draws(d.meta, hours, os[3], Escalated(os[3]) && |os| >= 6, PauseOf(hours, os))
  }

  /** The whole story of an unsilenced message. */
  ghost predicate Tells(did: seq<Effect>, hours: Option<int>, os: seq<Outcome>) {
    && |os| >= 4 && |os| >= SendAt(hours, os[3]) + 4
    && exists meta :: TellsWith(did, meta, hours, os[3], PauseOf(hours, os), os[SendAt(hours, os[3])])
  }

  /** Composing, one send of the answer or the fallback, and the same text stored with this metadata. */
  ghost predicate TellsWith(did: seq<Effect>, meta: Meta, hours: Option<int>, answer: Outcome, w: Outcome,
                            sent: Outcome) {
    did == Composing(hours, answer) + Delivering(ReplyText(answer), meta) && Reports(meta, hours, answer, w, sent)
  }

  /** Where the handler stands in its story after these outcomes. */
  ghost predicate Told(t: Task, os: seq<Outcome>) {
    match t.stage
    case AtRememberBuyer => |os| == 0 && t.did == []
    case AtRecordInbound => |os| == 1 && t.did == [RememberBuyer]
    case AtCheckPause => |os| == 2 && t.did == [RememberBuyer, RecordInbound]
    case AtRespond => |os| == 3 && t.did == [RememberBuyer, RecordInbound, CheckPause]
    case AtNotify(d) =>
      |os| == 4 && Escalated(os[3]) && Drafted(d, t.hours, os)
      && t.did == [RememberBuyer, RecordInbound, CheckPause, Respond]
    case AtWritePause(d) =>
      |os| == 5 && Escalated(os[3]) && HasWindow(t.hours) && Drafted(d, t.hours, os)
      && t.did == [RememberBuyer, RecordInbound, CheckPause, Respond, Notify]
    case AtSend(d) =>
      |os| >= 4 && |os| == SendAt(t.hours, os[3]) && Drafted(d, t.hours, os) && t.did == Composing(t.hours, os[3])
    case AtRememberAgent(d) => TellsUpTo(t, os, d, 1)
    case AtRecordOutbound(d) => TellsUpTo(t, os, d, 2)
    case AtMaybeDispatch => exists d :: TellsUpTo(t, os, d, 3)
    case Done(silenced) =>
      if silenced then |os| >= 3 && t.did == [RememberBuyer, RecordInbound, CheckPause] && os[2].ok
      else Tells(t.did, t.hours, os)
  }

  /** `n` attempts of the delivery are made. */
  ghost predicate TellsUpTo(t: Task, os: seq<Outcome>, d: Draft, n: nat)
  {
    && 1 <= n <= 4 && |os| >= 4 && |os| == SendAt(t.hours, os[3]) + n
    && d.reply == ReplyText(os[3])
    && Reports(d.meta, t.hours, os[3], PauseOf(t.hours, os), os[SendAt(t.hours, os[3])])
    && t.did == Composing(t.hours, os[3]) + Delivering(d.reply, d.meta)[..n]
  }

  // ---------- one call ----------

  lemma OpeningTold(pauses: Pauses, t: Task, os: seq<Outcome>, o: Outcome)
    requires (t.stage.AtRememberBuyer? || t.stage.AtRecordInbound? || t.stage.AtCheckPause?) && Told(t, os)
    ensures Told(Advance(pauses, t, o).task, os + [o])
  {
    assert (os + [o])[|os|] == o;
  }

  lemma RespondTold(pauses: Pauses, t: Task, os: seq<Outcome>, o: Outcome)
    requires t.stage.AtRespond? && Told(t, os)
    ensures Told(Advance(pauses, t, o).task, os + [o])
  {
    var os' := os + [o];
    assert os'[3] == o;
    var t' := Advance(pauses, t, o).task;
    if Escalated(o) {
      assert Drafted(t'.stage.draft, t.hours, os');
    } else {
      assert t'.did == Composing(t.hours, o);
      assert Drafted(t'.stage.draft, t.hours, os');
    }
  }

  lemma NotifyTold(pauses: Pauses, t: Task, os: seq<Outcome>, o: Outcome)
    requires t.stage.AtNotify? && Told(t, os)
    ensures Told(Advance(pauses, t, o).task, os + [o])
  {
    assert (os + [o])[3] == os[3];
    assert !HasWindow(t.hours) ==> Advance(pauses, t, o).task.did == Composing(t.hours, os[3]);
  }

  lemma WritePauseTold(pauses: Pauses, t: Task, os: seq<Outcome>, o: Outcome)
    requires t.stage.AtWritePause? && Told(t, os)
    ensures Told(Advance(pauses, t, o).task, os + [o])
  {
    var os' := os + [o];
    assert os'[3] == os[3] && os'[5] == o;
    assert Advance(pauses, t, o).task.did == Composing(t.hours, os[3]);
  }

  lemma DeliveredReports(d: Draft, hours: Option<int>, answer: Outcome, w: Outcome, o: Outcome)
    requires Draws(d.meta, hours, answer, Escalated(answer), w)
    ensures Delivered(d, o).reply == d.reply && Reports(Delivered(d, o).meta, hours, answer, w, o)
  {
  }

  lemma SendTold(pauses: Pauses, t: Task, os: seq<Outcome>, o: Outcome)
    requires t.stage.AtSend? && Told(t, os)
    ensures Told(Advance(pauses, t, o).task, os + [o])
  {
    var d := Delivered(t.stage.draft, o);
    SameFacts(t.hours, os, o);
    assert (os + [o])[|os|] == o;
    DeliveredReports(t.stage.draft, t.hours, os[3], PauseOf(t.hours, os), o);
    assert Delivering(d.reply, d.meta)[..1] == [Send(d.reply)];
  }

  /** From the send on, later outcomes leave what was told. */
  lemma SameFacts(hours: Option<int>, os: seq<Outcome>, o: Outcome)
    requires |os| >= 4 && |os| >= SendAt(hours, os[3])
    ensures (os + [o])[3] == os[3] && PauseOf(hours, os + [o]) == PauseOf(hours, os)
    ensures |os| > SendAt(hours, os[3]) ==> (os + [o])[SendAt(hours, os[3])] == os[SendAt(hours, os[3])]
  {
  }

  lemma DeliveringTold(pauses: Pauses, t: Task, os: seq<Outcome>, o: Outcome, d: Draft, n: nat)
    requires 1 <= n < 4 && TellsUpTo(t, os, d, n)
    requires Advance(pauses, t, o).task.did == t.did + [Delivering(d.reply, d.meta)[n]]
    requires Advance(pauses, t, o).task.hours == t.hours
    ensures TellsUpTo(Advance(pauses, t, o).task, os + [o], d, n + 1)
  {
    SameFacts(t.hours, os, o);
    var all := Delivering(d.reply, d.meta);
    assert all[..n + 1] == all[..n] + [all[n]];
    var before := Composing(t.hours, os[3]);
    assert before + all[..n] + [all[n]] == before + (all[..n] + [all[n]]);
  }

  lemma AdvanceTold(pauses: Pauses, t: Task, os: seq<Outcome>, o: Outcome)
    requires Told(t, os)
    ensures Told(Advance(pauses, t, o).task, os + [o])
  {
    match t.stage
    case AtRememberBuyer => OpeningTold(pauses, t, os, o);
    case AtRecordInbound => OpeningTold(pauses, t, os, o);
    case AtCheckPause => OpeningTold(pauses, t, os, o);
    case AtRespond => RespondTold(pauses, t, os, o);
    case AtNotify(_) => NotifyTold(pauses, t, os, o);
    case AtWritePause(_) => WritePauseTold(pauses, t, os, o);
    case AtSend(_) => SendTold(pauses, t, os, o);
    case AtRememberAgent(d) => DeliveringTold(pauses, t, os, o, d, 1);
    case AtRecordOutbound(d) => DeliveringTold(pauses, t, os, o, d, 2);
    case AtMaybeDispatch => DispatchTold(pauses, t, os, o);
    case Done(_) => StoryStays(t, os, o);
  }

  lemma DispatchTold(pauses: Pauses, t: Task, os: seq<Outcome>, o: Outcome)
    requires t.stage.AtMaybeDispatch? && Told(t, os)
    ensures Told(Advance(pauses, t, o).task, os + [o])
  {
    var d :| TellsUpTo(t, os, d, 3);
    DeliveringTold(pauses, t, os, o, d, 3);
    StoryEnds(Advance(pauses, t, o).task, os + [o], d);
  }

  lemma WholeDelivery(reply: string, meta: Meta)
    ensures Delivering(reply, meta)[..4] == Delivering(reply, meta)
  {
  }

  lemma StoryEnds(t: Task, os: seq<Outcome>, d: Draft)
    requires TellsUpTo(t, os, d, 4)
    ensures Tells(t.did, t.hours, os)
  {
    WholeDelivery(d.reply, d.meta);
    var answer, w, sent := os[3], PauseOf(t.hours, os), os[SendAt(t.hours, os[3])];
    assert TellsWith(t.did, d.meta, t.hours, answer, w, sent);
  }

  /** Calls after the end change nothing. */
  lemma StoryStays(t: Task, os: seq<Outcome>, o: Outcome)
    requires t.stage.Done? && Told(t, os)
    ensures Told(t, os + [o])
  {
    assert (os + [o])[2] == os[2];
    if !t.stage.silenced {
      SameFacts(t.hours, os, o);
      var answer, w, sent := os[3], PauseOf(t.hours, os), os[SendAt(t.hours, os[3])];
      var meta :| TellsWith(t.did, meta, t.hours, answer, w, sent);
    }
  }

  // ---------- every interleaving ----------

  /** What the calls of one handler brought back, in order, since it arrived. */
  function OutcomesOf(acts: seq<Act>, id: nat): seq<Outcome> {
    if acts == [] then []
    else
      var n := |acts| - 1;
      var before := OutcomesOf(acts[..n], id);
      if acts[n].Call? && acts[n].id == id && id in Run(acts[..n]).tasks then before + [acts[n].o] else before
  }

  lemma {:induction false} NoOutcomesYet(acts: seq<Act>, id: nat)
    requires id !in Run(acts).tasks
    ensures OutcomesOf(acts, id) == []
    decreases |acts|
  {
    if acts != [] {
      NoOutcomesYet(acts[..|acts| - 1], id);
    }
  }

  lemma {:induction false} EveryHandlerIsTold(acts: seq<Act>, id: nat)
    requires id in Run(acts).tasks
    ensures Told(Run(acts).tasks[id], OutcomesOf(acts, id))
    decreases |acts|
  {
    var n := |acts| - 1;
    var w := Run(acts[..n]);
    if id in w.tasks {
      EveryHandlerIsTold(acts[..n], id);
      if acts[n].Call? && acts[n].id == id {
        AdvanceTold(w.pauses, w.tasks[id], OutcomesOf(acts[..n], id), acts[n].o);
      }
    } else {
      NoOutcomesYet(acts[..n], id);
    }
  }

  /**
   * In every interleaving and under every pattern of failures, a finished handler that was not
   * silenced attempted exactly this, in this order: an escalation is notified once, whatever the
   * window, and paused if the window is positive; then the answer or the fallback is sent, and stored
   * with what the calls brought back.
   */
  lemma EveryStoryIsTold(acts: seq<Act>, id: nat)
    requires id in Run(acts).tasks && Run(acts).tasks[id].stage.Done?
    ensures var t, os := Run(acts).tasks[id], OutcomesOf(acts, id);
      if t.stage.silenced then t.did == [RememberBuyer, RecordInbound, CheckPause] else Tells(t.did, t.hours, os)
    ensures var t, os := Run(acts).tasks[id], OutcomesOf(acts, id);
      !t.stage.silenced ==> |os| >= 4 && HandsOver(t.did, t.hours, os[3])
  {
    EveryHandlerIsTold(acts, id);
    var t, os := Run(acts).tasks[id], OutcomesOf(acts, id);
    if !t.stage.silenced {
      HandoverPlaces(t.did, t.hours, os);
    }
  }

  /** Where the attempts stand: Notify directly after Respond, WritePause next, the send after both. */
  ghost predicate HandsOver(did: seq<Effect>, hours: Option<int>, answer: Outcome) {
    forall i :: 0 <= i < |did| ==>
      && (did[i] == Respond <==> i == 3)
      && (did[i] == Notify <==> Escalated(answer) && i == 4)
      && (did[i] == WritePause <==> Escalated(answer) && HasWindow(hours) && i == 5)
      && (did[i].Send? <==> i == SendAt(hours, answer))
  }

  lemma ComposingPlaces(hours: Option<int>, answer: Outcome)
    ensures var did := Composing(hours, answer);
      && 4 <= |did| <= 6
      && (|did| > 4 <==> Escalated(answer)) && (|did| == 6 <==> Escalated(answer) && HasWindow(hours))
      && did[0] == RememberBuyer && did[1] == RecordInbound && did[2] == CheckPause && did[3] == Respond
      && (|did| > 4 ==> did[4] == Notify) && (|did| == 6 ==> did[5] == WritePause)
  {
  }

  lemma HandoverPlaces(did: seq<Effect>, hours: Option<int>, os: seq<Outcome>)
    requires Tells(did, hours, os)
    ensures HandsOver(did, hours, os[3])
  {
    var meta :| TellsWith(did, meta, hours, os[3], PauseOf(hours, os), os[SendAt(hours, os[3])]);
    StoryPlaces(did, hours, os[3], ReplyText(os[3]), meta);
  }

  lemma StoryPlaces(did: seq<Effect>, hours: Option<int>, answer: Outcome, reply: string, meta: Meta)
    requires did == Composing(hours, answer) + Delivering(reply, meta)
    ensures HandsOver(did, hours, answer)
  {
    ComposingPlaces(hours, answer);
    JoinedPlaces(did, Composing(hours, answer), Delivering(reply, meta), hours, answer);
  }

  /** The delivery makes no attempt that composing makes, and one send. */
  lemma JoinedPlaces(did: seq<Effect>, first: seq<Effect>, rest: seq<Effect>, hours: Option<int>, answer: Outcome)
    requires did == first + rest && |first| == SendAt(hours, answer) && 4 <= |first| <= 6 && |rest| == 4
    requires (|first| > 4 <==> Escalated(answer)) && (|first| == 6 <==> Escalated(answer) && HasWindow(hours))
    requires first[0] == RememberBuyer && first[1] == RecordInbound && first[2] == CheckPause && first[3] == Respond
    requires (|first| > 4 ==> first[4] == Notify) && (|first| == 6 ==> first[5] == WritePause)
    requires rest[0].Send? && rest[1].RememberAgent? && rest[2].RecordOutbound? && rest[3] == MaybeDispatch
    ensures HandsOver(did, hours, answer)
  {
    forall i | 0 <= i < |did| ensures did[i] == if i < |first| then first[i] else rest[i - |first|] { }
  }

  /** The pause check decides: exactly a pause that ends after the check's clock silences the bot. */
  lemma SilencedExactly(acts: seq<Act>, id: nat, o: Outcome)
    requires id in Run(acts).tasks && Run(acts).tasks[id].stage == AtCheckPause
    ensures var w := Run(acts);
      var key, after := w.tasks[id].key, Run(acts + [Call(id, o)]);
      && id in after.tasks
      && after.tasks[id].stage == (if o.ok && key in w.pauses && o.now < w.pauses[key] then Done(true) else AtRespond)
  {
    assert (acts + [Call(id, o)])[..|acts|] == acts;
  }

  // ---------- one message that nothing interrupts ----------

  function OutcomesFor(calls: Calls, hours: Option<int>): seq<Outcome> {
    [calls.rememberBuyer, calls.recordInbound, calls.check, calls.respond]
    + (if Escalated(calls.respond) then [calls.notify] else [])
    + (if Escalated(calls.respond) && HasWindow(hours) then [calls.writePause] else [])
    + [calls.send, calls.rememberAgent, calls.recordOutbound, calls.dispatch]
  }

  lemma OutcomesInOrder(calls: Calls, hours: Option<int>)
    ensures var all, s := OutcomesFor(calls, hours), SendAt(hours, calls.respond);
      && |all| == s + 4
      && all[0] == calls.rememberBuyer && all[1] == calls.recordInbound && all[2] == calls.check
      && all[3] == calls.respond
      && (Escalated(calls.respond) ==> all[4] == calls.notify)
      && (Escalated(calls.respond) && HasWindow(hours) ==> all[5] == calls.writePause)
      && all[s] == calls.send && all[s + 1] == calls.rememberAgent && all[s + 2] == calls.recordOutbound
      && all[s + 3] == calls.dispatch
  {
  }

  /** Which outcome a handler waits for, by how many it got and what the agent answered. */
  predicate Waits(stage: Stage, hours: Option<int>, n: nat, answer: Outcome) {
    match stage
    case AtRememberBuyer => n == 0
    case AtRecordInbound => n == 1
    case AtCheckPause => n == 2
    case AtRespond => n == 3
    case AtNotify(_) => n == 4 && Escalated(answer)
    case AtWritePause(_) => n == 5 && Escalated(answer) && HasWindow(hours)
    case AtSend(_) => n == SendAt(hours, answer)
    case AtRememberAgent(_) => n == SendAt(hours, answer) + 1
    case AtRecordOutbound(_) => n == SendAt(hours, answer) + 2
    case AtMaybeDispatch => n == SendAt(hours, answer) + 3
    case Done(_) => false
  }

  lemma ToldWaits(t: Task, os: seq<Outcome>, answer: Outcome)
    requires Told(t, os) && !t.stage.Done? && (|os| >= 4 ==> os[3] == answer)
    ensures Waits(t.stage, t.hours, |os|, answer)
  {
  }

  lemma CallIsNext(stage: Stage, hours: Option<int>, n: nat, calls: Calls)
    requires Waits(stage, hours, n, calls.respond)
    ensures n < |OutcomesFor(calls, hours)| && OutcomesFor(calls, hours)[n] == CallAt(calls, stage)
  {
    OutcomesInOrder(calls, hours);
    ComposingPlaces(hours, calls.respond);
  }

  lemma PrefixNext(os: seq<Outcome>, all: seq<Outcome>)
    requires os <= all && |os| < |all|
    ensures os + [all[|os|]] <= all
  {
  }

  lemma NextOutcome(t: Task, calls: Calls, os: seq<Outcome>)
    requires os <= OutcomesFor(calls, t.hours) && Told(t, os) && !t.stage.Done?
    ensures os + [CallAt(calls, t.stage)] <= OutcomesFor(calls, t.hours)
  {
    OutcomesInOrder(calls, t.hours);
    assert |os| >= 4 ==> os[3] == calls.respond;
    ToldWaits(t, os, calls.respond);
    CallIsNext(t.stage, t.hours, |os|, calls);
    PrefixNext(os, OutcomesFor(calls, t.hours));
  }

  lemma {:induction false} FinishTold(pauses: Pauses, t: Task, calls: Calls, os: seq<Outcome>)
    returns (end: seq<Outcome>)
    requires os <= OutcomesFor(calls, t.hours) && Told(t, os)
    ensures var last := Finish(pauses, t, calls).task;
      last.hours == t.hours && end <= OutcomesFor(calls, t.hours) && Told(last, end) && last.stage.Done?
    decreases StagesLeft(t.stage)
  {
    end := os;
    if !t.stage.Done? {
      var o := CallAt(calls, t.stage);
      NextOutcome(t, calls, os);
      AdvanceTold(pauses, t, os, o);
      var next := Advance(pauses, t, o);
      assert next.task.hours == t.hours && StagesLeft(next.task.stage) < StagesLeft(t.stage);
      end := FinishTold(next.pauses, next.task, calls, os + [o]);
    }
  }

  lemma AllAreUsed(did: seq<Effect>, hours: Option<int>, calls: Calls, os: seq<Outcome>)
    requires Tells(did, hours, os) && os <= OutcomesFor(calls, hours)
    ensures os == OutcomesFor(calls, hours)
  {
    OutcomesInOrder(calls, hours);
    assert os[3] == OutcomesFor(calls, hours)[3];
  }

  /** One uninterrupted message: silenced by a pause that is still running, or the story of its calls. */
  lemma MessageTellsItsStory(pauses: Pauses, key: Conversation, hours: Option<int>, calls: Calls)
    ensures var did := Finish(pauses, NewTask(key, hours), calls).task.did;
      if calls.check.ok && key in pauses && calls.check.now < pauses[key]
      then did == [RememberBuyer, RecordInbound, CheckPause]
      else Tells(did, hours, OutcomesFor(calls, hours))
  {
    var t := NewTask(key, hours);
    var os := FinishTold(pauses, t, calls, []);
    var end := Finish(pauses, t, calls).task;
    FinishIsSilenced(pauses, key, hours, calls);
    if !end.stage.silenced {
      AllAreUsed(end.did, hours, calls, os);
    }
  }

  lemma FinishIsSilenced(pauses: Pauses, key: Conversation, hours: Option<int>, calls: Calls)
    ensures Finish(pauses, NewTask(key, hours), calls).task.stage
      == Done(calls.check.ok && key in pauses && calls.check.now < pauses[key])
  {
    if IsSilenced(pauses, key, calls) {
      var t1 := Advance(pauses, NewTask(key, hours), calls.rememberBuyer).task;
      var t2 := Advance(pauses, t1, calls.recordInbound).task;
      var t3 := Advance(pauses, t2, calls.check).task;
      assert Finish(pauses, NewTask(key, hours), calls) == Finish(pauses, t1, calls) == Finish(pauses, t2, calls)
          == Finish(pauses, t3, calls);
    } else {
      ReachesRespond(pauses, key, hours, calls);
      DoneSilencedOrNot(pauses, Task(key, hours, AtRespond, OPENING), calls);
    }
  }
}
