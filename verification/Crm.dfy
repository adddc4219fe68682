/** The per-message recorder: one contact per phone, one activity per turn. */
module CrmRecorder {
  import opened Common
  import opened PyText
  import opened Resources

  type Data = map<string, Json>

  const CONTACT := "contact"
  const ACTIVITY := "activity"

  function ContactRef(fromNumber: string): string {
    "buyer:" + fromNumber
  }

  function ActivityRef(direction: string, messageId: string): string {
    direction + ":" + messageId
  }

  datatype Turn = Turn(tenantId: string, fromNumber: string, text: string, messageId: string,
                       profileName: Option<string>, at: int)

  function Lookup(data: Data, key: string): Json {
    if key in data then data[key] else JNull
  }

  predicate Truthy(v: Json) {
    match v
    case JNull => false
    case JBool(b) => b
    case JInt(n) => n != 0
    case JStr(s) => s != ""
    case JTime(_) => true
    case JList(items) => items != []
    case JObject(fields) => fields != map[]
  }

  /** `int(data.get("turn_count", 0))`; None where Python raises. */
  function CountIn(data: Data): Option<int> {
    if "turn_count" !in data then Some(0)
    else
      match data["turn_count"]
      case JInt(n) => Some(n)
      case JBool(b) => Some(if b then 1 else 0)
      case _ => None
  }

  predicate Named(profileName: Option<string>) {
    profileName.Some? && profileName.value != ""
  }

  function NewContact(turn: Turn, mint: Mint): Resource {
    var data := map["phone" := JStr(turn.fromNumber), "source" := JStr("whatsapp"),
                    "first_contact_at" := JTime(turn.at), "last_seen_at" := JTime(turn.at),
                    "turn_count" := JInt(1)];
    Resource(mint.id, turn.tenantId, None, CONTACT, Some(ContactRef(turn.fromNumber)),
             if Named(turn.profileName) then data["name" := JStr(turn.profileName.value)] else data,
             Truncate(if Named(turn.profileName) then turn.profileName.value else "+" + turn.fromNumber, 240),
             "active", mint.at, mint.at)
  }

  function BumpedData(data: Data, count: int, turn: Turn): Data {
    var counted := data["last_seen_at" := JTime(turn.at)]["turn_count" := JInt(count + 1)];
    if Named(turn.profileName) && !Truthy(Lookup(counted, "name"))
    then counted["name" := JStr(turn.profileName.value)]
    else counted
  }

  function BumpedContact(existing: Resource, count: int, turn: Turn): Resource {
    var data := BumpedData(existing.data, count, turn);
    var name := Lookup(data, "name");
    var summary :=
      if name.JStr? && name.text != "" then name.text
      else if existing.summary != "" then existing.summary
      else "+" + turn.fromNumber;
    existing.(data := data, summary := Truncate(summary, 240), updatedAt := turn.at)
  }

  /** The contact as the upsert leaves it, given what the lookup found; None where Python raises. */
  function ContactFrom(found: Option<Resource>, turn: Turn, mint: Mint): Option<Resource> {
    match found
    case None => Some(NewContact(turn, mint))
    case Some(existing) =>
      var count := CountIn(existing.data);
      if count.None? then None else Some(BumpedContact(existing, count.value, turn))
  }

  function ContactAfter(rows: seq<Resource>, turn: Turn, mint: Mint): Option<Resource> {
    ContactFrom(FindRef(rows, turn.tenantId, CONTACT, ContactRef(turn.fromNumber)), turn, mint)
  }

  function Glance(text: string): string {
    var line := seq(|Strip(text)|, i requires 0 <= i < |Strip(text)| =>
      if Strip(text)[i] == '\n' then ' ' else Strip(text)[i]);
    if |line| > 240 then StripRight(line[..239], IsSpace) + "\U{2026}" else line
  }

  datatype Message = Message(tenantId: string, contactId: string, direction: string, text: string,
                             messageId: string, at: int, extra: Data)

  function NewActivity(m: Message, mint: Mint): Resource {
    Resource(mint.id, m.tenantId, None, ACTIVITY, Some(ActivityRef(m.direction, m.messageId)),
             map["contact_id" := JStr(m.contactId), "type" := JStr("whatsapp_message"),
                 "direction" := JStr(m.direction), "at" := JTime(m.at), "text" := JStr(m.text),
                 "message_id" := JStr(m.messageId)] + m.extra,
             Glance(m.text), "active", mint.at, mint.at)
  }

  function ActivityAfter(rows: seq<Resource>, m: Message, mint: Mint): seq<Resource> {
    if FindRef(rows, m.tenantId, ACTIVITY, ActivityRef(m.direction, m.messageId)).Some? then rows
    else Put(rows, NewActivity(m, mint))
  }

  function InboundMessage(turn: Turn, contactId: string): Message {
    Message(turn.tenantId, contactId, "inbound", turn.text, turn.messageId, turn.at, map[])
  }

  function InboundAfter(rows: seq<Resource>, turn: Turn, contactMint: Mint, activityMint: Mint): seq<Resource> {
    match ContactAfter(rows, turn, contactMint)
    case None => rows
    case Some(contact) =>
      ActivityAfter(UpsertRow(rows, contact), InboundMessage(turn, contact.id), activityMint)
  }

  datatype Reply = Reply(tenantId: string, fromNumber: string, text: string, replyTo: string, at: int, extra: Data)

  function OutboundMessage(reply: Reply, contactId: string): Message {
    Message(reply.tenantId, contactId, "outbound", reply.text, reply.replyTo, reply.at, reply.extra)
  }

  function OutboundAfter(rows: seq<Resource>, reply: Reply, mint: Mint): seq<Resource> {
    match FindRef(rows, reply.tenantId, CONTACT, ContactRef(reply.fromNumber))
    case None => rows
    case Some(contact) => ActivityAfter(rows, OutboundMessage(reply, contact.id), mint)
  }

  class CrmRecorder {
    const resources: ResourceRepository

    constructor (resources: ResourceRepository)
      ensures this.resources == resources
    {
      this.resources := resources;
    }

    /** The branch for a phone that has no contact yet. */
    method AddContact(turn: Turn, mint: Mint) returns (contact: Resource)
      requires resources.Valid()
      modifies resources
      ensures resources.Valid() && contact == NewContact(turn, mint)
      ensures resources.rows == UpsertRow(old(resources.rows), contact)
    {
      var data := map["phone" := JStr(turn.fromNumber), "source" := JStr("whatsapp"),
                      "first_contact_at" := JTime(turn.at), "last_seen_at" := JTime(turn.at),
                      "turn_count" := JInt(1)];
      var summary := "+" + turn.fromNumber;
      if turn.profileName.Some? && turn.profileName.value != "" {
        data := data["name" := JStr(turn.profileName.value)];
        summary := turn.profileName.value;
      }
      contact := Resource(mint.id, turn.tenantId, None, CONTACT, Some(ContactRef(turn.fromNumber)), data,
                          Truncate(summary, 240), "active", mint.at, mint.at);
      KeylessUpsert(resources.rows, contact);
      resources.Add(contact);
    }

    /** The branch for a known contact; None stands for the exception of `int(...)`. */
    method BumpContact(existing: Resource, turn: Turn) returns (contact: Option<Resource>)
      requires resources.Valid()
      modifies resources
      ensures resources.Valid()
      ensures contact == if CountIn(existing.data).None? then None
        else Some(BumpedContact(existing, CountIn(existing.data).value, turn))
      ensures resources.rows ==
        if contact.Some? then UpsertRow(old(resources.rows), contact.value) else old(resources.rows)
    {
      var data := existing.data["last_seen_at" := JTime(turn.at)];
      var count := CountIn(data);
      if count.None? {
        return None;
      }
      data := data["turn_count" := JInt(count.value + 1)];
      if turn.profileName.Some? && turn.profileName.value != "" && !Truthy(Lookup(data, "name")) {
        data := data["name" := JStr(turn.profileName.value)];
      }
      var summary := existing.summary;
      if Lookup(data, "name").JStr? && Lookup(data, "name").text != "" {
        summary := Lookup(data, "name").text;
      } else if summary == "" {
        summary := "+" + turn.fromNumber;
      }
      var updated := existing.(data := data, summary := Truncate(summary, 240), updatedAt := turn.at);
      resources.Upsert(updated);
      return Some(updated);
    }

    method UpsertContactForInbound(turn: Turn, mint: Mint) returns (contact: Option<Resource>)
      requires resources.Valid()
      modifies resources
      ensures resources.Valid()
      ensures contact == ContactAfter(old(resources.rows), turn, mint)
      ensures resources.rows ==
        if contact.Some? then UpsertRow(old(resources.rows), contact.value) else old(resources.rows)
    {
      var existing := resources.FindByExternalId(turn.tenantId, CONTACT, ContactRef(turn.fromNumber));
      if existing.None? {
        var added := AddContact(turn, mint);
        return Some(added);
      }
      contact := BumpContact(existing.value, turn);
    }

    method RecordActivity(m: Message, mint: Mint)
      requires resources.Valid()
      modifies resources
      ensures resources.Valid() && resources.rows == ActivityAfter(old(resources.rows), m, mint)
    {
      var existing := resources.FindByExternalId(m.tenantId, ACTIVITY, ActivityRef(m.direction, m.messageId));
      if existing.Some? {
        return;
      }
      resources.Add(NewActivity(m, mint));
    }

    method RecordInbound(turn: Turn, contactMint: Mint, activityMint: Mint)
      requires resources.Valid()
      modifies resources
      ensures resources.Valid()
      ensures resources.rows == InboundAfter(old(resources.rows), turn, contactMint, activityMint)
    {
      var contact := UpsertContactForInbound(turn, contactMint);
      if contact.None? {
        return;
      }
      RecordActivity(Message(turn.tenantId, contact.value.id, "inbound", turn.text, turn.messageId, turn.at, map[]),
                     activityMint);
    }

    method RecordOutbound(reply: Reply, mint: Mint)
      requires resources.Valid()
      modifies resources
      ensures resources.Valid() && resources.rows == OutboundAfter(old(resources.rows), reply, mint)
    {
      var contact := resources.FindByExternalId(reply.tenantId, CONTACT, ContactRef(reply.fromNumber));
      if contact.None? {
        return;
      }
      RecordActivity(Message(reply.tenantId, contact.value.id, "outbound", reply.text, reply.replyTo, reply.at,
                             reply.extra), mint);
    }
  }

  /** Rows without a deduplication key displace nothing: `upsert` and `add` are then the same. */
  lemma KeylessUpsert(rows: seq<Resource>, r: Resource)
    requires KeyOf(r).None?
    ensures UpsertRow(rows, r) == Put(rows, r)
  {
    FilterAll(rows, SurvivesUpsert(r));
  }
}

/** Applying one LLM extraction to the store. */
module CrmExtractor {
  import opened Common
  import opened PyText
  import opened Resources
  import opened CrmRecorder

  const TASK := "task"
  const MAX_TITLE := 200
  const LISTED_TASKS := 1000
  const PROTECTED := {"phone", "first_contact_at", "last_seen_at", "turn_count", "source"}

  datatype Task = Task(title: string, dueAt: string, priority: string)

  datatype Stage = Stage(fromStage: string, toStage: string, reason: Json)

  datatype Update = Update(key: string, value: Json)

  /** Empty strings stand for absent optional texts, which the code treats alike. */
  datatype Extraction = Extraction(updates: seq<Update>, tasks: seq<Task>, tags: seq<string>, stage: Option<Stage>)

  /** `str.lower`, and `str` of a JSON value that is not text. */
  datatype Texts = Texts(lower: string -> string, show: Json -> string)

  predicate IsEmpty(x: Extraction) {
    x.updates == [] && x.tasks == [] && x.tags == [] && x.stage.None?
  }

  /** A Python dictionary has no repeated key. */
  ghost predicate DictItems(updates: seq<Update>) {
    forall i, j :: 0 <= i < j < |updates| ==> updates[i].key != updates[j].key
  }

  // ---------- contact data ----------

  datatype Patch = Patch(data: Data, changed: bool)

  predicate Skipped(data: Data, u: Update) {
    u.key in PROTECTED || Lookup(data, u.key) == u.value
  }

  function MergeUpdates(data: Data, updates: seq<Update>): Patch {
    if updates == [] then Patch(data, false)
    else
      var n := |updates| - 1;
      var before := MergeUpdates(data, updates[..n]);
      if Skipped(before.data, updates[n]) then before
      else Patch(before.data[updates[n].key := updates[n].value], true)
  }

  function TagText(tag: string, txt: Texts): string {
    txt.lower(Strip(tag))
  }

  function AddTags(list: seq<Json>, tags: seq<string>, txt: Texts): seq<Json> {
    if tags == [] then list
    else
      var n := |tags| - 1;
      var before := AddTags(list, tags[..n], txt);
      var tag := JStr(TagText(tags[n], txt));
      if tag.text == "" || tag in before then before else before + [tag]
  }

  function TagList(data: Data): seq<Json> {
    if Lookup(data, "tags").JList? then Lookup(data, "tags").items else []
  }

  /** Python's `set` refuses lists and dictionaries. */
  predicate Hashable(items: seq<Json>) {
    forall i :: 0 <= i < |items| ==> !items[i].JList? && !items[i].JObject?
  }

  /** None where Python raises; nothing is written then. */
  function PatchOf(data: Data, x: Extraction, txt: Texts): Option<Patch> {
    var merged := MergeUpdates(data, x.updates);
    if x.tags == [] then Some(merged)
    else
      var list := TagList(merged.data);
      if !Hashable(list) then None
      else
        var list' := AddTags(list, x.tags, txt);
        Some(Patch(merged.data["tags" := JList(list')], merged.changed || list' != list))
  }

  /** The contact's data once the patch is written, or skipped because nothing changed. */
  function DataAfter(data: Data, x: Extraction, txt: Texts): Data {
    var p := PatchOf(data, x, txt);
    if p.None? || !p.value.changed then data else p.value.data
  }

  function PatchRows(rows: seq<Resource>, contact: Resource, x: Extraction, txt: Texts,
                     now: int): Option<seq<Resource>> {
    var p := PatchOf(contact.data, x, txt);
    if p.None? then None
    else if !p.value.changed then Some(rows)
    else Some(UpsertRow(rows, contact.(data := p.value.data, updatedAt := now)))
  }

  // ---------- tasks ----------

  /** `re.sub(r"\s+", " ", s)`. */
  function Collapse(s: string): string {
    if s == "" then ""
    else
      var before := Collapse(s[..|s| - 1]);
      if !IsSpace(s[|s| - 1]) then before + [s[|s| - 1]]
      else if before != "" && before[|before| - 1] == ' ' then before
      else before + " "
  }

  function TitleKey(title: string, txt: Texts): string {
    Collapse(txt.lower(Strip(title)))
  }

  function TitleOf(task: Task): string {
    Truncate(Strip(task.title), MAX_TITLE)
  }

  function ShownTitle(r: Resource, txt: Texts): string {
    if "title" !in r.data then "" else if r.data["title"].JStr? then r.data["title"].text else txt.show(r.data["title"])
  }

  predicate IsOpenTask(r: Resource, contactId: string, txt: Texts) {
    && Lookup(r.data, "contact_id") == JStr(contactId)
    && Lookup(r.data, "status") == JStr("open")
    && ShownTitle(r, txt) != ""
  }

  function OpenKeys(listed: seq<Resource>, contactId: string, txt: Texts): set<string> {
    set r | r in listed && IsOpenTask(r, contactId, txt) :: TitleKey(ShownTitle(r, txt), txt)
  }

  lemma OpenKeysNext(listed: seq<Resource>, r: Resource, contactId: string, txt: Texts)
    ensures OpenKeys(listed + [r], contactId, txt) == OpenKeys(listed, contactId, txt)
      + if IsOpenTask(r, contactId, txt) then {TitleKey(ShownTitle(r, txt), txt)} else {}
  {
    forall q ensures q in listed + [r] <==> q in listed || q == r {
      assert (listed + [r])[|listed|] == r;
    }
  }

  function TaskData(task: Task, contactId: string): Data {
    var base := map["contact_id" := JStr(contactId), "title" := JStr(TitleOf(task)), "status" := JStr("open"),
                    "source" := JStr("llm-extractor"), "auto" := JBool(true)];
    var due := if task.dueAt != "" then base["due_at" := JStr(task.dueAt)] else base;
    if task.priority != "" then due["priority" := JStr(task.priority)] else due
  }

  function TaskRow(task: Task, tenantId: string, contactId: string, txt: Texts, mint: Mint): Resource {
    Resource(mint.id, tenantId, None, TASK,
             Some("task:" + contactId + ":" + TitleKey(TitleOf(task), txt)),
             TaskData(task, contactId), TitleOf(task), "active", mint.at, mint.at)
  }

  datatype TaskState = TaskState(rows: seq<Resource>, keys: set<string>)

  predicate Writes(st: TaskState, task: Task, txt: Texts) {
    TitleOf(task) != "" && TitleKey(TitleOf(task), txt) !in st.keys
  }

  function WriteTasks(st: TaskState, tenantId: string, contactId: string, tasks: seq<Task>, txt: Texts,
                      mints: seq<Mint>): TaskState
    requires |mints| == |tasks|
  {
    if tasks == [] then st
    else
      var n := |tasks| - 1;
      var before := WriteTasks(st, tenantId, contactId, tasks[..n], txt, mints[..n]);
      if Writes(before, tasks[n], txt) then
        TaskState(UpsertRow(before.rows, TaskRow(tasks[n], tenantId, contactId, txt, mints[n])),
                  before.keys + {TitleKey(TitleOf(tasks[n]), txt)})
      else before
  }

  /** The open titles one `list_for` call shows: it stops at a thousand active tasks. */
  function SeenKeys(rows: seq<Resource>, tenantId: string, contactId: string, txt: Texts): set<string> {
    OpenKeys(ListRows(rows, tenantId, Some(TASK), LISTED_TASKS), contactId, txt)
  }

  function TasksAfter(rows: seq<Resource>, tenantId: string, contactId: string, tasks: seq<Task>, txt: Texts,
                      mints: seq<Mint>): seq<Resource>
    requires |mints| == |tasks|
  {
    WriteTasks(TaskState(rows, SeenKeys(rows, tenantId, contactId, txt)), tenantId, contactId, tasks, txt, mints).rows
  }

  // ---------- stage breadcrumb ----------

  function StageRow(stage: Stage, tenantId: string, contactId: string, now: int, mint: Mint): Resource {
    Resource(mint.id, tenantId, None, ACTIVITY, Some("stage:" + contactId + ":" + stage.toStage),
             map["contact_id" := JStr(contactId), "type" := JStr("stage_transition"),
                 "from" := if stage.fromStage != "" then JStr(stage.fromStage) else JNull,
                 "to" := JStr(stage.toStage), "reason" := stage.reason,
                 "source" := JStr("llm-extractor"), "auto" := JBool(true), "at" := JTime(now)],
             if stage.fromStage != "" then "Stage " + stage.fromStage + " \U{2192} " + stage.toStage
             else "Stage \U{2192} " + stage.toStage,
             "active", mint.at, mint.at)
  }

  function StageAfter(rows: seq<Resource>, stage: Option<Stage>, tenantId: string, contactId: string, now: int,
                      mint: Mint): seq<Resource> {
    if stage.None? then rows else UpsertRow(rows, StageRow(stage.value, tenantId, contactId, now, mint))
  }

  /** The fresh ids one application may use. */
  datatype Mints = Mints(tasks: seq<Mint>, stage: Mint)

  /** Is there a contact this application would touch? */
  predicate Reaches(rows: seq<Resource>, tenantId: string, contactId: string, x: Extraction) {
    !IsEmpty(x) && GetById(rows, contactId).Some? && GetById(rows, contactId).value.tenantId == tenantId
  }

  /** The three writes, once the contact has been found. */
  function ApplyTo(rows: seq<Resource>, contact: Resource, x: Extraction, txt: Texts, now: int,
                   mints: Mints): seq<Resource>
    requires |mints.tasks| == |x.tasks|
  {
    match PatchRows(rows, contact, x, txt, now)
    case None => rows
    case Some(patched) =>
      StageAfter(TasksAfter(patched, contact.tenantId, contact.id, x.tasks, txt, mints.tasks),
                 x.stage, contact.tenantId, contact.id, now, mints.stage)
  }

  function ApplyAfter(rows: seq<Resource>, tenantId: string, contactId: string, x: Extraction, txt: Texts,
                      now: int, mints: Mints): seq<Resource>
    requires |mints.tasks| == |x.tasks|
  {
    if Reaches(rows, tenantId, contactId, x) then ApplyTo(rows, GetById(rows, contactId).value, x, txt, now, mints)
    else rows
  }

  class CrmExtractor {
    const resources: ResourceRepository

    constructor (resources: ResourceRepository)
      ensures this.resources == resources
    {
      this.resources := resources;
    }

    /** The loop over the contact updates. */
    method Merge(data0: Data, updates: seq<Update>) returns (data: Data, changed: bool)
      ensures Patch(data, changed) == MergeUpdates(data0, updates)
    {
      data, changed := data0, false;
      for i := 0 to |updates|
        invariant Patch(data, changed) == MergeUpdates(data0, updates[..i])
      {
        var u := updates[i];
        assert updates[..i + 1][..i] == updates[..i];
        if u.key in PROTECTED {
          continue;
        }
        if Lookup(data, u.key) == u.value {
          continue;
        }
        data := data[u.key := u.value];
        changed := true;
      }
      assert updates[..|updates|] == updates;
    }

    /** The loop over the new tags. */
    method MergeTags(list: seq<Json>, tags: seq<string>, txt: Texts) returns (tagsList: seq<Json>, added: bool)
      ensures tagsList == AddTags(list, tags, txt) && (added <==> tagsList != list)
    {
      tagsList, added := list, false;
      for i := 0 to |tags|
        invariant tagsList == AddTags(list, tags[..i], txt)
        invariant |list| <= |tagsList| && (added <==> |tagsList| != |list|)
      {
        assert tags[..i + 1][..i] == tags[..i];
        var normalized := txt.lower(Strip(tags[i]));
        if normalized != "" && JStr(normalized) !in tagsList {
          tagsList := tagsList + [JStr(normalized)];
          added := true;
        }
      }
      assert tags[..|tags|] == tags;
      TagsOnlyGrow(list, tags, txt);
    }

    /** False stands for the exception; the rows are then untouched. */
    method PatchContact(contact: Resource, x: Extraction, txt: Texts, now: int) returns (ok: bool)
      requires resources.Valid()
      modifies resources
      ensures resources.Valid()
      ensures ok == PatchRows(old(resources.rows), contact, x, txt, now).Some?
      ensures resources.rows ==
        if ok then PatchRows(old(resources.rows), contact, x, txt, now).value else old(resources.rows)
    {
      var data, changed := Merge(contact.data, x.updates);
      if x.tags != [] {
        var existing := if Lookup(data, "tags").JList? then Lookup(data, "tags").items else [];
        if !Hashable(existing) {
          return false;
        }
        var tagsList, added := MergeTags(existing, x.tags, txt);
        changed := changed || added;
        data := data["tags" := JList(tagsList)];
      }
      if !changed {
        return true;
      }
      resources.Upsert(contact.(data := data, updatedAt := now));
      return true;
    }

    /** The scan behind `_open_task_titles`. */
    method KeysAmong(listed: seq<Resource>, contactId: string, txt: Texts) returns (keys: set<string>)
      ensures keys == OpenKeys(listed, contactId, txt)
    {
      keys := {};
      for i := 0 to |listed|
        invariant keys == OpenKeys(listed[..i], contactId, txt)
      {
        var r := listed[i];
        assert listed[..i + 1] == listed[..i] + [r];
        OpenKeysNext(listed[..i], r, contactId, txt);
        if Lookup(r.data, "contact_id") != JStr(contactId) || Lookup(r.data, "status") != JStr("open") {
          continue;
        }
        var title := ShownTitle(r, txt);
        if title != "" {
          keys := keys + {TitleKey(title, txt)};
        }
      }
      assert listed[..|listed|] == listed;
    }

    method OpenTaskTitles(tenantId: string, contactId: string, txt: Texts) returns (keys: set<string>)
      ensures keys == SeenKeys(resources.rows, tenantId, contactId, txt)
    {
      var listed := resources.ListFor(tenantId, Some(TASK), LISTED_TASKS);
      keys := KeysAmong(listed, contactId, txt);
    }

    method WriteTasksFor(tenantId: string, contactId: string, tasks: seq<Task>, txt: Texts, mints: seq<Mint>)
      requires resources.Valid() && |mints| == |tasks|
      modifies resources
      ensures resources.Valid()
      ensures resources.rows == TasksAfter(old(resources.rows), tenantId, contactId, tasks, txt, mints)
    {
      if tasks == [] {
        return;
      }
      var keys := OpenTaskTitles(tenantId, contactId, txt);
      ghost var start := TaskState(resources.rows, keys);
      for i := 0 to |tasks|
        invariant resources.Valid()
        invariant TaskState(resources.rows, keys)
          == WriteTasks(start, tenantId, contactId, tasks[..i], txt, mints[..i])
      {
        assert tasks[..i + 1][..i] == tasks[..i] && mints[..i + 1][..i] == mints[..i];
        var title := Truncate(Strip(tasks[i].title), MAX_TITLE);
        if title == "" {
          continue;
        }
        var key := TitleKey(title, txt);
        if key in keys {
          continue;
        }
        resources.Upsert(TaskRow(tasks[i], tenantId, contactId, txt, mints[i]));
        keys := keys + {key};
      }
      assert tasks[..|tasks|] == tasks && mints[..|tasks|] == mints;
    }

    method Apply(tenantId: string, contactId: string, x: Extraction, txt: Texts, now: int, mints: Mints)
      requires resources.Valid() && |mints.tasks| == |x.tasks|
      modifies resources
      ensures resources.Valid()
      ensures resources.rows == ApplyAfter(old(resources.rows), tenantId, contactId, x, txt, now, mints)
    {
      if IsEmpty(x) {
        return;
      }
      var contact := resources.Get(contactId);
      if contact.None? || contact.value.tenantId != tenantId {
        return;
      }
      var ok := PatchContact(contact.value, x, txt, now);
      if !ok {
        return;
      }
      WriteTasksFor(tenantId, contactId, x.tasks, txt, mints.tasks);
      if x.stage.Some? {
        resources.Upsert(StageRow(x.stage.value, tenantId, contactId, now, mints.stage));
      }
    }
  }

  lemma {:induction false} TagsOnlyGrow(list: seq<Json>, tags: seq<string>, txt: Texts)
    ensures list <= AddTags(list, tags, txt)
    ensures forall j :: |list| <= j < |AddTags(list, tags, txt)| ==>
      && AddTags(list, tags, txt)[j].JStr?
      && AddTags(list, tags, txt)[j].text != ""
      && AddTags(list, tags, txt)[j] !in AddTags(list, tags, txt)[..j]
      && exists t :: t in tags && AddTags(list, tags, txt)[j].text == TagText(t, txt)
    ensures forall t :: t in tags && TagText(t, txt) != "" ==> JStr(TagText(t, txt)) in AddTags(list, tags, txt)
    decreases |tags|
  {
    if tags != [] {
      var n := |tags| - 1;
      TagsOnlyGrow(list, tags[..n], txt);
      assert tags == tags[..n] + [tags[n]];
      var before := AddTags(list, tags[..n], txt);
      var after := AddTags(list, tags, txt);
      forall j | |list| <= j < |after|
        ensures after[j].JStr? && after[j].text != "" && after[j] !in after[..j]
        ensures exists t :: t in tags && after[j].text == TagText(t, txt)
      {
        if j < |before| {
          assert after[..j] == before[..j];
        } else {
          assert after[..j] == before;
          assert tags[n] in tags;
        }
      }
    }
  }
}
