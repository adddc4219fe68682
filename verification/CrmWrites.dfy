/** What one application stores: the contact's fields and tags, its tasks, and the breadcrumb. */
module CrmWrites {
  import opened Common
  import opened PyText
  import opened Resources
  import opened CrmRecorder
  import opened CrmExtractor
  import opened CrmReapply
  import TsQuery

  // ---------- the contact's fields ----------

  /** The fields an extraction may not set. */
  predicate IsProtected(key: string) {
    key == "phone" || key == "source" || key == "first_contact_at" || key == "last_seen_at" || key == "turn_count"
  }

  /** What the extraction wants under a key: its own value, or else what is stored. */
  function Wanted(data: Data, updates: seq<Update>, key: string): Json {
    if updates == [] then Lookup(data, key)
    else
      var n := |updates| - 1;
      if updates[n].key == key && !IsProtected(key) then updates[n].value else Wanted(data, updates[..n], key)
  }

  lemma {:induction false} MergeGivesWanted(data: Data, updates: seq<Update>, key: string)
    ensures Lookup(MergeUpdates(data, updates).data, key) == Wanted(data, updates, key)
    decreases |updates|
  {
    if updates != [] {
      MergeGivesWanted(data, updates[..|updates| - 1], key);
    }
  }

  /** A key is there if it was, or if it is wanted; a null for a missing key is not written. */
  lemma {:induction false} MergePresence(data: Data, updates: seq<Update>, key: string)
    requires DictItems(updates)
    ensures key in MergeUpdates(data, updates).data <==> key in data || Wanted(data, updates, key) != JNull
    decreases |updates|
  {
    if updates != [] {
      var n := |updates| - 1;
      MergePresence(data, updates[..n], key);
      MergeGivesWanted(data, updates[..n], key);
      if updates[n].key == key {
        WantedMiss(data, updates[..n], key);
      }
    }
  }

  lemma {:induction false} WantedMiss(data: Data, updates: seq<Update>, key: string)
    requires forall u :: u in updates ==> u.key != key
    ensures Wanted(data, updates, key) == Lookup(data, key)
    decreases |updates|
  {
    if updates != [] {
      assert updates[|updates| - 1] in updates;
      WantedMiss(data, updates[..|updates| - 1], key);
    }
  }

  // ---------- the tags ----------

  /** The list that the new tags join. */
  function BaseTags(data: Data, updates: seq<Update>): seq<Json> {
    var v := Wanted(data, updates, "tags");
    if v.JList? then v.items else []
  }

  /** The first of the tags that reads like `tag`, stripped and lower-cased. */
  function FirstTag(tags: seq<string>, tag: Json, txt: Texts): (k: int)
    ensures -1 <= k < |tags|
    ensures k >= 0 ==> tag == JStr(txt.lower(Strip(tags[k])))
    ensures forall j :: 0 <= j < (if k >= 0 then k else |tags|) ==> tag != JStr(txt.lower(Strip(tags[j])))
  {
    if tags == [] then -1
    else
      var n := |tags| - 1;
      var k := FirstTag(tags[..n], tag, txt);
      if k >= 0 then k else if tag == JStr(txt.lower(Strip(tags[n]))) then n else -1
  }

  /** The old list, then every new non-empty tag once, in the order in which the tags first come. */
  ghost predicate Joins(base: seq<Json>, after: seq<Json>, tags: seq<string>, txt: Texts) {
    && base <= after
    && (forall t :: t in tags && txt.lower(Strip(t)) != "" ==> JStr(txt.lower(Strip(t))) in after)
    && (forall i :: |base| <= i < |after| ==>
          after[i] != JStr("") && after[i] !in base && FirstTag(tags, after[i], txt) >= 0)
    && forall i, j :: |base| <= i < j < |after| ==> FirstTag(tags, after[i], txt) < FirstTag(tags, after[j], txt)
  }

  lemma FirstTagNext(tags: seq<string>, t: string, tag: Json, txt: Texts)
    ensures FirstTag(tags + [t], tag, txt) ==
      if FirstTag(tags, tag, txt) >= 0 then FirstTag(tags, tag, txt)
      else if tag == JStr(txt.lower(Strip(t))) then |tags| else -1
  {
    assert (tags + [t])[..|tags|] == tags;
  }

  /** The tag of this turn joins the list. */
  lemma JoinNext(base: seq<Json>, before: seq<Json>, tags: seq<string>, t: string, txt: Texts)
    requires Joins(base, before, tags, txt)
    requires txt.lower(Strip(t)) != "" && JStr(txt.lower(Strip(t))) !in before
    ensures Joins(base, before + [JStr(txt.lower(Strip(t)))], tags + [t], txt)
  {
    var tag := JStr(txt.lower(Strip(t)));
    var after, all := before + [tag], tags + [t];
    NewTagIsFirst(base, before, tags, t, txt);
    forall v | v in base ensures v in before { }
    forall i | 0 <= i < |before| ensures FirstTag(all, after[i], txt) == FirstTag(tags, after[i], txt) || i < |base| {
      FirstTagNext(tags, t, before[i], txt);
    }
    forall s | s in all && txt.lower(Strip(s)) != "" ensures JStr(txt.lower(Strip(s))) in after {
      assert s in tags || s == t;
      assert after[|before|] == tag;
    }
  }

  lemma NewTagIsFirst(base: seq<Json>, before: seq<Json>, tags: seq<string>, t: string, txt: Texts)
    requires Joins(base, before, tags, txt)
    requires txt.lower(Strip(t)) != "" && JStr(txt.lower(Strip(t))) !in before
    ensures FirstTag(tags + [t], JStr(txt.lower(Strip(t))), txt) == |tags|
  {
    var tag := JStr(txt.lower(Strip(t)));
    FirstTagNext(tags, t, tag, txt);
    forall j | 0 <= j < |tags| ensures tag != JStr(txt.lower(Strip(tags[j]))) {
      assert tags[j] in tags;
    }
  }

  /** A blank or known tag leaves the list alone. */
  lemma JoinSame(base: seq<Json>, before: seq<Json>, tags: seq<string>, t: string, txt: Texts)
    requires Joins(base, before, tags, txt)
    requires txt.lower(Strip(t)) == "" || JStr(txt.lower(Strip(t))) in before
    ensures Joins(base, before, tags + [t], txt)
  {
    forall i | |base| <= i < |before| ensures FirstTag(tags + [t], before[i], txt) == FirstTag(tags, before[i], txt) {
      FirstTagNext(tags, t, before[i], txt);
    }
    forall s | s in tags + [t] ensures s in tags || s == t { }
  }

  lemma {:induction false} AddTagsJoins(base: seq<Json>, tags: seq<string>, txt: Texts)
    ensures Joins(base, AddTags(base, tags, txt), tags, txt)
    decreases |tags|
  {
    if tags != [] {
      var n := |tags| - 1;
      var before := AddTags(base, tags[..n], txt);
      AddTagsJoins(base, tags[..n], txt);
      assert tags == tags[..n] + [tags[n]];
      if txt.lower(Strip(tags[n])) == "" || JStr(txt.lower(Strip(tags[n]))) in before {
        JoinSame(base, before, tags[..n], tags[n], txt);
      } else {
        JoinNext(base, before, tags[..n], tags[n], txt);
      }
    }
  }

  // ---------- the patch ----------

  /** The patch raises exactly if there are tags to join a list that holds a list or an object. */
  ghost predicate Raises(data: Data, x: Extraction) {
    x.tags != [] && exists v :: v in BaseTags(data, x.updates) && (v.JList? || v.JObject?)
  }

  lemma RaisesExactly(data: Data, x: Extraction, txt: Texts)
    ensures PatchOf(data, x, txt).None? <==> Raises(data, x)
  {
    MergeGivesWanted(data, x.updates, "tags");
    var list := BaseTags(data, x.updates);
    assert TagList(MergeUpdates(data, x.updates).data) == list;
    if !Hashable(list) {
      var i :| 0 <= i < |list| && (list[i].JList? || list[i].JObject?);
      assert list[i] in list;
    }
  }

  /** Every field but the tags has the wanted value, and the tags are the wanted ones joined by the new. */
  ghost predicate Stores(data: Data, after: Data, x: Extraction, txt: Texts) {
    && (forall key :: (key != "tags" || x.tags == []) ==> Lookup(after, key) == Wanted(data, x.updates, key))
    && (forall key :: (key != "tags" || x.tags == []) ==>
          (key in after <==> key in data || Wanted(data, x.updates, key) != JNull))
    && (x.tags != [] ==> Joins(BaseTags(data, x.updates), BaseTags(after, []), x.tags, txt))
  }

  /** Unless the patch raises, the contact then holds every update that is not protected, and every tag. */
  lemma PatchStores(data: Data, x: Extraction, txt: Texts)
    requires DictItems(x.updates)
    ensures if Raises(data, x) then DataAfter(data, x, txt) == data else Stores(data, DataAfter(data, x, txt), x, txt)
  {
    RaisesExactly(data, x, txt);
    if !Raises(data, x) {
      MergeUnchanged(data, x.updates);
      MergeIsWanted(data, x.updates);
      AddTagsJoins(BaseTags(data, x.updates), x.tags, txt);
      if x.tags != [] {
        TagsAreJoined(data, x, txt);
      }
    }
  }

  lemma MergeIsWanted(data: Data, updates: seq<Update>)
    requires DictItems(updates)
    ensures var merged := MergeUpdates(data, updates).data;
      forall key :: Lookup(merged, key) == Wanted(data, updates, key)
                    && (key in merged <==> key in data || Wanted(data, updates, key) != JNull)
  {
    forall key
      ensures var merged := MergeUpdates(data, updates).data;
        Lookup(merged, key) == Wanted(data, updates, key)
        && (key in merged <==> key in data || Wanted(data, updates, key) != JNull)
    {
      MergeGivesWanted(data, updates, key);
      MergePresence(data, updates, key);
    }
  }

  lemma TagsAreJoined(data: Data, x: Extraction, txt: Texts)
    requires x.tags != [] && !Raises(data, x)
    ensures BaseTags(DataAfter(data, x, txt), []) == AddTags(BaseTags(data, x.updates), x.tags, txt)
  {
    RaisesExactly(data, x, txt);
    MergeUnchanged(data, x.updates);
    MergeGivesWanted(data, x.updates, "tags");
  }

  // ---------- the contact's row ----------

  /** A row that an application finds: known, of the tenant, and with something to apply. */
  ghost predicate Finds(rows: seq<Resource>, i: nat, tenantId: string, contactId: string, x: Extraction) {
    && i < |rows| && rows[i].id == contactId && rows[i].tenantId == tenantId
    && !(x.updates == [] && x.tasks == [] && x.tags == [] && x.stage.None?)
  }

  /** Unknown and foreign contacts, empty extractions, and patches that raise: nothing is written. */
  lemma NothingToApply(rows: seq<Resource>, tenantId: string, contactId: string, x: Extraction, txt: Texts, now: int,
                       mints: Mints)
    requires |mints.tasks| == |x.tasks| && DistinctIds(rows)
    requires forall i: nat :: Finds(rows, i, tenantId, contactId, x) ==> Raises(rows[i].data, x)
    ensures ApplyAfter(rows, tenantId, contactId, x, txt, now, mints) == rows
  {
    if Reaches(rows, tenantId, contactId, x) {
      var i := IndexOfId(rows, contactId);
      assert Finds(rows, i, tenantId, contactId, x);
      RaisesExactly(rows[i].data, x, txt);
    }
  }

  /** Otherwise the contact, in its place, holds what the extraction says, with a new time stamp if it changed. */
  lemma ApplyStores(rows: seq<Resource>, i: nat, tenantId: string, x: Extraction, txt: Texts, now: int, mints: Mints)
    requires DistinctIds(rows) && DictItems(x.updates) && |mints.tasks| == |x.tasks| && FreshFor(rows, mints)
    requires i < |rows| && Finds(rows, i, tenantId, rows[i].id, x) && !Raises(rows[i].data, x)
    requires rows[i].sourceId.None?
    ensures var after := ApplyAfter(rows, tenantId, rows[i].id, x, txt, now, mints);
      && i < |after| && Stores(rows[i].data, after[i].data, x, txt)
      && after[i] == rows[i].(data := after[i].data, updatedAt := after[i].updatedAt)
      && after[i].updatedAt == (if after[i].data == rows[i].data then after[i].updatedAt else now)
  {
    OwnIndex(rows, i);
    RaisesExactly(rows[i].data, x, txt);
    PatchStores(rows[i].data, x, txt);
    FirstApply(rows, i, tenantId, x, txt, now, mints);
    ApplyShape(rows, i, tenantId, x, txt, now, mints);
    PatchShape(rows, i, x, txt, now);
  }

  lemma OwnIndex(rows: seq<Resource>, i: nat)
    requires DistinctIds(rows) && i < |rows|
    ensures IndexOfId(rows, rows[i].id) == i
  {
    assert rows[i] in rows;
  }

  // ---------- tasks ----------

  /** A title is cut to two hundred characters once stripped. */
  ghost predicate IsTitle(title: string, task: Task) {
    title <= Strip(task.title) && |title| <= 200 && (|title| < 200 ==> title == Strip(task.title))
  }

  /** The row of one task: open, by the extractor, with the due date and priority that are given. */
  ghost predicate SaysTask(r: Resource, task: Task, tenantId: string, contactId: string, txt: Texts, mint: Mint) {
    && r.id == mint.id && r.createdAt == mint.at && r.tenantId == tenantId && r.kind == "task" && r.status == "active"
    && IsTitle(r.summary, task) && r.summary != ""
    && r.externalId == Some("task:" + contactId + ":" + TitleKey(r.summary, txt))
    && Lookup(r.data, "title") == JStr(r.summary)
    && Lookup(r.data, "contact_id") == JStr(contactId)
    && Lookup(r.data, "status") == JStr("open")
    && Lookup(r.data, "source") == JStr("llm-extractor")
    && Lookup(r.data, "auto") == JBool(true)
    && Lookup(r.data, "due_at") == (if task.dueAt != "" then JStr(task.dueAt) else JNull)
    && Lookup(r.data, "priority") == (if task.priority != "" then JStr(task.priority) else JNull)
  }

  /** Row `r` was made of task `k`, the first of the batch with its key. */
  ghost predicate MadeOf(r: Resource, tasks: seq<Task>, k: nat, tenantId: string, contactId: string, txt: Texts,
                         mints: seq<Mint>) {
    && k < |tasks| && k < |mints| && SaysTask(r, tasks[k], tenantId, contactId, txt, mints[k])
    && forall j :: 0 <= j < k ==> !Titled(tasks[j], RowKey(r, txt), txt)
  }

  ghost predicate AllMade(rows: seq<Resource>, tasks: seq<Task>, tenantId: string, contactId: string, txt: Texts,
                          mints: seq<Mint>) {
    forall r :: r in rows ==> exists k :: MadeOf(r, tasks, k, tenantId, contactId, txt, mints)
  }

  lemma TaskRowSays(task: Task, tenantId: string, contactId: string, txt: Texts, mint: Mint)
    requires TitleOf(task) != ""
    ensures SaysTask(TaskRow(task, tenantId, contactId, txt, mint), task, tenantId, contactId, txt, mint)
  {
  }

  lemma MadeOfPrefix(r: Resource, tasks: seq<Task>, k: nat, n: nat, tenantId: string, contactId: string, txt: Texts,
                     mints: seq<Mint>)
    requires n <= |tasks| && |mints| == |tasks|
    requires MadeOf(r, tasks[..n], k, tenantId, contactId, txt, mints[..n])
    ensures MadeOf(r, tasks, k, tenantId, contactId, txt, mints)
  {
    assert forall j :: 0 <= j < n ==> tasks[..n][j] == tasks[j] && mints[..n][j] == mints[j];
  }

  lemma {:induction false} AddedAreMade(st: TaskState, tenantId: string, contactId: string, tasks: seq<Task>,
                                        txt: Texts, mints: seq<Mint>)
    requires |mints| == |tasks|
    ensures AllMade(Added(st, tenantId, contactId, tasks, txt, mints), tasks, tenantId, contactId, txt, mints)
    decreases |tasks|
  {
    if tasks != [] {
      var n := |tasks| - 1;
      var before := Added(st, tenantId, contactId, tasks[..n], txt, mints[..n]);
      AddedAreMade(st, tenantId, contactId, tasks[..n], txt, mints[..n]);
      forall r | r in before ensures exists k :: MadeOf(r, tasks, k, tenantId, contactId, txt, mints) {
        var k :| MadeOf(r, tasks[..n], k, tenantId, contactId, txt, mints[..n]);
        MadeOfPrefix(r, tasks, k, n, tenantId, contactId, txt, mints);
      }
      if Writes(WriteTasks(st, tenantId, contactId, tasks[..n], txt, mints[..n]), tasks[n], txt) {
        LastIsMade(st, tenantId, contactId, tasks, txt, mints);
      }
    }
  }

  /** A task is written only if no earlier one has its key. */
  lemma LastIsMade(st: TaskState, tenantId: string, contactId: string, tasks: seq<Task>, txt: Texts, mints: seq<Mint>)
    requires |mints| == |tasks| > 0
    requires var n := |tasks| - 1;
      Writes(WriteTasks(st, tenantId, contactId, tasks[..n], txt, mints[..n]), tasks[n], txt)
    ensures var n := |tasks| - 1;
      MadeOf(TaskRow(tasks[n], tenantId, contactId, txt, mints[n]), tasks, n, tenantId, contactId, txt, mints)
  {
    var n := |tasks| - 1;
    var r := TaskRow(tasks[n], tenantId, contactId, txt, mints[n]);
    TaskRowSays(tasks[n], tenantId, contactId, txt, mints[n]);
    TaskRowIsOpen(tasks[n], tenantId, contactId, txt, mints[n]);
    BatchIsKnown(st, tenantId, contactId, tasks[..n], txt, mints[..n]);
    forall j | 0 <= j < n ensures !Titled(tasks[j], RowKey(r, txt), txt) {
      assert tasks[..n][j] in tasks[..n];
    }
  }

  /** Every row a batch adds is made of one of its tasks, and says what that task says. */
  lemma AddedTasksSay(rows: seq<Resource>, tenantId: string, contactId: string, tasks: seq<Task>, txt: Texts,
                      mints: seq<Mint>) returns (added: seq<Resource>)
    requires |mints| == |tasks| && FreshMints(rows, mints)
    ensures TasksAfter(rows, tenantId, contactId, tasks, txt, mints) == rows + added
    ensures AllMade(added, tasks, tenantId, contactId, txt, mints)
  {
    var st := TaskState(rows, SeenKeys(rows, tenantId, contactId, txt));
    added := Added(st, tenantId, contactId, tasks, txt, mints);
    BatchAppends(st, tenantId, contactId, tasks, txt, mints);
    AddedAreMade(st, tenantId, contactId, tasks, txt, mints);
  }

  /** The open tasks of a contact: active task rows of the tenant that point to it, are open and have a title. */
  lemma OpenTasksExactly(rows: seq<Resource>, tenantId: string, contactId: string, txt: Texts, r: Resource)
    ensures r in OpenTasks(rows, tenantId, contactId, txt) <==>
      && r in rows && r.tenantId == tenantId && r.kind == "task" && r.status == "active"
      && Lookup(r.data, "contact_id") == JStr(contactId) && Lookup(r.data, "status") == JStr("open")
      && "title" in r.data && r.data["title"] != JStr("")
      && (!r.data["title"].JStr? ==> txt.show(r.data["title"]) != "")
  {
    FilterIn(rows, Listed(tenantId, Some(TASK)), r);
  }

  // ---------- what makes two titles the same ----------

  /** Words are what white space leaves. */
  function Solid(): TsQuery.Letters {
    TsQuery.Letters((c: char) => !IsSpace(c), (c: char) => c)
  }

  function Blank(gap: string): string {
    if gap == "" then "" else " "
  }

  function Blanks(gaps: seq<string>): seq<string> {
    seq(|gaps|, i requires 0 <= i < |gaps| => Blank(gaps[i]))
  }

  lemma CollapseNext(s: string, c: char)
    ensures Collapse(s + [c]) ==
      if !IsSpace(c) then Collapse(s) + [c]
      else if Collapse(s) != "" && Collapse(s)[|Collapse(s)| - 1] == ' ' then Collapse(s)
      else Collapse(s) + " "
  {
    assert (s + [c])[..|s|] == s;
  }

  lemma {:induction false} CollapseWord(s: string, word: string)
    requires TsQuery.AllWord(word, Solid())
    ensures Collapse(s + word) == Collapse(s) + word
    decreases |word|
  {
    if word == "" {
      assert s + word == s;
    } else {
      var n := |word| - 1;
      assert word == word[..n] + [word[n]];
      CollapseWord(s, word[..n]);
      assert s + word == s + word[..n] + [word[n]];
      CollapseNext(s + word[..n], word[n]);
    }
  }

  /** White space after something that does not end in white space becomes one blank. */
  lemma {:induction false} CollapseGap(s: string, gap: string)
    requires TsQuery.NoWord(gap, Solid())
    requires Collapse(s) == "" || !IsSpace(Collapse(s)[|Collapse(s)| - 1])
    ensures Collapse(s + gap) == Collapse(s) + Blank(gap)
    decreases |gap|
  {
    if gap == "" {
      assert s + gap == s;
    } else {
      var n := |gap| - 1;
      assert gap == gap[..n] + [gap[n]];
      CollapseGap(s, gap[..n]);
      assert s + gap == s + gap[..n] + [gap[n]];
      CollapseNext(s + gap[..n], gap[n]);
    }
  }

  lemma BlanksFront(gaps: seq<string>, n: nat)
    requires n < |gaps|
    ensures Blanks(gaps)[..n] == Blanks(gaps[..n]) && Blanks(gaps)[n] == Blank(gaps[n])
  {
  }

  lemma CollapseLast(before: string, word: string, gap: string)
    requires word != "" && TsQuery.AllWord(word, Solid()) && TsQuery.NoWord(gap, Solid())
    ensures Collapse(before + word + gap) == Collapse(before) + word + Blank(gap)
  {
    CollapseWord(before, word);
    var mid := Collapse(before) + word;
    assert mid[|mid| - 1] == word[|word| - 1];
    CollapseGap(before + word, gap);
  }

  lemma {:induction false} CollapseOfSpaced(lead: string, words: seq<string>, gaps: seq<string>)
    requires TsQuery.Separated(lead, words, gaps, Solid())
    ensures Collapse(TsQuery.Spaced(lead, words, gaps)) == TsQuery.Spaced(Blank(lead), words, Blanks(gaps))
    decreases |words|
  {
    if words == [] {
      CollapseGap("", lead);
      assert "" + lead == lead;
    } else {
      var n := |words| - 1;
      CollapseOfSpaced(lead, words[..n], gaps[..n]);
      CollapseLast(TsQuery.Spaced(lead, words[..n], gaps[..n]), words[n], gaps[n]);
      BlanksFront(gaps, n);
    }
  }

  /**
   * Titles are compared by their words: the key keeps the words of the stripped, lower-cased title and
   * puts one blank for any white space between them.
   */
  lemma KeyKeepsWords(title: string, txt: Texts) returns (lead: string, words: seq<string>, gaps: seq<string>)
    ensures TsQuery.Separated(lead, words, gaps, Solid())
    ensures TsQuery.Spaced(lead, words, gaps) == txt.lower(Strip(title))
    ensures TitleKey(title, txt) == TsQuery.Spaced(Blank(lead), words, Blanks(gaps))
  {
    lead, words, gaps := TsQuery.EveryTextIsSpaced(txt.lower(Strip(title)), Solid());
    CollapseOfSpaced(lead, words, gaps);
  }

  // ---------- the breadcrumb ----------

  ghost predicate SaysStage(r: Resource, stage: Stage, tenantId: string, contactId: string, now: int, mint: Mint) {
    && r.id == mint.id && r.createdAt == mint.at && r.tenantId == tenantId && r.kind == "activity"
    && r.status == "active" && r.externalId == Some("stage:" + contactId + ":" + stage.toStage)
    && r.summary == StageText(stage) && StageData(r.data, stage, contactId, now)
  }

  function StageText(stage: Stage): string {
    "Stage " + (if stage.fromStage != "" then stage.fromStage + " " else "") + "\U{2192} " + stage.toStage
  }

  ghost predicate StageData(data: Data, stage: Stage, contactId: string, now: int) {
    && Lookup(data, "type") == JStr("stage_transition")
    && Lookup(data, "contact_id") == JStr(contactId)
    && Lookup(data, "from") == (if stage.fromStage != "" then JStr(stage.fromStage) else JNull)
    && Lookup(data, "to") == JStr(stage.toStage)
    && Lookup(data, "reason") == stage.reason
    && Lookup(data, "at") == JTime(now)
    && Lookup(data, "source") == JStr("llm-extractor")
    && Lookup(data, "auto") == JBool(true)
  }

  /**
   * What an application adds: rows made of its tasks, and last of all, exactly if there is a stage
   * transition, the row that tells it.
   */
  lemma ApplyAdds(rows: seq<Resource>, i: nat, tenantId: string, x: Extraction, txt: Texts, now: int, mints: Mints)
    returns (tasks: seq<Resource>, crumb: seq<Resource>)
    requires DistinctIds(rows) && |mints.tasks| == |x.tasks| && FreshFor(rows, mints)
    requires i < |rows| && Finds(rows, i, tenantId, rows[i].id, x) && !Raises(rows[i].data, x)
    requires rows[i].sourceId.None?
    ensures var after := ApplyAfter(rows, tenantId, rows[i].id, x, txt, now, mints);
      && |rows| <= |after| && after[|rows|..] == tasks + crumb
      && (forall k :: 0 <= k < |rows| && k != i ==> after[k] == rows[k])
    ensures AllMade(tasks, x.tasks, tenantId, rows[i].id, txt, mints.tasks)
    ensures |crumb| == (if x.stage.Some? then 1 else 0)
    ensures x.stage.Some? ==> SaysStage(crumb[0], x.stage.value, tenantId, rows[i].id, now, mints.stage)
  {
    OwnIndex(rows, i);
    RaisesExactly(rows[i].data, x, txt);
    ApplyShape(rows, i, tenantId, x, txt, now, mints);
    PatchShape(rows, i, x, txt, now);
    var patched := PatchRows(rows, rows[i], x, txt, now).value;
    tasks := AddedTasksSay(patched, tenantId, rows[i].id, x.tasks, txt, mints.tasks);
    crumb := Breadcrumb(tenantId, rows[i].id, x, now, mints);
    TasksShape(patched, tenantId, rows[i].id, x, txt, mints);
    SameTail(patched, tasks, AddedTo(patched, tenantId, rows[i].id, x, txt, mints));
    PatchedFirst(patched, tasks, crumb);
    StageSays(tenantId, rows[i].id, x, now, mints);
  }

  lemma SameTail(front: seq<Resource>, a: seq<Resource>, b: seq<Resource>)
    requires front + a == front + b
    ensures a == b
  {
    assert (front + a)[|front|..] == a && (front + b)[|front|..] == b;
  }

  lemma PatchedFirst(patched: seq<Resource>, tasks: seq<Resource>, crumb: seq<Resource>)
    ensures var after := patched + tasks + crumb;
      after[|patched|..] == tasks + crumb && forall k :: 0 <= k < |patched| ==> after[k] == patched[k]
  {
  }

  lemma StageTextIs(stage: Stage, tenantId: string, contactId: string, now: int, mint: Mint)
    ensures StageRow(stage, tenantId, contactId, now, mint).summary == StageText(stage)
  {
    if stage.fromStage != "" {
      assert "Stage " + stage.fromStage + " \U{2192} " + stage.toStage
          == "Stage " + (stage.fromStage + " ") + "\U{2192} " + stage.toStage;
    } else {
      assert "Stage \U{2192} " + stage.toStage == "Stage " + "" + "\U{2192} " + stage.toStage;
    }
  }

  lemma StageDataIs(stage: Stage, tenantId: string, contactId: string, now: int, mint: Mint)
    ensures StageData(StageRow(stage, tenantId, contactId, now, mint).data, stage, contactId, now)
  {
  }

  lemma StageSays(tenantId: string, contactId: string, x: Extraction, now: int, mints: Mints)
    ensures var crumb := Breadcrumb(tenantId, contactId, x, now, mints);
      && |crumb| == (if x.stage.Some? then 1 else 0)
      && (x.stage.Some? ==> SaysStage(crumb[0], x.stage.value, tenantId, contactId, now, mints.stage))
  {
    if x.stage.Some? {
      StageTextIs(x.stage.value, tenantId, contactId, now, mints.stage);
      StageDataIs(x.stage.value, tenantId, contactId, now, mints.stage);
    }
  }
}
