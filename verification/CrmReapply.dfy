/** Applying an extraction again: what stays the same, and the one thing that does not. */
module CrmReapply {
  import opened Common
  import opened Resources
  import opened CrmRecorder
  import opened CrmExtractor

  // ---------- contact data ----------

  lemma {:induction false} MergeMiss(data: Data, updates: seq<Update>, key: string)
    requires forall u :: u in updates && u.key == key ==> key in PROTECTED
    ensures var after := MergeUpdates(data, updates).data;
      (key in after <==> key in data) && (key in data ==> after[key] == data[key])
    decreases |updates|
  {
    if updates != [] {
      var n := |updates| - 1;
      assert updates[n] in updates;
      MergeMiss(data, updates[..n], key);
    }
  }

  lemma {:induction false} MergeHit(data: Data, updates: seq<Update>, i: nat)
    requires DictItems(updates) && i < |updates| && updates[i].key !in PROTECTED
    ensures var after := MergeUpdates(data, updates).data;
      && Lookup(after, updates[i].key) == updates[i].value
      && (Lookup(data, updates[i].key) == updates[i].value ==>
            (updates[i].key in after <==> updates[i].key in data))
    decreases |updates|
  {
    var n := |updates| - 1;
    if i < n {
      MergeHit(data, updates[..n], i);
    } else {
      MergeMiss(data, updates[..n], updates[n].key);
    }
  }

  lemma {:induction false} MergeUnchanged(data: Data, updates: seq<Update>)
    ensures !MergeUpdates(data, updates).changed ==> MergeUpdates(data, updates).data == data
    decreases |updates|
  {
    if updates != [] {
      MergeUnchanged(data, updates[..|updates| - 1]);
    }
  }

  /** Fields already at their value, or protected, are left alone. */
  lemma MergeKeepsSettled(data: Data, updates: seq<Update>, key: string)
    requires DictItems(updates)
    requires forall u :: u in updates && u.key == key ==> Skipped(data, u)
    ensures var after := MergeUpdates(data, updates).data;
      (key in after <==> key in data) && (key in data ==> after[key] == data[key])
  {
    if i :| 0 <= i < |updates| && updates[i].key == key && key !in PROTECTED {
      assert updates[i] in updates;
      MergeHit(data, updates, i);
    } else {
      MergeMiss(data, updates, key);
    }
  }

  lemma MergeSettles(data: Data, updates: seq<Update>, u: Update)
    requires DictItems(updates) && u in updates
    ensures Skipped(MergeUpdates(data, updates).data, u)
  {
    var i :| 0 <= i < |updates| && updates[i] == u;
    if u.key !in PROTECTED {
      MergeHit(data, updates, i);
    }
  }

  lemma {:induction false} TagsSettled(list: seq<Json>, tags: seq<string>, txt: Texts)
    requires forall t :: t in tags && TagText(t, txt) != "" ==> JStr(TagText(t, txt)) in list
    ensures AddTags(list, tags, txt) == list
    decreases |tags|
  {
    if tags != [] {
      var n := |tags| - 1;
      assert tags[n] in tags;
      TagsSettled(list, tags[..n], txt);
    }
  }

  lemma TagsTwice(list: seq<Json>, tags: seq<string>, txt: Texts)
    ensures AddTags(AddTags(list, tags, txt), tags, txt) == AddTags(list, tags, txt)
  {
    TagsOnlyGrow(list, tags, txt);
    TagsSettled(AddTags(list, tags, txt), tags, txt);
  }

  /** Merging into the patched data can only disturb the tags. */
  lemma MergeIntoPatched(data: Data, updates: seq<Update>, tags: Json)
    requires DictItems(updates)
    ensures var first := MergeUpdates(data, updates).data["tags" := tags];
      var second := MergeUpdates(first, updates).data;
      && second["tags" := tags] == first
      && ((exists u :: u in updates && u.key == "tags") ==>
            Lookup(second, "tags") == Lookup(MergeUpdates(data, updates).data, "tags"))
      && (!(exists u :: u in updates && u.key == "tags") ==> Lookup(second, "tags") == tags)
  {
    var merged := MergeUpdates(data, updates).data;
    var first := merged["tags" := tags];
    var second := MergeUpdates(first, updates).data;
    forall key | key != "tags"
      ensures (key in second <==> key in first) && (key in first ==> second[key] == first[key])
    {
      forall u | u in updates && u.key == key ensures Skipped(first, u) {
        MergeSettles(data, updates, u);
      }
      MergeKeepsSettled(first, updates, key);
    }
    assert second["tags" := tags] == first;
    if u :| u in updates && u.key == "tags" {
      MergeSettles(data, updates, u);
      MergeSettles(first, updates, u);
    } else {
      MergeMiss(first, updates, "tags");
    }
  }

  lemma MergeTwice(data: Data, updates: seq<Update>)
    requires DictItems(updates)
    ensures MergeUpdates(MergeUpdates(data, updates).data, updates).data == MergeUpdates(data, updates).data
  {
    var first := MergeUpdates(data, updates).data;
    forall key
      ensures var second := MergeUpdates(first, updates).data;
        (key in second <==> key in first) && (key in first ==> second[key] == first[key])
    {
      forall u | u in updates && u.key == key ensures Skipped(first, u) {
        MergeSettles(data, updates, u);
      }
      MergeKeepsSettled(first, updates, key);
    }
  }

  /** Which tags the second application reads, and that it leaves them so. */
  lemma TagsAgain(data: Data, x: Extraction, txt: Texts)
    requires DictItems(x.updates) && x.tags != []
    requires Hashable(TagList(MergeUpdates(data, x.updates).data))
    ensures var merged := MergeUpdates(data, x.updates).data;
      var tags := JList(AddTags(TagList(merged), x.tags, txt));
      var second := MergeUpdates(merged["tags" := tags], x.updates).data;
      && second["tags" := tags] == merged["tags" := tags]
      && Hashable(TagList(second))
      && AddTags(TagList(second), x.tags, txt) == tags.items
  {
    var merged := MergeUpdates(data, x.updates).data;
    var list := TagList(merged);
    TagsOnlyGrow(list, x.tags, txt);
    TagsTwice(list, x.tags, txt);
    MergeIntoPatched(data, x.updates, JList(AddTags(list, x.tags, txt)));
  }

  lemma PatchWithTagsIsIdempotent(data: Data, x: Extraction, txt: Texts)
    requires DictItems(x.updates) && x.tags != [] && PatchOf(data, x, txt).Some?
    ensures PatchOf(PatchOf(data, x, txt).value.data, x, txt).Some?
    ensures PatchOf(PatchOf(data, x, txt).value.data, x, txt).value.data == PatchOf(data, x, txt).value.data
  {
    TagsAgain(data, x, txt);
  }

  /** The patch of an extraction, whatever it sets and whatever was stored, settles in one application. */
  lemma PatchIsIdempotent(data: Data, x: Extraction, txt: Texts)
    requires DictItems(x.updates)
    ensures DataAfter(DataAfter(data, x, txt), x, txt) == DataAfter(data, x, txt)
    ensures PatchOf(DataAfter(data, x, txt), x, txt).Some? == PatchOf(data, x, txt).Some?
  {
    if PatchOf(data, x, txt).Some? {
      if x.tags == [] {
        MergeTwice(data, x.updates);
      } else {
        PatchWithTagsIsIdempotent(data, x, txt);
      }
    }
  }

  /** Phone, source, counters and time stamps survive every extraction. */
  lemma ProtectedFieldsSurvive(data: Data, x: Extraction, txt: Texts, key: string)
    requires key in PROTECTED
    ensures var after := DataAfter(data, x, txt);
      (key in after <==> key in data) && (key in data ==> after[key] == data[key])
  {
    MergeMiss(data, x.updates, key);
  }

  /** The later tags are non-empty, normalised, and new when they come. */
  ghost predicate GainsCleanTags(before: seq<Json>, after: seq<Json>, tags: seq<string>, txt: Texts) {
    && before <= after
    && forall j :: |before| <= j < |after| ==>
         && after[j].JStr? && after[j].text != "" && after[j] !in after[..j]
         && exists t :: t in tags && after[j].text == TagText(t, txt)
  }

  /**
   * Unless the updates set the tags themselves, the old tags stay and only clean new ones follow; a
   * contact that never had tags counts as one with none.
   */
  lemma TagsGainOnlyNewMembers(data: Data, x: Extraction, txt: Texts)
    requires forall u :: u in x.updates ==> u.key != "tags"
    requires "tags" !in data || data["tags"].JList?
    ensures var after := DataAfter(data, x, txt);
      && ("tags" in data ==> "tags" in after)
      && ("tags" in after ==> after["tags"].JList?)
      && GainsCleanTags(TagList(data), TagList(after), x.tags, txt)
  {
    MergeMiss(data, x.updates, "tags");
    TagsOnlyGrow(TagList(data), x.tags, txt);
  }

  lemma {:induction false} ChangedExactly(data: Data, updates: seq<Update>)
    ensures MergeUpdates(data, updates).changed <==> exists u :: u in updates && !Skipped(data, u)
    decreases |updates|
  {
    if updates != [] {
      var front, last := updates[..|updates| - 1], updates[|updates| - 1];
      assert updates == front + [last];
      ChangedExactly(data, front);
      MergeUnchanged(data, front);
      assert last in updates;
      if u :| u in front && !Skipped(data, u) {
        assert u in updates;
      }
    }
  }

  /** What the contact had under `tags` is still there: the list as a start of the new one, or the same value. */
  ghost predicate OldTagsStay(data: Data, after: Data) {
    "tags" in data ==>
      && "tags" in after
      && if data["tags"].JList? then after["tags"].JList? && TagList(data) <= TagList(after)
         else after["tags"] == data["tags"]
  }

  /** Nothing to tag, or nothing to write: all updates are skipped and all tags are blank. */
  ghost predicate LeavesTags(data: Data, x: Extraction, txt: Texts) {
    x.tags == [] ||
    ((forall u :: u in x.updates ==> Skipped(data, u)) && forall t :: t in x.tags ==> TagText(t, txt) == "")
  }

  lemma NoListMeansFresh(data: Data, x: Extraction, txt: Texts)
    requires forall u :: u in x.updates ==> u.key != "tags"
    requires "tags" in data && !data["tags"].JList?
    ensures var after := DataAfter(data, x, txt);
      if LeavesTags(data, x, txt) then "tags" in after && after["tags"] == data["tags"]
      else "tags" in after && after["tags"] == JList(AddTags([], x.tags, txt))
  {
    MergeMiss(data, x.updates, "tags");
    ChangedExactly(data, x.updates);
    TagsOnlyGrow([], x.tags, txt);
    assert TagList(data) == [] && Hashable([]);
    var tags := AddTags([], x.tags, txt);
    if tags != [] {
      assert tags[0].text != "";
    }
  }

  /**
   * A stored value that is no list is replaced by the new list as soon as the extraction has tags and
   * anything is written. So the old tags stay exactly if there are none, they are a list, or the
   * extraction leaves the tags alone.
   */
  lemma OldTagsStayExactly(data: Data, x: Extraction, txt: Texts)
    requires forall u :: u in x.updates ==> u.key != "tags"
    ensures OldTagsStay(data, DataAfter(data, x, txt)) <==>
      "tags" !in data || data["tags"].JList? || LeavesTags(data, x, txt)
  {
    if "tags" !in data || data["tags"].JList? {
      TagsGainOnlyNewMembers(data, x, txt);
    } else {
      NoListMeansFresh(data, x, txt);
    }
  }

  // ---------- tasks ----------

  /** The rows one batch appends. */
  function Added(st: TaskState, tenantId: string, contactId: string, tasks: seq<Task>, txt: Texts,
                 mints: seq<Mint>): seq<Resource>
    requires |mints| == |tasks|
  {
    if tasks == [] then []
    else
      var n := |tasks| - 1;
      var before := Added(st, tenantId, contactId, tasks[..n], txt, mints[..n]);
      if Writes(WriteTasks(st, tenantId, contactId, tasks[..n], txt, mints[..n]), tasks[n], txt)
      then before + [TaskRow(tasks[n], tenantId, contactId, txt, mints[n])]
      else before
  }

  function RowKey(r: Resource, txt: Texts): string {
    TitleKey(ShownTitle(r, txt), txt)
  }

  lemma TaskRowIsOpen(task: Task, tenantId: string, contactId: string, txt: Texts, mint: Mint)
    ensures var r := TaskRow(task, tenantId, contactId, txt, mint);
      && Lookup(r.data, "contact_id") == JStr(contactId)
      && Lookup(r.data, "status") == JStr("open")
      && ShownTitle(r, txt) == TitleOf(task)
  {
  }

  /** `r` is an active open task of the contact, new to the keys known at the start. */
  ghost predicate NewTask(st: TaskState, r: Resource, tenantId: string, contactId: string, txt: Texts,
                          mints: seq<Mint>) {
    && r.kind == TASK && r.tenantId == tenantId && r.status == "active" && r.sourceId == None
    && IsOpenTask(r, contactId, txt) && RowKey(r, txt) !in st.keys
    && exists i :: 0 <= i < |mints| && r.id == mints[i].id
  }

  ghost predicate DistinctRowKeys(rows: seq<Resource>, txt: Texts) {
    forall i, j :: 0 <= i < j < |rows| ==> RowKey(rows[i], txt) != RowKey(rows[j], txt)
  }

  /** `after` is `st` with `added` appended, whose keys are pairwise different. */
  ghost predicate Appends(st: TaskState, after: TaskState, added: seq<Resource>, txt: Texts) {
    && after.rows == st.rows + added
    && DistinctRowKeys(added, txt)
    && after.keys == st.keys + RowKeys(added, txt)
  }

  ghost function RowKeys(rows: seq<Resource>, txt: Texts): set<string> {
    set r | r in rows :: RowKey(r, txt)
  }

  lemma RowKeysNext(rows: seq<Resource>, r: Resource, txt: Texts)
    ensures RowKeys(rows + [r], txt) == RowKeys(rows, txt) + {RowKey(r, txt)}
    ensures DistinctRowKeys(rows, txt) && RowKey(r, txt) !in RowKeys(rows, txt) ==> DistinctRowKeys(rows + [r], txt)
  {
    forall q | q in rows + [r] ensures q in rows || q == r { }
    forall q | q in rows || q == r ensures q in rows + [r] {
      assert (rows + [r])[|rows|] == r;
    }
  }

  lemma AppendOne(st: TaskState, before: TaskState, added: seq<Resource>, txt: Texts, r: Resource)
    requires Appends(st, before, added, txt) && RowKey(r, txt) !in before.keys
    requires KeyOf(r).None? && IndexOfId(before.rows, r.id) == -1
    ensures Appends(st, TaskState(UpsertRow(before.rows, r), before.keys + {RowKey(r, txt)}), added + [r], txt)
  {
    KeylessUpsert(before.rows, r);
    RowKeysNext(added, r, txt);
    assert st.rows + added + [r] == st.rows + (added + [r]);
  }

  /** A batch appends open tasks with new, pairwise different keys. */
  lemma {:induction false} BatchAppends(st: TaskState, tenantId: string, contactId: string, tasks: seq<Task>,
                                        txt: Texts, mints: seq<Mint>)
    requires |mints| == |tasks| && FreshMints(st.rows, mints)
    ensures var added := Added(st, tenantId, contactId, tasks, txt, mints);
      && Appends(st, WriteTasks(st, tenantId, contactId, tasks, txt, mints), added, txt)
      && forall r :: r in added ==> NewTask(st, r, tenantId, contactId, txt, mints)
    decreases |tasks|
  {
    if tasks != [] {
      var n := |tasks| - 1;
      BatchAppends(st, tenantId, contactId, tasks[..n], txt, mints[..n]);
      var before := WriteTasks(st, tenantId, contactId, tasks[..n], txt, mints[..n]);
      var added := Added(st, tenantId, contactId, tasks[..n], txt, mints[..n]);
      forall r | r in added ensures NewTask(st, r, tenantId, contactId, txt, mints) {
        var i :| 0 <= i < n && r.id == mints[..n][i].id;
        assert r.id == mints[i].id;
      }
      if Writes(before, tasks[n], txt) {
        var r := TaskRow(tasks[n], tenantId, contactId, txt, mints[n]);
        TaskRowIsOpen(tasks[n], tenantId, contactId, txt, mints[n]);
        forall x | x in before.rows ensures x.id != r.id {
          assert x in st.rows || NewTask(st, x, tenantId, contactId, txt, mints[..n]);
        }
        AppendOne(st, before, added, txt, r);
      }
    }
  }

  predicate Titled(t: Task, key: string, txt: Texts) {
    TitleOf(t) != "" && TitleKey(TitleOf(t), txt) == key
  }

  /** The key of a task is known after its turn, and nothing else changes. */
  lemma KeysNext(before: TaskState, t: Task, tenantId: string, contactId: string, txt: Texts, mint: Mint, key: string)
    ensures var after :=
        if Writes(before, t, txt) then
          TaskState(UpsertRow(before.rows, TaskRow(t, tenantId, contactId, txt, mint)),
                    before.keys + {TitleKey(TitleOf(t), txt)})
        else before;
      key in after.keys <==> key in before.keys || Titled(t, key, txt)
  {
  }

  lemma TitledNext(tasks: seq<Task>, key: string, txt: Texts)
    requires tasks != []
    ensures (exists t :: t in tasks && Titled(t, key, txt)) <==>
      (exists t :: t in tasks[..|tasks| - 1] && Titled(t, key, txt)) || Titled(tasks[|tasks| - 1], key, txt)
  {
    var front, last := tasks[..|tasks| - 1], tasks[|tasks| - 1];
    assert tasks == front + [last];
    if t :| t in tasks && Titled(t, key, txt) {
      assert t in front || t == last;
    }
  }

  /** Exactly the non-empty titles whose key was unknown are written; afterwards all keys are known. */
  lemma {:induction false} BatchIsKnown(st: TaskState, tenantId: string, contactId: string, tasks: seq<Task>,
                                        txt: Texts, mints: seq<Mint>)
    requires |mints| == |tasks|
    ensures var after := WriteTasks(st, tenantId, contactId, tasks, txt, mints);
      forall key :: key in after.keys <==> key in st.keys || exists t :: t in tasks && Titled(t, key, txt)
    decreases |tasks|
  {
    if tasks != [] {
      var n := |tasks| - 1;
      BatchIsKnown(st, tenantId, contactId, tasks[..n], txt, mints[..n]);
      var before := WriteTasks(st, tenantId, contactId, tasks[..n], txt, mints[..n]);
      var after := WriteTasks(st, tenantId, contactId, tasks, txt, mints);
      forall key ensures key in after.keys <==> key in st.keys || exists t :: t in tasks && Titled(t, key, txt) {
        KeysNext(before, tasks[n], tenantId, contactId, txt, mints[n], key);
        TitledNext(tasks, key, txt);
      }
    }
  }

  function ActiveTasks(rows: seq<Resource>, tenantId: string): seq<Resource> {
    Filter(rows, Listed(tenantId, Some(TASK)))
  }

  ghost function OpenTasks(rows: seq<Resource>, tenantId: string, contactId: string, txt: Texts): set<Resource> {
    set r | r in ActiveTasks(rows, tenantId) && IsOpenTask(r, contactId, txt)
  }

  /** Up to the listing limit every open task of the contact is seen. */
  lemma SeesAll(rows: seq<Resource>, tenantId: string, contactId: string, txt: Texts)
    requires |ActiveTasks(rows, tenantId)| <= LISTED_TASKS
    ensures SeenKeys(rows, tenantId, contactId, txt)
      == OpenKeys(ActiveTasks(rows, tenantId), contactId, txt)
  {
    var all := ActiveTasks(rows, tenantId);
    var listed := ListRows(rows, tenantId, Some(TASK), LISTED_TASKS);
    assert multiset(listed) == multiset(all);
    forall r ensures r in listed <==> r in all {
      assert r in multiset(listed) <==> r in multiset(all);
    }
  }

  /** No task is added whose key is already open for the contact, nor twice in one batch. */
  lemma NoSecondOpenTask(rows: seq<Resource>, tenantId: string, contactId: string, tasks: seq<Task>, txt: Texts,
                         mints: seq<Mint>)
    requires |mints| == |tasks| && FreshMints(rows, mints)
    requires |ActiveTasks(rows, tenantId)| <= LISTED_TASKS
    ensures var after := TasksAfter(rows, tenantId, contactId, tasks, txt, mints);
      && rows <= after
      && (forall j, r :: |rows| <= j < |after| && r in OpenTasks(rows, tenantId, contactId, txt)
            ==> RowKey(after[j], txt) != RowKey(r, txt))
      && (forall i, j :: |rows| <= i < j < |after| ==> RowKey(after[i], txt) != RowKey(after[j], txt))
  {
    var st := TaskState(rows, SeenKeys(rows, tenantId, contactId, txt));
    BatchAppends(st, tenantId, contactId, tasks, txt, mints);
    SeesAll(rows, tenantId, contactId, txt);
    var after := TasksAfter(rows, tenantId, contactId, tasks, txt, mints);
    var added := Added(st, tenantId, contactId, tasks, txt, mints);
    forall j, r | |rows| <= j < |after| && r in OpenTasks(rows, tenantId, contactId, txt)
      ensures RowKey(after[j], txt) != RowKey(r, txt)
    {
      assert after[j] == added[j - |rows|];
      assert added[j - |rows|] in added;
    }
    forall i, j | |rows| <= i < j < |after| ensures RowKey(after[i], txt) != RowKey(after[j], txt) {
      assert after[i] == added[i - |rows|] && after[j] == added[j - |rows|];
    }
  }

  /** Once every key of a batch is known, the batch writes nothing. */
  lemma {:induction false} KnownBatch(st: TaskState, tenantId: string, contactId: string, tasks: seq<Task>,
                                      txt: Texts, mints: seq<Mint>)
    requires |mints| == |tasks|
    requires forall t :: t in tasks && TitleOf(t) != "" ==> TitleKey(TitleOf(t), txt) in st.keys
    ensures WriteTasks(st, tenantId, contactId, tasks, txt, mints) == st
    decreases |tasks|
  {
    if tasks != [] {
      var n := |tasks| - 1;
      assert tasks[n] in tasks;
      KnownBatch(st, tenantId, contactId, tasks[..n], txt, mints[..n]);
    }
  }

  lemma ActiveIsOpenKey(rows: seq<Resource>, r: Resource, tenantId: string, contactId: string, txt: Texts)
    requires r in rows && Listed(tenantId, Some(TASK))(r) && IsOpenTask(r, contactId, txt)
    ensures RowKey(r, txt) in OpenKeys(ActiveTasks(rows, tenantId), contactId, txt)
  {
    FilterIn(rows, Listed(tenantId, Some(TASK)), r);
  }

  lemma OpenKeysGrow(rows: seq<Resource>, more: seq<Resource>, tenantId: string, contactId: string, txt: Texts)
    ensures |ActiveTasks(rows, tenantId)| <= |ActiveTasks(rows + more, tenantId)|
    ensures OpenKeys(ActiveTasks(rows, tenantId), contactId, txt)
      <= OpenKeys(ActiveTasks(rows + more, tenantId), contactId, txt)
  {
    FilterAppend(rows, more, Listed(tenantId, Some(TASK)));
  }

  /** After a batch its keys are all among the open ones. */
  lemma BatchBecomesKnown(rows: seq<Resource>, tenantId: string, contactId: string, tasks: seq<Task>, txt: Texts,
                          mints: seq<Mint>)
    requires |mints| == |tasks| && FreshMints(rows, mints)
    requires |ActiveTasks(TasksAfter(rows, tenantId, contactId, tasks, txt, mints), tenantId)| <= LISTED_TASKS
    ensures var after := TasksAfter(rows, tenantId, contactId, tasks, txt, mints);
      forall t :: t in tasks && TitleOf(t) != "" ==>
        TitleKey(TitleOf(t), txt) in OpenKeys(ActiveTasks(after, tenantId), contactId, txt)
  {
    var st := TaskState(rows, SeenKeys(rows, tenantId, contactId, txt));
    var after := TasksAfter(rows, tenantId, contactId, tasks, txt, mints);
    var added := Added(st, tenantId, contactId, tasks, txt, mints);
    BatchAppends(st, tenantId, contactId, tasks, txt, mints);
    BatchIsKnown(st, tenantId, contactId, tasks, txt, mints);
    OpenKeysGrow(rows, added, tenantId, contactId, txt);
    SeesAll(rows, tenantId, contactId, txt);
    forall r | r in added ensures RowKey(r, txt) in OpenKeys(ActiveTasks(after, tenantId), contactId, txt) {
      assert NewTask(st, r, tenantId, contactId, txt, mints) && r in after;
      ActiveIsOpenKey(after, r, tenantId, contactId, txt);
    }
  }

  /** An active task that is not among the newest thousand, which are all at least as new. */
  ghost predicate Beyond(rows: seq<Resource>, tenantId: string, r: Resource) {
    var listed := ListRows(rows, tenantId, Some(TASK), LISTED_TASKS);
    r !in listed && |listed| == LISTED_TASKS && forall x :: x in listed ==> x.createdAt >= r.createdAt
  }

  lemma ListedOrBeyond(rows: seq<Resource>, tenantId: string, r: Resource)
    requires r in ActiveTasks(rows, tenantId)
    ensures r in ListRows(rows, tenantId, Some(TASK), LISTED_TASKS) <==> !Beyond(rows, tenantId, r)
  {
    var active, listed := ActiveTasks(rows, tenantId), ListRows(rows, tenantId, Some(TASK), LISTED_TASKS);
    ListIsNewestFirst(rows, tenantId, Some(TASK), LISTED_TASKS);
    if r !in listed {
      if |active| <= LISTED_TASKS {
        SortedMembers(active, CreatedAt(), r);
      }
      forall x | x in listed ensures x.createdAt >= r.createdAt {
        assert CreatedAt()(x) >= CreatedAt()(r);
      }
    }
  }

  lemma ListedIsActive(rows: seq<Resource>, tenantId: string, r: Resource)
    requires r in ListRows(rows, tenantId, Some(TASK), LISTED_TASKS)
    ensures r in ActiveTasks(rows, tenantId)
  {
    ListIsNewestFirst(rows, tenantId, Some(TASK), LISTED_TASKS);
    FilterIn(rows, Listed(tenantId, Some(TASK)), r);
  }

  /** A title is overlooked exactly if every open task that bears it lies beyond the listing. */
  lemma UnseenExactly(rows: seq<Resource>, tenantId: string, contactId: string, txt: Texts, key: string)
    ensures key !in SeenKeys(rows, tenantId, contactId, txt) <==>
      forall r :: r in OpenTasks(rows, tenantId, contactId, txt) && RowKey(r, txt) == key ==> Beyond(rows, tenantId, r)
  {
    var listed := ListRows(rows, tenantId, Some(TASK), LISTED_TASKS);
    if key in SeenKeys(rows, tenantId, contactId, txt) {
      var r :| r in listed && IsOpenTask(r, contactId, txt) && RowKey(r, txt) == key;
      ListedIsActive(rows, tenantId, r);
      ListedOrBeyond(rows, tenantId, r);
      assert r in OpenTasks(rows, tenantId, contactId, txt);
    } else {
      forall r | r in OpenTasks(rows, tenantId, contactId, txt) && RowKey(r, txt) == key
        ensures Beyond(rows, tenantId, r)
      {
        ListedOrBeyond(rows, tenantId, r);
        assert r !in listed;
      }
    }
  }

  lemma AddedKeys(before: seq<Resource>, added: seq<Resource>, txt: Texts, key: string)
    ensures (exists j :: |before| <= j < |before + added| && RowKey((before + added)[j], txt) == key) <==>
      key in RowKeys(added, txt)
  {
    var after := before + added;
    if j :| |before| <= j < |after| && RowKey(after[j], txt) == key {
      assert after[j] == added[j - |before|];
      assert added[j - |before|] in added;
    }
    if key in RowKeys(added, txt) {
      var r :| r in added && RowKey(r, txt) == key;
      var i :| 0 <= i < |added| && added[i] == r;
      assert after[|before| + i] == r;
    }
  }

  /**
   * Without any bound on the number of tasks: a row is added for exactly the batch's titles that no
   * open task of the contact bears, or only such as lie beyond the thousand listed ones.
   */
  lemma WrittenExactly(rows: seq<Resource>, tenantId: string, contactId: string, tasks: seq<Task>, txt: Texts,
                       mints: seq<Mint>, key: string)
    requires |mints| == |tasks| && FreshMints(rows, mints)
    ensures var after := TasksAfter(rows, tenantId, contactId, tasks, txt, mints);
      && rows <= after
      && ((exists j :: |rows| <= j < |after| && RowKey(after[j], txt) == key) <==>
            && (exists t :: t in tasks && Titled(t, key, txt))
            && forall r :: r in OpenTasks(rows, tenantId, contactId, txt) && RowKey(r, txt) == key ==>
                 Beyond(rows, tenantId, r))
  {
    var st := TaskState(rows, SeenKeys(rows, tenantId, contactId, txt));
    var added := Added(st, tenantId, contactId, tasks, txt, mints);
    BatchAppends(st, tenantId, contactId, tasks, txt, mints);
    BatchIsKnown(st, tenantId, contactId, tasks, txt, mints);
    UnseenExactly(rows, tenantId, contactId, txt, key);
    AddedKeys(rows, added, txt, key);
    AddedAreNew(st, tenantId, contactId, added, txt, mints, key);
  }

  lemma AddedAreNew(st: TaskState, tenantId: string, contactId: string, added: seq<Resource>, txt: Texts,
                    mints: seq<Mint>, key: string)
    requires forall r :: r in added ==> NewTask(st, r, tenantId, contactId, txt, mints)
    ensures key in RowKeys(added, txt) ==> key !in st.keys
  {
    if key in RowKeys(added, txt) {
      var r :| r in added && RowKey(r, txt) == key;
      assert NewTask(st, r, tenantId, contactId, txt, mints);
    }
  }

  // ---------- the whole application ----------

  /** Patching overwrites the contact in place, or writes nothing. */
  lemma PatchShape(rows: seq<Resource>, i: nat, x: Extraction, txt: Texts, now: int)
    requires i < |rows| && i == IndexOfId(rows, rows[i].id) && rows[i].sourceId.None?
    requires PatchOf(rows[i].data, x, txt).Some?
    ensures var patched := PatchRows(rows, rows[i], x, txt, now).value;
      && (patched == rows || patched == rows[i := rows[i].(data := DataAfter(rows[i].data, x, txt), updatedAt := now)])
      && |patched| == |rows| && patched[i].data == DataAfter(rows[i].data, x, txt)
      && patched[i] == rows[i].(data := patched[i].data, updatedAt := patched[i].updatedAt)
      && forall k :: 0 <= k < |rows| ==> patched[k].id == rows[k].id
  {
    var p := PatchOf(rows[i].data, x, txt).value;
    if p.changed {
      KeylessUpsert(rows, rows[i].(data := p.data, updatedAt := now));
    }
  }

  lemma SameIdsStayFresh(rows: seq<Resource>, rows': seq<Resource>, id: string)
    requires |rows'| == |rows| && forall k :: 0 <= k < |rows| ==> rows'[k].id == rows[k].id
    requires IndexOfId(rows, id) == -1
    ensures IndexOfId(rows', id) == -1
  {
    forall r | r in rows' ensures r.id != id {
      var k :| 0 <= k < |rows'| && rows'[k] == r;
      assert rows[k] in rows;
    }
  }

  /** `mints` has a new id for each task and, apart from those, one for the breadcrumb. */
  ghost predicate FreshFor(rows: seq<Resource>, mints: Mints) {
    && FreshMints(rows, mints.tasks)
    && IndexOfId(rows, mints.stage.id) == -1
    && forall k :: 0 <= k < |mints.tasks| ==> mints.tasks[k].id != mints.stage.id
  }

  /** The tasks one application appends, and the breadcrumb. */
  function AddedTo(rows: seq<Resource>, tenantId: string, contactId: string, x: Extraction, txt: Texts,
                   mints: Mints): seq<Resource>
    requires |mints.tasks| == |x.tasks|
  {
    Added(TaskState(rows, SeenKeys(rows, tenantId, contactId, txt)), tenantId, contactId, x.tasks, txt, mints.tasks)
  }

  function Breadcrumb(tenantId: string, contactId: string, x: Extraction, now: int, mints: Mints): seq<Resource> {
    if x.stage.None? then [] else [StageRow(x.stage.value, tenantId, contactId, now, mints.stage)]
  }

  lemma TasksShape(rows: seq<Resource>, tenantId: string, contactId: string, x: Extraction, txt: Texts, mints: Mints)
    requires |mints.tasks| == |x.tasks| && FreshFor(rows, mints)
    ensures var added := AddedTo(rows, tenantId, contactId, x, txt, mints);
      && TasksAfter(rows, tenantId, contactId, x.tasks, txt, mints.tasks) == rows + added
      && IndexOfId(rows + added, mints.stage.id) == -1
      && forall r :: r in added ==> r.kind == TASK && IndexOfId(rows, r.id) == -1
  {
    var st := TaskState(rows, SeenKeys(rows, tenantId, contactId, txt));
    BatchAppends(st, tenantId, contactId, x.tasks, txt, mints.tasks);
    var added := AddedTo(rows, tenantId, contactId, x, txt, mints);
    forall r | r in added ensures r.kind == TASK && IndexOfId(rows, r.id) == -1 && r.id != mints.stage.id {
      assert NewTask(st, r, tenantId, contactId, txt, mints.tasks);
    }
  }

  lemma FreshAfterPatch(rows: seq<Resource>, rows': seq<Resource>, mints: Mints)
    requires |rows'| == |rows| && forall k :: 0 <= k < |rows| ==> rows'[k].id == rows[k].id
    requires FreshFor(rows, mints)
    ensures FreshFor(rows', mints)
  {
    SameIdsStayFresh(rows, rows', mints.stage.id);
    forall k | 0 <= k < |mints.tasks| ensures IndexOfId(rows', mints.tasks[k].id) == -1 {
      SameIdsStayFresh(rows, rows', mints.tasks[k].id);
    }
  }

  lemma StageShape(rows: seq<Resource>, tenantId: string, contactId: string, x: Extraction, now: int, mints: Mints)
    requires IndexOfId(rows, mints.stage.id) == -1
    ensures StageAfter(rows, x.stage, tenantId, contactId, now, mints.stage)
      == rows + Breadcrumb(tenantId, contactId, x, now, mints)
  {
    if x.stage.Some? {
      KeylessUpsert(rows, StageRow(x.stage.value, tenantId, contactId, now, mints.stage));
    }
  }

  lemma ApplyFindsContact(rows: seq<Resource>, i: nat, tenantId: string, x: Extraction, txt: Texts, now: int,
                          mints: Mints)
    requires i < |rows| && i == IndexOfId(rows, rows[i].id) && !IsEmpty(x) && rows[i].tenantId == tenantId
    requires |mints.tasks| == |x.tasks|
    ensures ApplyAfter(rows, tenantId, rows[i].id, x, txt, now, mints) == ApplyTo(rows, rows[i], x, txt, now, mints)
  {
    assert GetById(rows, rows[i].id) == Some(rows[i]);
  }

  /** One application patches the contact in place, appends tasks, and appends a breadcrumb. */
  lemma ApplyShape(rows: seq<Resource>, i: nat, tenantId: string, x: Extraction, txt: Texts, now: int, mints: Mints)
    requires i < |rows| && i == IndexOfId(rows, rows[i].id) && rows[i].sourceId.None?
    requires !IsEmpty(x) && rows[i].tenantId == tenantId && PatchOf(rows[i].data, x, txt).Some?
    requires |mints.tasks| == |x.tasks| && FreshFor(rows, mints)
    ensures var patched := PatchRows(rows, rows[i], x, txt, now).value;
      && FreshFor(patched, mints)
      && ApplyAfter(rows, tenantId, rows[i].id, x, txt, now, mints)
        == patched + AddedTo(patched, tenantId, rows[i].id, x, txt, mints)
           + Breadcrumb(tenantId, rows[i].id, x, now, mints)
  {
    var patched := PatchRows(rows, rows[i], x, txt, now).value;
    assert FreshFor(patched, mints) by {
      PatchShape(rows, i, x, txt, now);
      FreshAfterPatch(rows, patched, mints);
    }
    ApplyFindsContact(rows, i, tenantId, x, txt, now, mints);
    TasksShape(patched, tenantId, rows[i].id, x, txt, mints);
    StageShape(patched + AddedTo(patched, tenantId, rows[i].id, x, txt, mints), tenantId, rows[i].id, x, now, mints);
  }

  lemma {:induction false} SeenKeysOfSame(rows: seq<Resource>, rows': seq<Resource>, tenantId: string,
                                          contactId: string, txt: Texts)
    requires ActiveTasks(rows, tenantId) == ActiveTasks(rows', tenantId)
    ensures SeenKeys(rows, tenantId, contactId, txt) == SeenKeys(rows', tenantId, contactId, txt)
  {
  }

  function TaskRows(): Resource -> bool {
    (r: Resource) => r.kind == TASK
  }

  /** The contact as a second application finds it: same data, and patching it again changes no task. */
  lemma PatchAgain(rows: seq<Resource>, i: nat, r: Resource, tenantId: string)
    requires i < |rows| && rows[i].kind != TASK && r.kind != TASK
    ensures Filter(rows[i := r], TaskRows()) == Filter(rows, TaskRows())
    ensures ActiveTasks(rows[i := r], tenantId) == ActiveTasks(rows, tenantId)
  {
    FilterUpdate(rows, i, r, TaskRows());
    FilterUpdate(rows, i, r, Listed(tenantId, Some(TASK)));
  }

  lemma {:induction false} IndexInPrefix(rows: seq<Resource>, tail: seq<Resource>, id: string)
    requires IndexOfId(rows, id) >= 0
    ensures IndexOfId(rows + tail, id) == IndexOfId(rows, id)
    decreases |tail|
  {
    if tail == [] {
      assert rows + tail == rows;
    } else {
      IndexInPrefix(rows, tail[..|tail| - 1], id);
      assert (rows + tail)[..|rows + tail| - 1] == rows + tail[..|tail| - 1];
    }
  }

  /** Nothing is appended when every key of the batch is listed. */
  lemma NothingToAdd(rows: seq<Resource>, tenantId: string, contactId: string, x: Extraction, txt: Texts, mints: Mints)
    requires |mints.tasks| == |x.tasks| && FreshFor(rows, mints)
    requires forall t :: t in x.tasks && TitleOf(t) != "" ==>
      TitleKey(TitleOf(t), txt) in SeenKeys(rows, tenantId, contactId, txt)
    ensures AddedTo(rows, tenantId, contactId, x, txt, mints) == []
  {
    var st := TaskState(rows, SeenKeys(rows, tenantId, contactId, txt));
    KnownBatch(st, tenantId, contactId, x.tasks, txt, mints.tasks);
    BatchAppends(st, tenantId, contactId, x.tasks, txt, mints.tasks);
    assert |rows + AddedTo(rows, tenantId, contactId, x, txt, mints)| == |rows|;
  }

  /** Patching settled data again can only renew the time stamp. */
  lemma SecondPatch(once: seq<Resource>, j: nat, tenantId: string, x: Extraction, txt: Texts, later: int)
    requires j < |once| && j == IndexOfId(once, once[j].id)
    requires once[j].sourceId.None? && once[j].kind == CONTACT
    requires PatchOf(once[j].data, x, txt).Some? && DataAfter(once[j].data, x, txt) == once[j].data
    requires |ActiveTasks(once, tenantId)| <= LISTED_TASKS
    ensures var patched := PatchRows(once, once[j], x, txt, later).value;
      && |patched| == |once| && patched[j].data == once[j].data && patched[j].id == once[j].id
      && Filter(patched, TaskRows()) == Filter(once, TaskRows())
      && SeenKeys(patched, tenantId, once[j].id, txt) == OpenKeys(ActiveTasks(once, tenantId), once[j].id, txt)
  {
    PatchShape(once, j, x, txt, later);
    PatchAgain(once, j, once[j].(data := DataAfter(once[j].data, x, txt), updatedAt := later), tenantId);
    SeenKeysOfSame(once, PatchRows(once, once[j], x, txt, later).value, tenantId, once[j].id, txt);
    SeesAll(once, tenantId, once[j].id, txt);
  }

  /** The second application finds its keys known and its data settled: only a breadcrumb is new. */
  lemma SecondApply(once: seq<Resource>, j: nat, tenantId: string, x: Extraction, txt: Texts, later: int, again: Mints)
    requires |again.tasks| == |x.tasks| && FreshFor(once, again)
    requires j < |once| && j == IndexOfId(once, once[j].id) && once[j].tenantId == tenantId && !IsEmpty(x)
    requires once[j].sourceId.None? && once[j].kind == CONTACT
    requires PatchOf(once[j].data, x, txt).Some? && DataAfter(once[j].data, x, txt) == once[j].data
    requires |ActiveTasks(once, tenantId)| <= LISTED_TASKS
    requires forall t :: t in x.tasks && TitleOf(t) != "" ==>
      TitleKey(TitleOf(t), txt) in OpenKeys(ActiveTasks(once, tenantId), once[j].id, txt)
    ensures ApplyAfter(once, tenantId, once[j].id, x, txt, later, again)
      == PatchRows(once, once[j], x, txt, later).value + Breadcrumb(tenantId, once[j].id, x, later, again)
  {
    var patched := PatchRows(once, once[j], x, txt, later).value;
    SecondPatch(once, j, tenantId, x, txt, later);
    ApplyShape(once, j, tenantId, x, txt, later, again);
    NothingToAdd(patched, tenantId, once[j].id, x, txt, again);
    assert patched + [] == patched;
  }

  /** After one application the keys of its tasks are all among the open ones. */
  lemma FirstMakesKnown(rows: seq<Resource>, i: nat, tenantId: string, x: Extraction, txt: Texts, now: int,
                        mints: Mints)
    requires i < |rows| && i == IndexOfId(rows, rows[i].id) && rows[i].sourceId.None?
    requires !IsEmpty(x) && rows[i].tenantId == tenantId && PatchOf(rows[i].data, x, txt).Some?
    requires |mints.tasks| == |x.tasks| && FreshFor(rows, mints)
    requires |ActiveTasks(ApplyAfter(rows, tenantId, rows[i].id, x, txt, now, mints), tenantId)| <= LISTED_TASKS
    ensures var once := ApplyAfter(rows, tenantId, rows[i].id, x, txt, now, mints);
      forall t :: t in x.tasks && TitleOf(t) != "" ==>
        TitleKey(TitleOf(t), txt) in OpenKeys(ActiveTasks(once, tenantId), rows[i].id, txt)
  {
    var contactId := rows[i].id;
    var patched := PatchRows(rows, rows[i], x, txt, now).value;
    ApplyShape(rows, i, tenantId, x, txt, now, mints);
    TasksShape(patched, tenantId, contactId, x, txt, mints);
    FilterAppend(patched + AddedTo(patched, tenantId, contactId, x, txt, mints),
                 Breadcrumb(tenantId, contactId, x, now, mints), Listed(tenantId, Some(TASK)));
    BatchBecomesKnown(patched, tenantId, contactId, x.tasks, txt, mints.tasks);
  }

  lemma PatchedIndex(rows: seq<Resource>, i: nat, patched: seq<Resource>, tail: seq<Resource>)
    requires DistinctIds(rows) && i < |rows| && |patched| == |rows|
    requires forall k :: 0 <= k < |rows| ==> patched[k].id == rows[k].id
    ensures IndexOfId(patched + tail, rows[i].id) == i
  {
    assert patched[i] in patched;
    IndexInPrefix(patched, tail, rows[i].id);
  }

  /** What the second application needs to know about the contact the first one left. */
  lemma FirstApply(rows: seq<Resource>, i: nat, tenantId: string, x: Extraction, txt: Texts, now: int, mints: Mints)
    requires DistinctIds(rows)
    requires i < |rows| && i == IndexOfId(rows, rows[i].id) && rows[i].sourceId.None?
    requires !IsEmpty(x) && rows[i].tenantId == tenantId && PatchOf(rows[i].data, x, txt).Some?
    requires |mints.tasks| == |x.tasks| && FreshFor(rows, mints)
    ensures var once := ApplyAfter(rows, tenantId, rows[i].id, x, txt, now, mints);
      && i < |once| && i == IndexOfId(once, rows[i].id)
      && once[i] == rows[i].(data := DataAfter(rows[i].data, x, txt), updatedAt := once[i].updatedAt)
  {
    var contactId := rows[i].id;
    PatchShape(rows, i, x, txt, now);
    ApplyShape(rows, i, tenantId, x, txt, now, mints);
    var patched := PatchRows(rows, rows[i], x, txt, now).value;
    var added := AddedTo(patched, tenantId, contactId, x, txt, mints);
    var crumb := Breadcrumb(tenantId, contactId, x, now, mints);
    PatchedIndex(rows, i, patched, added + crumb);
    AppendIsAssociative(patched, added, crumb);
  }

  /** All rows are as they were but for the time stamp of the one at `i`, and `extra` rows follow. */
  ghost predicate OnlyRenewed(once: seq<Resource>, twice: seq<Resource>, i: nat, extra: nat) {
    && i < |once| && |twice| == |once| + extra
    && (forall k :: 0 <= k < |once| && k != i ==> twice[k] == once[k])
    && twice[i] == once[i].(updatedAt := twice[i].updatedAt)
    && Filter(twice, TaskRows()) == Filter(once, TaskRows())
  }

  lemma CrumbIsNoTask(patched: seq<Resource>, tenantId: string, contactId: string, x: Extraction, now: int,
                      mints: Mints)
    ensures Filter(patched + Breadcrumb(tenantId, contactId, x, now, mints), TaskRows()) == Filter(patched, TaskRows())
  {
    FilterAppend(patched, Breadcrumb(tenantId, contactId, x, now, mints), TaskRows());
    FilterNone(Breadcrumb(tenantId, contactId, x, now, mints), TaskRows());
  }

  lemma SecondRenews(once: seq<Resource>, i: nat, tenantId: string, x: Extraction, txt: Texts, later: int, again: Mints)
    requires i < |once| && i == IndexOfId(once, once[i].id)
    requires once[i].sourceId.None? && once[i].kind == CONTACT
    requires PatchOf(once[i].data, x, txt).Some? && DataAfter(once[i].data, x, txt) == once[i].data
    requires |ActiveTasks(once, tenantId)| <= LISTED_TASKS
    ensures var crumb := Breadcrumb(tenantId, once[i].id, x, later, again);
      OnlyRenewed(once, PatchRows(once, once[i], x, txt, later).value + crumb, i, |crumb|)
  {
    PatchShape(once, i, x, txt, later);
    SecondPatch(once, i, tenantId, x, txt, later);
    CrumbIsNoTask(PatchRows(once, once[i], x, txt, later).value, tenantId, once[i].id, x, later, again);
  }

  /**
   * Applying an extraction twice leaves every row of one application as it was, but for the contact's
   * time stamp. The store has the size it had after one application exactly if there is no stage
   * transition: each application of one appends a breadcrumb, since rows without a source are never
   * deduplicated.
   */
  lemma ApplyTwice(rows: seq<Resource>, i: nat, tenantId: string, x: Extraction, txt: Texts, now: int, later: int,
                   mints: Mints, again: Mints)
    requires DistinctIds(rows) && DictItems(x.updates)
    requires i < |rows| && i == IndexOfId(rows, rows[i].id) && rows[i].sourceId.None? && rows[i].kind == CONTACT
    requires !IsEmpty(x) && rows[i].tenantId == tenantId && PatchOf(rows[i].data, x, txt).Some?
    requires |mints.tasks| == |again.tasks| == |x.tasks| && FreshFor(rows, mints)
    requires var once := ApplyAfter(rows, tenantId, rows[i].id, x, txt, now, mints);
      FreshFor(once, again) && |ActiveTasks(once, tenantId)| <= LISTED_TASKS
    ensures var once := ApplyAfter(rows, tenantId, rows[i].id, x, txt, now, mints);
      OnlyRenewed(once, ApplyAfter(once, tenantId, rows[i].id, x, txt, later, again), i, if x.stage.Some? then 1 else 0)
  {
    FirstApply(rows, i, tenantId, x, txt, now, mints);
    FirstMakesKnown(rows, i, tenantId, x, txt, now, mints);
    PatchIsIdempotent(rows[i].data, x, txt);
    var once := ApplyAfter(rows, tenantId, rows[i].id, x, txt, now, mints);
    SecondApply(once, i, tenantId, x, txt, later, again);
    SecondRenews(once, i, tenantId, x, txt, later, again);
  }
}
