/** The two aggregations of the learning loop: which filters buyers use, which fields a catalog has. */
module Learning {
  import opened PyText
  import opened Resources
  import opened Counting
  import opened Gathering
  import opened Ranking

  // ---------- filter keys ----------

  datatype QueryLogEntry = QueryLogEntry(createdAt: int, filters: seq<string>)

  /** `max_price` and `min_price` count for `price`. */
  function RolledUp(key: string): string {
    if "max_" <= key || "min_" <= key then key[4..] else key
  }

  function RolledUpAll(keys: seq<string>): seq<string> {
    seq(|keys|, i requires 0 <= i < |keys| => RolledUp(keys[i]))
  }

  function RecentKeys(cutoff: int): QueryLogEntry -> seq<string> {
    (entry: QueryLogEntry) => if entry.createdAt < cutoff then [] else RolledUpAll(entry.filters)
  }

  /** All filter keys of the entries in the window, rolled up. */
  function KeysInWindow(entries: seq<QueryLogEntry>, cutoff: int): seq<string> {
    FlatMap(entries, RecentKeys(cutoff))
  }

  function ByCount(c: Counter<string>): seq<Ranked> {
    seq(|c|, i requires 0 <= i < |c| => Ranked(c[i].0, c[i].1 as real))
  }

  function RankedKeys(keys: seq<string>): seq<Ranked> {
    SortRanked(ByCount(Tally(keys)))
  }

  function TopFilters(entries: seq<QueryLogEntry>, cutoff: int, limit: int): seq<Ranked> {
    Slice(RankedKeys(KeysInWindow(entries, cutoff)), limit)
  }

  lemma TallyOneMore<K>(keys: seq<K>, k: K)
    ensures Tally(keys + [k]) == Bump(Tally(keys), k)
  {
    assert (keys + [k])[..|keys|] == keys;
  }

  lemma TallyNext<K>(keys: seq<K>, more: seq<K>, i: nat)
    requires i < |more|
    ensures Tally(keys + more[..i + 1]) == Bump(Tally(keys + more[..i]), more[i])
  {
    assert keys + more[..i + 1] == (keys + more[..i]) + [more[i]];
    TallyOneMore(keys + more[..i], more[i]);
  }

  method CountFilters(filters: seq<string>, counter0: Counter<string>, ghost before: seq<string>)
    returns (counter: Counter<string>)
    requires counter0 == Tally(before)
    ensures counter == Tally(before + RolledUpAll(filters))
  {
    counter := counter0;
    ghost var more := RolledUpAll(filters);
    assert before + more[..0] == before;
    for j := 0 to |filters|
      invariant counter == Tally(before + more[..j])
    {
      var rawKey := filters[j];
      var actual := rawKey;
      if "max_" <= rawKey || "min_" <= rawKey {
        actual := rawKey[4..];
      }
      TallyNext(before, more, j);
      counter := Bump(counter, actual);
    }
    assert more[..|filters|] == more;
  }

  lemma KeysNext(entries: seq<QueryLogEntry>, cutoff: int, i: nat)
    requires i < |entries|
    ensures KeysInWindow(entries[..i + 1], cutoff) == KeysInWindow(entries[..i], cutoff)
      + if entries[i].createdAt < cutoff then [] else RolledUpAll(entries[i].filters)
    ensures KeysInWindow(entries[..i], cutoff) + [] == KeysInWindow(entries[..i], cutoff)
  {
    FlatPrefix(entries, i, RecentKeys(cutoff));
  }

  method TopFilterKeys(entries: seq<QueryLogEntry>, cutoff: int, limit: int) returns (top: seq<Ranked>)
    ensures top == TopFilters(entries, cutoff, limit)
  {
    var counter: Counter<string> := [];
    for i := 0 to |entries|
      invariant counter == Tally(KeysInWindow(entries[..i], cutoff))
    {
      var entry := entries[i];
      KeysNext(entries, cutoff, i);
      if entry.createdAt < cutoff {
        continue;
      }
      counter := CountFilters(entry.filters, counter, KeysInWindow(entries[..i], cutoff));
    }
    assert entries[..|entries|] == entries;
    top := Slice(SortRanked(ByCount(counter)), limit);
  }

  lemma {:induction false} KeysInWindowCount(entries: seq<QueryLogEntry>, cutoff: int)
    ensures |KeysInWindow(entries, cutoff)| == FiltersInWindow(entries, cutoff)
    decreases |entries|
  {
    if entries != [] {
      KeysInWindowCount(entries[..|entries| - 1], cutoff);
    }
  }

  function FiltersInWindow(entries: seq<QueryLogEntry>, cutoff: int): nat {
    if entries == [] then 0
    else
      var n := |entries| - 1;
      FiltersInWindow(entries[..n], cutoff) + (if entries[n].createdAt < cutoff then 0 else |entries[n].filters|)
  }

  /** Before truncation the counts add up to the number of filter keys in the window. */
  lemma FilterCountsAddUp(entries: seq<QueryLogEntry>, cutoff: int)
    ensures Total(Tally(KeysInWindow(entries, cutoff))) == FiltersInWindow(entries, cutoff)
  {
    TallyCounts(KeysInWindow(entries, cutoff), "");
    KeysInWindowCount(entries, cutoff);
  }

  lemma TallyNames(keys: seq<string>)
    ensures DistinctNames(ByCount(Tally(keys)))
  {
    TallyCounts(keys, "");
  }

  lemma TallyMembersAgree(keys: seq<string>, keys': seq<string>)
    requires multiset(keys) == multiset(keys')
    ensures SameMembers(ByCount(Tally(keys)), ByCount(Tally(keys')))
  {
    forall r: Ranked ensures r in ByCount(Tally(keys)) <==> r in ByCount(Tally(keys')) {
      if r in ByCount(Tally(keys)) {
        TallyMemberMoves(keys, keys', r);
      }
      if r in ByCount(Tally(keys')) {
        TallyMemberMoves(keys', keys, r);
      }
    }
  }

  lemma TallyMemberMoves(keys: seq<string>, keys': seq<string>, r: Ranked)
    requires multiset(keys) == multiset(keys') && r in ByCount(Tally(keys))
    ensures r in ByCount(Tally(keys'))
  {
    var i :| 0 <= i < |Tally(keys)| && ByCount(Tally(keys))[i] == r;
    var entry := Tally(keys)[i];
    TallyMember(keys, entry);
    TallyMember(keys', entry);
    var j :| 0 <= j < |Tally(keys')| && Tally(keys')[j] == entry;
    assert ByCount(Tally(keys'))[j] == r;
  }

  lemma RankingIgnoresOrder(keys: seq<string>, keys': seq<string>)
    requires multiset(keys) == multiset(keys')
    ensures RankedKeys(keys) == RankedKeys(keys') && Ordered(RankedKeys(keys))
  {
    TallyNames(keys);
    TallyNames(keys');
    TallyMembersAgree(keys, keys');
    SortIgnoresOrder(ByCount(Tally(keys)), ByCount(Tally(keys')));
    SortIsOrdered(ByCount(Tally(keys)));
  }

  lemma SliceIsPrefix<T>(items: seq<T>, limit: int)
    ensures Slice(items, limit) <= items
  {
  }

  /** The result is the ordered listing of all counts, cut at the limit. */
  lemma TopFiltersAreTheTop(entries: seq<QueryLogEntry>, cutoff: int, limit: int)
    ensures var all := RankedKeys(KeysInWindow(entries, cutoff));
      Ordered(all) && TopFilters(entries, cutoff, limit) <= all
  {
    var keys := KeysInWindow(entries, cutoff);
    RankingIgnoresOrder(keys, keys);
    SliceIsPrefix(RankedKeys(keys), limit);
  }

  /** Entry order does not matter. */
  lemma TopFiltersIgnoreOrder(entries: seq<QueryLogEntry>, entries': seq<QueryLogEntry>, cutoff: int, limit: int)
    requires multiset(entries) == multiset(entries')
    ensures TopFilters(entries, cutoff, limit) == TopFilters(entries', cutoff, limit)
  {
    FlatIgnoresOrder(entries, entries', RecentKeys(cutoff));
    RankingIgnoresOrder(KeysInWindow(entries, cutoff), KeysInWindow(entries', cutoff));
  }

  lemma CountIsRanked(keys: seq<string>, key: string)
    requires key in keys
    ensures Ordered(RankedKeys(keys)) && Ranked(key, multiset(keys)[key] as real) in RankedKeys(keys)
  {
    var r := Ranked(key, multiset(keys)[key] as real);
    TallyMember(keys, (key, multiset(keys)[key]));
    var i :| 0 <= i < |Tally(keys)| && Tally(keys)[i] == (key, multiset(keys)[key]);
    assert ByCount(Tally(keys))[i] == r;
    Members(RankedKeys(keys), ByCount(Tally(keys)), r);
    RankingIgnoresOrder(keys, keys);
  }

  lemma SlicedOrBeaten(all: seq<Ranked>, limit: nat, r: Ranked)
    requires Ordered(all) && r in all
    ensures var top := Slice(all, limit); r in top || (|top| == limit && forall t :: t in top ==> Before(t, r))
  {
    var j :| 0 <= j < |all| && all[j] == r;
    var top := Slice(all, limit);
    if j < |top| {
      assert top[j] == r;
    }
  }

  /** A key is listed with the number of its occurrences, and left out only behind everything listed. */
  lemma ListedOrBeaten(entries: seq<QueryLogEntry>, cutoff: int, limit: nat, key: string)
    requires key in KeysInWindow(entries, cutoff)
    ensures var r := Ranked(key, multiset(KeysInWindow(entries, cutoff))[key] as real);
      var top := TopFilters(entries, cutoff, limit);
      r in top || (|top| == limit && forall t :: t in top ==> Before(t, r))
  {
    var keys := KeysInWindow(entries, cutoff);
    CountIsRanked(keys, key);
    SlicedOrBeaten(RankedKeys(keys), limit, Ranked(key, multiset(keys)[key] as real));
  }

  // ---------- schema ----------

  datatype Cell = Cell(name: string, value: Json)

  datatype Shapes = Shapes(isNumeric: Json -> bool, show: Json -> string)

  datatype FieldFrequency = FieldFrequency(name: string, presence: real, examples: seq<string>, numeric: bool)

  function WholeRow(): seq<Cell> -> seq<Cell> {
    (row: seq<Cell>) => row
  }

  /** All fields of all sampled rows, row by row. */
  function Cells(sample: seq<seq<Cell>>): seq<Cell> {
    FlatMap(sample, WholeRow())
  }

  function Names(cells: seq<Cell>): seq<string> {
    seq(|cells|, i requires 0 <= i < |cells| => cells[i].name)
  }

  function NumericNames(cells: seq<Cell>, shapes: Shapes): seq<string> {
    if cells == [] then []
    else
      var n := |cells| - 1;
      var before := NumericNames(cells[..n], shapes);
      if shapes.isNumeric(cells[n].value) then before + [cells[n].name] else before
  }

  function ShortValue(value: Json, shapes: Shapes): string {
    var text := Strip(shapes.show(value));
    if |text| <= 60 then text else StripRight(text[..59], IsSpace) + "\U{2026}"
  }

  /** The first four values shown for a field. */
  function Examples(cells: seq<Cell>, name: string, shapes: Shapes): seq<string> {
    if cells == [] then []
    else
      var n := |cells| - 1;
      var before := Examples(cells[..n], name, shapes);
      if cells[n].name == name && |before| < 4 then before + [ShortValue(cells[n].value, shapes)] else before
  }

  /** Presence, as the weight that orders the listing. */
  function Presences(c: Counter<string>, total: nat): seq<Ranked>
    requires total > 0
  {
    seq(|c|, i requires 0 <= i < |c| => Ranked(c[i].0, c[i].1 as real / total as real))
  }

  predicate MostlyNumeric(votes: int, count: int) {
    count > 0 && votes as real / count as real >= 0.7
  }

  function FieldOf(r: Ranked, cells: seq<Cell>, shapes: Shapes): FieldFrequency {
    FieldFrequency(r.name, r.weight, Examples(cells, r.name, shapes),
                   MostlyNumeric(CountOf(Tally(NumericNames(cells, shapes)), r.name),
                                 CountOf(Tally(Names(cells)), r.name)))
  }

  /** The listed fields, before their examples are attached. */
  function ListedFields(cells: seq<Cell>, total: nat): seq<Ranked>
    requires total > 0
  {
    SortRanked(Presences(Tally(Names(cells)), total))
  }

  function Schema(sample: seq<seq<Cell>>, shapes: Shapes): seq<FieldFrequency> {
    if sample == [] then []
    else
      var cells := Cells(sample);
      var listed := ListedFields(cells, |sample|);
      seq(|listed|, i requires 0 <= i < |listed| => FieldOf(listed[i], cells, shapes))
  }

  lemma PrefixNext<T>(seen: seq<T>, row: seq<T>, j: nat)
    requires j < |row|
    ensures (seen + row[..j]) + [row[j]] == seen + row[..j + 1]
  {
  }

  method AggregateRow(row: seq<Cell>, shapes: Shapes, ghost seen: seq<Cell>, counts0: Counter<string>,
                      votes0: Counter<string>, examples0: map<string, seq<string>>)
    returns (counts: Counter<string>, votes: Counter<string>, examples: map<string, seq<string>>)
    requires Aggregates(seen, shapes, counts0, votes0, examples0)
    ensures Aggregates(seen + row, shapes, counts, votes, examples)
  {
    counts, votes, examples := counts0, votes0, examples0;
    ghost var now := seen;
    assert now == seen + row[..0];
    for j := 0 to |row|
      invariant now == seen + row[..j]
      invariant Aggregates(now, shapes, counts, votes, examples)
    {
      var cell := row[j];
      PrefixNext(seen, row, j);
      var bucket := if cell.name in examples then examples[cell.name] else [];
      AggregateNext(now, cell, shapes, counts, votes, examples, bucket);
      now := now + [cell];
      counts := Bump(counts, cell.name);
      if |bucket| < 4 {
        bucket := bucket + [ShortValue(cell.value, shapes)];
      }
      examples := examples[cell.name := bucket];
      if shapes.isNumeric(cell.value) {
        votes := Bump(votes, cell.name);
      }
    }
    assert now == seen + row;
  }

  method DiscoverSchema(sample: seq<seq<Cell>>, shapes: Shapes) returns (fields: seq<FieldFrequency>)
    ensures fields == Schema(sample, shapes)
  {
    if sample == [] {
      return [];
    }
    var counts: Counter<string>, votes: Counter<string>, examples: map<string, seq<string>> := [], [], map[];
    for i := 0 to |sample|
      invariant Aggregates(Cells(sample[..i]), shapes, counts, votes, examples)
    {
      FlatPrefix(sample, i, WholeRow());
      counts, votes, examples := AggregateRow(sample[i], shapes, Cells(sample[..i]), counts, votes, examples);
    }
    assert sample[..|sample|] == sample;
    var listed := SortRanked(Presences(counts, |sample|));
    fields := seq(|listed|, i requires 0 <= i < |listed| =>
      FieldFrequency(listed[i].name, listed[i].weight,
                     if listed[i].name in examples then examples[listed[i].name] else [],
                     MostlyNumeric(CountOf(votes, listed[i].name), CountOf(counts, listed[i].name))));
  }

  ghost predicate Exemplified(cells: seq<Cell>, shapes: Shapes, examples: map<string, seq<string>>) {
    forall name: string :: Examples(cells, name, shapes) == if name in examples then examples[name] else []
  }

  ghost predicate Aggregates(cells: seq<Cell>, shapes: Shapes, counts: Counter<string>, votes: Counter<string>,
                             examples: map<string, seq<string>>) {
    && counts == Tally(Names(cells))
    && votes == Tally(NumericNames(cells, shapes))
    && Exemplified(cells, shapes, examples)
  }

  lemma ExamplesNext(cells: seq<Cell>, cell: Cell, shapes: Shapes, examples: map<string, seq<string>>,
                     bucket: seq<string>)
    requires Exemplified(cells, shapes, examples)
    requires bucket == if cell.name in examples then examples[cell.name] else []
    ensures Exemplified(cells + [cell], shapes,
      examples[cell.name := if |bucket| < 4 then bucket + [ShortValue(cell.value, shapes)] else bucket])
  {
    assert Examples(cells, cell.name, shapes) == bucket;
    forall name: string
      ensures Examples(cells + [cell], name, shapes) ==
        if cell.name == name && |Examples(cells, name, shapes)| < 4
        then Examples(cells, name, shapes) + [ShortValue(cell.value, shapes)]
        else Examples(cells, name, shapes)
    {
      assert (cells + [cell])[..|cells|] == cells;
    }
  }

  lemma CountsNext(cells: seq<Cell>, cell: Cell, shapes: Shapes)
    ensures Tally(Names(cells + [cell])) == Bump(Tally(Names(cells)), cell.name)
    ensures Tally(NumericNames(cells + [cell], shapes)) ==
      if shapes.isNumeric(cell.value) then Bump(Tally(NumericNames(cells, shapes)), cell.name)
      else Tally(NumericNames(cells, shapes))
  {
    var all := cells + [cell];
    assert all[..|cells|] == cells;
    assert Names(all)[..|cells|] == Names(cells);
    if shapes.isNumeric(cell.value) {
      var names := NumericNames(all, shapes);
      assert names[..|names| - 1] == NumericNames(cells, shapes);
    }
  }

  lemma AggregateNext(cells: seq<Cell>, cell: Cell, shapes: Shapes, counts: Counter<string>, votes: Counter<string>,
                      examples: map<string, seq<string>>, bucket: seq<string>)
    requires Aggregates(cells, shapes, counts, votes, examples)
    requires bucket == if cell.name in examples then examples[cell.name] else []
    ensures Aggregates(cells + [cell], shapes, Bump(counts, cell.name),
                       if shapes.isNumeric(cell.value) then Bump(votes, cell.name) else votes,
                       examples[cell.name :=
                         if |bucket| < 4 then bucket + [ShortValue(cell.value, shapes)] else bucket])
  {
    CountsNext(cells, cell, shapes);
    ExamplesNext(cells, cell, shapes, examples, bucket);
  }

  // ---------- order independence ----------

  lemma {:induction false} NamesFollowCells(cells: seq<Cell>, cells': seq<Cell>, shapes: Shapes, name: string)
    requires multiset(cells) == multiset(cells')
    ensures multiset(Names(cells))[name] == multiset(Names(cells'))[name]
    ensures multiset(NumericNames(cells, shapes))[name] == multiset(NumericNames(cells', shapes))[name]
    decreases |cells|
  {
    if cells == [] {
      assert |multiset(cells')| == 0;
    } else {
      var n := |cells| - 1;
      assert cells[n] in multiset(cells);
      var i :| 0 <= i < |cells'| && cells'[i] == cells[n];
      var a, b := cells'[..i], cells'[i + 1..];
      assert cells == cells[..n] + [cells[n]];
      assert cells' == (a + [cells'[i]]) + b;
      TakeOne(cells, cells', i);
      NamesFollowCells(cells[..n], a + b, shapes, name);
      NamesAppend(cells[..n], [cells[n]], shapes);
      NamesAppend(a + [cells'[i]], b, shapes);
      NamesAppend(a, [cells'[i]], shapes);
      NamesAppend(a, b, shapes);
    }
  }

  lemma {:induction false} NamesAppend(a: seq<Cell>, b: seq<Cell>, shapes: Shapes)
    ensures Names(a + b) == Names(a) + Names(b)
    ensures NumericNames(a + b, shapes) == NumericNames(a, shapes) + NumericNames(b, shapes)
    decreases |b|
  {
    if b == [] {
      assert a + b == a;
    } else {
      NamesAppend(a, b[..|b| - 1], shapes);
      assert (a + b)[..|a + b| - 1] == a + b[..|b| - 1];
    }
  }

  lemma PresenceMembers(c: Counter<string>, c': Counter<string>, total: nat)
    requires total > 0 && forall e :: e in c <==> e in c'
    ensures SameMembers(Presences(c, total), Presences(c', total))
  {
    forall r: Ranked ensures r in Presences(c, total) <==> r in Presences(c', total) {
      if r in Presences(c, total) {
        var i :| 0 <= i < |c| && Presences(c, total)[i] == r;
        assert c[i] in c';
        var j :| 0 <= j < |c'| && c'[j] == c[i];
        assert Presences(c', total)[j] == r;
      }
      if r in Presences(c', total) {
        var i :| 0 <= i < |c'| && Presences(c', total)[i] == r;
        assert c'[i] in c;
        var j :| 0 <= j < |c| && c[j] == c'[i];
        assert Presences(c, total)[j] == r;
      }
    }
  }

  lemma TalliesAgree(keys: seq<string>, keys': seq<string>)
    requires forall k: string :: multiset(keys)[k] == multiset(keys')[k]
    ensures forall e :: e in Tally(keys) <==> e in Tally(keys')
    ensures forall k: string :: CountOf(Tally(keys), k) == CountOf(Tally(keys'), k)
  {
    forall e ensures e in Tally(keys) <==> e in Tally(keys') {
      TallyMember(keys, e);
      TallyMember(keys', e);
    }
    forall k: string ensures CountOf(Tally(keys), k) == CountOf(Tally(keys'), k) {
      TallyCounts(keys, k);
      TallyCounts(keys', k);
      OccurrencesOf(keys, k);
      OccurrencesOf(keys', k);
    }
  }

  lemma CountsIgnoreOrder(cells: seq<Cell>, cells': seq<Cell>, shapes: Shapes)
    requires multiset(cells) == multiset(cells')
    ensures forall e :: e in Tally(Names(cells)) <==> e in Tally(Names(cells'))
    ensures forall k: string :: CountOf(Tally(Names(cells)), k) == CountOf(Tally(Names(cells')), k)
    ensures forall k: string ::
      CountOf(Tally(NumericNames(cells, shapes)), k) == CountOf(Tally(NumericNames(cells', shapes)), k)
  {
    forall k: string
      ensures multiset(Names(cells))[k] == multiset(Names(cells'))[k]
      ensures multiset(NumericNames(cells, shapes))[k] == multiset(NumericNames(cells', shapes))[k]
    {
      NamesFollowCells(cells, cells', shapes, k);
    }
    TalliesAgree(Names(cells), Names(cells'));
    TalliesAgree(NumericNames(cells, shapes), NumericNames(cells', shapes));
  }

  lemma ListingIgnoresOrder(cells: seq<Cell>, cells': seq<Cell>, total: nat)
    requires total > 0 && forall e :: e in Tally(Names(cells)) <==> e in Tally(Names(cells'))
    ensures ListedFields(cells, total) == ListedFields(cells', total)
  {
    PresenceMembers(Tally(Names(cells)), Tally(Names(cells')), total);
    TallyCounts(Names(cells), "");
    TallyCounts(Names(cells'), "");
    SortIgnoresOrder(Presences(Tally(Names(cells)), total), Presences(Tally(Names(cells')), total));
  }

  /** The fields, their order, presence and type do not depend on the order of the sampled rows. */
  lemma SchemaIgnoresOrder(sample: seq<seq<Cell>>, sample': seq<seq<Cell>>, shapes: Shapes)
    requires multiset(sample) == multiset(sample')
    ensures var a, b := Schema(sample, shapes), Schema(sample', shapes);
      && |a| == |b|
      && forall i :: 0 <= i < |a| ==>
           a[i].name == b[i].name && a[i].presence == b[i].presence && a[i].numeric == b[i].numeric
  {
    FlatIgnoresOrder(sample, sample', WholeRow());
    if sample != [] {
      CountsIgnoreOrder(Cells(sample), Cells(sample'), shapes);
      ListingIgnoresOrder(Cells(sample), Cells(sample'), |sample|);
    }
  }
}

/** The two aggregations as numbers of entries and cells, without any counter. */
module LearningCounts {
  import opened Common
  import opened PyText
  import opened Resources
  import opened Counting
  import opened Gathering
  import opened Ranking
  import opened Learning

  // ---------- filter keys ----------

  /** A filter on the field, or on its upper or lower bound. */
  predicate FiltersOn(key: string, field: string) {
    || key == "max_" + field || key == "min_" + field
    || (key == field && !("max_" <= key) && !("min_" <= key))
  }

  /** The filters on the field in entries since the cutoff, by entry and place. */
  ghost function Uses(entries: seq<QueryLogEntry>, cutoff: int, field: string): set<(int, int)> {
    set i, j | 0 <= i < |entries| && 0 <= j < |entries[i].filters|
               && entries[i].createdAt >= cutoff && FiltersOn(entries[i].filters[j], field) :: (i, j)
  }

  function Same(field: string): string -> bool {
    (key: string) => key == field
  }

  lemma RolledUpExactly(key: string, field: string)
    ensures RolledUp(key) == field <==> FiltersOn(key, field)
  {
    if "max_" <= key {
      assert key == "max_" + key[4..];
    }
    if "min_" <= key {
      assert key == "min_" + key[4..];
    }
    assert ("max_" + field)[4..] == field && ("min_" + field)[4..] == field;
    assert "max_" <= "max_" + field && "min_" <= "min_" + field;
  }

  lemma {:induction false} OccurrencesFilter<K(!new)>(keys: seq<K>, k: K, p: K -> bool)
    requires forall x :: p(x) <==> x == k
    ensures multiset(keys)[k] == |Filter(keys, p)|
    decreases |keys|
  {
    if keys != [] {
      var n := |keys| - 1;
      assert keys == keys[..n] + [keys[n]];
      OccurrencesFilter(keys[..n], k, p);
    }
  }

  lemma UsesAreOccurrences(entries: seq<QueryLogEntry>, cutoff: int, field: string)
    ensures multiset(KeysInWindow(entries, cutoff))[field] == |Uses(entries, cutoff, field)|
  {
    OccurrencesFilter(KeysInWindow(entries, cutoff), field, Same(field));
    CountIsPlaces(entries, RecentKeys(cutoff), Same(field));
    forall i, j ensures (i, j) in Places(entries, RecentKeys(cutoff), Same(field)) <==>
      (i, j) in Uses(entries, cutoff, field)
    {
      if 0 <= i < |entries| && 0 <= j < |entries[i].filters| {
        RolledUpExactly(entries[i].filters[j], field);
      }
    }
    assert Places(entries, RecentKeys(cutoff), Same(field)) == Uses(entries, cutoff, field);
  }

  /** The field is listed with `n` uses, or stands behind a full list. */
  ghost predicate ListsField(top: seq<Ranked>, limit: nat, field: string, n: nat) {
    var r := Ranked(field, n as real);
    && (forall t :: t in top && t.name == field ==> t == r && n > 0)
    && (n > 0 ==> r in top || (|top| == limit && forall t :: t in top ==> Before(t, r)))
  }

  lemma RankedCounts(keys: seq<string>, r: Ranked)
    requires r in RankedKeys(keys)
    ensures r.weight == multiset(keys)[r.name] as real && multiset(keys)[r.name] > 0
  {
    Members(RankedKeys(keys), ByCount(Tally(keys)), r);
    var i :| 0 <= i < |Tally(keys)| && ByCount(Tally(keys))[i] == r;
    TallyMember(keys, Tally(keys)[i]);
  }

  /** Every field is listed with the number of its uses, unless a full list comes before it. */
  lemma FiltersAreCounts(entries: seq<QueryLogEntry>, cutoff: int, limit: nat, field: string)
    ensures ListsField(TopFilters(entries, cutoff, limit), limit, field, |Uses(entries, cutoff, field)|)
  {
    var keys, top := KeysInWindow(entries, cutoff), TopFilters(entries, cutoff, limit);
    UsesAreOccurrences(entries, cutoff, field);
    TopFiltersAreTheTop(entries, cutoff, limit);
    if field in multiset(keys) {
      ListedOrBeaten(entries, cutoff, limit, field);
    }
    forall t | t in top && t.name == field ensures t in RankedKeys(keys) {
      var i :| 0 <= i < |top| && top[i] == t;
      assert RankedKeys(keys)[i] == t;
    }
    forall t | t in top && t.name == field
      ensures t.weight == multiset(keys)[field] as real && multiset(keys)[field] > 0
    {
      RankedCounts(keys, t);
    }
  }

  // ---------- fields ----------

  /** The cells of the field, by row and place. */
  ghost function Bearing(sample: seq<seq<Cell>>, p: Cell -> bool): set<(int, int)> {
    set i, j | 0 <= i < |sample| && 0 <= j < |sample[i]| && p(sample[i][j]) :: (i, j)
  }

  function Of(name: string): Cell -> bool {
    (c: Cell) => c.name == name
  }

  function NumericOf(name: string, shapes: Shapes): Cell -> bool {
    (c: Cell) => c.name == name && shapes.isNumeric(c.value)
  }

  lemma {:induction false} NamesCount(cells: seq<Cell>, name: string, shapes: Shapes)
    ensures CountOf(Tally(Names(cells)), name) == |Filter(cells, Of(name))|
    ensures CountOf(Tally(NumericNames(cells, shapes)), name) == |Filter(cells, NumericOf(name, shapes))|
    decreases |cells|
  {
    TallyCounts(Names(cells), name);
    TallyCounts(NumericNames(cells, shapes), name);
    OccurrencesOfCells(cells, name, shapes);
  }

  lemma {:induction false} OccurrencesOfCells(cells: seq<Cell>, name: string, shapes: Shapes)
    ensures Occurrences(Names(cells), name) == |Filter(cells, Of(name))|
    ensures Occurrences(NumericNames(cells, shapes), name) == |Filter(cells, NumericOf(name, shapes))|
    decreases |cells|
  {
    if cells != [] {
      var n := |cells| - 1;
      OccurrencesOfCells(cells[..n], name, shapes);
      assert Names(cells)[..n] == Names(cells[..n]);
      if shapes.isNumeric(cells[n].value) {
        var names := NumericNames(cells, shapes);
        assert names[..|names| - 1] == NumericNames(cells[..n], shapes);
      }
    }
  }

  lemma CellsArePlaces(sample: seq<seq<Cell>>, p: Cell -> bool)
    ensures |Filter(Cells(sample), p)| == |Bearing(sample, p)|
  {
    CountIsPlaces(sample, WholeRow(), p);
    assert Places(sample, WholeRow(), p) == Bearing(sample, p);
  }

  /** A value as an example shows it: stripped, and elided beyond sixty characters. */
  ghost predicate IsExample(value: Json, shapes: Shapes, short: string) {
    exists t :: IsStripped(shapes.show(value), t, IsSpace) && Elided(t, short, 60)
  }

  lemma ShortValueIs(value: Json, shapes: Shapes)
    ensures IsExample(value, shapes, ShortValue(value, shapes))
  {
    var t := Strip(shapes.show(value));
    StripIsExact(shapes.show(value), IsSpace);
    if |t| > 60 {
      CutIsElided(t, 60);
    }
    assert Elided(t, ShortValue(value, shapes), 60);
  }

  /** The values of the first four of the cells. */
  ghost predicate FirstFour(cells: seq<Cell>, shapes: Shapes, examples: seq<string>) {
    && |examples| == (if |cells| <= 4 then |cells| else 4)
    && forall k :: 0 <= k < |examples| ==> IsExample(cells[k].value, shapes, examples[k])
  }

  lemma {:induction false} ExamplesAreFirst(cells: seq<Cell>, name: string, shapes: Shapes)
    ensures FirstFour(Filter(cells, Of(name)), shapes, Examples(cells, name, shapes))
    decreases |cells|
  {
    if cells != [] {
      var n := |cells| - 1;
      ExamplesAreFirst(cells[..n], name, shapes);
      ShortValueIs(cells[n].value, shapes);
    }
  }

  /** What the schema says of one field. */
  ghost predicate Describes(f: FieldFrequency, sample: seq<seq<Cell>>, shapes: Shapes)
    requires sample != []
  {
    var n, numeric := |Bearing(sample, Of(f.name))|, |Bearing(sample, NumericOf(f.name, shapes))|;
    && n > 0
    && f.presence == n as real / |sample| as real
    && (f.numeric <==> numeric as real / n as real >= 0.7)
    && FirstFour(Filter(Cells(sample), Of(f.name)), shapes, f.examples)
  }

  lemma ListedPresence(cells: seq<Cell>, total: nat, r: Ranked)
    requires total > 0
    ensures r in ListedFields(cells, total) <==>
      multiset(Names(cells))[r.name] > 0 && r.weight == multiset(Names(cells))[r.name] as real / total as real
  {
    var c := Tally(Names(cells));
    Members(ListedFields(cells, total), Presences(c, total), r);
    if r in Presences(c, total) {
      var i :| 0 <= i < |c| && Presences(c, total)[i] == r;
      TallyMember(Names(cells), c[i]);
    }
    var entry := (r.name, multiset(Names(cells))[r.name]);
    TallyMember(Names(cells), entry);
    if entry in c {
      var i :| 0 <= i < |c| && c[i] == entry;
      assert Presences(c, total)[i] == Ranked(r.name, entry.1 as real / total as real);
    }
  }

  /** Every listed field is described as the sample bears it. */
  lemma FieldsAreCounts(sample: seq<seq<Cell>>, shapes: Shapes, i: nat)
    requires i < |Schema(sample, shapes)|
    ensures sample != [] && Describes(Schema(sample, shapes)[i], sample, shapes)
  {
    var cells := Cells(sample);
    var r := ListedFields(cells, |sample|)[i];
    ListedPresence(cells, |sample|, r);
    TallyCounts(Names(cells), r.name);
    OccurrencesOf(Names(cells), r.name);
    NamesCount(cells, r.name, shapes);
    CellsArePlaces(sample, Of(r.name));
    CellsArePlaces(sample, NumericOf(r.name, shapes));
    ExamplesAreFirst(cells, r.name, shapes);
  }

  lemma BorneIsListed(cells: seq<Cell>, total: nat, name: string)
    requires total > 0 && multiset(Names(cells))[name] > 0
    ensures exists i :: 0 <= i < |ListedFields(cells, total)| && ListedFields(cells, total)[i].name == name
  {
    var r := Ranked(name, multiset(Names(cells))[name] as real / total as real);
    ListedPresence(cells, total, r);
    var i :| 0 <= i < |ListedFields(cells, total)| && ListedFields(cells, total)[i] == r;
  }

  /** Every field that some row bears is listed. */
  lemma FieldsAreListed(sample: seq<seq<Cell>>, shapes: Shapes, row: nat, place: nat)
    requires row < |sample| && place < |sample[row]|
    ensures exists i :: 0 <= i < |Schema(sample, shapes)| && Schema(sample, shapes)[i].name == sample[row][place].name
  {
    var cells, name := Cells(sample), sample[row][place].name;
    assert (row as int, place as int) in Bearing(sample, Of(name));
    CellsArePlaces(sample, Of(name));
    OccurrencesOfCells(cells, name, Shapes((v: Json) => false, (v: Json) => ""));
    OccurrencesOf(Names(cells), name);
    BorneIsListed(cells, |sample|, name);
    var i :| 0 <= i < |ListedFields(cells, |sample|)| && ListedFields(cells, |sample|)[i].name == name;
    assert Schema(sample, shapes)[i].name == name;
  }

  /** The fields stand by falling presence, and then by name. */
  lemma FieldsAreOrdered(sample: seq<seq<Cell>>, shapes: Shapes, i: nat, j: nat)
    requires i < j < |Schema(sample, shapes)|
    ensures var a, b := Schema(sample, shapes)[i], Schema(sample, shapes)[j];
      Before(Ranked(a.name, a.presence), Ranked(b.name, b.presence))
  {
    var cells := Cells(sample);
    TallyCounts(Names(cells), "");
    SortIsOrdered(Presences(Tally(Names(cells)), |sample|));
    assert Before(ListedFields(cells, |sample|)[i], ListedFields(cells, |sample|)[j]);
  }
}
