/** The catalog upload: header line, required `content` column, metadata from the other columns. */
module Catalog {
  import opened PyText
  import opened CsvScan
  import opened CsvSplit
  import opened CsvPrint

  datatype Fact = Fact(content: string, metadata: map<string, string>)

  datatype CsvError = EmptyFile | NoContentColumn | NoContentRows

  datatype ParseResult = Parsed(headers: seq<string>, rows: seq<Fact>) | Rejected(error: CsvError)

  const BOM := '\U{FEFF}'

  /** The white space and line terminators that ECMAScript's `trim` removes. */
  predicate IsJsSpace(c: char) {
    || c == ' ' || '\t' <= c <= '\r' || c == '\U{00A0}' || c == '\U{1680}'
    || '\U{2000}' <= c <= '\U{200A}' || c == '\U{2028}' || c == '\U{2029}'
    || c == '\U{202F}' || c == '\U{205F}' || c == '\U{3000}' || c == BOM
  }

  function Trim(s: string): string {
    StripOf(s, IsJsSpace)
  }

  function StripBom(text: string): string {
    if text != "" && text[0] == BOM then text[1..] else text
  }

  function CellAt(cols: seq<string>, j: nat): string {
    if j < |cols| then Trim(cols[j]) else ""
  }

  /** Metadata from the first `n` headers; a repeated header keeps its last non-empty cell. */
  function Metadata(headers: seq<string>, contentIdx: nat, cols: seq<string>, n: nat): map<string, string>
    requires n <= |headers|
  {
    if n == 0 then map[]
    else
      var before := Metadata(headers, contentIdx, cols, n - 1);
      if n - 1 == contentIdx || CellAt(cols, n - 1) == "" then before
      else before[headers[n - 1] := CellAt(cols, n - 1)]
  }

  /** At most one fact: a row without content is skipped. */
  function FactOf(headers: seq<string>, contentIdx: nat, cols: seq<string>): seq<Fact> {
    var content := CellAt(cols, contentIdx);
    if content == "" then [] else [Fact(content, Metadata(headers, contentIdx, cols, |headers|))]
  }

  function FactsOf(headers: seq<string>, contentIdx: nat, table: seq<seq<string>>): seq<Fact> {
    if table == [] then []
    else
      var n := |table| - 1;
      FactsOf(headers, contentIdx, table[..n]) + FactOf(headers, contentIdx, table[n])
  }

  function IndexOf(headers: seq<string>, name: string): (i: int)
    ensures -1 <= i < |headers|
    ensures i >= 0 ==> headers[i] == name && name !in headers[..i]
    ensures i == -1 <==> name !in headers
  {
    if headers == [] then -1
    else
      var n := |headers| - 1;
      var i := IndexOf(headers[..n], name);
      assert headers == headers[..n] + [headers[n]];
      if i >= 0 then i else if headers[n] == name then n else -1
  }

  function Normalised(cols: seq<string>, lower: string -> string): seq<string> {
    seq(|cols|, j requires 0 <= j < |cols| => lower(Trim(cols[j])))
  }

  function CatalogOf(table: seq<seq<string>>, lower: string -> string): ParseResult {
    if table == [] then Rejected(EmptyFile)
    else
      var headers := Normalised(table[0], lower);
      var contentIdx := IndexOf(headers, "content");
      if contentIdx == -1 then Rejected(NoContentColumn)
      else
        var rows := FactsOf(headers, contentIdx, table[1..]);
        if rows == [] then Rejected(NoContentRows) else Parsed(headers, rows)
  }

  function CatalogOfLines(lines: seq<string>, lower: string -> string): ParseResult {
    CatalogOf(ColumnsOfEach(lines), lower)
  }

  function ReadCatalog(text: string, lower: string -> string): ParseResult {
    CatalogOfLines(LogicalLines(StripBom(text)), lower)
  }

  // ---------- the blank-line test is redundant ----------

  ghost predicate AllSpace(s: string) {
    forall p :: 0 <= p < |s| ==> IsJsSpace(s[p])
  }

  lemma {:induction false} TrimEndOfSpace(s: string)
    ensures StripRight(s, IsJsSpace) == "" <==> AllSpace(s)
    decreases |s|
  {
    if s != "" && IsJsSpace(s[|s| - 1]) {
      TrimEndOfSpace(s[..|s| - 1]);
    } else if s != "" {
      assert !IsJsSpace(s[|s| - 1]);
    }
  }

  lemma {:induction false} TrimOfSpace(s: string)
    ensures Trim(s) == "" <==> AllSpace(s)
    decreases |s|
  {
    if s != "" && IsJsSpace(s[0]) {
      TrimOfSpace(s[1..]);
      assert AllSpace(s[1..]) ==> AllSpace(s);
    } else {
      TrimEndOfSpace(s);
    }
  }

  /** A line without quotes and commas is one column. */
  lemma {:induction false} ColumnsOfPlain(line: string)
    requires '\"' !in line && ',' !in line
    ensures ScanCells(line) == CellState([], line, Plain) && Columns(line) == [line]
    decreases |line|
  {
    if line != "" {
      var front, c := line[..|line| - 1], line[|line| - 1];
      assert line == front + [c];
      assert c in line;
      ColumnsOfPlain(front);
    }
  }

  /** A blank line would have given no fact anyway. */
  lemma BlankLineHasNoFact(line: string, headers: seq<string>, contentIdx: nat)
    requires Trim(line) == ""
    ensures FactOf(headers, contentIdx, Columns(line)) == []
  {
    TrimOfSpace(line);
    ColumnsOfPlain(line);
  }

  /** The facts of the lines after the header, up to line `i`. */
  function FactsBefore(headers: seq<string>, contentIdx: nat, lines: seq<string>, i: nat): seq<Fact>
    requires 1 <= i <= |lines|
  {
    FactsOf(headers, contentIdx, ColumnsOfEach(lines)[1..i])
  }

  lemma FactsOfMore(headers: seq<string>, contentIdx: nat, table: seq<seq<string>>, cols: seq<string>)
    ensures FactsOf(headers, contentIdx, table + [cols])
      == FactsOf(headers, contentIdx, table) + FactOf(headers, contentIdx, cols)
  {
    assert (table + [cols])[..|table|] == table;
  }

  lemma PartNext(table: seq<seq<string>>, i: nat)
    requires 1 <= i < |table|
    ensures table[1..i + 1] == table[1..i] + [table[i]]
  {
  }

  lemma FactsNext(headers: seq<string>, contentIdx: nat, lines: seq<string>, i: nat)
    requires 1 <= i < |lines|
    ensures FactsBefore(headers, contentIdx, lines, i + 1) == FactsBefore(headers, contentIdx, lines, i)
      + if Trim(lines[i]) == "" then [] else FactOf(headers, contentIdx, Columns(lines[i]))
  {
    var table := ColumnsOfEach(lines);
    PartNext(table, i);
    FactsOfMore(headers, contentIdx, table[1..i], table[i]);
    if Trim(lines[i]) == "" {
      BlankLineHasNoFact(lines[i], headers, contentIdx);
    }
  }

  method ReadMetadata(headers: seq<string>, contentIdx: nat, cols: seq<string>)
    returns (metadata: map<string, string>)
    ensures metadata == Metadata(headers, contentIdx, cols, |headers|)
  {
    metadata := map[];
    for j := 0 to |headers|
      invariant metadata == Metadata(headers, contentIdx, cols, j)
    {
      if j == contentIdx {
        continue;
      }
      var v := if j < |cols| then Trim(cols[j]) else "";
      if v != "" {
        metadata := metadata[headers[j] := v];
      }
    }
  }

  method ReadRows(lines: seq<string>, headers: seq<string>, contentIdx: nat) returns (rows: seq<Fact>)
    requires lines != []
    ensures rows == FactsOf(headers, contentIdx, ColumnsOfEach(lines)[1..])
  {
    rows := [];
    for i := 1 to |lines|
      invariant rows == FactsBefore(headers, contentIdx, lines, i)
    {
      FactsNext(headers, contentIdx, lines, i);
      if Trim(lines[i]) == "" {
        continue;
      }
      var cols := ParseCsvLine(lines[i]);
      var content := if contentIdx < |cols| then Trim(cols[contentIdx]) else "";
      if content == "" {
        continue;
      }
      var metadata := ReadMetadata(headers, contentIdx, cols);
      rows := rows + [Fact(content, metadata)];
    }
    assert ColumnsOfEach(lines)[1..|lines|] == ColumnsOfEach(lines)[1..];
  }

  method ParseCatalogCsv(text: string, lower: string -> string) returns (result: ParseResult)
    ensures result == ReadCatalog(text, lower)
  {
    var stripped := if text != "" && text[0] == BOM then text[1..] else text;
    var lines := SplitLogicalLines(stripped);
    if |lines| == 0 {
      return Rejected(EmptyFile);
    }
    var first := ParseCsvLine(lines[0]);
    var headers := Normalised(first, lower);
    var contentIdx := IndexOf(headers, "content");
    if contentIdx == -1 {
      return Rejected(NoContentColumn);
    }
    var rows := ReadRows(lines, headers, contentIdx);
    if |rows| == 0 {
      return Rejected(NoContentRows);
    }
    return Parsed(headers, rows);
  }

  // ---------- round trip ----------

  ghost predicate Clean(s: string) {
    Trim(s) == s
  }

  ghost predicate WellFormed(headers: seq<string>, facts: seq<Fact>, lower: string -> string) {
    && "content" in headers
    && (forall i, j :: 0 <= i < j < |headers| ==> headers[i] != headers[j])
    && (forall i :: 0 <= i < |headers| ==> Clean(headers[i]) && lower(headers[i]) == headers[i])
    && facts != []
    && forall f :: f in facts ==> WellFormedFact(headers, f)
  }

  ghost predicate WellFormedFact(headers: seq<string>, f: Fact) {
    && Clean(f.content) && f.content != ""
    && (forall key :: key in f.metadata ==>
          key in headers && key != "content" && Clean(f.metadata[key]) && f.metadata[key] != "")
  }

  function CellsOf(headers: seq<string>, f: Fact): seq<string> {
    seq(|headers|, j requires 0 <= j < |headers| =>
      if headers[j] == "content" then f.content
      else if headers[j] in f.metadata then f.metadata[headers[j]]
      else "")
  }

  function RowsOf(headers: seq<string>, facts: seq<Fact>): seq<seq<string>> {
    seq(|facts|, i requires 0 <= i < |facts| => CellsOf(headers, facts[i]))
  }

  function TableOf(headers: seq<string>, facts: seq<Fact>): seq<seq<string>> {
    [headers] + RowsOf(headers, facts)
  }

  function Restrict(m: map<string, string>, keys: seq<string>): map<string, string> {
    map key | key in m && key in keys :: m[key]
  }

  lemma RestrictNext(m: map<string, string>, keys: seq<string>, k: string)
    ensures Restrict(m, keys + [k]) == if k in m then Restrict(m, keys)[k := m[k]] else Restrict(m, keys)
  {
  }

  ghost predicate DistinctHeaders(headers: seq<string>, contentIdx: nat) {
    && contentIdx < |headers| && headers[contentIdx] == "content"
    && forall i, j :: 0 <= i < j < |headers| ==> headers[i] != headers[j]
  }

  lemma CellIsValue(headers: seq<string>, contentIdx: nat, f: Fact, j: nat)
    requires DistinctHeaders(headers, contentIdx) && j < |headers| && WellFormedFact(headers, f)
    ensures j == contentIdx ==> CellAt(CellsOf(headers, f), j) == f.content
    ensures j != contentIdx ==> headers[j] != "content"
    ensures j != contentIdx ==>
      CellAt(CellsOf(headers, f), j) == if headers[j] in f.metadata then f.metadata[headers[j]] else ""
  {
    assert Trim("") == "";
  }

  lemma MetadataNext(headers: seq<string>, contentIdx: nat, f: Fact, n: nat)
    requires DistinctHeaders(headers, contentIdx) && n < |headers| && WellFormedFact(headers, f)
    requires Metadata(headers, contentIdx, CellsOf(headers, f), n) == Restrict(f.metadata, headers[..n])
    ensures Metadata(headers, contentIdx, CellsOf(headers, f), n + 1) == Restrict(f.metadata, headers[..n + 1])
  {
    CellIsValue(headers, contentIdx, f, n);
    assert headers[..n + 1] == headers[..n] + [headers[n]];
    RestrictNext(f.metadata, headers[..n], headers[n]);
  }

  lemma {:induction false} MetadataOfCells(headers: seq<string>, contentIdx: nat, f: Fact, n: nat)
    requires DistinctHeaders(headers, contentIdx) && n <= |headers| && WellFormedFact(headers, f)
    ensures Metadata(headers, contentIdx, CellsOf(headers, f), n) == Restrict(f.metadata, headers[..n])
  {
    if n > 0 {
      MetadataOfCells(headers, contentIdx, f, n - 1);
      MetadataNext(headers, contentIdx, f, n - 1);
    }
  }

  lemma FactOfCells(headers: seq<string>, contentIdx: nat, f: Fact)
    requires DistinctHeaders(headers, contentIdx) && WellFormedFact(headers, f)
    ensures FactOf(headers, contentIdx, CellsOf(headers, f)) == [f]
  {
    CellIsValue(headers, contentIdx, f, contentIdx);
    MetadataOfCells(headers, contentIdx, f, |headers|);
    assert headers[..|headers|] == headers;
    assert Restrict(f.metadata, headers) == f.metadata;
  }

  lemma {:induction false} FactsOfCells(headers: seq<string>, contentIdx: nat, facts: seq<Fact>)
    requires DistinctHeaders(headers, contentIdx) && forall f :: f in facts ==> WellFormedFact(headers, f)
    ensures FactsOf(headers, contentIdx, RowsOf(headers, facts)) == facts
    decreases |facts|
  {
    if facts != [] {
      var front, f := facts[..|facts| - 1], facts[|facts| - 1];
      assert facts == front + [f];
      FactsOfCells(headers, contentIdx, front);
      assert RowsOf(headers, facts)[..|front|] == RowsOf(headers, front);
      FactOfCells(headers, contentIdx, f);
    }
  }

  /** Reading a table whose cells are those of a well-formed catalog gives the catalog. */
  lemma CatalogOfTable(headers: seq<string>, facts: seq<Fact>, lower: string -> string)
    requires WellFormed(headers, facts, lower)
    ensures CatalogOf(TableOf(headers, facts), lower) == Parsed(headers, facts)
  {
    assert Normalised(headers, lower) == headers;
    var contentIdx := IndexOf(headers, "content");
    FactsOfCells(headers, contentIdx, facts);
    assert TableOf(headers, facts)[1..] == RowsOf(headers, facts);
  }

  lemma {:induction false} PrintStartsCleanly(fields: seq<Field>)
    requires fields != [] && Clean(fields[0].text)
    ensures PrintFields(fields) == "" || PrintFields(fields)[0] != BOM
    decreases |fields|
  {
    if |fields| == 1 {
      if fields[0].text != "" && fields[0].text[0] == BOM {
        CleanStart(fields[0].text);
      }
    } else {
      PrintStartsCleanly(fields[..|fields| - 1]);
    }
  }

  lemma CleanStart(s: string)
    requires Clean(s) && s != ""
    ensures !IsJsSpace(s[0])
  {
    StripRightIsHead(StripLeft(s, IsJsSpace), IsJsSpace);
    if IsJsSpace(s[0]) {
      StripLeftIsTail(s[1..], IsJsSpace);
    }
  }

  lemma {:induction false} PrintTableStart(records: seq<Record>)
    requires records != [] && ValidTable(records)
    ensures PrintTable(records) != ""
    ensures PrintTable(records)[0] ==
      (PrintFields(records[0].fields) + PrintEol(records[0].eol))[0]
    decreases |records|
  {
    var n := |records| - 1;
    if n > 0 {
      PrintTableStart(records[..n]);
    }
  }

  /**
   * Round trip of the whole upload: a well-formed catalog, printed with any choice of quoting and
   * line breaks RFC 4180 leaves open, with or without a byte-order mark, is read back unchanged.
   */
  lemma CatalogRoundTrip(headers: seq<string>, facts: seq<Fact>, lower: string -> string,
                         records: seq<Record>, bom: bool)
    requires WellFormed(headers, facts, lower)
    requires ValidTable(records) && TextTable(records) == TableOf(headers, facts)
    ensures var text := (if bom then [BOM] else "") + PrintTable(records);
      ReadCatalog(text, lower) == Parsed(headers, facts)
  {
    var text := (if bom then [BOM] else "") + PrintTable(records);
    assert Texts(records[0].fields) == TextTable(records)[0] == headers;
    assert records[0].fields[0].text == headers[0];
    PrintTableStart(records);
    PrintStartsCleanly(records[0].fields);
    assert StripBom(text) == PrintTable(records);
    RoundTrip(records);
    CatalogOfTable(headers, facts, lower);
  }

  // ---------- what the upload rejects ----------

  /** Only a file that is empty once the byte-order mark is gone counts as empty. */
  lemma EmptyFileExactly(text: string, lower: string -> string)
    ensures ReadCatalog(text, lower) == Rejected(EmptyFile) <==> StripBom(text) == ""
  {
    var t := StripBom(text);
    SplitFound(t);
    var st := ScanLines(t);
    LogicalLinesOfSplit(t, st.lines, st.ends, st.buf);
  }

  /** What the documentation asks for: the header is the first line that is not blank. */
  function SkipBlank(lines: seq<string>): seq<string> {
    if lines != [] && Trim(lines[0]) == "" then SkipBlank(lines[1..]) else lines
  }

  lemma BlankFirstLineIsRejected(lines: seq<string>, lower: string -> string)
    requires lines != [] && Trim(lines[0]) == "" && lower("") == ""
    ensures CatalogOfLines(lines, lower) == Rejected(NoContentColumn)
  {
    TrimOfSpace(lines[0]);
    ColumnsOfPlain(lines[0]);
    assert Normalised(Columns(lines[0]), lower) == [""];
  }

  /** The reading the documentation describes. */
  function DocumentedCatalog(text: string, lower: string -> string): ParseResult {
    CatalogOfLines(SkipBlank(LogicalLines(StripBom(text))), lower)
  }

  lemma HeaderOfLines(lines: seq<string>, lower: string -> string)
    requires lower("") == ""
    ensures CatalogOfLines(lines, lower) == CatalogOfLines(SkipBlank(lines), lower) <==>
      || lines == []
      || Trim(lines[0]) != ""
      || (SkipBlank(lines) != [] && "content" !in Normalised(Columns(SkipBlank(lines)[0]), lower))
  {
    if lines != [] && Trim(lines[0]) == "" {
      BlankFirstLineIsRejected(lines, lower);
      var rest := SkipBlank(lines);
      if rest != [] {
        assert ColumnsOfEach(rest)[0] == Columns(rest[0]);
      }
    }
  }

  /**
   * The code takes the first logical line as the header, blank or not. For every text that agrees with
   * the documented rule exactly when the text is empty, its first line is not blank, or the first line
   * that is not blank exists and has no content column either.
   */
  lemma HeaderRuleKeptExactly(text: string, lower: string -> string)
    requires lower("") == ""
    ensures var lines := LogicalLines(StripBom(text));
      ReadCatalog(text, lower) == DocumentedCatalog(text, lower) <==>
        || lines == []
        || Trim(lines[0]) != ""
        || (SkipBlank(lines) != [] && "content" !in Normalised(Columns(SkipBlank(lines)[0]), lower))
  {
    HeaderOfLines(LogicalLines(StripBom(text)), lower);
  }

  lemma {:induction false} NoQuotes(s: string)
    requires '\"' !in s
    ensures Quotes(s) == 0
    decreases |s|
  {
    if s != "" {
      assert s[|s| - 1] in s;
      NoQuotes(s[..|s| - 1]);
    }
  }

  lemma PlainIsClosed(s: string)
    requires '\"' !in s && '\n' !in s && '\r' !in s
    ensures Quotes(s) % 2 == 0 && TerminatorsQuoted(s)
  {
    NoQuotes(s);
  }

  lemma WeaveOne(line: string, end: string)
    ensures Weave([line], [end]) == line + end
  {
    var none: seq<string> := [];
    assert [line][..0] == none && [end][..0] == none;
    assert Weave(none, none) == "";
    assert "" + line == line;
  }

  lemma WeaveTwo(header: string)
    ensures Weave(["", header], ["\n", "\n"]) == "\n" + header + "\n"
  {
    WeaveOne("", "\n");
    assert "" + "\n" == "\n";
    WeaveNext([""], ["\n"], header, "\n");
    assert [""] + [header] == ["", header];
    assert ["\n"] + ["\n"] == ["\n", "\n"];
  }

  /** A header and one line of content, each without quotes and line breaks, after an empty line. */
  lemma LinesAfterBlank(header: string, line: string)
    requires '\"' !in header && '\n' !in header && '\r' !in header
    requires '\"' !in line && '\n' !in line && '\r' !in line && line != ""
    ensures LogicalLines("\n" + header + "\n" + line) == ["", header, line]
  {
    PlainIsClosed("");
    PlainIsClosed(header);
    PlainIsClosed(line);
    WeaveTwo(header);
    var text, lines, ends := "\n" + header + "\n" + line, ["", header], ["\n", "\n"];
    assert IsSplit(text, lines, ends, line);
    LogicalLinesOfSplit(text, lines, ends, line);
  }

  lemma SkipsOneLine(header: string, line: string)
    requires Trim(header) != ""
    ensures Trim("") == "" && SkipBlank(["", header, line]) == [header, line]
  {
    assert ["", header, line][1..] == [header, line];
  }

  lemma OneColumnTable(header: string, line: string)
    requires header == "content"
    ensures TableOf([header], [Fact(line, map[])]) == [[header], [line]]
  {
    var f := Fact(line, map[]);
    assert CellsOf([header], f) == [line];
    assert RowsOf([header], [f]) == [[line]];
  }

  /** A line without quotes, commas and outer white space is a catalog's cell as it stands. */
  ghost predicate PlainCell(s: string) {
    '\"' !in s && ',' !in s && '\n' !in s && '\r' !in s && s != "" && Trim(s) == s
  }

  lemma OneColumnCatalog(header: string, line: string, lower: string -> string)
    requires header == "content" && lower(header) == header && PlainCell(header) && PlainCell(line)
    ensures CatalogOfLines([header, line], lower) == Parsed([header], [Fact(line, map[])])
  {
    ColumnsOfPlain(header);
    ColumnsOfPlain(line);
    assert ColumnsOfEach([header, line]) == [[header], [line]];
    OneColumnTable(header, line);
    CatalogOfTable([header], [Fact(line, map[])], lower);
  }

  lemma ContentIsPlain()
    ensures PlainCell("content") && PlainCell("x")
  {
    assert Trim("content") == "content" && Trim("x") == "x";
  }

  lemma BlankLineBefore(header: string, line: string, lower: string -> string)
    requires header == "content" && lower("") == "" && lower(header) == header
    requires PlainCell(header) && PlainCell(line)
    ensures ReadCatalog("\n" + header + "\n" + line, lower) == Rejected(NoContentColumn)
    ensures DocumentedCatalog("\n" + header + "\n" + line, lower) == Parsed([header], [Fact(line, map[])])
  {
    LinesAfterBlank(header, line);
    SkipsOneLine(header, line);
    BlankFirstLineIsRejected(["", header, line], lower);
    OneColumnCatalog(header, line, lower);
  }

  /** The documented rule fails for the file that holds an empty line, `content` and one fact `x`. */
  lemma BlankLineBeforeHeader(lower: string -> string)
    requires lower("") == "" && lower("content") == "content"
    ensures ReadCatalog("\n" + "content" + "\n" + "x", lower) == Rejected(NoContentColumn)
    ensures DocumentedCatalog("\n" + "content" + "\n" + "x", lower) == Parsed(["content"], [Fact("x", map[])])
  {
    ContentIsPlain();
    BlankLineBefore("content", "x", lower);
  }
}

/** What a parsed catalog says, cell by cell. */
module CatalogFacts {
  import opened PyText
  import opened Gathering
  import opened CsvScan
  import opened Catalog

  /** The cell of a column, without white space at its ends; a missing cell is empty. */
  ghost predicate IsCell(cols: seq<string>, j: int, v: string) {
    0 <= j && if j < |cols| then IsStripped(cols[j], v, IsJsSpace) else v == ""
  }

  lemma CellIs(cols: seq<string>, j: nat)
    ensures IsCell(cols, j, CellAt(cols, j))
  {
    if j < |cols| {
      StripIsExact(cols[j], IsJsSpace);
    }
  }

  lemma CellIsUnique(cols: seq<string>, j: int, v: string, w: string)
    requires IsCell(cols, j, v) && IsCell(cols, j, w)
    ensures v == w
  {
    if j < |cols| {
      StrippedIsUnique(cols[j], v, w, IsJsSpace);
    }
  }

  ghost predicate IsHeader(header: string, cols: seq<string>, j: int, lower: string -> string) {
    exists t :: IsCell(cols, j, t) && header == lower(t)
  }

  /** Each header is its column's cell in lower case. */
  ghost predicate AreHeaders(headers: seq<string>, cols: seq<string>, lower: string -> string) {
    |headers| == |cols| && forall j :: 0 <= j < |cols| ==> IsHeader(headers[j], cols, j, lower)
  }

  lemma NormalisedAreHeaders(cols: seq<string>, lower: string -> string)
    ensures AreHeaders(Normalised(cols, lower), cols, lower)
  {
    forall j | 0 <= j < |cols| ensures IsHeader(Normalised(cols, lower)[j], cols, j, lower) {
      CellIs(cols, j);
    }
  }

  /** Column `j` gives the metadata of its header, and no later column does. */
  ghost predicate Gives(headers: seq<string>, contentIdx: int, cols: seq<string>, n: int, j: int, key: string,
                        v: string) {
    && 0 <= j < n <= |headers| && j != contentIdx && headers[j] == key && v != "" && IsCell(cols, j, v)
    && forall k :: j < k < n && k != contentIdx && headers[k] == key ==> IsCell(cols, k, "")
  }

  /** Some column among the first `n` does. */
  ghost predicate Given(headers: seq<string>, contentIdx: int, cols: seq<string>, n: int, key: string, v: string) {
    exists j :: Gives(headers, contentIdx, cols, n, j, key, v)
  }

  lemma {:induction false} MetadataIsGiven(headers: seq<string>, contentIdx: nat, cols: seq<string>, n: nat,
                                           key: string, v: string)
    requires n <= |headers|
    ensures var m := Metadata(headers, contentIdx, cols, n);
      key in m && m[key] == v <==> Given(headers, contentIdx, cols, n, key, v)
    decreases n
  {
    if n > 0 {
      MetadataIsGiven(headers, contentIdx, cols, n - 1, key, v);
      CellIs(cols, n - 1);
      GivesNext(headers, contentIdx, cols, n, key, v, CellAt(cols, n - 1));
    }
  }

  /** One more column overwrites what it has a cell for. */
  lemma GivesNext(headers: seq<string>, contentIdx: nat, cols: seq<string>, n: nat, key: string, v: string,
                  cell: string)
    requires 0 < n <= |headers| && IsCell(cols, n - 1, cell)
    ensures Given(headers, contentIdx, cols, n, key, v) <==>
      if n - 1 != contentIdx && cell != "" && headers[n - 1] == key then cell == v
      else Given(headers, contentIdx, cols, n - 1, key, v)
  {
    if n - 1 != contentIdx && cell != "" && headers[n - 1] == key {
      if cell == v {
        assert Gives(headers, contentIdx, cols, n, n - 1, key, v);
      }
      if j :| Gives(headers, contentIdx, cols, n, j, key, v) {
        CellIsUnique(cols, n - 1, cell, if j == n - 1 then v else "");
      }
    } else {
      if j :| Gives(headers, contentIdx, cols, n, j, key, v) {
        if j == n - 1 {
          CellIsUnique(cols, n - 1, cell, v);
        }
        assert Gives(headers, contentIdx, cols, n - 1, j, key, v);
      }
      var m := n - 1;
      if j :| Gives(headers, contentIdx, cols, m, j, key, v) {
        assert Gives(headers, contentIdx, cols, n, j, key, v);
      }
    }
  }

  predicate Holds(metadata: map<string, string>, key: string, v: string) {
    key in metadata && metadata[key] == v
  }

  /** The fact of a row: the content cell, and for each other header its last cell that is not empty. */
  ghost predicate IsFactOf(f: Fact, headers: seq<string>, contentIdx: nat, cols: seq<string>) {
    && f.content != "" && IsCell(cols, contentIdx, f.content)
    && forall key, v :: Holds(f.metadata, key, v) <==> Given(headers, contentIdx, cols, |headers|, key, v)
  }

  /** A row without content gives no fact, any other gives one. */
  lemma FactSays(headers: seq<string>, contentIdx: nat, cols: seq<string>)
    ensures var facts := FactOf(headers, contentIdx, cols);
      if IsCell(cols, contentIdx, "") then facts == []
      else |facts| == 1 && IsFactOf(facts[0], headers, contentIdx, cols)
  {
    CellIs(cols, contentIdx);
    if IsCell(cols, contentIdx, "") {
      CellIsUnique(cols, contentIdx, CellAt(cols, contentIdx), "");
    } else {
      var m := Metadata(headers, contentIdx, cols, |headers|);
      forall key, v
        ensures Holds(m, key, v) <==> Given(headers, contentIdx, cols, |headers|, key, v)
      {
        MetadataIsGiven(headers, contentIdx, cols, |headers|, key, v);
      }
    }
  }

  function FactIn(headers: seq<string>, contentIdx: nat): string -> seq<Fact> {
    (line: string) => FactOf(headers, contentIdx, Columns(line))
  }

  lemma {:induction false} FactsAreGathered(headers: seq<string>, contentIdx: nat, lines: seq<string>)
    ensures FactsOf(headers, contentIdx, ColumnsOfEach(lines)) == FlatMap(lines, FactIn(headers, contentIdx))
    decreases |lines|
  {
    if lines != [] {
      var n := |lines| - 1;
      assert lines == lines[..n] + [lines[n]];
      FactsAreGathered(headers, contentIdx, lines[..n]);
      ColumnsOfMore(lines[..n], lines[n]);
      FactsOfMore(headers, contentIdx, ColumnsOfEach(lines[..n]), Columns(lines[n]));
      FlatNext(lines[..n], lines[n], FactIn(headers, contentIdx));
    }
  }

  /**
   * A file that is accepted: its first line gives the headers, and the facts of the other lines
   * follow each other.
   */
  lemma ParsedSays(text: string, lower: string -> string, headers: seq<string>, rows: seq<Fact>)
    requires ReadCatalog(text, lower) == Parsed(headers, rows)
    ensures var lines := LogicalLines(StripBom(text));
      && lines != [] && AreHeaders(headers, Columns(lines[0]), lower)
      && exists i :: 0 <= i < |headers| && headers[i] == "content" && "content" !in headers[..i]
                     && rows == FlatMap(lines[1..], FactIn(headers, i))
  {
    var lines := LogicalLines(StripBom(text));
    var table := ColumnsOfEach(lines);
    NormalisedAreHeaders(table[0], lower);
    var i := IndexOf(headers, "content");
    assert table[1..] == ColumnsOfEach(lines[1..]);
    FactsAreGathered(headers, i, lines[1..]);
  }

  ghost predicate HasContentColumn(cols: seq<string>, lower: string -> string) {
    exists j, t :: 0 <= j < |cols| && IsCell(cols, j, t) && lower(t) == "content"
  }

  lemma ContentColumnIs(cols: seq<string>, lower: string -> string)
    ensures HasContentColumn(cols, lower) <==> "content" in Normalised(cols, lower)
  {
    var headers := Normalised(cols, lower);
    if j, t :| 0 <= j < |cols| && IsCell(cols, j, t) && lower(t) == "content" {
      CellIs(cols, j);
      CellIsUnique(cols, j, t, CellAt(cols, j));
      assert headers[j] == "content";
    }
    if "content" in headers {
      var j :| 0 <= j < |headers| && headers[j] == "content";
      CellIs(cols, j);
      assert IsCell(cols, j, CellAt(cols, j)) && lower(CellAt(cols, j)) == "content";
    }
  }

  /** The content cell of every line is empty. */
  ghost predicate LacksContent(lines: seq<string>, contentIdx: int) {
    forall i :: 0 <= i < |lines| ==> IsCell(Columns(lines[i]), contentIdx, "")
  }

  lemma {:induction false} NoFacts(headers: seq<string>, contentIdx: nat, lines: seq<string>)
    ensures FlatMap(lines, FactIn(headers, contentIdx)) == [] <==> LacksContent(lines, contentIdx)
    decreases |lines|
  {
    if lines != [] {
      var n := |lines| - 1;
      assert lines == lines[..n] + [lines[n]];
      NoFacts(headers, contentIdx, lines[..n]);
      FlatNext(lines[..n], lines[n], FactIn(headers, contentIdx));
      LacksNext(lines[..n], lines[n], contentIdx);
      NoFactIn(headers, contentIdx, lines[n]);
      BothEmpty(FlatMap(lines[..n], FactIn(headers, contentIdx)), FactIn(headers, contentIdx)(lines[n]));
    }
  }

  lemma LacksNext(lines: seq<string>, line: string, contentIdx: int)
    ensures LacksContent(lines + [line], contentIdx) <==>
      LacksContent(lines, contentIdx) && IsCell(Columns(line), contentIdx, "")
  {
    var all := lines + [line];
    assert all[|lines|] == line;
    forall i | 0 <= i < |lines| ensures all[i] == lines[i] { }
  }

  lemma NoFactIn(headers: seq<string>, contentIdx: nat, line: string)
    ensures FactIn(headers, contentIdx)(line) == [] <==> IsCell(Columns(line), contentIdx, "")
  {
    FactSays(headers, contentIdx, Columns(line));
  }

  lemma BothEmpty(a: seq<Fact>, b: seq<Fact>)
    ensures a + b == [] <==> a == [] && b == []
  {
    assert |a + b| == |a| + |b|;
  }

  /**
   * The three rejections: nothing but a byte-order mark, a first line without a content column, and
   * a content column under which every line is empty. Any other file is accepted.
   */
  lemma RejectsExactly(text: string, lower: string -> string)
    ensures var lines, result := LogicalLines(StripBom(text)), ReadCatalog(text, lower);
      && (result == Rejected(EmptyFile) <==> lines == [])
      && (result == Rejected(NoContentColumn) <==> lines != [] && !HasContentColumn(Columns(lines[0]), lower))
      && (result == Rejected(NoContentRows) <==>
            && lines != [] && HasContentColumn(Columns(lines[0]), lower)
            && LacksContent(lines[1..], IndexOf(Normalised(Columns(lines[0]), lower), "content")))
  {
    var lines := LogicalLines(StripBom(text));
    if lines != [] {
      var headers := Normalised(Columns(lines[0]), lower);
      ContentColumnIs(Columns(lines[0]), lower);
      if "content" in headers {
        assert ColumnsOfEach(lines)[1..] == ColumnsOfEach(lines[1..]);
        FactsAreGathered(headers, IndexOf(headers, "content"), lines[1..]);
        NoFacts(headers, IndexOf(headers, "content"), lines[1..]);
      }
    }
  }
}
