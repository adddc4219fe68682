/** Running a transition function over a text, one character at a time. */
module Automaton {
  function Run<S>(step: (S, char) -> S, start: S, text: string): S {
    if text == [] then start
    else step(Run(step, start, text[..|text| - 1]), text[|text| - 1])
  }

  lemma {:induction false} RunAppend<S>(step: (S, char) -> S, start: S, s: string, t: string)
    ensures Run(step, start, s + t) == Run(step, Run(step, start, s), t)
    decreases |t|
  {
    if t == [] {
      assert s + t == s;
    } else {
      var n := |t| - 1;
      assert (s + t)[..|s + t| - 1] == s + t[..n];
      RunAppend(step, start, s, t[..n]);
    }
  }

  lemma RunNext<S>(step: (S, char) -> S, start: S, text: string, i: nat)
    requires i < |text|
    ensures Run(step, start, text[..i + 1]) == step(Run(step, start, text[..i]), text[i])
  {
    assert text[..i + 1][..i] == text[..i];
  }

  lemma RunOne<S>(step: (S, char) -> S, start: S, c: char)
    ensures Run(step, start, [c]) == step(start, c)
  {
    assert [c][..0] == [];
  }
}

/** The two scanners of the catalog upload: text into logical lines, a line into columns. */
module CsvScan {
  import opened Automaton

  predicate IsTerminator(c: char) {
    c == '\n' || c == '\r'
  }

  // ---------- text -> logical lines ----------

  datatype LineMode = Unquoted | InQuotes | AfterCr

  /** `ends[k]` is the terminator that closed `lines[k]`; the scanner itself drops it. */
  datatype LineState = LineState(lines: seq<string>, ends: seq<string>, buf: string, mode: LineMode)

  const LINE_START := LineState([], [], "", Unquoted)

  function WidenLast(ends: seq<string>): seq<string> {
    if ends == [] then [] else ends[..|ends| - 1] + ["\r\n"]
  }

  function LineStep(st: LineState, c: char): LineState {
    if c == '\"' then
      st.(buf := st.buf + [c], mode := if st.mode == InQuotes then Unquoted else InQuotes)
    else if c == '\n' && st.mode == AfterCr then
      st.(ends := WidenLast(st.ends), mode := Unquoted)
    else if IsTerminator(c) && st.mode != InQuotes then
      LineState(st.lines + [st.buf], st.ends + [[c]], "", if c == '\r' then AfterCr else Unquoted)
    else
      st.(buf := st.buf + [c], mode := if st.mode == InQuotes then InQuotes else Unquoted)
  }

  function ScanLines(text: string): LineState {
    Run(LineStep, LINE_START, text)
  }

  function LogicalLines(text: string): seq<string> {
    var st := ScanLines(text);
    if st.buf == "" then st.lines else st.lines + [st.buf]
  }

  /** The loop variables of the scan, which looks one character ahead, stand where the automaton stands. */
  ghost predicate Tracks(text: string, i: nat, out: seq<string>, buf: string, inQuotes: bool)
    requires i <= |text|
  {
    var st := ScanLines(text[..i]);
    && st.lines == out && st.buf == buf
    && (st.mode == InQuotes <==> inQuotes)
    && (st.mode == AfterCr ==> i < |text| ==> text[i] != '\n')
  }

  lemma TracksEscape(text: string, i: nat, out: seq<string>, buf: string)
    requires i + 1 < |text| && Tracks(text, i, out, buf, true) && text[i] == text[i + 1] == '\"'
    ensures Tracks(text, i + 2, out, buf + "\"\"", true)
  {
    RunNext(LineStep, LINE_START, text, i);
    RunNext(LineStep, LINE_START, text, i + 1);
    assert buf + ['\"'] + ['\"'] == buf + "\"\"";
  }

  lemma TracksToggle(text: string, i: nat, out: seq<string>, buf: string, inQuotes: bool)
    requires i < |text| && Tracks(text, i, out, buf, inQuotes) && text[i] == '\"'
    ensures Tracks(text, i + 1, out, buf + ['\"'], !inQuotes)
  {
    RunNext(LineStep, LINE_START, text, i);
  }

  lemma TracksCrLf(text: string, i: nat, out: seq<string>, buf: string)
    requires i + 1 < |text| && Tracks(text, i, out, buf, false) && text[i] == '\r' && text[i + 1] == '\n'
    ensures Tracks(text, i + 2, out + [buf], "", false)
  {
    RunNext(LineStep, LINE_START, text, i);
    RunNext(LineStep, LINE_START, text, i + 1);
  }

  lemma TracksBreak(text: string, i: nat, out: seq<string>, buf: string)
    requires i < |text| && Tracks(text, i, out, buf, false) && IsTerminator(text[i])
    requires text[i] == '\r' && i + 1 < |text| ==> text[i + 1] != '\n'
    ensures Tracks(text, i + 1, out + [buf], "", false)
  {
    RunNext(LineStep, LINE_START, text, i);
  }

  lemma TracksOther(text: string, i: nat, out: seq<string>, buf: string, inQuotes: bool)
    requires i < |text| && Tracks(text, i, out, buf, inQuotes)
    requires text[i] != '\"' && (IsTerminator(text[i]) ==> inQuotes)
    ensures Tracks(text, i + 1, out, buf + [text[i]], inQuotes)
  {
    RunNext(LineStep, LINE_START, text, i);
  }

  method SplitLogicalLines(text: string) returns (out: seq<string>)
    ensures out == LogicalLines(text)
  {
    out := [];
    var buf := "";
    var inQuotes := false;
    var i := 0;
    while i < |text|
      invariant 0 <= i <= |text| && Tracks(text, i, out, buf, inQuotes)
    {
      var ch := text[i];
      if ch == '\"' {
        if inQuotes && i + 1 < |text| && text[i + 1] == '\"' {
          TracksEscape(text, i, out, buf);
          buf := buf + "\"\"";
          i := i + 2;
          continue;
        }
        TracksToggle(text, i, out, buf, inQuotes);
        inQuotes := !inQuotes;
        buf := buf + [ch];
        i := i + 1;
        continue;
      }
      if (ch == '\n' || ch == '\r') && !inQuotes {
        if ch == '\r' && i + 1 < |text| && text[i + 1] == '\n' {
          TracksCrLf(text, i, out, buf);
          i := i + 1;
        } else {
          TracksBreak(text, i, out, buf);
        }
        out := out + [buf];
        buf := "";
        i := i + 1;
        continue;
      }
      TracksOther(text, i, out, buf, inQuotes);
      buf := buf + [ch];
      i := i + 1;
    }
    assert text[..i] == text;
    if buf != "" {
      out := out + [buf];
    }
  }

  // ---------- line -> columns ----------

  /** `Closed` is "just after a quote that may turn out to be the first half of an escape". */
  datatype CellMode = Plain | Quoted | Closed

  datatype CellState = CellState(cols: seq<string>, cur: string, mode: CellMode)

  const CELL_START := CellState([], "", Plain)

  function CellStep(st: CellState, c: char): CellState {
    if c == '\"' then
      match st.mode
      case Plain => st.(mode := Quoted)
      case Quoted => st.(mode := Closed)
      case Closed => st.(cur := st.cur + [c], mode := Quoted)
    else if c == ',' && st.mode != Quoted then
      CellState(st.cols + [st.cur], "", Plain)
    else
      st.(cur := st.cur + [c], mode := if st.mode == Quoted then Quoted else Plain)
  }

  function ScanCells(line: string): CellState {
    Run(CellStep, CELL_START, line)
  }

  function Columns(line: string): seq<string> {
    var st := ScanCells(line);
    st.cols + [st.cur]
  }

  method ParseCsvLine(line: string) returns (cols: seq<string>)
    ensures cols == Columns(line)
  {
    cols := [];
    var cur := "";
    var inQuotes := false;
    var i := 0;
    while i < |line|
      invariant 0 <= i <= |line|
      invariant var st := ScanCells(line[..i]);
        && st.cols == cols
        && st.cur == cur
        && (st.mode == Quoted <==> inQuotes)
        && (st.mode == Closed ==> i < |line| ==> line[i] != '\"')
    {
      var ch := line[i];
      RunNext(CellStep, CELL_START, line, i);
      if i + 1 < |line| {
        RunNext(CellStep, CELL_START, line, i + 1);
      }
      if ch == '\"' {
        if inQuotes && i + 1 < |line| && line[i + 1] == '\"' {
          cur := cur + "\"";
          i := i + 2;
          continue;
        }
        inQuotes := !inQuotes;
        i := i + 1;
        continue;
      }
      if ch == ',' && !inQuotes {
        cols := cols + [cur];
        cur := "";
        i := i + 1;
        continue;
      }
      cur := cur + [ch];
      i := i + 1;
    }
    assert line[..i] == line;
    cols := cols + [cur];
  }

  // ---------- one pass: text -> rows ----------

  datatype RowMode = RPlain | RQuoted | RClosed | RAfterCr

  /** `blank` says that nothing was read since the last row ended. */
  datatype RowState = RowState(rows: seq<seq<string>>, cols: seq<string>, cur: string, blank: bool, mode: RowMode)

  const ROW_START := RowState([], [], "", true, RPlain)

  function RowStep(st: RowState, c: char): RowState {
    if c == '\"' then
      match st.mode
      case RQuoted => st.(blank := false, mode := RClosed)
      case RClosed => st.(cur := st.cur + [c], blank := false, mode := RQuoted)
      case _ => st.(blank := false, mode := RQuoted)
    else if c == '\n' && st.mode == RAfterCr then
      st.(mode := RPlain)
    else if IsTerminator(c) && st.mode != RQuoted then
      RowState(st.rows + [st.cols + [st.cur]], [], "", true, if c == '\r' then RAfterCr else RPlain)
    else if c == ',' && st.mode != RQuoted then
      st.(cols := st.cols + [st.cur], cur := "", blank := false, mode := RPlain)
    else
      st.(cur := st.cur + [c], blank := false, mode := if st.mode == RQuoted then RQuoted else RPlain)
  }

  function ScanRows(text: string): RowState {
    Run(RowStep, ROW_START, text)
  }

  function FinishRows(st: RowState): seq<seq<string>> {
    if st.blank then st.rows else st.rows + [st.cols + [st.cur]]
  }

  function Rows(text: string): seq<seq<string>> {
    FinishRows(ScanRows(text))
  }

  function ColumnsOfEach(lines: seq<string>): seq<seq<string>> {
    seq(|lines|, i requires 0 <= i < |lines| => Columns(lines[i]))
  }

  function CellModeOf(m: RowMode): CellMode {
    match m
    case RQuoted => Quoted
    case RClosed => Closed
    case _ => Plain
  }

  ghost predicate Simulates(ls: LineState, rs: RowState) {
    && rs.rows == ColumnsOfEach(ls.lines)
    && ScanCells(ls.buf) == CellState(rs.cols, rs.cur, CellModeOf(rs.mode))
    && rs.blank == (ls.buf == "")
    && (ls.mode == InQuotes <==> rs.mode == RQuoted)
    && (ls.mode == AfterCr <==> rs.mode == RAfterCr)
    && (ls.mode == AfterCr ==> ls.buf == "")
  }

  lemma ColumnsOfMore(lines: seq<string>, line: string)
    ensures ColumnsOfEach(lines + [line]) == ColumnsOfEach(lines) + [Columns(line)]
  {
  }

  lemma CellsOfMore(buf: string, c: char)
    ensures ScanCells(buf + [c]) == CellStep(ScanCells(buf), c)
  {
    assert (buf + [c])[..|buf|] == buf;
  }

  predicate EndsLine(ls: LineState, c: char) {
    IsTerminator(c) && ls.mode != InQuotes
  }

  lemma SimulatedEnd(ls: LineState, rs: RowState, c: char)
    requires Simulates(ls, rs) && EndsLine(ls, c)
    ensures Simulates(LineStep(ls, c), RowStep(rs, c))
  {
    ColumnsOfMore(ls.lines, ls.buf);
    assert ScanCells("") == CELL_START;
  }

  /** Inside a line the row automaton is the cell automaton. */
  lemma RowStepIsCellStep(cells: CellState, rs: RowState, c: char)
    requires cells == CellState(rs.cols, rs.cur, CellModeOf(rs.mode)) && !(IsTerminator(c) && rs.mode != RQuoted)
    ensures var rs' := RowStep(rs, c);
      && CellStep(cells, c) == CellState(rs'.cols, rs'.cur, CellModeOf(rs'.mode))
      && rs'.rows == rs.rows && !rs'.blank && rs'.mode != RAfterCr
      && (rs'.mode == RQuoted <==> if c == '\"' then rs.mode != RQuoted else rs.mode == RQuoted)
  {
  }

  lemma SimulatedCell(ls: LineState, rs: RowState, c: char)
    requires Simulates(ls, rs) && !EndsLine(ls, c)
    ensures Simulates(LineStep(ls, c), RowStep(rs, c))
  {
    CellsOfMore(ls.buf, c);
    RowStepIsCellStep(ScanCells(ls.buf), rs, c);
  }

  lemma SimulationStep(ls: LineState, rs: RowState, c: char)
    requires Simulates(ls, rs)
    ensures Simulates(LineStep(ls, c), RowStep(rs, c))
  {
    if EndsLine(ls, c) {
      SimulatedEnd(ls, rs, c);
    } else {
      SimulatedCell(ls, rs, c);
    }
  }

  lemma {:induction false} Simulation(text: string)
    ensures Simulates(ScanLines(text), ScanRows(text))
    decreases |text|
  {
    if text != [] {
      var n := |text| - 1;
      Simulation(text[..n]);
      SimulationStep(ScanLines(text[..n]), ScanRows(text[..n]), text[n]);
    }
  }

  /** Parsing every logical line gives the rows of the single pass, whatever the text. */
  lemma TwoPassesEqualOne(text: string)
    ensures ColumnsOfEach(LogicalLines(text)) == Rows(text)
  {
    Simulation(text);
    var st := ScanLines(text);
    if st.buf != "" {
      assert ColumnsOfEach(st.lines + [st.buf]) == ColumnsOfEach(st.lines) + [Columns(st.buf)];
    }
  }
}

/** What a split into logical lines means, without any scanner. */
module CsvSplit {
  import opened Automaton
  import opened CsvScan

  function Quotes(s: string): nat {
    if s == [] then 0 else Quotes(s[..|s| - 1]) + (if s[|s| - 1] == '\"' then 1 else 0)
  }

  /** Every line terminator inside the line stands between an odd and an even quote. */
  ghost predicate TerminatorsQuoted(line: string) {
    forall p :: 0 <= p < |line| && IsTerminator(line[p]) ==> Quotes(line[..p]) % 2 == 1
  }

  predicate IsEnd(e: string) {
    e == "\n" || e == "\r" || e == "\r\n"
  }

  /** Lines and terminators put back together; `|ends|` may be one less than `|lines|`. */
  function Weave(lines: seq<string>, ends: seq<string>): string
    requires |ends| == |lines|
  {
    if lines == [] then ""
    else Weave(lines[..|lines| - 1], ends[..|ends| - 1]) + lines[|lines| - 1] + ends[|ends| - 1]
  }

  /** A lone CR is never followed by the LF that would make it a CRLF. */
  ghost predicate NoSplitCrLf(lines: seq<string>, ends: seq<string>)
    requires |ends| == |lines|
  {
    forall k :: 0 <= k && k + 1 < |ends| && ends[k] == "\r" && lines[k + 1] == "" ==> ends[k + 1] != "\n"
  }

  /** `text` is the closed lines, each followed by its terminator, and then an unfinished `rest`. */
  ghost predicate IsSplit(text: string, lines: seq<string>, ends: seq<string>, rest: string) {
    && |ends| == |lines|
    && text == Weave(lines, ends) + rest
    && (forall k :: 0 <= k < |ends| ==> IsEnd(ends[k]))
    && (forall k :: 0 <= k < |lines| ==> Quotes(lines[k]) % 2 == 0 && TerminatorsQuoted(lines[k]))
    && TerminatorsQuoted(rest)
    && NoSplitCrLf(lines, ends)
  }

  ghost predicate StateSplits(text: string, st: LineState) {
    && IsSplit(text, st.lines, st.ends, st.buf)
    && (st.mode == InQuotes <==> Quotes(st.buf) % 2 == 1)
    && (st.mode == AfterCr <==> st.buf == "" && st.ends != [] && st.ends[|st.ends| - 1] == "\r")
  }

  lemma QuotesNext(s: string, c: char)
    ensures Quotes(s + [c]) == Quotes(s) + (if c == '\"' then 1 else 0)
    ensures (Quotes(s + [c]) % 2 == 1) == if c == '\"' then Quotes(s) % 2 == 0 else Quotes(s) % 2 == 1
  {
    assert (s + [c])[..|s|] == s;
  }

  lemma TerminatorsQuotedNext(s: string, c: char)
    requires TerminatorsQuoted(s)
    requires IsTerminator(c) ==> Quotes(s) % 2 == 1
    ensures TerminatorsQuoted(s + [c])
  {
    forall p | 0 <= p < |s + [c]| && IsTerminator((s + [c])[p])
      ensures Quotes((s + [c])[..p]) % 2 == 1
    {
      assert (s + [c])[..p] == s[..p];
      assert s[..|s|] == s;
    }
  }

  lemma WeaveNext(lines: seq<string>, ends: seq<string>, line: string, end: string)
    requires |ends| == |lines|
    ensures Weave(lines + [line], ends + [end]) == Weave(lines, ends) + line + end
  {
    assert (lines + [line])[..|lines|] == lines && (ends + [end])[..|ends|] == ends;
  }

  lemma WeaveWidened(lines: seq<string>, ends: seq<string>)
    requires |ends| == |lines| && ends != [] && ends[|ends| - 1] == "\r"
    ensures Weave(lines, WidenLast(ends)) == Weave(lines, ends) + ['\n']
  {
    var n := |ends| - 1;
    var before := Weave(lines[..n], ends[..n]) + lines[n];
    assert WidenLast(ends)[..n] == ends[..n];
    assert before + "\r\n" == before + "\r" + ['\n'];
  }

  /** Widening a final lone CR to CRLF keeps the text, with one LF more. */
  lemma SplitSwallow(text: string, st: LineState)
    requires StateSplits(text, st) && st.mode == AfterCr
    ensures StateSplits(text + ['\n'], LineStep(st, '\n'))
  {
    WeaveWidened(st.lines, st.ends);
    assert text + ['\n'] == Weave(st.lines, WidenLast(st.ends)) + "";
    assert NoSplitCrLf(st.lines, WidenLast(st.ends));
  }

  lemma SplitBreak(text: string, st: LineState, c: char)
    requires StateSplits(text, st) && IsTerminator(c) && st.mode != InQuotes
    requires c == '\n' ==> st.mode != AfterCr
    ensures StateSplits(text + [c], LineStep(st, c))
  {
    WeaveNext(st.lines, st.ends, st.buf, [c]);
    var st' := LineStep(st, c);
    assert IsSplit(text + [c], st'.lines, st'.ends, "") by {
      assert text + [c] == Weave(st.lines, st.ends) + st.buf + [c];
    }
  }

  lemma SplitGrow(text: string, st: LineState, c: char)
    requires StateSplits(text, st) && (IsTerminator(c) ==> st.mode == InQuotes)
    ensures IsSplit(text + [c], st.lines, st.ends, st.buf + [c])
  {
    TerminatorsQuotedNext(st.buf, c);
    assert text + [c] == Weave(st.lines, st.ends) + (st.buf + [c]);
  }

  lemma SplitStep(text: string, st: LineState, c: char)
    requires StateSplits(text, st)
    ensures StateSplits(text + [c], LineStep(st, c))
  {
    if c == '\n' && st.mode == AfterCr {
      SplitSwallow(text, st);
    } else if IsTerminator(c) && st.mode != InQuotes {
      SplitBreak(text, st, c);
    } else {
      SplitGrow(text, st, c);
      QuotesNext(st.buf, c);
    }
  }

  lemma {:induction false} SplitFound(text: string)
    ensures StateSplits(text, ScanLines(text))
    decreases |text|
  {
    if text != [] {
      var n := |text| - 1;
      SplitFound(text[..n]);
      assert text == text[..n] + [text[n]];
      SplitStep(text[..n], ScanLines(text[..n]), text[n]);
    }
  }

  lemma QuotedPrefix(s: string, c: char)
    requires TerminatorsQuoted(s + [c])
    ensures TerminatorsQuoted(s) && (IsTerminator(c) ==> Quotes(s) % 2 == 1)
  {
    forall p | 0 <= p < |s| && IsTerminator(s[p]) ensures Quotes(s[..p]) % 2 == 1 {
      assert (s + [c])[p] == s[p] && (s + [c])[..p] == s[..p];
    }
    assert (s + [c])[|s|] == c && (s + [c])[..|s|] == s;
  }

  /** A scanner that has read `s` into its buffer. */
  function Holding(st: LineState, s: string): LineState {
    st.(buf := s, mode := if Quotes(s) % 2 == 1 then InQuotes else Unquoted)
  }

  lemma HoldOne(st: LineState, s: string, c: char)
    requires IsTerminator(c) ==> Quotes(s) % 2 == 1
    ensures LineStep(Holding(st, s), c) == Holding(st, s + [c])
  {
    QuotesNext(s, c);
    var mode := if Quotes(s + [c]) % 2 == 1 then InQuotes else Unquoted;
    assert LineStep(Holding(st, s), c) == st.(buf := s + [c], mode := mode);
  }

  /** Reading one well-quoted piece of a line only grows the buffer. */
  lemma {:induction false} ScanPiece(st: LineState, s: string)
    requires st.buf == "" && st.mode != InQuotes && TerminatorsQuoted(s)
    requires st.mode == AfterCr ==> s != ""
    ensures Run(LineStep, st, s) == Holding(st, s)
    decreases |s|
  {
    if s != [] {
      var front, c := s[..|s| - 1], s[|s| - 1];
      assert s == front + [c];
      QuotedPrefix(front, c);
      if front == "" {
        assert LineStep(st, c) == LineStep(Holding(st, ""), c);
      } else {
        ScanPiece(st, front);
      }
      HoldOne(st, front, c);
    }
  }

  ghost predicate ClosedLines(lines: seq<string>, ends: seq<string>) {
    && |ends| == |lines|
    && (forall k :: 0 <= k < |ends| ==> IsEnd(ends[k]))
    && (forall k :: 0 <= k < |lines| ==> Quotes(lines[k]) % 2 == 0 && TerminatorsQuoted(lines[k]))
    && NoSplitCrLf(lines, ends)
  }

  function AfterLines(lines: seq<string>, ends: seq<string>): LineState {
    LineState(lines, ends, "", if ends != [] && ends[|ends| - 1] == "\r" then AfterCr else Unquoted)
  }

  lemma ScanEnd(st: LineState, e: string)
    requires IsEnd(e) && st.mode != InQuotes
    requires st.mode == AfterCr ==> e != "\n"
    ensures Run(LineStep, st, e) == AfterLines(st.lines + [st.buf], st.ends + [e])
  {
    if e == "\r\n" {
      assert e[..1] == ['\r'];
      RunOne(LineStep, st, '\r');
      assert (st.ends + ["\r"])[..|st.ends|] == st.ends;
    } else {
      RunOne(LineStep, st, e[0]);
    }
  }

  lemma ScanOneLine(st: LineState, line: string, e: string)
    requires st.buf == "" && st.mode != InQuotes
    requires Quotes(line) % 2 == 0 && TerminatorsQuoted(line) && IsEnd(e)
    requires st.mode == AfterCr && line == "" ==> e != "\n"
    ensures Run(LineStep, st, line + e) == AfterLines(st.lines + [line], st.ends + [e])
  {
    RunAppend(LineStep, st, line, e);
    if line != "" {
      ScanPiece(st, line);
    }
    ScanEnd(Run(LineStep, st, line), e);
  }

  lemma ClosedPrefix(lines: seq<string>, ends: seq<string>, n: nat)
    requires ClosedLines(lines, ends) && n + 1 == |lines|
    ensures ClosedLines(lines[..n], ends[..n])
    ensures Quotes(lines[n]) % 2 == 0 && TerminatorsQuoted(lines[n]) && IsEnd(ends[n])
    ensures AfterLines(lines[..n], ends[..n]).mode == AfterCr && lines[n] == "" ==> ends[n] != "\n"
  {
  }

  lemma {:induction false} ScanWeave(lines: seq<string>, ends: seq<string>)
    requires ClosedLines(lines, ends)
    ensures ScanLines(Weave(lines, ends)) == AfterLines(lines, ends)
    decreases |lines|
  {
    if lines != [] {
      var n := |lines| - 1;
      ClosedPrefix(lines, ends, n);
      var lines', ends' := lines[..n], ends[..n];
      assert lines == lines' + [lines[n]] && ends == ends' + [ends[n]];
      ScanWeave(lines', ends');
      WeaveOneMore(lines', ends', lines[n], ends[n]);
    }
  }

  lemma WeaveOneMore(lines: seq<string>, ends: seq<string>, line: string, e: string)
    requires |ends| == |lines| && ScanLines(Weave(lines, ends)) == AfterLines(lines, ends)
    requires Quotes(line) % 2 == 0 && TerminatorsQuoted(line) && IsEnd(e)
    requires AfterLines(lines, ends).mode == AfterCr && line == "" ==> e != "\n"
    ensures ScanLines(Weave(lines + [line], ends + [e])) == AfterLines(lines + [line], ends + [e])
  {
    var before := Weave(lines, ends);
    WeaveNext(lines, ends, line, e);
    assert before + line + e == before + (line + e);
    RunAppend(LineStep, LINE_START, before, line + e);
    ScanOneLine(AfterLines(lines, ends), line, e);
  }

  /** A text has exactly one such split, and the scanner finds it. */
  lemma SplitIsExact(text: string, lines: seq<string>, ends: seq<string>, rest: string)
    ensures IsSplit(text, lines, ends, rest) <==>
      var st := ScanLines(text); lines == st.lines && ends == st.ends && rest == st.buf
  {
    SplitFound(text);
    if IsSplit(text, lines, ends, rest) {
      ScanWeave(lines, ends);
      RunAppend(LineStep, LINE_START, Weave(lines, ends), rest);
      if rest != "" {
        ScanPiece(AfterLines(lines, ends), rest);
      }
    }
  }

  /** So the logical lines are the pieces of the split, and a last unterminated one if non-empty. */
  lemma LogicalLinesOfSplit(text: string, lines: seq<string>, ends: seq<string>, rest: string)
    requires IsSplit(text, lines, ends, rest)
    ensures LogicalLines(text) == lines + (if rest == "" then [] else [rest])
    ensures LogicalLines(text) == [] <==> text == ""
  {
    SplitIsExact(text, lines, ends, rest);
  }
}

/** What the columns of a line are, without any scanner. */
module CsvCells {
  import opened CsvScan
  import opened CsvSplit

  /** Pieces put back together with a comma between any two. */
  function Commas(pieces: seq<string>): string
    requires pieces != []
  {
    var n := |pieces| - 1;
    if n == 0 then pieces[0] else Commas(pieces[..n]) + "," + pieces[n]
  }

  /** Every comma inside the piece stands between an odd and an even quote. */
  ghost predicate CommasQuoted(piece: string) {
    forall p :: 0 <= p < |piece| && piece[p] == ',' ==> Quotes(piece[..p]) % 2 == 1
  }

  /** The line is cut at its commas outside quotes, and at no other; the last piece may be left open. */
  ghost predicate IsCut(line: string, pieces: seq<string>) {
    && pieces != [] && line == Commas(pieces)
    && (forall k :: 0 <= k < |pieces| ==> CommasQuoted(pieces[k]))
    && (forall k :: 0 <= k < |pieces| - 1 ==> Quotes(pieces[k]) % 2 == 0)
  }

  /** A quote stands for itself only as the second of two inside an open quotation. */
  predicate IsText(piece: string, p: nat)
    requires p < |piece|
  {
    piece[p] == '\"' ==> p > 0 && piece[p - 1] == '\"' && Quotes(piece[..p - 1]) % 2 == 1
  }

  /** The piece without the quotes that do not stand for themselves. */
  function TextOf(piece: string): string {
    if piece == "" then ""
    else
      var n := |piece| - 1;
      TextOf(piece[..n]) + if IsText(piece, n) then [piece[n]] else ""
  }

  function TextsOf(pieces: seq<string>): seq<string> {
    seq(|pieces|, k requires 0 <= k < |pieces| => TextOf(pieces[k]))
  }

  lemma {:induction false} TextOfNext(piece: string, c: char)
    ensures TextOf(piece + [c]) == TextOf(piece) + if IsText(piece + [c], |piece|) then [c] else ""
  {
    assert (piece + [c])[..|piece|] == piece;
  }

  lemma CommasQuotedNext(piece: string, c: char)
    ensures CommasQuoted(piece + [c]) <==> CommasQuoted(piece) && (c == ',' ==> Quotes(piece) % 2 == 1)
  {
    var more := piece + [c];
    assert more[|piece|] == c && more[..|piece|] == piece;
    forall p | 0 <= p < |piece| ensures more[p] == piece[p] && more[..p] == piece[..p] { }
  }

  lemma CommasNext(front: seq<string>, last: string, c: char)
    ensures Commas(front + [last + [c]]) == Commas(front + [last]) + [c]
  {
    assert (front + [last + [c]])[..|front|] == front && (front + [last])[..|front|] == front;
    if front != [] {
      assert Commas(front) + "," + (last + [c]) == (Commas(front) + "," + last) + [c];
    }
  }

  lemma CommasClose(pieces: seq<string>)
    requires pieces != []
    ensures Commas(pieces + [""]) == Commas(pieces) + [',']
  {
    assert (pieces + [""])[..|pieces|] == pieces;
  }

  /** Growing the last piece. */
  lemma CutGrows(line: string, front: seq<string>, last: string, c: char)
    requires IsCut(line, front + [last]) && (c == ',' ==> Quotes(last) % 2 == 1)
    ensures IsCut(line + [c], front + [last + [c]])
  {
    CommasNext(front, last, c);
    assert (front + [last])[|front|] == last;
    CommasQuotedNext(last, c);
    forall k | 0 <= k < |front| ensures (front + [last + [c]])[k] == (front + [last])[k] { }
  }

  /** Starting a new piece. */
  lemma CutCloses(line: string, pieces: seq<string>)
    requires IsCut(line, pieces) && Quotes(pieces[|pieces| - 1]) % 2 == 0
    ensures IsCut(line + [','], pieces + [""])
  {
    CommasClose(pieces);
    forall k | 0 <= k < |pieces| ensures (pieces + [""])[k] == pieces[k] { }
  }

  /** The scanner after the pieces of a cut: the quotes read so far tell the mode. */
  ghost predicate Holds(st: CellState, front: seq<string>, last: string) {
    && st.cols == TextsOf(front) && st.cur == TextOf(last)
    && (st.mode == Quoted <==> Quotes(last) % 2 == 1)
    && (st.mode == Closed <==> last != "" && last[|last| - 1] == '\"' && Quotes(last) % 2 == 0)
  }

  lemma HoldsGrown(st: CellState, front: seq<string>, last: string, c: char)
    requires Holds(st, front, last) && (c == ',' ==> Quotes(last) % 2 == 1)
    ensures Holds(CellStep(st, c), front, last + [c])
  {
    TextOfNext(last, c);
    QuotesNext(last, c);
    if last != "" {
      var n := |last| - 1;
      assert last == last[..n] + [last[n]];
      QuotesNext(last[..n], last[n]);
      assert (last + [c])[..n] == last[..n] && (last + [c])[n] == last[n];
    }
  }

  lemma HoldsClosed(st: CellState, front: seq<string>, last: string)
    requires Holds(st, front, last) && Quotes(last) % 2 == 0
    ensures Holds(CellStep(st, ','), front + [last], "")
  {
    assert TextsOf(front + [last]) == TextsOf(front) + [TextOf(last)];
  }

  /** One more character grows the last piece or starts a new one. */
  lemma CutNext(line: string, front: seq<string>, last: string, c: char) returns (front': seq<string>, last': string)
    requires IsCut(line, front + [last]) && Holds(ScanCells(line), front, last)
    ensures IsCut(line + [c], front' + [last']) && Holds(ScanCells(line + [c]), front', last')
  {
    CellsOfMore(line, c);
    if c == ',' && Quotes(last) % 2 == 0 {
      front', last' := front + [last], "";
      CutCloses(line, front + [last]);
      HoldsClosed(ScanCells(line), front, last);
    } else {
      front', last' := front, last + [c];
      CutGrows(line, front, last, c);
      HoldsGrown(ScanCells(line), front, last, c);
    }
  }

  /** The scanner cuts every line, balanced or not. */
  lemma {:induction false} CutFound(line: string) returns (front: seq<string>, last: string)
    ensures IsCut(line, front + [last]) && Holds(ScanCells(line), front, last)
    decreases |line|
  {
    if line == "" {
      front, last := [], "";
      assert [] + [""] == [""];
    } else {
      var n := |line| - 1;
      front, last := CutFound(line[..n]);
      assert line == line[..n] + [line[n]];
      front, last := CutNext(line[..n], front, last, line[n]);
    }
  }

  // ---------- there is only one cut ----------

  lemma CutShrinks(line: string, front: seq<string>, last: string, c: char)
    requires IsCut(line + [c], front + [last]) && last != ""
    ensures last[|last| - 1] == c && IsCut(line, front + [last[..|last| - 1]])
    ensures c == ',' ==> Quotes(last[..|last| - 1]) % 2 == 1
  {
    var n := |last| - 1;
    var shorter := last[..n];
    assert last == shorter + [last[n]];
    CommasNext(front, shorter, last[n]);
    assert Commas(front + [shorter]) + [last[n]] == line + [c];
    assert (line + [c])[|line|] == c && (line + [c])[..|line|] == line;
    assert (Commas(front + [shorter]) + [last[n]])[..|line|] == Commas(front + [shorter]);
    assert (front + [last])[|front|] == last;
    CommasQuotedNext(shorter, last[n]);
    forall k | 0 <= k < |front| ensures (front + [shorter])[k] == (front + [last])[k] { }
  }

  lemma CutReopens(line: string, front: seq<string>, c: char)
    requires IsCut(line + [c], front + [""])
    ensures front != [] && c == ',' && IsCut(line, front) && Quotes(front[|front| - 1]) % 2 == 0
  {
    assert front == [] ==> front + [""] == [""];
    if front != [] {
      CommasClose(front);
      assert (line + [c])[|line|] == c && (line + [c])[..|line|] == line;
      assert (Commas(front) + [','])[..|line|] == Commas(front);
      forall k | 0 <= k < |front| ensures (front + [""])[k] == front[k] { }
    }
  }

  lemma Apart(pieces: seq<string>)
    requires pieces != []
    ensures pieces == pieces[..|pieces| - 1] + [pieces[|pieces| - 1]]
  {
  }

  /** A cut does not end in a comma of its last piece where another ends after it. */
  lemma MixedEnds(line: string, front: seq<string>, last: string, c: char, pieces: seq<string>)
    requires IsCut(line + [c], front + [last]) && last != "" && IsCut(line + [c], pieces + [""])
    ensures front + [last[..|last| - 1]] != pieces
  {
    CutShrinks(line, front, last, c);
    CutReopens(line, pieces, c);
    assert (front + [last[..|last| - 1]])[|front|] == last[..|last| - 1];
  }

  lemma {:induction false} CutIsUnique(line: string, a: seq<string>, b: seq<string>)
    requires IsCut(line, a) && IsCut(line, b)
    ensures a == b
    decreases |line|
  {
    if line == "" {
      EmptyCut(a);
      EmptyCut(b);
    } else {
      var before, c := line[..|line| - 1], line[|line| - 1];
      assert line == before + [c];
      var front, last, shorter := CutBack(before, c, a);
      var front', last', shorter' := CutBack(before, c, b);
      CutIsUnique(before, shorter, shorter');
      if last == "" {
        if last' != "" {
          MixedEnds(before, front', last', c, front);
        }
      } else if last' == "" {
        MixedEnds(before, front, last, c, front');
      } else {
        SameEnds(front, last[..|last| - 1], front', last'[..|last'| - 1]);
      }
    }
  }

  /** A cut of a line is a cut of the line before its last character, with one character less. */
  lemma CutBack(before: string, c: char, pieces: seq<string>)
    returns (front: seq<string>, last: string, shorter: seq<string>)
    requires IsCut(before + [c], pieces)
    ensures pieces == front + [last] && IsCut(before, shorter)
    ensures shorter == if last == "" then front else front + [last[..|last| - 1]]
    ensures last != "" ==> last == last[..|last| - 1] + [c]
  {
    front, last := pieces[..|pieces| - 1], pieces[|pieces| - 1];
    Apart(pieces);
    if last == "" {
      CutReopens(before, front, c);
      shorter := front;
    } else {
      CutShrinks(before, front, last, c);
      shorter := front + [last[..|last| - 1]];
    }
  }

  lemma SameEnds(front: seq<string>, last: string, front': seq<string>, last': string)
    requires front + [last] == front' + [last']
    ensures front == front' && last == last'
  {
    assert (front + [last])[|front|] == last && (front' + [last'])[|front'|] == last';
    assert (front + [last])[..|front|] == front && (front' + [last'])[..|front'|] == front';
  }

  lemma EmptyCut(pieces: seq<string>)
    requires IsCut("", pieces)
    ensures pieces == [""]
  {
    SeveralHaveComma(pieces);
  }

  lemma SeveralHaveComma(pieces: seq<string>)
    requires pieces != []
    ensures |pieces| > 1 ==> Commas(pieces) != ""
  {
  }

  /**
   * Every line has exactly one cut at its unquoted commas, and its columns are the texts of those
   * pieces: without their quotes, but for one of each doubled quote inside an open quotation.
   */
  lemma CutIsExact(line: string, pieces: seq<string>) returns (cut: seq<string>)
    ensures IsCut(line, cut) && (IsCut(line, pieces) <==> pieces == cut)
    ensures Columns(line) == TextsOf(cut)
  {
    var front, last := CutFound(line);
    cut := front + [last];
    assert TextsOf(cut) == TextsOf(front) + [TextOf(last)];
    if IsCut(line, pieces) {
      CutIsUnique(line, pieces, cut);
    }
  }
}

/** Printing a table by section 2 of RFC 4180. */
module CsvPrint {
  import opened Automaton
  import opened CsvScan

  /** A field and the writer's choice to quote it. */
  datatype Field = Field(text: string, quoted: bool)

  datatype Eol = Lf | CrLf | NoEol

  datatype Record = Record(fields: seq<Field>, eol: Eol)

  predicate Special(c: char) {
    c == '\"' || c == ',' || IsTerminator(c)
  }

  /** Only a field without quotes, commas and line breaks may be written bare. */
  predicate Printable(f: Field) {
    f.quoted || forall p :: 0 <= p < |f.text| ==> !Special(f.text[p])
  }

  function Doubled(s: string): string {
    if s == "" then ""
    else Doubled(s[..|s| - 1]) + (if s[|s| - 1] == '\"' then "\"\"" else [s[|s| - 1]])
  }

  function PrintField(f: Field): string {
    if f.quoted then "\"" + Doubled(f.text) + "\"" else f.text
  }

  function PrintFields(fields: seq<Field>): string
    requires fields != []
  {
    var n := |fields| - 1;
    if n == 0 then PrintField(fields[0]) else PrintFields(fields[..n]) + "," + PrintField(fields[n])
  }

  function PrintEol(eol: Eol): string {
    match eol
    case Lf => "\n"
    case CrLf => "\r\n"
    case NoEol => ""
  }

  /** Non-empty records; only the last may lack its line break, and then it must print something. */
  ghost predicate ValidTable(records: seq<Record>) {
    forall i :: 0 <= i < |records| ==>
      && records[i].fields != []
      && (forall j :: 0 <= j < |records[i].fields| ==> Printable(records[i].fields[j]))
      && (records[i].eol == NoEol ==> i == |records| - 1 && PrintFields(records[i].fields) != "")
  }

  function PrintTable(records: seq<Record>): string
    requires forall i :: 0 <= i < |records| ==> records[i].fields != []
  {
    if records == [] then ""
    else
      var n := |records| - 1;
      PrintTable(records[..n]) + PrintFields(records[n].fields) + PrintEol(records[n].eol)
  }

  function Texts(fields: seq<Field>): seq<string> {
    seq(|fields|, j requires 0 <= j < |fields| => fields[j].text)
  }

  function TextTable(records: seq<Record>): seq<seq<string>> {
    seq(|records|, i requires 0 <= i < |records| => Texts(records[i].fields))
  }

  lemma {:induction false} ScanDoubled(st: RowState, s: string)
    requires st.mode == RQuoted && st.cur == "" && !st.blank
    ensures Run(RowStep, st, Doubled(s)) == st.(cur := s)
    decreases |s|
  {
    if s != "" {
      var n := |s| - 1;
      ScanDoubled(st, s[..n]);
      assert s[..n] + [s[n]] == s;
      var c := if s[n] == '\"' then "\"\"" else [s[n]];
      RunAppend(RowStep, st, Doubled(s[..n]), c);
      var mid := st.(cur := s[..n]);
      if s[n] == '\"' {
        assert c[..1] == ['\"'];
        RunOne(RowStep, mid, '\"');
      } else {
        RunOne(RowStep, mid, s[n]);
      }
    }
  }

  lemma {:induction false} ScanBare(st: RowState, s: string)
    requires st.mode == RPlain && st.cur == ""
    requires forall p :: 0 <= p < |s| ==> !Special(s[p])
    ensures Run(RowStep, st, s) == st.(cur := s, blank := st.blank && s == "")
    decreases |s|
  {
    if s != "" {
      var n := |s| - 1;
      ScanBare(st, s[..n]);
      assert s[..n] + [s[n]] == s;
    }
  }

  function AfterField(st: RowState, f: Field): RowState {
    st.(cur := f.text, blank := st.blank && PrintField(f) == "", mode := if f.quoted then RClosed else RPlain)
  }

  lemma ScanField(st: RowState, f: Field)
    requires st.mode == RPlain && st.cur == "" && Printable(f)
    ensures Run(RowStep, st, PrintField(f)) == AfterField(st, f)
  {
    if f.quoted {
      var inside := st.(blank := false, mode := RQuoted);
      RunOne(RowStep, st, '\"');
      RunAppend(RowStep, st, "\"", Doubled(f.text));
      ScanDoubled(inside, f.text);
      RunAppend(RowStep, st, "\"" + Doubled(f.text), "\"");
      RunOne(RowStep, inside.(cur := f.text), '\"');
    } else {
      ScanBare(st, f.text);
    }
  }

  /** The cells read after the fields of one record, before its line break. */
  ghost predicate HoldsFields(st: RowState, rows: seq<seq<string>>, fields: seq<Field>)
    requires fields != []
  {
    && st.rows == rows
    && st.cols + [st.cur] == Texts(fields)
    && (st.mode == RPlain || st.mode == RClosed)
    && st.blank == (PrintFields(fields) == "")
  }

  lemma ScanNextField(st: RowState, text: string, mid: RowState, f: Field)
    requires Run(RowStep, st, text) == mid && (mid.mode == RPlain || mid.mode == RClosed) && Printable(f)
    ensures Run(RowStep, st, text + "," + PrintField(f))
      == AfterField(RowState(mid.rows, mid.cols + [mid.cur], "", false, RPlain), f)
  {
    RunAppend(RowStep, st, text, ",");
    RunOne(RowStep, mid, ',');
    RunAppend(RowStep, st, text + ",", PrintField(f));
    ScanField(RowStep(mid, ','), f);
  }

  lemma {:induction false} ScanFields(st: RowState, fields: seq<Field>)
    requires st == RowState(st.rows, [], "", true, RPlain)
    requires fields != [] && forall j :: 0 <= j < |fields| ==> Printable(fields[j])
    ensures HoldsFields(Run(RowStep, st, PrintFields(fields)), st.rows, fields)
    decreases |fields|
  {
    var n := |fields| - 1;
    if n == 0 {
      ScanField(st, fields[0]);
    } else {
      var front := fields[..n];
      ScanFields(st, front);
      ScanNextField(st, PrintFields(front), Run(RowStep, st, PrintFields(front)), fields[n]);
      assert Texts(fields) == Texts(front) + [fields[n].text];
      assert |PrintFields(fields)| > 0;
    }
  }

  lemma ScanRecordEnd(st: RowState, eol: Eol)
    requires (st.mode == RPlain || st.mode == RClosed) && eol != NoEol
    ensures Run(RowStep, st, PrintEol(eol)) == RowState(st.rows + [st.cols + [st.cur]], [], "", true, RPlain)
  {
    if eol == Lf {
      RunOne(RowStep, st, '\n');
    } else {
      assert "\r\n"[..1] == ['\r'];
      RunOne(RowStep, st, '\r');
    }
  }

  /** Between records: all rows complete, nothing read since. */
  function AtRowStart(rows: seq<seq<string>>): RowState {
    RowState(rows, [], "", true, RPlain)
  }

  lemma ScanRecord(text: string, rows: seq<seq<string>>, r: Record)
    requires ScanRows(text) == AtRowStart(rows)
    requires r.fields != [] && forall j :: 0 <= j < |r.fields| ==> Printable(r.fields[j])
    ensures var end := ScanRows(text + PrintFields(r.fields) + PrintEol(r.eol));
      if r.eol == NoEol then HoldsFields(end, rows, r.fields) else end == AtRowStart(rows + [Texts(r.fields)])
  {
    RunAppend(RowStep, ROW_START, text, PrintFields(r.fields));
    ScanFields(AtRowStart(rows), r.fields);
    var mid := ScanRows(text + PrintFields(r.fields));
    RunAppend(RowStep, ROW_START, text + PrintFields(r.fields), PrintEol(r.eol));
    if r.eol != NoEol {
      ScanRecordEnd(mid, r.eol);
    }
  }

  lemma {:induction false} ScanTable(records: seq<Record>)
    requires ValidTable(records)
    ensures FinishRows(ScanRows(PrintTable(records))) == TextTable(records)
    ensures (records == [] || records[|records| - 1].eol != NoEol) ==>
      ScanRows(PrintTable(records)) == AtRowStart(TextTable(records))
    decreases |records|
  {
    if records != [] {
      var front, r := records[..|records| - 1], records[|records| - 1];
      ScanTable(front);
      ScanRecord(PrintTable(front), TextTable(front), r);
      assert TextTable(records) == TextTable(front) + [Texts(r.fields)];
      assert PrintTable(records) == PrintTable(front) + PrintFields(r.fields) + PrintEol(r.eol);
    }
  }

  /** Splitting and parsing a printed table gives the table back, whatever its field texts. */
  lemma RoundTrip(records: seq<Record>)
    requires ValidTable(records)
    ensures ColumnsOfEach(LogicalLines(PrintTable(records))) == TextTable(records)
  {
    ScanTable(records);
    TwoPassesEqualOne(PrintTable(records));
  }
}
