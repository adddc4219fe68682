/** Free text to an OR-joined `to_tsquery` string, and back. */
module TsQuery {
  import opened Common
  import opened Automaton

  /** Which characters `\w` matches, and a lower-casing that works character by character. */
  datatype Letters = Letters(isWord: char -> bool, lower: char -> char)

  /** Lower-casing settles at once and keeps word characters; blank and bar are none. */
  ghost predicate Sane(l: Letters) {
    && !l.isWord(' ') && !l.isWord('|')
    && forall c: char :: l.lower(l.lower(c)) == l.lower(c) && (l.isWord(c) ==> l.isWord(l.lower(c)))
  }

  datatype Scan = Scan(words: seq<string>, cur: string)

  const START := Scan([], "")

  function ScanStep(l: Letters): (Scan, char) -> Scan {
    (st: Scan, c: char) =>
      if l.isWord(c) then st.(cur := st.cur + [c])
      else if st.cur == "" then st
      else Scan(st.words + [st.cur], "")
  }

  function FinishScan(st: Scan): seq<string> {
    if st.cur == "" then st.words else st.words + [st.cur]
  }

  /** `findall(r"\w+", text)`. */
  function Tokens(text: string, l: Letters): seq<string> {
    FinishScan(Run(ScanStep(l), START, text))
  }

  function Lowered(word: string, l: Letters): string {
    seq(|word|, i requires 0 <= i < |word| => l.lower(word[i]))
  }

  function LoweredAll(words: seq<string>, l: Letters): seq<string> {
    seq(|words|, i requires 0 <= i < |words| => Lowered(words[i], l))
  }

  predicate Significant(word: string) {
    |word| >= 3
  }

  /** `dict.fromkeys`: the first occurrence of each word. */
  function Dedup(words: seq<string>): seq<string> {
    if words == [] then []
    else
      var n := |words| - 1;
      var before := Dedup(words[..n]);
      if words[n] in before then before else before + [words[n]]
  }

  function Join(words: seq<string>): string {
    if words == [] then ""
    else if |words| == 1 then words[0]
    else words[0] + " | " + Join(words[1..])
  }

  function Terms(text: string, l: Letters): seq<string> {
    Dedup(Filter(LoweredAll(Tokens(text, l), l), Significant))
  }

  function Query(text: string, l: Letters): string {
    Join(Terms(text, l))
  }

  // ---------- tokens ----------

  ghost predicate AllWord(s: string, l: Letters) {
    forall p :: 0 <= p < |s| ==> l.isWord(s[p])
  }

  ghost predicate NoWord(s: string, l: Letters) {
    forall p :: 0 <= p < |s| ==> !l.isWord(s[p])
  }

  /** A gap, then each word followed by its gap. */
  function Spaced(lead: string, words: seq<string>, gaps: seq<string>): string
    requires |gaps| == |words|
  {
    if words == [] then lead
    else Spaced(lead, words[..|words| - 1], gaps[..|gaps| - 1]) + words[|words| - 1] + gaps[|gaps| - 1]
  }

  lemma {:induction false} ScanGap(st: Scan, gap: string, l: Letters)
    requires NoWord(gap, l)
    ensures Run(ScanStep(l), st, gap) == if gap == "" then st else Scan(FinishScan(st), "")
    decreases |gap|
  {
    if gap != "" {
      var n := |gap| - 1;
      ScanGap(st, gap[..n], l);
    }
  }

  lemma {:induction false} ScanWord(st: Scan, word: string, l: Letters)
    requires AllWord(word, l)
    ensures Run(ScanStep(l), st, word) == st.(cur := st.cur + word)
    decreases |word|
  {
    if word != "" {
      var n := |word| - 1;
      ScanWord(st, word[..n], l);
      assert word == word[..n] + [word[n]];
    }
  }

  /** After a word of its own, the scan holds that word; a gap then closes it. */
  lemma ScanWordAndGap(before: string, done: seq<string>, word: string, gap: string, l: Letters)
    requires Run(ScanStep(l), START, before) == Scan(done, "")
    requires word != "" && AllWord(word, l) && NoWord(gap, l)
    ensures Run(ScanStep(l), START, before + word + gap)
      == if gap == "" then Scan(done, word) else Scan(done + [word], "")
  {
    RunAppend(ScanStep(l), START, before, word);
    ScanWord(Scan(done, ""), word, l);
    RunAppend(ScanStep(l), START, before + word, gap);
    ScanGap(Scan(done, word), gap, l);
    assert "" + word == word;
  }

  /** Words with a gap between any two; the last gap may be empty. */
  ghost predicate Separated(lead: string, words: seq<string>, gaps: seq<string>, l: Letters) {
    && |gaps| == |words| && NoWord(lead, l)
    && (forall i :: 0 <= i < |words| ==> words[i] != "" && AllWord(words[i], l) && NoWord(gaps[i], l))
    && forall i :: 0 <= i < |words| - 1 ==> gaps[i] != ""
  }

  lemma SeparatedFront(lead: string, words: seq<string>, gaps: seq<string>, l: Letters)
    requires Separated(lead, words, gaps, l) && words != []
    ensures var n := |words| - 1;
      && Separated(lead, words[..n], gaps[..n], l)
      && (words[..n] == [] || gaps[..n][|gaps[..n]| - 1] != "")
      && words[n] != "" && AllWord(words[n], l) && NoWord(gaps[n], l)
  {
  }

  /** The tokens of a text are its maximal runs of word characters. */
  lemma {:induction false} TokensOfSpaced(lead: string, words: seq<string>, gaps: seq<string>, l: Letters)
    requires Separated(lead, words, gaps, l)
    ensures Tokens(Spaced(lead, words, gaps), l) == words
    ensures words == [] || gaps[|gaps| - 1] != "" ==>
      Run(ScanStep(l), START, Spaced(lead, words, gaps)) == Scan(words, "")
    decreases |words|
  {
    if words == [] {
      ScanGap(START, lead, l);
    } else {
      var n := |words| - 1;
      SeparatedFront(lead, words, gaps, l);
      TokensOfSpaced(lead, words[..n], gaps[..n], l);
      ScanWordAndGap(Spaced(lead, words[..n], gaps[..n]), words[..n], words[n], gaps[n], l);
      assert words == words[..n] + [words[n]];
    }
  }

  lemma SpacedNext(lead: string, words: seq<string>, gaps: seq<string>, word: string, gap: string)
    requires |gaps| == |words|
    ensures Spaced(lead, words + [word], gaps + [gap]) == Spaced(lead, words, gaps) + word + gap
  {
    assert (words + [word])[..|words|] == words && (gaps + [gap])[..|gaps|] == gaps;
  }

  lemma SeparatedNext(lead: string, words: seq<string>, gaps: seq<string>, word: string, gap: string, l: Letters)
    requires Separated(lead, words, gaps, l) && (gaps == [] || gaps[|gaps| - 1] != "")
    requires word != "" && AllWord(word, l) && NoWord(gap, l)
    ensures Separated(lead, words + [word], gaps + [gap], l)
  {
  }

  /** One more character starts a word, or continues the last word or gap. */
  lemma SpacedByOne(lead: string, words: seq<string>, gaps: seq<string>, c: char, l: Letters)
    returns (lead': string, words': seq<string>, gaps': seq<string>)
    requires Separated(lead, words, gaps, l)
    ensures Separated(lead', words', gaps', l)
    ensures Spaced(lead', words', gaps') == Spaced(lead, words, gaps) + [c]
  {
    lead', words', gaps' := lead, words, gaps;
    if l.isWord(c) && (gaps == [] || gaps[|gaps| - 1] != "") {
      words', gaps' := words + [[c]], gaps + [""];
      SeparatedNext(lead, words, gaps, [c], "", l);
      SpacedNext(lead, words, gaps, [c], "");
    } else if gaps == [] {
      lead' := lead + [c];
    } else {
      var n := |words| - 1;
      var word := if l.isWord(c) then words[n] + [c] else words[n];
      var gap := if l.isWord(c) then "" else gaps[n] + [c];
      words', gaps' := words[..n] + [word], gaps[..n] + [gap];
      SeparatedNext(lead, words[..n], gaps[..n], word, gap, l);
      SpacedNext(lead, words[..n], gaps[..n], word, gap);
      var before := Spaced(lead, words[..n], gaps[..n]);
      assert before + word + gap == before + words[n] + gaps[n] + [c];
    }
  }

  /** Every text is words separated by gaps, and in whatever way, its tokens are those words. */
  lemma {:induction false} EveryTextIsSpaced(text: string, l: Letters)
    returns (lead: string, words: seq<string>, gaps: seq<string>)
    ensures Separated(lead, words, gaps, l) && Spaced(lead, words, gaps) == text && Tokens(text, l) == words
    decreases |text|
  {
    if text == "" {
      lead, words, gaps := "", [], [];
    } else {
      var n := |text| - 1;
      lead, words, gaps := EveryTextIsSpaced(text[..n], l);
      assert text == text[..n] + [text[n]];
      lead, words, gaps := SpacedByOne(lead, words, gaps, text[n], l);
    }
    TokensOfSpaced(lead, words, gaps, l);
  }

  ghost predicate Words(words: seq<string>, l: Letters) {
    forall i :: 0 <= i < |words| ==> words[i] != "" && AllWord(words[i], l)
  }

  lemma {:induction false} ScanYieldsWords(text: string, l: Letters)
    ensures Words(Run(ScanStep(l), START, text).words, l) && AllWord(Run(ScanStep(l), START, text).cur, l)
    decreases |text|
  {
    if text != "" {
      ScanYieldsWords(text[..|text| - 1], l);
    }
  }

  // ---------- first occurrences ----------

  ghost predicate Distinct(words: seq<string>) {
    forall i, j :: 0 <= i < j < |words| ==> words[i] != words[j]
  }

  function FirstAt(words: seq<string>, w: string): nat
    requires w in words
  {
    if words[0] == w then 0 else 1 + FirstAt(words[1..], w)
  }

  lemma {:induction false} FirstAtAppend(words: seq<string>, more: seq<string>, w: string)
    requires w in words
    ensures FirstAt(words + more, w) == FirstAt(words, w) < |words|
    decreases |words|
  {
    if words[0] != w {
      assert (words + more)[1..] == words[1..] + more;
      FirstAtAppend(words[1..], more, w);
    }
  }

  lemma {:induction false} FirstAtNew(words: seq<string>, w: string)
    requires w !in words
    ensures FirstAt(words + [w], w) == |words|
    decreases |words|
  {
    if words != [] {
      assert words[0] in words;
      assert (words + [w])[1..] == words[1..] + [w];
      FirstAtNew(words[1..], w);
    }
  }

  /** Each word once, in the order of first occurrence. */
  lemma {:induction false} DedupKeepsFirsts(words: seq<string>)
    ensures Distinct(Dedup(words))
    ensures forall w :: w in Dedup(words) <==> w in words
    ensures forall i, j :: 0 <= i < j < |Dedup(words)| ==>
      FirstAt(words, Dedup(words)[i]) < FirstAt(words, Dedup(words)[j])
    decreases |words|
  {
    if words != [] {
      var n := |words| - 1;
      var front, d := words[..n], Dedup(words);
      assert words == front + [words[n]];
      DedupKeepsFirsts(front);
      forall w | w in front ensures FirstAt(words, w) == FirstAt(front, w) < n {
        FirstAtAppend(front, [words[n]], w);
      }
      if words[n] !in front {
        FirstAtNew(front, words[n]);
      }
    }
  }

  lemma {:induction false} DedupOfDistinct(words: seq<string>)
    requires Distinct(words)
    ensures Dedup(words) == words
    decreases |words|
  {
    if words != [] {
      var n := |words| - 1;
      DedupOfDistinct(words[..n]);
      assert words == words[..n] + [words[n]];
      assert words[n] !in words[..n];
    }
  }

  // ---------- splitting the query ----------

  /** `query.split(" | ")`. */
  function Split(s: string): (parts: seq<string>)
    ensures parts != []
  {
    if s == "" then [""]
    else if |s| >= 3 && s[..3] == " | " then [""] + Split(s[3..])
    else
      var rest := Split(s[1..]);
      [[s[0]] + rest[0]] + rest[1..]
  }

  lemma {:induction false} SplitWord(word: string, rest: string)
    requires ' ' !in word
    ensures Split(word + " | " + rest) == [word] + Split(rest)
    decreases |word|
  {
    var s := word + " | " + rest;
    if word == "" {
      assert s[..3] == " | " && s[3..] == rest;
    } else {
      assert s[0] == word[0] && s[0] in word;
      assert s[1..] == word[1..] + " | " + rest;
      SplitWord(word[1..], rest);
      assert [word[0]] + word[1..] == word;
    }
  }

  lemma {:induction false} SplitSingle(word: string)
    requires ' ' !in word
    ensures Split(word) == [word]
    decreases |word|
  {
    if word != "" {
      assert word[0] in word;
      SplitSingle(word[1..]);
      assert [word[0]] + word[1..] == word;
    }
  }

  lemma {:induction false} SplitJoin(words: seq<string>)
    requires words != [] && forall i :: 0 <= i < |words| ==> ' ' !in words[i]
    ensures Split(Join(words)) == words
    decreases |words|
  {
    if |words| == 1 {
      SplitSingle(words[0]);
    } else {
      SplitJoin(words[1..]);
      SplitWord(words[0], Join(words[1..]));
      assert words == [words[0]] + words[1..];
    }
  }

  /** A term of a query: a lower-cased word of at least three characters. */
  ghost predicate IsTerm(w: string, l: Letters) {
    Significant(w) && AllWord(w, l) && Lowered(w, l) == w
  }

  lemma TermsAreWords(text: string, l: Letters)
    requires Sane(l)
    ensures Distinct(Terms(text, l)) && forall w :: w in Terms(text, l) ==> IsTerm(w, l)
  {
    ScanYieldsWords(text, l);
    var tokens := Tokens(text, l);
    var lowered := LoweredAll(tokens, l);
    DedupKeepsFirsts(Filter(lowered, Significant));
    forall w | w in Terms(text, l) ensures IsTerm(w, l) {
      FilterIn(lowered, Significant, w);
      var i :| 0 <= i < |lowered| && lowered[i] == w;
      assert AllWord(tokens[i], l);
      assert Lowered(w, l) == w;
    }
  }

  lemma TermHasNoBlank(w: string, l: Letters)
    requires Sane(l) && IsTerm(w, l)
    ensures ' ' !in w
  {
  }

  /** Splitting the query gives the terms: the first occurrences of the significant lower-cased tokens. */
  lemma QuerySplitsIntoTerms(text: string, l: Letters)
    requires Sane(l)
    ensures Terms(text, l) != [] ==> Split(Query(text, l)) == Terms(text, l)
    ensures Terms(text, l) == [] <==> Query(text, l) == ""
    ensures var all := Filter(LoweredAll(Tokens(text, l), l), Significant);
      && (forall w :: w in Terms(text, l) <==> w in all)
      && forall i, j :: 0 <= i < j < |Terms(text, l)| ==>
           FirstAt(all, Terms(text, l)[i]) < FirstAt(all, Terms(text, l)[j])
  {
    TermsAreWords(text, l);
    var terms := Terms(text, l);
    DedupKeepsFirsts(Filter(LoweredAll(Tokens(text, l), l), Significant));
    forall i | 0 <= i < |terms| ensures ' ' !in terms[i] && IsTerm(terms[i], l) {
      assert terms[i] in terms;
      TermHasNoBlank(terms[i], l);
    }
    if terms != [] {
      SplitJoin(terms);
    }
  }

  // ---------- idempotence ----------

  function Bars(n: nat): seq<string> {
    seq(n, i requires 0 <= i < n => if i == n - 1 then "" else " | ")
  }

  lemma {:induction false} JoinNext(words: seq<string>, w: string)
    requires words != []
    ensures Join(words + [w]) == Join(words) + " | " + w
    decreases |words|
  {
    if |words| == 1 {
      assert (words + [w])[1..] == [w];
    } else {
      assert (words + [w])[1..] == words[1..] + [w];
      JoinNext(words[1..], w);
      assert words[0] + " | " + (Join(words[1..]) + " | " + w) == (words[0] + " | " + Join(words[1..])) + " | " + w;
    }
  }

  lemma {:induction false} SpacedBars(words: seq<string>, w: string)
    ensures Spaced("", words + [w], Bars(|words| + 1)) == Join(words + [w])
    decreases |words|
  {
    var all, gaps := words + [w], Bars(|words| + 1);
    assert all[..|words|] == words;
    if words == [] {
      assert all == [w];
    } else {
      var n := |words| - 1;
      assert words == words[..n] + [words[n]];
      SpacedBars(words[..n], words[n]);
      JoinNext(words, w);
      assert gaps[..|words|][..n] == Bars(|words|)[..n];
    }
  }

  lemma {:induction false} LoweredTerms(words: seq<string>, l: Letters)
    requires forall i :: 0 <= i < |words| ==> IsTerm(words[i], l)
    ensures LoweredAll(words, l) == words && Filter(words, Significant) == words
  {
    FilterAll(words, Significant);
  }

  /** Making a query out of a query gives the same query. */
  lemma QueryIsIdempotent(text: string, l: Letters)
    requires Sane(l)
    ensures Query(Query(text, l), l) == Query(text, l)
  {
    var terms := Terms(text, l);
    TermsAreWords(text, l);
    forall i | 0 <= i < |terms| ensures IsTerm(terms[i], l) {
      assert terms[i] in terms;
    }
    TokensOfJoin(terms, l);
    LoweredTerms(terms, l);
    DedupOfDistinct(terms);
  }

  lemma TokensOfJoin(terms: seq<string>, l: Letters)
    requires Sane(l) && forall i :: 0 <= i < |terms| ==> IsTerm(terms[i], l)
    ensures Tokens(Join(terms), l) == terms
  {
    if terms == [] {
      assert Tokens("", l) == [];
    } else {
      JoinIsSpaced(terms);
      BarsSeparate(terms, l);
      TokensOfSpaced("", terms, Bars(|terms|), l);
    }
  }

  lemma JoinIsSpaced(terms: seq<string>)
    requires terms != []
    ensures |Bars(|terms|)| == |terms| && Join(terms) == Spaced("", terms, Bars(|terms|))
  {
    var front, last := terms[..|terms| - 1], terms[|terms| - 1];
    assert front + [last] == terms && |front| + 1 == |terms|;
    SpacedBars(front, last);
  }

  lemma BarsSeparate(terms: seq<string>, l: Letters)
    requires Sane(l) && forall i :: 0 <= i < |terms| ==> IsTerm(terms[i], l)
    ensures Separated("", terms, Bars(|terms|), l)
  {
  }

  // ---------- which words ----------

  ghost predicate IsLowered(token: string, word: string, l: Letters) {
    |word| == |token| && forall p :: 0 <= p < |token| ==> word[p] == l.lower(token[p])
  }

  /** The query's words are the tokens of three or more characters in lower case, whichever case they came in. */
  lemma TermsExactly(text: string, word: string, l: Letters)
    requires Sane(l)
    ensures word in Terms(text, l) <==> |word| >= 3 && exists t :: t in Tokens(text, l) && IsLowered(t, word, l)
    ensures Distinct(Terms(text, l))
  {
    TermsAreWords(text, l);
    var tokens := Tokens(text, l);
    var lowered := LoweredAll(tokens, l);
    DedupKeepsFirsts(Filter(lowered, Significant));
    FilterIn(lowered, Significant, word);
    if word in lowered {
      var i :| 0 <= i < |lowered| && lowered[i] == word;
      assert tokens[i] in tokens && IsLowered(tokens[i], word, l);
    }
    if t :| t in tokens && IsLowered(t, word, l) {
      var i :| 0 <= i < |tokens| && tokens[i] == t;
      assert lowered[i] == word;
    }
  }
}

/** Authenticated tokens as unpadded base64url text (section 5 of RFC 4648). */
module TokenCipher {
  import opened Common
  import opened Automaton
  import opened PyText

  type Byte = b: int | 0 <= b < 256

  type Sextet = v: int | 0 <= v < 64

  const NONCE_BYTES := 12
  const KEY_BYTES := 32

  // ---------- base64url ----------

  function Symbol(v: Sextet): char {
    if v < 26 then ('A' as int + v) as char
    else if v < 52 then ('a' as int + (v - 26)) as char
    else if v < 62 then ('0' as int + (v - 52)) as char
    else if v == 62 then '-'
    else '_'
  }

  /** The decoder also takes the two symbols of the plain alphabet. */
  function ValueOf(c: char): Option<Sextet> {
    if 'A' <= c <= 'Z' then Some(c as int - 'A' as int)
    else if 'a' <= c <= 'z' then Some(c as int - 'a' as int + 26)
    else if '0' <= c <= '9' then Some(c as int - '0' as int + 52)
    else if c == '-' || c == '+' then Some(62)
    else if c == '_' || c == '/' then Some(63)
    else None
  }

  function Group(a: Byte, b: Byte, c: Byte): seq<Sextet> {
    [a / 4, a % 4 * 16 + b / 16, b % 16 * 4 + c / 64, c % 64]
  }

  /** Six bits at a time; the last group of one or two bytes is filled with zero bits. */
  function Sextets(bytes: seq<Byte>): seq<Sextet> {
    if |bytes| == 0 then []
    else if |bytes| == 1 then Group(bytes[0], 0, 0)[..2]
    else if |bytes| == 2 then Group(bytes[0], bytes[1], 0)[..3]
    else Group(bytes[0], bytes[1], bytes[2]) + Sextets(bytes[3..])
  }

  function Text(values: seq<Sextet>): string {
    seq(|values|, i requires 0 <= i < |values| => Symbol(values[i]))
  }

  function Pads(n: nat): string {
    seq(n, i requires 0 <= i < n => '=')
  }

  /** One pad for each byte that the last group lacks. */
  function Missing(bytes: seq<Byte>): nat {
    if |bytes| % 3 == 0 then 0 else 3 - |bytes| % 3
  }

  function Encode(bytes: seq<Byte>): string {
    Text(Sextets(bytes)) + Pads(Missing(bytes))
  }

  /** `place` counts the symbols of the open group, `carry` holds their bits not yet in `out`. */
  datatype Decoder = Decoder(out: seq<Byte>, place: nat, carry: nat, pads: nat, done: bool)

  function Clean(out: seq<Byte>): Decoder {
    Decoder(out, 0, 0, 0, false)
  }

  function Push(st: Decoder, v: Sextet): Decoder {
    if st.place == 0 then Decoder(st.out, 1, v, 0, st.done)
    else if st.place == 1 then Decoder(st.out + [(st.carry * 4 + v / 16) % 256], 2, v % 16, 0, st.done)
    else if st.place == 2 then Decoder(st.out + [(st.carry * 16 + v / 4) % 256], 3, v % 4, 0, st.done)
    else Decoder(st.out + [(st.carry * 64 + v) % 256], 0, 0, 0, st.done)
  }

  /** A pad that completes a group ends the text; characters outside the alphabet are skipped. */
  function DecodeStep(st: Decoder, c: char): Decoder {
    if st.done then st
    else if c == '=' then
      if st.place < 2 then st
      else if st.place + st.pads + 1 >= 4 then st.(pads := st.pads + 1, done := true)
      else st.(pads := st.pads + 1)
    else
      match ValueOf(c)
      case None => st
      case Some(v) => Push(st, v)
  }

  /** None for text outside ASCII and for a group left open. */
  function Decode(s: string): Option<seq<Byte>> {
    if exists i :: 0 <= i < |s| && s[i] >= '\U{80}' then None
    else
      var end := Run(DecodeStep, Clean([]), s);
      if end.done || end.place == 0 then Some(end.out) else None
  }

  lemma SymbolRoundTrip(v: Sextet)
    ensures ValueOf(Symbol(v)) == Some(v) && Symbol(v) != '=' && Symbol(v) < '\U{80}'
  {
  }

  lemma {:induction false} RunText(st: Decoder, values: seq<Sextet>, v: Sextet)
    requires !st.done
    ensures Run(DecodeStep, st, Text(values + [v])) == DecodeStep(Run(DecodeStep, st, Text(values)), Symbol(v))
  {
    var s := Text(values + [v]);
    assert s[..|s| - 1] == Text(values);
  }

  /** Until a pad comes, decoding pushes the value of each symbol. */
  function PushAll(st: Decoder, values: seq<Sextet>): Decoder {
    if values == [] then st
    else Push(PushAll(st, values[..|values| - 1]), values[|values| - 1])
  }

  lemma {:induction false} RunPushes(st: Decoder, values: seq<Sextet>)
    requires !st.done
    ensures Run(DecodeStep, st, Text(values)) == PushAll(st, values) && !PushAll(st, values).done
    decreases |values|
  {
    if values != [] {
      var n := |values| - 1;
      assert values == values[..n] + [values[n]];
      RunPushes(st, values[..n]);
      RunText(st, values[..n], values[n]);
      SymbolRoundTrip(values[n]);
    }
  }

  lemma {:induction false} PushAllAppend(st: Decoder, u: seq<Sextet>, v: seq<Sextet>)
    ensures PushAll(st, u + v) == PushAll(PushAll(st, u), v)
    decreases |v|
  {
    if v == [] {
      assert u + v == u;
    } else {
      assert (u + v)[..|u + v| - 1] == u + v[..|v| - 1];
      PushAllAppend(st, u, v[..|v| - 1]);
    }
  }

  lemma PushNext(st: Decoder, values: seq<Sextet>, v: Sextet)
    ensures PushAll(st, values + [v]) == Push(PushAll(st, values), v)
  {
    assert (values + [v])[..|values|] == values;
  }

  /** The bits of three bytes survive their regrouping into four symbols. */
  lemma GroupBits(a: int, b: int, c: int)
    requires 0 <= a < 256 && 0 <= b < 256 && 0 <= c < 256
    ensures a / 4 * 4 + (a % 4 * 16 + b / 16) / 16 == a
    ensures (a % 4 * 16 + b / 16) % 16 * 16 + (b % 16 * 4 + c / 64) / 4 == b
    ensures (b % 16 * 4 + c / 64) % 4 * 64 + c % 64 == c
    ensures (a % 4 * 16 + b / 16) % 16 == b / 16 && (b % 16 * 4 + c / 64) % 4 == c / 64
  {
  }

  lemma PushFirstTwo(out: seq<Byte>, a: Byte, b: Byte, c: Byte)
    ensures PushAll(Clean(out), Group(a, b, c)[..2]) == Decoder(out + [a], 2, b / 16, 0, false)
  {
    var g := Group(a, b, c);
    GroupBits(a, b, c);
    PushNext(Clean(out), [], g[0]);
    PushNext(Clean(out), [g[0]], g[1]);
    assert [] + [g[0]] == [g[0]] && g[..2] == [g[0]] + [g[1]];
  }

  lemma PushThird(out: seq<Byte>, b: Byte, c: Byte)
    ensures Push(Decoder(out, 2, b / 16, 0, false), b % 16 * 4 + c / 64) == Decoder(out + [b], 3, c / 64, 0, false)
  {
    GroupBits(0, b, c);
  }

  lemma PushFirstThree(out: seq<Byte>, a: Byte, b: Byte, c: Byte)
    ensures PushAll(Clean(out), Group(a, b, c)[..3]) == Decoder(out + [a, b], 3, c / 64, 0, false)
  {
    var g := Group(a, b, c);
    PushFirstTwo(out, a, b, c);
    PushNext(Clean(out), g[..2], g[2]);
    PushThird(out + [a], b, c);
    assert g[..3] == g[..2] + [g[2]];
    assert out + [a] + [b] == out + [a, b];
  }

  lemma PushFourth(out: seq<Byte>, c: Byte)
    ensures Push(Decoder(out, 3, c / 64, 0, false), c % 64) == Clean(out + [c])
  {
    GroupBits(0, 0, c);
  }

  lemma PushGroup(out: seq<Byte>, a: Byte, b: Byte, c: Byte)
    ensures PushAll(Clean(out), Group(a, b, c)) == Clean(out + [a, b, c])
  {
    var g := Group(a, b, c);
    PushFirstThree(out, a, b, c);
    PushNext(Clean(out), g[..3], g[3]);
    PushFourth(out + [a, b], c);
    assert g == g[..3] + [g[3]];
    assert out + [a, b] + [c] == out + [a, b, c];
  }

  /** Where decoding stands after the symbols of `bytes`. */
  function After(out: seq<Byte>, bytes: seq<Byte>): Decoder {
    Decoder(out + bytes, if |bytes| % 3 == 0 then 0 else |bytes| % 3 + 1, 0, 0, false)
  }

  lemma PushBoth(out: seq<Byte>, mid: seq<Byte>, end: Decoder, group: seq<Sextet>, rest: seq<Sextet>)
    requires PushAll(Clean(out), group) == Clean(mid) && PushAll(Clean(mid), rest) == end
    ensures PushAll(Clean(out), group + rest) == end
  {
    PushAllAppend(Clean(out), group, rest);
  }

  lemma AfterGroup(out: seq<Byte>, bytes: seq<Byte>)
    requires |bytes| >= 3
    ensures After(out + bytes[..3], bytes[3..]) == After(out, bytes)
  {
    assert (|bytes| - 3) % 3 == |bytes| % 3;
    assert out + bytes[..3] + bytes[3..] == out + bytes;
  }

  lemma PushOneByte(out: seq<Byte>, a: Byte)
    ensures PushAll(Clean(out), Sextets([a])) == After(out, [a])
  {
    PushFirstTwo(out, a, 0, 0);
  }

  lemma PushTwoBytes(out: seq<Byte>, a: Byte, b: Byte)
    ensures PushAll(Clean(out), Sextets([a, b])) == After(out, [a, b])
  {
    PushFirstThree(out, a, b, 0);
  }

  lemma {:induction false} PushSextets(out: seq<Byte>, bytes: seq<Byte>)
    ensures PushAll(Clean(out), Sextets(bytes)) == After(out, bytes)
    decreases |bytes|
  {
    if |bytes| == 0 {
      assert out + bytes == out;
    } else if |bytes| == 1 {
      assert bytes == [bytes[0]];
      PushOneByte(out, bytes[0]);
    } else if |bytes| == 2 {
      assert bytes == [bytes[0], bytes[1]];
      PushTwoBytes(out, bytes[0], bytes[1]);
    } else {
      assert bytes[..3] == [bytes[0], bytes[1], bytes[2]];
      PushSextets(out + bytes[..3], bytes[3..]);
      AfterGroup(out, bytes);
      PushGroup(out, bytes[0], bytes[1], bytes[2]);
      PushBoth(out, out + bytes[..3], After(out, bytes),
        Group(bytes[0], bytes[1], bytes[2]), Sextets(bytes[3..]));
    }
  }

  lemma RunPads(out: seq<Byte>)
    ensures Run(DecodeStep, Decoder(out, 2, 0, 0, false), Pads(2)) == Decoder(out, 2, 0, 2, true)
    ensures Run(DecodeStep, Decoder(out, 3, 0, 0, false), Pads(1)) == Decoder(out, 3, 0, 1, true)
  {
    assert Pads(2)[..1] == Pads(1) && Pads(1)[..0] == "";
    RunOne(DecodeStep, Decoder(out, 2, 0, 0, false), '=');
    RunOne(DecodeStep, Decoder(out, 3, 0, 0, false), '=');
    assert Pads(1) == ['='];
  }

  lemma EncodeIsAscii(values: seq<Sextet>, n: nat)
    ensures forall i :: 0 <= i < |Text(values) + Pads(n)| ==> (Text(values) + Pads(n))[i] < '\U{80}'
  {
    forall i | 0 <= i < |Text(values) + Pads(n)| ensures (Text(values) + Pads(n))[i] < '\U{80}' {
      if i < |values| {
        SymbolRoundTrip(values[i]);
      }
    }
  }

  /** Where decoding ends: no group open, or the last one closed by its pads. */
  lemma RunEncoded(bytes: seq<Byte>)
    ensures var end := Run(DecodeStep, Clean([]), Text(Sextets(bytes)) + Pads(Missing(bytes)));
      end.out == bytes && (end.done || end.place == 0)
  {
    var values := Sextets(bytes);
    RunAppend(DecodeStep, Clean([]), Text(values), Pads(Missing(bytes)));
    RunPushes(Clean([]), values);
    PushSextets([], bytes);
    assert [] + bytes == bytes;
    RunPads(bytes);
  }

  /** Decoding undoes encoding for every byte string. */
  lemma Base64RoundTrip(bytes: seq<Byte>)
    ensures Decode(Encode(bytes)) == Some(bytes)
  {
    EncodeIsAscii(Sextets(bytes), Missing(bytes));
    RunEncoded(bytes);
  }

  // ---------- padding ----------

  predicate IsPad(c: char) {
    c == '='
  }

  function Unpadded(s: string): string {
    StripRight(s, IsPad)
  }

  /** `value + "=" * ((-len(value)) % 4)`. */
  function Pad(s: string): string {
    s + Pads((-|s|) % 4)
  }

  lemma {:induction false} StripPads(body: string, n: nat)
    requires '=' !in body
    ensures Unpadded(body + Pads(n)) == body
    decreases n
  {
    var s := body + Pads(n);
    if n == 0 {
      assert s == body;
      assert body != "" ==> body[|body| - 1] in body;
    } else {
      assert s[..|s| - 1] == body + Pads(n - 1);
      StripPads(body, n - 1);
    }
  }

  lemma SameRemainders(m: nat, n: nat)
    ensures (m + 3) % 3 == m % 3 && (n + 4) % 4 == n % 4
  {
  }

  /** A last group of one or two bytes takes one symbol more than it has bytes. */
  lemma {:induction false} SextetCount(bytes: seq<Byte>)
    ensures |Sextets(bytes)| % 4 == if |bytes| % 3 == 0 then 0 else |bytes| % 3 + 1
    decreases |bytes|
  {
    if |bytes| >= 3 {
      SextetCount(bytes[3..]);
      assert |Sextets(bytes)| == 4 + |Sextets(bytes[3..])|;
      SameRemainders(|bytes| - 3, |Sextets(bytes[3..])|);
    }
  }

  /** Stripping the padding loses nothing: `_pad` restores exactly the text that was stripped. */
  lemma PadRestores(bytes: seq<Byte>)
    ensures Pad(Unpadded(Encode(bytes))) == Encode(bytes)
  {
    var values := Sextets(bytes);
    forall i | 0 <= i < |values| ensures Text(values)[i] != '=' {
      SymbolRoundTrip(values[i]);
    }
    StripPads(Text(values), Missing(bytes));
    SextetCount(bytes);
  }

  // ---------- the cipher ----------

  /** An AEAD and the text encoding, as functions. */
  datatype Aead = Aead(
    seal: (seq<Byte>, seq<Byte>, seq<Byte>, seq<Byte>) -> seq<Byte>,
    unseal: (seq<Byte>, seq<Byte>, seq<Byte>, seq<Byte>) -> Option<seq<Byte>>,
    utf8: string -> seq<Byte>,
    text: seq<Byte> -> string)

  /**
   * Under a key and a nonce of the right length, unsealing with the same associated data undoes
   * sealing, and a seal is never empty.
   */
  ghost predicate Faithful(a: Aead) {
    && (forall key, nonce, plain, data :: |key| == KEY_BYTES && |nonce| == NONCE_BYTES ==>
          && a.unseal(key, nonce, a.seal(key, nonce, plain, data), data) == Some(plain)
          && a.seal(key, nonce, plain, data) != [])
    && forall s: string :: a.text(a.utf8(s)) == s
  }

  datatype CryptoError = BadKey | NotBase64 | TooShort | TagMismatch

  datatype Decrypted = Plain(text: string) | Failed(error: CryptoError)

  function Encrypt(a: Aead, key: seq<Byte>, nonce: seq<Byte>, plaintext: string, data: seq<Byte>): string {
    Unpadded(Encode(nonce + a.seal(key, nonce, a.utf8(plaintext), data)))
  }

  function Decrypt(a: Aead, key: seq<Byte>, token: string, data: seq<Byte>): Decrypted {
    if |key| != KEY_BYTES then Failed(BadKey)
    else
      match Decode(Pad(token))
      case None => Failed(NotBase64)
      case Some(blob) =>
        if |blob| <= NONCE_BYTES then Failed(TooShort)
        else
          match a.unseal(key, blob[..NONCE_BYTES], blob[NONCE_BYTES..], data)
          case None => Failed(TagMismatch)
          case Some(plain) => Plain(a.text(plain))
  }

  /** Decrypting what was encrypted under the same key and associated data gives the plaintext back. */
  lemma DecryptUndoesEncrypt(a: Aead, key: seq<Byte>, nonce: seq<Byte>, plaintext: string, data: seq<Byte>)
    requires Faithful(a) && |key| == KEY_BYTES && |nonce| == NONCE_BYTES
    ensures Decrypt(a, key, Encrypt(a, key, nonce, plaintext, data), data) == Plain(plaintext)
  {
    var sealed := a.seal(key, nonce, a.utf8(plaintext), data);
    var blob := nonce + sealed;
    PadRestores(blob);
    Base64RoundTrip(blob);
    assert blob[..NONCE_BYTES] == nonce && blob[NONCE_BYTES..] == sealed;
  }

  /** A token is the text of the nonce and then the seal. */
  lemma TokenHoldsNonceAndSeal(a: Aead, key: seq<Byte>, nonce: seq<Byte>, plaintext: string, data: seq<Byte>)
    ensures var token := Encrypt(a, key, nonce, plaintext, data);
      && '=' !in token
      && Decode(Pad(token)) == Some(nonce + a.seal(key, nonce, a.utf8(plaintext), data))
  {
    var blob := nonce + a.seal(key, nonce, a.utf8(plaintext), data);
    PadRestores(blob);
    Base64RoundTrip(blob);
    forall i | 0 <= i < |Sextets(blob)| ensures Text(Sextets(blob))[i] != '=' {
      SymbolRoundTrip(Sextets(blob)[i]);
    }
    StripPads(Text(Sextets(blob)), Missing(blob));
  }

  /** Which tokens are refused, and why. */
  lemma DecryptFailsExactly(a: Aead, key: seq<Byte>, token: string, data: seq<Byte>)
    ensures var blob, result := Decode(Pad(token)), Decrypt(a, key, token, data);
      && (result == Failed(BadKey) <==> |key| != 32)
      && (result == Failed(NotBase64) <==> |key| == 32 && blob.None?)
      && (result == Failed(TooShort) <==> |key| == 32 && blob.Some? && |blob.value| <= 12)
      && (result == Failed(TagMismatch) <==>
            |key| == 32 && blob.Some? && |blob.value| > 12
            && a.unseal(key, blob.value[..12], blob.value[12..], data).None?)
  {
  }

  /** The decoder skips every character that is neither of an alphabet nor padding. */
  lemma ForeignIsSkipped(s: string, c: char, t: string)
    requires ValueOf(c).None? && c != '=' && c < '\U{80}'
    ensures Decode(s + [c] + t) == Decode(s + t)
  {
    var mid := Run(DecodeStep, Clean([]), s);
    RunAppend(DecodeStep, Clean([]), s + [c], t);
    RunAppend(DecodeStep, Clean([]), s, [c]);
    RunAppend(DecodeStep, Clean([]), s, t);
    RunOne(DecodeStep, mid, c);
    SameForeign(s, c, t);
  }

  lemma SameForeign(s: string, c: char, t: string)
    requires c < '\U{80}'
    ensures (exists i :: 0 <= i < |s + [c] + t| && (s + [c] + t)[i] >= '\U{80}') <==>
      exists i :: 0 <= i < |s + t| && (s + t)[i] >= '\U{80}'
  {
    var a, b := s + [c] + t, s + t;
    if i :| 0 <= i < |a| && a[i] >= '\U{80}' {
      var k := if i < |s| then i else i - 1;
      assert b[k] == a[i];
    }
    if i :| 0 <= i < |b| && b[i] >= '\U{80}' {
      var k := if i < |s| then i else i + 1;
      assert a[k] == b[i];
    }
  }
}

/** What the encoding is: the bytes as one number, in the alphabet of section 5 of RFC 4648. */
module Base64Numbers {
  import opened TokenCipher

  /** Capital letters, small letters, digits, hyphen, underscore. */
  lemma SymbolsInOrder(v: Sextet)
    ensures Symbol(0) == 'A' && Symbol(25) == 'Z' && Symbol(26) == 'a' && Symbol(51) == 'z' && Symbol(52) == '0'
    ensures Symbol(61) == '9' && Symbol(62) == '-' && Symbol(63) == '_'
    ensures v !in {25, 51, 61, 62, 63} ==> Symbol(v + 1) as int == Symbol(v) as int + 1
  {
  }

  /** The digits as one number, the most significant first. */
  function Number(base: nat, digits: seq<int>): int {
    if digits == [] then 0 else Number(base, digits[..|digits| - 1]) * base + digits[|digits| - 1]
  }

  lemma NumberNext(base: nat, digits: seq<int>, d: int)
    ensures Number(base, digits + [d]) == Number(base, digits) * base + d
  {
    assert (digits + [d])[..|digits|] == digits;
  }

  lemma {:induction false} SextetsAppend(u: seq<Byte>, v: seq<Byte>)
    requires |u| % 3 == 0
    ensures Sextets(u + v) == Sextets(u) + Sextets(v)
    decreases |u|
  {
    if u == [] {
      assert u + v == v;
    } else {
      var w := u + v;
      assert w[3..] == u[3..] + v && w[0] == u[0] && w[1] == u[1] && w[2] == u[2];
      SextetsAppend(u[3..], v);
    }
  }

  lemma NumberOfThree(s: seq<int>, a: int, b: int, c: int)
    ensures Number(256, s + [a, b, c]) == Number(256, s) * 16777216 + a * 65536 + b * 256 + c
  {
    NumberNext(256, s, a);
    NumberNext(256, s + [a], b);
    NumberNext(256, s + [a] + [b], c);
    assert s + [a] + [b] + [c] == s + [a, b, c];
  }

  lemma NumberOfFour(s: seq<int>, w: int, x: int, y: int, z: int)
    ensures Number(64, s + [w, x, y, z]) == Number(64, s) * 16777216 + w * 262144 + x * 4096 + y * 64 + z
  {
    NumberNext(64, s, w);
    NumberNext(64, s + [w], x);
    NumberNext(64, s + [w] + [x], y);
    NumberNext(64, s + [w] + [x] + [y], z);
    assert s + [w] + [x] + [y] + [z] == s + [w, x, y, z];
  }

  lemma GroupNumber(a: Byte, b: Byte, c: Byte)
    ensures var w: int, x: int, y: int, z: int := a / 4, a % 4 * 16 + b / 16, b % 16 * 4 + c / 64, c % 64;
      w * 262144 + x * 4096 + y * 64 + z == a * 65536 + b * 256 + c
  {
  }

  lemma {:induction false} WholeGroups(bytes: seq<Byte>)
    requires |bytes| % 3 == 0
    ensures |Sextets(bytes)| * 3 == |bytes| * 4 && Number(64, Sextets(bytes)) == Number(256, bytes)
    decreases |bytes|
  {
    if bytes != [] {
      var n := |bytes| - 3;
      var front, a, b, c := bytes[..n], bytes[n], bytes[n + 1], bytes[n + 2];
      assert bytes == front + [a, b, c] && [a, b, c][3..] == [];
      WholeGroups(front);
      SextetsAppend(front, [a, b, c]);
      var g := Group(a, b, c);
      assert Sextets([a, b, c]) == g && g == [g[0], g[1], g[2], g[3]];
      GroupNumber(a, b, c);
      NumberOfThree(front, a, b, c);
      NumberOfFour(Sextets(front), g[0], g[1], g[2], g[3]);
    }
  }

  /**
   * The symbols' values, read in base 64, are the bytes read in base 256, followed by as many zero bits
   * as the last symbol has left.
   */
  lemma EncodingIsANumber(front: seq<Byte>, rest: seq<Byte>)
    requires |front| % 3 == 0 && |rest| <= 2
    ensures 3 * |Sextets(front + rest)| == 4 * |front| + (if rest == [] then 0 else 3 * (|rest| + 1))
    ensures Number(64, Sextets(front + rest)) == Number(256, front + rest) * ZeroBits(|rest|)
  {
    WholeGroups(front);
    SextetsAppend(front, rest);
    if rest == [] {
      assert front + rest == front;
    } else if |rest| == 1 {
      assert rest == [rest[0]];
      OneByteLeft(front, rest[0]);
    } else {
      assert rest == [rest[0], rest[1]];
      TwoBytesLeft(front, rest[0], rest[1]);
    }
  }

  /** Four zero bits after one byte, two after two. */
  function ZeroBits(left: nat): int {
    if left == 0 then 1 else if left == 1 then 16 else 4
  }

  lemma OneByteLeft(front: seq<Byte>, a: Byte)
    requires Number(64, Sextets(front)) == Number(256, front)
    ensures Number(64, Sextets(front) + Sextets([a])) == Number(256, front + [a]) * 16
  {
    var g := Sextets([a]);
    NumberNext(256, front, a);
    NumberNext(64, Sextets(front), g[0]);
    NumberNext(64, Sextets(front) + [g[0]], g[1]);
    assert Sextets(front) + [g[0]] + [g[1]] == Sextets(front) + g;
  }

  lemma NumberOfTwo(s: seq<int>, a: int, b: int)
    ensures Number(256, s + [a, b]) == Number(256, s) * 65536 + a * 256 + b
  {
    NumberNext(256, s, a);
    NumberNext(256, s + [a], b);
    assert s + [a] + [b] == s + [a, b];
  }

  lemma NumberOfThreeSextets(s: seq<int>, w: int, x: int, y: int)
    ensures Number(64, s + [w, x, y]) == Number(64, s) * 262144 + w * 4096 + x * 64 + y
  {
    NumberNext(64, s, w);
    NumberNext(64, s + [w], x);
    NumberNext(64, s + [w] + [x], y);
    assert s + [w] + [x] + [y] == s + [w, x, y];
  }

  lemma TwoBytesLeft(front: seq<Byte>, a: Byte, b: Byte)
    requires Number(64, Sextets(front)) == Number(256, front)
    ensures Number(64, Sextets(front) + Sextets([a, b])) == Number(256, front + [a, b]) * 4
  {
    var g := Group(a, b, 0);
    assert Sextets([a, b]) == [g[0], g[1], g[2]];
    NumberOfTwo(front, a, b);
    NumberOfThreeSextets(Sextets(front), g[0], g[1], g[2]);
    GroupNumber(a, b, 0);
  }
}
