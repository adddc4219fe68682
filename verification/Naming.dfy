/** Slugs, buyer ids, and the prefix search that separates one tenant's buyers from another's. */
module Naming {
  import opened Common
  import opened PyText

  // ---------- slugs ----------

  predicate IsSlugChar(c: char) {
    'a' <= c <= 'z' || '0' <= c <= '9' || c == '-'
  }

  function Dashed(s: string): string {
    seq(|s|, i requires 0 <= i < |s| => if s[i] == ' ' then '-' else s[i])
  }

  /** `-{2,}` becomes `-`. */
  function OneHyphen(s: string): string {
    if s == "" then ""
    else
      var before := OneHyphen(s[..|s| - 1]);
      if s[|s| - 1] == '-' && before != "" && before[|before| - 1] == '-' then before
      else before + [s[|s| - 1]]
  }

  predicate IsHyphen(c: char) {
    c == '-'
  }

  function Slugify(name: string, lower: string -> string): string {
    var kept := Filter(Dashed(lower(Strip(name))), IsSlugChar);
    var trimmed := StripOf(OneHyphen(kept), IsHyphen);
    if trimmed == "" then "tenant" else trimmed
  }

  ghost predicate OverSlugChars(s: string) {
    forall p :: 0 <= p < |s| ==> IsSlugChar(s[p])
  }

  ghost predicate NoDoubleHyphen(s: string) {
    forall p, q :: 0 <= p < q < |s| && q == p + 1 ==> !(s[p] == '-' && s[q] == '-')
  }

  /** Non-empty, over the slug alphabet, no hyphen at an edge, no two in a row. */
  ghost predicate IsSlug(s: string) {
    s != "" && OverSlugChars(s) && NoDoubleHyphen(s) && s[0] != '-' && s[|s| - 1] != '-'
  }

  lemma {:induction false} OneHyphenTidies(s: string)
    requires OverSlugChars(s)
    ensures OverSlugChars(OneHyphen(s)) && NoDoubleHyphen(OneHyphen(s))
    decreases |s|
  {
    if s != "" {
      OneHyphenTidies(s[..|s| - 1]);
    }
  }

  lemma NoDoubleHyphenFront(s: string)
    requires s != "" && NoDoubleHyphen(s)
    ensures NoDoubleHyphen(s[..|s| - 1])
    ensures |s| >= 2 ==> !(s[|s| - 2] == '-' && s[|s| - 1] == '-')
  {
  }

  lemma {:induction false} OneHyphenKeeps(s: string)
    requires NoDoubleHyphen(s)
    ensures OneHyphen(s) == s
    decreases |s|
  {
    if s != "" {
      var front, c := s[..|s| - 1], s[|s| - 1];
      NoDoubleHyphenFront(s);
      OneHyphenKeeps(front);
      assert !(c == '-' && front != "" && front[|front| - 1] == '-');
      assert front + [c] == s;
    }
  }

  lemma PartIsTidy(tidy: string, part: string, o: nat)
    requires OverSlugChars(tidy) && NoDoubleHyphen(tidy)
    requires o + |part| <= |tidy| && part == tidy[o..o + |part|]
    ensures OverSlugChars(part) && NoDoubleHyphen(part)
  {
    forall p, q | 0 <= p < q < |part| && q == p + 1 ensures !(part[p] == '-' && part[q] == '-') {
      assert part[p] == tidy[o + p] && part[q] == tidy[o + q];
    }
  }

  lemma StrippedIsTidy(tidy: string)
    requires OverSlugChars(tidy) && NoDoubleHyphen(tidy)
    ensures var s := StripOf(tidy, IsHyphen); s == "" || IsSlug(s)
  {
    var left := StripLeft(tidy, IsHyphen);
    var s := StripRight(left, IsHyphen);
    StripLeftIsTail(tidy, IsHyphen);
    StripRightIsHead(left, IsHyphen);
    PartIsTidy(tidy, left, |tidy| - |left|);
    PartIsTidy(left, s, 0);
  }

  /** Every name, under every lower-casing, yields a slug. */
  lemma SlugifyYieldsSlug(name: string, lower: string -> string)
    ensures IsSlug(Slugify(name, lower))
  {
    var dashed := Dashed(lower(Strip(name)));
    var kept := Filter(dashed, IsSlugChar);
    forall p | 0 <= p < |kept| ensures IsSlugChar(kept[p]) {
      FilterIn(dashed, IsSlugChar, kept[p]);
    }
    OneHyphenTidies(kept);
    StrippedIsTidy(OneHyphen(kept));
    assert IsSlug("tenant");
  }

  /** A slug that lower-casing leaves alone is its own slug; so `slugify` is idempotent. */
  lemma SlugifyKeepsSlugs(s: string, lower: string -> string)
    requires IsSlug(s) && lower(s) == s
    ensures Slugify(s, lower) == s
  {
    assert !IsSpace(s[0]) && !IsSpace(s[|s| - 1]);
    assert Strip(s) == s;
    assert Dashed(s) == s;
    FilterAll(s, IsSlugChar);
    OneHyphenKeeps(s);
  }

  lemma SlugifyIsIdempotent(name: string, lower: string -> string)
    requires forall s :: OverSlugChars(s) ==> lower(s) == s
    ensures Slugify(Slugify(name, lower), lower) == Slugify(name, lower)
  {
    SlugifyYieldsSlug(name, lower);
    SlugifyKeepsSlugs(Slugify(name, lower), lower);
  }

  /** The first candidate is the base itself, the k-th is `base-k`. */
  function Candidate(base: string, k: nat): string {
    if k < 2 then base else base + "-" + NatText(k)
  }

  lemma CandidatesDiffer(base: string, j: nat, k: nat)
    requires 1 <= j && 1 <= k
    ensures Candidate(base, j) == Candidate(base, k) <==> j == k
  {
    NatTextInjective(j, k);
    NatTextDigits(j);
    NatTextDigits(k);
    if j >= 2 {
      assert Candidate(base, j)[|base| + 1..] == NatText(j);
    }
    if k >= 2 {
      assert Candidate(base, k)[|base| + 1..] == NatText(k);
    }
  }

  lemma CandidateIsSlug(base: string, k: nat)
    requires IsSlug(base)
    ensures IsSlug(Candidate(base, k))
  {
    NatTextDigits(k);
    if k >= 2 {
      var s := Candidate(base, k);
      var digits := NatText(k);
      forall p | 0 <= p < |s| ensures IsSlugChar(s[p]) {
        if p > |base| {
          assert s[p] == digits[p - |base| - 1];
        }
      }
      forall p, q | 0 <= p < q < |s| && q == p + 1 ensures !(s[p] == '-' && s[q] == '-') {
        if q > |base| {
          assert s[q] == digits[q - |base| - 1];
        }
      }
      assert s[|s| - 1] == digits[|digits| - 1];
    }
  }

  // ---------- buyer ids ----------

  function BuyerId(slug: string, fromNumber: string): string {
    slug + ":" + fromNumber
  }

  function TenantPrefix(slug: string): string {
    slug + ":"
  }

  /** `buyer_id.partition(":")`: what follows the first colon, or everything if there is none. */
  function SplitFromNumber(buyerId: string): string {
    var rest := AfterColon(buyerId);
    if rest.Some? then rest.value else buyerId
  }

  function AfterColon(s: string): Option<string> {
    if s == "" then None else if s[0] == ':' then Some(s[1..]) else AfterColon(s[1..])
  }

  lemma {:induction false} ColonFound(slug: string, rest: string)
    requires ':' !in slug
    ensures AfterColon(slug + ":" + rest) == Some(rest)
    decreases |slug|
  {
    if slug == "" {
      assert (slug + ":" + rest)[1..] == rest;
    } else {
      assert slug[0] in slug;
      assert (slug + ":" + rest)[1..] == slug[1..] + ":" + rest;
      ColonFound(slug[1..], rest);
    }
  }

  lemma {:induction false} NoColonFound(s: string)
    requires ':' !in s
    ensures AfterColon(s) == None
    decreases |s|
  {
    if s != "" {
      assert s[0] in s;
      NoColonFound(s[1..]);
    }
  }

  /** The number comes back out of every buyer id of a tenant whose slug has no colon. */
  lemma FromNumberRoundTrip(slug: string, fromNumber: string)
    requires ':' !in slug
    ensures SplitFromNumber(BuyerId(slug, fromNumber)) == fromNumber
    ensures SplitFromNumber(slug) == slug
  {
    ColonFound(slug, fromNumber);
    NoColonFound(slug);
  }

  /** Some buyer of tenant `t` is found under the prefix of tenant `s` exactly in these cases. */
  lemma PrefixClashExactly(s: string, t: string)
    ensures (exists n :: TenantPrefix(s) <= BuyerId(t, n)) <==>
      s == t || TenantPrefix(s) <= t || TenantPrefix(t) <= s
  {
    if n :| TenantPrefix(s) <= BuyerId(t, n) {
      var id := BuyerId(t, n);
      assert id[..|t|] == t && id[|t|] == ':';
      assert TenantPrefix(s) == id[..|s| + 1];
      if |s| < |t| {
        assert TenantPrefix(s) == t[..|s| + 1];
      } else if |s| > |t| {
        assert s == id[..|s|];
        assert TenantPrefix(t) == s[..|t| + 1];
      } else {
        assert s == id[..|s|] == t;
      }
    }
    if s == t {
      assert TenantPrefix(s) <= BuyerId(t, "");
    } else if TenantPrefix(s) <= t {
      assert TenantPrefix(s) <= BuyerId(t, "");
    } else if TenantPrefix(t) <= s {
      var n := s[|t| + 1..] + ":";
      assert s == TenantPrefix(t) + s[|t| + 1..];
      assert BuyerId(t, n) == TenantPrefix(s);
    }
  }

  lemma PrefixHasColon(s: string, t: string)
    ensures TenantPrefix(s) <= t ==> ':' in t
  {
    if TenantPrefix(s) <= t {
      assert t[|s|] == ':';
    }
  }

  /** Slugs keep tenants apart: a prefix finds exactly its own tenant's buyers. */
  lemma PrefixFindsOwnBuyers(s: string, t: string, fromNumber: string)
    requires OverSlugChars(s) && OverSlugChars(t)
    ensures TenantPrefix(s) <= BuyerId(t, fromNumber) <==> s == t
  {
    PrefixClashExactly(s, t);
    PrefixHasColon(s, t);
    PrefixHasColon(t, s);
    assert BuyerId(s, fromNumber) == TenantPrefix(s) + fromNumber;
  }

  // ---------- SQL LIKE ----------

  /** `%` any text, `_` any character, a backslash takes the next character literally. */
  predicate Like(s: string, pattern: string)
    decreases |s| + |pattern|
  {
    if pattern == "" then s == ""
    else if pattern[0] == '%' then Like(s, pattern[1..]) || (s != "" && Like(s[1..], pattern))
    else if pattern[0] == '_' then s != "" && Like(s[1..], pattern[1..])
    else if pattern[0] == '\\' then
      |pattern| >= 2 && s != "" && s[0] == pattern[1] && Like(s[1..], pattern[2..])
    else s != "" && s[0] == pattern[0] && Like(s[1..], pattern[1..])
  }

  predicate IsWild(c: char) {
    c == '%' || c == '_' || c == '\\'
  }

  ghost predicate Literal(s: string) {
    forall p :: 0 <= p < |s| ==> !IsWild(s[p])
  }

  lemma {:induction false} AnyLike(s: string)
    ensures Like(s, "%")
    decreases |s|
  {
    if s != "" {
      AnyLike(s[1..]);
    } else {
      assert Like("", "%"[1..]);
    }
  }

  /** A literal start of a pattern matches itself and leaves the rest to the rest. */
  lemma {:induction false} LiteralStart(u: string, t: string, pattern: string)
    requires Literal(u)
    ensures Like(u + t, u + pattern) <==> Like(t, pattern)
    decreases |u|
  {
    if u == "" {
      assert u + t == t && u + pattern == pattern;
    } else {
      assert (u + t)[1..] == u[1..] + t && (u + pattern)[1..] == u[1..] + pattern;
      LiteralStart(u[1..], t, pattern);
    }
  }

  lemma {:induction false} LiteralNeeded(s: string, u: string, pattern: string)
    requires Literal(u) && Like(s, u + pattern)
    ensures u <= s
    decreases |u|
  {
    if u != "" {
      assert (u + pattern)[1..] == u[1..] + pattern;
      LiteralNeeded(s[1..], u[1..], pattern);
      assert s == [s[0]] + s[1..] && u == [u[0]] + u[1..];
    }
  }

  lemma LikeOfLiteral(s: string, prefix: string)
    requires Literal(prefix)
    ensures Like(s, prefix + "%") <==> prefix <= s
  {
    if prefix <= s {
      var t := s[|prefix|..];
      assert s == prefix + t;
      AnyLike(t);
      LiteralStart(prefix, t, "%");
    }
    if Like(s, prefix + "%") {
      LiteralNeeded(s, prefix, "%");
    }
  }

  /** Every pattern that ends in `%` matches some text no longer than what stands before. */
  lemma {:induction false} ShortMatch(v: string) returns (m: string)
    ensures Like(m, v + "%") && |m| <= |v|
    decreases |v|
  {
    var pattern := v + "%";
    if v == "" {
      m := "";
      AnyLike("");
    } else if v[0] == '\\' {
      if |v| == 1 {
        m := "%";
        assert pattern[2..] == "" && m[1..] == "";
      } else {
        var rest := ShortMatch(v[2..]);
        m := [v[1]] + rest;
        assert m[1..] == rest && pattern[2..] == v[2..] + "%";
      }
    } else {
      var rest := ShortMatch(v[1..]);
      assert pattern[1..] == v[1..] + "%";
      if v[0] == '%' {
        m := rest;
      } else {
        m := [v[0]] + rest;
        assert m[1..] == rest;
      }
    }
  }

  /** A wild card at the start of the prefix lets in a text that does not start with it. */
  lemma WildStart(c: char, v: string) returns (t: string)
    requires IsWild(c)
    ensures Like(t, [c] + v + "%") && !([c] + v <= t)
  {
    var pattern := [c] + v + "%";
    if c == '\\' {
      if v == "" {
        t := "%";
        assert pattern[2..] == "" && t[1..] == "";
      } else {
        var rest := ShortMatch(v[1..]);
        t := [v[0]] + rest;
        assert t[1..] == rest && pattern[2..] == v[1..] + "%";
        assert |t| < |[c] + v|;
      }
    } else {
      var rest := ShortMatch(v);
      t := "x" + rest;
      assert t[1..] == rest && pattern[1..] == v + "%";
      if c == '%' {
        assert Like(rest, pattern);
      }
    }
  }

  lemma {:induction false} FirstWild(s: string) returns (p: nat)
    requires !Literal(s)
    ensures p < |s| && IsWild(s[p]) && Literal(s[..p])
    decreases |s|
  {
    if IsWild(s[0]) {
      p := 0;
    } else {
      assert !Literal(s[1..]) by {
        var q :| 0 <= q < |s| && IsWild(s[q]);
        assert s[1..][q - 1] == s[q];
      }
      var q := FirstWild(s[1..]);
      p := q + 1;
      forall k | 0 <= k < p ensures !IsWild(s[..p][k]) {
        if k > 0 {
          assert s[..p][k] == s[1..][..q][k - 1];
        }
      }
    }
  }

  lemma SameStart(u: string, w: string, t: string)
    ensures u + w <= u + t ==> w <= t
  {
    if u + w <= u + t {
      assert w == (u + w)[|u|..] && t == (u + t)[|u|..];
    }
  }

  /** `LIKE prefix%` means "starts with prefix" for all texts exactly if the prefix has no wild card. */
  lemma LikeIsPrefixExactly(prefix: string)
    ensures (forall s :: Like(s, prefix + "%") <==> prefix <= s) <==> Literal(prefix)
  {
    if Literal(prefix) {
      forall s ensures Like(s, prefix + "%") <==> prefix <= s {
        LikeOfLiteral(s, prefix);
      }
    } else {
      var p := FirstWild(prefix);
      var u, v := prefix[..p], prefix[p + 1..];
      var t := WildStart(prefix[p], v);
      assert prefix + "%" == u + ([prefix[p]] + v + "%");
      LiteralStart(u, t, [prefix[p]] + v + "%");
      assert prefix == u + ([prefix[p]] + v);
      SameStart(u, [prefix[p]] + v, t);
    }
  }

  /** The dashboard's thread search by tenant prefix agrees between the two memories. */
  lemma TenantPrefixIsLiteral(slug: string, s: string)
    requires OverSlugChars(slug)
    ensures Like(s, TenantPrefix(slug) + "%") <==> TenantPrefix(slug) <= s
  {
    LikeOfLiteral(s, TenantPrefix(slug));
  }
}

/** Which slug a name gets: its words, joined by hyphens. */
module SlugWords {
  import opened Common
  import opened PyText
  import opened Naming
  import opened TsQuery

  /** Letters and digits, after lower-casing. */
  function Alphanumeric(): Letters {
    Letters((c: char) => 'a' <= c <= 'z' || '0' <= c <= '9', (c: char) => c)
  }

  /** Blanks and hyphens separate words; any other character is dropped without separating anything. */
  predicate IsKept(c: char) {
    'a' <= c <= 'z' || '0' <= c <= '9' || c == ' ' || c == '-'
  }

  function Hyphenated(words: seq<string>): string
    requires words != []
  {
    var n := |words| - 1;
    if n == 0 then words[0] else Hyphenated(words[..n]) + "-" + words[n]
  }

  // ---------- hyphens for gaps ----------

  lemma {:induction false} KeptThenDashed(s: string)
    ensures Filter(Dashed(s), IsSlugChar) == Dashed(Filter(s, IsKept))
    decreases |s|
  {
    if s != "" {
      var n := |s| - 1;
      KeptThenDashed(s[..n]);
      assert Dashed(s)[..n] == Dashed(s[..n]);
      if IsKept(s[n]) {
        DashedNext(Filter(s[..n], IsKept), s[n]);
      }
    }
  }

  lemma DashedNext(s: string, c: char)
    ensures Dashed(s + [c]) == Dashed(s) + [if c == ' ' then '-' else c]
  {
  }

  /** Hyphens for blanks, and one for several. */
  function Tidy(s: string): string {
    OneHyphen(Dashed(s))
  }

  lemma TidyNext(s: string, c: char)
    ensures Tidy(s + [c]) ==
      if c != ' ' && c != '-' then Tidy(s) + [c]
      else if Tidy(s) != "" && Tidy(s)[|Tidy(s)| - 1] == '-' then Tidy(s)
      else Tidy(s) + "-"
  {
    DashedNext(s, c);
    var d := if c == ' ' then '-' else c;
    assert (Dashed(s) + [d])[..|Dashed(s)|] == Dashed(s);
  }

  lemma {:induction false} TidyWord(s: string, word: string)
    requires AllWord(word, Alphanumeric())
    ensures Tidy(s + word) == Tidy(s) + word
    decreases |word|
  {
    if word == "" {
      assert s + word == s;
    } else {
      var n := |word| - 1;
      assert word == word[..n] + [word[n]];
      TidyWord(s, word[..n]);
      assert s + word == s + word[..n] + [word[n]];
      TidyNext(s + word[..n], word[n]);
    }
  }

  predicate IsGap(gap: string) {
    forall p :: 0 <= p < |gap| ==> gap[p] == ' ' || gap[p] == '-'
  }

  function Hyphen(gap: string): string {
    if gap == "" then "" else "-"
  }

  lemma {:induction false} TidyGap(s: string, gap: string)
    requires IsGap(gap) && (Tidy(s) == "" || Tidy(s)[|Tidy(s)| - 1] != '-')
    ensures Tidy(s + gap) == Tidy(s) + Hyphen(gap)
    decreases |gap|
  {
    if gap == "" {
      assert s + gap == s;
    } else {
      var n := |gap| - 1;
      assert gap == gap[..n] + [gap[n]];
      TidyGap(s, gap[..n]);
      assert s + gap == s + gap[..n] + [gap[n]];
      TidyNext(s + gap[..n], gap[n]);
    }
  }

  /** Tidied, a text is its hyphenated words with a hyphen at each end where it has a gap. */
  ghost predicate Ends(tidy: string, lead: string, words: seq<string>, gaps: seq<string>)
    requires |gaps| == |words| > 0
  {
    tidy == Hyphen(lead) + Hyphenated(words) + Hyphen(gaps[|gaps| - 1])
  }

  lemma EndsNext(before: string, lead: string, front: string, word: string, gap: string)
    requires before == lead + front + "-"
    ensures before + word + gap == lead + (front + "-" + word) + gap
  {
  }

  lemma {:induction false} TidyOfSpaced(lead: string, words: seq<string>, gaps: seq<string>)
    requires Separated(lead, words, gaps, Alphanumeric()) && words != []
    requires IsGap(lead) && forall i :: 0 <= i < |gaps| ==> IsGap(gaps[i])
    ensures Ends(Tidy(Spaced(lead, words, gaps)), lead, words, gaps)
    decreases |words|
  {
    var n := |words| - 1;
    var before := Spaced(lead, words[..n], gaps[..n]);
    LastWord(before, words[n], gaps[n]);
    if n == 0 {
      TidyOfLead(lead);
    } else {
      TidyOfSpaced(lead, words[..n], gaps[..n]);
      assert gaps[..n][n - 1] == gaps[n - 1] != "";
      EndsNext(Tidy(before), Hyphen(lead), Hyphenated(words[..n]), words[n], Hyphen(gaps[n]));
    }
  }

  lemma TidyOfLead(lead: string)
    requires IsGap(lead)
    ensures Tidy(lead) == Hyphen(lead)
  {
    TidyGap("", lead);
    assert "" + lead == lead && Tidy("") == "" && "" + Hyphen(lead) == Hyphen(lead);
  }

  lemma LastWord(before: string, word: string, gap: string)
    requires word != "" && AllWord(word, Alphanumeric()) && IsGap(gap)
    ensures Tidy(before + word + gap) == Tidy(before) + word + Hyphen(gap)
  {
    TidyWord(before, word);
    var mid := Tidy(before) + word;
    assert mid[|mid| - 1] == word[|word| - 1];
    TidyGap(before + word, gap);
  }

  // ---------- the slug ----------

  lemma {:induction false} HyphenatedEdges(words: seq<string>)
    requires words != [] && forall i :: 0 <= i < |words| ==> words[i] != "" && AllWord(words[i], Alphanumeric())
    ensures var s := Hyphenated(words); s != "" && s[0] != '-' && s[|s| - 1] != '-'
    decreases |words|
  {
    var n := |words| - 1;
    if n > 0 {
      HyphenatedEdges(words[..n]);
    }
  }

  lemma StripEnds(tidy: string, lead: string, words: seq<string>, gaps: seq<string>)
    requires Separated(lead, words, gaps, Alphanumeric()) && words != [] && Ends(tidy, lead, words, gaps)
    ensures StripOf(tidy, IsHyphen) == Hyphenated(words)
  {
    HyphenatedEdges(words);
    StripIsExact(tidy, IsHyphen);
    assert Surrounds(tidy, Hyphen(lead), Hyphenated(words), Hyphen(gaps[|gaps| - 1]), IsHyphen);
    StrippedIsUnique(tidy, StripOf(tidy, IsHyphen), Hyphenated(words), IsHyphen);
  }

  lemma StripOfGap(lead: string)
    requires IsGap(lead)
    ensures StripOf(Tidy(lead), IsHyphen) == ""
  {
    TidyOfLead(lead);
    StripIsExact(Hyphen(lead), IsHyphen);
    assert Surrounds(Hyphen(lead), Hyphen(lead), "", "", IsHyphen);
    StrippedIsUnique(Hyphen(lead), StripOf(Hyphen(lead), IsHyphen), "", IsHyphen);
  }

  ghost predicate AllKept(s: string) {
    forall p :: 0 <= p < |s| ==> IsKept(s[p])
  }

  lemma {:induction false} KeptOnly(s: string)
    ensures AllKept(Filter(s, IsKept))
    decreases |s|
  {
    if s != "" {
      KeptOnly(s[..|s| - 1]);
    }
  }

  lemma KeptParts(a: string, b: string, c: string)
    requires AllKept(a + b + c)
    ensures AllKept(a) && AllKept(c)
  {
    var s := a + b + c;
    forall p | 0 <= p < |a| ensures IsKept(a[p]) {
      assert s[p] == a[p];
    }
    forall p | 0 <= p < |c| ensures IsKept(c[p]) {
      assert s[|a| + |b| + p] == c[p];
    }
  }

  lemma {:induction false} GapsAreGaps(lead: string, words: seq<string>, gaps: seq<string>)
    requires Separated(lead, words, gaps, Alphanumeric()) && AllKept(Spaced(lead, words, gaps))
    ensures IsGap(lead) && forall i :: 0 <= i < |gaps| ==> IsGap(gaps[i])
    decreases |words|
  {
    if words == [] {
      assert AllKept(lead);
    } else {
      var n := |words| - 1;
      KeptParts(Spaced(lead, words[..n], gaps[..n]), words[n], gaps[n]);
      GapsAreGaps(lead, words[..n], gaps[..n]);
      assert forall i :: 0 <= i < n ==> gaps[..n][i] == gaps[i];
      assert IsGap(gaps[n]);
    }
  }

  /**
   * The slug of every name: strip, lower-case, drop all but letters, digits, blanks and hyphens, and
   * join what the blanks and hyphens separate; "tenant" if that leaves nothing.
   */
  lemma SlugifyExactly(name: string, lower: string -> string)
    returns (lead: string, words: seq<string>, gaps: seq<string>)
    ensures Separated(lead, words, gaps, Alphanumeric())
    ensures Spaced(lead, words, gaps) == Filter(lower(Strip(name)), IsKept)
    ensures Slugify(name, lower) == if words == [] then "tenant" else Hyphenated(words)
  {
    var kept := Filter(lower(Strip(name)), IsKept);
    lead, words, gaps := EveryTextIsSpaced(kept, Alphanumeric());
    KeptThenDashed(lower(Strip(name)));
    KeptOnly(lower(Strip(name)));
    GapsAreGaps(lead, words, gaps);
    if words == [] {
      StripOfGap(lead);
    } else {
      TidyOfSpaced(lead, words, gaps);
      StripEnds(Tidy(kept), lead, words, gaps);
      HyphenatedEdges(words);
    }
  }
}
