/** Instants are integers in microseconds. */
module Clock {
  function Seconds(micros: int): real {
    micros as real / 1000000.0
  }
}

/** The parts of Python's text handling that the backend relies on. */
module PyText {
  /** The characters that `str.isspace` accepts, which `strip` and `\s` act on. */
  predicate IsSpace(c: char) {
    || c == ' ' || '\t' <= c <= '\r' || '\U{1C}' <= c <= '\U{1F}' || c == '\U{85}' || c == '\U{A0}'
    || c == '\U{1680}' || '\U{2000}' <= c <= '\U{200A}' || c == '\U{2028}' || c == '\U{2029}'
    || c == '\U{202F}' || c == '\U{205F}' || c == '\U{3000}'
  }

  function StripLeft(s: string, drop: char -> bool): string {
    if s != "" && drop(s[0]) then StripLeft(s[1..], drop) else s
  }

  function StripRight(s: string, drop: char -> bool): string {
    if s != "" && drop(s[|s| - 1]) then StripRight(s[..|s| - 1], drop) else s
  }

  lemma {:induction false} StripLeftIsTail(s: string, drop: char -> bool)
    ensures |StripLeft(s, drop)| <= |s| && StripLeft(s, drop) == s[|s| - |StripLeft(s, drop)|..]
    ensures StripLeft(s, drop) != "" ==> !drop(StripLeft(s, drop)[0])
    decreases |s|
  {
    if s != "" && drop(s[0]) {
      StripLeftIsTail(s[1..], drop);
    }
  }

  lemma {:induction false} StripRightIsHead(s: string, drop: char -> bool)
    ensures StripRight(s, drop) <= s
    ensures StripRight(s, drop) != "" ==> !drop(StripRight(s, drop)[|StripRight(s, drop)| - 1])
    decreases |s|
  {
    if s != "" && drop(s[|s| - 1]) {
      StripRightIsHead(s[..|s| - 1], drop);
    }
  }

  function StripOf(s: string, drop: char -> bool): string {
    StripRight(StripLeft(s, drop), drop)
  }

  function Strip(s: string): string {
    StripOf(s, IsSpace)
  }

  ghost predicate AllDropped(s: string, drop: char -> bool) {
    forall p :: 0 <= p < |s| ==> drop(s[p])
  }

  ghost predicate Surrounds(s: string, a: string, t: string, b: string, drop: char -> bool) {
    s == a + t + b && AllDropped(a, drop) && AllDropped(b, drop)
  }

  /** `t` is `s` without what `drop` removes at both ends, and no more. */
  ghost predicate IsStripped(s: string, t: string, drop: char -> bool) {
    && (exists a, b :: Surrounds(s, a, t, b, drop))
    && (t != "" ==> !drop(t[0]) && !drop(t[|t| - 1]))
  }

  lemma {:induction false} StripLeftDrops(s: string, drop: char -> bool)
    ensures |StripLeft(s, drop)| <= |s|
    ensures forall p :: 0 <= p < |s| - |StripLeft(s, drop)| ==> drop(s[p])
    decreases |s|
  {
    if s != "" && drop(s[0]) {
      var rest := s[1..];
      StripLeftDrops(rest, drop);
      forall p | 0 <= p < |s| - |StripLeft(s, drop)| ensures drop(s[p]) {
        if p > 0 {
          assert s[p] == rest[p - 1];
        }
      }
    }
  }

  lemma {:induction false} StripRightDrops(s: string, drop: char -> bool)
    ensures |StripRight(s, drop)| <= |s|
    ensures forall p :: |StripRight(s, drop)| <= p < |s| ==> drop(s[p])
    decreases |s|
  {
    if s != "" && drop(s[|s| - 1]) {
      StripRightDrops(s[..|s| - 1], drop);
    }
  }

  lemma Taken(s: string, left: string, t: string, drop: char -> bool)
    requires |left| <= |s| && left == s[|s| - |left|..] && t <= left
    requires forall p :: 0 <= p < |s| - |left| ==> drop(s[p])
    requires forall p :: |t| <= p < |left| ==> drop(left[p])
    requires (left != "" ==> !drop(left[0])) && (t != "" ==> !drop(t[|t| - 1]))
    ensures IsStripped(s, t, drop)
  {
    assert t + left[|t|..] == left;
    assert t != "" ==> t[0] == left[0];
    assert Surrounds(s, s[..|s| - |left|], t, left[|t|..], drop);
  }

  /** Stripping removes exactly the characters at the ends. */
  lemma StripIsExact(s: string, drop: char -> bool)
    ensures IsStripped(s, StripOf(s, drop), drop)
  {
    StripLeftIsTail(s, drop);
    StripLeftDrops(s, drop);
    var left := StripLeft(s, drop);
    StripRightIsHead(left, drop);
    StripRightDrops(left, drop);
    Taken(s, left, StripRight(left, drop), drop);
  }

  lemma StrippedIsUnique(s: string, t: string, u: string, drop: char -> bool)
    requires IsStripped(s, t, drop) && IsStripped(s, u, drop)
    ensures t == u
  {
    var a, b :| Surrounds(s, a, t, b, drop);
    var c, d :| Surrounds(s, c, u, d, drop);
    Position(s, a, t, b, c, u, d, drop);
  }

  /** A character that is kept lies in the stripped part, however the text is taken apart. */
  lemma Position(s: string, a: string, t: string, b: string, c: string, u: string, d: string, drop: char -> bool)
    requires Surrounds(s, a, t, b, drop) && Surrounds(s, c, u, d, drop)
    requires t != "" ==> !drop(t[0]) && !drop(t[|t| - 1])
    requires u != "" ==> !drop(u[0]) && !drop(u[|u| - 1])
    ensures t == u
  {
    assert forall p :: 0 <= p < |a| ==> s[p] == a[p];
    assert forall p :: 0 <= p < |c| ==> s[p] == c[p];
    assert forall p :: |a| + |t| <= p < |s| ==> s[p] == b[p - |a| - |t|];
    assert forall p :: |c| + |u| <= p < |s| ==> s[p] == d[p - |c| - |u|];
    if t != "" {
      assert s[|a|] == t[0] && s[|a| + |t| - 1] == t[|t| - 1];
    }
    if u != "" {
      assert s[|c|] == u[0] && s[|c| + |u| - 1] == u[|u| - 1];
    }
    if t != "" && u != "" {
      assert |a| == |c| && |t| == |u|;
      assert t == s[|a|..|a| + |t|];
    }
  }

  function Truncate(s: string, n: nat): string {
    if |s| <= n then s else s[..n]
  }

  /** All of the line if it has at most `n` characters, else its start up to white space, and an ellipsis. */
  ghost predicate Elided(line: string, short: string, n: nat)
    requires n >= 1
  {
    if |line| <= n then short == line
    else
      exists kept :: kept <= line[..n - 1] && short == kept + "\U{2026}" && (kept == "" || !IsSpace(kept[|kept| - 1]))
                     && forall p :: |kept| <= p < n - 1 ==> IsSpace(line[p])
  }

  lemma CutIsElided(line: string, n: nat)
    requires n >= 1 && |line| > n
    ensures Elided(line, StripRight(line[..n - 1], IsSpace) + "\U{2026}", n)
  {
    var start := line[..n - 1];
    var kept := StripRight(start, IsSpace);
    StripRightIsHead(start, IsSpace);
    StripRightDrops(start, IsSpace);
    assert forall p :: |kept| <= p < n - 1 ==> start[p] == line[p];
  }

  function Digit(d: nat): char
    requires d < 10
  {
    ('0' as int + d) as char
  }

  predicate IsDigit(c: char) {
    '0' <= c <= '9'
  }

  /** `str(n)` for a non-negative integer. */
  function NatText(n: nat): string {
    if n < 10 then [Digit(n)] else NatText(n / 10) + [Digit(n % 10)]
  }

  function IntText(n: int): string {
    if n < 0 then "-" + NatText(-n) else NatText(n)
  }

  function NatValue(s: string): int {
    if s == "" then 0 else 10 * NatValue(s[..|s| - 1]) + (s[|s| - 1] as int - '0' as int)
  }

  lemma {:induction false} NatTextRoundTrip(n: nat)
    ensures NatValue(NatText(n)) == n
  {
    if n >= 10 {
      NatTextRoundTrip(n / 10);
      assert NatText(n)[..|NatText(n)| - 1] == NatText(n / 10);
    } else {
      assert NatText(n)[..0] == "";
    }
  }

  lemma NatTextInjective(m: nat, n: nat)
    ensures NatText(m) == NatText(n) <==> m == n
  {
    NatTextRoundTrip(m);
    NatTextRoundTrip(n);
  }

  lemma {:induction false} NatTextDigits(n: nat)
    ensures NatText(n) != "" && forall p :: 0 <= p < |NatText(n)| ==> IsDigit(NatText(n)[p])
  {
    if n >= 10 {
      NatTextDigits(n / 10);
    }
  }
}
