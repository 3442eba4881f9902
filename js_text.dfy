/**
 * The JavaScript string built-ins that the pages use, over `seq<char>`:
 * the `\s` character class (also what `trim` removes), `trim`,
 * `toLowerCase`/`toUpperCase` restricted to ASCII letters, `includes`,
 * `split(/\s+/)`, `startsWith`/`endsWith`, and the decimal rendering of a
 * non-negative integer in a template literal.
 */
module JsText {

  /** The characters matched by `\s` and removed by `String.prototype.trim`. */
  predicate IsWhitespace(c: char) {
    || c == ' ' || c == '\t' || c == '\n' || c == '\r' || c == '\U{000B}' || c == '\U{000C}'
    || c == '\U{00A0}' || c == '\U{1680}' || ('\U{2000}' <= c <= '\U{200A}')
    || c == '\U{2028}' || c == '\U{2029}' || c == '\U{202F}' || c == '\U{205F}'
    || c == '\U{3000}' || c == '\U{FEFF}'
  }

  predicate AllWhitespace(s: string) {
    forall i | 0 <= i < |s| :: IsWhitespace(s[i])
  }

  predicate NoWhitespace(s: string) {
    forall i | 0 <= i < |s| :: !IsWhitespace(s[i])
  }

  /** The length of the run of white space at the start of `s`. */
  function LeadingWhitespace(s: string): (n: nat)
    ensures n <= |s|
    ensures AllWhitespace(s[..n])
    ensures n < |s| ==> !IsWhitespace(s[n])
    decreases |s|
  {
    if s == [] || !IsWhitespace(s[0]) then 0
    else
      var n := 1 + LeadingWhitespace(s[1..]);
      assert forall i | 1 <= i < n :: s[i] == s[1..][i - 1];
      n
  }

  /** The length of the run of white space at the end of `s`. */
  function TrailingWhitespace(s: string): (n: nat)
    ensures n <= |s|
    ensures AllWhitespace(s[|s| - n..])
    ensures n < |s| ==> !IsWhitespace(s[|s| - 1 - n])
    ensures s != [] && !IsWhitespace(s[0]) ==> n < |s|
    decreases |s|
  {
    if s == [] || !IsWhitespace(s[|s| - 1]) then 0
    else
      var init := s[..|s| - 1];
      var n := 1 + TrailingWhitespace(init);
      assert forall i | |s| - n <= i < |s| - 1 :: s[i] == init[i];
      n
  }

  /** `r` sits in `s` at offset `i` with nothing but white space around it. */
  predicate TrimmedAt(s: string, r: string, i: nat) {
    && i + |r| <= |s|
    && s[i..i + |r|] == r
    && AllWhitespace(s[..i])
    && AllWhitespace(s[i + |r|..])
  }

  /** The text between a leading and a trailing run of white space sits at their boundary. */
  lemma TrimmedAtBoundary(s: string, a: nat, b: nat)
    requires a + b <= |s|
    requires AllWhitespace(s[..a]) && AllWhitespace(s[a..][|s| - a - b..])
    ensures TrimmedAt(s, s[a..|s| - b], a)
  {
    assert s[a..][|s| - a - b..] == s[|s| - b..];
  }

  /**
   * `s.trim()`: the longest infix that neither starts nor ends with white
   * space; only white space is removed around it.
   */
  function Trim(s: string): (r: string)
    ensures |r| <= |s|
    ensures r == [] || (!IsWhitespace(r[0]) && !IsWhitespace(r[|r| - 1]))
    ensures exists i: nat :: TrimmedAt(s, r, i)
    ensures r == [] ==> AllWhitespace(s)
  {
    var a := LeadingWhitespace(s);
    var rest := s[a..];
    var b := TrailingWhitespace(rest);
    TrimmedAtBoundary(s, a, b);
    if a < |s| - b then
      assert rest[|rest| - 1 - b] == s[|s| - 1 - b];
      s[a..|s| - b]
    else
      assert s[..a] == s;
      []
  }

  /** `s` is its trimmed text with the removed white space on either side. */
  lemma TrimPadding(s: string) returns (i: nat)
    ensures i + |Trim(s)| <= |s|
    ensures s == s[..i] + Trim(s) + s[i + |Trim(s)|..]
    ensures AllWhitespace(s[..i]) && AllWhitespace(s[i + |Trim(s)|..])
  {
    i :| TrimmedAt(s, Trim(s), i);
    TrimmedAtSplits(s, Trim(s), i);
  }

  lemma TrimmedAtSplits(s: string, r: string, i: nat)
    requires TrimmedAt(s, r, i)
    ensures s == s[..i] + r + s[i + |r|..]
  {
    var j := i + |r|;
    assert s[..j] == s[..i] + s[i..j];
    assert s == s[..j] + s[j..];
  }

  /** `toLowerCase` on one character, for ASCII letters. */
  function LowerChar(c: char): (d: char)
    ensures 'A' <= c <= 'Z' ==> d as int == c as int + 32
    ensures !('A' <= c <= 'Z') ==> d == c
  {
    if 'A' <= c <= 'Z' then (c as int + 32) as char else c
  }

  /** `toUpperCase` on one character, for ASCII letters. */
  function UpperChar(c: char): (d: char)
    ensures 'a' <= c <= 'z' ==> d as int == c as int - 32
    ensures !('a' <= c <= 'z') ==> d == c
  {
    if 'a' <= c <= 'z' then (c as int - 32) as char else c
  }

  /** `s.indexOf(c)` when `c` occurs: the position of its first occurrence. */
  function IndexOf(s: string, c: char): (j: nat)
    requires c in s
    ensures j < |s| && s[j] == c && c !in s[..j]
    decreases |s|
  {
    if s[0] == c then 0
    else
      var j := 1 + IndexOf(s[1..], c);
      assert s[..j] == [s[0]] + s[1..][..j - 1];
      j
  }

  /** The first occurrence is the one with none before it. */
  lemma IndexOfUnique(s: string, c: char, k: nat)
    requires k < |s| && s[k] == c && c !in s[..k]
    ensures IndexOf(s, c) == k
  {
  }

  /** `s.toLowerCase()`, character by character. */
  function ToLower(s: string): (r: string)
    ensures |r| == |s|
    ensures forall i | 0 <= i < |s| :: r[i] == LowerChar(s[i])
  {
    seq(|s|, i requires 0 <= i < |s| => LowerChar(s[i]))
  }

  /** `s.includes(t)`: `t` occurs in `s` at some offset. */
  predicate Includes(s: string, t: string) {
    exists i | 0 <= i <= |s| - |t| :: OccursAt(s, t, i)
  }

  /** `t` occurs in `s` starting at offset `i`. */
  predicate OccursAt(s: string, t: string, i: nat) {
    i + |t| <= |s| && s[i..i + |t|] == t
  }

  /** Every string includes the empty string. */
  lemma IncludesEmpty(s: string)
    ensures Includes(s, [])
  {
    assert OccursAt(s, [], 0);
  }

  predicate StartsWith(s: string, prefix: string) {
    |prefix| <= |s| && s[..|prefix|] == prefix
  }

  predicate EndsWith(s: string, suffix: string) {
    |suffix| <= |s| && s[|s| - |suffix|..] == suffix
  }

  /** The characters of `s` that are not white space, in order. */
  function NonWhitespace(s: string): (r: string)
    decreases |s|
  {
    if s == [] then []
    else if IsWhitespace(s[0]) then NonWhitespace(s[1..])
    else [s[0]] + NonWhitespace(s[1..])
  }

  function Concat(pieces: seq<string>): string
    decreases |pieces|
  {
    if pieces == [] then [] else pieces[0] + Concat(pieces[1..])
  }

  /**
   * `s.split(/\s+/)`: the pieces between maximal runs of white space. A run
   * at either end yields an empty piece there, and the empty string gives
   * one empty piece.
   */
  function SplitWhitespace(s: string): (pieces: seq<string>)
    ensures |pieces| >= 1
    ensures forall k | 0 <= k < |pieces| :: NoWhitespace(pieces[k])
    decreases |s|
  {
    if s == [] then [[]]
    else if IsWhitespace(s[0]) then
      var n := LeadingWhitespace(s);
      [[]] + SplitWhitespace(s[n..])
    else
      var rest := SplitWhitespace(s[1..]);
      var pieces := [[s[0]] + rest[0]] + rest[1..];
      assert forall k | 1 <= k < |pieces| :: pieces[k] == rest[k];
      pieces
  }

  lemma {:induction false} NonWhitespaceSkipsRun(s: string, n: nat)
    requires n <= |s| && forall i | 0 <= i < n :: IsWhitespace(s[i])
    ensures NonWhitespace(s) == NonWhitespace(s[n..])
    decreases n
  {
    if n > 0 {
      NonWhitespaceSkipsRun(s[1..], n - 1);
      assert s[1..][n - 1..] == s[n..];
    }
  }

  /** The pieces hold exactly the non-white-space characters, in order. */
  lemma {:induction false} SplitKeepsText(s: string)
    ensures Concat(SplitWhitespace(s)) == NonWhitespace(s)
    decreases |s|
  {
    if s == [] {
    } else if IsWhitespace(s[0]) {
      var n := LeadingWhitespace(s);
      SplitKeepsText(s[n..]);
      assert forall i | 0 <= i < n :: s[i] == s[..n][i];
      NonWhitespaceSkipsRun(s, n);
      assert Concat([[]] + SplitWhitespace(s[n..])) == Concat(SplitWhitespace(s[n..]));
    } else {
      var rest := SplitWhitespace(s[1..]);
      SplitKeepsText(s[1..]);
      var pieces := [[s[0]] + rest[0]] + rest[1..];
      assert Concat(rest) == rest[0] + Concat(rest[1..]);
      assert pieces[1..] == rest[1..];
      assert Concat(pieces) == [s[0]] + rest[0] + Concat(rest[1..]);
    }
  }

  /**
   * When `s` does not end in white space, only the first piece can be empty;
   * when it also does not start with white space, none is.
   */
  lemma {:induction false} SplitPiecesNonEmpty(s: string)
    requires s != [] && !IsWhitespace(s[|s| - 1])
    ensures forall k | 1 <= k < |SplitWhitespace(s)| :: SplitWhitespace(s)[k] != []
    ensures !IsWhitespace(s[0]) ==> SplitWhitespace(s)[0] != []
    decreases |s|
  {
    if IsWhitespace(s[0]) {
      var n := LeadingWhitespace(s);
      assert n < |s|;
      SplitPiecesNonEmpty(s[n..]);
    } else if |s| > 1 {
      SplitPiecesNonEmpty(s[1..]);
    }
  }

  /**
   * The number of positions of `s` where a word starts: a character that is
   * not white space and has white space, or nothing, before it.
   * `afterSpace` says whether the character before `s` is white space or
   * absent.
   */
  function WordStartsAfter(s: string, afterSpace: bool): nat
    decreases |s|
  {
    if s == [] then 0
    else
      var here := if afterSpace && !IsWhitespace(s[0]) then 1 else 0;
      here + WordStartsAfter(s[1..], IsWhitespace(s[0]))
  }

  /** The number of words of `s`, counted by where they start. */
  function WordStarts(s: string): nat {
    WordStartsAfter(s, true)
  }

  /** A run of white space at the front starts no word. */
  lemma {:induction false} WordStartsSkipRun(s: string, n: nat)
    requires n <= |s| && AllWhitespace(s[..n])
    ensures WordStarts(s) == WordStarts(s[n..])
    decreases n
  {
    if n > 0 {
      assert IsWhitespace(s[..n][0]);
      var t := s[1..][..n - 1];
      forall i | 0 <= i < |t| ensures IsWhitespace(t[i]) {
        assert t[i] == s[..n][i + 1];
      }
      WordStartsSkipRun(s[1..], n - 1);
      assert s[1..][n - 1..] == s[n..];
    }
  }

  /** White space at the end starts no word either. */
  lemma {:induction false} WordStartsOfPadded(r: string, q: string, afterSpace: bool)
    requires AllWhitespace(q)
    ensures WordStartsAfter(r + q, afterSpace) == WordStartsAfter(r, afterSpace)
    decreases |r| + |q|
  {
    if r == [] {
      assert r + q == q;
      if q != [] {
        assert AllWhitespace(q[1..]) by {
          forall i | 0 <= i < |q| - 1 ensures IsWhitespace(q[1..][i]) {
            assert q[1..][i] == q[i + 1];
          }
        }
        WordStartsOfPadded(r, q[1..], IsWhitespace(q[0]));
        assert r + q[1..] == q[1..];
      }
    } else {
      assert (r + q)[1..] == r[1..] + q;
      WordStartsOfPadded(r[1..], q, IsWhitespace(r[0]));
    }
  }

  /**
   * `s.split(/\s+/)` yields one piece per word, plus an empty piece for
   * white space (or nothing) at the start and one for white space at the end.
   */
  lemma {:induction false} SplitCountsWords(s: string)
    ensures |SplitWhitespace(s)|
      == WordStarts(s)
        + (if s == [] || IsWhitespace(s[0]) then 1 else 0)
        + (if s != [] && IsWhitespace(s[|s| - 1]) then 1 else 0)
    decreases |s|
  {
    if s == [] {
    } else if IsWhitespace(s[0]) {
      var n := LeadingWhitespace(s);
      SplitCountsWords(s[n..]);
      WordStartsSkipRun(s, n);
      if n < |s| {
        assert s[n..][|s[n..]| - 1] == s[|s| - 1];
      } else {
        assert IsWhitespace(s[..n][|s| - 1]);
      }
    } else {
      var x := s[1..];
      SplitCountsWords(x);
      assert |SplitWhitespace(s)| == |SplitWhitespace(x)|;
      assert WordStarts(s) == 1 + WordStartsAfter(x, false);
      if x != [] {
        assert x[|x| - 1] == s[|s| - 1];
        assert WordStartsAfter(x, true)
          == WordStartsAfter(x, false) + (if IsWhitespace(x[0]) then 0 else 1);
      }
    }
  }

  /** The digit character for `d`. */
  function DigitChar(d: nat): (c: char)
    requires d < 10
    ensures '0' <= c <= '9' && c as int - '0' as int == d
  {
    ('0' as int + d) as char
  }

  predicate AllDigits(s: string) {
    forall i | 0 <= i < |s| :: '0' <= s[i] <= '9'
  }

  /** A non-negative integer in a template literal: its decimal digits. */
  function NatToString(n: nat): (s: string)
    ensures |s| >= 1 && AllDigits(s)
    ensures n > 0 ==> s[0] != '0'
    decreases n
  {
    if n < 10 then [DigitChar(n)]
    else
      var s := NatToString(n / 10) + [DigitChar(n % 10)];
      assert s[0] == NatToString(n / 10)[0];
      s
  }

  /** The number a string of decimal digits denotes. */
  function DecimalValue(s: string): nat
    requires AllDigits(s)
    decreases |s|
  {
    if s == [] then 0
    else DecimalValue(s[..|s| - 1]) * 10 + (s[|s| - 1] as int - '0' as int)
  }

  /** Reading the digits back gives the number: the rendering is injective. */
  lemma {:induction false} DecimalRoundTrip(n: nat)
    ensures DecimalValue(NatToString(n)) == n
    decreases n
  {
    if n >= 10 {
      DecimalRoundTrip(n / 10);
      var s := NatToString(n);
      assert s[..|s| - 1] == NatToString(n / 10);
    }
  }
}
