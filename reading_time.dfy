/**
 * `calculateReadingTime`, which the home page and the admin review page
 * define identically: the number of words of the trimmed content, divided
 * by 200 words per minute and rounded up, rendered as "<n> min read".
 */
module ReadingTime {
  import opened JsText

  const WORDS_PER_MINUTE: nat := 200
  const SUFFIX := " min read"

  /** `content.trim().split(/\s+/).length`. */
  function WordCount(content: string): (n: nat)
    ensures n >= 1
  {
    |SplitWhitespace(Trim(content))|
  }

  /** `Math.ceil(words / 200)` for a non-negative word count. */
  function Minutes(words: nat): (m: nat)
    ensures words <= m * WORDS_PER_MINUTE
    ensures m > 0 ==> (m - 1) * WORDS_PER_MINUTE < words
  {
    if words % WORDS_PER_MINUTE == 0 then words / WORDS_PER_MINUTE
    else words / WORDS_PER_MINUTE + 1
  }

  /** `${minutes} min read`. */
  function CalculateReadingTime(content: string): string {
    NatToString(Minutes(WordCount(content))) + SUFFIX
  }

  lemma {:induction false} NonWhitespaceAppend(a: string, b: string)
    ensures NonWhitespace(a + b) == NonWhitespace(a) + NonWhitespace(b)
    decreases |a|
  {
    if a == [] {
      assert a + b == b;
    } else {
      var ab := a + b;
      assert ab[0] == a[0] && ab[1..] == a[1..] + b;
      NonWhitespaceAppend(a[1..], b);
    }
  }

  lemma {:induction false} NonWhitespaceOfBlank(s: string)
    requires AllWhitespace(s)
    ensures NonWhitespace(s) == []
    decreases |s|
  {
    if s != [] {
      NonWhitespaceOfBlank(s[1..]);
    }
  }

  /** Trimming removes only white space, so the words are those of the content. */
  lemma NonWhitespaceOfTrim(s: string)
    ensures NonWhitespace(Trim(s)) == NonWhitespace(s)
  {
    var i := TrimPadding(s);
    NonWhitespaceOfPadded(s[..i], Trim(s), s[i + |Trim(s)|..]);
  }

  /** White space around a text adds nothing to what is left of it. */
  lemma NonWhitespaceOfPadded(p: string, r: string, q: string)
    requires AllWhitespace(p) && AllWhitespace(q)
    ensures NonWhitespace(p + r + q) == NonWhitespace(r)
  {
    NonWhitespaceAppend(p + r, q);
    NonWhitespaceAppend(p, r);
    NonWhitespaceOfBlank(p);
    NonWhitespaceOfBlank(q);
  }

  /**
   * The count is the number of white-space-separated words: the pieces hold
   * exactly the content's non-white-space characters, and none is empty
   * unless the content is blank, which still counts as one word.
   */
  lemma WordCountIsWords(content: string)
    ensures var pieces := SplitWhitespace(Trim(content));
      && WordCount(content) == |pieces|
      && Concat(pieces) == NonWhitespace(content)
      && (NonWhitespace(content) != [] ==> forall k | 0 <= k < |pieces| :: pieces[k] != [])
      && (NonWhitespace(content) == [] ==> WordCount(content) == 1)
  {
    var t := Trim(content);
    SplitKeepsText(t);
    NonWhitespaceOfTrim(content);
    if t != [] {
      SplitPiecesNonEmpty(t);
    }
    if NonWhitespace(content) == [] {
      assert t == [];
    }
  }

  /** Trimming removes no word start: the white space around the text starts none. */
  lemma WordStartsOfTrim(s: string)
    ensures WordStarts(Trim(s)) == WordStarts(s)
  {
    var i := TrimPadding(s);
    WordStartsAround(s[..i], Trim(s), s[i + |Trim(s)|..]);
  }

  /** White space on either side of a text adds no word start. */
  lemma WordStartsAround(p: string, r: string, q: string)
    requires AllWhitespace(p) && AllWhitespace(q)
    ensures WordStarts(p + r + q) == WordStarts(r)
  {
    var x := p + r + q;
    assert x[..|p|] == p;
    WordStartsSkipRun(x, |p|);
    assert x[|p|..] == r + q;
    WordStartsOfPadded(r, q, true);
  }

  /**
   * The count is the number of positions where a word starts, and 1 for
   * content with no word at all; content has a word start exactly when it
   * has a character that is not white space.
   */
  lemma WordCountIsWordStarts(content: string)
    ensures WordCount(content) == if WordStarts(content) == 0 then 1 else WordStarts(content)
    ensures WordStarts(content) == 0 <==> NonWhitespace(content) == []
  {
    var t := Trim(content);
    WordStartsOfTrim(content);
    NonWhitespaceOfTrim(content);
    SplitCountsWords(t);
    if t != [] {
      assert WordStarts(t) >= 1;
      assert NonWhitespace(t) == [t[0]] + NonWhitespace(t[1..]);
    }
  }

  /**
   * The label is "<n> min read" where n reads back as the rounded-up
   * minutes, at least 1: the page never shows "0 min read".
   */
  lemma ReadingTimeLabel(content: string)
    ensures var shown := CalculateReadingTime(content);
      var digits := shown[..|shown| - |SUFFIX|];
      && EndsWith(shown, SUFFIX)
      && AllDigits(digits)
      && DecimalValue(digits) == Minutes(WordCount(content)) >= 1
      && shown != "0 min read"
  {
    var m := Minutes(WordCount(content));
    var shown := CalculateReadingTime(content);
    assert shown[..|shown| - |SUFFIX|] == NatToString(m);
    DecimalRoundTrip(m);
    assert shown[0] == NatToString(m)[0];
  }

  /** The minutes are exactly the ceiling of words / 200, and at least one. */
  lemma MinutesIsCeiling(content: string)
    ensures var words := WordCount(content);
      var m := Minutes(words);
      && m >= 1
      && (m - 1) * WORDS_PER_MINUTE < words <= m * WORDS_PER_MINUTE
  {
  }
}
