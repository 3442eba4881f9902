/**
 * The text helpers of the home page: `truncateText`, `stripHtmlTags` and the
 * choice of the summary shown on a featured-blog card.
 */
module IndexPage {
  import opened Wrappers
  import opened JsText
  import opened Seqs

  /** The excerpt length used when a blog has no summary. */
  const SUMMARY_LENGTH: nat := 150
  const ELLIPSIS := "..."

  /**
   * `truncateText`: the text itself when it fits; otherwise its first
   * `maxLength` characters, trimmed, followed by "...".
   */
  function TruncateText(text: string, maxLength: nat): (r: string)
    ensures |text| <= maxLength ==> r == text
    ensures |text| > maxLength ==>
      && |r| <= maxLength + |ELLIPSIS|
      && EndsWith(r, ELLIPSIS)
      && var kept := r[..|r| - |ELLIPSIS|];
         && (exists i: nat :: TrimmedAt(text[..maxLength], kept, i))
         && (kept == [] || (!IsWhitespace(kept[0]) && !IsWhitespace(kept[|kept| - 1])))
  {
    if |text| <= maxLength then text
    else
      var kept := Trim(text[..maxLength]);
      assert (kept + ELLIPSIS)[..|kept|] == kept;
      kept + ELLIPSIS
  }

  /** No '<' is followed, anywhere later, by a '>': nothing a tag pattern could match. */
  predicate NoTagLeft(s: string) {
    forall i | 0 <= i < |s| && s[i] == '<' :: '>' !in s[i + 1..]
  }

  /**
   * `html.replace(/<[^>]*>/g, "")`: scanning left to right, a '<' that has a
   * '>' somewhere after it starts a match that ends at the first such '>',
   * and the whole match is deleted; every other character is kept.
   */
  function StripHtmlTags(html: string): (r: string)
    ensures |r| <= |html|
    ensures forall c | c in r :: c in html
    ensures NoTagLeft(r)
    decreases |html|
  {
    if html == [] then []
    else if html[0] == '<' && '>' in html then
      var j := IndexOf(html, '>');
      StripHtmlTags(html[j + 1..])
    else
      var rest := StripHtmlTags(html[1..]);
      var r := [html[0]] + rest;
      assert forall i | 1 <= i < |r| :: r[i + 1..] == rest[i..];
      assert r[1..] == rest;
      r
  }

  lemma {:induction false} SubsequenceOfSuffix<T>(a: seq<T>, b: seq<T>, k: nat)
    requires k <= |b| && IsSubsequence(a, b[k..])
    ensures IsSubsequence(a, b)
    decreases k
  {
    if k > 0 {
      assert b[1..][k - 1..] == b[k..];
      SubsequenceOfSuffix(a, b[1..], k - 1);
    }
  }

  /** Stripping only deletes: the output is the input with characters removed, in order. */
  lemma {:induction false} StripIsSubsequence(html: string)
    ensures IsSubsequence(StripHtmlTags(html), html)
    decreases |html|
  {
    if html == [] {
    } else if html[0] == '<' && '>' in html {
      var j := IndexOf(html, '>');
      StripIsSubsequence(html[j + 1..]);
      SubsequenceOfSuffix(StripHtmlTags(html[j + 1..]), html, j + 1);
    } else {
      StripIsSubsequence(html[1..]);
    }
  }

  /** In tag-free text a leading '<' has no '>' anywhere after it. */
  lemma NoTagLeftHead(s: string)
    requires NoTagLeft(s) && s != [] && s[0] == '<'
    ensures '>' !in s
  {
    assert '>' !in s[1..];
    assert s == [s[0]] + s[1..];
  }

  /** Text in which no tag pattern can match is left alone. */
  lemma {:induction false} NoTagFixpoint(s: string)
    requires NoTagLeft(s)
    ensures StripHtmlTags(s) == s
    decreases |s|
  {
    if s != [] {
      if s[0] == '<' {
        NoTagLeftHead(s);
      }
      NoTagLeftInfix(s, 1, |s|);
      assert s[1..|s|] == s[1..];
      NoTagFixpoint(s[1..]);
      assert s == [s[0]] + s[1..];
    }
  }

  /** Stripping twice is stripping once. */
  lemma StripIdempotent(html: string)
    ensures StripHtmlTags(StripHtmlTags(html)) == StripHtmlTags(html)
  {
    NoTagFixpoint(StripHtmlTags(html));
  }

  /**
   * One tag is one deleted span: plain text before it is kept, the tag from
   * '<' to its first '>' disappears, and the rest is stripped on its own.
   */
  lemma {:induction false} StripRemovesTag(text: string, inner: string, rest: string)
    requires '<' !in text && '>' !in inner
    ensures StripHtmlTags(text + ("<" + inner + ">" + rest)) == text + StripHtmlTags(rest)
    decreases |text|
  {
    var tagged := "<" + inner + ">" + rest;
    if text == [] {
      assert text + tagged == tagged;
      StripLeadingTag(inner, rest);
    } else {
      var s := text + tagged;
      assert s[0] == text[0];
      assert s[1..] == text[1..] + tagged;
      StripRemovesTag(text[1..], inner, rest);
      assert text == [text[0]] + text[1..];
    }
  }

  /** A tag at the very start is deleted up to its first '>'. */
  lemma StripLeadingTag(inner: string, rest: string)
    requires '>' !in inner
    ensures StripHtmlTags("<" + inner + ">" + rest) == StripHtmlTags(rest)
  {
    var tagged := "<" + inner + ">" + rest;
    assert tagged[1 + |inner|] == '>';
    assert tagged[..1 + |inner|] == "<" + inner;
    IndexOfUnique(tagged, '>', 1 + |inner|);
    assert tagged[2 + |inner|..] == rest;
  }

  lemma {:induction false} NoTagLeftInfix(s: string, a: nat, b: nat)
    requires a <= b <= |s| && NoTagLeft(s)
    ensures NoTagLeft(s[a..b])
  {
    var t := s[a..b];
    forall i | 0 <= i < |t| && t[i] == '<' ensures '>' !in t[i + 1..] {
      assert s[a + i] == '<';
      assert t[i + 1..] == s[a + i + 1..b];
      assert '>' !in s[a + i + 1..];
    }
  }

  /**
   * The summary shown on a card: the blog's own summary when it is non-empty,
   * otherwise the first 150 characters of the content with tags stripped.
   */
  function DisplaySummary(summary: Option<string>, content: string): (r: string)
    ensures summary.Some? && summary.value != [] ==> r == summary.value
    ensures summary.None? || summary.value == [] ==>
      r == TruncateText(StripHtmlTags(content), SUMMARY_LENGTH)
  {
    if summary.Some? && summary.value != [] then summary.value
    else TruncateText(StripHtmlTags(content), SUMMARY_LENGTH)
  }

  /** Plain text without angle brackets can follow tag-free text without creating a tag. */
  lemma NoTagLeftAppend(a: string, b: string)
    requires NoTagLeft(a) && '<' !in b && '>' !in b
    ensures NoTagLeft(a + b)
  {
    var r := a + b;
    forall k | 0 <= k < |r| && r[k] == '<' ensures '>' !in r[k + 1..] {
      assert k < |a|;
      assert r[k + 1..] == a[k + 1..] + b;
    }
  }

  /** Trimming text without tags leaves none: the result is an infix. */
  lemma TrimKeepsNoTag(s: string)
    requires NoTagLeft(s)
    ensures NoTagLeft(Trim(s))
  {
    var i: nat :| TrimmedAt(s, Trim(s), i);
    NoTagLeftInfix(s, i, i + |Trim(s)|);
  }

  /** The ellipsis holds no angle bracket. */
  lemma EllipsisPlain()
    ensures '<' !in ELLIPSIS && '>' !in ELLIPSIS
  {
  }

  /** The trimmed head of tag-free text, with the ellipsis after it, is tag-free. */
  lemma TrimmedHeadNoTag(text: string, maxLength: nat)
    requires NoTagLeft(text) && maxLength <= |text|
    ensures NoTagLeft(Trim(text[..maxLength]) + ELLIPSIS)
  {
    NoTagLeftInfix(text, 0, maxLength);
    assert text[0..maxLength] == text[..maxLength];
    TrimKeepsNoTag(text[..maxLength]);
    EllipsisPlain();
    NoTagLeftAppend(Trim(text[..maxLength]), ELLIPSIS);
  }

  /** Truncating text without tags leaves none: the kept part is a trimmed prefix, the ellipsis has no brackets. */
  lemma TruncateKeepsNoTag(text: string, maxLength: nat)
    requires NoTagLeft(text)
    ensures NoTagLeft(TruncateText(text, maxLength))
  {
    if |text| > maxLength {
      TrimmedHeadNoTag(text, maxLength);
    }
  }

  /** The fallback excerpt is short and has no tag left in it. */
  lemma SummaryFallback(summary: Option<string>, content: string)
    requires summary.None? || summary.value == []
    ensures var r := DisplaySummary(summary, content);
      |r| <= SUMMARY_LENGTH + |ELLIPSIS| && NoTagLeft(r)
  {
    TruncateKeepsNoTag(StripHtmlTags(content), SUMMARY_LENGTH);
  }
}
