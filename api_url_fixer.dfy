/**
 * The development script that probes the local and the hosted backend,
 * picks the URL to use, and rewrites the `API_BASE_URL` declaration of the
 * API client source file to it.
 */
module ApiUrlFixer {
  import opened Wrappers
  import opened JsText

  const DEVELOPMENT_URL := "http://localhost:8000/api"
  const PRODUCTION_URL := "https://heliosensium-blog-backend.onrender.com/api"
  const API_FILE_PATH := "src/lib/api.ts"

  // ----- probing a backend -----

  /**
   * How `GET <url>/blogs?limit=1` settles: the request or the parsing of an
   * ok body threw, the response was not ok, or it was ok with a body whose
   * `data` array has the given length (None when the body has no `data`).
   */
  datatype Probe = ProbeThrew | ProbeNotOk | ProbeOk(dataLength: Option<nat>)

  datatype TestResult = TestResult(success: bool, hasBlog: bool)

  /** `testUrl`: working when the response was ok; has blogs when `data.data` is present and non-empty. */
  function TestUrl(probe: Probe): (r: TestResult)
    ensures r.success <==> probe.ProbeOk?
    ensures r.hasBlog <==> probe.ProbeOk? && probe.dataLength.Some? && probe.dataLength.value > 0
  {
    match probe
    case ProbeOk(len) => TestResult(true, len.Some? && len.value > 0)
    case _ => TestResult(false, false)
  }

  /** A backend with blogs is a working backend. */
  lemma HasBlogImpliesSuccess(probe: Probe)
    ensures TestUrl(probe).hasBlog ==> TestUrl(probe).success
  {
  }

  // ----- choosing the URL -----

  /**
   * The choice in `main`: with both backends working, the one that alone has
   * blogs, else the development one; with one working, that one; with
   * neither, no URL (the script exits with status 1).
   */
  function ChooseUrl(dev: TestResult, prod: TestResult): (url: Option<string>)
    ensures url.None? <==> !dev.success && !prod.success
    ensures url.Some? ==> url.value == DEVELOPMENT_URL || url.value == PRODUCTION_URL
  {
    if dev.success && prod.success then
      if dev.hasBlog && !prod.hasBlog then Some(DEVELOPMENT_URL)
      else if !dev.hasBlog && prod.hasBlog then Some(PRODUCTION_URL)
      else Some(DEVELOPMENT_URL)
    else if dev.success then Some(DEVELOPMENT_URL)
    else if prod.success then Some(PRODUCTION_URL)
    else None
  }

  /**
   * The decision table: production is chosen exactly when it works and
   * development either does not work or works without blogs while
   * production has them; every other working case chooses development.
   */
  lemma ChooseUrlTable(dev: TestResult, prod: TestResult)
    requires dev.hasBlog ==> dev.success
    requires prod.hasBlog ==> prod.success
    ensures ChooseUrl(dev, prod) == Some(PRODUCTION_URL) <==>
      prod.success && (!dev.success || (!dev.hasBlog && prod.hasBlog))
    ensures ChooseUrl(dev, prod) == Some(DEVELOPMENT_URL) <==>
      dev.success && !(prod.success && !dev.hasBlog && prod.hasBlog)
  {
  }

  /** A chosen URL always belongs to a backend that answered ok. */
  lemma ChosenUrlWorks(dev: TestResult, prod: TestResult)
    ensures ChooseUrl(dev, prod) == Some(DEVELOPMENT_URL) ==> dev.success
    ensures ChooseUrl(dev, prod) == Some(PRODUCTION_URL) ==> prod.success
  {
  }

  /**
   * Where the lazy, dot-matches-all pattern `<prefix>.*?;` first matches at
   * or after `k`: the first occurrence of the prefix, up to the first ';'
   * after it. None when that occurrence has no ';' after it (nor can any
   * later one) or when there is no occurrence.
   */
  function SpanFrom(content: string, prefix: string, k: nat): (span: Option<(nat, nat)>)
    requires k <= |content|
    ensures span.Some? ==>
      && k <= span.value.0
      && span.value.0 + |prefix| <= span.value.1 < |content|
      && OccursAt(content, prefix, span.value.0) && content[span.value.1] == ';'
      && ';' !in content[span.value.0 + |prefix|..span.value.1]
      && forall m | k <= m < span.value.0 :: !OccursAt(content, prefix, m)
    decreases |content| - k
  {
    if OccursAt(content, prefix, k) then
      var rest := content[k + |prefix|..];
      if ';' in rest then
        var j := k + |prefix| + IndexOf(rest, ';');
        assert content[k + |prefix|..j] == rest[..IndexOf(rest, ';')];
        Some((k, j))
      else None
    else if k == |content| then None
    else SpanFrom(content, prefix, k + 1)
  }

  lemma {:induction false} SpanFromFinds(s: string, prefix: string, k: nat, i: nat, j: nat)
    requires k <= i && i + |prefix| <= j < |s| && OccursAt(s, prefix, i)
    requires forall m | k <= m < i :: !OccursAt(s, prefix, m)
    requires s[j] == ';' && ';' !in s[i + |prefix|..j]
    ensures SpanFrom(s, prefix, k) == Some((i, j))
    decreases i - k
  {
    if k < i {
      SpanFromFinds(s, prefix, k + 1, i, j);
    } else {
      var rest := s[i + |prefix|..];
      assert rest[..j - i - |prefix|] == s[i + |prefix|..j];
      IndexOfUnique(rest, ';', j - i - |prefix|);
    }
  }

  /** The first match of `<prefix>.*?;` in the whole text. */
  function FirstSpan(content: string, prefix: string): Option<(nat, nat)> {
    SpanFrom(content, prefix, 0)
  }

  /** `content.replace(/<prefix>.*?;/s, replacement)`: only the first match is replaced. */
  function ReplaceFirst(content: string, prefix: string, replacement: string): (r: string)
    ensures FirstSpan(content, prefix).None? ==> r == content
    ensures FirstSpan(content, prefix).Some? ==>
      r == content[..FirstSpan(content, prefix).value.0] + replacement + content[FirstSpan(content, prefix).value.1 + 1..]
  {
    var span := FirstSpan(content, prefix);
    if span.None? then content
    else content[..span.value.0] + replacement + content[span.value.1 + 1..]
  }

  /** The three pieces of a spliced text, read back by position. */
  lemma SpliceParts(a: string, d: string, b: string)
    ensures (a + d + b)[..|a|] == a
    ensures (a + d + b)[|a|..|a| + |d|] == d
    ensures (a + d + b)[|a| + |d|..] == b
  {
  }

  /**
   * Texts that agree on every position before the end of a prefix occurrence
   * at `i` have the same prefix occurrences before `i`.
   */
  lemma {:induction false} OccurrenceBefore(c: string, r: string, prefix: string, i: nat, m: nat)
    requires i + |prefix| <= |c| && i + |prefix| <= |r|
    requires forall k | 0 <= k < i + |prefix| :: c[k] == r[k]
    requires m < i
    ensures OccursAt(r, prefix, m) == OccursAt(c, prefix, m)
  {
    assert c[m..m + |prefix|] == r[m..m + |prefix|];
  }

  /**
   * A text made of some text without an earlier occurrence of the prefix,
   * the prefix, a value without ';', the ';' and anything after: its first
   * match spans exactly the prefix, the value and the ';'.
   */
  lemma {:induction false} SpanOfSpliced(a: string, prefix: string, value: string, b: string)
    requires ';' !in value
    requires forall m | 0 <= m < |a| :: !OccursAt(a + (prefix + value + ";") + b, prefix, m)
    ensures FirstSpan(a + (prefix + value + ";") + b, prefix) == Some((|a|, |a| + |prefix| + |value|))
  {
    var s := a + (prefix + value + ";") + b;
    var i := |a|;
    var n := |prefix|;
    assert s[i..i + n] == prefix;
    assert s[i + n + |value|] == ';';
    assert s[i + n..i + n + |value|] == value;
    SpanFromFinds(s, prefix, 0, i, i + n + |value|);
  }

  /** Splicing in a text that starts with the prefix changes nothing before the prefix's end. */
  lemma {:induction false} SpliceAgreesBefore(content: string, prefix: string, rep: string, i: nat, j: nat)
    requires i <= j < |content| && OccursAt(content, prefix, i)
    requires |prefix| <= |rep| && rep[..|prefix|] == prefix
    ensures i + |prefix| <= |content[..i] + rep + content[j + 1..]|
    ensures forall k | 0 <= k < i + |prefix| :: content[k] == (content[..i] + rep + content[j + 1..])[k]
  {
    var n := |prefix|;
    var r := content[..i] + rep + content[j + 1..];
    SpliceParts(content[..i], rep, content[j + 1..]);
    forall k | 0 <= k < i + n ensures content[k] == r[k] {
      if k < i {
        assert r[..i][k] == r[k];
      } else {
        assert r[i..i + |rep|][k - i] == r[k];
        assert rep[..n][k - i] == rep[k - i];
        assert content[i..i + n][k - i] == content[k];
      }
    }
  }

  /** After splicing `<prefix><value>;` over the first match, no occurrence of the prefix starts before it. */
  lemma {:induction false} NoEarlierInSplice(content: string, prefix: string, value: string, i: nat, j: nat, r: string)
    requires FirstSpan(content, prefix) == Some((i, j))
    requires r == content[..i] + (prefix + value + ";") + content[j + 1..]
    ensures forall m | 0 <= m < i :: !OccursAt(r, prefix, m)
  {
    var rep := prefix + value + ";";
    assert rep[..|prefix|] == prefix;
    SpliceAgreesBefore(content, prefix, rep, i, j);
    forall m | 0 <= m < i ensures !OccursAt(r, prefix, m) {
      OccurrenceBefore(content, r, prefix, i, m);
    }
  }

  /**
   * Splicing `<prefix><value>;` over the first match, for a value without
   * ';', makes that the first match.
   */
  lemma {:induction false} SplicedSpan(content: string, prefix: string, value: string, i: nat, j: nat, r: string)
    requires FirstSpan(content, prefix) == Some((i, j)) && ';' !in value
    requires r == content[..i] + (prefix + value + ";") + content[j + 1..]
    ensures FirstSpan(r, prefix) == Some((i, i + |prefix| + |value|))
  {
    NoEarlierInSplice(content, prefix, value, i, j, r);
    SpanOfSpliced(content[..i], prefix, value, content[j + 1..]);
  }

  /** Replacing the first match by `<prefix><value>;`, for a value without ';', makes that the first match. */
  lemma ReplaceFirstSpan(content: string, prefix: string, value: string, i: nat, j: nat)
    requires FirstSpan(content, prefix) == Some((i, j)) && ';' !in value
    ensures FirstSpan(ReplaceFirst(content, prefix, prefix + value + ";"), prefix) == Some((i, i + |prefix| + |value|))
  {
    SplicedSpan(content, prefix, value, i, j, ReplaceFirst(content, prefix, prefix + value + ";"));
  }

  /** The value sits right after the prefix in a spliced text. */
  lemma {:induction false} SplicedValue(a: string, prefix: string, value: string, b: string, r: string)
    requires r == a + (prefix + value + ";") + b
    ensures |a| + |prefix| + |value| <= |r| && r[|a| + |prefix|..|a| + |prefix| + |value|] == value
  {
    var decl := prefix + value + ";";
    SpliceParts(a, decl, b);
    assert r[|a| + |prefix|..|a| + |prefix| + |value|] == r[|a|..|a| + |decl|][|prefix|..|prefix| + |value|];
  }

  /** Repeating such a replacement changes nothing. */
  lemma {:induction false} ReplaceFirstIdempotent(content: string, prefix: string, value: string)
    requires ';' !in value
    ensures ReplaceFirst(ReplaceFirst(content, prefix, prefix + value + ";"), prefix, prefix + value + ";")
      == ReplaceFirst(content, prefix, prefix + value + ";")
  {
    if FirstSpan(content, prefix).Some? {
      var (i, j) := FirstSpan(content, prefix).value;
      ReplaceFirstSpan(content, prefix, value, i, j);
      var decl := prefix + value + ";";
      var r := ReplaceFirst(content, prefix, decl);
      assert r == content[..i] + decl + content[j + 1..];
      SpliceParts(content[..i], decl, content[j + 1..]);
      assert ReplaceFirst(r, prefix, decl) == r[..i] + decl + r[i + |decl|..];
    }
  }

  // ----- rewriting the declaration -----

  const DECL_PREFIX := "const API_BASE_URL = "

  /** The double-quoted URL the new declaration holds. */
  function Quoted(url: string): string {
    "\"" + url + "\""
  }

  /** Quoting a URL without ';' adds none, and the declaration is prefix, quoted URL and ';'. */
  lemma QuotedPlain(url: string)
    requires ';' !in url
    ensures ';' !in Quoted(url)
    ensures |NewDeclaration(url)| == |DECL_PREFIX| + |Quoted(url)| + 1
  {
    assert Quoted(url) == ['"'] + url + ['"'];
  }

  /** The declaration written for a URL: `const API_BASE_URL = "<url>";`. */
  function NewDeclaration(url: string): string {
    DECL_PREFIX + Quoted(url) + ";"
  }

  /** Where `/const API_BASE_URL = .*?;/s` matches first in the file. */
  function DeclarationSpan(content: string): Option<(nat, nat)> {
    FirstSpan(content, DECL_PREFIX)
  }

  /** The text the first match covers, between the prefix and the ';'. */
  function DeclaredValue(content: string): Option<string> {
    match DeclarationSpan(content)
    case None => None
    case Some((i, j)) => Some(content[i + |DECL_PREFIX|..j])
  }

  /** `updateApiFile`'s rewrite: the first declaration gets the URL; without one the text is unchanged. */
  function ReplaceApiBase(content: string, url: string): (r: string)
    ensures DeclarationSpan(content).None? ==> r == content
    ensures DeclarationSpan(content).Some? ==>
      var (i, j) := DeclarationSpan(content).value;
      r == content[..i] + NewDeclaration(url) + content[j + 1..]
  {
    ReplaceFirst(content, DECL_PREFIX, NewDeclaration(url))
  }

  /** After the rewrite the file's first declaration is the new one. */
  lemma RewriteDeclarationSpan(content: string, url: string, i: nat, j: nat)
    requires DeclarationSpan(content) == Some((i, j)) && ';' !in url
    ensures DeclarationSpan(ReplaceApiBase(content, url)) == Some((i, i + |NewDeclaration(url)| - 1))
  {
    QuotedPlain(url);
    ReplaceFirstSpan(content, DECL_PREFIX, Quoted(url), i, j);
  }

  /**
   * The rewritten file declares the URL in double quotes: the rewrite reads
   * back. The URL must hold no ';' (neither of the script's two does).
   */
  lemma RewriteReadsBack(content: string, url: string, i: nat, j: nat)
    requires DeclarationSpan(content) == Some((i, j)) && ';' !in url
    ensures DeclaredValue(ReplaceApiBase(content, url)) == Some(Quoted(url))
  {
    var r := ReplaceApiBase(content, url);
    var e := i + |DECL_PREFIX| + |Quoted(url)|;
    RewriteDeclarationSpan(content, url, i, j);
    SplicedValue(content[..i], DECL_PREFIX, Quoted(url), content[j + 1..], r);
    DeclaredValueAt(r, i, e);
  }

  lemma DeclaredValueAt(content: string, i: nat, e: nat)
    requires DeclarationSpan(content) == Some((i, e))
    ensures DeclaredValue(content) == Some(content[i + |DECL_PREFIX|..e])
  {
  }

  /** Running the rewrite a second time with the same URL changes nothing. */
  lemma RewriteIdempotent(content: string, url: string)
    requires ';' !in url
    ensures ReplaceApiBase(ReplaceApiBase(content, url), url) == ReplaceApiBase(content, url)
  {
    ReplaceFirstIdempotent(content, DECL_PREFIX, Quoted(url));
  }

  /** The text before the first declaration and after its ';' is kept as it was. */
  lemma RewriteKeepsRest(content: string, url: string)
    requires DeclarationSpan(content).Some?
    ensures var (i, j) := DeclarationSpan(content).value;
      var r := ReplaceApiBase(content, url);
      && StartsWith(r, content[..i])
      && EndsWith(r, content[j + 1..])
  {
    var (i, j) := DeclarationSpan(content).value;
    SpliceParts(content[..i], NewDeclaration(url), content[j + 1..]);
  }

  // ----- the file and the script -----

  /** The files the script can see, by path. */
  class FileSystem {
    var files: map<string, string>

    constructor (initial: map<string, string>)
      ensures files == initial
    {
      files := initial;
    }
  }

  /**
   * `updateApiFile(url)`: false and nothing written when the file does not
   * exist; otherwise the file gets the rewritten text and the result is true.
   */
  method UpdateApiFile(fs: FileSystem, url: string) returns (ok: bool)
    modifies fs
    ensures ok <==> API_FILE_PATH in old(fs.files)
    ensures !ok ==> fs.files == old(fs.files)
    ensures ok ==> fs.files == old(fs.files)[API_FILE_PATH := ReplaceApiBase(old(fs.files)[API_FILE_PATH], url)]
  {
    if API_FILE_PATH !in fs.files {
      return false;
    }
    var content := fs.files[API_FILE_PATH];
    var updated := ReplaceApiBase(content, url);
    fs.files := fs.files[API_FILE_PATH := updated];
    ok := true;
  }

  /** How the script ends: exit status 1 before writing, or the result of the update. */
  datatype Outcome = ExitFailure | Updated(url: string, ok: bool)

  /**
   * The script's `main`: probe development then production, choose, and
   * either exit with status 1, leaving the file alone, or update the file
   * to the chosen URL.
   */
  method FixApiUrl(fs: FileSystem, devProbe: Probe, prodProbe: Probe) returns (outcome: Outcome)
    modifies fs
    ensures var chosen := ChooseUrl(TestUrl(devProbe), TestUrl(prodProbe));
      && (chosen.None? ==> outcome == ExitFailure && fs.files == old(fs.files))
      && (chosen.Some? ==>
            outcome.Updated? && outcome.url == chosen.value && (outcome.ok <==> API_FILE_PATH in old(fs.files)))
      && (chosen.Some? && API_FILE_PATH in old(fs.files) ==>
            fs.files == old(fs.files)[API_FILE_PATH := ReplaceApiBase(old(fs.files)[API_FILE_PATH], chosen.value)])
  {
    var devResult := TestUrl(devProbe);
    var prodResult := TestUrl(prodProbe);
    var chosen := ChooseUrl(devResult, prodResult);
    if chosen.None? {
      return ExitFailure;
    }
    var ok := UpdateApiFile(fs, chosen.value);
    outcome := Updated(chosen.value, ok);
  }
}
