/**
 * The API client: the stored admin token, the headers built from it, the
 * public blog-listing URL, and how each call maps a server reply to a
 * returned value or a thrown error. The HTTP exchange itself is an input:
 * every awaited call settles as a `Reply`.
 */
module Api {
  import opened Wrappers
  import opened JsText
  import opened BrowserStorage

  const API_BASE_URL := "https://heliosensium-blog-backend.onrender.com/api"
  const AUTH_TOKEN_KEY := "admin_auth_token"

  const PENDING := "pending"
  const APPROVED := "approved"
  const REJECTED := "rejected"

  /** A blog record as the backend returns it; `status` is one of the three above. */
  datatype Blog = Blog(
    id: string,
    title: string,
    content: string,
    summary: Option<string>,
    authorName: string,
    authorEmail: string,
    status: string,
    views: int,
    submissionDate: string,
    approvalDate: Option<string>,
    lastModified: string,
    ipAddress: string,
    adminNotes: Option<string>)

  /** One page of the public listing. */
  datatype PaginatedBlogs = PaginatedBlogs(success: bool, data: seq<Blog>, nextCursor: Option<string>)

  /**
   * A value an awaited call can throw: an `ApiError` (an Error that carries a
   * `code`), any other Error (a network TypeError, a SyntaxError from
   * `response.json()`), or a thrown value that is not an Error at all.
   */
  datatype Thrown =
    | ApiError(message: string, code: string)
    | PlainError(message: string)
    | NonError
  {
    /** `e instanceof Error`. */
    predicate IsError() {
      !NonError?
    }

    /** `"code" in e`: only an ApiError has the property. */
    predicate HasCode() {
      ApiError?
    }
  }

  /** The body of a non-ok response: `{ error: { message, code } }`, or text `response.json()` rejects. */
  datatype ErrorBody = ErrorJson(message: string, code: string) | Unparseable(syntaxError: string)

  /**
   * How an awaited request settles: the fetch (or the parsing of an ok body)
   * threw, the response was not ok, or it was ok with a parsed body.
   */
  datatype Reply<T> = Threw(thrown: Thrown) | NotOk(errorBody: ErrorBody) | Ok(body: T)

  // ----- token store -----

  /** `getAuthToken()`. */
  function GetAuthToken(store: LocalStorage): Option<string>
    reads store
  {
    store.GetItem(AUTH_TOKEN_KEY)
  }

  /** A token in the sense of `if (token)`: present and not the empty string. */
  predicate HasToken(token: Option<string>) {
    token.Some? && token.value != []
  }

  /** `setAuthToken(token)`: afterwards the token reads back; other keys are untouched. */
  method SetAuthToken(store: LocalStorage, token: string)
    modifies store
    ensures store.items == old(store.items)[AUTH_TOKEN_KEY := token]
    ensures GetAuthToken(store) == Some(token)
  {
    store.SetItem(AUTH_TOKEN_KEY, token);
  }

  /** `clearAuthToken()`: afterwards there is no token; other keys are untouched. */
  method ClearAuthToken(store: LocalStorage)
    modifies store
    ensures store.items == old(store.items) - {AUTH_TOKEN_KEY}
    ensures GetAuthToken(store) == None
  {
    store.RemoveItem(AUTH_TOKEN_KEY);
  }

  /**
   * `getAuthHeaders()`: always the JSON content type; a bearer Authorization
   * header exactly when a non-empty token is stored.
   */
  method GetAuthHeaders(store: LocalStorage) returns (headers: map<string, string>)
    ensures headers.Keys <= {"Content-Type", "Authorization"}
    ensures "Content-Type" in headers && headers["Content-Type"] == "application/json"
    ensures "Authorization" in headers <==> HasToken(GetAuthToken(store))
    ensures "Authorization" in headers ==> headers["Authorization"] == "Bearer " + GetAuthToken(store).value
  {
    var token := GetAuthToken(store);
    headers := map["Content-Type" := "application/json"];
    if HasToken(token) {
      headers := headers["Authorization" := "Bearer " + token.value];
    }
  }

  // ----- the public listing URL -----

  datatype SortKey = Views | SubmissionDate

  function SortName(sort: SortKey): string {
    match sort
    case Views => "views"
    case SubmissionDate => "submissionDate"
  }

  const DEFAULT_LIMIT: nat := 10
  const DEFAULT_SORT := SubmissionDate

  /** A query string `k1=v1&k2=v2...`. */
  function EncodeQuery(params: seq<(string, string)>): string
    decreases |params|
  {
    if params == [] then []
    else if |params| == 1 then params[0].0 + "=" + params[0].1
    else params[0].0 + "=" + params[0].1 + "&" + EncodeQuery(params[1..])
  }

  /** The pieces of `s` between occurrences of `sep`. */
  function SplitOn(s: string, sep: char): (parts: seq<string>)
    ensures |parts| >= 1
    decreases |s|
  {
    if sep !in s then [s]
    else
      var i := IndexOf(s, sep);
      [s[..i]] + SplitOn(s[i + 1..], sep)
  }

  /** One `key=value` parameter, split at its first '='. */
  function SplitParam(p: string): (string, string) {
    if '=' in p then var i := IndexOf(p, '='); (p[..i], p[i + 1..]) else (p, [])
  }

  /** How a server reads a non-empty query string back into parameters. */
  function ParseQuery(q: string): seq<(string, string)> {
    var parts := SplitOn(q, '&');
    seq(|parts|, k requires 0 <= k < |parts| => SplitParam(parts[k]))
  }

  /** The query parameters `getBlogs` sends, in order. */
  function BlogsQuery(limit: nat, cursor: Option<string>, sort: SortKey): seq<(string, string)> {
    [("limit", NatToString(limit)), ("sort", SortName(sort)), ("status", APPROVED)]
      + (if HasToken(cursor) then [("cursor", cursor.value)] else [])
  }

  /**
   * The URL `getBlogs` builds with `let url = ...; if (cursor) url += ...`,
   * with JavaScript's default arguments for an omitted limit or sort.
   */
  method GetBlogsUrl(limit: Option<nat>, cursor: Option<string>, sort: Option<SortKey>) returns (url: string)
    ensures url == API_BASE_URL + "/blogs?" + EncodeQuery(BlogsQuery(limit.GetOr(DEFAULT_LIMIT), cursor, sort.GetOr(DEFAULT_SORT)))
  {
    var n := limit.GetOr(DEFAULT_LIMIT);
    var s := sort.GetOr(DEFAULT_SORT);
    url := API_BASE_URL + "/blogs?limit=" + NatToString(n) + "&sort=" + SortName(s) + "&status=approved";
    ghost var query := "limit=" + NatToString(n) + "&sort=" + SortName(s) + "&status=approved";
    PrefixRegroup(API_BASE_URL, NatToString(n), SortName(s));
    if HasToken(cursor) {
      url := url + "&cursor=" + cursor.value;
      query := query + "&cursor=" + cursor.value;
    }
    BlogsQueryText(n, cursor, s);
  }

  lemma PrefixRegroup(base: string, limit: string, sort: string)
    ensures base + "/blogs?limit=" + limit + "&sort=" + sort + "&status=approved"
      == base + "/blogs?" + ("limit=" + limit + "&sort=" + sort + "&status=approved")
  {
  }

  /** One parameter in front of a non-empty rest: `k=v&` followed by the rest's encoding. */
  lemma EncodeQueryCons(p: (string, string), rest: seq<(string, string)>)
    requires rest != []
    ensures EncodeQuery([p] + rest) == p.0 + "=" + p.1 + "&" + EncodeQuery(rest)
  {
    assert ([p] + rest)[1..] == rest;
  }

  lemma StatusText(cursor: Option<string>)
    ensures EncodeQuery([("status", APPROVED)] + (if HasToken(cursor) then [("cursor", cursor.value)] else []))
      == "&status=approved"[1..] + (if HasToken(cursor) then "&cursor=" + cursor.value else "")
  {
    if HasToken(cursor) {
      EncodeQueryCons(("status", APPROVED), [("cursor", cursor.value)]);
    } else {
      assert [("status", APPROVED)] + [] == [("status", APPROVED)];
    }
  }

  /** The encoding of the `getBlogs` parameters, one parameter at a time. */
  lemma BlogsQueryCons(n: nat, cursor: Option<string>, sort: SortKey)
    ensures var last: seq<(string, string)> := if HasToken(cursor) then [("cursor", cursor.value)] else [];
      EncodeQuery(BlogsQuery(n, cursor, sort))
      == "limit" + "=" + NatToString(n) + "&" + ("sort" + "=" + SortName(sort) + "&" + EncodeQuery([("status", APPROVED)] + last))
  {
    var a := ("limit", NatToString(n));
    var b := ("sort", SortName(sort));
    var c := ("status", APPROVED);
    var last: seq<(string, string)> := if HasToken(cursor) then [("cursor", cursor.value)] else [];
    assert BlogsQuery(n, cursor, sort) == [a] + ([b] + ([c] + last));
    EncodeQueryCons(b, [c] + last);
    EncodeQueryCons(a, [b] + ([c] + last));
  }

  /** The same text with its literal pieces joined. */
  lemma BlogsQueryRegroup(limit: string, sort: string, tail: string)
    ensures "limit" + "=" + limit + "&" + ("sort" + "=" + sort + "&" + ("&status=approved"[1..] + tail))
      == "limit=" + limit + "&sort=" + sort + "&status=approved" + tail
  {
    assert "limit" + "=" == "limit=";
    assert "&" + ("sort" + "=") == "&sort=";
    assert "&" + "&status=approved"[1..] == "&status=approved";
  }

  lemma BlogsQueryText(n: nat, cursor: Option<string>, sort: SortKey)
    ensures EncodeQuery(BlogsQuery(n, cursor, sort))
      == "limit=" + NatToString(n) + "&sort=" + SortName(sort) + "&status=approved"
         + (if HasToken(cursor) then "&cursor=" + cursor.value else "")
  {
    BlogsQueryCons(n, cursor, sort);
    StatusText(cursor);
    BlogsQueryRegroup(NatToString(n), SortName(sort), if HasToken(cursor) then "&cursor=" + cursor.value else "");
  }

  lemma {:induction false} SplitParamOf(k: string, v: string)
    requires '=' !in k
    ensures SplitParam(k + "=" + v) == (k, v)
  {
    var p := k + "=" + v;
    assert p[|k|] == '=';
    var i := IndexOf(p, '=');
    assert i == |k|;
    assert p[..i] == k;
    assert p[i + 1..] == v;
  }

  predicate PlainParam(p: (string, string)) {
    '&' !in p.0 && '=' !in p.0 && '&' !in p.1
  }

  lemma {:induction false} SplitEncoded(params: seq<(string, string)>)
    requires params != [] && forall k | 0 <= k < |params| :: PlainParam(params[k])
    ensures var parts := SplitOn(EncodeQuery(params), '&');
      |parts| == |params| && forall k | 0 <= k < |parts| :: parts[k] == params[k].0 + "=" + params[k].1
    decreases |params|
  {
    var head := params[0].0 + "=" + params[0].1;
    assert '&' !in head;
    if |params| > 1 {
      var s := EncodeQuery(params);
      assert s == head + "&" + EncodeQuery(params[1..]);
      assert s[|head|] == '&';
      var i := IndexOf(s, '&');
      assert i == |head|;
      assert s[..i] == head;
      assert s[i + 1..] == EncodeQuery(params[1..]);
      SplitEncoded(params[1..]);
    }
  }

  /**
   * Encoding then parsing gives the parameters back, provided no key holds
   * '&' or '=' and no value holds '&' (values are not URL-encoded).
   */
  lemma QueryRoundTrip(params: seq<(string, string)>)
    requires params != [] && forall k | 0 <= k < |params| :: PlainParam(params[k])
    ensures ParseQuery(EncodeQuery(params)) == params
  {
    SplitEncoded(params);
    var parts := SplitOn(EncodeQuery(params), '&');
    forall k | 0 <= k < |params| ensures SplitParam(parts[k]) == params[k] {
      SplitParamOf(params[k].0, params[k].1);
    }
  }

  /**
   * What the server reads from a `getBlogs` URL: the limit (10 by default),
   * the sort key (submissionDate by default), status=approved always, and a
   * cursor parameter exactly when a non-empty cursor without '&' was given.
   */
  lemma BlogsUrlParameters(limit: Option<nat>, cursor: Option<string>, sort: Option<SortKey>)
    requires cursor.Some? ==> '&' !in cursor.value
    ensures var q := ParseQuery(EncodeQuery(BlogsQuery(limit.GetOr(DEFAULT_LIMIT), cursor, sort.GetOr(DEFAULT_SORT))));
      && |q| == (if HasToken(cursor) then 4 else 3)
      && q[0].0 == "limit" && AllDigits(q[0].1) && DecimalValue(q[0].1) == limit.GetOr(DEFAULT_LIMIT)
      && q[1] == ("sort", SortName(sort.GetOr(DEFAULT_SORT)))
      && q[2] == ("status", "approved")
      && (HasToken(cursor) ==> q[3] == ("cursor", cursor.value))
  {
    var params := BlogsQuery(limit.GetOr(DEFAULT_LIMIT), cursor, sort.GetOr(DEFAULT_SORT));
    assert forall c | c in NatToString(limit.GetOr(DEFAULT_LIMIT)) :: '0' <= c <= '9';
    assert PlainParam(params[0]);
    QueryRoundTrip(params);
    DecimalRoundTrip(limit.GetOr(DEFAULT_LIMIT));
  }

  // ----- replies to errors -----

  /** `const error = await response.json(); throw new ApiError(error.error.message, error.error.code)`. */
  function RejectionOf(body: ErrorBody): (e: Thrown)
    ensures body.ErrorJson? ==> e == ApiError(body.message, body.code)
    ensures body.Unparseable? ==> e == PlainError(body.syntaxError)
  {
    match body
    case ErrorJson(m, c) => ApiError(m, c)
    case Unparseable(msg) => PlainError(msg)
  }

  /** `getBlogs` substitutes `{ message: "Unknown error", code: "unknown" }` for a body it cannot parse. */
  function BlogsRejectionOf(body: ErrorBody): (e: Thrown)
    ensures e.ApiError?
    ensures body.ErrorJson? ==> e == ApiError(body.message, body.code)
    ensures body.Unparseable? ==> e == ApiError("Unknown error", "unknown")
  {
    match body
    case ErrorJson(m, c) => ApiError(m, c)
    case Unparseable(_) => ApiError("Unknown error", "unknown")
  }

  /** `getBlogs`: the URL it requests and how it settles. */
  method GetBlogs(limit: Option<nat>, cursor: Option<string>, sort: Option<SortKey>, reply: Reply<PaginatedBlogs>)
    returns (url: string, result: Result<PaginatedBlogs, Thrown>)
    ensures url == API_BASE_URL + "/blogs?" + EncodeQuery(BlogsQuery(limit.GetOr(DEFAULT_LIMIT), cursor, sort.GetOr(DEFAULT_SORT)))
    ensures reply.Ok? ==> result == Success(reply.body)
    ensures reply.Threw? ==> result == Failure(reply.thrown)
    ensures reply.NotOk? ==> result == Failure(BlogsRejectionOf(reply.errorBody)) && result.error.HasCode()
  {
    url := GetBlogsUrl(limit, cursor, sort);
    match reply
    case Threw(t) => result := Failure(t);
    case NotOk(body) => result := Failure(BlogsRejectionOf(body));
    case Ok(page) => result := Success(page);
  }

  /**
   * `checkAuth()`: no request without a stored token; a request that throws
   * counts as not authenticated; otherwise `response.ok`.
   */
  method CheckAuth(store: LocalStorage, reply: Reply<()>) returns (requested: bool, valid: bool)
    ensures requested <==> HasToken(GetAuthToken(store))
    ensures valid <==> requested && reply.Ok?
  {
    var token := GetAuthToken(store);
    if !HasToken(token) {
      return false, false;
    }
    requested := true;
    valid := reply.Ok?;
  }

  /** `logout()`: the stored token is cleared whether the request succeeds, fails or throws. */
  method Logout(store: LocalStorage, reply: Reply<()>) returns (ok: bool)
    modifies store
    ensures store.items == old(store.items) - {AUTH_TOKEN_KEY}
    ensures GetAuthToken(store) == None
    ensures ok <==> reply.Ok?
  {
    match reply
    case Threw(_) =>
      ClearAuthToken(store);
      ok := false;
    case NotOk(_) =>
      ClearAuthToken(store);
      ok := false;
    case Ok(_) =>
      ClearAuthToken(store);
      ok := true;
  }

  /** The ok body of the login endpoint: it may or may not carry a token. */
  datatype LoginBody = LoginBody(token: Option<string>)

  /**
   * `adminLogin(username, password)`: a non-ok response throws the ApiError
   * built from its body and leaves storage alone; an ok response stores the
   * token when it carries a non-empty one.
   */
  method AdminLogin(store: LocalStorage, reply: Reply<LoginBody>) returns (result: Result<(), Thrown>)
    modifies store
    ensures reply.Threw? ==> result == Failure(reply.thrown) && store.items == old(store.items)
    ensures reply.NotOk? ==> result == Failure(RejectionOf(reply.errorBody)) && store.items == old(store.items)
    ensures reply.Ok? ==> result == Success(())
    ensures reply.Ok? && HasToken(reply.body.token) ==> store.items == old(store.items)[AUTH_TOKEN_KEY := reply.body.token.value]
    ensures reply.Ok? && !HasToken(reply.body.token) ==> store.items == old(store.items)
  {
    match reply
    case Threw(t) =>
      result := Failure(t);
    case NotOk(body) =>
      result := Failure(RejectionOf(body));
    case Ok(body) =>
      if HasToken(body.token) {
        SetAuthToken(store, body.token.value);
      }
      result := Success(());
  }

  /** Every not-ok `getBlogs` reply surfaces as an error with a code, even an unparseable one. */
  lemma BlogsErrorsCarryCode(body: ErrorBody)
    ensures BlogsRejectionOf(body).HasCode() && BlogsRejectionOf(body).IsError()
    ensures body.Unparseable? ==> RejectionOf(body) != BlogsRejectionOf(body)
  {
  }
}
