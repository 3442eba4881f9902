# Heliosensium blog: verified model of the client-side logic

Heliosensium is a blog site with a public reader and an admin panel, built as
a React/TypeScript single-page application over a REST backend. Almost all of
it is markup and fetch plumbing. This project models, in Dafny, the small
pieces of sequential logic spread through its pages, hooks, API client and
one developer script, and it proves what each promises:

- the moderation dashboard (`AdminDashboard.tsx`): pagination bounds, the tab
  switch, the stats fold, removing an acted-on blog, the action dialog, and
  the split between "session expired" and ordinary load errors;
- the single-post review page (`AdminBlogPost.tsx`): reading time, the
  HTML-or-markdown dispatch, action to status mapping, which actions are
  offered for each status, the badge colour and the status label;
- the summary helpers of the home page (`Index.tsx`): tag stripping,
  truncation and the summary fallback;
- the client-side search filters and the queue removal of `Admin.tsx`,
  `Blog.tsx` and `BlogPost.tsx`;
- the admin auth hook (`useAdminAuthLogic.ts`) and the route gate that
  consumes it (`App.tsx`);
- the API client's token store, headers, `getBlogs` URL and error mapping
  (`api.ts`), over a modelled `localStorage`;
- the theme provider's resolution rule and effects (`ThemeProvider.tsx`);
- the URL fixer script (`fix-api-url.js`): probing, the choice between the
  development and the production backend, and the rewrite of
  `const API_BASE_URL = ...;` in `src/lib/api.ts`.

Each network call is an input. It is an ok reply with a body, a not-ok reply
with an error body, or a thrown value. Storage, the document and the file
system are classes whose fields the methods update. JavaScript's string
built-ins used on the way are modelled in `js_text.dfy`. They are `trim`,
`split(/\s+/)`, ASCII `toLowerCase`/`toUpperCase`, `includes` and number
formatting. Generic sequence facts (filter, take, subsequence) are in
`seqs.dfy`, and `Option`/`Result` are in `wrappers.dfy`.

`src/lib/api.ts:36` types a blog's status as `"pending" | "approved" |
"rejected"`, but the value arrives as JSON and nothing checks it.
`AdminBlogPost.tsx` switches over it with a default branch, and the
dashboard's stats fold accepts any status. The model therefore keeps the
status a string and proves what happens for unknown values: a yellow badge,
only "approve" offered, and the status ignored by the stats.

Behaviours of the code that the model states as they are written:

- `closeActionDialog` on the review page restores the notes of the blog as
  it was when the action started, not of the blog the update returned.
- The dashboard's stats-error guard `if (!error)` reads the value from
  before the load. A blogs error set during the same load does not suppress
  a stats error.
- The dashboard removes the acted-on blog only when both the action and the
  stats refresh succeed.
- `api.ts`'s `logout` and `checkAuth` never reject. So the hook's `logout`
  always returns true after them, and the mount check never takes its
  `catch` branch.
- Once the theme effect has run, storage holds "light" or "dark". From then
  on the system-change listener can no longer change the theme.

## Model

| member | source | states |
|---|---|---|
| Dashboard.DashboardPage.constructor | src/pages/AdminDashboard.tsx:49-77 | the initial state: no blogs, loading, page 1 of 1, pending tab, zero stats, dialog closed with no action and empty notes |
| Dashboard.DashboardPage.HandleTabChange | src/pages/AdminDashboard.tsx:174-177 | the active tab becomes the chosen one and the page resets to 1; blogs, stats and dialog are unchanged |
| Dashboard.DashboardPage.HandlePreviousPage | src/pages/AdminDashboard.tsx:180-184 | the page goes down by one exactly when it is above 1, so it never drops below 1; nothing else changes |
| Dashboard.DashboardPage.HandleNextPage | src/pages/AdminDashboard.tsx:186-190 | the page goes up by one exactly when it is below the page count, so it never passes the page count; nothing else changes |
| Dashboard.DashboardPage.OpenActionDialog | src/pages/AdminDashboard.tsx:193-199 | the dialog opens with the action, and the notes are the blog's stored notes or "" when it has none |
| Dashboard.DashboardPage.CloseActionDialog | src/pages/AdminDashboard.tsx:202-208 | the dialog is closed with no action and empty notes; the rest of the page is unchanged |
| Dashboard.DashboardPage.EditNotes | src/pages/AdminDashboard.tsx:211-218 | only the notes change, to the typed text |
| Dashboard.DashboardPage.ExecuteAction | src/pages/AdminDashboard.tsx:220-269 | with no action nothing happens; otherwise delete or a status update is requested for the blog; on success the stats are refolded and exactly the blogs with that id leave the list, in order; on any failure an "Action Failed" toast appears; the dialog always ends closed |
| Dashboard.DashboardPage.FetchData | src/pages/AdminDashboard.tsx:80-167 | nothing before auth is loaded; without a session it redirects to login; an expired-session error on the blogs load forces logout and stops; any other blogs error sets the blogs message; stats fold or set the stats message only when no error was showing before; loading ends false |
| Dashboard.ReduceIsLastReported | src/pages/AdminDashboard.tsx:129-132 | the folded map holds each status's count from its last report, and the initial value for statuses never reported |
| Dashboard.StatsCounter | src/pages/AdminDashboard.tsx:129-138 | each counter is the count reported for its status, and 0 when the status is absent |
| Dashboard.StatsIgnoreOtherStatuses | src/pages/AdminDashboard.tsx:129-138 | the stats are the same as if every status other than pending, approved and rejected were dropped from the list |
| Dashboard.RemoveById | src/pages/AdminDashboard.tsx:258 | the result holds exactly the blogs whose id differs, as a subsequence in the original order |
| Dashboard.RemoveByIdCount | src/pages/AdminDashboard.tsx:258 | the list shrinks by exactly the number of blogs carrying the id |
| Dashboard.RemoveAbsentId | src/pages/AdminDashboard.tsx:258 | removing an id no blog carries leaves the list as it was |
| Dashboard.CodelessErrorsAreNotExpiry | src/pages/AdminDashboard.tsx:108-122 | errors without a code never count as an expired session, and a code of "unauthorized" always does |
| Dashboard.ShortText | src/pages/AdminDashboard.tsx:272-275 | text that fits is unchanged; longer text becomes its first maxLength characters followed by "...", exactly 3 longer than the limit |
| BlogReview.RenderContent | src/pages/AdminBlogPost.tsx:40-62 | content matching `<letter ... >` is returned as it is; otherwise the markdown result when it is a string, the raw content when it is not, and `<p>content</p>` when the converter throws |
| BlogReview.FallbackIsHtml | src/pages/AdminBlogPost.tsx:58-61 | the `<p>` fallback counts as HTML, so rendering it again returns it unchanged |
| BlogReview.NoAngleIsMarkdown | src/pages/AdminBlogPost.tsx:42-55 | content without '<' never counts as HTML and always reaches the markdown converter |
| BlogReview.TargetStatus | src/pages/AdminBlogPost.tsx:366-368 | approve asks for "approved", reject for "rejected", and delete for no status |
| BlogReview.RequestFor | src/pages/AdminBlogPost.tsx:358-373 | delete and only delete issues deleteBlog; approve and reject issue a status update with the typed notes, for the blog's own id |
| BlogReview.TargetsDistinct | src/pages/AdminBlogPost.tsx:366-368 | different actions request different statuses, and none requests "pending" |
| BlogReview.OfferedActions | src/pages/AdminBlogPost.tsx:544-651 | delete is always offered |
| BlogReview.OfferedIffChanges | src/pages/AdminBlogPost.tsx:544-651 | an offered action always changes the status; for the three server statuses, approve or reject is offered exactly when it would change it |
| BlogReview.BadgeClass | src/pages/AdminBlogPost.tsx:458-467 | green exactly for approved, red exactly for rejected, yellow exactly for every other status |
| BlogReview.BadgeAgreesWithActions | src/pages/AdminBlogPost.tsx:458-467 | the badge is green exactly when approve is not offered; a status outside the three gets yellow and only approve |
| BlogReview.StatusLabel | src/pages/AdminBlogPost.tsx:505 | the label has the status's length, its first character upper-cased and the rest unchanged |
| BlogReview.LabelLowersBack | src/pages/AdminBlogPost.tsx:505 | lower-casing the label gives the lower-cased status back: only the case of the first letter changes |
| BlogReview.KnownLabels | src/pages/AdminBlogPost.tsx:505 | the three server statuses show as "Pending", "Approved" and "Rejected" |
| BlogReview.NotesOf | src/pages/AdminBlogPost.tsx:330 | the blog's stored notes, or "" when there is no blog or no notes |
| BlogReview.ReviewPage.constructor | src/pages/AdminBlogPost.tsx:72-82 | no blog, loading, no error, dialog closed with no action and empty notes |
| BlogReview.ReviewPage.FetchBlog | src/pages/AdminBlogPost.tsx:292-323 | a request is made exactly when auth is loaded, the user is authenticated and an id is present; success stores the blog and seeds the notes, failure sets the load message; loading ends false |
| BlogReview.ReviewPage.OpenActionDialog | src/pages/AdminBlogPost.tsx:326-332 | the dialog opens with the action and the blog's stored notes |
| BlogReview.ReviewPage.CloseActionDialog | src/pages/AdminBlogPost.tsx:335-341 | the dialog closes without an action and the notes return to the blog's stored notes |
| BlogReview.ReviewPage.EditNotes | src/pages/AdminBlogPost.tsx:344-351 | only the notes change, to the typed text |
| BlogReview.ReviewPage.ExecuteAction | src/pages/AdminBlogPost.tsx:354-395 | without a blog or an action nothing happens; delete navigates to the dashboard, a status update stores the returned blog, a failure shows the failure toast; the dialog always ends closed with the notes of the blog as it was when the action started |
| ReadingTime.WordCount | src/pages/AdminBlogPost.tsx:34 | the number of pieces of the trimmed content, at least 1 |
| ReadingTime.WordCountIsWordStarts | src/pages/AdminBlogPost.tsx:34 | the count is the number of positions where a word starts (a non-white-space character at the start or after white space), and 1 when there is none; there is none exactly when the content is blank |
| ReadingTime.WordStartsOfTrim | src/pages/AdminBlogPost.tsx:34 | trimming the content does not change where its words start |
| ReadingTime.Minutes | src/pages/AdminBlogPost.tsx:35 | the smallest number of minutes whose 200-word capacity covers the words |
| ReadingTime.WordCountIsWords | src/pages/Index.tsx:13 | the pieces hold exactly the content's non-white-space characters, none is empty unless the content is blank, and blank content still counts as one word |
| ReadingTime.NonWhitespaceOfTrim | src/pages/Index.tsx:13 | trimming removes only white space |
| ReadingTime.MinutesIsCeiling | src/pages/Index.tsx:14 | minutes is the ceiling of words / 200 and at least 1 |
| ReadingTime.ReadingTimeLabel | src/pages/Index.tsx:11-16 | the label is the decimal minutes followed by " min read", the digits read back as the minutes, and it is never "0 min read" |
| IndexPage.TruncateText | src/pages/Index.tsx:19-22 | text that fits is unchanged; otherwise the result ends in "...", is at most 3 longer than the limit, and what precedes the "..." is the first maxLength characters with white space trimmed from both ends |
| IndexPage.StripHtmlTags | src/pages/Index.tsx:25-27 | the result is no longer than the input, uses only its characters, and no '<' in it has a '>' after it |
| IndexPage.StripIsSubsequence | src/pages/Index.tsx:25-27 | the kept characters are a subsequence of the input, in their original order |
| IndexPage.StripRemovesTag | src/pages/Index.tsx:25-27 | plain text before a tag is kept, the span from '<' to the first '>' is deleted, and the rest is stripped on its own |
| IndexPage.NoTagFixpoint | src/pages/Index.tsx:25-27 | text with no '<' followed later by a '>' is left as it is |
| IndexPage.StripIdempotent | src/pages/Index.tsx:25-27 | stripping twice is the same as stripping once |
| IndexPage.DisplaySummary | src/pages/Index.tsx:339-341 | a non-empty summary is shown as it is; a missing or empty one is replaced by the content with its tags stripped, truncated to 150 characters |
| IndexPage.TruncateKeepsNoTag | src/pages/Index.tsx:19-27 | truncating tag-free text leaves it tag-free |
| IndexPage.SummaryFallback | src/pages/Index.tsx:339-341 | without a summary, the shown excerpt (the truncated, tag-stripped content) is at most 153 characters long and contains no tag |
| SubmissionQueue.FilteredSubmissions | src/pages/Admin.tsx:73-78 | the filtered list is a subsequence of the submissions in their original order |
| SubmissionQueue.FilteredIff | src/pages/Admin.tsx:73-78 | a submission is listed exactly when the lower-cased term occurs in its lower-cased title, author name or content |
| SubmissionQueue.EmptyTermKeepsAll | src/pages/Admin.tsx:73-78 | an empty term lists every submission |
| SubmissionQueue.SearchIgnoresTermCase | src/pages/Admin.tsx:75-77 | searching for a term and for its lower-cased form gives the same list |
| SubmissionQueue.WithoutId | src/pages/Admin.tsx:81 | exactly the submissions whose id differs remain, in their original order |
| SubmissionQueue.WithoutIdCount | src/pages/Admin.tsx:81 | the queue shrinks by exactly the number of submissions carrying the id |
| SubmissionQueue.AdminQueue.constructor | src/pages/Admin.tsx:64-70 | the queue starts as the mock submissions, with an empty term and the view dialog closed with nothing selected |
| SubmissionQueue.AdminQueue.Shown | src/pages/Admin.tsx:73-78 | what is listed is a subsequence of the queue |
| SubmissionQueue.AdminQueue.SetSearchTerm | src/pages/Admin.tsx:67 | the term is stored and the list shows the filter for it; the queue is unchanged |
| SubmissionQueue.AdminQueue.ClearSearch | src/pages/Admin.tsx:160 | the term becomes "" and the whole queue is listed |
| SubmissionQueue.AdminQueue.HandleApprove | src/pages/Admin.tsx:80-86 | the submissions with the id leave the queue and the approval toast is shown |
| SubmissionQueue.AdminQueue.HandleReject | src/pages/Admin.tsx:88-94 | the queue changes exactly as with approve; only the toast differs |
| SubmissionQueue.AdminQueue.HandleView | src/pages/Admin.tsx:96-99 | the submission is selected and the view dialog opens |
| SubmissionQueue.AdminQueue.CancelView | src/pages/Admin.tsx:268 | the view dialog closes; queue, term and selection are unchanged |
| SubmissionQueue.AdminQueue.DialogApprove | src/pages/Admin.tsx:283-286 | approving from the dialog removes the selected submission's id from the queue and closes the dialog |
| SubmissionQueue.AdminQueue.DialogReject | src/pages/Admin.tsx:274-277 | rejecting from the dialog removes the selected submission's id from the queue and closes the dialog |
| BlogList.FilteredBlogs | src/pages/Blog.tsx:69-72 | the result is a subsequence of the six mock posts, in their order |
| BlogList.FilteredBlogsIff | src/pages/Blog.tsx:69-72 | a post is listed exactly when it is one of the mock posts and the lower-cased term occurs in its lower-cased title or summary |
| BlogList.AuthorAndDateNotSearched | src/pages/Blog.tsx:69-72 | changing a post's author or date never changes whether it matches |
| BlogList.EmptyTermListsAll | src/pages/Blog.tsx:9-72 | an empty term lists all six posts |
| BlogList.ClearSearch | src/pages/Blog.tsx:119-123 | the cleared term lists every post again |
| BlogPostPage.LookupPost | src/pages/BlogPost.tsx:8-122 | only the ids "1" and "2" resolve, each to its own post; every other id, and a missing one, gives the not-found view |
| BlogPostPage.LookupByOwnId | src/pages/BlogPost.tsx:8-120 | every key of the post table resolves to its entry |
| BlogPostPage.RelatedPosts | src/pages/BlogPost.tsx:218-221 | at most two related posts, none of them the post being viewed, all from the table |
| BlogPostPage.RelatedInTableOrder | src/pages/BlogPost.tsx:218-221 | the related posts keep the table's order |
| BlogPostPage.RelatedOfEachPost | src/pages/BlogPost.tsx:218-221 | post 1 shows post 2 as related and post 2 shows post 1 |
| AdminAuth.LoginErrorMessage | src/hooks/useAdminAuthLogic.ts:53 | an Error's own message, otherwise "Failed to login" |
| AdminAuth.AuthState.constructor | src/hooks/useAdminAuthLogic.ts:9-13 | not authenticated, not loading, checking, not loaded, no error |
| AdminAuth.AuthState.VerifyAuth | src/hooks/useAdminAuthLogic.ts:16-31 | afterwards checking is over and auth is loaded; authenticated exactly when the check answered true |
| AdminAuth.AuthState.Login | src/hooks/useAdminAuthLogic.ts:37-58 | returns true exactly when the API call succeeded, and then the user is authenticated with no error; a failure stores the error message and leaves authentication as it was; loading ends false |
| AdminAuth.AuthState.Logout | src/hooks/useAdminAuthLogic.ts:61-72 | on success the user is logged out and true is returned; on failure false is returned and nothing changes |
| AdminAuth.AuthState.ForcedLogout | src/hooks/useAdminAuthLogic.ts:75-86 | the message becomes the error, the user is logged out, and the message is returned, whatever the API does |
| AdminAuth.ForcedLogoutWithApi | src/hooks/useAdminAuthLogic.ts:75-86 | with the real `logout`, a forced logout signs the admin out and returns the message at once, and the stored token is gone once the request settles, whatever the reply |
| AdminAuth.VerifyAuthWithApi | src/hooks/useAdminAuthLogic.ts:16-31 | with the real `checkAuth`, the user is authenticated exactly when a token is stored and the validation reply is ok |
| AdminAuth.LogoutWithApi | src/hooks/useAdminAuthLogic.ts:61-72 | with the real `logout`, the hook always succeeds, logs the user out and leaves no token |
| AdminAuth.LoginWithApi | src/hooks/useAdminAuthLogic.ts:37-58 | with the real `adminLogin`, login succeeds exactly on an ok reply; a not-ok reply shows the server's message |
| Routes.ProtectedRoute | src/App.tsx:83-114 | the loader shows exactly while checking; otherwise the children render exactly when authenticated, and a redirect to /suraj/login with the location and replace happens exactly when not |
| Routes.SessionGate.constructor | src/App.tsx:51 | the provider starts out checking |
| Routes.SessionGate.OnAuthChange | src/App.tsx:54-69 | checking ends once the hook has finished checking and has loaded, and the flag never turns back on |
| Routes.SessionGate.ExposedChecking | src/App.tsx:74 | the context reports checking while either the provider or the hook is checking |
| Routes.MountProtectedPage | src/App.tsx:49-114 | a protected page first shows the loader; after the mount check it shows the children exactly when the check answered true, and otherwise redirects to login |
| Routes.ForcedLogoutRedirects | src/App.tsx:107-110 | after a forced logout a protected page redirects to login |
| BrowserStorage.LocalStorage.GetItem | src/lib/api.ts:74 | a value exactly for a stored key, and it is the stored one |
| BrowserStorage.LocalStorage.SetItem | src/lib/api.ts:79 | the key maps to the value; other keys are unchanged |
| BrowserStorage.LocalStorage.RemoveItem | src/lib/api.ts:84 | the key is gone; other keys are unchanged |
| Api.SetAuthToken | src/lib/api.ts:78-80 | the token reads back afterwards; other keys are untouched |
| Api.ClearAuthToken | src/lib/api.ts:83-85 | no token reads back afterwards; other keys are untouched |
| Api.GetAuthHeaders | src/lib/api.ts:88-99 | Content-Type is always application/json; Authorization is present exactly when a non-empty token is stored, and it is "Bearer " followed by the token |
| Api.GetBlogsUrl | src/lib/api.ts:102-112 | the URL is the base, "/blogs?" and the encoding of limit, sort, status and, for a non-empty cursor, cursor |
| Api.BlogsQueryText | src/lib/api.ts:108-112 | that encoding is the literal text `limit=<n>&sort=<key>&status=approved`, followed by `&cursor=<c>` for a non-empty cursor |
| Api.QueryRoundTrip | src/lib/api.ts:108-112 | parameters whose keys and values contain no '&' and keys no '=' are read back by a server exactly as sent |
| Api.BlogsUrlParameters | src/lib/api.ts:102-112 | a server reads limit (default 10), sort (default submissionDate) and status=approved, and a cursor exactly when a non-empty one was given |
| Api.RejectionOf | src/lib/api.ts:184-187 | a not-ok reply becomes ApiError(message, code) from its body; an unparseable body rejects with the parse error |
| Api.BlogsRejectionOf | src/lib/api.ts:120-130 | `getBlogs` always rejects with an ApiError, with ("Unknown error", "unknown") for an unparseable body |
| Api.BlogsErrorsCarryCode | src/lib/api.ts:120-130 | every not-ok `getBlogs` reply surfaces with a code, which differs from the generic mapping for unparseable bodies |
| Api.GetBlogs | src/lib/api.ts:102-139 | requests the modelled URL, resolves with an ok body, rethrows a thrown value, and rejects a not-ok reply with a coded ApiError |
| Api.CheckAuth | src/lib/api.ts:200-217 | a request is made exactly when a non-empty token is stored, and the answer is true exactly when it was made and the reply was ok |
| Api.Logout | src/lib/api.ts:220-237 | the token is cleared on an ok, a not-ok and a thrown reply alike; the answer is the reply's ok flag |
| Api.AdminLogin | src/lib/api.ts:172-197 | a thrown or not-ok reply rejects and leaves storage untouched; an ok reply resolves and stores the token exactly when the body carries a non-empty one |
| ThemeProviding.ThemeName | src/components/ThemeProvider.tsx:3 | a theme is named "light" or "dark" |
| ThemeProviding.ParseTheme | src/components/ThemeProvider.tsx:33-35 | exactly "light" and "dark" name a theme, and each names the theme whose name it is |
| ThemeProviding.StoredThemeWins | src/components/ThemeProvider.tsx:31-35 | a stored "dark" or "light" is the initial theme, whatever the default and the system say |
| ThemeProviding.SystemDecidesWithoutStoredTheme | src/components/ThemeProvider.tsx:38-42 | without a valid stored value, a "system" default follows the system preference |
| ThemeProviding.DefaultDecidesOtherwise | src/components/ThemeProvider.tsx:44 | without a valid stored value and with another default, the theme is dark exactly when the default is "dark" |
| ThemeProviding.ThemeColor | src/components/ThemeProvider.tsx:60-66 | #0d0d0d for dark, #ffffff for light |
| ThemeProviding.StoredThemeStopsListener | src/components/ThemeProvider.tsx:74-78 | a stored theme name never lets the listener follow the system |
| ThemeProviding.Document.constructor | src/components/ThemeProvider.tsx:48-60 | the root's classes and the theme-colour tag as given |
| ThemeProviding.ThemeProvider.constructor | src/components/ThemeProvider.tsx:29-45 | the initial theme is resolved once from the stored value, the default and the system preference |
| ThemeProviding.ThemeProvider.ApplyTheme | src/components/ThemeProvider.tsx:47-67 | the root ends with exactly one of light and dark, the current theme's; the theme is stored; an existing meta tag gets the theme's colour; afterwards the listener cannot follow the system |
| ThemeProviding.ThemeProvider.HandleSystemChange | src/components/ThemeProvider.tsx:73-79 | the theme follows the system only when nothing or "system" is stored, and is unchanged otherwise |
| ThemeProviding.ThemeProvider.SetTheme | src/components/ThemeProvider.tsx:87 | the theme becomes the chosen one |
| ThemeProviding.MountTheme | src/components/ThemeProvider.tsx:29-83 | mounting resolves the initial theme, stores it, and the stored theme is what a reload resolves; a later system change leaves it as it is |
| ApiUrlFixer.TestUrl | fix-api-url.js:22-39 | working exactly on an ok response; has blogs exactly when the ok body's `data` is present and non-empty; a thrown fetch reports neither |
| ApiUrlFixer.HasBlogImpliesSuccess | fix-api-url.js:22-39 | a backend with blogs is a working backend |
| ApiUrlFixer.ChooseUrl | fix-api-url.js:80-106 | no URL exactly when neither backend works; a chosen URL is the development or the production one |
| ApiUrlFixer.ChooseUrlTable | fix-api-url.js:82-102 | production is chosen exactly when it works and either development does not or only production has blogs; development is chosen exactly when it works and that case does not hold |
| ApiUrlFixer.ChosenUrlWorks | fix-api-url.js:97-102 | a chosen URL belongs to a backend that answered ok |
| ApiUrlFixer.SpanFrom | fix-api-url.js:52-55 | a found match starts at an occurrence of the prefix and ends at the first ';' after it, with no earlier occurrence from the start position |
| ApiUrlFixer.SpanFromFinds | fix-api-url.js:52-55 | the first occurrence of the prefix with a ';' after it is the match found |
| ApiUrlFixer.ReplaceFirst | fix-api-url.js:52-55 | without a match the text is unchanged; otherwise the first match alone is replaced and the text around it is kept |
| ApiUrlFixer.ReplaceFirstIdempotent | fix-api-url.js:52-55 | replacing the first match with a declaration of the same form a second time changes nothing |
| ApiUrlFixer.ReplaceApiBase | fix-api-url.js:52-55 | a file without the declaration is unchanged; otherwise its first declaration becomes `const API_BASE_URL = "<url>";` and the rest is kept |
| ApiUrlFixer.RewriteDeclarationSpan | fix-api-url.js:52-55 | after the rewrite the file's first declaration is the new one, at the same place |
| ApiUrlFixer.RewriteReadsBack | fix-api-url.js:52-55 | the rewritten file declares the URL in double quotes |
| ApiUrlFixer.RewriteIdempotent | fix-api-url.js:52-55 | rewriting a second time with the same URL changes nothing |
| ApiUrlFixer.RewriteKeepsRest | fix-api-url.js:52-55 | the text before the first declaration and after its ';' is kept |
| ApiUrlFixer.FileSystem.constructor | fix-api-url.js:44-57 | the file system holds the given files |
| ApiUrlFixer.UpdateApiFile | fix-api-url.js:42-65 | returns false and writes nothing when src/lib/api.ts is missing; otherwise it writes back the rewritten text and returns true |
| ApiUrlFixer.FixApiUrl | fix-api-url.js:68-110 | with neither backend working the script exits with failure and the files are unchanged; otherwise the chosen URL is written into an existing api.ts |
| JsText.Trim | src/pages/Index.tsx:21 | the result is the input with its leading and trailing white space removed: an infix with white space on both sides, not starting or ending in white space |
| JsText.ToLower | src/pages/Admin.tsx:75-77 | each character is lower-cased (ASCII), and the length is kept |
| JsText.SplitWhitespace | src/pages/Index.tsx:13 | at least one piece, and no piece contains white space |
| JsText.SplitKeepsText | src/pages/Index.tsx:13 | the pieces joined are the text's non-white-space characters |
| JsText.SplitCountsWords | src/pages/Index.tsx:13 | the number of pieces is the number of word starts, plus one for white space or nothing at the start and one for white space at the end |
| Seqs.Take | src/pages/BlogPost.tsx:220 | the first n elements in order, all of them when there are no more than n, and exactly n otherwise |
| JsText.NatToString | src/pages/Index.tsx:15 | at least one decimal digit, no leading zero for a positive number |
| JsText.DecimalRoundTrip | src/pages/Index.tsx:15 | the decimal text reads back as the number |

## Left out

- Network, JSON and the backend: every `fetch` is an input (ok with a body, not-ok with an error body, or thrown). The REST semantics, server-side status rules and response shapes are not part of this model.
- `marked.parse` is an input that returns a string, returns something else or throws. `date-fns` formatting, the rich-text editor and the chart wrappers are not part of this model.
- Asynchronous interleaving: each fetch is atomic and sequential. Effect re-runs on page or tab changes, and replies arriving out of order, are not modelled.
- Dashboard.DashboardPage.FetchData: the outer catch at src/pages/AdminDashboard.tsx:161-164 is not modelled. Both inner blocks catch everything, so only a throw from a state setter could reach it.
- Dashboard.DashboardPage.FetchData: the blogs load takes the page's result as one input. The page request's parameters (page, size, tab) are not stated.
- Console logging, navigation side effects other than the modelled redirect and toast values, and JSX rendering are left out.
- IndexPage.TruncateText measures and cuts text in Unicode characters. JavaScript's `length` and `substring` count UTF-16 code units, so with characters outside the Basic Multilingual Plane (emoji, for instance) the fits-test differs and the source can split a surrogate pair. The model does not capture either.
- Dashboard.ShortText counts Unicode characters where the source's `length` and `substring` count UTF-16 code units, as for TruncateText.
- IndexPage.SummaryFallback: the bound of 153 is in Unicode characters, not in UTF-16 code units.
- `toLowerCase` and `toUpperCase` are ASCII-only. Unicode case folding is not modelled.
- Api.QueryRoundTrip: stated only for keys and values without '&' (and keys without '='). A cursor containing '&' would split into extra parameters. `getBlogs` does not encode its cursor.
- Api.BlogsUrlParameters requires a cursor without '&' for the same reason.
- ApiUrlFixer.RewriteReadsBack, ApiUrlFixer.RewriteDeclarationSpan and ApiUrlFixer.RewriteIdempotent require a URL without ';'. A ';' in the URL would end the declaration early on the next run. Neither URL the script uses contains one.
- ApiUrlFixer.ReplaceFirst: the `$` patterns of `String.replace` replacement strings are not modelled. Neither URL the script uses contains '$'.
- ApiUrlFixer.FixApiUrl: the file's existence check, read and write are a map of paths to texts. `fs` errors inside the try block, the stdin prompt, `exec('npm run dev')` and `process.exit` are not modelled. Exit is an outcome value.
- BlogPostPage: the article bodies of the two mock posts (long HTML) are reduced to their ids, titles and metadata. JavaScript's lookup of inherited object keys such as "constructor" is not modelled. Only own keys resolve.
- The debugging scripts (check-localstorage.js, public/check-localstorage.js, public/test-api.js, test-backend.js, test-jwt-admin-login.js, token-check.js, admin-test.js, submit-test.js) are pure I/O and are not part of this model.
- The static pages and thin wrappers (About, Pricing, NotFound, index-backup, Footer, Navbar, AdminLogin, BlogSubmission, useAdminAuth, AuthContext, ThemeToggle) have no logic of their own to state.
- The API functions other than `getBlogs`, `checkAuth`, `logout` and `adminLogin` (getBlogById, submitBlog, the admin endpoints) are inputs to the pages that call them. Only their error mapping, RejectionOf, is modelled.
