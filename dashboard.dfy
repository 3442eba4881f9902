/**
 * The moderation dashboard: the tab and page controls, the three status
 * counters folded from the stats list, the action dialog and its refresh,
 * and the rule that turns an authentication failure while loading into a
 * forced logout.
 */
module Dashboard {
  import opened Wrappers
  import opened JsText
  import opened Seqs
  import opened Api
  import opened BlogReview

  const PAGE_SIZE: nat := 10
  const SESSION_EXPIRED := "Your session has expired. Please log in again."
  const BLOGS_FAILED := "Failed to load blogs. Please try refreshing the page."
  const STATS_FAILED := "Failed to load blog statistics."
  const LOGIN_PATH := "/suraj/login"

  // ----- the stats fold -----

  /** One entry of `getAdminStats()`. */
  datatype StatusCount = StatusCount(status: string, count: int)

  /** The three counters shown on the dashboard. */
  datatype Stats = Stats(pending: int, approved: int, rejected: int)

  /** `items.reduce((acc, item) => { acc[item.status] = item.count; return acc }, acc)`. */
  function Reduce(acc: map<string, int>, items: seq<StatusCount>): map<string, int>
    decreases |items|
  {
    if items == [] then acc
    else Reduce(acc[items[0].status := items[0].count], items[1..])
  }

  /** Entry `i` is the last one that reports `status`. */
  predicate LastReportAt(items: seq<StatusCount>, status: string, i: nat) {
    i < |items| && items[i].status == status
    && forall j | i < j < |items| :: items[j].status != status
  }

  /**
   * What the fold holds for a status: the count of the last entry that
   * reports it, or the accumulator's own value when no entry does.
   */
  lemma {:induction false} ReduceIsLastReported(acc: map<string, int>, items: seq<StatusCount>, s: string)
    ensures var m := Reduce(acc, items);
      && ((exists i: nat | i < |items| :: items[i].status == s) ==>
            s in m && exists i: nat :: LastReportAt(items, s, i) && m[s] == items[i].count)
      && ((forall i: nat | i < |items| :: items[i].status != s) ==>
            (s in m <==> s in acc) && (s in acc ==> m[s] == acc[s]))
    decreases |items|
  {
    if items != [] {
      var acc' := acc[items[0].status := items[0].count];
      ReduceIsLastReported(acc', items[1..], s);
      var m := Reduce(acc, items);
      if exists i: nat | 0 < i < |items| :: items[i].status == s {
        var i: nat :| 0 < i < |items| && items[i].status == s;
        assert items[1..][i - 1].status == s;
        var k: nat :| LastReportAt(items[1..], s, k) && m[s] == items[1..][k].count;
        assert LastReportAt(items, s, k + 1);
      } else if items[0].status == s {
        assert LastReportAt(items, s, 0);
      } else {
        assert forall i: nat | i < |items[1..]| :: items[1..][i].status != s by {
          forall i: nat | i < |items[1..]| ensures items[1..][i].status != s {
            assert items[1..][i] == items[i + 1];
          }
        }
      }
    }
  }

  /** `statsMap[status] || 0`. */
  function CountOr(m: map<string, int>, status: string): int {
    if status in m then m[status] else 0
  }

  /** The counters after `setStats` with the folded map. */
  function StatsOf(items: seq<StatusCount>): Stats {
    var m := Reduce(map[], items);
    Stats(CountOr(m, PENDING), CountOr(m, APPROVED), CountOr(m, REJECTED))
  }

  /** The count the stats list reports for `status`: the last entry's, or 0 when none reports it. */
  lemma StatsCounter(items: seq<StatusCount>, status: string)
    ensures (forall i: nat | i < |items| :: items[i].status != status) ==> CountOr(Reduce(map[], items), status) == 0
    ensures forall i: nat | LastReportAt(items, status, i) :: CountOr(Reduce(map[], items), status) == items[i].count
  {
    ReduceIsLastReported(map[], items, status);
    forall i: nat | LastReportAt(items, status, i)
      ensures CountOr(Reduce(map[], items), status) == items[i].count
    {
      var k: nat :| LastReportAt(items, status, k) && Reduce(map[], items)[status] == items[k].count;
    }
  }

  predicate KnownStatus(s: string) {
    s == PENDING || s == APPROVED || s == REJECTED
  }

  /** Two maps agree on the three counters' keys. */
  ghost predicate AgreeOnKnown(m1: map<string, int>, m2: map<string, int>) {
    forall s | KnownStatus(s) :: (s in m1 <==> s in m2) && (s in m1 ==> m1[s] == m2[s])
  }

  lemma {:induction false} ReduceIgnoresUnknown(acc1: map<string, int>, acc2: map<string, int>, items: seq<StatusCount>)
    requires AgreeOnKnown(acc1, acc2)
    ensures AgreeOnKnown(Reduce(acc1, items), Reduce(acc2, Filter((e: StatusCount) => KnownStatus(e.status), items)))
    decreases |items|
  {
    var known := (e: StatusCount) => KnownStatus(e.status);
    if items != [] {
      if known(items[0]) {
        assert Filter(known, items) == [items[0]] + Filter(known, items[1..]);
        assert ([items[0]] + Filter(known, items[1..]))[1..] == Filter(known, items[1..]);
        ReduceIgnoresUnknown(acc1[items[0].status := items[0].count], acc2[items[0].status := items[0].count], items[1..]);
      } else {
        ReduceIgnoresUnknown(acc1[items[0].status := items[0].count], acc2, items[1..]);
      }
    }
  }

  /** Entries for statuses other than pending, approved and rejected change no counter. */
  lemma StatsIgnoreOtherStatuses(items: seq<StatusCount>)
    ensures StatsOf(items) == StatsOf(Filter((e: StatusCount) => KnownStatus(e.status), items))
  {
    ReduceIgnoresUnknown(map[], map[], items);
  }

  // ----- removing the acted-on blog -----

  /** `currentBlogs.filter((b) => b.id !== id)`. */
  function RemoveById(blogs: seq<Blog>, id: string): (r: seq<Blog>)
    ensures forall b | b in r :: b in blogs && b.id != id
    ensures forall b | b in blogs && b.id != id :: b in r
    ensures IsSubsequence(r, blogs)
  {
    Filter((b: Blog) => b.id != id, blogs)
  }

  /** Exactly the blogs carrying the id leave: the list shrinks by their number. */
  lemma RemoveByIdCount(blogs: seq<Blog>, id: string)
    ensures |RemoveById(blogs, id)| == |blogs| - |Filter((b: Blog) => b.id == id, blogs)|
  {
    FilterComplement((b: Blog) => b.id != id, (b: Blog) => b.id == id, blogs);
  }

  /** Removing an id that is not in the list keeps the list as it is. */
  lemma RemoveAbsentId(blogs: seq<Blog>, id: string)
    requires forall i | 0 <= i < |blogs| :: blogs[i].id != id
    ensures RemoveById(blogs, id) == blogs
  {
    FilterAll((b: Blog) => b.id != id, blogs);
  }

  // ----- classifying load errors -----

  /**
   * The load error that means the session is gone: an Error carrying a
   * `code`, whose code is "unauthorized" or whose message mentions
   * "authentication". Errors without a code never qualify.
   */
  predicate SessionExpired(e: Thrown) {
    e.IsError() && e.HasCode() && (e.code == "unauthorized" || Includes(e.message, "authentication"))
  }

  /** Network errors and thrown non-errors are never taken for an expired session. */
  lemma CodelessErrorsAreNotExpiry(message: string)
    ensures !SessionExpired(PlainError(message)) && !SessionExpired(NonError)
    ensures SessionExpired(ApiError(message, "unauthorized"))
  {
  }

  // ----- the dashboard state -----

  /** One page of `getAdminBlogs`. */
  datatype AdminBlogsPage = AdminBlogsPage(data: seq<Blog>, totalPages: int, totalCount: int)

  /** The dialog's pending action: what to do and to which blog. */
  datatype ManagementAction = ManagementAction(kind: Action, blog: Blog)

  /** What a data load asks of the surrounding app. */
  datatype LoadEffect = NoEffect | RedirectToLogin | ForcedLogout(message: string)

  /** The toast after a successful dashboard action. */
  function DashboardSuccessToast(a: Action, title: string): Toast {
    match a
    case Delete => Toast("Blog Deleted", "\"" + title + "\" has been deleted.", false)
    case Approve => Toast("Blog Approved", "\"" + title + "\" has been approved.", false)
    case Reject => Toast("Blog Rejected", "\"" + title + "\" has been rejected.", false)
  }

  const ACTION_FAILED := Toast("Action Failed", "There was an error processing your request.", true)

  class DashboardPage {
    var blogs: seq<Blog>
    var loading: bool
    var error: Option<string>
    var currentPage: int
    var totalPages: int
    var totalCount: int
    var activeTab: string
    var stats: Stats
    var dialogOpen: bool
    var dialogAction: Option<ManagementAction>
    var adminNotes: string

    /** The page number stays at 1 or above. */
    predicate Valid()
      reads this
    {
      currentPage >= 1
    }

    constructor ()
      ensures Valid()
      ensures blogs == [] && loading && error == None
      ensures currentPage == 1 && totalPages == 1 && totalCount == 0
      ensures activeTab == PENDING && stats == Stats(0, 0, 0)
      ensures !dialogOpen && dialogAction == None && adminNotes == []
    {
      blogs := [];
      loading := true;
      error := None;
      currentPage := 1;
      totalPages := 1;
      totalCount := 0;
      activeTab := PENDING;
      stats := Stats(0, 0, 0);
      dialogOpen := false;
      dialogAction := None;
      adminNotes := [];
    }

    /** `handleTabChange`: show the chosen status from its first page. */
    method HandleTabChange(tab: string)
      modifies this
      ensures Valid()
      ensures activeTab == tab && currentPage == 1
      ensures blogs == old(blogs) && totalPages == old(totalPages) && totalCount == old(totalCount) && stats == old(stats)
      ensures loading == old(loading) && error == old(error)
      ensures dialogOpen == old(dialogOpen) && dialogAction == old(dialogAction) && adminNotes == old(adminNotes)
    {
      activeTab := tab;
      currentPage := 1;
    }

    /** `handlePreviousPage`: step back only from a page above the first. */
    method HandlePreviousPage()
      modifies this
      requires Valid()
      ensures Valid()
      ensures old(currentPage) > 1 ==> currentPage == old(currentPage) - 1
      ensures old(currentPage) <= 1 ==> currentPage == old(currentPage)
      ensures activeTab == old(activeTab) && totalPages == old(totalPages) && blogs == old(blogs)
      ensures totalCount == old(totalCount) && stats == old(stats) && loading == old(loading) && error == old(error)
      ensures dialogOpen == old(dialogOpen) && dialogAction == old(dialogAction) && adminNotes == old(adminNotes)
    {
      if currentPage > 1 {
        currentPage := currentPage - 1;
      }
    }

    /** `handleNextPage`: step forward only from a page below the last. */
    method HandleNextPage()
      modifies this
      requires Valid()
      ensures Valid()
      ensures old(currentPage) < totalPages ==> currentPage == old(currentPage) + 1
      ensures old(currentPage) >= totalPages ==> currentPage == old(currentPage)
      ensures old(currentPage) <= totalPages ==> currentPage <= totalPages
      ensures activeTab == old(activeTab) && totalPages == old(totalPages) && blogs == old(blogs)
      ensures totalCount == old(totalCount) && stats == old(stats) && loading == old(loading) && error == old(error)
      ensures dialogOpen == old(dialogOpen) && dialogAction == old(dialogAction) && adminNotes == old(adminNotes)
    {
      if currentPage < totalPages {
        currentPage := currentPage + 1;
      }
    }

    /** `openActionDialog(action)`: open it on the action, notes seeded from the blog's notes. */
    method OpenActionDialog(action: ManagementAction)
      modifies this
      requires Valid()
      ensures Valid()
      ensures dialogOpen && dialogAction == Some(action) && adminNotes == NotesOf(Some(action.blog))
      ensures blogs == old(blogs) && stats == old(stats) && currentPage == old(currentPage)
      ensures loading == old(loading) && error == old(error) && activeTab == old(activeTab)
      ensures totalPages == old(totalPages) && totalCount == old(totalCount)
    {
      dialogOpen := true;
      dialogAction := Some(action);
      adminNotes := NotesOf(Some(action.blog));
    }

    /** `closeActionDialog()`: closed, no action, empty notes. */
    method CloseActionDialog()
      modifies this
      requires Valid()
      ensures Valid()
      ensures !dialogOpen && dialogAction == None && adminNotes == []
      ensures blogs == old(blogs) && stats == old(stats) && currentPage == old(currentPage)
      ensures loading == old(loading) && error == old(error) && activeTab == old(activeTab)
      ensures totalPages == old(totalPages) && totalCount == old(totalCount)
    {
      dialogOpen := false;
      dialogAction := None;
      adminNotes := [];
    }

    /** `handleAdminNotesChange`. */
    method EditNotes(text: string)
      modifies this
      requires Valid()
      ensures Valid()
      ensures adminNotes == text
      ensures dialogOpen == old(dialogOpen) && dialogAction == old(dialogAction)
      ensures blogs == old(blogs) && stats == old(stats) && currentPage == old(currentPage)
      ensures loading == old(loading) && error == old(error) && activeTab == old(activeTab)
      ensures totalPages == old(totalPages) && totalCount == old(totalCount)
    {
      adminNotes := text;
    }

    /**
     * `executeAction`. With no action chosen nothing happens. Otherwise the
     * request is sent (`acted` is how it settles), then the stats are
     * fetched again (`refreshed`). Only when both succeed are the counters
     * replaced and the acted-on blog removed from the list; a failure at
     * either step shows the failure toast. The dialog always ends closed
     * and loading always ends off.
     */
    method ExecuteAction(acted: Result<(), Thrown>, refreshed: Result<seq<StatusCount>, Thrown>)
      returns (call: Option<ApiCall>, toasts: seq<Toast>)
      modifies this
      requires Valid()
      ensures Valid()
      ensures old(dialogAction).None? ==> unchanged(this) && call == None && toasts == []
      ensures old(dialogAction).Some? ==>
        var act := old(dialogAction).value;
        && call == Some(RequestFor(act.blog, act.kind, old(adminNotes)))
        && !dialogOpen && dialogAction == None && adminNotes == [] && !loading
        && error == old(error) && currentPage == old(currentPage) && activeTab == old(activeTab)
        && totalPages == old(totalPages) && totalCount == old(totalCount)
        && (acted.Failure? ==> toasts == [ACTION_FAILED] && blogs == old(blogs) && stats == old(stats))
        && (acted.Success? && refreshed.Failure? ==>
              toasts == [DashboardSuccessToast(act.kind, act.blog.title), ACTION_FAILED]
              && blogs == old(blogs) && stats == old(stats))
        && (acted.Success? && refreshed.Success? ==>
              toasts == [DashboardSuccessToast(act.kind, act.blog.title)]
              && stats == StatsOf(refreshed.value)
              && blogs == RemoveById(old(blogs), act.blog.id))
    {
      call, toasts := None, [];
      if dialogAction.None? {
        return;
      }
      loading := true;
      var act := dialogAction.value;
      call := Some(RequestFor(act.blog, act.kind, adminNotes));
      match acted {
        case Failure(_) =>
          toasts := [ACTION_FAILED];
        case Success(_) =>
          toasts := [DashboardSuccessToast(act.kind, act.blog.title)];
          match refreshed {
            case Failure(_) =>
              toasts := toasts + [ACTION_FAILED];
            case Success(items) =>
              stats := StatsOf(items);
              blogs := RemoveById(blogs, act.blog.id);
          }
      }
      CloseActionDialog();
      loading := false;
    }

    /**
     * The load effect. Nothing before the auth check has loaded; an
     * unauthenticated admin is redirected to the login page. Otherwise the
     * blogs of the current tab and page are fetched: an expired session
     * forces a logout and ends the load before the stats are asked for,
     * without setting an error; any other failure sets the blogs error.
     * Then the stats are fetched; a stats failure is reported only when no
     * error was showing before this load began (the value the effect's
     * closure saw), as a forced logout or the stats error.
     */
    method FetchData(authLoaded: bool, isAuthenticated: bool,
                     page: Result<AdminBlogsPage, Thrown>, counts: Result<seq<StatusCount>, Thrown>)
      returns (effect: LoadEffect, statsRequested: bool)
      modifies this
      requires Valid()
      ensures Valid()
      ensures currentPage == old(currentPage) && activeTab == old(activeTab)
      ensures dialogOpen == old(dialogOpen) && dialogAction == old(dialogAction) && adminNotes == old(adminNotes)
      ensures !authLoaded ==> unchanged(this) && effect == NoEffect && !statsRequested
      ensures authLoaded && !isAuthenticated ==>
        effect == RedirectToLogin && !statsRequested && !loading
        && blogs == old(blogs) && error == old(error) && stats == old(stats)
      ensures authLoaded && isAuthenticated ==> !loading
      ensures authLoaded && isAuthenticated && page.Success? ==>
        blogs == page.value.data && totalPages == page.value.totalPages && totalCount == page.value.totalCount
      ensures authLoaded && isAuthenticated && page.Failure? ==>
        blogs == old(blogs) && totalPages == old(totalPages) && totalCount == old(totalCount)
      ensures authLoaded && isAuthenticated && page.Failure? && SessionExpired(page.error) ==>
        effect == ForcedLogout(SESSION_EXPIRED) && !statsRequested && error == None && stats == old(stats)
      ensures authLoaded && isAuthenticated && !(page.Failure? && SessionExpired(page.error)) ==>
        statsRequested
        && (counts.Success? ==> stats == StatsOf(counts.value))
        && (counts.Failure? ==> stats == old(stats))
        && var blogsError := if page.Failure? then Some(BLOGS_FAILED) else None;
           var reported := counts.Failure? && old(error).None?;
           && (reported && SessionExpired(counts.error) ==> effect == ForcedLogout(SESSION_EXPIRED) && error == blogsError)
           && (reported && !SessionExpired(counts.error) ==> effect == NoEffect && error == Some(STATS_FAILED))
           && (!reported ==> effect == NoEffect && error == blogsError)
    {
      effect, statsRequested := NoEffect, false;
      if !authLoaded {
        return;
      }
      if !isAuthenticated {
        loading := false;
        effect := RedirectToLogin;
        return;
      }
      var errorSeen := error;
      loading := true;
      error := None;
      match page {
        case Success(p) =>
          blogs := p.data;
          totalPages := p.totalPages;
          totalCount := p.totalCount;
        case Failure(e) =>
          if SessionExpired(e) {
            effect := ForcedLogout(SESSION_EXPIRED);
            loading := false;
            return;
          }
          error := Some(BLOGS_FAILED);
      }
      statsRequested := true;
      match counts {
        case Success(items) =>
          stats := StatsOf(items);
        case Failure(e) =>
          if errorSeen.None? {
            if SessionExpired(e) {
              effect := ForcedLogout(SESSION_EXPIRED);
            } else {
              error := Some(STATS_FAILED);
            }
          }
      }
      loading := false;
    }
  }

  /** The dashboard's own `truncateText`: the text if it fits, else its first characters and "...". */
  function ShortText(text: string, maxLength: nat): (r: string)
    ensures |text| <= maxLength ==> r == text
    ensures |text| > maxLength ==> |r| == maxLength + 3 && StartsWith(r, text[..maxLength]) && EndsWith(r, "...")
  {
    if |text| <= maxLength then text else text[..maxLength] + "..."
  }
}
