/**
 * The admin review page of one blog post: how its content is rendered,
 * which moderation actions it offers for each status, the status badge and
 * label, and the action dialog with the request it sends.
 */
module BlogReview {
  import opened Wrappers
  import opened JsText
  import opened Api

  // ----- rendering the content -----

  /** `[a-z]` under the `i` flag: an ASCII letter of either case. */
  predicate IsAsciiLetter(c: char) {
    'a' <= c <= 'z' || 'A' <= c <= 'Z'
  }

  /** At `i` starts a match of `/<[a-z][\s\S]*>/i`: '<', a letter, then a '>' somewhere later. */
  predicate TagStartsAt(s: string, i: nat) {
    i + 1 < |s| && s[i] == '<' && IsAsciiLetter(s[i + 1]) && '>' in s[i + 2..]
  }

  /** `/<[a-z][\s\S]*>/i.test(content)`. */
  predicate HasHtml(s: string) {
    exists i: nat | i < |s| :: TagStartsAt(s, i)
  }

  /** What `marked.parse(content)` does: return a string, return something else, or throw. */
  datatype MarkedOutcome = ParsedString(html: string) | ParsedNonString | ParseThrew

  /**
   * `renderContent`: content that looks like HTML is used as it is;
   * anything else goes through the markdown converter, falling back to the
   * raw content for a non-string result and to `<p>content</p>` when the
   * converter throws.
   */
  function RenderContent(content: string, marked: MarkedOutcome): (r: string)
    ensures HasHtml(content) ==> r == content
    ensures !HasHtml(content) && marked.ParsedString? ==> r == marked.html
    ensures !HasHtml(content) && marked.ParsedNonString? ==> r == content
    ensures !HasHtml(content) && marked.ParseThrew? ==> r == "<p>" + content + "</p>"
  {
    if HasHtml(content) then content
    else
      match marked
      case ParsedString(html) => html
      case ParsedNonString => content
      case ParseThrew => "<p>" + content + "</p>"
  }

  /**
   * The fallback of a throwing converter is itself HTML, so rendering it a
   * second time returns it unchanged whatever the converter would do.
   */
  lemma FallbackIsHtml(content: string, marked: MarkedOutcome)
    ensures HasHtml("<p>" + content + "</p>")
    ensures var once := RenderContent(content, ParseThrew);
      RenderContent(once, marked) == once
  {
    var s := "<p>" + content + "</p>";
    assert s[|s| - 1] == '>';
    assert s[2..][|s| - 3] == '>';
    assert TagStartsAt(s, 0);
    if !HasHtml(content) {
      assert RenderContent(content, ParseThrew) == s;
    }
  }

  /** Text without any '<' never counts as HTML, so it always reaches the converter. */
  lemma NoAngleIsMarkdown(content: string, marked: MarkedOutcome)
    requires '<' !in content
    ensures !HasHtml(content)
    ensures marked.ParsedString? ==> RenderContent(content, marked) == marked.html
  {
  }

  // ----- actions -----

  datatype Action = Approve | Reject | Delete

  /** The action's name as it appears in messages: "approve", "reject", "delete". */
  function ActionName(a: Action): string {
    match a
    case Approve => "approve"
    case Reject => "reject"
    case Delete => "delete"
  }

  /** The status an action asks the server to set; delete sets none, it removes the blog. */
  function TargetStatus(a: Action): (s: Option<string>)
    ensures s.None? <==> a == Delete
    ensures a == Approve ==> s == Some(APPROVED)
    ensures a == Reject ==> s == Some(REJECTED)
  {
    match a
    case Approve => Some(APPROVED)
    case Reject => Some(REJECTED)
    case Delete => None
  }

  /** The API request an action issues. */
  datatype ApiCall = UpdateBlogStatus(id: string, status: string, notes: string) | DeleteBlog(id: string)

  /**
   * The request `executeAction` sends: delete goes to `deleteBlog` and never
   * to `updateBlogStatus`; approve and reject update the status to
   * "approved" and "rejected" with the notes typed in the dialog.
   */
  function RequestFor(blog: Blog, a: Action, notes: string): (call: ApiCall)
    ensures call.id == blog.id
    ensures call.DeleteBlog? <==> a == Delete
    ensures call.UpdateBlogStatus? ==> call.status == TargetStatus(a).value && call.notes == notes
  {
    if a == Delete then DeleteBlog(blog.id)
    else UpdateBlogStatus(blog.id, if a == Approve then APPROVED else REJECTED, notes)
  }

  /** Approve and reject ask for different statuses, and neither asks for "pending". */
  lemma TargetsDistinct(a: Action, b: Action)
    requires a != Delete && b != Delete
    ensures TargetStatus(a) == TargetStatus(b) <==> a == b
    ensures TargetStatus(a).value != PENDING
  {
  }

  /**
   * The buttons of the admin-actions panel: pending offers approve and
   * reject, approved offers reject, every other status offers approve, and
   * delete is always there.
   */
  function OfferedActions(status: string): (acts: seq<Action>)
    ensures Delete in acts
  {
    if status == PENDING then [Approve, Reject, Delete]
    else if status == APPROVED then [Reject, Delete]
    else [Approve, Delete]
  }

  /**
   * For the three statuses the server uses, an approve or reject button is
   * offered exactly when it would change the status; for any status, an
   * offered approve or reject never leaves the status as it was.
   */
  lemma OfferedIffChanges(status: string, a: Action)
    requires a != Delete
    ensures a in OfferedActions(status) ==> TargetStatus(a).value != status
    ensures status in {PENDING, APPROVED, REJECTED} ==>
      (a in OfferedActions(status) <==> TargetStatus(a).value != status)
  {
  }

  // ----- badge and label -----

  const BADGE_GREEN := "bg-green-100 text-green-800"
  const BADGE_RED := "bg-red-100 text-red-800"
  const BADGE_YELLOW := "bg-yellow-100 text-yellow-800"

  /** `getStatusBadgeClass`: green for approved, red for rejected, yellow for anything else. */
  function BadgeClass(status: string): (c: string)
    ensures c == BADGE_GREEN <==> status == APPROVED
    ensures c == BADGE_RED <==> status == REJECTED
    ensures c == BADGE_YELLOW <==> status != APPROVED && status != REJECTED
  {
    if status == APPROVED then BADGE_GREEN
    else if status == REJECTED then BADGE_RED
    else BADGE_YELLOW
  }

  /**
   * The badge and the buttons agree: the badge is green exactly when
   * approve is not offered, and for the server's statuses red exactly when
   * reject is not offered. An unknown status shows yellow but offers
   * only approve.
   */
  lemma BadgeAgreesWithActions(status: string)
    ensures BadgeClass(status) == BADGE_GREEN <==> Approve !in OfferedActions(status)
    ensures status in {PENDING, APPROVED, REJECTED} ==>
      (BadgeClass(status) == BADGE_RED <==> Reject !in OfferedActions(status))
    ensures status !in {PENDING, APPROVED, REJECTED} ==>
      BadgeClass(status) == BADGE_YELLOW && Reject !in OfferedActions(status)
  {
  }

  /** `status.charAt(0).toUpperCase() + status.slice(1)`. */
  function StatusLabel(status: string): (shown: string)
    ensures |shown| == |status|
    ensures status != [] ==> shown[0] == UpperChar(status[0]) && shown[1..] == status[1..]
  {
    if status == [] then [] else [UpperChar(status[0])] + status[1..]
  }

  /** Lower-casing the label gives back the lower-cased status: only the case of the first letter changed. */
  lemma {:induction false} LabelLowersBack(status: string)
    ensures ToLower(StatusLabel(status)) == ToLower(status)
  {
    var shown := StatusLabel(status);
    forall i | 0 <= i < |status| ensures LowerChar(shown[i]) == LowerChar(status[i]) {
      if i == 0 {
        assert shown[0] == UpperChar(status[0]);
      } else {
        assert shown[i] == shown[1..][i - 1] == status[i];
      }
    }
  }

  /** The labels of the three server statuses. */
  lemma KnownLabels()
    ensures StatusLabel(PENDING) == "Pending"
    ensures StatusLabel(APPROVED) == "Approved"
    ensures StatusLabel(REJECTED) == "Rejected"
  {
    assert UpperChar('p') == 'P' && UpperChar('a') == 'A' && UpperChar('r') == 'R';
  }

  // ----- the page state -----

  /** A toast notification. */
  datatype Toast = Toast(title: string, description: string, destructive: bool)

  const DASHBOARD_PATH := "/suraj/dashboard"
  const LOAD_FAILED := "Failed to load blog post. It may not exist or has been removed."

  /** `blog?.adminNotes || ""`: the stored notes, or the empty string. */
  function NotesOf(blog: Option<Blog>): (notes: string)
    ensures blog.Some? && blog.value.adminNotes.Some? ==> notes == blog.value.adminNotes.value
    ensures blog.None? || blog.value.adminNotes.None? ==> notes == []
  {
    if blog.Some? && blog.value.adminNotes.Some? then blog.value.adminNotes.value else []
  }

  /** The toast after a successful action on a blog with the given title. */
  function SuccessToast(a: Action, title: string): Toast {
    match a
    case Delete => Toast("Blog Deleted", "Blog \"" + title + "\" has been deleted.", false)
    case Approve => Toast("Blog Approved", "Blog \"" + title + "\" has been approved.", false)
    case Reject => Toast("Blog Rejected", "Blog \"" + title + "\" has been rejected.", false)
  }

  /** The toast after a failed action. */
  function FailureToast(a: Action): Toast {
    Toast("Action Failed", "Failed to " + ActionName(a) + " the blog. Please try again.", true)
  }

  /** The state of the review page: the loaded blog and the action dialog. */
  class ReviewPage {
    var blog: Option<Blog>
    var loading: bool
    var error: Option<string>
    var dialogOpen: bool
    var dialogAction: Option<Action>
    var adminNotes: string

    constructor ()
      ensures blog == None && loading && error == None
      ensures !dialogOpen && dialogAction == None && adminNotes == []
    {
      blog := None;
      loading := true;
      error := None;
      dialogOpen := false;
      dialogAction := None;
      adminNotes := [];
    }

    /**
     * The fetch effect. Nothing happens before the auth check has loaded;
     * an unauthenticated admin only stops the loading indicator; a missing
     * or empty id returns early with loading still on; otherwise the
     * blog and its notes are taken from the reply, or the load error is set.
     */
    method FetchBlog(authLoaded: bool, isAuthenticated: bool, id: Option<string>, reply: Result<Blog, Thrown>)
      returns (requested: bool)
      modifies this
      ensures requested <==> authLoaded && isAuthenticated && HasToken(id)
      ensures !authLoaded ==> unchanged(this)
      ensures authLoaded && !isAuthenticated ==>
        !loading && blog == old(blog) && error == old(error) && adminNotes == old(adminNotes)
      ensures authLoaded && isAuthenticated && !HasToken(id) ==> unchanged(this)
      ensures requested && reply.Success? ==>
        blog == Some(reply.value) && adminNotes == NotesOf(Some(reply.value)) && error == None
      ensures requested && reply.Failure? ==>
        blog == old(blog) && adminNotes == old(adminNotes) && error == Some(LOAD_FAILED)
      ensures requested ==> !loading
      ensures dialogOpen == old(dialogOpen) && dialogAction == old(dialogAction)
    {
      requested := false;
      if !authLoaded {
        return;
      }
      if !isAuthenticated {
        loading := false;
        return;
      }
      if !HasToken(id) {
        return;
      }
      requested := true;
      loading := true;
      match reply {
        case Success(b) =>
          blog := Some(b);
          adminNotes := NotesOf(Some(b));
          error := None;
        case Failure(_) =>
          error := Some(LOAD_FAILED);
      }
      loading := false;
    }

    /** `openActionDialog(action)`: open, remember the action, seed the notes from the blog. */
    method OpenActionDialog(a: Action)
      modifies this
      ensures dialogOpen && dialogAction == Some(a) && adminNotes == NotesOf(blog)
      ensures blog == old(blog) && loading == old(loading) && error == old(error)
    {
      dialogOpen := true;
      dialogAction := Some(a);
      adminNotes := NotesOf(blog);
    }

    /** `closeActionDialog()`: close, forget the action, restore the blog's stored notes. */
    method CloseActionDialog()
      modifies this
      ensures !dialogOpen && dialogAction == None && adminNotes == NotesOf(blog)
      ensures blog == old(blog) && loading == old(loading) && error == old(error)
    {
      dialogOpen := false;
      dialogAction := None;
      adminNotes := NotesOf(blog);
    }

    /** `handleAdminNotesChange`: the notes become what was typed. */
    method EditNotes(text: string)
      modifies this
      ensures adminNotes == text
      ensures blog == old(blog) && dialogOpen == old(dialogOpen) && dialogAction == old(dialogAction)
      ensures loading == old(loading) && error == old(error)
    {
      adminNotes := text;
    }

    /**
     * `executeAction`. With no blog or no chosen action nothing happens.
     * Otherwise the request for the action is sent; `deleted` and `updated`
     * are how `deleteBlog` and `updateBlogStatus` settle, and only the one
     * the action calls is used. Whatever happens, the dialog is closed
     * afterwards, and its notes are reset from the blog as it was when the
     * action started (the render-time value), not from the updated one.
     */
    method ExecuteAction(deleted: Result<(), Thrown>, updated: Result<Blog, Thrown>)
      returns (call: Option<ApiCall>, toast: Option<Toast>, navigateTo: Option<string>)
      modifies this
      ensures old(blog).None? || old(dialogAction).None? ==>
        unchanged(this) && call == None && toast == None && navigateTo == None
      ensures old(blog).Some? && old(dialogAction).Some? ==>
        var b, a := old(blog).value, old(dialogAction).value;
        var ok := if a == Delete then deleted.Success? else updated.Success?;
        && call == Some(RequestFor(b, a, old(adminNotes)))
        && !dialogOpen && dialogAction == None && adminNotes == NotesOf(old(blog))
        && loading == old(loading) && error == old(error)
        && (ok ==> toast == Some(SuccessToast(a, b.title)))
        && (!ok ==> toast == Some(FailureToast(a)) && blog == old(blog) && navigateTo == None)
        && (ok && a == Delete ==> navigateTo == Some(DASHBOARD_PATH) && blog == old(blog))
        && (ok && a != Delete ==> navigateTo == None && blog == Some(updated.value))
    {
      call, toast, navigateTo := None, None, None;
      if blog.None? || dialogAction.None? {
        return;
      }
      var b := blog.value;
      var a := dialogAction.value;
      var renderBlog := blog;
      call := Some(RequestFor(b, a, adminNotes));
      if a == Delete {
        match deleted {
          case Success(_) =>
            toast := Some(SuccessToast(a, b.title));
            navigateTo := Some(DASHBOARD_PATH);
          case Failure(_) =>
            toast := Some(FailureToast(a));
        }
      } else {
        match updated {
          case Success(nb) =>
            blog := Some(nb);
            toast := Some(SuccessToast(a, b.title));
          case Failure(_) =>
            toast := Some(FailureToast(a));
        }
      }
      dialogOpen := false;
      dialogAction := None;
      adminNotes := NotesOf(renderBlog);
    }
  }
}
