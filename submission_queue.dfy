/**
 * The mock submission queue page: the search over title, author and
 * content, and the approve/reject buttons that take a submission off the
 * queue.
 */
module SubmissionQueue {
  import opened Wrappers
  import opened JsText
  import opened Seqs

  datatype Submission = Submission(
    id: int,
    title: string,
    content: string,
    authorName: string,
    authorEmail: string,
    submittedDate: string)

  /** The three submissions the page starts with (contents as in the page's mock data). */
  const INITIAL_BLOG_SUBMISSIONS: seq<Submission> := [
    Submission(1, "How Mindfulness Techniques Helped My Hyperactive Child",
      "After struggling for years with my son's hyperactivity, I found Helia's Inner Dawn specialist. The mindfulness techniques they suggested were game-changing...",
      "Jessica R.", "jessica.r@example.com", "2023-04-25"),
    Submission(2, "Digital Boundaries That Actually Work for Teens",
      "As the parent of two teenagers, I was constantly battling over screen time. Helia Sun Shield provided strategies that finally made sense to my kids and ended our daily arguments...",
      "Marcus T.", "marcus.t@example.com", "2023-04-23"),
    Submission(3, "Building Confidence in My Shy Preschooler",
      "My 4-year-old would hide behind me whenever we met new people. After implementing the step-by-step confidence building plan from Helia Sunbeam, she's now much more comfortable in social situations...",
      "Priya K.", "priya.k@example.com", "2023-04-21")
  ]

  /** The lower-cased term occurs in the lower-cased title, author name or content. */
  predicate Matches(s: Submission, term: string) {
    var t := ToLower(term);
    Includes(ToLower(s.title), t) || Includes(ToLower(s.authorName), t) || Includes(ToLower(s.content), t)
  }

  /** `filteredSubmissions`: the submissions that match, in queue order. */
  function FilteredSubmissions(subs: seq<Submission>, term: string): (r: seq<Submission>)
    ensures IsSubsequence(r, subs)
  {
    Filter((s: Submission) => Matches(s, term), subs)
  }

  /** A submission is listed exactly when it is queued and matches the term. */
  lemma FilteredIff(subs: seq<Submission>, term: string, s: Submission)
    ensures s in FilteredSubmissions(subs, term) <==> s in subs && Matches(s, term)
  {
  }

  /** An empty search term lists the whole queue. */
  lemma {:induction false} EmptyTermKeepsAll(subs: seq<Submission>)
    ensures FilteredSubmissions(subs, "") == subs
  {
    forall s | s in subs ensures Matches(s, "") {
      IncludesEmpty(ToLower(s.title));
    }
    FilterAll((s: Submission) => Matches(s, ""), subs);
  }

  lemma ToLowerIdempotent(s: string)
    ensures ToLower(ToLower(s)) == ToLower(s)
  {
  }

  /** The search ignores the case of the term: a term and its lower-cased form list the same submissions. */
  lemma SearchIgnoresTermCase(subs: seq<Submission>, term: string)
    ensures FilteredSubmissions(subs, ToLower(term)) == FilteredSubmissions(subs, term)
  {
    ToLowerIdempotent(term);
    FilterSamePredicate((s: Submission) => Matches(s, ToLower(term)), (s: Submission) => Matches(s, term), subs);
  }

  /** `submissions.filter((submission) => submission.id !== id)`. */
  function WithoutId(subs: seq<Submission>, id: int): (r: seq<Submission>)
    ensures forall s | s in r :: s in subs && s.id != id
    ensures forall s | s in subs && s.id != id :: s in r
    ensures IsSubsequence(r, subs)
  {
    Filter((s: Submission) => s.id != id, subs)
  }

  /** Every queued submission with another id stays, and the queue shrinks by the removed ones. */
  lemma WithoutIdCount(subs: seq<Submission>, id: int)
    ensures |WithoutId(subs, id)| == |subs| - |Filter((s: Submission) => s.id == id, subs)|
  {
    FilterComplement((s: Submission) => s.id != id, (s: Submission) => s.id == id, subs);
  }

  datatype Toast = Toast(title: string, description: string)

  const APPROVED_TOAST := Toast("Blog Approved", "The blog has been approved and published.")
  const REJECTED_TOAST := Toast("Blog Rejected", "The blog has been rejected and removed from the queue.")

  class AdminQueue {
    var submissions: seq<Submission>
    var searchTerm: string
    var currentSubmission: Option<Submission>
    var viewDialogOpen: bool

    constructor ()
      ensures submissions == INITIAL_BLOG_SUBMISSIONS && searchTerm == []
      ensures currentSubmission == None && !viewDialogOpen
    {
      submissions := INITIAL_BLOG_SUBMISSIONS;
      searchTerm := [];
      currentSubmission := None;
      viewDialogOpen := false;
    }

    /** The list the table shows. */
    function Shown(): (r: seq<Submission>)
      reads this
      ensures IsSubsequence(r, submissions)
    {
      FilteredSubmissions(submissions, searchTerm)
    }

    /** Typing in the search box. */
    method SetSearchTerm(term: string)
      modifies this
      ensures searchTerm == term && Shown() == FilteredSubmissions(submissions, term)
      ensures submissions == old(submissions) && currentSubmission == old(currentSubmission)
      ensures viewDialogOpen == old(viewDialogOpen)
    {
      searchTerm := term;
    }

    /** "Clear search": the term is emptied and the whole queue is shown again. */
    method ClearSearch()
      modifies this
      ensures searchTerm == [] && Shown() == submissions
      ensures submissions == old(submissions) && currentSubmission == old(currentSubmission)
      ensures viewDialogOpen == old(viewDialogOpen)
    {
      searchTerm := [];
      EmptyTermKeepsAll(submissions);
    }

    /** `handleApprove(id)`: the submissions with that id leave the queue. */
    method HandleApprove(id: int) returns (toast: Toast)
      modifies this
      ensures submissions == WithoutId(old(submissions), id) && toast == APPROVED_TOAST
      ensures searchTerm == old(searchTerm) && currentSubmission == old(currentSubmission)
      ensures viewDialogOpen == old(viewDialogOpen)
    {
      submissions := WithoutId(submissions, id);
      toast := APPROVED_TOAST;
    }

    /** `handleReject(id)`: the same change to the queue as approving; only the toast differs. */
    method HandleReject(id: int) returns (toast: Toast)
      modifies this
      ensures submissions == WithoutId(old(submissions), id) && toast == REJECTED_TOAST
      ensures searchTerm == old(searchTerm) && currentSubmission == old(currentSubmission)
      ensures viewDialogOpen == old(viewDialogOpen)
    {
      submissions := WithoutId(submissions, id);
      toast := REJECTED_TOAST;
    }

    /** `handleView(submission)`: open the review dialog on it. */
    method HandleView(s: Submission)
      modifies this
      ensures currentSubmission == Some(s) && viewDialogOpen
      ensures submissions == old(submissions) && searchTerm == old(searchTerm)
    {
      currentSubmission := Some(s);
      viewDialogOpen := true;
    }

    /** The dialog's Cancel button. */
    method CancelView()
      modifies this
      ensures !viewDialogOpen
      ensures submissions == old(submissions) && searchTerm == old(searchTerm)
      ensures currentSubmission == old(currentSubmission)
    {
      viewDialogOpen := false;
    }

    /** The dialog's Approve button (shown only with a submission open): approve it and close. */
    method DialogApprove() returns (toast: Toast)
      requires currentSubmission.Some?
      modifies this
      ensures submissions == WithoutId(old(submissions), old(currentSubmission).value.id)
      ensures toast == APPROVED_TOAST && !viewDialogOpen
      ensures currentSubmission == old(currentSubmission) && searchTerm == old(searchTerm)
    {
      toast := HandleApprove(currentSubmission.value.id);
      viewDialogOpen := false;
    }

    /** The dialog's Reject button (shown only with a submission open): reject it and close. */
    method DialogReject() returns (toast: Toast)
      requires currentSubmission.Some?
      modifies this
      ensures submissions == WithoutId(old(submissions), old(currentSubmission).value.id)
      ensures toast == REJECTED_TOAST && !viewDialogOpen
      ensures currentSubmission == old(currentSubmission) && searchTerm == old(searchTerm)
    {
      toast := HandleReject(currentSubmission.value.id);
      viewDialogOpen := false;
    }
  }
}
