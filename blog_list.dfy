/**
 * The public blog index page: a search box over the six mock posts.
 */
module BlogList {
  import opened JsText
  import opened Seqs

  datatype BlogCard = BlogCard(
    id: int,
    title: string,
    summary: string,
    author: string,
    date: string,
    readTime: string,
    views: int)

  /** The six posts the page lists, newest first. */
  const BLOG_DATA: seq<BlogCard> := [
    BlogCard(1, "How I Used Helia to Help My Child Overcome Social Anxiety",
      "When my daughter started showing signs of social anxiety, I wasn't sure how to help. Here's how Helia's personalized guidance made a difference...",
      "Rebecca T.", "May 15, 2023", "5 min read", 1245),
    BlogCard(2, "Screen Time Strategies That Actually Work According to Experts",
      "Managing screen time can feel like a constant battle. These research-backed approaches recommended by Helia have transformed our family's digital habits...",
      "Michael K.", "April 28, 2023", "4 min read", 982),
    BlogCard(3, "Building Resilience in Children: A Parent's Guide",
      "Resilience is one of the most important skills we can teach our children. Here's how the Helia Growth Ray helped me foster this critical trait in my son...",
      "Jamie L.", "April 10, 2023", "6 min read", 756),
    BlogCard(4, "Mindfulness for Busy Families: Simple Techniques That Work",
      "As a working parent of three, finding time for mindfulness seemed impossible. Helia's Inner Dawn specialist provided these game-changing strategies...",
      "Sarah M.", "March 22, 2023", "4 min read", 903),
    BlogCard(5, "How to Talk to Your Kids About Digital Safety Without Scaring Them",
      "Online safety conversations don't have to be frightening. Here's the balanced approach Helia Sun Shield recommended that actually worked for my family...",
      "David R.", "March 5, 2023", "5 min read", 845),
    BlogCard(6, "Building Confidence in Shy Children: Our Journey with Helia",
      "My son was always the quietest kid in class. Here's how Helia Sunbeam's confidence-building strategies helped him find his voice...",
      "Lisa P.", "February 18, 2023", "7 min read", 1102)
  ]

  /** The lower-cased term occurs in the lower-cased title or summary. */
  predicate MatchesPost(b: BlogCard, term: string) {
    Includes(ToLower(b.title), ToLower(term)) || Includes(ToLower(b.summary), ToLower(term))
  }

  /** `filteredBlogs`: the posts of BLOG_DATA that match the term, in page order. */
  function FilteredBlogs(term: string): (r: seq<BlogCard>)
    ensures |r| <= |BLOG_DATA|
    ensures IsSubsequence(r, BLOG_DATA)
  {
    Filter((b: BlogCard) => MatchesPost(b, term), BLOG_DATA)
  }

  /** A post is listed exactly when its title or summary contains the term, ignoring case. */
  lemma FilteredBlogsIff(term: string, b: BlogCard)
    ensures b in FilteredBlogs(term) <==>
      b in BLOG_DATA && (Includes(ToLower(b.title), ToLower(term)) || Includes(ToLower(b.summary), ToLower(term)))
  {
  }

  /** Neither the author nor the date is searched: changing them never changes whether a post matches. */
  lemma AuthorAndDateNotSearched(b: BlogCard, term: string, author: string, date: string)
    ensures MatchesPost(b.(author := author, date := date), term) == MatchesPost(b, term)
  {
  }

  /**
   * The empty term, which "Clear search" restores, lists all six posts in
   * their order.
   */
  lemma {:induction false} EmptyTermListsAll()
    ensures FilteredBlogs("") == BLOG_DATA
    ensures |FilteredBlogs("")| == 6
  {
    forall b | b in BLOG_DATA ensures MatchesPost(b, "") {
      IncludesEmpty(ToLower(b.title));
    }
    FilterAll((b: BlogCard) => MatchesPost(b, ""), BLOG_DATA);
  }

  /** "Clear search": the term becomes empty. */
  function ClearSearch(): (term: string)
    ensures FilteredBlogs(term) == BLOG_DATA
  {
    EmptyTermListsAll();
    ""
  }
}
