/**
 * The public page of one post: looking the post up by the route's id and
 * choosing the related posts shown under it.
 */
module BlogPostPage {
  import opened Wrappers
  import opened Seqs

  /** A post of BLOG_POSTS; the article bodies are not part of this model. */
  datatype Post = Post(id: int, title: string, author: string, date: string, readTime: string, views: int)

  const POST_1 := Post(1, "How I Used Helia to Help My Child Overcome Social Anxiety", "Rebecca T.", "May 15, 2023", "5 min read", 1245)
  const POST_2 := Post(2, "Screen Time Strategies That Actually Work According to Experts", "Michael K.", "April 28, 2023", "4 min read", 982)

  /** BLOG_POSTS, keyed by the route id. */
  const BLOG_POSTS: map<string, Post> := map["1" := POST_1, "2" := POST_2]

  /** `Object.values(BLOG_POSTS)`: integer-like keys come out in ascending order. */
  const POST_VALUES: seq<Post> := [POST_1, POST_2]

  /** `BLOG_POSTS[id]` for the route parameter, which may be missing. */
  function LookupPost(id: Option<string>): (post: Option<Post>)
    ensures post.Some? <==> id == Some("1") || id == Some("2")
    ensures id == Some("1") ==> post == Some(POST_1)
    ensures id == Some("2") ==> post == Some(POST_2)
  {
    if id.Some? && id.value in BLOG_POSTS then Some(BLOG_POSTS[id.value]) else None
  }

  /** Every post in the table is reachable through its own id. */
  lemma LookupByOwnId(key: string)
    requires key in BLOG_POSTS
    ensures LookupPost(Some(key)) == Some(BLOG_POSTS[key])
    ensures key == "1" || key == "2"
  {
  }

  /** `Object.values(BLOG_POSTS).filter((p) => p.id !== post.id).slice(0, 2)`. */
  function RelatedPosts(post: Post): (related: seq<Post>)
    ensures |related| <= 2
    ensures forall p | p in related :: p.id != post.id && p in POST_VALUES
  {
    Take(Filter((p: Post) => p.id != post.id, POST_VALUES), 2)
  }

  /** The related posts keep the table's order: they are a subsequence of its values. */
  lemma RelatedInTableOrder(post: Post)
    ensures IsSubsequence(RelatedPosts(post), POST_VALUES)
  {
    var others := Filter((p: Post) => p.id != post.id, POST_VALUES);
    TakeIsSubsequence(others, 2);
    SubsequenceTrans(RelatedPosts(post), others, POST_VALUES);
  }

  /** On either post's page the other post is the one related post. */
  lemma RelatedOfEachPost()
    ensures RelatedPosts(POST_1) == [POST_2]
    ensures RelatedPosts(POST_2) == [POST_1]
  {
    assert POST_VALUES[1..][1..] == [];
    assert POST_VALUES[1..] == [POST_2];
  }
}
