/**
 * The public blog pages of the Laravel side (app/Http/Controllers/BlogController.php):
 * the paginated index, a post page with its comment tree, and posting a comment.
 * Its `posts` and `comments` tables are Eloquent models of their own, distinct
 * from the Drizzle blog tables.  Timestamps are abstract clock readings;
 * rendering a date is a `format` parameter.
 */
module BlogController {
  import opened Wrappers
  import opened Text
  import opened Ordering

  datatype LaravelPost = LaravelPost(
    id: int, title: string, slug: string, status: string, views: int, createdAt: nat)

  /** `parentId` is `None` for a top-level comment and otherwise names the comment answered. */
  datatype LaravelComment = LaravelComment(
    id: int, postId: int, authorId: int, content: string, parentId: Option<int>,
    createdAt: nat, updatedAt: nat)

  function IsPublished(): LaravelPost -> bool {
    (p: LaravelPost) => p.status == "published"
  }

  function PostCreatedAt(p: LaravelPost): int { p.createdAt }

  function CommentCreatedAt(c: LaravelComment): int { c.createdAt }

  // ---------------------------------------------------------------- index

  /** `paginate(10)`. */
  const PerPage: nat := 10

  /** The page Laravel serves for a requested page number: anything below 1 is page 1. */
  function CurrentPage(requested: int): (p: nat)
    ensures p >= 1
    ensures requested >= 1 ==> p == requested
  {
    if requested >= 1 then requested else 1
  }

  /** `lastPage()`: enough pages of ten for every row, and never fewer than one. */
  function LastPage(total: nat): (r: nat)
    ensures r >= 1
    ensures total <= r * PerPage
    ensures total > 0 ==> (r - 1) * PerPage < total
    ensures total == 0 ==> r == 1
  {
    if total == 0 then 1 else (total + PerPage - 1) / PerPage
  }

  /** The rows of page `page` (counted from 1) of `rows`. */
  function PageOf<T>(rows: seq<T>, page: nat): (r: seq<T>)
    requires page >= 1
    ensures |r| <= PerPage
    ensures forall i :: 0 <= i < |r| ==> (page - 1) * PerPage + i < |rows| && r[i] == rows[(page - 1) * PerPage + i]
    ensures (page - 1) * PerPage < |rows| ==> |r| == if |rows| < page * PerPage then |rows| - (page - 1) * PerPage else PerPage
  {
    var lo := (page - 1) * PerPage;
    if lo >= |rows| then [] else rows[lo .. if |rows| < lo + PerPage then |rows| else lo + PerPage]
  }

  /** Every row is on exactly the page its position says, and that page is not past the last one. */
  lemma RowOnItsPage<T>(rows: seq<T>, i: nat)
    requires i < |rows|
    ensures 1 <= i / PerPage + 1 <= LastPage(|rows|)
    ensures i % PerPage < |PageOf(rows, i / PerPage + 1)|
    ensures PageOf(rows, i / PerPage + 1)[i % PerPage] == rows[i]
  {
    var p := i / PerPage + 1;
    assert (p - 1) * PerPage + i % PerPage == i;
    assert (p - 1) * PerPage <= i;
  }

  /** The last page holds at least one row when there are rows, and every page after it is empty. */
  lemma LastPageIsLast<T>(rows: seq<T>, page: nat)
    requires page >= 1
    ensures |rows| > 0 ==> PageOf(rows, LastPage(|rows|)) != []
    ensures page > LastPage(|rows|) ==> PageOf(rows, page) == []
  {
    if page > LastPage(|rows|) {
      assert (page - 1) * PerPage >= LastPage(|rows|) * PerPage;
    }
  }

  /** What `blog/main` receives: the page's posts and the pagination figures. */
  datatype IndexPage = IndexPage(
    items: seq<LaravelPost>, currentPage: nat, lastPage: nat, perPage: nat, total: nat)

  // ---------------------------------------------------------------- comment tree

  /** A loaded comment with the replies loaded alongside it. */
  datatype Node = Node(comment: LaravelComment, replies: seq<Node>)

  function CommentsOf(ns: seq<Node>): (r: seq<LaravelComment>)
    ensures |r| == |ns|
    ensures forall i :: 0 <= i < |ns| ==> r[i] == ns[i].comment
  {
    seq(|ns|, i requires 0 <= i < |ns| => ns[i].comment)
  }

  /** `$post->comments()->whereNull('parent_id')`. */
  function IsRootOf(postId: int): LaravelComment -> bool {
    (c: LaravelComment) => c.postId == postId && c.parentId.None?
  }

  /** The `replies` relation of comment `id`: the comments whose parent it is. */
  function RepliesTo(id: int): LaravelComment -> bool {
    (c: LaravelComment) => c.parentId == Some(id)
  }

  /** `n.replies` holds exactly the replies to `n`'s comment, each once, in no promised order. */
  ghost predicate RepliesLoaded(n: Node, comments: map<int, LaravelComment>) {
    multiset(CommentsOf(n.replies)) == multiset(Selected(comments, RepliesTo(n.comment.id)))
  }

  /** A reply to a reply: its own replies are not eager-loaded. */
  ghost predicate SecondLevel(n: Node, comments: map<int, LaravelComment>) {
    && RepliesLoaded(n, comments)
    && forall l :: 0 <= l < |n.replies| ==> n.replies[l].replies == []
  }

  ghost predicate FirstLevel(n: Node, comments: map<int, LaravelComment>) {
    && RepliesLoaded(n, comments)
    && forall j :: 0 <= j < |n.replies| ==> SecondLevel(n.replies[j], comments)
  }

  /**
   * The `$comments` query of `show`: the post's top-level comments, newest
   * first, each with its replies and their replies.
   */
  ghost predicate CommentTree(roots: seq<Node>, comments: map<int, LaravelComment>, postId: int) {
    && Listing(CommentsOf(roots), comments, IsRootOf(postId), CommentCreatedAt)
    && forall i :: 0 <= i < |roots| ==> FirstLevel(roots[i], comments)
  }

  /** A comment as the page receives it, with its two dates rendered. */
  datatype ShownComment = ShownComment(
    comment: LaravelComment, createdAt: string, updatedAt: string, replies: seq<ShownComment>)

  /** `$transformComment`: stamp the node, then every loaded reply below it. */
  function Transform(n: Node, format: nat -> string): (r: ShownComment)
    decreases n
  {
    ShownComment(n.comment, format(n.comment.createdAt), format(n.comment.updatedAt),
      seq(|n.replies|, i requires 0 <= i < |n.replies| => Transform(n.replies[i], format)))
  }

  function TransformAll(ns: seq<Node>, format: nat -> string): seq<ShownComment> {
    seq(|ns|, i requires 0 <= i < |ns| => Transform(ns[i], format))
  }

  /** Forgetting the rendered dates. */
  function Erase(s: ShownComment): Node
    decreases s
  {
    Node(s.comment, seq(|s.replies|, i requires 0 <= i < |s.replies| => Erase(s.replies[i])))
  }

  /** Every node of the shown tree carries both of its dates rendered. */
  ghost predicate Stamped(s: ShownComment, format: nat -> string)
    decreases s
  {
    && s.createdAt == format(s.comment.createdAt)
    && s.updatedAt == format(s.comment.updatedAt)
    && forall i :: 0 <= i < |s.replies| ==> Stamped(s.replies[i], format)
  }

  /** The transform keeps the tree as loaded: no node is dropped, added or moved. */
  lemma {:induction false} TransformKeepsTree(n: Node, format: nat -> string)
    ensures Erase(Transform(n, format)) == n
    decreases n
  {
    var t := Transform(n, format);
    forall i | 0 <= i < |n.replies|
      ensures Erase(t.replies[i]) == n.replies[i]
    {
      TransformKeepsTree(n.replies[i], format);
    }
    assert Erase(t).replies == n.replies;
  }

  /** ... and it visits every loaded node. */
  lemma {:induction false} TransformStampsAll(n: Node, format: nat -> string)
    ensures Stamped(Transform(n, format), format)
    decreases n
  {
    var t := Transform(n, format);
    forall i | 0 <= i < |t.replies|
      ensures Stamped(t.replies[i], format)
    {
      TransformStampsAll(n.replies[i], format);
    }
  }

  // ---------------------------------------------------------------- posting a comment

  /** The validation rules of `comment`: `required` and `max:1500`. */
  datatype CommentRule = Required | MaxLength

  const MaxCommentLength: nat := 1500

  /**
   * The rule a submitted `comment` field breaks, if any.  A blank string is
   * only checked against `required`, which it fails; any other string is
   * checked against the length limit, counted in characters.
   */
  function CommentError(comment: Option<string>): (r: Option<CommentRule>)
    ensures r.None? <==> comment.Some? && !IsBlank(comment.value) && |comment.value| <= MaxCommentLength
    ensures r == Some(Required) <==> comment.None? || IsBlank(comment.value)
  {
    match comment
    case None => Some(Required)
    case Some(s) =>
      if IsBlank(s) then Some(Required)
      else if |s| > MaxCommentLength then Some(MaxLength)
      else None
  }

  lemma CommentErrorExamples()
    ensures CommentError(Some("")) == Some(Required)
    ensures CommentError(Some(" \t\n")) == Some(Required)
    ensures CommentError(Some(" hi ")) == None
    ensures CommentError(Some(seq(1500, _ => 'a'))) == None
    ensures CommentError(Some(seq(1501, _ => 'a'))) == Some(MaxLength)
  {
    assert !IsBlank(" hi ") by { assert !IsPhpTrimChar(" hi "[1]); }
    assert !IsBlank(seq(1500, _ => 'a')) by { assert !IsPhpTrimChar(seq(1500, _ => 'a')[0]); }
    assert !IsBlank(seq(1501, _ => 'a')) by { assert !IsPhpTrimChar(seq(1501, _ => 'a')[0]); }
  }

  /** The row `Comment::create` inserts. */
  function CommentRow(id: int, postId: int, authorId: int, content: string, parentId: Option<int>, now: nat): LaravelComment {
    LaravelComment(id, postId, authorId, content, parentId, now, now)
  }

  /** How `comment` ends. */
  datatype CommentOutcome =
    | PostMissing                          // the bound post does not exist: 404
    | Invalid(rule: CommentRule)           // redirected back with the validation error
    | NoAuthor                             // no signed-in user: the insert fails
    | Redirected(slug: string, id: int)    // back to the post page

  /** How `show` ends. */
  datatype ShowOutcome = NotFound | Shown(post: LaravelPost, comments: seq<ShownComment>)

  /** The conditions under which `show` answers 404. */
  ghost predicate ShowRefused(posts: map<int, LaravelPost>, slug: string, boundId: int) {
    || boundId !in posts
    || posts[boundId].status != "published"
    || !exists k :: k in posts && posts[k].slug == slug && posts[k].status == "published"
  }

  class BlogSite {
    var posts: map<int, LaravelPost>
    var comments: map<int, LaravelComment>
    var nextCommentId: int

    ghost predicate Valid()
      reads this
    {
      && (forall k :: k in posts ==> posts[k].id == k)
      && (forall k :: k in comments ==> comments[k].id == k && k < nextCommentId)
    }

    constructor (initialPosts: map<int, LaravelPost>)
      requires forall k :: k in initialPosts ==> initialPosts[k].id == k
      ensures Valid()
      ensures posts == initialPosts && comments == map[] && nextCommentId == 1
    {
      posts := initialPosts;
      comments := map[];
      nextCommentId := 1;
    }

    /** `index`: the published posts, newest first, ten to a page. */
    method Index(requestedPage: int) returns (r: IndexPage)
      requires Valid()
      ensures r.currentPage == CurrentPage(requestedPage) && r.perPage == PerPage
      ensures r.lastPage == LastPage(r.total)
      ensures exists rows :: Listing(rows, posts, IsPublished(), PostCreatedAt) && r.total == |rows| && r.items == PageOf(rows, r.currentPage)
    {
      assert Injective(posts);
      var rows := SelectDesc(posts, IsPublished(), PostCreatedAt);
      var page := CurrentPage(requestedPage);
      r := IndexPage(PageOf(rows, page), page, LastPage(|rows|), PerPage, |rows|);
    }

    /** The replies to comment `id`, as leaves. */
    method LoadSecondLevel(id: int) returns (nodes: seq<Node>)
      requires Valid()
      ensures multiset(CommentsOf(nodes)) == multiset(Selected(comments, RepliesTo(id)))
      ensures forall l :: 0 <= l < |nodes| ==> nodes[l].replies == []
    {
      assert Injective(comments);
      var rows := SelectDesc(comments, RepliesTo(id), CommentCreatedAt);
      nodes := seq(|rows|, i requires 0 <= i < |rows| => Node(rows[i], []));
      assert CommentsOf(nodes) == rows;
    }

    /** The replies to comment `id`, each with its own replies. */
    method LoadFirstLevel(id: int) returns (nodes: seq<Node>)
      requires Valid()
      ensures multiset(CommentsOf(nodes)) == multiset(Selected(comments, RepliesTo(id)))
      ensures forall j :: 0 <= j < |nodes| ==> SecondLevel(nodes[j], comments)
    {
      assert Injective(comments);
      var rows := SelectDesc(comments, RepliesTo(id), CommentCreatedAt);
      nodes := [];
      var i := 0;
      while i < |rows|
        invariant 0 <= i <= |rows|
        invariant CommentsOf(nodes) == rows[..i]
        invariant forall j :: 0 <= j < |nodes| ==> SecondLevel(nodes[j], comments)
      {
        var below := LoadSecondLevel(rows[i].id);
        nodes := nodes + [Node(rows[i], below)];
        assert CommentsOf(nodes) == rows[..i + 1];
        i := i + 1;
      }
      assert rows[..i] == rows;
    }

    /** The `$comments` query of `show`. */
    method LoadComments(postId: int) returns (roots: seq<Node>)
      requires Valid()
      ensures CommentTree(roots, comments, postId)
    {
      assert Injective(comments);
      var rows := SelectDesc(comments, IsRootOf(postId), CommentCreatedAt);
      roots := [];
      var i := 0;
      while i < |rows|
        invariant 0 <= i <= |rows|
        invariant CommentsOf(roots) == rows[..i]
        invariant forall j :: 0 <= j < |roots| ==> FirstLevel(roots[j], comments)
      {
        var below := LoadFirstLevel(rows[i].id);
        roots := roots + [Node(rows[i], below)];
        assert CommentsOf(roots) == rows[..i + 1];
        i := i + 1;
      }
      assert rows[..i] == rows;
    }

    /**
     * `show`: 404 unless the bound post is published and some published post
     * has the slug; that post's view count goes up by one and it is shown
     * with its comment tree, every node's dates rendered.
     */
    method Show(slug: string, boundId: int, format: nat -> string) returns (r: ShowOutcome)
      requires Valid()
      modifies this
      ensures Valid()
      ensures comments == old(comments) && nextCommentId == old(nextCommentId)
      ensures ShowRefused(old(posts), slug, boundId) ==> r == NotFound && posts == old(posts)
      ensures !ShowRefused(old(posts), slug, boundId) ==> r.Shown?
      ensures r.Shown? ==> r.post.id in old(posts) && old(posts)[r.post.id].slug == slug
      ensures r.Shown? ==> old(posts)[r.post.id].status == "published"
      ensures r.Shown? ==> r.post == old(posts)[r.post.id].(views := old(posts)[r.post.id].views + 1)
      ensures r.Shown? ==> posts == old(posts)[r.post.id := r.post]
      ensures r.Shown? ==> exists roots :: CommentTree(roots, comments, r.post.id) && r.comments == TransformAll(roots, format)
    {
      if boundId !in posts || posts[boundId].status != "published" {
        return NotFound;
      }
      if !exists k :: k in posts && posts[k].slug == slug && posts[k].status == "published" {
        return NotFound;
      }
      var k :| k in posts && posts[k].slug == slug && posts[k].status == "published";
      var post := posts[k].(views := posts[k].views + 1);
      posts := posts[k := post];
      var roots := LoadComments(k);
      r := Shown(post, TransformAll(roots, format));
    }

    /**
     * `comment`: validate the field, then insert the comment on the bound
     * post (published or not) with the given parent, unchecked, and the
     * signed-in user as author.
     */
    method PostComment(boundId: int, caller: Option<int>, comment: Option<string>, parentId: Option<int>, now: nat)
      returns (r: CommentOutcome)
      requires Valid()
      modifies this
      ensures Valid()
      ensures posts == old(posts)
      ensures boundId !in posts ==> r == PostMissing
      ensures boundId in posts && CommentError(comment).Some? ==> r == Invalid(CommentError(comment).value)
      ensures boundId in posts && CommentError(comment).None? && caller.None? ==> r == NoAuthor
      ensures !r.Redirected? ==> comments == old(comments) && nextCommentId == old(nextCommentId)
      ensures boundId in posts && CommentError(comment).None? && caller.Some? ==> r == Redirected(posts[boundId].slug, boundId)
      ensures r.Redirected? ==> comment.Some? && caller.Some? && nextCommentId == old(nextCommentId) + 1
      ensures r.Redirected? ==> comments == old(comments)[old(nextCommentId) := CommentRow(old(nextCommentId), boundId, caller.value, comment.value, parentId, now)]
    {
      if boundId !in posts {
        return PostMissing;
      }
      var error := CommentError(comment);
      if error.Some? {
        return Invalid(error.value);
      }
      if caller.None? {
        return NoAuthor;
      }
      comments := comments[nextCommentId := CommentRow(nextCommentId, boundId, caller.value, comment.value, parentId, now)];
      nextCommentId := nextCommentId + 1;
      r := Redirected(posts[boundId].slug, boundId);
    }
  }

  /** The page shown depends on the slug alone: the bound post only has to be published. */
  lemma ShownPostFollowsSlug(posts: map<int, LaravelPost>, slug: string, boundId: int, otherBound: int)
    requires !ShowRefused(posts, slug, boundId)
    requires otherBound in posts && posts[otherBound].status == "published"
    ensures !ShowRefused(posts, slug, otherBound)
  {
  }

  /** A draft bound post is refused even when the slug names a published post. */
  lemma DraftBoundRefused(posts: map<int, LaravelPost>, slug: string, boundId: int)
    requires boundId in posts && posts[boundId].status == "draft"
    ensures ShowRefused(posts, slug, boundId)
  {
  }
}
