/**
 * The blog tables (core/db/schemas/social/blog.ts): rows, the status enum,
 * insert defaults, and the key, uniqueness and reference constraints the
 * store enforces.  Timestamps are abstract clock readings.
 */
module BlogSchema {
  import opened Wrappers

  datatype PostStatus = Draft | Published | Archived | UnderReview

  function PostStatusName(s: PostStatus): string {
    match s
    case Draft => "draft"
    case Published => "published"
    case Archived => "archived"
    case UnderReview => "under_review"
  }

  /** The enum's labels, in declaration order. */
  const PostStatusLabels: seq<string> := ["draft", "published", "archived", "under_review"]

  /** A label names a status iff it is one of the four enum labels, and names exactly one. */
  lemma PostStatusLabelsExact()
    ensures forall s :: PostStatusName(s) in PostStatusLabels
    ensures forall l :: l in PostStatusLabels ==> exists s :: PostStatusName(s) == l
    ensures forall s, t :: PostStatusName(s) == PostStatusName(t) ==> s == t
  {
    assert PostStatusName(Draft) == PostStatusLabels[0];
    assert PostStatusName(Published) == PostStatusLabels[1];
    assert PostStatusName(Archived) == PostStatusLabels[2];
    assert PostStatusName(UnderReview) == PostStatusLabels[3];
  }

  datatype Category = Category(
    id: int, name: string, slug: string, description: Option<string>,
    createdAt: nat, updatedAt: nat)

  datatype Post = Post(
    id: int, authorId: string, categoryId: Option<int>,
    title: string, slug: string, content: string,
    excerpt: Option<string>, coverImageUrl: Option<string>,
    status: PostStatus, publishedAt: Option<nat>,
    createdAt: nat, updatedAt: nat)

  datatype Tag = Tag(id: int, name: string, slug: string, createdAt: nat)

  /** A row of blog_post_tags; the pair is the table's primary key. */
  datatype PostTag = PostTag(postId: int, tagId: int)

  datatype Comment = Comment(
    id: int, postId: int, userId: string, parentId: Option<int>,
    content: string, isApproved: bool, createdAt: nat, updatedAt: nat)

  datatype View = View(
    id: int, postId: int, ipAddress: Option<string>, userAgent: Option<string>,
    userId: Option<string>, viewedAt: nat)

  /** The insertable columns of a post that the caller chooses (`NewBlogPost`). */
  datatype NewPost = NewPost(
    authorId: Option<string>, categoryId: Option<int>,
    title: string, slug: string, content: string,
    excerpt: Option<string>, coverImageUrl: Option<string>,
    status: Option<PostStatus>, publishedAt: Option<nat>)

  /** The row an insert of `input` produces: serial id, defaults, and the given author. */
  function PostRow(id: int, authorId: string, input: NewPost, now: nat): (p: Post)
    ensures p.id == id && p.authorId == authorId
    ensures p.status == if input.status.Some? then input.status.value else Draft
    ensures p.slug == input.slug && p.categoryId == input.categoryId
    ensures p.createdAt == now && p.updatedAt == now
  {
    Post(id, authorId, input.categoryId, input.title, input.slug, input.content,
         input.excerpt, input.coverImageUrl, input.status.GetOr(Draft), input.publishedAt,
         now, now)
  }

  /** The row a comment insert produces: `isApproved` takes its default, true. */
  function CommentRow(id: int, postId: int, userId: string, content: string, parentId: Option<int>, now: nat): (c: Comment)
    ensures c.isApproved
    ensures c.id == id && c.postId == postId && c.userId == userId && c.parentId == parentId
  {
    Comment(id, postId, userId, parentId, content, true, now, now)
  }

  // Constraints of the tables.  `next` is the serial sequence's next value.

  ghost predicate CategoriesOk(categories: map<int, Category>, next: int) {
    && (forall k :: k in categories ==> categories[k].id == k && k < next)
    && (forall a, b :: a in categories && b in categories && categories[a].slug == categories[b].slug ==> a == b)
  }

  ghost predicate PostsOk(posts: map<int, Post>, next: int, categories: map<int, Category>) {
    && (forall k :: k in posts ==> posts[k].id == k && k < next)
    && (forall a, b :: a in posts && b in posts && posts[a].slug == posts[b].slug ==> a == b)
    && (forall k :: k in posts && posts[k].categoryId.Some? ==> posts[k].categoryId.value in categories)
  }

  ghost predicate TagsOk(tags: map<int, Tag>, next: int) {
    && (forall k :: k in tags ==> tags[k].id == k && k < next)
    && (forall a, b :: a in tags && b in tags && tags[a].name == tags[b].name ==> a == b)
    && (forall a, b :: a in tags && b in tags && tags[a].slug == tags[b].slug ==> a == b)
  }

  ghost predicate PostTagsOk(links: set<PostTag>, posts: map<int, Post>, tags: map<int, Tag>) {
    forall l :: l in links ==> l.postId in posts && l.tagId in tags
  }

  /** `parentId` carries no reference: only the post reference is a constraint. */
  ghost predicate CommentsOk(comments: map<int, Comment>, next: int, posts: map<int, Post>) {
    forall k :: k in comments ==> comments[k].id == k && k < next && comments[k].postId in posts
  }

  ghost predicate ViewsOk(views: map<int, View>, next: int, posts: map<int, Post>) {
    forall k :: k in views ==> views[k].id == k && k < next && views[k].postId in posts
  }

  /** Whether some tag already has this name. */
  ghost predicate NameTaken(tags: map<int, Tag>, name: string) {
    exists k :: k in tags && tags[k].name == name
  }

  /** Deleting a category keeps its posts and clears their `categoryId` (ON DELETE SET NULL). */
  function DetachCategory(posts: map<int, Post>, categoryId: int): (r: map<int, Post>)
    ensures r.Keys == posts.Keys
    ensures forall k :: k in r ==> r[k] == if posts[k].categoryId == Some(categoryId) then posts[k].(categoryId := None) else posts[k]
  {
    map k | k in posts :: if posts[k].categoryId == Some(categoryId) then posts[k].(categoryId := None) else posts[k]
  }

  /** After the detach no post references the deleted category, and the rest of the post constraints still hold. */
  lemma DetachCategoryKeepsPostsOk(posts: map<int, Post>, next: int, categories: map<int, Category>, categoryId: int)
    requires PostsOk(posts, next, categories)
    ensures PostsOk(DetachCategory(posts, categoryId), next, categories - {categoryId})
  {
  }

  // ON DELETE CASCADE from blog_posts (post_tags.post_id, comments.post_id, views.post_id).

  function LinksWithoutPost(links: set<PostTag>, postId: int): (r: set<PostTag>)
    ensures forall l :: l in r <==> l in links && l.postId != postId
  {
    set l | l in links && l.postId != postId
  }

  function CommentsWithoutPost(comments: map<int, Comment>, postId: int): (r: map<int, Comment>)
    ensures forall k :: k in r <==> k in comments && comments[k].postId != postId
    ensures forall k :: k in r ==> r[k] == comments[k]
  {
    map k | k in comments && comments[k].postId != postId :: comments[k]
  }

  function ViewsWithoutPost(views: map<int, View>, postId: int): (r: map<int, View>)
    ensures forall k :: k in r <==> k in views && views[k].postId != postId
    ensures forall k :: k in r ==> r[k] == views[k]
  {
    map k | k in views && views[k].postId != postId :: views[k]
  }

  /** After the cascade nothing refers to the deleted post, so every reference constraint still holds. */
  lemma DeletePostCascadeOk(
    posts: map<int, Post>, tags: map<int, Tag>, links: set<PostTag>,
    comments: map<int, Comment>, nextComment: int, views: map<int, View>, nextView: int, postId: int)
    requires PostTagsOk(links, posts, tags)
    requires CommentsOk(comments, nextComment, posts)
    requires ViewsOk(views, nextView, posts)
    ensures PostTagsOk(LinksWithoutPost(links, postId), posts - {postId}, tags)
    ensures CommentsOk(CommentsWithoutPost(comments, postId), nextComment, posts - {postId})
    ensures ViewsOk(ViewsWithoutPost(views, postId), nextView, posts - {postId})
  {
  }

  /** Removing a post keeps the post constraints. */
  lemma DeletePostKeepsPostsOk(posts: map<int, Post>, next: int, categories: map<int, Category>, postId: int)
    requires PostsOk(posts, next, categories)
    ensures PostsOk(posts - {postId}, next, categories)
  {
  }
}
