/**
 * The blog server actions (app/actions/social/blog.ts) over an in-memory
 * copy of the blog tables.
 */
module BlogActions {
  import opened Wrappers
  import opened Text
  import opened Response
  import opened Permissions
  import opened BlogSchema
  import opened Ordering
  import opened Slugs

  /** The `status` argument of `getBlogPosts` (its default is "published"). */
  datatype PostFilter = FilterPublished | FilterDraft | FilterAll

  /** The default of getBlogPosts' `status` parameter. */
  const DefaultPostFilter: PostFilter := FilterPublished

  /** `status === "all" ? undefined : eq(blogPosts.status, status)`. */
  function PostFilterKeep(f: PostFilter): Post -> bool {
    match f
    case FilterAll => (p: Post) => true
    case FilterPublished => (p: Post) => p.status == Published
    case FilterDraft => (p: Post) => p.status == Draft
  }

  function PostCreatedAt(p: Post): int { p.createdAt }

  function CommentOnPost(postId: int): Comment -> bool {
    (c: Comment) => c.postId == postId
  }

  function CommentCreatedAt(c: Comment): int { c.createdAt }

  const PostNotFound: string := "Post not found"

  /** No post other than `id` has this slug. */
  predicate SlugFreeFor(posts: map<int, Post>, id: int, slug: string) {
    forall k :: k in posts && k != id ==> posts[k].slug != slug
  }

  /** A category reference the store accepts: none, or an existing row. */
  predicate CategoryOk(categories: map<int, Category>, categoryId: Option<int>) {
    categoryId.Some? ==> categoryId.value in categories
  }

  /** No tag has this slug. */
  predicate TagSlugFree(tags: map<int, Tag>, slug: string) {
    forall k :: k in tags ==> tags[k].slug != slug
  }

  /** No link starts at post `postId`. */
  predicate NoLinksOf(links: set<PostTag>, postId: int) {
    forall l :: l in links ==> l.postId != postId
  }

  /**
   * The tag names the tag loop of createBlogPost gets through against the
   * tags `tags`: no name twice, and every name not yet a tag has a slug that
   * is neither an existing tag's nor another new name's.
   */
  ghost predicate TagsAddable(tags: map<int, Tag>, names: seq<string>) {
    && (forall i, j :: 0 <= i < j < |names| ==> names[i] != names[j])
    && (forall i :: 0 <= i < |names| && !NameTaken(tags, names[i]) ==> TagSlugFree(tags, TagSlug(names[i])))
    && (forall i, j ::
          0 <= i < |names| && 0 <= j < |names| && i != j && !NameTaken(tags, names[i]) && !NameTaken(tags, names[j])
          ==> TagSlug(names[i]) != TagSlug(names[j]))
  }

  /** What createBlogPost checks before its insert: a free slug and a category that exists. */
  predicate PostInsertable(posts: map<int, Post>, categories: map<int, Category>, input: NewPost) {
    (forall k :: k in posts ==> posts[k].slug != input.slug) && CategoryOk(categories, input.categoryId)
  }

  /** The row incrementView inserts: no address or agent, the caller's id if any. */
  function ViewRow(id: int, postId: int, caller: Option<User>, now: nat): View {
    View(id, postId, None, None, if caller.Some? then Some(caller.value.id) else None, now)
  }

  /** The columns of a post an update may set (`Partial<NewBlogPost>`); `None` leaves a column alone. */
  datatype PostPatch = PostPatch(
    authorId: Option<string>, categoryId: Option<Option<int>>,
    title: Option<string>, slug: Option<string>, content: Option<string>,
    excerpt: Option<Option<string>>, coverImageUrl: Option<Option<string>>,
    status: Option<PostStatus>, publishedAt: Option<Option<nat>>, createdAt: Option<nat>)

  /** `set({ ...data, updatedAt: new Date() })` applied to one row. */
  function PatchPost(p: Post, d: PostPatch, now: nat): Post {
    p.(authorId := d.authorId.GetOr(p.authorId),
       categoryId := d.categoryId.GetOr(p.categoryId),
       title := d.title.GetOr(p.title),
       slug := d.slug.GetOr(p.slug),
       content := d.content.GetOr(p.content),
       excerpt := d.excerpt.GetOr(p.excerpt),
       coverImageUrl := d.coverImageUrl.GetOr(p.coverImageUrl),
       status := d.status.GetOr(p.status),
       publishedAt := d.publishedAt.GetOr(p.publishedAt),
       createdAt := d.createdAt.GetOr(p.createdAt),
       updatedAt := now)
  }

  class BlogStore {
    var categories: map<int, Category>
    var posts: map<int, Post>
    var tags: map<int, Tag>
    var postTags: set<PostTag>
    var comments: map<int, Comment>
    var views: map<int, View>
    var nextCategoryId: int
    var nextPostId: int
    var nextTagId: int
    var nextCommentId: int
    var nextViewId: int
    /** The paths handed to `revalidatePath`, in order. */
    ghost var revalidated: seq<string>

    ghost predicate Valid()
      reads this
    {
      && CategoriesOk(categories, nextCategoryId)
      && PostsOk(posts, nextPostId, categories)
      && TagsOk(tags, nextTagId)
      && PostTagsOk(postTags, posts, tags)
      && CommentsOk(comments, nextCommentId, posts)
      && ViewsOk(views, nextViewId, posts)
    }

    /** Nothing in the tables, nothing in the log. */
    ghost predicate Unchanged(
      categories0: map<int, Category>, posts0: map<int, Post>, tags0: map<int, Tag>,
      postTags0: set<PostTag>, comments0: map<int, Comment>, views0: map<int, View>,
      log0: seq<string>)
      reads this
    {
      && categories == categories0 && posts == posts0 && tags == tags0
      && postTags == postTags0 && comments == comments0 && views == views0
      && revalidated == log0
    }

    constructor ()
      ensures Valid()
      ensures categories == map[] && posts == map[] && tags == map[]
      ensures postTags == {} && comments == map[] && views == map[] && revalidated == []
    {
      categories, posts, tags, postTags, comments, views := map[], map[], map[], {}, map[], map[];
      nextCategoryId, nextPostId, nextTagId, nextCommentId, nextViewId := 1, 1, 1, 1, 1;
      revalidated := [];
    }

    /**
     * The `select … where name = tagName`, then the insert when nothing was
     * found, of one pass of the tag loop.
     */
    method FindOrCreateTag(name: string, now: nat) returns (r: ServerResponse<int>)
      requires Valid()
      modifies this
      ensures Valid()
      ensures NameTaken(old(tags), name) ==> tags == old(tags) && r.Success? && r.data in tags && tags[r.data].name == name
      ensures !NameTaken(old(tags), name) && r.Success? ==>
        r.data !in old(tags) && tags == old(tags)[r.data := Tag(r.data, name, TagSlug(name), now)]
      ensures !NameTaken(old(tags), name) ==> (r.Success? <==> TagSlugFree(old(tags), TagSlug(name)))
      ensures forall k :: k in old(tags) ==> k in tags && tags[k] == old(tags)[k]
      ensures forall k :: k in tags && k !in old(tags) ==>
        tags[k] == Tag(k, name, TagSlug(name), now) && !NameTaken(old(tags), name)
      ensures r.Failure? ==> r == Failure(DuplicateKey) && tags == old(tags)
      ensures categories == old(categories) && posts == old(posts) && postTags == old(postTags)
      ensures comments == old(comments) && views == old(views) && revalidated == old(revalidated)
      ensures nextPostId == old(nextPostId)
    {
      if exists k :: k in tags && tags[k].name == name {
        var k :| k in tags && tags[k].name == name;
        return Success(k);
      }
      var slug := TagSlug(name);
      if exists k :: k in tags && tags[k].slug == slug {
        return Failure(DuplicateKey);
      }
      var id := nextTagId;
      tags := tags[id := Tag(id, name, slug, now)];
      nextTagId := nextTagId + 1;
      r := Success(id);
    }

    /** The insert into blog_post_tags of one link between rows that exist. */
    method InsertLink(link: PostTag) returns (r: ServerResponse<()>)
      requires Valid() && link.postId in posts && link.tagId in tags
      modifies this
      ensures Valid()
      ensures link in old(postTags) ==> r == Failure(DuplicateKey) && postTags == old(postTags)
      ensures link !in old(postTags) ==> r == Success(()) && postTags == old(postTags) + {link}
      ensures categories == old(categories) && posts == old(posts) && tags == old(tags)
      ensures comments == old(comments) && views == old(views) && revalidated == old(revalidated)
      ensures nextPostId == old(nextPostId)
    {
      if link in postTags {
        return Failure(DuplicateKey);
      }
      postTags := postTags + {link};
      r := Success(());
    }

    /** The insert of a post row whose slug is free and whose category exists. */
    method InsertPost(authorId: string, input: NewPost, now: nat) returns (post: Post)
      requires Valid()
      requires forall k :: k in posts ==> posts[k].slug != input.slug
      requires input.categoryId.Some? ==> input.categoryId.value in categories
      modifies this
      ensures Valid()
      ensures post == PostRow(post.id, authorId, input, now) && post.id !in old(posts)
      ensures posts == old(posts)[post.id := post]
      ensures categories == old(categories) && tags == old(tags) && postTags == old(postTags)
      ensures comments == old(comments) && views == old(views) && revalidated == old(revalidated)
    {
      post := PostRow(nextPostId, authorId, input, now);
      posts := posts[post.id := post];
      nextPostId := nextPostId + 1;
    }

    /**
     * One pass of the tag loop of createBlogPost: find or create the tag
     * named `name`, then link it to the post.  `names` are the names of the
     * earlier passes, which started from the tags `tags0` and links `links0`.
     */
    method LinkTag(postId: int, name: string, now: nat,
                   ghost tags0: map<int, Tag>, ghost links0: set<PostTag>, ghost names: seq<string>)
      returns (r: ServerResponse<()>)
      requires Valid() && postId in posts
      requires TagLoopState(tags0, links0, tags, postTags, postId, names, now)
      modifies this
      ensures Valid()
      ensures r.Failure? ==> r == Failure(DuplicateKey)
      ensures r.Success? ==> TagLoopState(tags0, links0, tags, postTags, postId, names + [name], now)
      ensures TagsGrown(tags0, tags, names + [name], now)
      ensures NoLinksOf(links0, postId) && TagsAddable(tags0, names + [name]) ==> r.Success?
      ensures old(postTags) <= postTags
      ensures r.Failure? ==> postTags == old(postTags)
      ensures categories == old(categories) && posts == old(posts) && comments == old(comments)
      ensures views == old(views) && revalidated == old(revalidated) && nextPostId == old(nextPostId)
    {
      ghost var tagsBefore := tags;
      ghost var all := names + [name];
      assert all[..|names|] == names && all[|names|] == name;
      if NoLinksOf(links0, postId) && TagsAddable(tags0, all) {
        AddableNext(tags0, tags, all, |names|);
      }
      var found := FindOrCreateTag(name, now);
      if found.Failure? {
        TagsGrownMore(tags0, tagsBefore, tags, names, name, now);
        return Failure(found.message);
      }
      TagsGrownMore(tags0, tagsBefore, tags, names, name, now);
      TagLinksGrow(postId, tagsBefore, tags, names);
      TagLinkOfName(postId, tags, names, found.data);
      assert NoLinksOf(links0, postId) ==> PostTag(postId, found.data) !in links0;
      ghost var linksBefore := postTags;
      var linked := InsertLink(PostTag(postId, found.data));
      if linked.Failure? {
        return Failure(linked.message);
      }
      TagLoopStep(tags0, links0, tagsBefore, linksBefore, tags, nextTagId, postTags, postId, names, name, found.data, now);
      r := Success(());
    }

    /**
     * The tag loop of createBlogPost.  A failure stops the loop and keeps
     * what the earlier passes wrote.  For a post without links the loop gets
     * through exactly when the names are addable.
     */
    method LinkTags(postId: int, tagNames: seq<string>, now: nat) returns (r: ServerResponse<()>)
      requires Valid() && postId in posts
      modifies this
      ensures Valid()
      ensures r.Failure? ==> r == Failure(DuplicateKey)
      ensures r.Success? ==> forall n :: n in tagNames ==> NameTaken(tags, n)
      ensures r.Success? ==> postTags == old(postTags) + TagLinks(postId, tags, tagNames)
      ensures TagsGrown(old(tags), tags, tagNames, now)
      ensures r.Success? ==> TagsAddable(old(tags), tagNames)
      ensures NoLinksOf(old(postTags), postId) && TagsAddable(old(tags), tagNames) ==> r.Success?
      ensures old(postTags) <= postTags <= old(postTags) + TagLinks(postId, tags, tagNames)
      ensures tagNames == [] ==> tags == old(tags) && postTags == old(postTags)
      ensures categories == old(categories) && posts == old(posts) && comments == old(comments)
      ensures views == old(views) && revalidated == old(revalidated) && nextPostId == old(nextPostId)
    {
      var i := 0;
      TagLoopStart(old(tags), old(postTags), postId, now);
      while i < |tagNames|
        invariant 0 <= i <= |tagNames|
        invariant Valid() && postId in posts
        invariant categories == old(categories) && posts == old(posts) && comments == old(comments)
        invariant views == old(views) && revalidated == old(revalidated) && nextPostId == old(nextPostId)
        invariant old(postTags) <= postTags
        invariant TagLoopState(old(tags), old(postTags), tags, postTags, postId, tagNames[..i], now)
      {
        assert tagNames[..i + 1] == tagNames[..i] + [tagNames[i]];
        AddablePrefix(old(tags), tagNames, i + 1);
        var linked := LinkTag(postId, tagNames[i], now, old(tags), old(postTags), tagNames[..i]);
        if linked.Failure? {
          TagsGrownPrefix(old(tags), tags, tagNames, i + 1, now);
          assert forall t :: t in TagLinks(postId, tags, tagNames[..i]) ==> t in TagLinks(postId, tags, tagNames);
          return linked;
        }
        i := i + 1;
      }
      assert tagNames[..i] == tagNames;
      TagLoopDone(old(tags), old(postTags), tags, postTags, postId, tagNames, now);
      r := Success(());
    }

    /**
     * createBlogPost: insert the post with the caller as author, then link its
     * tags.  The post goes in exactly when the caller is signed in, the slug
     * is free and the category exists, and then exactly once.  The writes are
     * not one transaction: a failing tag or link insert leaves the post and
     * the earlier tags and links in place.  The call succeeds exactly when
     * the post goes in and the tag names are addable.
     */
    method CreateBlogPost(caller: Option<User>, input: NewPost, tagNames: seq<string>, now: nat)
      returns (r: ServerResponse<Post>)
      requires Valid()
      modifies this
      ensures Valid()
      ensures caller.None? ==> r == Failure(Unauthorized)
      ensures r.Failure? ==> r.message in {Unauthorized, DuplicateKey, ForeignKeyViolation}
      ensures r.Failure? && posts == old(posts) ==>
        Unchanged(old(categories), old(posts), old(tags), old(postTags), old(comments), old(views), old(revalidated))
      ensures caller.Some? && (exists k :: k in old(posts) && old(posts)[k].slug == input.slug) ==>
        r == Failure(DuplicateKey) && posts == old(posts)
      ensures caller.Some? && PostInsertable(old(posts), old(categories), input) ==>
        exists k :: k !in old(posts) && posts == old(posts)[k := PostRow(k, caller.value.id, input, now)]
      ensures !(caller.Some? && PostInsertable(old(posts), old(categories), input)) ==>
        r.Failure? && posts == old(posts)
      ensures caller.Some? && PostInsertable(old(posts), old(categories), input) ==>
        (r.Success? <==> TagsAddable(old(tags), tagNames))
      ensures r.Success? ==>
        && caller.Some? && r.data.authorId == caller.value.id
        && r.data == PostRow(r.data.id, caller.value.id, input, now)
        && r.data.id !in old(posts) && posts == old(posts)[r.data.id := r.data]
      ensures r.Success? ==> forall n :: n in tagNames ==> NameTaken(tags, n)
      ensures r.Success? ==> postTags == old(postTags) + TagLinks(r.data.id, tags, tagNames)
      ensures r.Success? ==> revalidated == old(revalidated) + ["/blog"]
      ensures r.Failure? ==> revalidated == old(revalidated)
      ensures TagsGrown(old(tags), tags, tagNames, now)
      ensures old(postTags) <= postTags
      ensures forall l :: l in postTags && l !in old(postTags) ==>
        l.postId in posts && l.postId !in old(posts) && l.tagId in tags && tags[l.tagId].name in tagNames
      ensures tagNames == [] ==> tags == old(tags) && postTags == old(postTags)
      ensures categories == old(categories) && comments == old(comments) && views == old(views)
    {
      if caller.None? {
        return Failure(Unauthorized);
      }
      if exists k :: k in posts && posts[k].slug == input.slug {
        return Failure(DuplicateKey);
      }
      if input.categoryId.Some? && input.categoryId.value !in categories {
        return Failure(ForeignKeyViolation);
      }
      assert forall l :: l in postTags ==> l.postId in posts;
      var post := InsertPost(caller.value.id, input, now);
      assert NoLinksOf(postTags, post.id);
      var linked := LinkTags(post.id, tagNames, now);
      if linked.Failure? {
        return Failure(linked.message);
      }
      revalidated := revalidated + ["/blog"];
      r := Success(post);
    }

    /**
     * getBlogPosts: the posts the status filter admits, newest first.  An
     * omitted filter defaults to the published posts.
     */
    method GetBlogPosts(filter: Option<PostFilter>) returns (r: ServerResponse<seq<Post>>)
      requires Valid()
      ensures r.Success? && Listing(r.data, posts, PostFilterKeep(filter.GetOr(DefaultPostFilter)), PostCreatedAt)
      ensures filter.None? ==> forall p :: p in r.data <==> p in posts.Values && p.status == Published
    {
      PostsInjective(posts, nextPostId, categories);
      var rows := SelectDesc(posts, PostFilterKeep(filter.GetOr(DefaultPostFilter)), PostCreatedAt);
      ListingMembers(rows, posts, PostFilterKeep(filter.GetOr(DefaultPostFilter)), PostCreatedAt);
      r := Success(rows);
    }

    /** getBlogPostBySlug: the post with that slug, or "Post not found". */
    method GetBlogPostBySlug(slug: string) returns (r: ServerResponse<Post>)
      requires Valid()
      ensures r.Success? <==> exists k :: k in posts && posts[k].slug == slug
      ensures r.Success? ==> r.data.id in posts && posts[r.data.id] == r.data && r.data.slug == slug
      ensures r.Failure? ==> r.message == PostNotFound
    {
      if exists k :: k in posts && posts[k].slug == slug {
        var k :| k in posts && posts[k].slug == slug;
        r := Success(posts[k]);
      } else {
        r := Failure(PostNotFound);
      }
    }

    /**
     * updateBlogPost: the author, or a caller whose role is exactly "admin",
     * patches the row and sets `updatedAt`; both the list and the post's page
     * are revalidated.
     */
    method UpdateBlogPost(caller: Option<User>, id: int, patch: PostPatch, now: nat)
      returns (r: ServerResponse<Post>)
      requires Valid()
      modifies this
      ensures Valid()
      ensures !(id in old(posts) && OwnerOrExactAdmin(caller, old(posts)[id].authorId)) ==> r == Failure(Unauthorized)
      ensures r.Failure? ==>
        Unchanged(old(categories), old(posts), old(tags), old(postTags), old(comments), old(views), old(revalidated))
      ensures r.Success? <==>
        && id in old(posts) && OwnerOrExactAdmin(caller, old(posts)[id].authorId)
        && SlugFreeFor(old(posts), id, PatchPost(old(posts)[id], patch, now).slug)
        && CategoryOk(old(categories), PatchPost(old(posts)[id], patch, now).categoryId)
      ensures r.Success? ==>
        && r.data == PatchPost(old(posts)[id], patch, now)
        && posts == old(posts)[id := r.data]
        && revalidated == old(revalidated) + ["/blog", "/blog/" + r.data.slug]
      ensures categories == old(categories) && tags == old(tags) && postTags == old(postTags)
      ensures comments == old(comments) && views == old(views)
    {
      if caller.None? || id !in posts || !OwnerOrExactAdmin(caller, posts[id].authorId) {
        return Failure(Unauthorized);
      }
      var post := PatchPost(posts[id], patch, now);
      if !SlugFreeFor(posts, id, post.slug) {
        return Failure(DuplicateKey);
      }
      if !CategoryOk(categories, post.categoryId) {
        return Failure(ForeignKeyViolation);
      }
      posts := posts[id := post];
      revalidated := revalidated + ["/blog", "/blog/" + post.slug];
      r := Success(post);
    }

    /** The delete of one post row, with the rows that cascade from it. */
    method RemovePost(id: int)
      requires Valid()
      modifies this
      ensures Valid()
      ensures posts == old(posts) - {id}
      ensures postTags == LinksWithoutPost(old(postTags), id)
      ensures comments == CommentsWithoutPost(old(comments), id)
      ensures views == ViewsWithoutPost(old(views), id)
      ensures categories == old(categories) && tags == old(tags) && revalidated == old(revalidated)
    {
      DeletePostCascadeOk(posts, tags, postTags, comments, nextCommentId, views, nextViewId, id);
      DeletePostKeepsPostsOk(posts, nextPostId, categories, id);
      posts := posts - {id};
      postTags := LinksWithoutPost(postTags, id);
      comments := CommentsWithoutPost(comments, id);
      views := ViewsWithoutPost(views, id);
    }

    /**
     * deleteBlogPost: the author, or a caller whose role is exactly "admin",
     * deletes the post; its tag links, comments and views go with it (ON DELETE CASCADE).
     */
    method DeleteBlogPost(caller: Option<User>, id: int) returns (r: ServerResponse<()>)
      requires Valid()
      modifies this
      ensures Valid()
      ensures r.Success? <==> id in old(posts) && OwnerOrExactAdmin(caller, old(posts)[id].authorId)
      ensures r.Failure? ==> r == Failure(Unauthorized)
      ensures r.Failure? ==>
        Unchanged(old(categories), old(posts), old(tags), old(postTags), old(comments), old(views), old(revalidated))
      ensures r.Success? ==>
        && posts == old(posts) - {id}
        && postTags == LinksWithoutPost(old(postTags), id)
        && comments == CommentsWithoutPost(old(comments), id)
        && views == ViewsWithoutPost(old(views), id)
        && revalidated == old(revalidated) + ["/blog"]
      ensures categories == old(categories) && tags == old(tags)
    {
      if caller.None? || id !in posts || !OwnerOrExactAdmin(caller, posts[id].authorId) {
        return Failure(Unauthorized);
      }
      RemovePost(id);
      revalidated := revalidated + ["/blog"];
      r := Success(());
    }

    /**
     * createComment: any signed-in caller comments on an existing post.  The
     * parent is stored as given: nothing checks that it exists or belongs
     * to the same post.
     */
    method CreateComment(caller: Option<User>, postId: int, content: string, parentId: Option<int>, now: nat)
      returns (r: ServerResponse<Comment>)
      requires Valid()
      modifies this
      ensures Valid()
      ensures caller.None? ==> r == Failure(Unauthorized)
      ensures caller.Some? && postId !in old(posts) ==> r == Failure(ForeignKeyViolation)
      ensures r.Success? <==> caller.Some? && postId in old(posts)
      ensures r.Failure? ==>
        Unchanged(old(categories), old(posts), old(tags), old(postTags), old(comments), old(views), old(revalidated))
      ensures r.Success? ==>
        && r.data == CommentRow(r.data.id, postId, caller.value.id, content, parentId, now)
        && r.data.id !in old(comments) && comments == old(comments)[r.data.id := r.data]
        && revalidated == old(revalidated) + ["/blog/" + IntToString(postId)]
      ensures categories == old(categories) && posts == old(posts) && tags == old(tags)
      ensures postTags == old(postTags) && views == old(views)
    {
      if caller.None? {
        return Failure(Unauthorized);
      }
      if postId !in posts {
        return Failure(ForeignKeyViolation);
      }
      var comment := CommentRow(nextCommentId, postId, caller.value.id, content, parentId, now);
      comments := comments[comment.id := comment];
      nextCommentId := nextCommentId + 1;
      revalidated := revalidated + ["/blog/" + IntToString(postId)];
      r := Success(comment);
    }

    /** getComments: the comments of one post, newest first. */
    method GetComments(postId: int) returns (r: ServerResponse<seq<Comment>>)
      requires Valid()
      ensures r.Success? && Listing(r.data, comments, CommentOnPost(postId), CommentCreatedAt)
    {
      CommentsInjective(comments, nextCommentId, posts);
      var rows := SelectDesc(comments, CommentOnPost(postId), CommentCreatedAt);
      r := Success(rows);
    }

    /**
     * incrementView: record one view of an existing post, with the caller's
     * id when there is one.  Nothing is returned: a failed insert is only logged.
     */
    method IncrementView(caller: Option<User>, postId: int, now: nat)
      requires Valid()
      modifies this
      ensures Valid()
      ensures postId in old(posts) ==> exists k :: k !in old(views) && views == old(views)[k := ViewRow(k, postId, caller, now)]
      ensures postId !in old(posts) ==> views == old(views)
      ensures categories == old(categories) && posts == old(posts) && tags == old(tags)
      ensures postTags == old(postTags) && comments == old(comments) && revalidated == old(revalidated)
    {
      if postId !in posts {
        return;
      }
      var view := ViewRow(nextViewId, postId, caller, now);
      views := views[view.id := view];
      nextViewId := nextViewId + 1;
    }

    /** Deleting a category keeps its posts and clears their category (ON DELETE SET NULL). */
    method DeleteCategory(id: int)
      requires Valid()
      modifies this
      ensures Valid()
      ensures categories == old(categories) - {id}
      ensures posts == DetachCategory(old(posts), id)
      ensures tags == old(tags) && postTags == old(postTags) && comments == old(comments)
      ensures views == old(views) && revalidated == old(revalidated)
    {
      DetachCategoryKeepsPostsOk(posts, nextPostId, categories, id);
      categories := categories - {id};
      posts := DetachCategory(posts, id);
    }
  }

  /** The links from post `postId` to the tags named in `names`. */
  ghost function TagLinks(postId: int, tags: map<int, Tag>, names: seq<string>): set<PostTag> {
    set t | t in tags && tags[t].name in names :: PostTag(postId, t)
  }

  /**
   * The tags `tags0` are kept, and every tag added since is one the tag loop
   * made for a name of `names`.
   */
  ghost predicate TagsGrown(tags0: map<int, Tag>, tags: map<int, Tag>, names: seq<string>, now: nat) {
    && (forall k :: k in tags0 ==> k in tags && tags[k] == tags0[k])
    && (forall k :: k in tags && k !in tags0 ==>
          tags[k] == Tag(k, tags[k].name, TagSlug(tags[k].name), now) && tags[k].name in names)
  }

  /**
   * What the tag loop of createBlogPost has done after the passes for
   * `names` got through, starting from the tags `tags0` and links `links0`:
   * the tags grew only by names of `names` that were not tags, every name is
   * a tag, the links are those to the tags of `names`, and `names` are
   * addable against `tags0`.
   */
  ghost predicate TagLoopState(
    tags0: map<int, Tag>, links0: set<PostTag>, tags: map<int, Tag>, links: set<PostTag>,
    postId: int, names: seq<string>, now: nat)
  {
    && TagsGrown(tags0, tags, names, now)
    && (forall k :: k in tags && k !in tags0 ==> !NameTaken(tags0, tags[k].name))
    && (forall n :: n in names ==> NameTaken(tags, n))
    && links == links0 + TagLinks(postId, tags, names)
    && TagsAddable(tags0, names)
  }

  lemma TagLoopStart(tags0: map<int, Tag>, links0: set<PostTag>, postId: int, now: nat)
    ensures TagLoopState(tags0, links0, tags0, links0, postId, [], now)
  {
    assert TagLinks(postId, tags0, []) == {};
  }

  /** One more pass that got through, with what its two inserts promise. */
  lemma TagLoopStep(
    tags0: map<int, Tag>, links0: set<PostTag>, tagsA: map<int, Tag>, linksA: set<PostTag>,
    tagsB: map<int, Tag>, next: int, linksB: set<PostTag>, postId: int, names: seq<string>, name: string,
    id: int, now: nat)
    requires TagLoopState(tags0, links0, tagsA, linksA, postId, names, now)
    requires forall k :: k in tagsA ==> k in tagsB && tagsB[k] == tagsA[k]
    requires forall k :: k in tagsB && k !in tagsA ==>
      tagsB[k] == Tag(k, name, TagSlug(name), now) && !NameTaken(tagsA, name)
    requires TagsOk(tagsB, next) && id in tagsB && tagsB[id].name == name
    requires !NameTaken(tagsA, name) ==> TagSlugFree(tagsA, TagSlug(name))
    requires PostTag(postId, id) !in linksA && linksB == linksA + {PostTag(postId, id)}
    ensures TagLoopState(tags0, links0, tagsB, linksB, postId, names + [name], now)
  {
    TagLinksGrow(postId, tagsA, tagsB, names);
    TagLinkOfName(postId, tagsB, names, id);
    TagLinksStep(postId, tagsB, next, names, name, id);
    TagsGrownMore(tags0, tagsA, tagsB, names, name, now);
    AddableStep(tags0, tagsA, names, name);
    forall n | n in names
      ensures NameTaken(tagsB, n)
    {
      var k :| k in tagsA && tagsA[k].name == n;
      assert k in tagsB && tagsB[k].name == n;
    }
    assert NameTaken(tagsB, name);
    InAppendOne(names, name);
    forall k | k in tagsB && k !in tags0
      ensures !NameTaken(tags0, tagsB[k].name)
    {
      if k !in tagsA {
        assert forall j :: j in tags0 ==> j in tagsA && tagsA[j].name == tags0[j].name;
      }
    }
  }

  lemma InAppendOne(names: seq<string>, name: string)
    ensures forall n :: n in names + [name] <==> n in names || n == name
  {
  }

  /** A pass adds at most a tag under its own name. */
  lemma TagsGrownMore(
    tags0: map<int, Tag>, tagsA: map<int, Tag>, tagsB: map<int, Tag>, names: seq<string>, name: string, now: nat)
    requires TagsGrown(tags0, tagsA, names, now)
    requires forall k :: k in tagsA ==> k in tagsB && tagsB[k] == tagsA[k]
    requires forall k :: k in tagsB && k !in tagsA ==> tagsB[k] == Tag(k, name, TagSlug(name), now)
    ensures TagsGrown(tags0, tagsB, names + [name], now)
  {
  }

  /** Growth by the names of a prefix is growth by the whole list. */
  lemma TagsGrownPrefix(tags0: map<int, Tag>, tags: map<int, Tag>, names: seq<string>, i: int, now: nat)
    requires 0 <= i <= |names|
    requires TagsGrown(tags0, tags, names[..i], now)
    ensures TagsGrown(tags0, tags, names, now)
  {
    forall k | k in tags && k !in tags0
      ensures tags[k].name in names
    {
      var j :| 0 <= j < i && names[..i][j] == tags[k].name;
      assert names[j] == tags[k].name;
    }
  }

  /** A prefix of addable names is addable. */
  lemma AddablePrefix(tags: map<int, Tag>, names: seq<string>, i: int)
    requires 0 <= i <= |names|
    ensures TagsAddable(tags, names) ==> TagsAddable(tags, names[..i])
  {
  }

  /** All passes got through. */
  lemma TagLoopDone(
    tags0: map<int, Tag>, links0: set<PostTag>, tags: map<int, Tag>, links: set<PostTag>,
    postId: int, tagNames: seq<string>, now: nat)
    requires TagLoopState(tags0, links0, tags, links, postId, tagNames, now)
    ensures tagNames == [] ==> tags == tags0 && links == links0
  {
    if tagNames == [] {
      assert forall k :: k in tags <==> k in tags0;
      assert forall k :: k in tags ==> tags[k] == tags0[k];
      assert tags == tags0;
      assert TagLinks(postId, tags, tagNames) == {};
    }
  }

  /**
   * Pass `i` of the tag loop, when the whole list is addable: its name is
   * new to the loop, and it is a tag already or its slug is still free.
   */
  lemma AddableNext(tags0: map<int, Tag>, tags: map<int, Tag>, names: seq<string>, i: int)
    requires 0 <= i < |names|
    requires forall k :: k in tags0 ==> k in tags && tags[k] == tags0[k]
    requires forall k :: k in tags && k !in tags0 ==>
      tags[k].slug == TagSlug(tags[k].name) && tags[k].name in names[..i] && !NameTaken(tags0, tags[k].name)
    requires TagsAddable(tags0, names)
    ensures names[i] !in names[..i]
    ensures NameTaken(tags, names[i]) || TagSlugFree(tags, TagSlug(names[i]))
  {
    if NameTaken(tags0, names[i]) {
      var k :| k in tags0 && tags0[k].name == names[i];
      assert k in tags && tags[k].name == names[i];
    } else {
      forall k | k in tags
        ensures tags[k].slug != TagSlug(names[i])
      {
        if k !in tags0 {
          var j :| 0 <= j < i && names[..i][j] == tags[k].name;
          assert names[j] == tags[k].name;
        }
      }
    }
  }

  /**
   * A pass of the tag loop that got through extends the addable prefix:
   * its name was new to the loop, and its slug, if it made a tag, was free.
   */
  lemma AddableStep(tags0: map<int, Tag>, tags: map<int, Tag>, prefix: seq<string>, n: string)
    requires forall k :: k in tags0 ==> k in tags && tags[k] == tags0[k]
    requires forall k :: k in tags && k !in tags0 ==>
      tags[k].slug == TagSlug(tags[k].name) && tags[k].name in prefix && !NameTaken(tags0, tags[k].name)
    requires forall m :: m in prefix ==> NameTaken(tags, m)
    requires TagsAddable(tags0, prefix)
    requires n !in prefix
    requires !NameTaken(tags, n) ==> TagSlugFree(tags, TagSlug(n))
    ensures TagsAddable(tags0, prefix + [n])
  {
    var s := prefix + [n];
    assert forall i :: 0 <= i < |prefix| ==> s[i] == prefix[i];
    if !NameTaken(tags0, n) {
      forall j | 0 <= j < |prefix| && !NameTaken(tags0, prefix[j])
        ensures TagSlug(prefix[j]) != TagSlug(n)
      {
        assert prefix[j] in prefix;
        var k :| k in tags && tags[k].name == prefix[j];
        assert k !in tags0;
      }
    }
  }

  /** The link to a tag is among the links of `names` exactly when its name is. */
  lemma TagLinkOfName(postId: int, tags: map<int, Tag>, names: seq<string>, id: int)
    requires id in tags
    ensures PostTag(postId, id) in TagLinks(postId, tags, names) <==> tags[id].name in names
  {
  }

  /** Tags added under names not in `names` add no links. */
  lemma TagLinksGrow(postId: int, tags: map<int, Tag>, bigger: map<int, Tag>, names: seq<string>)
    requires forall k :: k in tags ==> k in bigger && bigger[k] == tags[k]
    requires forall k :: k in bigger && k !in tags ==> bigger[k].name !in names
    ensures TagLinks(postId, bigger, names) == TagLinks(postId, tags, names)
  {
    assert forall l :: l in TagLinks(postId, bigger, names) ==> l in TagLinks(postId, tags, names);
  }

  /** With tag names unique, one more name adds exactly the link to its tag. */
  lemma TagLinksStep(postId: int, tags: map<int, Tag>, next: int, names: seq<string>, name: string, id: int)
    requires TagsOk(tags, next) && id in tags && tags[id].name == name
    ensures TagLinks(postId, tags, names + [name]) == TagLinks(postId, tags, names) + {PostTag(postId, id)}
  {
    forall l | l in TagLinks(postId, tags, names + [name])
      ensures l in TagLinks(postId, tags, names) + {PostTag(postId, id)}
    {
      var t :| t in tags && tags[t].name in names + [name] && l == PostTag(postId, t);
      if tags[t].name !in names {
        assert tags[t].name == name;
      }
    }
  }

  /** `getBlogPosts("all")` lists every post. */
  lemma ListingAllHasEveryPost(rows: seq<Post>, posts: map<int, Post>)
    requires Listing(rows, posts, PostFilterKeep(FilterAll), PostCreatedAt)
    ensures forall k :: k in posts ==> posts[k] in rows
    ensures forall p :: p in rows ==> p in posts.Values
  {
    ListingMembers(rows, posts, PostFilterKeep(FilterAll), PostCreatedAt);
  }

  /** Any other filter lists exactly the posts with that status. */
  lemma ListingStatusExact(rows: seq<Post>, posts: map<int, Post>, filter: PostFilter, status: PostStatus)
    requires filter == FilterPublished || filter == FilterDraft
    requires status == if filter == FilterPublished then Published else Draft
    requires Listing(rows, posts, PostFilterKeep(filter), PostCreatedAt)
    ensures forall k :: k in posts && posts[k].status == status ==> posts[k] in rows
    ensures forall p :: p in rows ==> p in posts.Values && p.status == status
  {
    ListingMembers(rows, posts, PostFilterKeep(filter), PostCreatedAt);
  }

  /** An update keeps the row's id and creation time and stamps `updatedAt`. */
  lemma PatchPostKeepsIdentity(p: Post, d: PostPatch, now: nat)
    ensures PatchPost(p, d, now).id == p.id
    ensures d.createdAt.None? ==> PatchPost(p, d, now).createdAt == p.createdAt
    ensures d.createdAt.Some? ==> PatchPost(p, d, now).createdAt == d.createdAt.value
    ensures PatchPost(p, d, now).updatedAt == now
  {
  }

  /** Each column is the patch's value where it gives one and the old value elsewhere. */
  lemma PatchPostColumns(p: Post, d: PostPatch, now: nat)
    ensures d.title.None? ==> PatchPost(p, d, now).title == p.title
    ensures d.title.Some? ==> PatchPost(p, d, now).title == d.title.value
    ensures d.slug.None? ==> PatchPost(p, d, now).slug == p.slug
    ensures d.slug.Some? ==> PatchPost(p, d, now).slug == d.slug.value
    ensures d.status.None? ==> PatchPost(p, d, now).status == p.status
    ensures d.status.Some? ==> PatchPost(p, d, now).status == d.status.value
    ensures d == PostPatch(None, None, None, None, None, None, None, None, None, None) ==>
      PatchPost(p, d, now) == p.(updatedAt := now)
  {
  }

  /** Rows carry their own key, so no post is held twice. */
  lemma PostsInjective(posts: map<int, Post>, next: int, categories: map<int, Category>)
    requires PostsOk(posts, next, categories)
    ensures Injective(posts)
  {
  }

  lemma CommentsInjective(comments: map<int, Comment>, next: int, posts: map<int, Post>)
    requires CommentsOk(comments, next, posts)
    ensures Injective(comments)
  {
  }
}
