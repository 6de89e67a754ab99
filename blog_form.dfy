/**
 * The create-post form (app/admin/blog/create/create-blog-client.tsx):
 * its zod schema, its default values and the payload `onSubmit` sends.
 */
module BlogForm {
  import opened Wrappers
  import opened Text
  import opened BlogSchema

  /** The form's fields as the browser holds them. */
  datatype FormValues = FormValues(
    title: string, slug: string, content: string, excerpt: Option<string>,
    status: string, coverImageUrl: Option<string>)

  const DefaultValues: FormValues := FormValues("", "", "", Some(""), "draft", Some(""))

  /** `z.enum([...])` over the form's four labels, read as a post status. */
  function StatusFromLabel(l: string): (r: Option<PostStatus>)
    ensures r.Some? <==> l in PostStatusLabels
    ensures r.Some? ==> PostStatusName(r.value) == l
  {
    if l == "draft" then Some(Draft)
    else if l == "published" then Some(Published)
    else if l == "archived" then Some(Archived)
    else if l == "under_review" then Some(UnderReview)
    else None
  }

  /** `formSchema.safeParse(values).success`; lengths are UTF-16 lengths. */
  predicate Accepts(v: FormValues) {
    && JsLength(v.title) >= 2
    && JsLength(v.slug) >= 2
    && JsLength(v.content) >= 10
    && StatusFromLabel(v.status).Some?
  }

  /** The arguments of `createBlogPost`: the post and its tag names. */
  datatype Payload = Payload(post: NewPost, tags: seq<string>)

  /** What `onSubmit` sends for accepted values: the fields as they are, and no tags. */
  function Submission(v: FormValues): (r: Payload)
    requires Accepts(v)
    ensures r.tags == []
    ensures r.post.title == v.title && r.post.slug == v.slug && r.post.content == v.content
    ensures r.post.excerpt == v.excerpt && r.post.coverImageUrl == v.coverImageUrl
    ensures r.post.status.Some? && PostStatusName(r.post.status.value) == v.status
    ensures r.post.categoryId.None? && r.post.publishedAt.None?
  {
    Payload(NewPost(None, None, v.title, v.slug, v.content, v.excerpt, v.coverImageUrl,
                    StatusFromLabel(v.status), None),
            [])
  }

  /** The form offers exactly the statuses of the schema's enum, each under its own label. */
  lemma FormStatusesAreSchemaStatuses(l: string)
    ensures StatusFromLabel(l).Some? <==> exists s :: PostStatusName(s) == l
    ensures forall s :: StatusFromLabel(PostStatusName(s)) == Some(s)
  {
    PostStatusLabelsExact();
  }

  /** The default values select draft, and cannot be submitted as they are. */
  lemma DefaultValuesShape()
    ensures StatusFromLabel(DefaultValues.status) == Some(Draft)
    ensures !Accepts(DefaultValues)
  {
  }

  /**
   * Excerpt and cover are optional, and an untouched one is sent as the
   * empty string it defaults to, which the post row then stores as written.
   */
  lemma UntouchedOptionalsStoredEmpty(title: string, slug: string, content: string, id: int, author: string, now: nat)
    requires Accepts(DefaultValues.(title := title, slug := slug, content := content))
    ensures var p := PostRow(id, author, Submission(DefaultValues.(title := title, slug := slug, content := content)).post, now);
            p.excerpt == Some("") && p.coverImageUrl == Some("") && p.status == Draft
  {
  }

  /** The optional fields may also be absent altogether. */
  lemma OptionalsMayBeAbsent()
    ensures Accepts(FormValues("ab", "ab", "abcdefghij", None, "draft", None))
  {
  }
}
