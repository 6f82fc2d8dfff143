/**
  The blog services: creating a post, the partial update that selects
  which fields to write, and deletion. The `published` flag is modelled as
  an absent or boolean value; the image upload is the URL the CDN returned.
 */
module BlogServices {
  import opened Common
  import opened ContentModel
  import opened Database

  /** The `data` object of a create request. */
  datatype BlogInput = BlogInput(
    title: Option<string>,
    author: Option<string>,
    description: Option<string>,
    altTag: Option<string>,
    rewards: Option<seq<Reward>>,
    published: Option<bool>)

  /** `createNewBlogIntoDb`: a `data` object, a title, an author and a true
      `published` flag are required (BAD_REQUEST); missing strings default to
      `''`, which the schema then refuses, as it refuses a post without an
      image. */
  function CreateBlog(s: Store, data: Option<BlogInput>, upload: Option<string>, now: Time): (r: Result<(Store, Id)>)
    ensures r.Err? ==> r.kind == BadRequest || r.kind == SchemaViolation
    ensures r.Err? && r.kind == BadRequest <==>
              data.None? || !Truthy(data.value.title) || !Truthy(data.value.author) || data.value.published != Some(true)
    ensures r.Ok? <==>
              && data.Some? && Truthy(data.value.title) && Truthy(data.value.author)
              && data.value.published == Some(true)
              && Truthy(data.value.description) && Truthy(data.value.altTag) && Truthy(upload)
              && RewardsValid(data.value.rewards.GetOr([]))
    ensures r.Ok? ==>
              && data.Some? && r.value.1 == s.nextId && s.nextId in r.value.0.blogs
              && Truthy(data.value.description) && Truthy(data.value.altTag) && Truthy(upload)
              && var b := r.value.0.blogs[s.nextId];
                 && b.title == data.value.title.value && b.author == data.value.author.value
                 && b.description == data.value.description.value && b.altTag == data.value.altTag.value
                 && b.blogImage == upload.value
                 && b.rewards == data.value.rewards.GetOr([])
                 && b.published && b.updatedAt == now && !b.isDeleted
                 && BlogSchemaValid(b)
                 && r.value.0 == s.(blogs := s.blogs[s.nextId := b], nextId := s.nextId + 1)
  {
    if data.None? || !Truthy(data.value.title) || !Truthy(data.value.author) || data.value.published != Some(true) then
      Err(BadRequest)
    else
      var d := data.value;
      var b := Blog(OrElse(d.author, "Unknown"), d.title.value, OrElse(d.description, ""),
                    upload.GetOr(""), OrElse(d.altTag, ""), d.rewards.GetOr([]), true, now, false);
      if !BlogSchemaValid(b) then Err(SchemaViolation)
      else Ok((s.(blogs := s.blogs[s.nextId := b], nextId := s.nextId + 1), s.nextId))
  }

  /** Without an uploaded image a post cannot be created. */
  lemma CreateWithoutImageFails(s: Store, data: Option<BlogInput>, now: Time)
    ensures CreateBlog(s, data, None, now).Err?
  {
  }

  /** The `payload` of an update request. */
  datatype BlogUpdateInput = BlogUpdateInput(
    blogId: Option<Id>,
    title: Option<string>,
    description: Option<string>,
    author: Option<string>,
    altTag: Option<string>,
    rewards: Option<seq<Reward>>,
    published: Option<bool>)

  /** `findOne` on blogs with the explicit `isDeleted` filter. */
  function FindLiveBlog(blogs: map<Id, Blog>, id: Id): (r: Option<Blog>)
    ensures r.Some? <==> id in blogs && !blogs[id].isDeleted
    ensures r.Some? ==> r.value == blogs[id]
  {
    if id in blogs && !blogs[id].isDeleted then Some(blogs[id]) else None
  }

  /** The post `b'` is `b` with the update `p` written into it: truthy
      strings replace, a non-empty reward list replaces, a boolean flag
      replaces, a new image replaces, and `updatedAt` always moves. */
  predicate UpdatedFrom(b': Blog, b: Blog, p: BlogUpdateInput, upload: Option<string>, now: Time) {
    && b'.title == (if Truthy(p.title) then p.title.value else b.title)
    && b'.description == (if Truthy(p.description) then p.description.value else b.description)
    && b'.author == (if Truthy(p.author) then p.author.value else b.author)
    && b'.altTag == (if Truthy(p.altTag) then p.altTag.value else b.altTag)
    && b'.rewards == (if p.rewards.Some? && |p.rewards.value| > 0 then p.rewards.value else b.rewards)
    && b'.published == (if p.published.Some? then p.published.value else b.published)
    && b'.blogImage == (if upload.Some? then upload.value else b.blogImage)
    && b'.updatedAt == now
    && b'.isDeleted == b.isDeleted
  }

  /** The update set applied to a post. */
  function ApplyBlogUpdate(b: Blog, p: BlogUpdateInput, upload: Option<string>, now: Time): Blog {
    b.(title := OrElse(p.title, b.title),
       description := OrElse(p.description, b.description),
       author := OrElse(p.author, b.author),
       altTag := OrElse(p.altTag, b.altTag),
       rewards := if p.rewards.Some? && |p.rewards.value| > 0 then p.rewards.value else b.rewards,
       published := p.published.GetOr(b.published),
       blogImage := upload.GetOr(b.blogImage),
       updatedAt := now)
  }

  /** `updateBlogIntoDb`: a blog id (FORBIDDEN) and a true `published` flag
      (BAD_REQUEST) are required, the post must exist and not be deleted
      (NOT_FOUND), and an invalid new reward list fails the update
      validators (a 500). */
  function UpdateBlog(s: Store, p: BlogUpdateInput, upload: Option<string>, now: Time): (r: Result<Store>)
    ensures r.Err? ==> r.kind in {Forbidden, BadRequest, NotFound, InternalError}
    ensures r.Err? && r.kind == Forbidden <==> p.blogId.None?
    ensures r.Err? && r.kind == BadRequest <==> p.blogId.Some? && p.published != Some(true)
    ensures r.Err? && r.kind == NotFound <==>
              p.blogId.Some? && p.published == Some(true) && FindLiveBlog(s.blogs, p.blogId.value).None?
    ensures r.Err? && r.kind == InternalError <==>
              && p.blogId.Some? && p.published == Some(true) && FindLiveBlog(s.blogs, p.blogId.value).Some?
              && p.rewards.Some? && |p.rewards.value| > 0 && !RewardsValid(p.rewards.value)
    ensures r.Ok? ==>
              && p.blogId.Some? && p.blogId.value in s.blogs && p.blogId.value in r.value.blogs
              && UpdatedFrom(r.value.blogs[p.blogId.value], s.blogs[p.blogId.value], p, upload, now)
              && r.value.blogs[p.blogId.value].published
              && r.value == s.(blogs := s.blogs[p.blogId.value := r.value.blogs[p.blogId.value]])
  {
    if p.blogId.None? then Err(Forbidden)
    else if p.published != Some(true) then Err(BadRequest)
    else if FindLiveBlog(s.blogs, p.blogId.value).None? then Err(NotFound)
    else
      var b' := ApplyBlogUpdate(s.blogs[p.blogId.value], p, upload, now);
      if p.rewards.Some? && |p.rewards.value| > 0 && !RewardsValid(p.rewards.value) then Err(InternalError)
      else Ok(s.(blogs := s.blogs[p.blogId.value := b']))
  }

  /** A published post can never be turned back into a draft by an update. */
  lemma UpdateNeverUnpublishes(s: Store, p: BlogUpdateInput, upload: Option<string>, now: Time)
    requires UpdateBlog(s, p, upload, now).Ok?
    ensures UpdateBlog(s, p, upload, now).value.blogs[p.blogId.value].published
  {
  }

  /** `deleteBlogIntoDb`: the id is required and the post must exist
      (NOT_FOUND); the lookup sees soft-deleted posts, but the delete
      filter skips them, which also reports NOT_FOUND. */
  function DeleteBlog(s: Store, blogId: Option<Id>): (r: Result<Store>)
    ensures r.Err? ==> r.kind == NotFound
    ensures r.Err? <==> blogId.None? || FindLiveBlog(s.blogs, blogId.value).None?
    ensures r.Ok? ==> r.value == s.(blogs := s.blogs - {blogId.value}) && blogId.value !in r.value.blogs
  {
    if blogId.None? || blogId.value !in s.blogs then Err(NotFound)
    else if s.blogs[blogId.value].isDeleted then Err(NotFound)
    else Ok(s.(blogs := s.blogs - {blogId.value}))
  }

  /** Deleting a post right after creating it restores the collection. */
  lemma CreateThenDeleteRestores(s: Store, data: Option<BlogInput>, upload: Option<string>, now: Time)
    requires IdsIssued(s)
    requires CreateBlog(s, data, upload, now).Ok?
    ensures var (s', id) := CreateBlog(s, data, upload, now).value;
            && DeleteBlog(s', Some(id)).Ok?
            && DeleteBlog(s', Some(id)).value.blogs == s.blogs
  {
    var (s', id) := CreateBlog(s, data, upload, now).value;
    assert s.nextId !in s.blogs;
    assert s'.blogs - {id} == s.blogs;
  }
}
