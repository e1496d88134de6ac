/** The blog routes: listing, creation and deletion over the blog
    collection, with each answer as a tagged response. */
module BlogsController {
  import opened Wrappers
  import opened ObjectIds
  import opened BlogModel
  import opened BlogStore

  /** The public view of a blog. */
  datatype BlogView = BlogView(id: ObjectId, title: Text, author: Option<Text>, url: Text, likes: int)

  /** The JSON body of a creation request: each property may be absent. */
  datatype Payload = Payload(title: Option<Text>, author: Option<Text>, url: Option<Text>, likes: Option<int>)

  datatype Body = BlogJson(view: BlogView) | BlogListJson(views: seq<BlogView>)

  /** What a handler answers: 200 with a JSON body, 204 with none, or an
      error status with `{error: message}`. */
  datatype Response = Ok(body: Body) | NoContent | BadRequest(error: string) | ServerError(error: string)

  const ContentMissing := "content missing"
  const SomethingWentWrong := "something went wrong..."
  const MalformattedId := "malformatted id"

  function Status(r: Response): (code: int)
    ensures code in {200, 204, 400, 500}
    ensures code == 200 <==> r.Ok?
    ensures code == 204 <==> r.NoContent?
    ensures code == 400 <==> r.BadRequest?
  {
    match r
    case Ok(_) => 200
    case NoContent => 204
    case BadRequest(_) => 400
    case ServerError(_) => 500
  }

  /** formatBlog: `_id` becomes `id`, the other public fields are copied. */
  function FormatBlog(b: Blog): (v: BlogView)
    ensures v.id == b.id && v.title == b.title && v.author == b.author
    ensures v.url == b.url && v.likes == b.likes
  {
    BlogView(b.id, b.title, b.author, b.url, b.likes)
  }

  /** The document a view came from, given its version counter. */
  function Unformat(v: BlogView, version: nat): (b: Blog)
    ensures b.version == version
  {
    Blog(v.id, v.title, v.author, v.url, v.likes, version)
  }

  /** The view keeps everything but the version counter: formatting loses
      nothing else, and two documents have the same view exactly when they
      differ at most in their version. */
  lemma FormatBlogDropsOnlyVersion(a: Blog, b: Blog)
    ensures Unformat(FormatBlog(a), a.version) == a
    ensures FormatBlog(a) == FormatBlog(b) <==> a.(version := 0) == b.(version := 0)
  {
  }

  /** The document a creation request produces under identifier `id`:
      none when `title` or `url` is absent, otherwise the payload's title,
      author and url, the given likes or zero when absent, version zero. */
  function NewBlog(p: Payload, id: ObjectId): (r: Option<Blog>)
    ensures r.None? <==> p.title.None? || p.url.None?
    ensures r.Some? ==> r.value.id == id && r.value.version == 0
    ensures r.Some? ==> Some(r.value.title) == p.title && Some(r.value.url) == p.url
    ensures r.Some? ==> r.value.author == p.author
    ensures r.Some? && p.likes.None? ==> r.value.likes == 0
    ensures r.Some? && p.likes.Some? ==> r.value.likes == p.likes.value
  {
    if p.title.None? || p.url.None? then None
    else Some(Blog(id, p.title.value, p.author, p.url.value,
                   if p.likes.None? then 0 else p.likes.value, 0))
  }

  /** Only absence is rejected: a title or url that is `null` or the empty
      string passes, and so does a missing author. */
  lemma OnlyAbsenceIsRejected(t: Text, u: Text, author: Option<Text>, likes: Option<int>, id: ObjectId)
    ensures NewBlog(Payload(Some(t), author, Some(u), likes), id).Some?
    ensures NewBlog(Payload(None, author, Some(u), likes), id).None?
    ensures NewBlog(Payload(Some(t), author, None, likes), id).None?
  {
  }

  /** GET /: every stored blog, formatted, in store order. */
  method GetAll(store: Collection) returns (r: Response)
    ensures r.Ok? && r.body.BlogListJson?
    ensures |r.body.views| == |store.docs|
    ensures forall i :: 0 <= i < |store.docs| ==> r.body.views[i] == FormatBlog(store.docs[i])
  {
    var docs := store.docs;
    r := Ok(BlogListJson(seq(|docs|, i requires 0 <= i < |docs| => FormatBlog(docs[i]))));
  }

  /** POST /: rejects a payload without title or url (400, nothing stored);
      otherwise saves the new document under the fresh identifier `newId`
      and answers its view, unless saving fails (500, nothing stored). */
  method Create(store: Collection, p: Payload, newId: ObjectId, saveFails: bool) returns (r: Response)
    requires store.Valid() && newId !in Ids(store.docs)
    modifies store
    ensures store.Valid()
    ensures NewBlog(p, newId).None? ==> r == BadRequest(ContentMissing) && store.docs == old(store.docs)
    ensures NewBlog(p, newId).Some? && saveFails ==>
              r == ServerError(SomethingWentWrong) && store.docs == old(store.docs)
    ensures NewBlog(p, newId).Some? && !saveFails ==>
              && store.docs == old(store.docs) + [NewBlog(p, newId).value]
              && r == Ok(BlogJson(FormatBlog(NewBlog(p, newId).value)))
              && |store.docs| == |old(store.docs)| + 1
  {
    if p.title.None? || p.url.None? {
      return BadRequest(ContentMissing);
    }
    var blog := Blog(newId, p.title.value, p.author, p.url.value,
                     if p.likes.None? then 0 else p.likes.value, 0);
    if saveFails {
      return ServerError(SomethingWentWrong);
    }
    store.Insert(blog);
    r := Ok(BlogJson(FormatBlog(blog)));
  }

  /** DELETE /:id: an identifier that does not parse, or any failure of the
      store, answers 400 "malformatted id" with nothing removed; otherwise
      the document with that identifier, if any, is removed and the answer
      is 204 either way. */
  method Delete(store: Collection, rawId: string, removeFails: bool) returns (r: Response)
    requires store.Valid()
    modifies store
    ensures store.Valid()
    ensures ParseObjectId(rawId).None? || removeFails ==>
              r == BadRequest(MalformattedId) && store.docs == old(store.docs)
    ensures ParseObjectId(rawId).Some? && !removeFails ==>
              && r == NoContent
              && store.docs == RemoveId(old(store.docs), ParseObjectId(rawId).value)
    ensures ParseObjectId(rawId).Some? && !removeFails && ParseObjectId(rawId).value in old(Ids(store.docs)) ==>
              && |store.docs| == |old(store.docs)| - 1
              && Ids(store.docs) == old(Ids(store.docs)) - {ParseObjectId(rawId).value}
    ensures ParseObjectId(rawId).Some? && ParseObjectId(rawId).value !in old(Ids(store.docs)) ==>
              store.docs == old(store.docs)
  {
    var id := ParseObjectId(rawId);
    if id.None? || removeFails {
      return BadRequest(MalformattedId);
    }
    store.RemoveById(id.value);
    r := NoContent;
  }

  /** The sequence the API tests run: a valid blog is added and then
      deleted by the canonical text of its identifier; the collection
      ends as it began and both answers are successes. */
  method CreateThenDelete(store: Collection, p: Payload, newId: ObjectId) returns (created: Response, deleted: Response)
    requires store.Valid() && newId !in Ids(store.docs)
    requires p.title.Some? && p.url.Some?
    modifies store
    ensures Status(created) == 200 && Status(deleted) == 204
    ensures store.Valid() && store.docs == old(store.docs)
  {
    ghost var before := store.docs;
    created := Create(store, p, newId, false);
    ParseObjectIdText(newId);
    deleted := Delete(store, ObjectIdText(newId), false);
    RemoveUndoesAppend(before, NewBlog(p, newId).value);
  }
}
