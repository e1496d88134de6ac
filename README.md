# Blog backend: list helpers and blog routes

A model of the small Express/Mongoose blog backend's logic:

- the list helpers of `utils/list_helper.js`: `dummy`, `totalLikes` (a left
  fold of `likes` from zero) and `favoriteBlog` (a scan that keeps the first
  blog with the most likes);
- the blog routes of `controllers/blogs.js`: `formatBlog`, `GET /`, `POST /`
  and `DELETE /:id`, over an in-memory blog collection. Each handler is a
  method that takes the collection and answers a tagged `Response`: `Ok`
  (200 with a JSON body), `NoContent` (204), `BadRequest` (400) or
  `ServerError` (500), with the source's error messages.

Files:

- `wrappers.dfy`: `Option`, used for JavaScript properties that may be `undefined`.
- `object_id.dfy`: document identifiers (twelve bytes) and the cast of request
  text to an identifier (24 hexadecimal digits, either case). This cast is the
  database driver's ObjectId rule, applied inside `Blog.findByIdAndRemove`; it
  is not code of the route, and no file of the repository spells it out. Text
  that does not cast is the "malformed id" of the delete route.
- `blog_model.dfy`: a stored blog document (`_id`, `title`, `author`, `url`,
  `likes`, version counter `__v`). The model lets a present `title`, `author`
  or `url` be a string or `null` only; other JSON values are under "Left out".
- `list_helper.dfy`: the three helpers. `totalLikes` is a function, proved
  equal to a plain sum (`TotalLikesIsSum`). `favoriteBlog` is a loop method,
  proved equal to a recursive specification of the first maximum.
- `blog_store.dfy`: the collection as a class holding the documents in store
  order, with distinct identifiers. It offers insertion and find-by-id-and-remove,
  and carries lemmas about removal.
- `blogs_controller.dfy`: `formatBlog`, the creation rule and the three handlers.

Behaviour of the code that the model keeps:

- `favoriteBlog([])` returns `undefined` without failing (`blogs[0]` is
  `undefined` and `forEach` runs zero times); `FavoriteBlog` answers `None`.
- The creation handler checks only that `title` and `url` are present
  (`=== undefined`). It passes `null`, empty strings and any `likes` on to
  the store unchanged.
- The delete route's `catch` answers 400 "malformatted id" for every failure
  of the removal, store failures included, not only for ids that do not cast;
  `Delete` does the same.
- The listing returns the documents in the order the store returns them.

## Model

| member | source | states |
|---|---|---|
| ListHelper.Dummy | utils/list_helper.js:1-4 | returns 1 whatever the list |
| ListHelper.ReduceLikesIsSum | utils/list_helper.js:7-10 | reducing with the likes-adding reducer from an initial sum adds the sum of all likes to it |
| ListHelper.TotalLikesIsSum | utils/list_helper.js:6-11 | totalLikes equals the sum of `likes` over all blogs, and is 0 for the empty list |
| ListHelper.SumLikesAppend | utils/list_helper.js:7-10 | the sum of likes over a concatenation is the sum of the two sums |
| ListHelper.TotalLikesAppend | utils/list_helper.js:6-11 | totalLikes(a + b) == totalLikes(a) + totalLikes(b) |
| ListHelper.FavoriteIndex | utils/list_helper.js:13-21 | the left-to-right scan that replaces only on strictly more likes ends at the first index of maximal likes: every blog has at most its likes, every earlier blog strictly fewer |
| ListHelper.FirstMaxIsFavorite | utils/list_helper.js:15-19 | conversely, any index that is the first maximum is the favourite's index, so ties go to the earliest blog |
| ListHelper.FavoriteBlog | utils/list_helper.js:13-21 | the loop answers nothing exactly for the empty list; otherwise it answers the blog at the first maximal index, which is in the list and has at least the likes of every blog |
| ObjectIds.ParseObjectId | controllers/blogs.js:44 | request text casts to an identifier exactly when it is 24 hexadecimal digits (the driver's ObjectId cast that `findByIdAndRemove` applies to the request id; not code of the route) |
| ObjectIds.DecodeEncode | controllers/blogs.js:44 | reading the hexadecimal text of bytes gives the bytes back (the driver's ObjectId cast that `findByIdAndRemove` applies to the request id; not code of the route) |
| ObjectIds.EncodeDecode | controllers/blogs.js:44 | writing back the bytes read from hexadecimal text gives that text with its digits in lower case (the driver's ObjectId cast that `findByIdAndRemove` applies to the request id; not code of the route) |
| ObjectIds.ParseObjectIdText | tests/blog_api.test.js:124 | the text of an identifier, as put in a DELETE URL, casts back to that identifier |
| ObjectIds.ParsedTextIsCanonical | controllers/blogs.js:44 | text that casts is the identifier's canonical text up to the case of its digits (the driver's ObjectId cast that `findByIdAndRemove` applies to the request id; not code of the route) |
| BlogStore.RemoveId | controllers/blogs.js:44 | removal by identifier never lengthens the collection and keeps only documents that were stored |
| BlogStore.RemoveAbsent | controllers/blogs.js:44-46 | removing an identifier that is not stored leaves the collection unchanged |
| BlogStore.RemoveSplice | controllers/blogs.js:44 | removing the identifier of a stored document takes out exactly that document, and the documents before and after it stay in order |
| BlogStore.RemovePresent | controllers/blogs.js:42-46 | with distinct identifiers, removing a stored identifier drops the count by one, removes that identifier only, keeps the identifiers distinct and keeps every other document |
| BlogStore.RemoveIdempotent | controllers/blogs.js:44-46 | removing the same identifier twice is the same as removing it once |
| BlogStore.RemoveUndoesAppend | controllers/blogs.js:34-44 | removing the identifier of a just-saved document restores the collection |
| BlogStore.Collection.Insert | controllers/blogs.js:34 | saving appends the document, adds its identifier and keeps identifiers distinct |
| BlogStore.Collection.RemoveById | controllers/blogs.js:44 | find-by-id-and-remove: the collection loses the document with that identifier if it has one, one fewer document then, and is unchanged otherwise |
| BlogsController.Status | controllers/blogs.js:19-51 | the status codes: 200 for a JSON answer, 204 for no content, 400 for a client error, 500 otherwise |
| BlogsController.FormatBlogDropsOnlyVersion | controllers/blogs.js:4-12 | formatBlog keeps `_id` as `id` and title, author, url and likes unchanged: the document is recovered from its view and its version, and two documents share a view exactly when they differ only in version |
| BlogsController.NewBlog | controllers/blogs.js:23-32 | a payload is rejected exactly when `title` or `url` is absent; otherwise the document carries the payload's title, author and url, the given likes (0 included) or 0 when absent |
| BlogsController.OnlyAbsenceIsRejected | controllers/blogs.js:23 | a `null` or empty title or url is accepted; only an absent one is rejected |
| BlogsController.GetAll | controllers/blogs.js:14-17 | the listing has one view per stored document, in store order, each the formatted document |
| BlogsController.Create | controllers/blogs.js:19-40 | 400 "content missing" with nothing stored when title or url is absent; 500 "something went wrong..." with nothing stored when saving fails; otherwise exactly the new document is appended, the count grows by one, and the answer is its view |
| BlogsController.Delete | controllers/blogs.js:42-51 | 400 "malformatted id" with nothing removed when the id does not cast or the removal fails; otherwise 204, the matching document, if any, removed and everything else kept; an absent id changes nothing |
| BlogsController.CreateThenDelete | tests/blog_api.test.js:110-133 | saving a valid blog and then deleting it by its identifier's text answers 200 then 204 and leaves the collection as it was |

## Left out

- Express routing, the request and response objects, JSON serialisation and
  headers: a handler's answer is the `Response` value.
- The Mongoose model, its schema validation (`models/blog.js` is not part of
  this model) and database errors: a failed save or removal is a boolean
  parameter of `Create` and `Delete`. A new document's identifier is a
  parameter that must not be in use yet, standing for the store's generation
  of fresh identifiers.
- ObjectIds.ParseObjectId: the store also accepts any 12-character string as
  an identifier (its characters taken as the bytes). The model accepts only
  24 hexadecimal digits.
- A failure of the store during `GET /` is not handled by the source (the
  promise rejects with no answer), and is not modelled.
- A request whose body is not an object: the model starts from the
  properties of the body.
- `title`, `author` and `url` as JSON numbers, booleans, arrays or objects:
  they pass the absence check; what the schema makes of them (a cast, or a
  failed save) is not modelled, and `Text` holds only strings and `null`.
- `likes` as other JSON values (strings, `null`, fractions) and JavaScript's
  `+` on them: `likes` is a mathematical integer.
- `console.log` calls: output only.
- async/await and concurrent requests: the model is sequential.
- The user routes exercised by the API tests (username length, uniqueness,
  `adult` defaulting to true): their controller and model are not part of
  this model.
