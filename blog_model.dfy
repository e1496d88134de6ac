/** A blog document as the store keeps it. */
module BlogModel {
  import opened Wrappers
  import opened ObjectIds

  /** A string-valued JSON property that is present: a string (possibly
      empty) or `null`. */
  datatype Text = Null | Str(s: string)

  /** A stored blog: its identifier `_id`, the fields copied from the
      creation request (`author` may be absent), and the store's own
      version counter `__v`. */
  datatype Blog = Blog(id: ObjectId, title: Text, author: Option<Text>, url: Text, likes: int, version: nat)
}
