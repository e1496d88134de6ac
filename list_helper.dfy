/** Aggregations over a list of blogs. */
module ListHelper {
  import opened Wrappers
  import opened BlogModel

  /** A placeholder: one, whatever the list. */
  function Dummy(blogs: seq<Blog>): (r: int)
    ensures r == 1
  {
    1
  }

  // ---------------------------------------------------------------- totalLikes

  /** The reducer: adds the likes of one blog to the running sum. */
  function AddLikes(sum: int, item: Blog): int {
    sum + item.likes
  }

  /** `reduce` with AddLikes, from the left, starting at `acc`. */
  function ReduceLikes(acc: int, blogs: seq<Blog>): int
    decreases |blogs|
  {
    if blogs == [] then acc else ReduceLikes(AddLikes(acc, blogs[0]), blogs[1..])
  }

  /** totalLikes: zero for no blogs, otherwise the reduction from zero. */
  function TotalLikes(blogs: seq<Blog>): int {
    if |blogs| == 0 then 0 else ReduceLikes(0, blogs)
  }

  /** Reference definition: the likes of the first blog plus those of the rest. */
  function SumLikes(blogs: seq<Blog>): int {
    if blogs == [] then 0 else blogs[0].likes + SumLikes(blogs[1..])
  }

  lemma {:induction false} ReduceLikesIsSum(acc: int, blogs: seq<Blog>)
    ensures ReduceLikes(acc, blogs) == acc + SumLikes(blogs)
    decreases |blogs|
  {
    if blogs != [] {
      ReduceLikesIsSum(AddLikes(acc, blogs[0]), blogs[1..]);
    }
  }

  /** totalLikes is the sum of all likes, and zero for the empty list. */
  lemma TotalLikesIsSum(blogs: seq<Blog>)
    ensures TotalLikes(blogs) == SumLikes(blogs)
    ensures blogs == [] ==> TotalLikes(blogs) == 0
  {
    ReduceLikesIsSum(0, blogs);
  }

  lemma {:induction false} SumLikesAppend(a: seq<Blog>, b: seq<Blog>)
    ensures SumLikes(a + b) == SumLikes(a) + SumLikes(b)
  {
    if a != [] {
      assert (a + b)[1..] == a[1..] + b;
      SumLikesAppend(a[1..], b);
    } else {
      assert a + b == b;
    }
  }

  /** totalLikes distributes over concatenation. */
  lemma TotalLikesAppend(a: seq<Blog>, b: seq<Blog>)
    ensures TotalLikes(a + b) == TotalLikes(a) + TotalLikes(b)
  {
    TotalLikesIsSum(a);
    TotalLikesIsSum(b);
    TotalLikesIsSum(a + b);
    SumLikesAppend(a, b);
  }

  // -------------------------------------------------------------- favoriteBlog

  /** Index `k` holds the first blog with the most likes. */
  predicate IsFirstMax(blogs: seq<Blog>, k: int) {
    && 0 <= k < |blogs|
    && (forall i :: 0 <= i < |blogs| ==> blogs[i].likes <= blogs[k].likes)
    && (forall j :: 0 <= j < k ==> blogs[j].likes < blogs[k].likes)
  }

  /** The favourite's index as a scan from the left that moves only to a
      blog with strictly more likes. */
  function FavoriteIndex(blogs: seq<Blog>): (k: nat)
    requires |blogs| > 0
    ensures IsFirstMax(blogs, k)
  {
    if |blogs| == 1 then 0
    else
      var k := FavoriteIndex(blogs[..|blogs| - 1]);
      if blogs[|blogs| - 1].likes > blogs[k].likes then |blogs| - 1 else k
  }

  /** Being the first maximum determines the favourite. */
  lemma FirstMaxIsFavorite(blogs: seq<Blog>, k: int)
    requires IsFirstMax(blogs, k)
    ensures FavoriteIndex(blogs) == k
  {
  }

  /** favoriteBlog: start from the first blog and, going through the list,
      replace the favourite by any blog with strictly more likes. With no
      blogs the favourite stays undefined. */
  method FavoriteBlog(blogs: seq<Blog>) returns (favorite: Option<Blog>)
    ensures favorite.None? <==> blogs == []
    ensures blogs != [] ==> favorite == Some(blogs[FavoriteIndex(blogs)])
    ensures favorite.Some? ==> favorite.value in blogs
    ensures favorite.Some? ==> forall b :: b in blogs ==> b.likes <= favorite.value.likes
  {
    favorite := if |blogs| > 0 then Some(blogs[0]) else None;
    for i := 0 to |blogs|
      invariant |blogs| > 0 ==> favorite.Some?
      invariant i == 0 ==> favorite == if |blogs| > 0 then Some(blogs[0]) else None
      invariant 0 < i ==> favorite == Some(blogs[FavoriteIndex(blogs[..i])])
    {
      if blogs[i].likes > favorite.value.likes {
        favorite := Some(blogs[i]);
      }
      assert blogs[..i + 1][..i] == blogs[..i];
    }
    if |blogs| > 0 {
      assert blogs[..|blogs|] == blogs;
    }
  }
}
