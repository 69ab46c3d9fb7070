/**
 * The posts the read path renders, built from the ranked entries by
 * splitting each member back into feed identity, link and title.
 */
module ReadView {
  import opened Wrappers
  import opened Member
  import opened Ranking

  /** The page size of the read view (`lim` in main.go). */
  const PageLimit: nat := 128

  /** A rendered post; `pubdate` is the score in Unix seconds (its text form is not modelled). */
  datatype Post = Post(id: string, title: string, link: string, pubdate: int, domain: string, feedLink: string, clap: bool)

  /** The post for one decoded entry (main.go line 212). */
  function PostOf(t: Triple, score: int): Post {
    Post(t.link, t.title, t.link, score, t.feedId, t.feedId, false)
  }

  /**
   * `posts` is what the loop makes of `zslice`: present exactly when every
   * member splits into at least three pieces (otherwise the source indexes
   * out of range), and then one post per entry, in the same order.
   */
  ghost predicate PostsFor(zslice: seq<ZEntry>, posts: Option<seq<Post>>) {
    && (posts.Some? <==> forall i :: 0 <= i < |zslice| ==> Decode(zslice[i].member).Some?)
    && (posts.Some? ==>
          && |posts.value| == |zslice|
          && forall i :: 0 <= i < |zslice| ==>
               Decode(zslice[i].member).Some? && posts.value[i] == PostOf(Decode(zslice[i].member).value, zslice[i].score))
  }

  /** The posts loop (main.go lines 205-213). */
  method BuildPosts(zslice: seq<ZEntry>) returns (posts: Option<seq<Post>>)
    ensures PostsFor(zslice, posts)
  {
    var acc: seq<Post> := [];
    for i := 0 to |zslice|
      invariant |acc| == i
      invariant forall j :: 0 <= j < i ==>
                  Decode(zslice[j].member).Some? && acc[j] == PostOf(Decode(zslice[j].member).value, zslice[j].score)
    {
      var parts := Split(zslice[i].member);
      if |parts| < 3 {
        return None;
      }
      var domain, link, title := parts[0], parts[1], parts[2];
      acc := acc + [Post(link, title, link, zslice[i].score, domain, domain, false)];
    }
    return Some(acc);
  }

  /** Posts keep the order of the entries: newest first when the entries are. */
  lemma PostsKeepOrder(zslice: seq<ZEntry>, posts: seq<Post>)
    requires PostsFor(zslice, Some(posts)) && NonIncreasing(zslice)
    ensures forall i, j :: 0 <= i < j < |posts| ==> posts[i].pubdate >= posts[j].pubdate
  {
    forall i, j | 0 <= i < j < |posts| ensures posts[i].pubdate >= posts[j].pubdate {
      assert posts[i].pubdate == zslice[i].score && posts[j].pubdate == zslice[j].score;
    }
  }

  /** An entry stored under a separator-free encoding shows its original feed, link and title. */
  lemma PostShowsEncodedFields(zslice: seq<ZEntry>, posts: seq<Post>, i: nat, feedId: string, link: string, title: string)
    requires PostsFor(zslice, Some(posts)) && i < |zslice|
    requires zslice[i].member == Encode(feedId, link, title)
    requires NoSep(feedId) && NoSep(link) && NoSep(title)
    ensures posts[i] == Post(link, title, link, zslice[i].score, feedId, feedId, false)
  {
    DecodeEncode(feedId, link, title);
  }
}
