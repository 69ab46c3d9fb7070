/**
 * The service against an abstract store: the sorted sets, the entity-tag
 * cache hashes and the feed registry, with the operations of main.go as
 * methods that read and update them.
 */
module Rivulet {
  import opened Wrappers
  import opened Member
  import opened Ingest
  import opened Fetch
  import opened Ranking
  import opened ReadView

  /** The cache hash of one feed: its entity tag and when it was stored. */
  datatype CacheEntry = CacheEntry(etag: string, last: int)

  /** The cache hash `riv:cache:<feedUrl>`. */
  function CacheKey(feedUrl: string): string {
    Prefix + "cache:" + feedUrl
  }

  /** HGET of the `etag` field: "" when the hash is missing. */
  function CachedEtag(cache: map<string, CacheEntry>, key: string): string {
    if key in cache then cache[key].etag else ""
  }

  /** The collection the read view shows: the feed's own, or the global one. */
  function QueryKey(domain: Option<string>): string {
    if domain.Some? then FeedKey(domain.value) else AllKey
  }

  class Store {
    /** The sorted sets, by key. */
    var zsets: Keyspace
    /** The cache hashes, by key. */
    var cache: map<string, CacheEntry>
    /** The registry `riv:feeds`: the feed URLs to poll. */
    var feeds: set<string>

    constructor (registry: set<string>)
      ensures zsets == map[] && cache == map[] && feeds == registry
    {
      zsets := map[];
      cache := map[];
      feeds := registry;
    }

    /** Every stored member can be split into its three fields. */
    ghost predicate Decodable()
      reads this
    {
      Ingest.Decodable(zsets)
    }

    /** ZADD: upsert one member with its score into the set at `key`. */
    method ZAdd(key: string, member: string, score: int)
      modifies this
      ensures zsets == Ingest.ZAdd(old(zsets), key, member, score)
      ensures cache == old(cache) && feeds == old(feeds)
    {
      zsets := zsets[key := Lookup(zsets, key)[member := score]];
    }

    /** HSET of the `etag` and `last` fields of a cache hash (main.go line 146). */
    method SetEtag(key: string, etag: string, now: int)
      modifies this
      ensures cache == old(cache)[key := CacheEntry(etag, now)]
      ensures zsets == old(zsets) && feeds == old(feeds)
    {
      cache := cache[key := CacheEntry(etag, now)];
    }

    /** The ingest loop (main.go lines 159-174). */
    method IngestItems(feedUrl: string, feedId: string, items: seq<Item>)
      modifies this
      ensures zsets == IngestAll(old(zsets), feedUrl, feedId, items)
      ensures cache == old(cache) && feeds == old(feeds)
    {
      for i := 0 to |items|
        invariant zsets == IngestAll(old(zsets), feedUrl, feedId, items[..i])
        invariant cache == old(cache) && feeds == old(feeds)
      {
        assert items[..i + 1][..i] == items[..i];
        var item := items[i];
        if item.published.Some? {
          var score := item.published.value;
          var entry := Encode(feedId, item.link, item.title);
          ZAdd(FeedKey(feedUrl), entry, score);
          ZAdd(AllKey, entry, score);
        }
      }
      assert items[..|items|] == items;
    }

    /**
     * One feed's fetch (`parseAndInsert`). `url` is what the URL parser makes
     * of `feedUrl`, `head` and `get` the replies the two requests would get,
     * and `now` the clock when the cache is written.
     */
    method ParseAndInsert(feedUrl: string, url: Option<Url>, head: HeadReply, get: GetReply, now: int)
      returns (res: Outcome)
      modifies this
      ensures var e := Run(url, CachedEtag(old(cache), CacheKey(feedUrl)), head, get);
              && res == e.outcome
              && cache == (if e.etagWrite.Some?
                           then old(cache)[CacheKey(feedUrl) := CacheEntry(e.etagWrite.value, now)]
                           else old(cache))
              && zsets == (if url.Some? then IngestAll(old(zsets), feedUrl, FeedId(url.value), e.ingest)
                           else old(zsets))
      ensures feeds == old(feeds)
      ensures old(Decodable()) ==> Decodable()
    {
      if url.None? {
        return Err(BadUrl);
      }
      var feedId := FeedId(url.value);
      var cacheKey := CacheKey(feedUrl);
      var etag := CachedEtag(cache, cacheKey);
      if |etag| > 0 {
        match head
        case HeadFailed =>
          return Err(HeadError);
        case HeadResponse(status, tag) =>
          if status == StatusNotModified || tag == etag {
            return Ok;
          }
      }
      match get
      case GetFailed =>
        return Err(GetError);
      case GetResponse(status, newEtag, feed) =>
        if status == StatusOK {
          if |newEtag| > 0 {
            SetEtag(cacheKey, newEtag, now);
          }
        } else {
          return Ok;
        }
        match feed
        case None =>
          return Err(ParseError);
        case Some(items) =>
          IngestItems(feedUrl, feedId, items);
          IngestKeepsDecodableIf(old(zsets), feedUrl, feedId, items);
          return Ok;
    }

    /**
     * One polling cycle's gate (`fetchNewFeeds`): false exactly when the
     * registry is empty; otherwise one task per registered URL.
     */
    method FetchNewFeeds() returns (started: bool, tasks: seq<string>)
      ensures started <==> feeds != {}
      ensures forall u :: u in tasks <==> u in feeds
      ensures forall i, j :: 0 <= i < j < |tasks| ==> tasks[i] != tasks[j]
    {
      var list := Members(feeds);
      if |list| == 0 {
        return false, [];
      }
      tasks := [];
      for i := 0 to |list|
        invariant tasks == list[..i]
      {
        tasks := tasks + [list[i]];
      }
      assert list[..|list|] == list;
      return true, tasks;
    }

    /**
     * The read view (`apiHandler`): the ranked entries of the selected
     * collection with score in [0, now], and the posts made of them.
     */
    method ApiHandler(domain: Option<string>, now: int) returns (zslice: seq<ZEntry>, posts: Option<seq<Post>>)
      ensures IsRevRange(Lookup(zsets, QueryKey(domain)), 0, now, PageLimit, zslice)
      ensures PostsFor(zslice, posts)
      ensures Decodable() ==> posts.Some?
    {
      var key: string;
      if domain.Some? {
        key := FeedKey(domain.value);
      } else {
        key := AllKey;
      }
      zslice := RevRangeByScore(Lookup(zsets, key), 0, now, PageLimit);
      posts := BuildPosts(zslice);
      if Decodable() {
        forall i | 0 <= i < |zslice| ensures Decode(zslice[i].member).Some? {
          assert zslice[i].member in Window(Lookup(zsets, key), 0, now);
        }
      }
    }
  }

  lemma IngestKeepsDecodableIf(ks: Keyspace, feedUrl: string, feedId: string, items: seq<Item>)
    ensures Ingest.Decodable(ks) ==> Ingest.Decodable(IngestAll(ks, feedUrl, feedId, items))
  {
    if Ingest.Decodable(ks) {
      IngestKeepsDecodable(ks, feedUrl, feedId, items);
    }
  }

  /** SMEMBERS: the members of a set, each once, in some order. */
  method Members(s: set<string>) returns (list: seq<string>)
    ensures |list| == |s|
    ensures forall u :: u in list <==> u in s
    ensures forall i, j :: 0 <= i < j < |list| ==> list[i] != list[j]
  {
    list := [];
    var rest := s;
    while rest != {}
      invariant rest <= s
      invariant |list| + |rest| == |s|
      invariant forall u :: u in list <==> u in s && u !in rest
      invariant forall i, j :: 0 <= i < j < |list| ==> list[i] != list[j]
      decreases |rest|
    {
      var u :| u in rest;
      list := list + [u];
      rest := rest - {u};
    }
  }
}
