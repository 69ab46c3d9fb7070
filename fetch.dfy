/**
 * The conditional-fetch protocol of one feed: entity-tag revalidation with a
 * HEAD request carrying If-None-Match (section 13.1.2 of RFC 9110), the full
 * GET, and when the cached entity tag is replaced. Network replies are inputs.
 */
module Fetch {
  import opened Wrappers
  import opened Member
  import opened Ingest

  const StatusOK: int := 200
  /** 304 Not Modified (section 15.4.5 of RFC 9110). */
  const StatusNotModified: int := 304

  /** The answer to the HEAD request: a client-side failure, or a status and its Etag header ("" when absent). */
  datatype HeadReply = HeadFailed | HeadResponse(status: int, etag: string)

  /**
   * The answer to the GET request; `feed` is what the feed parser makes of
   * the body, None when it fails.
   */
  datatype GetReply = GetFailed | GetResponse(status: int, etag: string, feed: Option<seq<Item>>)

  /** The errors `parseAndInsert` returns. */
  datatype FetchError = BadUrl | HeadError | GetError | ParseError

  /** The returned `error`: nil, or one of the errors. */
  datatype Outcome = Ok | Err(error: FetchError)

  /** What the cached entity tag leads to before any GET. */
  datatype Plan = Abort | Skip | Proceed

  /** The revalidation (main.go lines 115-127); an empty cached tag means no HEAD at all. */
  function Revalidate(cached: string, head: HeadReply): (p: Plan)
    ensures |cached| == 0 ==> p == Proceed
    ensures |cached| > 0 && head.HeadFailed? ==> p == Abort
    ensures |cached| > 0 && head.HeadResponse? ==>
              (p == Skip <==> head.status == StatusNotModified || head.etag == cached)
    ensures p != Abort <==> |cached| == 0 || head.HeadResponse?
  {
    if |cached| == 0 then Proceed
    else match head
      case HeadFailed => Abort
      case HeadResponse(status, etag) =>
        if status == StatusNotModified || etag == cached then Skip else Proceed
  }

  /**
   * Everything one fetch does: the outcome it returns, the entity tag it
   * writes to the cache (if any), and the items it hands to the ingest loop.
   */
  datatype Effect = Effect(outcome: Outcome, etagWrite: Option<string>, ingest: seq<Item>)

  /** An effect that changes neither the cache nor the store. */
  predicate Inert(e: Effect) {
    e.etagWrite.None? && e.ingest == []
  }

  /** The GET and what follows it (main.go lines 132-157). */
  function AfterGet(get: GetReply): Effect {
    match get
    case GetFailed => Effect(Err(GetError), None, [])
    case GetResponse(status, etag, feed) =>
      if status != StatusOK then Effect(Ok, None, [])
      else
        var write := if |etag| > 0 then Some(etag) else None;
        match feed
        case None => Effect(Err(ParseError), write, [])
        case Some(items) => Effect(Ok, write, items)
  }

  /** The whole of `parseAndInsert` as a decision over its inputs. */
  function Run(url: Option<Url>, cached: string, head: HeadReply, get: GetReply): Effect {
    if url.None? then Effect(Err(BadUrl), None, [])
    else match Revalidate(cached, head)
      case Abort => Effect(Err(HeadError), None, [])
      case Skip => Effect(Ok, None, [])
      case Proceed => AfterGet(get)
  }

  /**
   * `Run` in full: the outcome of every path through `parseAndInsert`, and
   * that the parsed items of a 200 after revalidation, and only they, are ingested.
   */
  lemma RunExact(url: Option<Url>, cached: string, head: HeadReply, get: GetReply)
    ensures Run(url, cached, head, get).ingest ==
            (if url.Some? && Revalidate(cached, head) == Proceed
                && get.GetResponse? && get.status == StatusOK && get.feed.Some?
             then get.feed.value else [])
    ensures Run(url, cached, head, get).outcome ==
            (if url.None? then Err(BadUrl)
             else if Revalidate(cached, head) == Abort then Err(HeadError)
             else if Revalidate(cached, head) == Skip then Ok
             else if get.GetFailed? then Err(GetError)
             else if get.status != StatusOK then Ok
             else if get.feed.None? then Err(ParseError)
             else Ok)
  {
  }

  /** With nothing cached, the HEAD reply is never looked at and the GET decides everything. */
  lemma NoEtagAlwaysGets(url: Url, head: HeadReply, get: GetReply)
    ensures Run(Some(url), "", head, get) == AfterGet(get)
    ensures forall other: HeadReply :: Run(Some(url), "", other, get) == Run(Some(url), "", head, get)
  {
  }

  /** A failed HEAD aborts with an error and touches nothing, whatever the GET would have said. */
  lemma HeadFailureAborts(url: Url, cached: string, get: GetReply)
    requires |cached| > 0
    ensures Run(Some(url), cached, HeadFailed, get) == Effect(Err(HeadError), None, [])
  {
  }

  /** A 304, or an Etag equal to the cached one, ends the fetch successfully and touches nothing. */
  lemma NotModifiedSkips(url: Url, cached: string, status: int, etag: string, get: GetReply)
    requires |cached| > 0
    requires status == StatusNotModified || etag == cached
    ensures Run(Some(url), cached, HeadResponse(status, etag), get) == Effect(Ok, None, [])
  {
  }

  /** The cache is written exactly when the GET was made and returned 200 with a non-empty Etag, and it stores that Etag. */
  lemma CacheWriteExact(url: Option<Url>, cached: string, head: HeadReply, get: GetReply)
    ensures var e := Run(url, cached, head, get);
            e.etagWrite.Some? <==>
              url.Some? && Revalidate(cached, head) == Proceed
              && get.GetResponse? && get.status == StatusOK && |get.etag| > 0
    ensures var e := Run(url, cached, head, get);
            e.etagWrite.Some? ==> e.etagWrite.value == get.etag
  {
  }

  /** A non-200 GET returns before parsing: no cache write and nothing ingested. */
  lemma Non200ChangesNothing(url: Option<Url>, cached: string, head: HeadReply, status: int, etag: string, feed: Option<seq<Item>>)
    requires status != StatusOK
    ensures var e := Run(url, cached, head, GetResponse(status, etag, feed));
            e.outcome == Ok || e.outcome == Err(BadUrl) || e.outcome == Err(HeadError)
    ensures Inert(Run(url, cached, head, GetResponse(status, etag, feed)))
  {
  }

  /** Items reach the store only from a GET that returned 200 and parsed, and then all of them. */
  lemma IngestOnlyParsed200(url: Option<Url>, cached: string, head: HeadReply, get: GetReply)
    ensures var e := Run(url, cached, head, get);
            e.ingest != [] ==>
              && url.Some? && Revalidate(cached, head) == Proceed
              && get.GetResponse? && get.status == StatusOK && get.feed == Some(e.ingest)
              && e.outcome == Ok
  {
  }

  /**
   * The entity tag is cached before the body is parsed, so a parse failure
   * still replaces it, and the fetch reports the parse error.
   */
  lemma ParseFailureStillCaches(url: Url, cached: string, head: HeadReply, etag: string)
    requires Revalidate(cached, head) == Proceed && |etag| > 0
    ensures Run(Some(url), cached, head, GetResponse(StatusOK, etag, None)) == Effect(Err(ParseError), Some(etag), [])
  {
  }

  /**
   * Revalidation after a cache write: once a tag is stored, a later HEAD that
   * echoes it skips the GET, with no store or cache change.
   */
  lemma EchoedTagSkips(url: Url, cached: string, head: HeadReply, get: GetReply, status: int, later: GetReply)
    requires Run(Some(url), cached, head, get).etagWrite.Some?
    ensures var tag := Run(Some(url), cached, head, get).etagWrite.value;
            Run(Some(url), tag, HeadResponse(status, tag), later) == Effect(Ok, None, [])
  {
  }
}
