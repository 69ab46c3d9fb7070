# Rivulet feed poller: a Dafny model of its core

Rivulet polls a registry of feed URLs and stores every dated item in two
Redis sorted sets: the per-feed collection `riv:feed:<feedUrl>` and the
global collection `riv:feeds-all`. An item is stored under the composite
member `feedId ^ link ^ title` (with `feedId = host + path`), scored by its
publication time in Unix seconds. Fetches are conditional:
when an entity tag is cached in the hash `riv:cache:<feedUrl>`, a HEAD with
`If-None-Match` comes first (section 13.1.2 of RFC 9110), and a 304 Not
Modified (section 15.4.5 of RFC 9110) or an echoed tag skips the GET. A read view
returns at most the 128 most recent entries of one collection with score in
`[0, now]`, and splits each member back into its three fields.

The model replaces Redis with an abstract store and the network with
abstract replies:

- `member.dfy` (`Member`): `strings.Split` on `^`, its inverse `Join`, the
  member encoding and its decoding, and the round trip with its exact side
  condition. No field may contain `^`.
- `ingest.dfy` (`Ingest`): the keyspace is a map from key to sorted set, and a
  sorted set is a map from member to score. A missing key is an empty set. `IngestAll` is the ingest
  loop as a fold. `Batch` is an independent reference: the member-to-score
  upserts an item list amounts to, where the last write wins. The lemmas
  connect the two and derive idempotence, last-write-wins, the skipping of
  undated items, and "no other key changes".
- `fetch.dfy` (`Fetch`): the HEAD/GET decision. `Run` is a pure function from
  the cached tag and the replies to an `Effect`: the returned error, the cache
  write, and the items to ingest.
- `ranking.dfy` (`Ranking`): the ranked window query. `IsRevRange` is its
  specification (a top-k condition). `RevRangeByScore` is a selection loop
  proved against it.
- `readview.dfy` (`ReadView`): the loop that builds posts from the ranked
  entries.
- `store.dfy` (`Rivulet`): class `Store` with fields `zsets`, `cache` and
  `feeds`. Its methods `ParseAndInsert`, `IngestItems`, `FetchNewFeeds` and
  `ApiHandler` follow the Go code branch by branch. Their postconditions tie
  the new state to `Run` and `IngestAll`.

What main.go does, in points a reader might not expect:

- There is no age cutoff and no trimming of the global collection.
- The read window is closed: `[0, now]`.
- A non-200 GET returns no error.
- Decoding splits on every `^` and keeps pieces 0 to 2, so a title holding
  `^` is cut at its first `^`.
- A HEAD whose Etag equals the cached tag skips the GET whatever its status.
- The new entity tag is cached before the body is parsed, so a body that
  fails to parse still replaces the cached tag
  (`Fetch.ParseFailureStillCaches`). A later HEAD that echoes the tag then
  skips that version (`Fetch.EchoedTagSkips`).

## Model

| member | source | states |
|---|---|---|
| `Member.Split` | main.go:207 | The pieces number one more than the separators, and no piece holds a separator. |
| `Member.JoinSplit` | main.go:207 | Joining the pieces of any string with `^` gives the string back. |
| `Member.SplitJoin` | main.go:207 | Splitting a join of separator-free pieces gives exactly those pieces. |
| `Member.EncodeDecodes` | main.go:207-210 | An encoded member (line 166) holds at least two separators, so indexing pieces 0 to 2 never goes out of range. |
| `Member.DecodeEncode` | main.go:207-210 | Round trip: if feedId, link and title hold no `^`, then decoding `feedId^link^title` (line 166) gives exactly those three fields. |
| `Member.DecodeEncodeExact` | main.go:207-210 | The round trip holds if and only if none of the three fields holds `^`. |
| `Member.EncodeInjective` | main.go:166 | On separator-free fields, distinct triples give distinct members, so a changed title is a new member. |
| `Member.TitleTruncated` | main.go:207-210 | With separator-free feedId and link, the decoded title is the title cut at its first `^`. |
| `Member.LinkShifted` | main.go:207-210 | With separator-free feedId and link head `a`, a link `a^b` decodes as `a`, and its tail `b` shifts into the title field, cut at its first `^`. |
| `Ingest.FeedKeyNotAllKey` | main.go:170-171 | No feed URL's per-feed key equals the global key. |
| `Ingest.IngestAllIsOverride` | main.go:159-174 | The ingest loop's keyspace equals both feed collections overlaid with `Batch`, and nothing changes when the batch is empty. |
| `Ingest.IngestBothCollections` | main.go:165-173 | Both collections receive the same members with the same scores; every other key keeps its contents and its presence. |
| `Ingest.IngestIdempotent` | main.go:167-171 | Ingesting the same item list twice gives the same keyspace as ingesting it once. |
| `Ingest.BatchLastWins` | main.go:167-171 | A member's stored score is that of the last dated item carrying it. |
| `Ingest.BatchDomain` | main.go:160-166 | A member is upserted exactly when some dated item encodes to it. |
| `Ingest.BatchIgnoresUndated` | main.go:160-164 | The batch of the dated items alone equals the batch of all items. |
| `Ingest.IngestIgnoresUndated` | main.go:160-164 | Ingesting only the dated items gives the same keyspace: undated items are never added. |
| `Ingest.IngestAddsOnlyDated` | main.go:160-173 | A member new to any key after ingesting is in one of the feed's two collections and comes from a dated item. |
| `Ingest.FirstFetch` | main.go:159-174 | One dated item ingested into an empty store leaves exactly its member, under its score, in both collections. |
| `Ingest.IngestKeepsDecodable` | main.go:166-173 | If every stored member decodes before ingesting, every stored member decodes afterwards. |
| `Fetch.Revalidate` | main.go:115-127 | An empty cached tag proceeds to GET. A failed HEAD aborts. Otherwise the GET is skipped if and only if the status is 304 or the Etag equals the cached tag. |
| `Fetch.RunExact` | main.go:115-159 | States the returned error of every path: BadUrl, HeadError, Ok on a skip, GetError, Ok on a non-200, ParseError, Ok. The ingested items are exactly the parsed items of a 200 after revalidation, and nothing otherwise. |
| `Fetch.NoEtagAlwaysGets` | main.go:115-134 | With no cached tag the HEAD reply is never consulted and the effect is that of the GET alone. |
| `Fetch.HeadFailureAborts` | main.go:119-122 | With a cached tag, a failed HEAD returns an error with no cache write and nothing ingested. |
| `Fetch.NotModifiedSkips` | main.go:123-126 | With a cached tag, a 304 or an equal Etag returns without error, with no cache write and nothing ingested. |
| `Fetch.CacheWriteExact` | main.go:142-147 | The cache is written if and only if the GET was made and returned 200 with a non-empty Etag. The value written is that Etag. |
| `Fetch.Non200ChangesNothing` | main.go:148-151 | A non-200 GET writes no cache, ingests nothing and reports no GET or parse error. |
| `Fetch.IngestOnlyParsed200` | main.go:142-159 | Items are ingested only after a GET that returned 200 and whose body parsed, and they are exactly the parsed items. |
| `Fetch.ParseFailureStillCaches` | main.go:142-157 | A 200 with a tag and an unparsable body writes the tag, ingests nothing and returns the parse error. |
| `Fetch.EchoedTagSkips` | main.go:115-126 | After a fetch that wrote a tag, a later HEAD echoing that tag skips with no change. |
| `Ranking.RevRangeByScore` | main.go:203 | Returns stored members with their scores, all in the window and each at most once, in non-increasing score order. It returns min(limit, window size) of them, and no omitted member outranks a returned one. |
| `Ranking.RevRangeBounds` | main.go:189-203 | A correct answer has at most `limit` entries, all with scores inside the window. |
| `ReadView.BuildPosts` | main.go:205-213 | Posts are produced if and only if every member splits into at least three pieces. Then there is one post per entry, in the same order, carrying its decoded fields and score. |
| `ReadView.PostsKeepOrder` | main.go:205-213 | Posts built from entries in non-increasing score order have non-increasing dates. |
| `ReadView.PostShowsEncodedFields` | main.go:207-212 | An entry stored under a separator-free encoding shows its original feed, link and title. |
| `Rivulet.Store.ZAdd` | main.go:170 | ZADD upserts one member's score in one set and changes nothing else. |
| `Rivulet.Store.SetEtag` | main.go:146 | HSET replaces the feed's cache entry with the new tag and time and changes nothing else. |
| `Rivulet.Store.IngestItems` | main.go:159-174 | The loop leaves the keyspace equal to `IngestAll` of the old keyspace and leaves the cache and registry alone. |
| `Rivulet.Store.ParseAndInsert` | main.go:89-176 | Returns `Run`'s outcome. It writes the cache only as `Run` says, ingests `Run`'s items under the URL's feedId, leaves the registry alone and keeps every stored member decodable. |
| `Rivulet.Store.FetchNewFeeds` | main.go:57-87 | Returns false if and only if the registry is empty. Otherwise it schedules exactly one task per registered URL. |
| `Rivulet.Store.ApiHandler` | main.go:180-213 | Reads `riv:feed:<domain>` when a domain is given and `riv:feeds-all` otherwise. It returns a correct ranked answer for `[0, now]` with limit 128 and the posts made of it, and never fails on a store whose members all decode. |
| `Rivulet.Members` | main.go:65 | SMEMBERS lists every registered URL exactly once. |

## Left out

- The Redis client, its connection set-up and its wire calls. Only their sorted-set and hash semantics are modelled. Sorted sets and hashes are kept in separate maps; their key prefixes differ, so they cannot collide.
- The errors the source ignores, from SMEMBERS, HGET, ZADD, HSET and the range query. The model's store operations always succeed. A failed HGET in the source reads as an empty tag, which leads to an unconditional GET; the model's cache read cannot fail.
- The errors of `http.NewRequest` (main.go lines 116 and 132), which the source discards.
- All logging.
- The pipelining of the two ZADDs. They are modelled as two successive upserts.
- HTTP request construction, the User-Agent header, the 15-second timeout and the client itself. A timeout is an abstract `HeadFailed` or `GetFailed` reply.
- The feed parser. Its result is an input, `None` on a parse failure.
- `url.Parse`. Its result is an input, `None` on a parse error.
- Goroutines, the wait group, the random jitter before each task, all sleeps and the endless loop in `main`. Concurrency, timing and randomness are not modelled. `FetchNewFeeds` returns the tasks it would start rather than running them.
- HTML templating, response headers and the text form of `Post.Pubdate`. The model keeps the score in seconds.
- The conversion of the score to `float64`. Scores are integer seconds.
- Age cutoffs and trimming of the global collection. main.go does neither.
- Ranking.RevRangeByScore: the order among entries with equal scores is left unspecified. Redis orders them by reverse lexicographic member order.
- ReadView.BuildPosts: an out-of-range index in the source is a run-time panic, which ends the request. The model returns `None` instead.
