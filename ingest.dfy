/**
 * The sorted-set keyspace and what one fetch's item list does to it: every
 * dated item is upserted (ZADD) under its composite member, scored by its
 * publication time, into the per-feed set and into the global set.
 */
module Ingest {
  import opened Wrappers
  import opened Member

  /** A parsed feed item; `published` is its Unix time, None when the parser found no date. */
  datatype Item = Item(link: string, title: string, published: Option<int>)

  /** A sorted set: member to score. */
  type ZSet = map<string, int>

  /** The sorted sets of the store, by key. A missing key is an empty set. */
  type Keyspace = map<string, ZSet>

  const Prefix: string := "riv:"

  /** The per-feed collection `riv:feed:<feedUrl>`. */
  function FeedKey(feedUrl: string): string {
    Prefix + "feed:" + feedUrl
  }

  /** The global collection. */
  const AllKey: string := Prefix + "feeds-all"

  /** No feed URL names the global collection. */
  lemma FeedKeyNotAllKey(feedUrl: string)
    ensures FeedKey(feedUrl) != AllKey
  {
    assert FeedKey(feedUrl)[8] == ':';
    assert AllKey[8] == 's';
  }

  function Lookup(ks: Keyspace, key: string): ZSet {
    if key in ks then ks[key] else map[]
  }

  /** ZADD of one member: insert it, or overwrite its score. */
  function ZAdd(ks: Keyspace, key: string, member: string, score: int): Keyspace {
    ks[key := Lookup(ks, key)[member := score]]
  }

  function MemberOf(feedId: string, it: Item): string {
    Encode(feedId, it.link, it.title)
  }

  /** One turn of the ingest loop (main.go lines 160-173). */
  function Step(ks: Keyspace, feedUrl: string, feedId: string, it: Item): Keyspace {
    if it.published.None? then ks
    else
      var m := MemberOf(feedId, it);
      ZAdd(ZAdd(ks, FeedKey(feedUrl), m, it.published.value), AllKey, m, it.published.value)
  }

  /** The keyspace after the ingest loop has run over `items` in order. */
  function IngestAll(ks: Keyspace, feedUrl: string, feedId: string, items: seq<Item>): Keyspace
    decreases |items|
  {
    if items == [] then ks
    else Step(IngestAll(ks, feedUrl, feedId, items[..|items| - 1]), feedUrl, feedId, items[|items| - 1])
  }

  /**
   * Independent reference: the member-to-score upserts an item list amounts
   * to, the later item winning when two share a member.
   */
  function Batch(feedId: string, items: seq<Item>): ZSet
    decreases |items|
  {
    if items == [] then map[]
    else
      var b := Batch(feedId, items[..|items| - 1]);
      var it := items[|items| - 1];
      if it.published.None? then b else b[MemberOf(feedId, it) := it.published.value]
  }

  /** Both collections of the feed overlaid with `b`; nothing at all when `b` is empty. */
  function Override(ks: Keyspace, feedUrl: string, b: ZSet): Keyspace {
    if b == map[] then ks
    else
      ks[FeedKey(feedUrl) := Lookup(ks, FeedKey(feedUrl)) + b][AllKey := Lookup(ks, AllKey) + b]
  }

  /** The dated items, in their order. */
  function Dated(items: seq<Item>): (r: seq<Item>)
    ensures forall i :: 0 <= i < |r| ==> r[i].published.Some?
    decreases |items|
  {
    if items == [] then []
    else
      var it := items[|items| - 1];
      Dated(items[..|items| - 1]) + (if it.published.Some? then [it] else [])
  }

  /** Overwriting one score in an overlay is overwriting it in the overlaid batch. */
  lemma OverlayUpdate(a: ZSet, b: ZSet, m: string, s: int)
    ensures (a + b)[m := s] == a + b[m := s]
  {
  }

  /** One dated item on top of an overlaid batch is the overlay of the extended batch. */
  lemma StepOverride(ks: Keyspace, feedUrl: string, b: ZSet, m: string, s: int)
    ensures ZAdd(ZAdd(Override(ks, feedUrl, b), FeedKey(feedUrl), m, s), AllKey, m, s)
            == Override(ks, feedUrl, b[m := s])
  {
    var fk := FeedKey(feedUrl);
    FeedKeyNotAllKey(feedUrl);
    var prev := Override(ks, feedUrl, b);
    var feedSet := Lookup(ks, fk) + b[m := s];
    var allSet := Lookup(ks, AllKey) + b[m := s];
    assert b[m := s] != map[] by { assert m in b[m := s]; }
    assert Override(ks, feedUrl, b[m := s]) == ks[fk := feedSet][AllKey := allSet];
    if b == map[] {
      assert Lookup(prev, fk)[m := s] == feedSet;
      assert Lookup(prev[fk := feedSet], AllKey)[m := s] == allSet;
    } else {
      OverlayUpdate(Lookup(ks, fk), b, m, s);
      OverlayUpdate(Lookup(ks, AllKey), b, m, s);
      assert Lookup(prev, fk)[m := s] == feedSet;
      assert Lookup(prev[fk := feedSet], AllKey)[m := s] == allSet;
      assert prev[fk := feedSet][AllKey := allSet] == ks[fk := feedSet][AllKey := allSet];
    }
  }

  /** The ingest loop amounts to overlaying the batch on both collections of the feed. */
  lemma {:induction false} IngestAllIsOverride(ks: Keyspace, feedUrl: string, feedId: string, items: seq<Item>)
    ensures IngestAll(ks, feedUrl, feedId, items) == Override(ks, feedUrl, Batch(feedId, items))
    decreases |items|
  {
    if items != [] {
      var init := items[..|items| - 1];
      var it := items[|items| - 1];
      IngestAllIsOverride(ks, feedUrl, feedId, init);
      if it.published.Some? {
        StepOverride(ks, feedUrl, Batch(feedId, init), MemberOf(feedId, it), it.published.value);
      }
    }
  }

  /** Overlaying the same batch twice is overlaying it once. */
  lemma OverrideTwice(ks: Keyspace, feedUrl: string, b: ZSet)
    ensures Override(Override(ks, feedUrl, b), feedUrl, b) == Override(ks, feedUrl, b)
  {
    if b != map[] {
      var fk := FeedKey(feedUrl);
      FeedKeyNotAllKey(feedUrl);
      var once := Override(ks, feedUrl, b);
      var feedSet := Lookup(ks, fk) + b;
      var allSet := Lookup(ks, AllKey) + b;
      assert Lookup(once, fk) == feedSet;
      assert Lookup(once, AllKey) == allSet;
      assert feedSet + b == feedSet;
      assert allSet + b == allSet;
    }
  }

  /** Ingesting the same item list a second time changes nothing. */
  lemma IngestIdempotent(ks: Keyspace, feedUrl: string, feedId: string, items: seq<Item>)
    ensures var once := IngestAll(ks, feedUrl, feedId, items);
            IngestAll(once, feedUrl, feedId, items) == once
  {
    IngestAllIsOverride(ks, feedUrl, feedId, items);
    IngestAllIsOverride(IngestAll(ks, feedUrl, feedId, items), feedUrl, feedId, items);
    OverrideTwice(ks, feedUrl, Batch(feedId, items));
  }

  /** Both collections of the feed receive the same upserts; no other key changes, not even its presence. */
  lemma IngestBothCollections(ks: Keyspace, feedUrl: string, feedId: string, items: seq<Item>)
    ensures var after := IngestAll(ks, feedUrl, feedId, items);
            var b := Batch(feedId, items);
            && Lookup(after, FeedKey(feedUrl)) == Lookup(ks, FeedKey(feedUrl)) + b
            && Lookup(after, AllKey) == Lookup(ks, AllKey) + b
            && forall k :: k != FeedKey(feedUrl) && k != AllKey ==>
                 (k in after <==> k in ks) && Lookup(after, k) == Lookup(ks, k)
  {
    IngestAllIsOverride(ks, feedUrl, feedId, items);
    FeedKeyNotAllKey(feedUrl);
  }

  /** A member is in the batch exactly when some dated item encodes to it. */
  lemma {:induction false} BatchDomain(feedId: string, items: seq<Item>, m: string)
    ensures m in Batch(feedId, items) <==>
            exists i :: 0 <= i < |items| && items[i].published.Some? && MemberOf(feedId, items[i]) == m
    decreases |items|
  {
    if items != [] {
      var init := items[..|items| - 1];
      BatchDomain(feedId, init, m);
      if m in Batch(feedId, items) && m !in Batch(feedId, init) {
        assert items[|items| - 1].published.Some? && MemberOf(feedId, items[|items| - 1]) == m;
      }
      if i :| 0 <= i < |items| && items[i].published.Some? && MemberOf(feedId, items[i]) == m {
        if i < |items| - 1 {
          assert init[i] == items[i];
        }
      }
    }
  }

  /** Last write wins: a member's score is that of the last dated item carrying it. */
  lemma {:induction false} BatchLastWins(feedId: string, items: seq<Item>, i: nat)
    requires i < |items| && items[i].published.Some?
    requires forall j :: i < j < |items| && items[j].published.Some? ==>
               MemberOf(feedId, items[j]) != MemberOf(feedId, items[i])
    ensures MemberOf(feedId, items[i]) in Batch(feedId, items)
    ensures Batch(feedId, items)[MemberOf(feedId, items[i])] == items[i].published.value
    decreases |items|
  {
    var init := items[..|items| - 1];
    if i < |items| - 1 {
      assert init[i] == items[i];
      forall j | i < j < |init| && init[j].published.Some?
        ensures MemberOf(feedId, init[j]) != MemberOf(feedId, init[i])
      {
        assert init[j] == items[j];
      }
      BatchLastWins(feedId, init, i);
    }
  }

  /** Leaving the undated items out changes nothing: they are skipped. */
  lemma {:induction false} BatchIgnoresUndated(feedId: string, items: seq<Item>)
    ensures Batch(feedId, Dated(items)) == Batch(feedId, items)
    decreases |items|
  {
    if items != [] {
      var init := items[..|items| - 1];
      var it := items[|items| - 1];
      BatchIgnoresUndated(feedId, init);
      if it.published.Some? {
        var d := Dated(init) + [it];
        assert Dated(items) == d;
        assert d[..|d| - 1] == Dated(init) && d[|d| - 1] == it;
      } else {
        assert Dated(items) == Dated(init);
      }
    }
  }

  /** An undated item is never added: ingesting only the dated items gives the same keyspace. */
  lemma IngestIgnoresUndated(ks: Keyspace, feedUrl: string, feedId: string, items: seq<Item>)
    ensures IngestAll(ks, feedUrl, feedId, Dated(items)) == IngestAll(ks, feedUrl, feedId, items)
  {
    IngestAllIsOverride(ks, feedUrl, feedId, items);
    IngestAllIsOverride(ks, feedUrl, feedId, Dated(items));
    BatchIgnoresUndated(feedId, items);
  }

  /** A member new to any collection after ingesting comes from a dated item, in one of the feed's two collections. */
  lemma IngestAddsOnlyDated(ks: Keyspace, feedUrl: string, feedId: string, items: seq<Item>, k: string, m: string)
    requires m in Lookup(IngestAll(ks, feedUrl, feedId, items), k) && m !in Lookup(ks, k)
    ensures k == FeedKey(feedUrl) || k == AllKey
    ensures exists i :: 0 <= i < |items| && items[i].published.Some? && MemberOf(feedId, items[i]) == m
  {
    IngestBothCollections(ks, feedUrl, feedId, items);
    BatchDomain(feedId, items, m);
  }

  /** A first fetch of one dated item leaves exactly that member, under its score, in both collections. */
  lemma FirstFetch(feedUrl: string, feedId: string, link: string, title: string, t: int)
    ensures var m := Encode(feedId, link, title);
            IngestAll(map[], feedUrl, feedId, [Item(link, title, Some(t))])
            == map[FeedKey(feedUrl) := map[m := t], AllKey := map[m := t]]
  {
    var items := [Item(link, title, Some(t))];
    assert items[..0] == [];
    FeedKeyNotAllKey(feedUrl);
  }

  /** Every member of every set decodes into three fields. */
  ghost predicate Decodable(ks: Keyspace) {
    forall k, m :: k in ks && m in ks[k] ==> Decode(m).Some?
  }

  /** Ingesting keeps every stored member decodable. */
  lemma IngestKeepsDecodable(ks: Keyspace, feedUrl: string, feedId: string, items: seq<Item>)
    requires Decodable(ks)
    ensures Decodable(IngestAll(ks, feedUrl, feedId, items))
  {
    var after := IngestAll(ks, feedUrl, feedId, items);
    IngestBothCollections(ks, feedUrl, feedId, items);
    forall k, m | k in after && m in after[k] ensures Decode(m).Some? {
      assert m in Lookup(after, k);
      if m !in Lookup(ks, k) {
        BatchDomain(feedId, items, m);
        var i :| 0 <= i < |items| && items[i].published.Some? && MemberOf(feedId, items[i]) == m;
        EncodeDecodes(feedId, items[i].link, items[i].title);
      }
    }
  }
}
