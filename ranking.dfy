/**
 * The ranked read of a sorted set: members whose score lies in a closed
 * window, highest score first, at most a given number of them
 * (ZREVRANGEBYSCORE with LIMIT 0 count).
 */
module Ranking {
  import opened Ingest

  /** One returned entry: a member and its score. */
  datatype ZEntry = ZEntry(member: string, score: int)

  /** The members whose score is within [lo, hi]. */
  function Window(z: ZSet, lo: int, hi: int): set<string> {
    set m | m in z && lo <= z[m] <= hi
  }

  function Min(a: int, b: int): int {
    if a <= b then a else b
  }

  predicate Listed(r: seq<ZEntry>, m: string) {
    exists i :: 0 <= i < |r| && r[i].member == m
  }

  predicate NonIncreasing(r: seq<ZEntry>) {
    forall i, j :: 0 <= i < j < |r| ==> r[i].score >= r[j].score
  }

  /**
   * `r` is a correct answer to the ranked query: stored members with their
   * stored scores, all in the window, none twice, highest first, as many as
   * the limit allows, and no member left out that outranks one returned.
   */
  predicate IsRevRange(z: ZSet, lo: int, hi: int, limit: nat, r: seq<ZEntry>) {
    && (forall i :: 0 <= i < |r| ==> r[i].member in Window(z, lo, hi) && z[r[i].member] == r[i].score)
    && (forall i, j :: 0 <= i < j < |r| ==> r[i].member != r[j].member)
    && NonIncreasing(r)
    && |r| == Min(limit, |Window(z, lo, hi)|)
    && (forall m :: m in Window(z, lo, hi) && !Listed(r, m) ==>
          forall i :: 0 <= i < |r| ==> z[m] <= r[i].score)
  }

  /** A finite non-empty set of members has one of maximal score. */
  lemma {:induction false} HasMax(z: ZSet, s: set<string>)
    requires s != {} && s <= z.Keys
    ensures exists m :: m in s && forall m' :: m' in s ==> z[m'] <= z[m]
    decreases s
  {
    var x :| x in s;
    if s != {x} {
      HasMax(z, s - {x});
      var y :| y in s - {x} && forall m' :: m' in s - {x} ==> z[m'] <= z[y];
      if z[x] > z[y] {
        assert forall m' :: m' in s ==> z[m'] <= z[x];
      } else {
        assert forall m' :: m' in s ==> z[m'] <= z[y];
      }
    }
  }

  /**
   * Midway through the query: `r` holds the best members of `window` in
   * order, `rest` the members not yet returned, none better than any in `r`.
   */
  ghost predicate Progress(z: ZSet, window: set<string>, rest: set<string>, r: seq<ZEntry>) {
    && window <= z.Keys
    && rest <= window
    && |r| + |rest| == |window|
    && (forall i :: 0 <= i < |r| ==> r[i].member in window && r[i].member !in rest && z[r[i].member] == r[i].score)
    && (forall m :: m in window && m !in rest ==> Listed(r, m))
    && (forall i, j :: 0 <= i < j < |r| ==> r[i].member != r[j].member)
    && NonIncreasing(r)
    && (forall m, i :: m in rest && 0 <= i < |r| ==> z[m] <= r[i].score)
  }

  /** Taking a best remaining member keeps the query's progress. */
  lemma ProgressStep(z: ZSet, window: set<string>, rest: set<string>, r: seq<ZEntry>, m: string)
    requires Progress(z, window, rest, r)
    requires m in rest && forall m' :: m' in rest ==> z[m'] <= z[m]
    ensures Progress(z, window, rest - {m}, r + [ZEntry(m, z[m])])
  {
    var r' := r + [ZEntry(m, z[m])];
    var rest' := rest - {m};
    forall m' | m' in window && m' !in rest' ensures Listed(r', m') {
      if m' == m {
        assert r'[|r|].member == m;
      } else {
        var i :| 0 <= i < |r| && r[i].member == m';
        assert r'[i].member == m';
      }
    }
  }

  /** When the loop stops, its progress is a correct answer. */
  lemma ProgressDone(z: ZSet, lo: int, hi: int, limit: nat, rest: set<string>, r: seq<ZEntry>)
    requires Progress(z, Window(z, lo, hi), rest, r)
    requires |r| <= limit && (|r| == limit || rest == {})
    ensures IsRevRange(z, lo, hi, limit, r)
  {
    forall m | m in Window(z, lo, hi) && !Listed(r, m) ensures m in rest {
    }
  }

  /** The ranked query, by repeatedly taking a highest-scored member not yet returned. */
  method RevRangeByScore(z: ZSet, lo: int, hi: int, limit: nat) returns (r: seq<ZEntry>)
    ensures IsRevRange(z, lo, hi, limit, r)
  {
    var rest := Window(z, lo, hi);
    r := [];
    while |r| < limit && rest != {}
      invariant Progress(z, Window(z, lo, hi), rest, r)
      invariant |r| <= limit
      decreases |rest|
    {
      HasMax(z, rest);
      var m :| m in rest && forall m' :: m' in rest ==> z[m'] <= z[m];
      ProgressStep(z, Window(z, lo, hi), rest, r, m);
      r := r + [ZEntry(m, z[m])];
      rest := rest - {m};
    }
    ProgressDone(z, lo, hi, limit, rest, r);
  }

  /** Every returned score lies in the window, and no more entries than the limit come back. */
  lemma RevRangeBounds(z: ZSet, lo: int, hi: int, limit: nat, r: seq<ZEntry>)
    requires IsRevRange(z, lo, hi, limit, r)
    ensures |r| <= limit
    ensures forall i :: 0 <= i < |r| ==> lo <= r[i].score <= hi
  {
    forall i | 0 <= i < |r| ensures lo <= r[i].score <= hi {
      assert r[i].member in Window(z, lo, hi);
    }
  }
}
