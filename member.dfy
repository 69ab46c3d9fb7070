/**
 * The composite member string that names one feed item inside a sorted set:
 * `feedId ^ link ^ title`, and how the read path splits it back apart.
 */
module Member {
  import opened Wrappers

  /** The field separator (`separator` in main.go). */
  const Sep: char := '^'

  predicate NoSep(s: string) {
    Sep !in s
  }

  /** Number of separators in `s`. */
  function CountSep(s: string): nat {
    if |s| == 0 then 0 else (if s[0] == Sep then 1 else 0) + CountSep(s[1..])
  }

  /**
   * `strings.Split(s, "^")`: the pieces of `s` between its separators. The
   * empty string gives one empty piece; each separator adds one more piece.
   */
  function Split(s: string): (parts: seq<string>)
    ensures |parts| == CountSep(s) + 1
    ensures forall i :: 0 <= i < |parts| ==> NoSep(parts[i])
  {
    if |s| == 0 then [""]
    else
      var rest := Split(s[1..]);
      if s[0] == Sep then [""] + rest
      else [[s[0]] + rest[0]] + rest[1..]
  }

  /** The pieces glued back together with a separator between neighbours. */
  function Join(parts: seq<string>): string
    requires |parts| >= 1
  {
    if |parts| == 1 then parts[0] else parts[0] + [Sep] + Join(parts[1..])
  }

  /** Join undoes Split, for every string. */
  lemma {:induction false} JoinSplit(s: string)
    ensures Join(Split(s)) == s
  {
    if |s| > 0 {
      JoinSplit(s[1..]);
      var rest := Split(s[1..]);
      if s[0] == Sep {
        assert Split(s) == [""] + rest;
        assert s == [Sep] + s[1..];
      } else {
        assert Split(s) == [[s[0]] + rest[0]] + rest[1..];
        if |rest| == 1 {
          assert s == [s[0]] + s[1..];
        } else {
          assert Join(rest) == rest[0] + [Sep] + Join(rest[1..]);
          assert s == [s[0]] + s[1..];
        }
      }
    }
  }

  /** A string without separators splits into itself alone. */
  lemma {:induction false} SplitNoSep(a: string)
    requires NoSep(a)
    ensures Split(a) == [a]
  {
    if |a| > 0 {
      assert NoSep(a[1..]) by { assert forall i :: 0 <= i < |a| - 1 ==> a[1..][i] == a[i + 1]; }
      SplitNoSep(a[1..]);
      assert a == [a[0]] + a[1..];
    }
  }

  /** The first piece ends at the first separator. */
  lemma {:induction false} SplitAfter(a: string, rest: string)
    requires NoSep(a)
    ensures Split(a + [Sep] + rest) == [a] + Split(rest)
  {
    var s := a + [Sep] + rest;
    if |a| == 0 {
      assert s == [Sep] + rest;
      assert s[1..] == rest;
    } else {
      var a' := a[1..];
      assert NoSep(a') by { assert forall i :: 0 <= i < |a'| ==> a'[i] == a[i + 1]; }
      assert s[1..] == a' + [Sep] + rest;
      SplitAfter(a', rest);
      assert [a[0]] + a' == a;
    }
  }

  /** Split undoes Join when no piece holds a separator. */
  lemma {:induction false} SplitJoin(parts: seq<string>)
    requires |parts| >= 1
    requires forall i :: 0 <= i < |parts| ==> NoSep(parts[i])
    ensures Split(Join(parts)) == parts
  {
    if |parts| == 1 {
      SplitNoSep(parts[0]);
    } else {
      assert forall i :: 0 <= i < |parts| - 1 ==> parts[1..][i] == parts[i + 1];
      SplitJoin(parts[1..]);
      SplitAfter(parts[0], Join(parts[1..]));
      assert parts == [parts[0]] + parts[1..];
    }
  }

  lemma {:induction false} CountSepConcat(a: string, b: string)
    ensures CountSep(a + b) == CountSep(a) + CountSep(b)
  {
    if |a| > 0 {
      assert (a + b)[1..] == a[1..] + b;
      CountSepConcat(a[1..], b);
    } else {
      assert a + b == b;
    }
  }

  /** The three fields a member decodes to. */
  datatype Triple = Triple(feedId: string, link: string, title: string)

  /** The member string an item is stored under (main.go line 166). */
  function Encode(feedId: string, link: string, title: string): string {
    feedId + [Sep] + link + [Sep] + title
  }

  /**
   * Pieces 0, 1 and 2 of the split member (main.go lines 207-210). Fewer
   * than three pieces is where the source indexes out of range; that is None.
   * Pieces after the third are dropped.
   */
  function Decode(member: string): Option<Triple> {
    var parts := Split(member);
    if |parts| < 3 then None else Some(Triple(parts[0], parts[1], parts[2]))
  }

  /** Encoding is joining the three fields. */
  lemma EncodeIsJoin(feedId: string, link: string, title: string)
    ensures Encode(feedId, link, title) == Join([feedId, link, title])
  {
    assert [feedId, link, title][1..] == [link, title];
    assert [link, title][1..] == [title];
    assert Join([link, title]) == link + [Sep] + title;
    assert Join([feedId, link, title]) == feedId + [Sep] + (link + [Sep] + title);
  }

  /** Every encoded member has at least three pieces, so decoding it never fails. */
  lemma EncodeDecodes(feedId: string, link: string, title: string)
    ensures Decode(Encode(feedId, link, title)).Some?
    ensures CountSep(Encode(feedId, link, title)) >= 2
  {
    CountSepConcat(feedId + [Sep] + link + [Sep], title);
    CountSepConcat(feedId + [Sep] + link, [Sep]);
    CountSepConcat(feedId + [Sep], link);
    CountSepConcat(feedId, [Sep]);
    assert CountSep([Sep]) == 1 by { assert [Sep][1..] == []; }
  }

  /** Round trip: with no separator inside any field, decoding recovers the fields. */
  lemma DecodeEncode(feedId: string, link: string, title: string)
    requires NoSep(feedId) && NoSep(link) && NoSep(title)
    ensures Decode(Encode(feedId, link, title)) == Some(Triple(feedId, link, title))
  {
    EncodeIsJoin(feedId, link, title);
    SplitJoin([feedId, link, title]);
  }

  /** The round trip holds exactly when no field holds a separator. */
  lemma DecodeEncodeExact(feedId: string, link: string, title: string)
    ensures Decode(Encode(feedId, link, title)) == Some(Triple(feedId, link, title))
            <==> NoSep(feedId) && NoSep(link) && NoSep(title)
  {
    if NoSep(feedId) && NoSep(link) && NoSep(title) {
      DecodeEncode(feedId, link, title);
    }
  }

  /** On separator-free fields the encoding is injective: a different title is a different member. */
  lemma EncodeInjective(a: Triple, b: Triple)
    requires NoSep(a.feedId) && NoSep(a.link) && NoSep(a.title)
    requires NoSep(b.feedId) && NoSep(b.link) && NoSep(b.title)
    requires Encode(a.feedId, a.link, a.title) == Encode(b.feedId, b.link, b.title)
    ensures a == b
  {
    DecodeEncode(a.feedId, a.link, a.title);
    DecodeEncode(b.feedId, b.link, b.title);
  }

  /** A title holding a separator comes back cut at its first separator. */
  lemma TitleTruncated(feedId: string, link: string, title: string)
    requires NoSep(feedId) && NoSep(link)
    ensures Decode(Encode(feedId, link, title)) == Some(Triple(feedId, link, Split(title)[0]))
  {
    SplitAfter(feedId, link + [Sep] + title);
    SplitAfter(link, title);
    assert Encode(feedId, link, title) == feedId + [Sep] + (link + [Sep] + title);
  }

  /** A link holding a separator loses its tail, which shifts into the title field. */
  lemma LinkShifted(feedId: string, a: string, b: string, title: string)
    requires NoSep(feedId) && NoSep(a)
    ensures Decode(Encode(feedId, a + [Sep] + b, title)) == Some(Triple(feedId, a, Split(b + [Sep] + title)[0]))
  {
    var tail := b + [Sep] + title;
    assert Encode(feedId, a + [Sep] + b, title) == feedId + [Sep] + (a + [Sep] + tail);
    SplitAfter(feedId, a + [Sep] + tail);
    SplitAfter(a, tail);
  }

  /** The parts of `net/url.URL` the feed identity is built from. */
  datatype Url = Url(host: string, path: string)

  /** `feedId = host + path` (main.go line 95). */
  function FeedId(u: Url): string {
    u.host + u.path
  }
}
