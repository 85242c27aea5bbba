/**
  Video-identifier extraction. The source applies `re.search` with the fixed
  pattern `(?:v=|\/)([0-9A-Za-z_-]{11}).*` and returns capture group 1.
  This module encodes that one pattern as a direct scan: a match starts at the
  leftmost index holding either the marker "v=" or the marker '/', followed by
  eleven characters of the identifier alphabet. The trailing `.*` may match the
  empty string, so it never rules a match out.
 */
module VideoId {
  import opened Wrappers

  /** Number of characters in a video identifier (`{11}` in the pattern). */
  const IdLength: nat := 11

  /** The character class `[0-9A-Za-z_-]`. */
  predicate IsIdChar(c: char) {
    ('0' <= c <= '9') || ('A' <= c <= 'Z') || ('a' <= c <= 'z') || c == '_' || c == '-'
  }

  /** Every character of `s` is in the identifier alphabet. */
  predicate AllIdChars(s: string) {
    forall j :: 0 <= j < |s| ==> IsIdChar(s[j])
  }

  /** Eleven identifier characters start at index `k` of `url`. */
  predicate IdRunAt(url: string, k: nat) {
    k + IdLength <= |url| && AllIdChars(url[k..k + IdLength])
  }

  /** The first alternative `v=` matches at index `i`. */
  predicate QueryMarkerAt(url: string, i: nat) {
    i + 2 <= |url| && url[i] == 'v' && url[i + 1] == '='
  }

  /** The second alternative `\/` matches at index `i`. */
  predicate SlashMarkerAt(url: string, i: nat) {
    i < |url| && url[i] == '/'
  }

  /**
    Index where the capture group starts when the pattern matches at `i`, or
    None. The alternatives are tried in order, but at most one of them can
    match at a given index since they begin with different characters.
   */
  function GroupStart(url: string, i: nat): (r: Option<nat>)
    ensures r.Some? ==> IdRunAt(url, r.value)
    ensures r.Some? ==> (QueryMarkerAt(url, i) && r.value == i + 2) || (SlashMarkerAt(url, i) && r.value == i + 1)
    ensures r.None? ==> !(QueryMarkerAt(url, i) && IdRunAt(url, i + 2)) && !(SlashMarkerAt(url, i) && IdRunAt(url, i + 1))
  {
    if QueryMarkerAt(url, i) && IdRunAt(url, i + 2) then Some(i + 2)
    else if SlashMarkerAt(url, i) && IdRunAt(url, i + 1) then Some(i + 1)
    else None
  }

  /** The pattern matches with its match starting at index `i`. */
  predicate MatchesAt(url: string, i: nat) {
    GroupStart(url, i).Some?
  }

  /** `i` is the match `re.search` reports: it matches and no earlier index does. */
  predicate IsLeftmostMatch(url: string, i: nat) {
    MatchesAt(url, i) && forall j: nat :: j < i ==> !MatchesAt(url, j)
  }

  /** The capture group of the match starting at `i`. */
  function GroupAt(url: string, i: nat): (id: string)
    requires MatchesAt(url, i)
    ensures |id| == IdLength && AllIdChars(id)
  {
    var g := GroupStart(url, i).value;
    url[g..g + IdLength]
  }

  /**
    Scan for the leftmost match at or after `from`, the way `re.search`
    advances its start position one character at a time.
   */
  function FirstMatchFrom(url: string, from: nat): (r: Option<nat>)
    requires from <= |url|
    ensures r.Some? ==> from <= r.value < |url| && MatchesAt(url, r.value)
    ensures r.Some? ==> forall j: nat :: from <= j < r.value ==> !MatchesAt(url, j)
    ensures r.None? ==> forall j: nat :: from <= j ==> !MatchesAt(url, j)
    decreases |url| - from
  {
    if from == |url| then None
    else if MatchesAt(url, from) then Some(from)
    else FirstMatchFrom(url, from + 1)
  }

  /** Index of the match `re.search` finds in `url`, if any. */
  function MatchIndex(url: string): (r: Option<nat>)
    ensures r.Some? ==> IsLeftmostMatch(url, r.value)
    ensures r.None? ==> forall i: nat :: !MatchesAt(url, i)
  {
    FirstMatchFrom(url, 0)
  }

  /**
    `video_id_match.group(1)`, or None when the search fails: an identifier of
    eleven alphabet characters that immediately follows "v=" or '/' at the
    leftmost index where such an occurrence exists.
   */
  function ExtractVideoId(url: string): (r: Option<string>)
    ensures r.Some? ==> |r.value| == IdLength && AllIdChars(r.value)
    ensures r.Some? <==> exists i: nat :: MatchesAt(url, i)
    ensures r.Some? ==> exists i: nat :: IsLeftmostMatch(url, i) && r.value == GroupAt(url, i)
  {
    match MatchIndex(url)
    case Some(i) => Some(GroupAt(url, i))
    case None => None
  }

  /** The search result is exactly the group of the leftmost match, in both directions. */
  lemma {:induction false} ExtractIsLeftmostGroup(url: string, id: string)
    ensures ExtractVideoId(url) == Some(id) <==> exists i: nat :: IsLeftmostMatch(url, i) && GroupAt(url, i) == id
  {
    if exists i: nat :: IsLeftmostMatch(url, i) && GroupAt(url, i) == id {
      var i: nat :| IsLeftmostMatch(url, i) && GroupAt(url, i) == id;
      var k := MatchIndex(url);
      assert k.Some? by { assert MatchesAt(url, i); }
      LeftmostIsUnique(url, i, k.value);
    }
  }

  /** At most one index is the leftmost match. */
  lemma LeftmostIsUnique(url: string, i: nat, j: nat)
    requires IsLeftmostMatch(url, i) && IsLeftmostMatch(url, j)
    ensures i == j
  {
  }

  /**
    The identifier returned sits right after its marker: either "v=" or '/'
    precedes it, and it is the first eleven characters after that marker, even
    when more alphabet characters follow.
   */
  lemma {:induction false} IdFollowsMarker(url: string)
    requires ExtractVideoId(url).Some?
    ensures exists i: nat ::
      || (i + 2 + IdLength <= |url| && url[i..i + 2] == "v=" && url[i + 2..i + 2 + IdLength] == ExtractVideoId(url).value)
      || (i + 1 + IdLength <= |url| && url[i] == '/' && url[i + 1..i + 1 + IdLength] == ExtractVideoId(url).value)
  {
    var i := MatchIndex(url).value;
    if QueryMarkerAt(url, i) && IdRunAt(url, i + 2) {
      assert url[i..i + 2] == "v=";
    }
  }

  /**
    An identifier preceded by "v=" or '/' is the match `re.search` reports
    exactly when no earlier index starts another such occurrence, and then its
    eleven characters are the ones returned.
   */
  lemma {:induction false} MarkedIdIsReturned(url: string, i: nat)
    requires MatchesAt(url, i)
    ensures (forall j: nat :: j < i ==> !MatchesAt(url, j)) <==> MatchIndex(url) == Some(i)
    ensures (forall j: nat :: j < i ==> !MatchesAt(url, j)) ==> ExtractVideoId(url) == Some(GroupAt(url, i))
  {
    var k := MatchIndex(url);
    assert k.Some?;
    if forall j: nat :: j < i ==> !MatchesAt(url, j) {
      LeftmostIsUnique(url, i, k.value);
    }
  }

  /** The scan passes over characters that cannot start either marker. */
  lemma {:induction false} SkipUnmarked(url: string, from: nat, to: nat)
    requires from <= to <= |url|
    requires '/' !in url[from..to] && 'v' !in url[from..to]
    ensures FirstMatchFrom(url, from) == FirstMatchFrom(url, to)
  {
    if from < to {
      assert url[from..to][to - 1 - from] == url[to - 1];
      assert url[from..to - 1] <= url[from..to];
      SkipUnmarked(url, from, to - 1);
    }
  }

  /**
    Nothing in "https://www.youtube.com" starts a match: the scan of a URL on
    that host goes on at the '/' that begins its path.
   */
  lemma HostStartsNoMatch(url: string, path: string)
    requires url == "https://" + "www.youtube.com" + "/" + path
    ensures FirstMatchFrom(url, 0) == FirstMatchFrom(url, 23)
  {
    assert FirstMatchFrom(url, 6) == FirstMatchFrom(url, 23) by {
      assert !MatchesAt(url, 6) by { assert !IsIdChar(url[7]); }
      assert !MatchesAt(url, 7) by { assert url[8..19][3] == url[11] == '.'; }
      assert url[8..23] == "www.youtube.com";
      SkipUnmarked(url, 8, 23);
    }
    assert url[0..6] == "https:";
    SkipUnmarked(url, 0, 6);
  }

  /** A watch URL "https://" + "www.youtube.com" + "/" + "watch?v=" + id yields the identifier after "v=". */
  lemma WatchUrlYieldsId(url: string, id: string)
    requires |id| == IdLength && AllIdChars(id)
    requires url == "https://" + "www.youtube.com" + "/" + "watch?v=" + id
    ensures ExtractVideoId(url) == Some(id)
  {
    HostStartsNoMatch(url, "watch?v=" + id);
    assert FirstMatchFrom(url, 23) == Some(30) by {
      assert !MatchesAt(url, 23) by { assert url[24..35][5] == url[29] == '?'; }
      assert url[24..30] == "watch?";
      SkipUnmarked(url, 24, 30);
      assert url[32..43] == id;
    }
    assert GroupAt(url, 30) == id by {
      assert GroupStart(url, 30) == Some(32);
      assert url[32..43] == id;
    }
  }

  /** "https://www.youtube.com/watch?v=dQw4w9WgXcQ" yields "dQw4w9WgXcQ". */
  lemma WatchUrlExample(url: string)
    requires url == "https://" + "www.youtube.com" + "/" + "watch?v=dQw4w9WgXcQ"
    ensures ExtractVideoId(url) == Some("dQw4w9WgXcQ")
  {
    WatchUrlYieldsId(url, "dQw4w9WgXcQ");
  }

  /** "https://example.com/no-id-here" has no match: its only path segment is ten characters long. */
  lemma NoIdExample(url: string)
    requires url == "https://" + "example.com" + "/" + "no-id-here"
    ensures ExtractVideoId(url) == None
  {
    assert FirstMatchFrom(url, 8) == None by {
      assert url[20..30] == "no-id-here";
      SkipUnmarked(url, 20, 30);
      assert !MatchesAt(url, 19);
      assert url[8..19] == "example.com" by { assert url[8..] == "example.com" + "/" + "no-id-here"; }
      SkipUnmarked(url, 8, 19);
    }
    assert FirstMatchFrom(url, 6) == None by {
      assert !MatchesAt(url, 6) by { assert !IsIdChar(url[7]); }
      assert !MatchesAt(url, 7) by { assert url[8..19][7] == url[15] == '.'; }
    }
    assert FirstMatchFrom(url, 0) == None by {
      assert url[..6] == "https:";
      SkipUnmarked(url, 0, 6);
    }
  }

  /**
    In "https://www.youtube.com/attribution_link?v=dQw4w9WgXcQ" both the '/'
    before "attribution" and the later "v=" start a match; the leftmost one
    is reported, so "attribution" is returned rather than the query value.
   */
  lemma EarlierPathSegmentWins(url: string)
    requires url == "https://" + "www.youtube.com" + "/" + "attribution" + "_link?" + "v=" + "dQw4w9WgXcQ"
    ensures ExtractVideoId(url) == Some("attribution")
    ensures MatchesAt(url, 41) && GroupAt(url, 41) == "dQw4w9WgXcQ"
  {
    assert ExtractVideoId(url) == Some("attribution") by {
      PathSegmentYieldsId(url, "attribution", "_link?" + "v=" + "dQw4w9WgXcQ");
    }
    assert MatchesAt(url, 41) && GroupAt(url, 41) == "dQw4w9WgXcQ" by {
      var prefix := "https://" + "www.youtube.com" + "/" + "attribution" + "_link?";
      assert url == prefix + "v=" + "dQw4w9WgXcQ" + "";
      QueryParameterMatches(prefix, "dQw4w9WgXcQ", "");
    }
  }

  /** On a youtube.com URL whose path starts with eleven alphabet characters, those are the identifier. */
  lemma PathSegmentYieldsId(url: string, segment: string, rest: string)
    requires |segment| == IdLength && AllIdChars(segment)
    requires url == "https://" + "www.youtube.com" + "/" + segment + rest
    ensures ExtractVideoId(url) == Some(segment)
  {
    HostStartsNoMatch(url, segment + rest);
    assert url[24..35] == segment;
    assert GroupStart(url, 23) == Some(24);
  }

  /**
    A "v=" followed by eleven alphabet characters matches where the "v" stands,
    with those eleven characters as its group, whatever comes after them.
   */
  lemma QueryParameterMatches(prefix: string, id: string, rest: string)
    requires |id| == IdLength && AllIdChars(id)
    ensures MatchesAt(prefix + "v=" + id + rest, |prefix|) && GroupAt(prefix + "v=" + id + rest, |prefix|) == id
  {
    var url := prefix + "v=" + id + rest;
    var i := |prefix|;
    assert url[i..i + 2] == "v=";
    assert url[i + 2..i + 2 + IdLength] == id;
    assert GroupStart(url, i) == Some(i + 2);
  }
}
