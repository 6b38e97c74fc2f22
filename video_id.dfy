/**
  The video id extractor `extract_youtube_id`: a two-stage search over the
  URL. Stage one is the pattern `(?:v=|youtu\.be/|/v/|/embed/)([0-9A-Za-z_-]{11})`,
  stage two the bare pattern `([0-9A-Za-z_-]{11})`; each is searched
  leftmost-first, as `re.search` does, and stage two runs only when stage
  one finds nothing.
 */
module VideoId {
  import opened Wrappers
  import opened Ascii

  /** Every YouTube video id is exactly this long. */
  const IdLength: nat := 11

  /** The four URL prefixes, in the order the pattern's alternation lists them. */
  const Prefixes: seq<string> := ["v=", "youtu.be/", "/v/", "/embed/"]

  /** The character class `[0-9A-Za-z_-]`. */
  predicate IsIdChar(c: char) {
    '0' <= c <= '9' || 'A' <= c <= 'Z' || 'a' <= c <= 'z' || c == '_' || c == '-'
  }

  predicate IsVideoId(s: string) {
    |s| == IdLength && forall k :: 0 <= k < |s| ==> IsIdChar(s[k])
  }

  /** `[0-9A-Za-z_-]{11}` matches at position `j` of `s`. */
  predicate WindowAt(s: string, j: int) {
    0 <= j && j + IdLength <= |s| && forall k :: j <= k < j + IdLength ==> IsIdChar(s[k])
  }

  /** The literal prefix `p` starts at position `i` and an id window follows it. */
  predicate PrefixedAt(s: string, i: int, p: string) {
    0 <= i && i + |p| <= |s| && s[i..i + |p|] == p && WindowAt(s, i + |p|)
  }

  /** The stage-one pattern matches at position `i` with some alternative. */
  predicate MatchAt(s: string, i: int) {
    PrefixedAt(s, i, Prefixes[0]) || PrefixedAt(s, i, Prefixes[1]) ||
    PrefixedAt(s, i, Prefixes[2]) || PrefixedAt(s, i, Prefixes[3])
  }

  /**
    Where the captured group starts when the stage-one pattern matches at `i`:
    the alternatives are tried in the order written.
   */
  function CaptureStart(s: string, i: nat): (j: nat)
    requires MatchAt(s, i)
    ensures WindowAt(s, j)
    ensures exists k :: 0 <= k < |Prefixes| && PrefixedAt(s, i, Prefixes[k]) && j == i + |Prefixes[k]|
  {
    if PrefixedAt(s, i, Prefixes[0]) then i + |Prefixes[0]|
    else if PrefixedAt(s, i, Prefixes[1]) then i + |Prefixes[1]|
    else if PrefixedAt(s, i, Prefixes[2]) then i + |Prefixes[2]|
    else i + |Prefixes[3]|
  }

  /** Leftmost position at or after `from` where the stage-one pattern matches. */
  function LeftmostMatch(s: string, from: nat): (r: Option<nat>)
    decreases |s| - from
    ensures r.Some? ==> from <= r.value && MatchAt(s, r.value)
    ensures r.Some? ==> forall j :: from <= j < r.value ==> !MatchAt(s, j)
    ensures r.None? ==> forall j :: from <= j ==> !MatchAt(s, j)
  {
    if |s| <= from then None
    else if MatchAt(s, from) then Some(from)
    else LeftmostMatch(s, from + 1)
  }

  /** Leftmost position at or after `from` where an 11-character id window starts. */
  function LeftmostWindow(s: string, from: nat): (r: Option<nat>)
    decreases |s| - from
    ensures r.Some? ==> from <= r.value && WindowAt(s, r.value)
    ensures r.Some? ==> forall j :: from <= j < r.value ==> !WindowAt(s, j)
    ensures r.None? ==> forall j :: from <= j ==> !WindowAt(s, j)
  {
    if |s| <= from then None
    else if WindowAt(s, from) then Some(from)
    else LeftmostWindow(s, from + 1)
  }

  /** `extract_youtube_id`: any id it returns is a well-formed id taken from the URL. */
  function ExtractYoutubeId(url: string): (r: Option<string>)
    ensures r.Some? ==> IsVideoId(r.value) && IsSubstring(r.value, url)
  {
    if |url| == 0 then None
    else match LeftmostMatch(url, 0)
      case Some(i) =>
        var j := CaptureStart(url, i);
        SliceIsSubstring(url, j, IdLength);
        Some(url[j..j + IdLength])
      case None =>
        match LeftmostWindow(url, 0)
        case Some(j) =>
          SliceIsSubstring(url, j, IdLength);
          Some(url[j..j + IdLength])
        case None => None
  }

  /** At one position at most one of the four prefixes can be followed by an id. */
  lemma PrefixesExclusive(s: string, i: nat, k1: nat, k2: nat)
    requires k1 < |Prefixes| && k2 < |Prefixes|
    requires PrefixedAt(s, i, Prefixes[k1]) && PrefixedAt(s, i, Prefixes[k2])
    ensures k1 == k2
  {
    var p1, p2 := Prefixes[k1], Prefixes[k2];
    assert s[i] == p1[0] && s[i] == p2[0] by {
      assert s[i..i + |p1|][0] == p1[0];
      assert s[i..i + |p2|][0] == p2[0];
    }
    assert s[i + 1] == p1[1] && s[i + 1] == p2[1] by {
      assert s[i..i + |p1|][1] == p1[1];
      assert s[i..i + |p2|][1] == p2[1];
    }
  }

  /**
    Prefix priority: when a prefix followed by an id starts at `i` and none
    starts earlier, the result is the 11 characters after that prefix, whatever
    bare 11-character runs come before it.
   */
  lemma ExtractPrefixed(url: string, i: nat, k: nat)
    requires k < |Prefixes|
    requires PrefixedAt(url, i, Prefixes[k])
    requires forall j :: 0 <= j < i ==> !MatchAt(url, j)
    ensures ExtractYoutubeId(url) == Some(url[i + |Prefixes[k]|..i + |Prefixes[k]| + IdLength])
  {
    assert MatchAt(url, i) by {
      assert k == 0 || k == 1 || k == 2 || k == 3;
    }
    var r := LeftmostMatch(url, 0);
    assert r == Some(i);
    var j := CaptureStart(url, i);
    var k' :| 0 <= k' < |Prefixes| && PrefixedAt(url, i, Prefixes[k']) && j == i + |Prefixes[k']|;
    PrefixesExclusive(url, i, k, k');
  }

  /**
    Fallback: with no prefixed id anywhere, the result is the leftmost window
    of 11 id characters, even when that window lies inside a longer run.
   */
  lemma ExtractFallback(url: string, j: nat)
    requires forall i :: 0 <= i ==> !MatchAt(url, i)
    requires WindowAt(url, j)
    requires forall i :: 0 <= i < j ==> !WindowAt(url, i)
    ensures ExtractYoutubeId(url) == Some(url[j..j + IdLength])
  {
    assert LeftmostMatch(url, 0).None?;
    assert LeftmostWindow(url, 0) == Some(j);
  }

  /** No id exactly when no 11-character window of id characters exists. */
  lemma ExtractNoneIff(url: string)
    ensures ExtractYoutubeId(url).None? <==> forall j :: 0 <= j ==> !WindowAt(url, j)
  {
    if ExtractYoutubeId(url).None? {
      if |url| != 0 {
        assert LeftmostWindow(url, 0).None?;
      }
    } else {
      var id := ExtractYoutubeId(url).value;
      match LeftmostMatch(url, 0)
      case Some(i) =>
        assert WindowAt(url, CaptureStart(url, i));
      case None =>
        assert WindowAt(url, LeftmostWindow(url, 0).value);
    }
  }

  /** Every prefix holds a character outside the id alphabet. */
  lemma PrefixHasForeignChar(k: nat)
    requires k < |Prefixes|
    ensures exists m :: 0 <= m < |Prefixes[k]| && !IsIdChar(Prefixes[k][m])
  {
    if k == 0 { assert !IsIdChar(Prefixes[0][1]); }
    else if k == 1 { assert !IsIdChar(Prefixes[1][5]); }
    else if k == 2 { assert !IsIdChar(Prefixes[2][0]); }
    else { assert !IsIdChar(Prefixes[3][0]); }
  }

  /** A string made of id characters contains no prefix. */
  lemma PrefixCharAt(s: string, i: nat, p: string, m: nat)
    requires m < |p|
    ensures PrefixedAt(s, i, p) ==> s[i + m] == p[m]
  {
    if PrefixedAt(s, i, p) {
      assert s[i..i + |p|][m] == s[i + m];
    }
  }

  lemma NoMatchInIdChars(s: string, i: nat)
    requires forall k :: 0 <= k < |s| ==> IsIdChar(s[k])
    ensures !MatchAt(s, i)
  {
    forall k | 0 <= k < |Prefixes|
      ensures !PrefixedAt(s, i, Prefixes[k])
    {
      PrefixHasForeignChar(k);
      var m :| 0 <= m < |Prefixes[k]| && !IsIdChar(Prefixes[k][m]);
      PrefixCharAt(s, i, Prefixes[k], m);
    }
  }

  /** Idempotence: extracting from an id gives back the same id. */
  lemma ExtractIdempotent(id: string)
    requires IsVideoId(id)
    ensures ExtractYoutubeId(id) == Some(id)
  {
    forall i | 0 <= i
      ensures !MatchAt(id, i)
    {
      NoMatchInIdChars(id, i);
    }
    ExtractFallback(id, 0);
    assert id[0..IdLength] == id;
  }

  /** Extraction is stable: a second extraction returns what the first one did. */
  lemma ExtractStable(url: string)
    requires ExtractYoutubeId(url).Some?
    ensures ExtractYoutubeId(ExtractYoutubeId(url).value) == ExtractYoutubeId(url)
  {
    ExtractIdempotent(ExtractYoutubeId(url).value);
  }

  /** The first two characters of a stage-one match. */
  lemma MatchStart(s: string, j: nat)
    requires MatchAt(s, j)
    ensures j + 1 < |s|
    ensures (s[j] == 'v' && s[j + 1] == '=') || (s[j] == 'y' && s[j + 1] == 'o') ||
            (s[j] == '/' && (s[j + 1] == 'v' || s[j + 1] == 'e'))
  {
    PrefixCharAt(s, j, Prefixes[0], 0); PrefixCharAt(s, j, Prefixes[0], 1);
    PrefixCharAt(s, j, Prefixes[1], 0); PrefixCharAt(s, j, Prefixes[1], 1);
    PrefixCharAt(s, j, Prefixes[2], 0); PrefixCharAt(s, j, Prefixes[2], 1);
    PrefixCharAt(s, j, Prefixes[3], 0); PrefixCharAt(s, j, Prefixes[3], 1);
  }

  const ShortLink: string := "https://youtu.be/dQw4w9WgXcQ"

  lemma ShortLinkPrefixed()
    ensures PrefixedAt(ShortLink, 8, Prefixes[1])
    ensures ShortLink[17..28] == "dQw4w9WgXcQ"
  {
    assert ShortLink[8..17] == Prefixes[1];
    assert ShortLink[17..28] == "dQw4w9WgXcQ";
    assert forall k :: 17 <= k < 28 ==> ShortLink[k] == ShortLink[17..28][k - 17];
  }

  lemma ShortLinkSchemeUnmatched(j: nat)
    requires j < 8
    ensures !MatchAt(ShortLink, j)
  {
    if MatchAt(ShortLink, j) {
      MatchStart(ShortLink, j);
    }
  }

  lemma ExampleShortLink()
    ensures ExtractYoutubeId(ShortLink) == Some("dQw4w9WgXcQ")
  {
    forall j | 0 <= j < 8
      ensures !MatchAt(ShortLink, j)
    {
      ShortLinkSchemeUnmatched(j);
    }
    ShortLinkPrefixed();
    ExtractPrefixed(ShortLink, 8, 1);
  }

  lemma ExampleBareId()
    ensures ExtractYoutubeId("dQw4w9WgXcQ") == Some("dQw4w9WgXcQ")
  {
    ExtractIdempotent("dQw4w9WgXcQ");
  }

  lemma ExampleNoId()
    ensures ExtractYoutubeId("hello") == None
    ensures ExtractYoutubeId("") == None
  {
    ExtractNoneIff("hello");
  }
}
