/** The YouTube URL pattern `^.*(youtu.be\/|v\/|u\/\w\/|embed\/|watch\?v=|&v=)([^#&?]*).*`
    shared by three copies of `extractYouTubeId`, and the three copies.

    A backtracking match of this pattern first lets `^.*` take the longest
    run of characters other than line terminators and then gives characters
    back one at a time, so the marker group matches at the RIGHTMOST position
    that both has a marker and is preceded only by non-terminators. Each
    marker starts with a different character, so at most one alternative
    can match at a position. Group 2 is then the longest run after the
    marker free of '#', '&' and '?', and the final `.*` always succeeds. */
module YouTube {
  import opened Js

  /** The characters `.` does not match. */
  predicate IsLineTerminator(c: char)
  {
    c == '\n' || c == '\r' || c == '\U{2028}' || c == '\U{2029}'
  }

  predicate NoTerminator(s: string)
  {
    forall k | 0 <= k < |s| :: !IsLineTerminator(s[k])
  }

  /** `s[p..]` starts with `t`. */
  predicate At(s: string, p: nat, t: string)
  {
    p + |t| <= |s| && s[p..p + |t|] == t
  }

  /** The length of the marker alternative that matches at `p`, if any. */
  function MarkerAt(s: string, p: nat): (len: Option<nat>)
    ensures len.Some? ==> p + len.value <= |s| && len.value >= 2
    ensures len.Some? ==> s[p + len.value - 1] == '/' || s[p + len.value - 1] == '='
    ensures len.Some? ==> StartsMarker(s[p], s[p + 1])
  {
    if At(s, p, "youtu") && p + 9 <= |s| && IsCodeUnitWildcard(s[p + 5]) && At(s, p + 6, "be/") then
      assert s[p + 8] == s[p + 6..p + 9][2] && s[p] == s[p..p + 5][0] && s[p + 1] == s[p..p + 5][1];
      Some(9)
    else if At(s, p, "v/") then
      assert s[p + 1] == s[p..p + 2][1] && s[p] == s[p..p + 2][0];
      Some(2)
    else if p + 4 <= |s| && s[p] == 'u' && s[p + 1] == '/' && IsWordChar(s[p + 2]) && s[p + 3] == '/' then Some(4)
    else if At(s, p, "embed/") then
      assert s[p + 5] == s[p..p + 6][5] && s[p] == s[p..p + 6][0] && s[p + 1] == s[p..p + 6][1];
      Some(6)
    else if At(s, p, "watch?v=") then
      assert s[p + 7] == s[p..p + 8][7] && s[p] == s[p..p + 8][0] && s[p + 1] == s[p..p + 8][1];
      Some(8)
    else if At(s, p, "&v=") then
      assert s[p + 2] == s[p..p + 3][2] && s[p] == s[p..p + 3][0] && s[p + 1] == s[p..p + 3][1];
      Some(3)
    else None
  }

  /** What the unescaped `.` in `youtu.be` matches: the pattern has no `u`
      flag, so `.` is one UTF-16 code unit other than a line terminator, and
      a character beyond U+FFFF (two code units) is not matched. */
  predicate IsCodeUnitWildcard(c: char)
  {
    !IsLineTerminator(c) && c as int < 0x1_0000
  }

  /** The first two characters of some marker. */
  predicate StartsMarker(c: char, d: char)
  {
    (c == 'y' && d == 'o') || (c == 'v' && d == '/') || (c == 'u' && d == '/')
    || (c == 'e' && d == 'm') || (c == 'w' && d == 'a') || (c == '&' && d == 'v')
  }

  /** Where the marker group may start: a marker there, and no line
      terminator before it. */
  predicate CanStart(s: string, p: nat)
  {
    p <= |s| && NoTerminator(s[..p]) && MarkerAt(s, p).Some?
  }

  /** The rightmost position at most `p` where the marker group may start. */
  function LastStart(s: string, p: nat): (r: Option<nat>)
    requires p <= |s|
    ensures r.Some? ==> r.value <= p && CanStart(s, r.value)
    ensures forall q: nat | (r.None? || r.value < q) && q <= p :: !CanStart(s, q)
  {
    if CanStart(s, p) then Some(p)
    else if p == 0 then None
    else LastStart(s, p - 1)
  }

  /** The first index at or after `q` holding '#', '&' or '?', else `|s|`. */
  function RunEnd(s: string, q: nat): (e: nat)
    requires q <= |s|
    ensures q <= e <= |s|
    ensures e < |s| ==> s[e] in "#&?"
    ensures forall k | q <= k < e :: s[k] !in "#&?"
    decreases |s| - q
  {
    if q == |s| || s[q] in "#&?" then q else RunEnd(s, q + 1)
  }

  /** `url.match(regExp)`: `None` when there is no match, else group 2. */
  function Group2(s: string): (g: Option<string>)
    ensures g.None? <==> forall q: nat | q <= |s| :: !CanStart(s, q)
    ensures LastStart(s, |s|).Some? ==> g == Some(GroupAfter(s, LastStart(s, |s|).value))
  {
    var p := LastStart(s, |s|);
    if p.None? then None else Some(GroupAfter(s, p.value))
  }

  /** Group 2 for a marker group that starts at `p`. */
  function GroupAfter(s: string, p: nat): (g: string)
    requires CanStart(s, p)
  {
    var q := p + MarkerAt(s, p).value;
    s[q..RunEnd(s, q)]
  }

  /** A match at `p` is the one taken when no later position may start one. */
  lemma MatchIsRightmost(s: string, p: nat)
    requires CanStart(s, p) && forall q: nat | p < q <= |s| :: !CanStart(s, q)
    ensures Group2(s) == Some(GroupAfter(s, p))
  {
    LastStartIs(s, p, |s|);
  }

  lemma {:induction false} LastStartIs(s: string, p: nat, from: nat)
    requires p <= from <= |s| && CanStart(s, p) && forall q: nat | p < q <= from :: !CanStart(s, q)
    ensures LastStart(s, from) == Some(p)
    decreases from
  {
    if from > p {
      LastStartIs(s, p, from - 1);
    }
  }

  /** `[a-zA-Z0-9_-]` */
  predicate IsIdChar(c: char)
  {
    IsWordChar(c) || c == '-'
  }

  /** Id characters are ASCII, one code unit each. */
  lemma IdCharsLength(s: string)
    requires forall k | 0 <= k < |s| :: IsIdChar(s[k])
    ensures Utf16Length(s) == |s|
  {
    BasicPlaneLength(s);
  }

  /** `/^[a-zA-Z0-9_-]{11}$/.test(s)`. */
  predicate IsBareId(s: string)
  {
    |s| == 11 && forall k | 0 <= k < 11 :: IsIdChar(s[k])
  }

  /** The copy in the client validation utilities: a bare id is accepted only
      when the pattern fails, the URL is 11 code units long and it is
      exactly 11 id characters. */
  function ExtractIdUtils(url: Option<string>): (r: Option<string>)
    ensures r.Some? ==> Utf16Length(r.value) == 11
    ensures !Missing(url) && Group2(url.value).None? ==> (r.Some? <==> IsBareId(url.value))
    ensures r.Some? && !Missing(url) && Group2(url.value).None? ==> r.value == url.value
  {
    if Missing(url) then None
    else
      match Group2(url.value)
      case None =>
        if IsBareId(url.value) then IdCharsLength(url.value); assert Utf16Length(url.value) == 11; url
        else None
      case Some(g) => if Utf16Length(g) == 11 then Some(g) else None
  }

  /** The copy in the course details page: the bare-id fallback accepts any
      string of 11 code units. */
  function ExtractIdCourseDetails(url: Option<string>): (r: Option<string>)
    ensures r.Some? ==> Utf16Length(r.value) == 11
    ensures !Missing(url) && Group2(url.value).None? ==> (r.Some? <==> Utf16Length(url.value) == 11)
  {
    if Missing(url) then None
    else
      match Group2(url.value)
      case None => if Utf16Length(url.value) == 11 then url else None
      case Some(g) => if Utf16Length(g) == 11 then Some(g) else None
  }

  /** The copy in the player page: no bare-id fallback. */
  function ExtractIdPlayer(url: Option<string>): (r: Option<string>)
    ensures r.Some? ==> Utf16Length(r.value) == 11
    ensures !Missing(url) && Group2(url.value).None? ==> r.None?
  {
    if Missing(url) then None
    else
      match Group2(url.value)
      case None => None
      case Some(g) => if Utf16Length(g) == 11 then Some(g) else None
  }

  /** On a URL the pattern matches, all three copies agree. */
  lemma CopiesAgreeOnMatches(url: string)
    requires Group2(url).Some?
    ensures ExtractIdUtils(Some(url)) == ExtractIdCourseDetails(Some(url)) == ExtractIdPlayer(Some(url))
  {
  }

  /** Each copy accepts what the stricter one does, with the same id:
      player, then utilities, then course details. */
  lemma CopiesAreNested(url: Option<string>)
    ensures ExtractIdPlayer(url).Some? ==> ExtractIdUtils(url) == ExtractIdPlayer(url)
    ensures ExtractIdUtils(url).Some? ==> ExtractIdCourseDetails(url) == ExtractIdUtils(url)
  {
  }

  /** A marker consists of the listed characters, so a run of id characters
      holds none. */
  lemma NoMarkerInIdChars(s: string, p: nat)
    requires p < |s| && forall k | p <= k < |s| :: IsIdChar(s[k])
    ensures MarkerAt(s, p).None?
  {
  }

  /** A run of id characters holds no '#', '&' or '?'. */
  lemma {:induction false} RunEndOfIdChars(s: string, q: nat)
    requires q <= |s| && forall k | q <= k < |s| :: IsIdChar(s[k])
    ensures RunEnd(s, q) == |s|
    decreases |s| - q
  {
    if q < |s| {
      assert IsIdChar(s[q]);
      RunEndOfIdChars(s, q + 1);
    }
  }

  /** A URL whose last marker is followed by an id gives that id. */
  lemma IdAfterLastMarker(s: string, p: nat, n: nat)
    requires CanStart(s, p) && MarkerAt(s, p) == Some(n) && |s| == p + n + 11
    requires forall q: nat | p < q < p + n :: !StartsMarker(s[q], s[q + 1])
    requires forall k | p + n <= k < |s| :: IsIdChar(s[k])
    ensures ExtractIdUtils(Some(s)) == Some(s[p + n..])
  {
    forall q: nat | p < q <= |s| ensures MarkerAt(s, q).None? || q == |s| {
      if p + n <= q < |s| {
        NoMarkerInIdChars(s, q);
      }
    }
    assert !CanStart(s, |s|);
    MatchIsRightmost(s, p);
    RunEndOfIdChars(s, p + n);
    assert GroupAfter(s, p) == s[p + n..];
    IdCharsLength(s[p + n..]);
  }

  /** `…watch?v=<id>`: the id of a watch URL is found whatever comes before
      the marker, absent line terminators. */
  lemma WatchUrl(prefix: string, id: string)
    requires NoTerminator(prefix) && |id| == 11 && forall k | 0 <= k < 11 :: IsIdChar(id[k])
    ensures ExtractIdUtils(Some(prefix + "watch?v=" + id)) == Some(id)
  {
    var s := prefix + "watch?v=" + id;
    var p := |prefix|;
    assert s[..p] == prefix;
    assert s[p..p + 8] == "watch?v=";
    assert forall q: nat | p <= q < p + 8 :: s[q] == "watch?v="[q - p];
    assert forall k | p + 8 <= k < |s| :: s[k] == id[k - p - 8];
    assert s[p + 8..] == id;
    IdAfterLastMarker(s, p, 8);
  }

  /** `…youtu.be/<id>`: the id of a short link is found the same way. */
  lemma ShortUrl(prefix: string, id: string)
    requires NoTerminator(prefix) && |id| == 11 && forall k | 0 <= k < 11 :: IsIdChar(id[k])
    ensures ExtractIdUtils(Some(prefix + "youtu.be/" + id)) == Some(id)
  {
    var s := prefix + "youtu.be/" + id;
    var p := |prefix|;
    assert s[..p] == prefix;
    assert s[p..p + 5] == "youtu" && s[p + 6..p + 9] == "be/";
    assert forall q: nat | p <= q < p + 9 :: s[q] == "youtu.be/"[q - p];
    assert forall k | p + 9 <= k < |s| :: s[k] == id[k - p - 9];
    assert s[p + 9..] == id;
    IdAfterLastMarker(s, p, 9);
  }

  /** Every marker ends in '/' or '=', so a string with neither has none. */
  lemma NoMarkerWithoutEnders(s: string)
    requires forall k | 0 <= k < |s| :: s[k] != '/' && s[k] != '='
    ensures forall q: nat | q <= |s| :: !CanStart(s, q)
  {
  }

  /** Eleven characters with a space in them: the course details copy takes
      them as an id, the utilities copy does not. */
  lemma BareFallbacksDiffer()
    ensures ExtractIdCourseDetails(Some("hello world")) == Some("hello world")
    ensures ExtractIdUtils(Some("hello world")).None?
  {
    var s := "hello world";
    NoMarkerWithoutEnders(s);
    BasicPlaneLength(s);
    assert !IsIdChar(s[5]);
  }
}
