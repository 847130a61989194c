/** Channel-name extraction from a channel URL (`get_channel_name`): the two regular
    expressions `youtube\.com/@([^/]+)` and `youtube\.com/channel/([^/]+)`, searched in
    that order, each for its leftmost match. */
module ChannelName {
  import opened Wrappers
  import opened Text

  const HandlePattern := "youtube.com/@"
  const ChannelPattern := "youtube.com/channel/"

  /** End of the maximal run of non-`/` characters of `s` that starts at `j`
      (what the greedy group `([^/]+)` consumes). */
  function SegmentEnd(s: string, j: nat): (k: nat)
    requires j <= |s|
    ensures j <= k <= |s|
    ensures forall m :: j <= m < k ==> s[m] != '/'
    ensures k == |s| || s[k] == '/'
    decreases |s| - j
  {
    if j == |s| || s[j] == '/' then j else SegmentEnd(s, j + 1)
  }

  function Segment(s: string, j: nat): string
    requires j <= |s|
  {
    s[j..SegmentEnd(s, j)]
  }

  /** The regular expression `pat([^/]+)` matches at index `i`: the literal part is
      there and is followed by at least one character other than `/`. */
  predicate MatchesSegmentAt(s: string, pat: string, i: nat) {
    MatchAt(s, pat, i) && i + |pat| < |s| && s[i + |pat|] != '/'
  }

  /** The leftmost index at or after `i` where the pattern matches, as `re.search` finds it. */
  function LeftmostMatch(s: string, pat: string, i: nat): (r: Option<nat>)
    requires i <= |s|
    ensures r.Some? ==> i <= r.value <= |s| && MatchesSegmentAt(s, pat, r.value)
    ensures r.Some? ==> forall j: nat :: i <= j < r.value ==> !MatchesSegmentAt(s, pat, j)
    ensures r.None? ==> forall j: nat :: i <= j <= |s| ==> !MatchesSegmentAt(s, pat, j)
    decreases |s| - i
  {
    if MatchesSegmentAt(s, pat, i) then Some(i)
    else if i == |s| then None
    else LeftmostMatch(s, pat, i + 1)
  }

  /** `re.search(pat + "([^/]+)", s).group(1)`, or None when there is no match. */
  function Search(s: string, pat: string): (r: Option<string>)
    ensures r.Some? <==> exists j: nat :: j <= |s| && MatchesSegmentAt(s, pat, j)
    ensures r.Some? ==> r.value != [] && '/' !in r.value
    ensures r.Some? ==> exists p: nat :: p <= |s| && MatchesSegmentAt(s, pat, p)
                          && (forall j: nat :: j < p ==> !MatchesSegmentAt(s, pat, j))
                          && r.value == Segment(s, p + |pat|)
  {
    match LeftmostMatch(s, pat, 0)
    case Some(p) => Some(Segment(s, p + |pat|))
    case None => None
  }

  /** The handle form `youtube.com/@<handle>` wins wherever it occurs; the
      `youtube.com/channel/<id>` form is tried only when there is no handle. */
  function GetChannelName(url: string): (r: Option<string>)
    ensures r.Some? ==> r.value != [] && '/' !in r.value
    ensures (exists j: nat :: j <= |url| && MatchesSegmentAt(url, HandlePattern, j))
              ==> r == Search(url, HandlePattern)
    ensures (forall j: nat :: j <= |url| ==> !MatchesSegmentAt(url, HandlePattern, j))
              ==> r == Search(url, ChannelPattern)
    ensures r.None? <==> forall j: nat :: j <= |url| ==>
              !MatchesSegmentAt(url, HandlePattern, j) && !MatchesSegmentAt(url, ChannelPattern, j)
  {
    match Search(url, HandlePattern)
    case Some(handle) => Some(handle)
    case None => Search(url, ChannelPattern)
  }

  /** A handle URL with a trailing sub-path yields just the handle. */
  lemma HandleExample()
    ensures GetChannelName("youtube.com/@ab/x") == Some("ab")
  {
    var url := "youtube.com/@ab/x";
    assert MatchesSegmentAt(url, HandlePattern, 0) by {
      assert url[0..|HandlePattern|] == HandlePattern;
    }
    assert SegmentEnd(url, 13) == 15;
    assert url[13..15] == "ab";
  }
}
