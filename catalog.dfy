/** Release catalogue resolution (`get_release_urls`): query `/releases`, fall back to
    `/playlists` filtered by title, drop repeated urls keeping the first, write the
    numbered index and return the urls. */
module Catalog {
  import opened Wrappers
  import opened Text
  import opened YtDlp
  import opened Manifest

  /** `url.rstrip("/") + "/releases"`. */
  function ReleasesUrl(url: string): string {
    TrimRight(url, '/') + "/releases"
  }

  /** `url.rstrip("/") + "/playlists"`. */
  function PlaylistsUrl(url: string): string {
    TrimRight(url, '/') + "/playlists"
  }

  /** Both sub-page urls extend the same base: the channel url up to its trailing
      slashes, which are dropped so that exactly one `/` separates base and page. */
  lemma SubpageUrls(url: string)
    ensures var base := TrimRight(url, '/');
            base <= url && (base == [] || base[|base| - 1] != '/') &&
            (forall i :: |base| <= i < |url| ==> url[i] == '/') &&
            ReleasesUrl(url) == base + "/releases" && PlaylistsUrl(url) == base + "/playlists"
  {
  }

  /** `data and "entries" in data`. */
  predicate HasEntries(data: Option<Metadata>) {
    data.Some? && data.value.entries.Some?
  }

  /** The playlist rule: the title (default `""`) contains `album` or `single` in any
      letter case, and the url is truthy. */
  predicate IsReleasePlaylist(e: Entry) {
    var title := Lower(e.title.GetOr(""));
    (Contains(title, "album") || Contains(title, "single")) && HasUrl(e)
  }

  /** The entries of `es` that satisfy `keep`, in their order. */
  function Filter(keep: Entry -> bool, es: seq<Entry>): (r: seq<Entry>)
    ensures |r| <= |es|
    ensures forall e :: e in r <==> e in es && keep(e)
  {
    if es == [] then []
    else
      var n := |es|;
      Filter(keep, es[..n - 1]) + (if keep(es[n - 1]) then [es[n - 1]] else [])
  }

  /** The loop that appends matching playlists to `entries`. */
  method CollectReleasePlaylists(entries: seq<Entry>) returns (kept: seq<Entry>)
    ensures kept == Filter(IsReleasePlaylist, entries)
  {
    kept := [];
    for i := 0 to |entries|
      invariant kept == Filter(IsReleasePlaylist, entries[..i])
    {
      assert entries[..i + 1][..i] == entries[..i];
      if IsReleasePlaylist(entries[i]) {
        kept := kept + [entries[i]];
      }
    }
    assert entries[..|entries|] == entries;
  }

  /** The entries chosen before deduplication, by the fallback order. */
  function Candidates(releases: Option<Metadata>, playlists: Option<Metadata>): seq<Entry> {
    if HasEntries(releases) then Filter(HasUrl, releases.value.entries.value)
    else if HasEntries(playlists) then Filter(IsReleasePlaylist, playlists.value.entries.value)
    else []
  }

  /** Every candidate has a truthy url; the `/releases` list keeps every such entry, the
      `/playlists` list only those whose title names an album or a single. */
  lemma CandidatesRule(releases: Option<Metadata>, playlists: Option<Metadata>, e: Entry)
    ensures e in Candidates(releases, playlists) ==> HasUrl(e)
    ensures HasEntries(releases) ==>
              (e in Candidates(releases, playlists) <==> e in releases.value.entries.value && HasUrl(e))
    ensures !HasEntries(releases) && HasEntries(playlists) ==>
              (e in Candidates(releases, playlists) <==> e in playlists.value.entries.value && IsReleasePlaylist(e))
    ensures !HasEntries(releases) && !HasEntries(playlists) ==> Candidates(releases, playlists) == []
  {
  }

  /** The set of urls of `es`. */
  function UrlSet(es: seq<Entry>): set<string> {
    set e | e in es :: UrlOf(e)
  }

  predicate DistinctUrls(es: seq<Entry>) {
    forall i, j :: 0 <= i < j < |es| ==> UrlOf(es[i]) != UrlOf(es[j])
  }

  /** The entries of `es` whose url has not been seen earlier in `es`. */
  function Deduplicated(es: seq<Entry>): seq<Entry> {
    if es == [] then []
    else
      var n := |es|;
      var d := Deduplicated(es[..n - 1]);
      if UrlOf(es[n - 1]) in UrlSet(d) then d else d + [es[n - 1]]
  }

  /** The first entry of `es` with url `u`. */
  function FirstWithUrl(es: seq<Entry>, u: string): Option<Entry> {
    if es == [] then None
    else
      var n := |es|;
      var f := FirstWithUrl(es[..n - 1], u);
      if f.Some? then f else if UrlOf(es[n - 1]) == u then Some(es[n - 1]) else None
  }

  /** The index of the first entry of `es` with url `u`, or `|es|` when there is none. */
  function FirstIndex(es: seq<Entry>, u: string): (k: nat)
    ensures k <= |es|
    ensures k < |es| ==> UrlOf(es[k]) == u
    ensures forall i :: 0 <= i < k && i < |es| ==> UrlOf(es[i]) != u
  {
    if es == [] then 0
    else
      var p := es[..|es| - 1];
      var f := FirstIndex(p, u);
      if f < |p| then f else if UrlOf(es[|es| - 1]) == u then |p| else |es|
  }

  lemma FirstIndexFound(es: seq<Entry>, u: string)
    ensures FirstIndex(es, u) < |es| <==> u in UrlSet(es)
  {
  }

  /** `a` is `b` with some elements left out, the rest in their order. */
  ghost predicate IsSubsequence(a: seq<Entry>, b: seq<Entry>) {
    if a == [] then true
    else if b == [] then false
    else
      (a[|a| - 1] == b[|b| - 1] && IsSubsequence(a[..|a| - 1], b[..|b| - 1]))
      || IsSubsequence(a, b[..|b| - 1])
  }

  lemma {:induction false} FirstWithUrlFound(es: seq<Entry>, u: string)
    ensures FirstWithUrl(es, u).Some? <==> u in UrlSet(es)
    ensures FirstWithUrl(es, u).Some? ==> UrlOf(FirstWithUrl(es, u).value) == u
  {
    if es != [] {
      var n := |es|;
      FirstWithUrlFound(es[..n - 1], u);
      assert es == es[..n - 1] + [es[n - 1]];
      assert UrlSet(es) == UrlSet(es[..n - 1]) + {UrlOf(es[n - 1])};
    }
  }

  /** Deduplication keeps exactly one entry per url: no url twice, the same urls as the
      input, the entries in input order, and for each url the first entry that had it. */
  lemma {:induction false} DeduplicatedSpec(es: seq<Entry>)
    ensures DistinctUrls(Deduplicated(es))
    ensures UrlSet(Deduplicated(es)) == UrlSet(es)
    ensures IsSubsequence(Deduplicated(es), es)
    ensures forall e :: e in Deduplicated(es) ==> FirstWithUrl(es, UrlOf(e)) == Some(e)
  {
    if es != [] {
      var n := |es|;
      var prev, last := es[..n - 1], es[n - 1];
      var d := Deduplicated(prev);
      DeduplicatedSpec(prev);
      assert es == prev + [last];
      assert UrlSet(es) == UrlSet(prev) + {UrlOf(last)};
      assert es[..n - 1] == prev;
      if UrlOf(last) in UrlSet(d) {
        assert Deduplicated(es) == d;
        forall e | e in d
          ensures FirstWithUrl(es, UrlOf(e)) == Some(e)
        {
        }
      } else {
        var d' := d + [last];
        assert Deduplicated(es) == d';
        forall i, j | 0 <= i < j < |d'|
          ensures UrlOf(d'[i]) != UrlOf(d'[j])
        {
          if j == |d| {
            assert d'[i] in d;
          }
        }
        assert UrlSet(d') == UrlSet(d) + {UrlOf(last)};
        assert d'[..|d'| - 1] == d;
        FirstWithUrlFound(prev, UrlOf(last));
        forall e | e in d'
          ensures FirstWithUrl(es, UrlOf(e)) == Some(e)
        {
          if e != last {
            assert e in d;
          }
        }
      }
    }
  }

  /** The kept entries come in the order in which their urls are first seen in `es`. */
  lemma {:induction false} DeduplicatedInFirstSeenOrder(es: seq<Entry>)
    ensures var d := Deduplicated(es);
            forall i, j :: 0 <= i < j < |d| ==> FirstIndex(es, UrlOf(d[i])) < FirstIndex(es, UrlOf(d[j]))
  {
    if es != [] {
      var n := |es|;
      var prev, last := es[..n - 1], es[n - 1];
      var d := Deduplicated(prev);
      DeduplicatedInFirstSeenOrder(prev);
      DeduplicatedSpec(prev);
      assert es[..n - 1] == prev;
      forall i | 0 <= i < |d|
        ensures FirstIndex(es, UrlOf(d[i])) == FirstIndex(prev, UrlOf(d[i])) < |prev|
      {
        assert d[i] in d;
        FirstIndexFound(prev, UrlOf(d[i]));
      }
      if UrlOf(last) !in UrlSet(d) {
        FirstIndexFound(prev, UrlOf(last));
        assert FirstIndex(es, UrlOf(last)) == |prev|;
        assert Deduplicated(es) == d + [last];
      }
    }
  }

  /** The `seen`/`filtered` loop of `get_release_urls`. */
  method DedupByUrl(entries: seq<Entry>) returns (filtered: seq<Entry>)
    ensures filtered == Deduplicated(entries)
  {
    var seen: set<string> := {};
    filtered := [];
    for i := 0 to |entries|
      invariant filtered == Deduplicated(entries[..i])
      invariant seen == UrlSet(filtered)
    {
      var e := entries[i];
      assert entries[..i + 1][..i] == entries[..i];
      if UrlOf(e) !in seen {
        filtered := filtered + [e];
        seen := seen + {UrlOf(e)};
      }
    }
    assert entries[..|entries|] == entries;
  }

  function UrlList(es: seq<Entry>): (us: seq<string>)
    ensures |us| == |es|
  {
    seq(|es|, i requires 0 <= i < |es| => UrlOf(es[i]))
  }

  /** The returned url list: no url twice, exactly the urls of the candidates, and none
      empty when every candidate has a truthy url. */
  lemma ReturnedUrls(es: seq<Entry>)
    ensures var urls := UrlList(Deduplicated(es));
            (forall i, j :: 0 <= i < j < |urls| ==> urls[i] != urls[j]) &&
            (forall u :: u in urls <==> u in UrlSet(es)) &&
            ((forall e :: e in es ==> HasUrl(e)) ==> forall u :: u in urls ==> u != "")
  {
    var d := Deduplicated(es);
    var urls := UrlList(d);
    DeduplicatedSpec(es);
    forall u | u in UrlSet(es)
      ensures u in urls
    {
      var e :| e in d && UrlOf(e) == u;
      var k :| 0 <= k < |d| && d[k] == e;
      assert urls[k] == u;
    }
    forall u | u in urls
      ensures u in UrlSet(es) && ((forall e :: e in es ==> HasUrl(e)) ==> u != "")
    {
      var k :| 0 <= k < |urls| && urls[k] == u;
      assert d[k] in d;
      assert UrlOf(d[k]) in UrlSet(d);
      assert d[k] in es by {
        SubsequenceMembers(d, es, d[k]);
      }
    }
  }

  lemma {:induction false} SubsequenceMembers(a: seq<Entry>, b: seq<Entry>, e: Entry)
    requires IsSubsequence(a, b) && e in a
    ensures e in b
  {
    var na, nb := |a|, |b|;
    if a[na - 1] == b[nb - 1] && IsSubsequence(a[..na - 1], b[..nb - 1]) {
      if e != a[na - 1] {
        assert a == a[..na - 1] + [a[na - 1]];
        SubsequenceMembers(a[..na - 1], b[..nb - 1], e);
        assert b == b[..nb - 1] + [b[nb - 1]];
      }
    } else {
      SubsequenceMembers(a, b[..nb - 1], e);
      assert b == b[..nb - 1] + [b[nb - 1]];
    }
  }

  /** `get_release_urls(url, output_dir, browser)`, given what the `/releases` query and
      (if it is made) the `/playlists` query report. Returns the urls, the text of
      `albums.txt` and the metadata queries made, in order. */
  method GetReleaseUrls(url: string, browser: string,
                        releases: Option<Metadata>, playlists: Option<Metadata>)
    returns (urls: seq<string>, albumsTxt: string, queries: seq<seq<string>>)
    ensures HasEntries(releases) ==> queries == [QueryArgs(ReleasesUrl(url), browser, true)]
    ensures !HasEntries(releases) ==>
              queries == [QueryArgs(ReleasesUrl(url), browser, true), QueryArgs(PlaylistsUrl(url), browser, true)]
    ensures forall i, j :: 0 <= i < j < |urls| ==> urls[i] != urls[j]
    ensures forall u :: u in urls <==> u in UrlSet(Candidates(releases, playlists))
    ensures forall u :: u in urls ==> u != ""
    ensures forall i, j :: 0 <= i < j < |urls| ==>
              FirstIndex(Candidates(releases, playlists), urls[i]) < FirstIndex(Candidates(releases, playlists), urls[j])
    ensures urls == UrlList(Deduplicated(Candidates(releases, playlists)))
    ensures albumsTxt == Concat(Blocks(AlbumItems(Deduplicated(Candidates(releases, playlists)))))
  {
    var entries: seq<Entry> := [];
    queries := [QueryArgs(ReleasesUrl(url), browser, true)];
    if HasEntries(releases) {
      entries := Filter(HasUrl, releases.value.entries.value);
    } else {
      queries := queries + [QueryArgs(PlaylistsUrl(url), browser, true)];
      if HasEntries(playlists) {
        entries := CollectReleasePlaylists(playlists.value.entries.value);
      }
    }
    assert entries == Candidates(releases, playlists);
    var filtered := DedupByUrl(entries);
    albumsTxt := WriteNumbered(AlbumItems(filtered));
    NumberedIsConcatOfBlocks(AlbumItems(filtered));
    urls := UrlList(filtered);
    forall e | e in entries
      ensures HasUrl(e)
    {
      CandidatesRule(releases, playlists, e);
    }
    ReturnedUrls(entries);
    DeduplicatedInFirstSeenOrder(entries);
  }
}
