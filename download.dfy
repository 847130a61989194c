/** One download job: `download_release` for a release of a channel and
    `download_single_playlist` for a playlist. The external queries' answers, the clock
    and the paths that already exist are parameters; the job's decisions are the result. */
module Download {
  import opened Wrappers
  import opened Text
  import opened YtDlp
  import opened PathNaming
  import opened Manifest

  /** Job `index` (0-based, in submission order) re-probes the cookies when it is a
      multiple of 5 and a browser is configured. */
  predicate ProbesCookies(index: nat, browser: string) {
    index % 5 == 0 && browser != NoBrowser
  }

  const UnknownPrefix := "Unknown_"

  /** The folder name of a release: the sanitised title, or `Unknown_<timestamp>` when
      there is no metadata or the sanitised title is empty or the text `null`. */
  function ReleaseName(data: Option<Metadata>, timestamp: nat): (r: string)
    ensures r != "" && r != "null"
    ensures ':' !in r && '/' !in r
    ensures data.Some? && SanitizeFolder(data.value.title.GetOr("")) !in {"", "null"} ==>
              r == SanitizeFolder(data.value.title.GetOr(""))
    ensures data.None? || SanitizeFolder(data.value.title.GetOr("")) in {"", "null"} ==>
              r == UnknownPrefix + NatToString(timestamp)
  {
    var name := if data.Some? then SanitizeFolder(data.value.title.GetOr("")) else "";
    if name == "" || name == "null" then
      var digits := NatToString(timestamp);
      assert (UnknownPrefix + digits)[0] == 'U';
      assert forall i :: 0 <= i < |digits| ==> digits[i] != ':' && digits[i] != '/';
      UnknownPrefix + digits
    else name
  }

  /** Two fallback names are equal only when their timestamps are. */
  lemma FallbackNamesDiffer(t1: nat, t2: nat)
    requires t1 != t2
    ensures UnknownPrefix + NatToString(t1) != UnknownPrefix + NatToString(t2)
  {
    if UnknownPrefix + NatToString(t1) == UnknownPrefix + NatToString(t2) {
      assert NatToString(t1) == (UnknownPrefix + NatToString(t1))[|UnknownPrefix|..];
      NatToStringInjective(t1, t2);
    }
  }

  /** What one release job decides: the cookie probe it makes (if any), its metadata
      query, whether it uses cookies, the folder name, the folder chosen after
      `collisions` taken candidates, the `tracks.txt` text and the download command. */
  datatype ReleaseJob = ReleaseJob(
    probe: Option<seq<string>>,
    query: seq<string>,
    cookies: bool,
    name: string,
    folder: string,
    collisions: nat,
    manifest: string,
    fetch: seq<string>)

  /** `download_release(item_url, index, output_dir, cookie_option, browser)`.
      `probeResult` is what the cookie probe reports (read only when the probe is made),
      `data` what the metadata query reports, `timestamp` the output of `date +%s`. */
  method DownloadRelease(itemUrl: string, index: nat, outputDir: string, cookieOption: bool,
                         browser: string, probeResult: Option<Metadata>, data: Option<Metadata>,
                         timestamp: nat, existing: set<string>)
    returns (job: ReleaseJob)
    ensures job.probe == if ProbesCookies(index, browser)
                         then Some(QueryArgs(itemUrl, browser, true)) else None
    ensures job.cookies == if ProbesCookies(index, browser) then probeResult.Some? else cookieOption
    ensures job.query == QueryArgs(itemUrl, browser, job.cookies)
    ensures job.name == ReleaseName(data, timestamp)
    ensures job.folder !in existing
    ensures job.folder == Candidate(JoinPath(outputDir, job.name), job.collisions)
    ensures IsFirstFree(JoinPath(outputDir, job.name), existing, job.collisions)
    ensures job.manifest == Header(job.name, itemUrl) + Concat(Blocks(TrackItems(EntriesOf(data))))
    ensures job.fetch == WithCookies(ReleaseFetchArgs(JoinPath(job.folder, "tracks.txt"), job.folder, itemUrl),
                                     1, job.cookies, browser)
    ensures job.fetch[|job.fetch| - 1] == itemUrl
    ensures UsesCookies(job.cookies, browser) <==> |job.fetch| == 25
  {
    var cookies := cookieOption;
    var probe: Option<seq<string>> := None;
    if index % 5 == 0 && browser != NoBrowser {
      probe := Some(QueryArgs(itemUrl, browser, true));
      cookies := probeResult.Some?;
    }
    var query := QueryArgs(itemUrl, browser, cookies);
    var name := ReleaseName(data, timestamp);
    var folder, collisions := ResolveFolder(JoinPath(outputDir, name), existing);
    var tracksTxt := JoinPath(folder, "tracks.txt");
    var manifest := WriteTracks(name, itemUrl, EntriesOf(data));
    var fetch := WithCookies(ReleaseFetchArgs(tracksTxt, folder, itemUrl), 1, cookies, browser);
    job := ReleaseJob(probe, query, cookies, name, folder, collisions, manifest, fetch);
  }

  const PlaylistsRoot := "YouTube_Playlists"

  /** `info.get("title", "Unknown_Playlist") if info else "Unknown_Playlist"`. */
  function PlaylistTitle(info: Option<Metadata>): string {
    if info.Some? then info.value.title.GetOr("Unknown_Playlist") else "Unknown_Playlist"
  }

  /** What a playlist job decides: its metadata query, the playlist title, the folder,
      the `tracks.txt` text and the download command. */
  datatype PlaylistJob = PlaylistJob(
    query: seq<string>,
    title: string,
    folder: string,
    manifest: string,
    fetch: seq<string>)

  /** `download_single_playlist(url, output_dir, cookie_option, browser)`, given what the
      metadata query reports. The folder is always a direct child of `YouTube_Playlists`
      (`output_dir` is not used); the manifest header carries the unsanitised title. */
  method DownloadSinglePlaylist(url: string, cookieOption: bool, browser: string, info: Option<Metadata>)
    returns (job: PlaylistJob)
    ensures job.query == QueryArgs(url, browser, cookieOption)
    ensures job.title == PlaylistTitle(info)
    ensures job.folder == PlaylistsRoot + "/" + SanitizeFolder(job.title)
    ensures job.manifest == Header(job.title, url) + Concat(Blocks(TrackItems(EntriesOf(info))))
    ensures job.fetch == WithCookies(PlaylistFetchArgs(job.folder, url), 1, cookieOption, browser)
    ensures job.fetch[|job.fetch| - 1] == url
    ensures UsesCookies(cookieOption, browser) <==> |job.fetch| == 23
  {
    var query := QueryArgs(url, browser, cookieOption);
    var title := PlaylistTitle(info);
    var name := SanitizeFolder(title);
    assert name == [] || name[0] != '/';
    var folder := JoinPath(PlaylistsRoot, name);
    var manifest := WriteTracks(title, url, EntriesOf(info));
    var fetch := WithCookies(PlaylistFetchArgs(folder, url), 1, cookieOption, browser);
    job := PlaylistJob(query, title, folder, manifest, fetch);
  }
}
