/** The interface to the external `yt-dlp` tool: the metadata it reports (as decoded by
    `json.loads`) and the argument lists the program passes to it. */
module YtDlp {
  import opened Wrappers
  import opened Text

  /** One element of the `entries` list. A missing key is None. */
  datatype Entry = Entry(title: Option<string>, url: Option<string>, webpageUrl: Option<string>)

  /** The JSON object of a successful query. None stands for a failed query and also for
      the empty object `{}`, which every test of a query result treats as falsy. */
  datatype Metadata = Metadata(title: Option<string>, entries: Option<seq<Entry>>)

  /** `e.get("url")` is truthy: present and not the empty string. */
  predicate HasUrl(e: Entry) {
    e.url.Some? && e.url.value != ""
  }

  /** `e["url"]`, for an entry already known to have one. */
  function UrlOf(e: Entry): string {
    e.url.GetOr("")
  }

  /** `data.get("entries", []) if data else []`. */
  function EntriesOf(data: Option<Metadata>): seq<Entry> {
    if data.Some? then data.value.entries.GetOr([]) else []
  }

  const CookieFlag := "--cookies-from-browser"
  const NoBrowser := "none"

  /** The condition `cookies and browser != "none"` shared by every argument list. */
  predicate UsesCookies(cookies: bool, browser: string) {
    cookies && browser != NoBrowser
  }

  /** Python's `list.insert(i, x)`. */
  function Insert(s: seq<string>, i: nat, x: string): (r: seq<string>)
    requires i <= |s|
  {
    s[..i] + [x] + s[i..]
  }

  /** The two `args.insert` calls that put `--cookies-from-browser <browser>` at `pos`. */
  function WithCookies(args: seq<string>, pos: nat, cookies: bool, browser: string): (r: seq<string>)
    requires pos < |args|
    ensures UsesCookies(cookies, browser) ==> r == args[..pos] + [CookieFlag, browser] + args[pos..]
    ensures !UsesCookies(cookies, browser) ==> r == args
    ensures r[|r| - 1] == args[|args| - 1]
  {
    if UsesCookies(cookies, browser) then
      var withFlag := Insert(args, pos, CookieFlag);
      assert withFlag[..pos + 1] == args[..pos] + [CookieFlag];
      assert withFlag[pos + 1..] == args[pos..];
      Insert(withFlag, pos + 1, browser)
    else args
  }

  /** Taking the inserted pair out again gives back the list it was inserted into. */
  lemma CookiePairRemovable(args: seq<string>, pos: nat, browser: string)
    requires pos < |args| && browser != NoBrowser
    ensures var r := WithCookies(args, pos, true, browser);
            |r| == |args| + 2 && r[pos] == CookieFlag && r[pos + 1] == browser &&
            r[..pos] + r[pos + 2..] == args
  {
    var r := WithCookies(args, pos, true, browser);
    assert r[..pos] == args[..pos];
    assert r[pos + 2..] == args[pos..];
  }

  /** The metadata query of `run_yt_dlp_json`. */
  function QueryArgs(url: string, browser: string, cookies: bool): (r: seq<string>)
    ensures |r| >= 4 && r[0] == "yt-dlp" && r[|r| - 1] == url
    ensures UsesCookies(cookies, browser) ==>
              r == ["yt-dlp", "--flat-playlist", CookieFlag, browser, "-J", url]
    ensures !UsesCookies(cookies, browser) ==> r == ["yt-dlp", "--flat-playlist", "-J", url]
  {
    WithCookies(["yt-dlp", "--flat-playlist", "-J", url], 2, cookies, browser)
  }

  const OutputTemplate := "%(title)s.%(ext)s"
  const Aria2Args := "aria2c:-x16 -s16 -k1M"

  /** The download command of `download_release`, before the cookie pair is inserted. */
  function ReleaseFetchArgs(archive: string, folder: string, url: string): seq<string> {
    ["yt-dlp", "--yes-playlist", "--ignore-errors", "--extract-audio",
     "--audio-format", "mp3", "--audio-quality", "0",
     "--embed-metadata", "--embed-thumbnail",
     "--concurrent-fragments", "8", "--limit-rate", "2M",
     "--downloader", "aria2c", "--download-archive", archive,
     "--downloader-args", Aria2Args,
     "--output", JoinPath(folder, OutputTemplate), url]
  }

  /** The download command of `download_single_playlist`, before the cookie pair is inserted. */
  function PlaylistFetchArgs(folder: string, url: string): seq<string> {
    ["yt-dlp", "--yes-playlist", "--ignore-errors", "--extract-audio",
     "--audio-format", "mp3", "--audio-quality", "0",
     "--embed-metadata", "--embed-thumbnail",
     "--concurrent-fragments", "8", "--limit-rate", "2M",
     "--downloader", "aria2c",
     "--downloader-args", Aria2Args,
     "--output", JoinPath(folder, OutputTemplate), url]
  }

  /** The two download commands differ only in the `--download-archive` pair: a single
      playlist is fetched without an archive. */
  lemma FetchArgsDifferByArchive(archive: string, folder: string, url: string)
    ensures var p := PlaylistFetchArgs(folder, url);
            ReleaseFetchArgs(archive, folder, url) == p[..16] + ["--download-archive", archive] + p[16..]
  {
  }
}
