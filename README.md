# yt-downloader: a Dafny model of the release resolver and download jobs

This project models the decision logic of `yt-downloader/main.py`, a command-line tool
that downloads every album and single of a YouTube channel with `yt-dlp`. The logic
between the `yt-dlp` calls, the filesystem and the menu is modelled and proved:

- `get_channel_name` finds the channel's handle (`youtube.com/@<handle>`) or id
  (`youtube.com/channel/<id>`) in a URL (module `ChannelName`).
- `sanitize_folder` turns a title into a folder name. `download_release` then probes
  for a free folder (`base`, `base (1)`, `base (2)`, ...) (module `PathNaming`).
- `get_release_urls` asks for `/releases` and falls back to `/playlists` with a title
  filter. It drops repeated urls, keeping the first, and writes the numbered
  `albums.txt` index (module `Catalog`).
- `download_release` re-probes the browser cookies on every fifth job and falls back to
  `Unknown_<timestamp>` for an untitled release. It resolves the folder, writes the
  `tracks.txt` manifest and builds the download command. `download_single_playlist` does
  the same for one playlist (module `Download`).
- The metadata records `yt-dlp` reports, and the argument lists the program passes to it,
  live in module `YtDlp`. Both text files share the numbered block format of module
  `Manifest`. Module `Text` holds the standard-library string operations the program
  relies on.

The answers of the external queries are parameters of type `Option<Metadata>`, where
None is a failed query or the empty object. Two more values are parameters too: the output of `date +%s`,
and the set of paths that already exist. Every job returns what it decided: the queries
it makes, the folder it picks, the text it writes and the command it runs.

Facts of the program the model keeps:

- A metadata query whose output is not valid JSON raises an exception. It is not
  reported as a failed query, because only `CalledProcessError` is caught
  (main.py:42-46).
- `download_single_playlist` passes no `--download-archive` (main.py:175-190,
  `YtDlp.FetchArgsDifferByArchive`). It ignores its `output_dir` argument and always
  writes under `YouTube_Playlists` (main.py:165).

## Model

| member | source | states |
|---|---|---|
| `Text.TrimRight` | yt-downloader/main.py:49 | `rstrip("/")` gives a prefix of the url that does not end in `/`, and only `/` characters were removed |
| `Text.ParseNatToString` | yt-downloader/main.py:75 | decimal numbering is read back to the same number, so different numbers print differently |
| `ChannelName.SegmentEnd` | yt-downloader/main.py:13 | the group `([^/]+)` ends at the first `/` or at the end of the url, and holds no `/` |
| `ChannelName.LeftmostMatch` | yt-downloader/main.py:13 | the search finds the leftmost index where the pattern matches, or reports that no index matches |
| `ChannelName.Search` | yt-downloader/main.py:16-18 | a match exists iff the search succeeds; the result is non-empty, has no `/`, and is the segment after the leftmost match |
| `ChannelName.GetChannelName` | yt-downloader/main.py:12-19 | a handle match anywhere takes precedence over the channel-id form; the name is non-empty and has no `/`; None exactly when neither pattern matches |
| `ChannelName.HandleExample` | yt-downloader/main.py:13-15 | `youtube.com/@ab/x` gives `ab` |
| `PathNaming.ReplaceHostile` | yt-downloader/main.py:80 | the result contains no `:` and no `/` |
| `PathNaming.StripAlbumPrefix` | yt-downloader/main.py:79 | a leading `Album - ` is removed; a name without it is unchanged |
| `PathNaming.SanitizeFolder` | yt-downloader/main.py:78-81 | a sanitised name contains no `:` and no `/` |
| `PathNaming.ReplaceHostileKeepsPlain` | yt-downloader/main.py:80 | text without `:` or `/` is left as it is |
| `PathNaming.ReplaceHostileAppend` | yt-downloader/main.py:80 | the replacement works character by character: it distributes over concatenation |
| `PathNaming.SanitizeKeepsPlainName` | yt-downloader/main.py:78-81 | a name without the prefix and without `:` or `/` is returned unchanged |
| `PathNaming.SanitizeStripsPrefixOnce` | yt-downloader/main.py:79 | only one leading `Album - ` is removed; a second one right after it stays |
| `PathNaming.SanitizePrefixedWithSeparators` | yt-downloader/main.py:78-81 | `Album - a:b/c` becomes `a -b -c` when a, b and c hold no `:` or `/` |
| `PathNaming.SanitizeExample` | yt-downloader/main.py:78-81 | `Album - Greatest Hits: Part 2/3` becomes `Greatest Hits - Part 2 -3` |
| `PathNaming.CandidateInjective` | yt-downloader/main.py:103 | the probe never tries the same path twice |
| `PathNaming.ResolveFolder` | yt-downloader/main.py:99-104 | the chosen folder does not exist; it is `base` or `base (n)`, and every earlier candidate exists |
| `PathNaming.FirstFreeUnique` | yt-downloader/main.py:102-104 | the first free suffix is unique |
| `PathNaming.NextReleaseTakesNextSuffix` | yt-downloader/main.py:99-105 | once a folder is created, a later release with the same name gets the next suffix |
| `YtDlp.WithCookies` | yt-downloader/main.py:39-41 | `--cookies-from-browser <browser>` is inserted at the given position iff cookies are on and the browser is not `none`; otherwise the list is unchanged; the last element (the url) is kept |
| `YtDlp.CookiePairRemovable` | yt-downloader/main.py:133-135 | taking the inserted pair out gives back the original command |
| `YtDlp.QueryArgs` | yt-downloader/main.py:35-41 | the metadata query is `yt-dlp --flat-playlist -J <url>`, with the cookie pair at positions 2-3 exactly when cookies are used |
| `YtDlp.FetchArgsDifferByArchive` | yt-downloader/main.py:175-190 | the playlist command is the release command without the `--download-archive` pair |
| `Manifest.NumberedIsConcatOfBlocks` | yt-downloader/main.py:72-75 | the written text is the blocks `"n. title\nurl\n\n"` for n = 1 .. k, in order |
| `Manifest.NumberedExtends` | yt-downloader/main.py:111-114 | writing more entries only appends to the text |
| `Manifest.WriteNumbered` | yt-downloader/main.py:72-75 | the writing loop produces exactly the numbered text |
| `Manifest.TrackUrl` | yt-downloader/main.py:113 | a track's url is empty exactly when `url` is not truthy and `webpage_url` is missing or empty; a non-empty url is one of the two fields, and a truthy `url` takes precedence |
| `Manifest.WriteTracks` | yt-downloader/main.py:107-114 | `tracks.txt` is the header `name\nurl\n\n` followed by one numbered block per track |
| `Catalog.SubpageUrls` | yt-downloader/main.py:49-57 | both sub-page urls are the channel url without trailing slashes, plus `/releases` or `/playlists` |
| `Catalog.Filter` | yt-downloader/main.py:54 | an entry is kept iff it is in the input and passes the test |
| `Catalog.CollectReleasePlaylists` | yt-downloader/main.py:59-63 | the loop keeps exactly the playlists whose title names an album or single and whose url is truthy, in order |
| `Catalog.CandidatesRule` | yt-downloader/main.py:52-63 | with a `/releases` entry list, every entry with a truthy url is kept; otherwise only matching playlists; every candidate has a url |
| `Catalog.FirstWithUrlFound` | yt-downloader/main.py:66-69 | an entry with url u exists iff u is among the entries' urls |
| `Catalog.DeduplicatedSpec` | yt-downloader/main.py:64-69 | no url twice, the same url set as the input, the kept entries a subsequence of the input, and each kept entry the first with its url |
| `Catalog.FirstIndexFound` | yt-downloader/main.py:67 | a url has a first position in the entries iff it is among their urls |
| `Catalog.DeduplicatedInFirstSeenOrder` | yt-downloader/main.py:64-69 | the kept entries are ordered by the position where their url is first seen |
| `Catalog.DedupByUrl` | yt-downloader/main.py:64-69 | the `seen`/`filtered` loop computes exactly the deduplicated list |
| `Catalog.ReturnedUrls` | yt-downloader/main.py:76 | the returned urls are distinct, exactly the candidates' urls, and never empty |
| `Catalog.SubsequenceMembers` | yt-downloader/main.py:64-69 | an entry of a subsequence is an entry of the whole |
| `Catalog.GetReleaseUrls` | yt-downloader/main.py:48-76 | `/playlists` is queried only when `/releases` gave no entry list (an empty list does not count); the urls are distinct, exactly those of the kept entries, and in first-seen order; `albums.txt` numbers them from 1 |
| `Download.ReleaseName` | yt-downloader/main.py:95-97 | the name is the sanitised title, or `Unknown_<timestamp>` when there is no data or the name is empty or `null`; it is never empty or `null` and has no `:` or `/` |
| `Download.FallbackNamesDiffer` | yt-downloader/main.py:97 | different timestamps give different fallback names |
| `Download.DownloadRelease` | yt-downloader/main.py:83-136 | the cookies are re-probed exactly on job indices divisible by 5 with a browser, and otherwise the passed value is kept; the folder is the first free candidate; the manifest, query and command follow the rules above |
| `Download.DownloadSinglePlaylist` | yt-downloader/main.py:161-194 | the folder is `YouTube_Playlists/` plus the sanitised title; the manifest header has the raw title; the command ends with the url and has the cookie pair iff cookies are used |

## Left out

- The `yt-dlp`, `aria2c` and `date +%s` subprocess calls are foreign programs and the
  clock. Their results are parameters, and the commands are returned, not run.
- JSON decoding is not modelled. A JSON `null` in place of a title, url or entry list,
  and a query result that is not an object, are outside the `Metadata` type.
- A query that returns the empty object `{}` is represented by None, like a failed
  query: `{}` is falsy at every test the program makes of a query result
  (main.py:52, 59, 87, 95, 110, 164, 168), so with that reading the model is exact.
  `Some(Metadata(None, None))` stands for a non-empty object with neither key.
- Filesystem effects (`os.makedirs`, `os.path.exists`, `open`/`write`) are replaced by a
  set of existing paths and returned texts.
- `load_browser`, `save_browser`, `choose_browser` and `menu` are configuration I/O and
  the interactive loop. The job index the menu passes is a parameter.
- `download_single_song` has no decision logic beyond the cookie insertion that
  `YtDlp.WithCookies` models.
- The `ThreadPoolExecutor` with five workers is concurrency. Each job is modelled on its
  own. Two concurrent jobs can both see a folder as free and share it; this model
  cannot show that.
- Catalog.CollectReleasePlaylists: the case-insensitive match is modelled with ASCII
  case folding. Python's Unicode matching also accepts a few non-ASCII letters, such as
  the long s `ſ`, which this model does not.
