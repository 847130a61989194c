/** The two text files the program writes: the numbered release index `albums.txt`
    and the per-release track manifest `tracks.txt`. Both consist of blocks
    `"<n>. <title>\n<url>\n\n"` numbered from 1. */
module Manifest {
  import opened Wrappers
  import opened Text
  import opened YtDlp

  /** One numbered block: `f"{n}. {title}\n{url}\n\n"`. */
  function Block(n: nat, title: string, url: string): string {
    NatToString(n) + ". " + title + "\n" + url + "\n\n"
  }

  /** The manifest header: `f"{name}\n{url}\n\n"`. */
  function Header(name: string, url: string): string {
    name + "\n" + url + "\n\n"
  }

  /** The text the numbered writing loops produce for `items`, as the text of the first
      `|items| - 1` items followed by the block of the last one, numbered `|items|`. */
  function Numbered(items: seq<(string, string)>): string {
    if items == [] then ""
    else
      var n := |items|;
      Numbered(items[..n - 1]) + Block(n, items[n - 1].0, items[n - 1].1)
  }

  function Concat(parts: seq<string>): string {
    if parts == [] then "" else Concat(parts[..|parts| - 1]) + parts[|parts| - 1]
  }

  /** The block list: item `i` (0-based) is written with the number `i + 1`. */
  function Blocks(items: seq<(string, string)>): (bs: seq<string>)
    ensures |bs| == |items|
  {
    seq(|items|, i requires 0 <= i < |items| => Block(i + 1, items[i].0, items[i].1))
  }

  /** The numbered text is the concatenation of the blocks numbered 1 to `|items|`. */
  lemma {:induction false} NumberedIsConcatOfBlocks(items: seq<(string, string)>)
    ensures Numbered(items) == Concat(Blocks(items))
  {
    if items != [] {
      var n := |items|;
      NumberedIsConcatOfBlocks(items[..n - 1]);
      assert Blocks(items)[..n - 1] == Blocks(items[..n - 1]);
    }
  }

  /** Writing more items only appends: the text of a prefix is a prefix of the text. */
  lemma {:induction false} NumberedExtends(items: seq<(string, string)>, k: nat)
    requires k <= |items|
    ensures Numbered(items[..k]) <= Numbered(items)
    decreases |items| - k
  {
    if k < |items| {
      var n := |items|;
      assert items[..n] == items;
      NumberedExtends(items[..n - 1], k);
      assert items[..n - 1][..k] == items[..k];
    } else {
      assert items[..k] == items;
    }
  }

  /** The `for idx, e in enumerate(..., 1): f.write(...)` loops. */
  method WriteNumbered(items: seq<(string, string)>) returns (text: string)
    ensures text == Numbered(items)
  {
    text := "";
    for i := 0 to |items|
      invariant text == Numbered(items[..i])
    {
      assert items[..i + 1][..i] == items[..i];
      text := text + Block(i + 1, items[i].0, items[i].1);
    }
    assert items[..|items|] == items;
  }

  /** An `albums.txt` line pair: the title defaults to `Unknown`. */
  function AlbumItem(e: Entry): (string, string) {
    (e.title.GetOr("Unknown"), UrlOf(e))
  }

  /** A track's url: `entry.get("url") or entry.get("webpage_url", "")`. */
  function TrackUrl(e: Entry): (u: string)
    ensures u == "" <==> !HasUrl(e) && (e.webpageUrl.None? || e.webpageUrl.value == "")
    ensures u != "" ==> e.url == Some(u) || e.webpageUrl == Some(u)
    ensures HasUrl(e) ==> e.url == Some(u)
  {
    if HasUrl(e) then e.url.value else e.webpageUrl.GetOr("")
  }

  /** A `tracks.txt` line pair: the title defaults to `Unknown Track`. */
  function TrackItem(e: Entry): (string, string) {
    (e.title.GetOr("Unknown Track"), TrackUrl(e))
  }

  function AlbumItems(es: seq<Entry>): (items: seq<(string, string)>)
    ensures |items| == |es|
  {
    seq(|es|, i requires 0 <= i < |es| => AlbumItem(es[i]))
  }

  function TrackItems(es: seq<Entry>): (items: seq<(string, string)>)
    ensures |items| == |es|
  {
    seq(|es|, i requires 0 <= i < |es| => TrackItem(es[i]))
  }

  /** The `tracks.txt` text: the header, then one numbered block per track. */
  method WriteTracks(name: string, url: string, entries: seq<Entry>) returns (text: string)
    ensures text == Header(name, url) + Concat(Blocks(TrackItems(entries)))
    ensures Header(name, url) <= text
  {
    text := Header(name, url);
    var blocks := WriteNumbered(TrackItems(entries));
    NumberedIsConcatOfBlocks(TrackItems(entries));
    text := text + blocks;
  }
}
