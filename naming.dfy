/** Folder naming: `sanitize_folder` and the collision probe of `download_release`
    that appends ` (1)`, ` (2)`, ... to a folder path until it names nothing that exists. */
module PathNaming {
  import opened Text

  const AlbumPrefix := "Album - "

  /** The characters `re.sub(r'[:/]', ' -', name)` rewrites. */
  predicate IsHostile(c: char) {
    c == ':' || c == '/'
  }

  /** Every `:` and `/` replaced by ` -`, every other character kept. */
  function ReplaceHostile(s: string): (r: string)
    ensures ':' !in r && '/' !in r
    ensures |r| >= |s|
  {
    if s == [] then []
    else (if IsHostile(s[0]) then " -" else [s[0]]) + ReplaceHostile(s[1..])
  }

  /** `re.sub(r'^Album - ', '', name)`: the anchor allows one removal, at the start only. */
  function StripAlbumPrefix(name: string): (r: string)
    ensures StartsWith(name, AlbumPrefix) ==> name == AlbumPrefix + r
    ensures !StartsWith(name, AlbumPrefix) ==> r == name
  {
    if StartsWith(name, AlbumPrefix) then name[|AlbumPrefix|..] else name
  }

  function SanitizeFolder(name: string): (r: string)
    ensures ':' !in r && '/' !in r
  {
    ReplaceHostile(StripAlbumPrefix(name))
  }

  lemma {:induction false} ReplaceHostileKeepsPlain(s: string)
    requires ':' !in s && '/' !in s
    ensures ReplaceHostile(s) == s
  {
    if s != [] {
      ReplaceHostileKeepsPlain(s[1..]);
    }
  }

  /** The rewrite works character by character, so it distributes over concatenation. */
  lemma {:induction false} ReplaceHostileAppend(a: string, b: string)
    ensures ReplaceHostile(a + b) == ReplaceHostile(a) + ReplaceHostile(b)
  {
    if a != [] {
      assert (a + b)[1..] == a[1..] + b;
      ReplaceHostileAppend(a[1..], b);
    } else {
      assert a + b == b;
    }
  }

  /** A name without the prefix and without `:` or `/` comes back unchanged. */
  lemma SanitizeKeepsPlainName(name: string)
    requires !StartsWith(name, AlbumPrefix) && ':' !in name && '/' !in name
    ensures SanitizeFolder(name) == name
  {
    ReplaceHostileKeepsPlain(name);
  }

  /** The prefix is removed once: a second `Album - ` right after the first survives. */
  lemma SanitizeStripsPrefixOnce(rest: string)
    ensures SanitizeFolder(AlbumPrefix + rest) == ReplaceHostile(rest)
    ensures SanitizeFolder(AlbumPrefix + AlbumPrefix + rest) == AlbumPrefix + ReplaceHostile(rest)
  {
    assert StartsWith(AlbumPrefix + rest, AlbumPrefix) by {
      assert (AlbumPrefix + rest)[..|AlbumPrefix|] == AlbumPrefix;
    }
    var twice := AlbumPrefix + AlbumPrefix + rest;
    assert StartsWith(twice, AlbumPrefix) by {
      assert twice[..|AlbumPrefix|] == AlbumPrefix;
    }
    assert twice[|AlbumPrefix|..] == AlbumPrefix + rest;
    ReplaceHostileAppend(AlbumPrefix, rest);
    ReplaceHostileKeepsPlain(AlbumPrefix);
  }

  /** A prefixed title with one `:` and one `/` in it: the prefix goes, and each of the
      two characters becomes ` -`. */
  lemma SanitizePrefixedWithSeparators(name: string, a: string, b: string, c: string)
    requires name == AlbumPrefix + (a + ":" + b + "/" + c)
    requires ':' !in a && '/' !in a && ':' !in b && '/' !in b && ':' !in c && '/' !in c
    ensures SanitizeFolder(name) == a + " -" + b + " -" + c
  {
    SanitizeStripsPrefixOnce(a + ":" + b + "/" + c);
    ReplaceHostileAppend(a + ":" + b + "/", c);
    ReplaceHostileAppend(a + ":" + b, "/");
    ReplaceHostileAppend(a + ":", b);
    ReplaceHostileAppend(a, ":");
    ReplaceHostileKeepsPlain(a);
    ReplaceHostileKeepsPlain(b);
    ReplaceHostileKeepsPlain(c);
    assert ReplaceHostile(":") == " -";
    assert ReplaceHostile("/") == " -";
  }

  /** A title with the prefix, a `:` and a `/`. */
  lemma SanitizeExample(name: string)
    requires name == "Album - Greatest Hits: Part 2/3"
    ensures SanitizeFolder(name) == "Greatest Hits - Part 2 -3"
  {
    var a, b, c := "Greatest Hits", " Part 2", "3";
    ExampleTitleSplits(name);
    assert ':' !in b && '/' !in b && ':' !in c && '/' !in c;
    SanitizePrefixedWithSeparators(name, a, b, c);
    assert a + " -" + b + " -" + c == "Greatest Hits - Part 2 -3";
  }

  /** How the example title splits around its `:` and `/`. Kept as a lemma of its own:
      stated inside SanitizeExample, these facts about the literal make the solver unfold
      ReplaceHostile over the whole title and run out of resources. */
  lemma ExampleTitleSplits(name: string)
    requires name == "Album - Greatest Hits: Part 2/3"
    ensures name == AlbumPrefix + ("Greatest Hits" + ":" + " Part 2" + "/" + "3")
    ensures ':' !in "Greatest Hits" && '/' !in "Greatest Hits"
  {
  }

  /** The `n`-th path the probe tries: `base` itself, then `base (n)`. */
  function Candidate(base: string, n: nat): string {
    if n == 0 then base else base + " (" + NatToString(n) + ")"
  }

  lemma CandidateInjective(base: string, m: nat, n: nat)
    requires Candidate(base, m) == Candidate(base, n)
    ensures m == n
  {
    if m != 0 && n != 0 {
      var c := Candidate(base, m);
      var a, b := NatToString(m), NatToString(n);
      assert |a| == |b|;
      assert a == c[|base| + 2..|base| + 2 + |a|];
      assert b == c[|base| + 2..|base| + 2 + |b|];
      NatToStringInjective(m, n);
    }
  }

  /** `n` is the first suffix whose candidate path is free: all earlier ones exist. */
  predicate IsFirstFree(base: string, existing: set<string>, n: nat) {
    Candidate(base, n) !in existing &&
    forall k: nat :: k < n ==> Candidate(base, k) in existing
  }

  /** The `while os.path.exists(target_folder)` loop of `download_release`. */
  method ResolveFolder(base: string, existing: set<string>) returns (target: string, n: nat)
    ensures target == Candidate(base, n)
    ensures IsFirstFree(base, existing, n)
  {
    target := base;
    var suffix: nat := 1;
    ghost var probed: set<string> := {};
    while target in existing
      invariant suffix >= 1
      invariant target == Candidate(base, suffix - 1)
      invariant forall k: nat :: k < suffix - 1 ==> Candidate(base, k) in existing
      invariant forall x :: x in probed ==> exists k: nat :: k < suffix - 1 && x == Candidate(base, k)
      decreases existing - probed
    {
      forall x | x in probed
        ensures x != target
      {
        var k: nat :| k < suffix - 1 && x == Candidate(base, k);
        if x == target {
          CandidateInjective(base, k, suffix - 1);
        }
      }
      probed := probed + {target};
      target := base + " (" + NatToString(suffix) + ")";
      suffix := suffix + 1;
    }
    n := suffix - 1;
  }

  /** Only the first free suffix is first free. */
  lemma FirstFreeUnique(base: string, existing: set<string>, m: nat, n: nat)
    requires IsFirstFree(base, existing, m) && IsFirstFree(base, existing, n)
    ensures m == n
  {
  }

  /** Once the folder of one release exists, a later release whose title sanitises to
      the same name is sent to the next suffix (` (1)` after the bare name, and so on). */
  lemma {:induction false} NextReleaseTakesNextSuffix(base: string, existing: set<string>, n: nat)
    requires IsFirstFree(base, existing, n)
    requires Candidate(base, n + 1) !in existing
    ensures IsFirstFree(base, existing + {Candidate(base, n)}, n + 1)
  {
    if Candidate(base, n + 1) == Candidate(base, n) {
      CandidateInjective(base, n + 1, n);
    }
  }
}
