/**
 Which URLs the reader asks for beside the page itself, stated on their text: the Markdown sibling,
 and the llms files in the directories above the page.
*/
module ReadPlaces {
  import opened Dedup
  import opened Option
  import opened ReadTargets
  import opened Text

  // ---------------------------------------------------------------- the sibling

  ghost predicate AllSlashes(s: string) {
    forall c <- s :: c == '/'
  }

  predicate IsStem(path: string, stem: string, slashes: string) {
    path == stem + slashes && (stem != "" ==> stem[|stem| - 1] != '/') && forall c <- slashes :: c == '/'
  }

  /** The sibling's path: `/index.md` for the root, else `.md` in the place of the final slashes. */
  ghost predicate IsSiblingPath(path: string, sibling: string) {
    if path == "" || path == "/" then sibling == "/index.md"
    else
      exists stem, slashes :: IsStem(path, stem, slashes)
        && sibling == (if stem != "" && stem[0] == '/' then "" else "/") + stem + ".md"
  }

  lemma {:induction false} StemIff(path: string, stem: string, slashes: string)
    requires path == stem + slashes
    ensures IsStem(path, stem, slashes) <==> stem == TrimEndChar(path, '/')
  {
    var r := TrimEndChar(path, '/');
    forall i | |stem| <= i < |path| ensures path[i] == slashes[i - |stem|] && slashes[i - |stem|] in slashes {
    }
    forall i | 0 <= i < |slashes| ensures slashes[i] == path[|stem| + i] {
    }
    assert stem == path[..|stem|] && r == path[..|r|];
  }

  function Rooted(path: string): string {
    if path != "" && path[0] == '/' then path else "/" + path
  }

  lemma {:induction false} RootedStem(stem: string)
    ensures Rooted(stem + ".md") == (if stem != "" && stem[0] == '/' then "" else "/") + stem + ".md"
  {
    assert "/" + stem + ".md" == "/" + (stem + ".md") && "" + stem + ".md" == stem + ".md";
  }

  lemma {:induction false} SiblingPathIs(path: string)
    ensures IsSiblingPath(path, Rooted(SiblingPath(path)))
  {
    if path != "" && path != "/" {
      var stem := TrimEndChar(path, '/');
      RootedStem(stem);
      assert path == stem + path[|stem|..];
      StemIff(path, stem, path[|stem|..]);
    }
  }

  lemma {:induction false} SiblingPathIff(path: string, sibling: string)
    ensures IsSiblingPath(path, sibling) <==> sibling == Rooted(SiblingPath(path))
  {
    SiblingPathIs(path);
    if IsSiblingPath(path, sibling) && path != "" && path != "/" {
      var stem, slashes :| IsStem(path, stem, slashes)
        && sibling == (if stem != "" && stem[0] == '/' then "" else "/") + stem + ".md";
      StemIff(path, stem, slashes);
      RootedStem(stem);
    }
  }

  /** A page has a sibling unless its path ends in `.md`, and only the path of the sibling differs. */
  lemma {:induction false} SiblingIff(url: Url, sibling: Url)
    ensures MarkdownFallbackUrl(url) == Some(sibling)
      <==> !EndsWith(url.path, ".md") && IsSiblingPath(url.path, sibling.path) && sibling == url.(path := sibling.path)
  {
    SiblingPathIff(url.path, sibling.path);
  }

  // ---------------------------------------------------------------- segments

  lemma {:induction false} SplitJoins(s: string, c: char)
    ensures Join(SplitOn(s, c), [c]) == s
    ensures forall p <- SplitOn(s, c) :: c !in p
    decreases |s|
  {
    forall k ensures At(s, [c], k) <==> 0 <= k < |s| && s[k] == c {
      AtChar(s, c, k);
    }
    match Find(s, [c], 0)
    case None =>
    case Some(k) =>
      SplitJoins(s[k + 1..], c);
      assert s == s[..k] + [c] + s[k + 1..];
      assert SplitOn(s, c)[1..] == SplitOn(s[k + 1..], c);
  }

  predicate AreSegments(path: string, segments: seq<string>) {
    && path == Join(segments, "/") && (forall s <- segments :: '/' !in s)
    && (segments != [] ==> segments[0] != "" && segments[|segments| - 1] != "")
  }

  lemma {:induction false} SegmentsOf(path: string)
    requires path != "" ==> path[0] != '/' && path[|path| - 1] != '/'
    ensures AreSegments(path, if path == "" then [] else SplitOn(path, '/'))
  {
    if path != "" {
      SplitJoins(path, '/');
      FirstSegment(path);
      LastSegment(path);
    }
  }

  lemma {:induction false} SlashesBehind(path: string) returns (tail: string)
    ensures path == TrimEndChar(path, '/') + tail && AllSlashes(tail)
  {
    var inner := TrimEndChar(path, '/');
    tail := path[|inner|..];
    forall i | 0 <= i < |tail| ensures tail[i] == path[|inner| + i] {
    }
  }

  lemma {:induction false} BetweenIs(path: string, lead: string, start: string, inner: string, tail: string)
    requires path == lead + start && start == inner + tail
    ensures path == lead + inner + tail
  {
  }

  lemma {:induction false} InnerHasNoEnds(start: string)
    requires start == "" || start[0] != '/'
    ensures var p := TrimEndChar(start, '/'); p != "" ==> p[0] != '/' && p[|p| - 1] != '/'
  {
  }

  lemma {:induction false} BetweenSlashes(path: string) returns (lead: string, tail: string)
    ensures path == lead + TrimChar(path, '/') + tail && AllSlashes(lead) && AllSlashes(tail)
    ensures var p := TrimChar(path, '/'); p != "" ==> p[0] != '/' && p[|p| - 1] != '/'
  {
    var start := TrimStartChar(path, '/');
    lead := TrimStartCharIs(path, '/');
    tail := SlashesBehind(start);
    BetweenIs(path, lead, start, TrimChar(path, '/'), tail);
    InnerHasNoEnds(start);
  }

  /** The path is its segments joined by slashes, between slashes; none of them holds a slash, and
      neither the first nor the last one is empty. */
  lemma {:induction false} SegmentsAre(url: Url) returns (lead: string, path: string, tail: string)
    ensures url.path == lead + path + tail && AllSlashes(lead) && AllSlashes(tail)
    ensures AreSegments(path, Segments(url))
  {
    lead, tail := BetweenSlashes(url.path);
    path := TrimChar(url.path, '/');
    SegmentsOf(path);
  }

  lemma {:induction false} LastSegment(path: string)
    requires path != "" && path[|path| - 1] != '/'
    ensures var parts := SplitOn(path, '/'); parts[|parts| - 1] != ""
    decreases |path|
  {
    var found := Find(path, "/", 0);
    if found.Some? {
      var k := found.value;
      AtChar(path, '/', k);
      LastSegment(path[k + 1..]);
      LastOfMore(path[..k], SplitOn(path[k + 1..], '/'));
    }
  }

  lemma {:induction false} LastOfMore(head: string, parts: seq<string>)
    requires parts != []
    ensures ([head] + parts)[|[head] + parts| - 1] == parts[|parts| - 1]
  {
  }

  // ---------------------------------------------------------------- the candidates

  /** The path of the directory with these names. */
  function DirPath(segments: seq<string>): string {
    if segments == [] then "" else "/" + segments[0] + DirPath(segments[1..])
  }

  /** Without empty names at the end, which double slashes inside the path make. */
  function WithoutEmptyEnd(segments: seq<string>): seq<string> {
    if segments != [] && segments[|segments| - 1] == "" then WithoutEmptyEnd(segments[..|segments| - 1]) else segments
  }

  /** The file in the directory of the first `depth` segments, at the same origin. */
  function FileAt(url: Url, segments: seq<string>, depth: nat, filename: string): Url
    requires depth <= |segments|
  {
    url.(path := DirPath(WithoutEmptyEnd(segments[..depth])) + "/" + filename, query := None, fragment := None)
  }

  lemma {:induction false} DirPathSnoc(segments: seq<string>, last: string)
    ensures DirPath(segments + [last]) == DirPath(segments) + "/" + last
  {
    if segments == [] {
      assert (segments + [last])[1..] == [];
    } else {
      assert (segments + [last])[1..] == segments[1..] + [last];
      DirPathSnoc(segments[1..], last);
    }
  }

  lemma {:induction false} DirPathJoins(segments: seq<string>)
    requires segments != []
    ensures DirPath(segments) == "/" + Join(segments, "/")
  {
    if |segments| == 1 {
      assert segments[1..] == [];
    } else {
      DirPathJoins(segments[1..]);
    }
  }

  lemma {:induction false} TrimEndLast(s: string, c: char)
    ensures TrimEndChar(s + [c], c) == TrimEndChar(s, c)
  {
    assert (s + [c])[..|s + [c]| - 1] == s;
  }

  lemma {:induction false} DirPathTrimmed(segments: seq<string>)
    requires forall s <- segments :: '/' !in s
    ensures TrimEndChar(DirPath(segments), '/') == DirPath(WithoutEmptyEnd(segments))
    decreases |segments|
  {
    if segments != [] {
      var n := |segments| - 1;
      var init, last := segments[..n], segments[n];
      assert segments == init + [last];
      DirPathSnoc(init, last);
      if last == "" {
        assert DirPath(init) + "/" + last == DirPath(init) + ['/'];
        TrimEndLast(DirPath(init), '/');
        DirPathTrimmed(init);
      } else {
        assert last in segments && last[|last| - 1] in last;
      }
    }
  }

  lemma {:induction false} CandidateIs(url: Url, filename: string, segments: seq<string>, depth: nat)
    requires depth <= |segments| && forall s <- segments :: '/' !in s
    ensures FileIn(url, PrefixAt(segments, depth), filename) == FileAt(url, segments, depth, filename)
  {
    var some := segments[..depth];
    if depth == 0 {
      assert DirPath(WithoutEmptyEnd(some)) == "";
    } else {
      DirPathJoins(some);
      assert forall s <- some :: '/' !in s;
      DirPathTrimmed(some);
      assert WithoutEmptyEnd(some) == [] ==> DirPath(WithoutEmptyEnd(some)) == "";
    }
  }

  /** Picking files that are listed by falling depth. */
  lemma {:induction false} PicksFall(list: seq<Url>, files: seq<Url>, at: seq<nat>, n: nat, fileAt: nat -> Url)
    returns (depths: seq<nat>)
    requires Picks(list, files, at) && |files| == n + 1
    requires forall i: nat | i <= n :: files[i] == fileAt(n - i)
    ensures |depths| == |list|
    ensures forall i | 0 <= i < |list| :: depths[i] <= n && list[i] == fileAt(depths[i])
    ensures forall i, j | 0 <= i < j < |list| :: depths[i] > depths[j]
  {
    assert forall i | 0 <= i < |at| :: at[i] <= n;
    depths := seq(|at|, i requires 0 <= i < |at| => n - at[i]);
  }

  function FileAtDepth(url: Url, segments: seq<string>, filename: string): nat -> Url {
    (depth: nat) => if depth <= |segments| then FileAt(url, segments, depth, filename) else url
  }

  lemma {:induction false} FilesAre(url: Url, filename: string, segments: seq<string>)
    requires forall s <- segments :: '/' !in s
    ensures var files := Files(AllPrefixes(segments), FileMaker(url, filename));
      && |files| == |segments| + 1
      && forall i: nat | i <= |segments| :: files[i] == FileAtDepth(url, segments, filename)(|segments| - i)
  {
    forall i: nat | i <= |segments|
      ensures FileMaker(url, filename)(AllPrefixes(segments)[i]) == FileAt(url, segments, |segments| - i, filename)
    {
      CandidateIs(url, filename, segments, |segments| - i);
    }
  }

  /** The candidates are the files in the directories above the page, every one of them, the deepest
      first, and none twice. */
  lemma {:induction false} CandidatesAre(url: Url, filename: string) returns (depths: seq<nat>)
    ensures var segments, list := Segments(url), Candidates(url, filename);
      && |depths| == |list|
      && (forall i | 0 <= i < |list| ::
            depths[i] <= |segments| && list[i] == FileAt(url, segments, depths[i], filename))
      && (forall i, j | 0 <= i < j < |list| :: depths[i] > depths[j])
      && (forall i, j | 0 <= i < j < |list| :: list[i] != list[j])
  {
    var segments := Segments(url);
    var _, _, _ := SegmentsAre(url);
    var at := CandidatesDescend(url, filename);
    FilesAre(url, filename, segments);
    var files, fileAt := Files(AllPrefixes(segments), FileMaker(url, filename)), FileAtDepth(url, segments, filename);
    depths := PicksFall(Candidates(url, filename), files, at, |segments|, fileAt);
  }

  lemma {:induction false} NoneIsLeftOut(url: Url, filename: string, depth: nat)
    requires depth <= |Segments(url)|
    ensures FileAt(url, Segments(url), depth, filename) in Candidates(url, filename)
  {
    var segments := Segments(url);
    var _, _, _ := SegmentsAre(url);
    var _ := CandidatesDescend(url, filename);
    var prefix := AllPrefixes(segments)[|segments| - depth];
    CandidateIs(url, filename, segments, depth);
    assert prefix in AllPrefixes(segments) && prefix == PrefixAt(segments, depth);
  }

  /** In a path without double slashes no name is empty, and every directory keeps all its names. */
  lemma {:induction false} NothingToDrop(segments: seq<string>)
    requires forall s <- segments :: s != ""
    ensures WithoutEmptyEnd(segments) == segments
  {
    if segments != [] {
      assert segments[|segments| - 1] in segments;
    }
  }

  // ---------------------------------------------------------------- hosts

  lemma {:induction false} BelowIff(host: string, domain: string)
    ensures EndsWith(host, "." + domain) <==> exists name :: host == name + "." + domain
  {
    var suffix := "." + domain;
    if EndsWith(host, suffix) {
      Regroup(host[..|host| - |suffix|], ".", domain);
      assert host == host[..|host| - |suffix|] + suffix;
    }
    forall name | host == name + "." + domain ensures EndsWith(host, suffix) {
      Regroup(name, ".", domain);
      EndsWithSuffix(name, suffix);
    }
  }

  /** A pattern without the white space around it admits its own host, and with `*.` in front the
      rest of it and every host below that; the case of letters does not count. */
  lemma {:induction false} AdmitsIff(pattern: string, host: string)
    ensures var p := Lower(Trim(pattern));
      Admits(pattern, host) <==>
      && p != ""
      && if |p| >= 2 && p[0] == '*' && p[1] == '.' then host == p[2..] || exists name :: host == name + "." + p[2..]
         else host == p
  {
    var p := Lower(Trim(pattern));
    if "*." <= p {
      BelowIff(host, p[2..]);
    }
  }
}
