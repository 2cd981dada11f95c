/**
 What the reader asks for and whether it may (read.rs): URLs, domain allowlists, content types,
 the Markdown sibling of a page and the places where its llms.txt may be.
*/
module ReadTargets {
  import opened Dedup
  import opened Option
  import opened Result
  import opened Text

  /** A parsed URL without user information. The path of a parsed http URL starts with a slash. */
  datatype Url = Url(
    scheme: string, host: Option<string>, port: Option<nat>, path: string,
    query: Option<string>, fragment: Option<string>)

  /** `set_path` for paths built from parsed ones: it only has to supply the leading slash. */
  function SetPath(url: Url, path: string): Url {
    url.(path := if path != "" && path[0] == '/' then path else "/" + path)
  }

  datatype LlmsMode = Index | Full

  datatype ReadOptions = ReadOptions(
    raw: bool, requireMd: bool, llms: Option<LlmsMode>, outline: bool, filter: Option<string>,
    headers: map<string, string>, allowedDomains: seq<string>, enforcedDomains: seq<seq<string>>)

  /** Header names are compared without case. */
  predicate HasAcceptHeader(options: ReadOptions) {
    exists key <- options.headers.Keys :: Lower(key) == "accept"
  }

  // ---------------------------------------------------------------- content types

  function ContentTypeBase(contentType: string): string {
    Lower(Trim(SplitOn(contentType, ';')[0]))
  }

  predicate IsMarkdown(contentType: string) {
    ContentTypeBase(contentType) == "text/markdown"
  }

  predicate IsMarkdownLike(contentType: string) {
    ContentTypeBase(contentType) in {"text/markdown", "text/x-markdown", "application/markdown"}
  }

  predicate IsPlainText(contentType: string) {
    ContentTypeBase(contentType) == "text/plain"
  }

  predicate IsHtml(contentType: string) {
    ContentTypeBase(contentType) in {"text/html", "application/xhtml+xml"}
  }

  // ---------------------------------------------------------------- allowlists

  const DENIED := "Domain is not in the allowed domains list"
  const NO_HOST := "No hostname in URL"

  /** One pattern admits a lower-case host: exactly, or by a subdomain wildcard. */
  predicate Admits(pattern: string, host: string) {
    var p := Lower(Trim(pattern));
    && p != ""
    && if "*." <= p then host == p[2..] || EndsWith(host, "." + p[2..]) else host == p
  }

  /** `check_allowed_url`; the error texts are those of the source without the URL in them. */
  method CheckAllowedUrl(url: Url, domains: seq<string>) returns (r: Result<()>)
    ensures r == CheckAllowed(url, domains)
  {
    if domains == [] {
      return Ok(());
    }
    if url.host.None? {
      return Err(NO_HOST);
    }
    var host := Lower(url.host.value);
    for i := 0 to |domains|
      invariant forall j | 0 <= j < i :: !Admits(domains[j], host)
    {
      if Admits(domains[i], host) {
        return Ok(());
      }
    }
    r := Err(DENIED);
  }

  function CheckAllowed(url: Url, domains: seq<string>): Result<()> {
    if domains == [] then Ok(())
    else if url.host.None? then Err(NO_HOST)
    else if exists p <- domains :: Admits(p, Lower(url.host.value)) then Ok(())
    else Err(DENIED)
  }

  function CheckSets(url: Url, sets: seq<seq<string>>): Result<()> {
    if sets == [] then Ok(())
    else
      match CheckAllowed(url, sets[0])
      case Err(e) => Err(e)
      case Ok(_) => CheckSets(url, sets[1..])
  }

  /** The check before every request. */
  function CheckAllowedForOptions(url: Url, options: ReadOptions): Result<()> {
    match CheckAllowed(url, options.allowedDomains)
    case Err(e) => Err(e)
    case Ok(_) => CheckSets(url, options.enforcedDomains)
  }

  function NonEmptySets(sets: seq<seq<string>>): seq<seq<string>> {
    if sets == [] then []
    else (if sets[0] == [] then [] else [sets[0]]) + NonEmptySets(sets[1..])
  }

  /** The lists that the redirect policy checks. */
  function DomainSets(options: ReadOptions): seq<seq<string>> {
    (if options.allowedDomains == [] then [] else [options.allowedDomains]) + NonEmptySets(options.enforcedDomains)
  }

  /** A redirect is followed exactly when the same URL could have been asked for. */
  lemma {:induction false} RedirectCheckAgrees(url: Url, options: ReadOptions)
    ensures CheckSets(url, DomainSets(options)) == CheckAllowedForOptions(url, options)
  {
    NonEmptySetsSuffice(url, options.enforcedDomains);
    var rest := NonEmptySets(options.enforcedDomains);
    assert DomainSets(options) == if options.allowedDomains == [] then rest else [options.allowedDomains] + rest;
    assert ([options.allowedDomains] + rest)[1..] == rest;
  }

  lemma {:induction false} NonEmptySetsSuffice(url: Url, sets: seq<seq<string>>)
    ensures CheckSets(url, NonEmptySets(sets)) == CheckSets(url, sets)
  {
    if sets != [] {
      NonEmptySetsSuffice(url, sets[1..]);
      var rest := NonEmptySets(sets[1..]);
      assert NonEmptySets(sets) == if sets[0] == [] then rest else [sets[0]] + rest;
      assert ([sets[0]] + rest)[1..] == rest;
    }
  }

  /** Every non-empty list has a pattern that admits the host. */
  ghost predicate Permitted(url: Url, options: ReadOptions) {
    forall domains | domains in [options.allowedDomains] + options.enforcedDomains && domains != [] ::
      url.host.Some? && exists p <- domains :: Admits(p, Lower(url.host.value))
  }

  lemma {:induction false} CheckSetsIff(url: Url, sets: seq<seq<string>>)
    ensures CheckSets(url, sets).Ok? <==> forall domains <- sets :: CheckAllowed(url, domains).Ok?
  {
    if sets != [] {
      CheckSetsIff(url, sets[1..]);
      assert forall domains :: domains in sets <==> domains == sets[0] || domains in sets[1..];
    }
  }

  /** The check lets a URL through exactly when every list permits it. */
  lemma {:induction false} CheckIsPermitted(url: Url, options: ReadOptions)
    ensures CheckAllowedForOptions(url, options).Ok? <==> Permitted(url, options)
  {
    var all := [options.allowedDomains] + options.enforcedDomains;
    assert all[0] == options.allowedDomains && all[1..] == options.enforcedDomains;
    CheckSetsIff(url, all);
  }

  // ---------------------------------------------------------------- the Markdown sibling

  function SiblingPath(path: string): string {
    if path == "/" || path == "" then "/index.md" else TrimEndChar(path, '/') + ".md"
  }

  function MarkdownFallbackUrl(url: Url): Option<Url> {
    if EndsWith(url.path, ".md") then None else Some(SetPath(url, SiblingPath(url.path)))
  }

  lemma {:induction false} EndsWithSuffix(s: string, suffix: string)
    ensures EndsWith(s + suffix, suffix)
  {
  }

  lemma {:induction false} SiblingPathEnds(path: string)
    ensures EndsWith(SiblingPath(path), ".md") && EndsWith("/" + SiblingPath(path), ".md")
  {
    var stem := if path == "/" || path == "" then "/index" else TrimEndChar(path, '/');
    assert SiblingPath(path) == stem + ".md";
    EndsWithSuffix(stem, ".md");
    EndsWithSuffix("/" + stem, ".md");
    assert "/" + stem + ".md" == "/" + (stem + ".md");
  }

  /** A page has a Markdown sibling unless it is Markdown by name; the sibling is, so it has none. */
  lemma {:induction false} SiblingIsMarkdown(url: Url)
    ensures MarkdownFallbackUrl(url).None? <==> EndsWith(url.path, ".md")
    ensures MarkdownFallbackUrl(url).Some? ==>
      var sibling := MarkdownFallbackUrl(url).value;
      && EndsWith(sibling.path, ".md") && sibling.path[0] == '/'
      && sibling == url.(path := sibling.path)
      && MarkdownFallbackUrl(sibling).None?
  {
    SiblingPathEnds(url.path);
  }

  /** The allowlists look at the host only. */
  lemma {:induction false} SameHostSamePermission(a: Url, b: Url, options: ReadOptions)
    requires a.host == b.host
    ensures Permitted(a, options) == Permitted(b, options)
  {
  }

  // ---------------------------------------------------------------- where llms.txt may be

  /** The path segments that count: those between the outer slashes. */
  function Segments(url: Url): seq<string> {
    var path := TrimChar(url.path, '/');
    if path == "" then [] else SplitOn(path, '/')
  }

  function PrefixAt(segments: seq<string>, depth: nat): string
    requires depth <= |segments|
  {
    if depth == 0 then "" else "/" + Join(segments[..depth], "/")
  }

  function PathIn(prefix: string, filename: string): string {
    if prefix == "" then "/" + filename else TrimEndChar(prefix, '/') + "/" + filename
  }

  function FileIn(url: Url, prefix: string, filename: string): Url {
    SetPath(url, PathIn(prefix, filename)).(query := None, fragment := None)
  }

  function FileMaker(url: Url, filename: string): string -> Url {
    prefix => FileIn(url, prefix, filename)
  }

  /** The prefixes of all ancestor directories, the deepest first, the root last. */
  function AllPrefixes(segments: seq<string>): (r: seq<string>)
    ensures |r| == |segments| + 1 && r[|segments|] == ""
  {
    seq(|segments| + 1, i requires 0 <= i < |segments| + 1 => PrefixAt(segments, |segments| - i))
  }

  function Files(prefixes: seq<string>, fileIn: string -> Url): (r: seq<Url>)
    ensures |r| == |prefixes|
  {
    seq(|prefixes|, i requires 0 <= i < |prefixes| => fileIn(prefixes[i]))
  }

  function Same(url: Url): Url { url }

  function Candidates(url: Url, filename: string): seq<Url> {
    Firsts(Files(AllPrefixes(Segments(url)), FileMaker(url, filename)), Same, {})
  }

  /** The first loop of `llms_file_candidates`. */
  method Prefixes(segments: seq<string>) returns (prefixes: seq<string>)
    ensures prefixes == AllPrefixes(segments)
  {
    prefixes := [];
    var len := |segments|;
    ghost var all := AllPrefixes(segments);
    while len > 0
      invariant 0 <= len <= |segments|
      invariant prefixes == all[..|segments| - len]
    {
      assert all[|segments| - len] == PrefixAt(segments, len);
      prefixes := prefixes + ["/" + Join(segments[..len], "/")];
      len := len - 1;
    }
    prefixes := prefixes + [""];
  }

  /** The second loop: the files in the directories, none twice. */
  method DistinctFiles(prefixes: seq<string>, fileIn: string -> Url) returns (candidates: seq<Url>)
    ensures candidates == Firsts(Files(prefixes, fileIn), Same, {})
  {
    candidates := [];
    ghost var all := Files(prefixes, fileIn);
    ghost var goal := Firsts(all, Same, {});
    ghost var seen: set<Url> := {};
    for i := 0 to |prefixes|
      invariant goal == candidates + Firsts(all[i..], Same, seen)
      invariant forall u :: u in seen <==> u in candidates
    {
      var candidate := fileIn(prefixes[i]);
      assert all[i..][0] == candidate && all[i..][1..] == all[i + 1..];
      if candidate !in candidates {
        Regroup(candidates, [candidate], Firsts(all[i + 1..], Same, seen + {candidate}));
        candidates := candidates + [candidate];
        seen := seen + {candidate};
      }
    }
  }

  method LlmsFileCandidates(url: Url, filename: string) returns (candidates: seq<Url>)
    ensures candidates == Candidates(url, filename)
  {
    var prefixes := Prefixes(Segments(url));
    candidates := DistinctFiles(prefixes, FileMaker(url, filename));
  }

  lemma {:induction false} DistinctUrls(all: seq<Url>) returns (at: seq<nat>)
    ensures var list := Firsts(all, Same, {});
      && |list| <= |all|
      && Picks(list, all, at)
      && (forall i, j | 0 <= i < j < |list| :: list[i] != list[j])
      && (forall u <- all :: u in list)
  {
    var list := Firsts(all, Same, {});
    at := FirstsPick(all, Same, {});
    FirstsAreDistinct(all, Same, {});
    assert forall i, j | 0 <= i < j < |list| :: Same(list[i]) != Same(list[j]);
    forall u <- all ensures u in list {
      var k :| 0 <= k < |all| && all[k] == u;
      assert Same(all[k]) == u;
      FirstsKeepKeys(all, Same, {}, u);
      var j :| 0 <= j < |list| && Same(list[j]) == u;
    }
    IncreasingIsShort(at, 0, |all|);
  }

  /** Every ancestor directory is in the list, from the deepest to the root, none twice. */
  lemma {:induction false} CandidatesDescend(url: Url, filename: string) returns (at: seq<nat>)
    ensures var prefixes, list := AllPrefixes(Segments(url)), Candidates(url, filename);
      && 1 <= |list| <= |Segments(url)| + 1
      && Picks(list, Files(prefixes, FileMaker(url, filename)), at)
      && (forall i, j | 0 <= i < j < |list| :: list[i] != list[j])
      && (forall p <- prefixes :: FileMaker(url, filename)(p) in list)
  {
    at := FilesDescend(AllPrefixes(Segments(url)), FileMaker(url, filename));
  }

  lemma {:induction false} FilesDescend(prefixes: seq<string>, fileIn: string -> Url) returns (at: seq<nat>)
    requires prefixes != []
    ensures var list := Firsts(Files(prefixes, fileIn), Same, {});
      && 1 <= |list| <= |prefixes|
      && Picks(list, Files(prefixes, fileIn), at)
      && (forall i, j | 0 <= i < j < |list| :: list[i] != list[j])
      && (forall p <- prefixes :: fileIn(p) in list)
  {
    var all := Files(prefixes, fileIn);
    at := DistinctUrls(all);
    forall p <- prefixes ensures fileIn(p) in Firsts(all, Same, {}) {
      var i :| 0 <= i < |prefixes| && prefixes[i] == p;
      assert all[i] == fileIn(p);
    }
    assert all[0] in Firsts(all, Same, {});
  }

  /** A candidate is on the host of the page, so it may be asked for when the page may. */
  lemma {:induction false} CandidatesStayOnHost(url: Url, filename: string, options: ReadOptions)
    ensures forall c <- Candidates(url, filename) ::
      && c.scheme == url.scheme && c.host == url.host && c.port == url.port
      && Permitted(c, options) == Permitted(url, options)
  {
    var prefixes, list := AllPrefixes(Segments(url)), Candidates(url, filename);
    var at := CandidatesDescend(url, filename);
    forall i | 0 <= i < |list|
      ensures list[i].scheme == url.scheme && list[i].host == url.host && list[i].port == url.port
      ensures Permitted(list[i], options) == Permitted(url, options)
    {
      FileStaysOnHost(url, prefixes[at[i]], filename);
      SameHostSamePermission(list[i], url, options);
    }
  }

  lemma {:induction false} FileStaysOnHost(url: Url, prefix: string, filename: string)
    ensures var c := FileMaker(url, filename)(prefix);
      c.scheme == url.scheme && c.host == url.host && c.port == url.port
  {
  }

  lemma {:induction false} IncreasingIsShort(at: seq<nat>, low: nat, bound: nat)
    requires low <= bound && forall i | 0 <= i < |at| :: low <= at[i] < bound
    requires forall i, j | 0 <= i < j < |at| :: at[i] < at[j]
    ensures |at| <= bound - low
  {
    if at != [] {
      IncreasingIsShort(at[1..], at[0] + 1, bound);
    }
  }

  lemma {:induction false} RootFile(url: Url, filename: string)
    ensures FileMaker(url, filename)("") == url.(path := "/" + filename, query := None, fragment := None)
  {
  }

  /** The file at the root comes last. */
  lemma {:induction false} RootIsLast(url: Url, filename: string)
    ensures var list := Candidates(url, filename);
      list != [] && list[|list| - 1] == url.(path := "/" + filename, query := None, fragment := None)
  {
    var fileIn, prefixes := FileMaker(url, filename), AllPrefixes(Segments(url));
    forall i | 0 <= i < |prefixes| - 1 ensures fileIn(prefixes[i]) != fileIn(prefixes[|prefixes| - 1]) {
      OthersDiffer(url, filename, prefixes, fileIn, i);
    }
    LastFileIsLast(prefixes, fileIn);
    RootFile(url, filename);
  }

  lemma {:induction false} OthersDiffer(
    url: Url, filename: string, prefixes: seq<string>, fileIn: string -> Url, i: nat)
    requires prefixes == AllPrefixes(Segments(url)) && fileIn == FileMaker(url, filename) && i < |prefixes| - 1
    ensures fileIn(prefixes[i]) != fileIn(prefixes[|prefixes| - 1])
  {
    var depth := |Segments(url)| - i;
    var prefix := PrefixAt(Segments(url), depth);
    assert prefixes[i] == prefix;
    assert FileIn(url, prefix, filename) != FileIn(url, "", filename) by { DeeperDiffers(url, filename, depth); }
    MakerMakes(url, filename, prefix);
    MakerMakes(url, filename, "");
  }

  lemma {:induction false} MakerMakes(url: Url, filename: string, prefix: string)
    ensures FileMaker(url, filename)(prefix) == FileIn(url, prefix, filename)
  {
  }

  lemma {:induction false} LastFileIsLast(prefixes: seq<string>, fileIn: string -> Url)
    requires prefixes != []
    requires forall i | 0 <= i < |prefixes| - 1 :: fileIn(prefixes[i]) != fileIn(prefixes[|prefixes| - 1])
    ensures var list := Firsts(Files(prefixes, fileIn), Same, {});
      list != [] && list[|list| - 1] == fileIn(prefixes[|prefixes| - 1])
  {
    var all := Files(prefixes, fileIn);
    forall i | 0 <= i < |all| - 1 ensures Same(all[i]) != Same(all[|all| - 1]) {
      assert fileIn(prefixes[i]) != fileIn(prefixes[|prefixes| - 1]);
    }
    LastStaysLast(all, Same, {});
  }

  lemma {:induction false} DeeperDiffers(url: Url, filename: string, depth: nat)
    requires 0 < depth <= |Segments(url)|
    ensures FileIn(url, PrefixAt(Segments(url), depth), filename) != FileIn(url, "", filename)
  {
    var path := TrimChar(url.path, '/');
    assert path <= TrimStartChar(url.path, '/');
    DeeperIsLonger(Segments(url), filename, depth, path);
  }

  lemma {:induction false} DeeperIsLonger(segments: seq<string>, filename: string, depth: nat, path: string)
    requires 0 < depth <= |segments|
    requires path != "" && path[0] != '/' && segments == SplitOn(path, '/')
    ensures |PathIn(PrefixAt(segments, depth), filename)| > 1 + |filename|
  {
    FirstSegment(path);
    var some := segments[..depth];
    assert some[0] == segments[0];
    var prefix := "/" + Join(some, "/");
    assert segments[0] <= Join(some, "/");
    assert prefix[1] == segments[0][0] != '/';
  }

  lemma {:induction false} FirstSegment(path: string)
    requires path != "" && path[0] != '/'
    ensures SplitOn(path, '/')[0] != "" && SplitOn(path, '/')[0][0] == path[0]
  {
    AtChar(path, '/', 0);
  }
}
