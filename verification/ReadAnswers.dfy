/**
 Which answer `run_read` gives, stated over what the server serves: the order of the fallbacks, and
 of each report its source label, its content and the response that it describes.
*/
module ReadAnswers {
  import opened ContentTypes
  import opened Numbers
  import opened Option
  import opened ReadFlow
  import opened ReadSafety
  import opened ReadTargets
  import opened Result
  import opened Text

  // ---------------------------------------------------------------- reports

  /** Every field of a report: it describes the response `fetch`, names its source, and holds the
      content, or what the outline or the filter makes of it. */
  predicate Describes(
    ctx: Context, report: Report, target: Url, fetch: Fetch, source: string, content: string)
  {
    && report.url == target
    && report.finalUrl == fetch.finalUrl && report.status == fetch.status
    && report.contentType == fetch.contentType && report.truncated == fetch.truncated
    && report.source == source + (if ctx.options.outline then "-outline"
                                  else if ctx.options.filter.Some? then "-filtered" else "")
    && report.content == if ctx.options.outline || ctx.options.filter.Some?
                         then ctx.views.page(ctx.options, content, fetch.finalUrl) else content
  }

  predicate Answers(
    ctx: Context, result: Result<Report>, target: Url, fetch: Fetch, source: string, content: string)
  {
    result.Ok? && Describes(ctx, result.value, target, fetch, source, content)
  }

  /** The refusal of a response that is not text/markdown names its content type. */
  ghost predicate Refuses(result: Result<Report>, contentType: string) {
    exists name :: HasName(contentType, name)
      && result == Err("Expected text/markdown, got " + if name == "" then "unknown content type" else name)
  }

  /** The first response as the answer: by its content type, unless the raw body is wanted. */
  ghost predicate GivesFirst(ctx: Context, target: Url, first: Fetch, result: Result<Report>) {
    if ctx.options.requireMd && !IsType(first.contentType, "text/markdown") then Refuses(result, first.contentType)
    else if ctx.options.raw then Answers(ctx, result, target, first, "raw", first.body)
    else if IsSomeMarkdown(first.contentType) then Answers(ctx, result, target, first, "accept-markdown", first.body)
    else if IsType(first.contentType, "text/plain") then Answers(ctx, result, target, first, "text", first.body)
    else if IsPage(first.contentType) then
      Answers(ctx, result, target, first, "html-fallback", ctx.views.html(first.body))
    else Answers(ctx, result, target, first, "raw", first.body)
  }

  lemma {:induction false} ReportDescribes(ctx: Context, target: Url, fetch: Fetch, source: string, content: string)
    ensures Describes(ctx, PageReport(ctx, target, fetch, source, content), target, fetch, source, content)
  {
    assert source + "" == source;
  }

  lemma {:induction false} RefusalNames(contentType: string)
    ensures Refuses(Err(ExpectedMarkdown(contentType)), contentType)
  {
    NameIsThere(contentType);
  }

  lemma {:induction false} FirstIsGiven(ctx: Context, target: Url, first: Fetch)
    ensures GivesFirst(ctx, target, first, FromPrimary(ctx, target, first))
  {
    KindsAre(first.contentType);
    RefusalNames(first.contentType);
    var (source, content) := PrimaryContent(ctx, first);
    ReportDescribes(ctx, target, first, source, content);
  }

  // ---------------------------------------------------------------- the sibling

  predicate MaySearch(options: ReadOptions) {
    !options.raw && forall key <- options.headers.Keys :: Lower(key) != "accept"
  }

  /** Asked next, the page with `.md` appended brings a usable response. */
  ghost predicate SiblingServes(ctx: Context, target: Url, first: Fetch, sibling: Url, fetch: Fetch) {
    && MaySearch(ctx.options) && !IsType(first.contentType, "text/markdown")
    && MarkdownFallbackUrl(target) == Some(sibling) && Permitted(sibling, ctx.options)
    && ctx.server([Call(target, true)], sibling) == Ok(fetch) && fetch.success
    && (|| IsType(fetch.contentType, "text/markdown")
        || (!ctx.options.requireMd && (IsSomeMarkdown(fetch.contentType) || IsType(fetch.contentType, "text/plain"))))
  }

  ghost predicate SiblingAnswers(ctx: Context, target: Url, first: Fetch, result: Result<Report>) {
    exists sibling, fetch ::
      SiblingServes(ctx, target, first, sibling, fetch)
      && Answers(ctx, result, target, fetch, "path-markdown", fetch.body)
  }

  lemma {:induction false} SiblingServesIff(ctx: Context, target: Url, first: Fetch, sibling: Url, fetch: Fetch)
    ensures SiblingServes(ctx, target, first, sibling, fetch) <==>
      && !ctx.options.raw && !IsMarkdown(first.contentType) && ShouldTryMarkdown(ctx.options)
      && MarkdownFallbackUrl(target) == Some(sibling) && Permitted(sibling, ctx.options)
      && ctx.server([Call(target, true)], sibling) == Ok(fetch) && fetch.success
      && FallbackUsable(fetch.contentType, ctx.options)
  {
    KindsAre(first.contentType);
    KindsAre(fetch.contentType);
  }

  lemma {:induction false} SiblingTried(ctx: Context, target: Url, first: Fetch)
    ensures var r := TryMarkdownSibling(ctx, [Call(target, true)], target, first).1;
      if r.Some? then SiblingAnswers(ctx, target, first, Ok(r.value))
      else forall sibling, fetch :: !SiblingServes(ctx, target, first, sibling, fetch)
  {
    var r := TryMarkdownSibling(ctx, [Call(target, true)], target, first).1;
    if MarkdownFallbackUrl(target).Some? {
      CheckIsPermitted(MarkdownFallbackUrl(target).value, ctx.options);
    }
    if r.Some? {
      var sibling := MarkdownFallbackUrl(target).value;
      var fetch := ctx.server([Call(target, true)], sibling).value;
      SiblingServesIff(ctx, target, first, sibling, fetch);
      ReportDescribes(ctx, target, fetch, "path-markdown", fetch.body);
    } else {
      forall sibling, fetch ensures !SiblingServes(ctx, target, first, sibling, fetch) {
        SiblingServesIff(ctx, target, first, sibling, fetch);
      }
    }
  }

  // ---------------------------------------------------------------- the linked page

  /** The nearest llms.txt links to a page for the target, and that page brings `fetch`. */
  ghost predicate LinkServes(ctx: Context, target: Url, first: Fetch, k: nat, link: Url, fetch: Fetch) {
    var log := BeforeLlms(ctx, target, first);
    && MaySearch(ctx.options) && LinkedAt(ctx, log, target, k, link)
    && ctx.server(Asked(log, Candidates(target, "llms.txt"), k + 1), link) == Ok(fetch)
  }

  ghost predicate LinkAnswers(ctx: Context, target: Url, first: Fetch, result: Result<Report>) {
    exists k, link, fetch ::
      LinkServes(ctx, target, first, k, link, fetch)
      && Answers(ctx, result, target, fetch, "llms-link",
                 if IsPage(fetch.contentType) then ctx.views.html(fetch.body) else fetch.body)
  }

  lemma {:induction false} LinkedIsRead(ctx: Context, log: seq<Call>, target: Url, link: Url)
    requires Permitted(link, ctx.options)
    requires ctx.server(log, link).Ok? && Qualifies(ctx.server(log, link).value, ctx.options)
    ensures var fetch, r := ctx.server(log, link).value, ReadLinked(ctx, log, target, link).1;
      r.Some? && Answers(ctx, Ok(r.value), target, fetch, "llms-link",
                         if IsPage(fetch.contentType) then ctx.views.html(fetch.body) else fetch.body)
  {
    CheckIsPermitted(link, ctx.options);
    var fetch := ctx.server(log, link).value;
    KindsAre(fetch.contentType);
    var content := if IsHtml(fetch.contentType) then ctx.views.html(fetch.body) else fetch.body;
    ReportDescribes(ctx, target, fetch, "llms-link", content);
  }

  lemma {:induction false} LinkTried(ctx: Context, target: Url, first: Fetch)
    requires MaySearch(ctx.options)
    ensures var r := TryLlmsLink(ctx, BeforeLlms(ctx, target, first), target).1;
      if r.Some? then LinkAnswers(ctx, target, first, Ok(r.value))
      else forall k, link, fetch :: !LinkServes(ctx, target, first, k, link, fetch)
  {
    var log, candidates := BeforeLlms(ctx, target, first), Candidates(target, "llms.txt");
    LinkIff(ctx, log, target);
    var r := TryLlmsLink(ctx, log, target).1;
    if r.Some? {
      var k := NearestIsThere(ctx, log, candidates);
      var link := LinkAtNearest(ctx, log, target, k);
      OptionalIsNearest(ctx, log, candidates, k);
      var log1 := Asked(log, candidates, k + 1);
      LinkedIsRead(ctx, log1, target, link);
      assert LinkServes(ctx, target, first, k, link, ctx.server(log1, link).value);
    }
  }

  // ---------------------------------------------------------------- the order

  ghost predicate HasSibling(ctx: Context, target: Url, first: Fetch) {
    exists sibling, fetch :: SiblingServes(ctx, target, first, sibling, fetch)
  }

  ghost predicate HasLink(ctx: Context, target: Url, first: Fetch) {
    exists k, link, fetch :: LinkServes(ctx, target, first, k, link, fetch)
  }

  /** The first response is a success, asked for as it is or served as Markdown. */
  ghost predicate IsWanted(options: ReadOptions, first: Fetch) {
    && first.success
    && (options.raw || IsType(first.contentType, "text/markdown")
        || (!options.requireMd && IsSomeMarkdown(first.contentType)))
  }

  ghost predicate IsWantedText(options: ReadOptions, first: Fetch) {
    first.success && !options.requireMd && IsType(first.contentType, "text/plain")
  }

  /** Which answer is given: the first response when it can be used as it is; else the sibling; else
      a first response in plain text; else the linked page; else the first response, if it was a
      success. */
  ghost predicate AnswersInOrder(ctx: Context, target: Url, first: Fetch, result: Result<Report>) {
    if IsWanted(ctx.options, first) then GivesFirst(ctx, target, first, result)
    else if HasSibling(ctx, target, first) then SiblingAnswers(ctx, target, first, result)
    else if IsWantedText(ctx.options, first) then GivesFirst(ctx, target, first, result)
    else if HasLink(ctx, target, first) then LinkAnswers(ctx, target, first, result)
    else if !first.success then result == Err("Read failed with HTTP " + Render(first.status, 10))
    else GivesFirst(ctx, target, first, result)
  }

  lemma {:induction false} LastInOrder(ctx: Context, target: Url, first: Fetch)
    requires !IsWanted(ctx.options, first) && !HasSibling(ctx, target, first)
    ensures AnswersInOrder(ctx, target, first, AfterSibling(ctx, BeforeLlms(ctx, target, first), target, first).result)
  {
    KindsAre(first.contentType);
    FirstIsGiven(ctx, target, first);
    if MaySearch(ctx.options) {
      LinkTried(ctx, target, first);
    }
  }

  lemma {:induction false} LaterInOrder(ctx: Context, target: Url, first: Fetch)
    requires !IsWanted(ctx.options, first)
    ensures AnswersInOrder(ctx, target, first, AfterPrimary(ctx, [Call(target, true)], target, first).result)
  {
    SiblingTried(ctx, target, first);
    SiblingIff(ctx, target, first);
    if !HasSibling(ctx, target, first) {
      LastInOrder(ctx, target, first);
    }
  }

  lemma {:induction false} PageInOrder(ctx: Context, target: Url, first: Fetch)
    requires ctx.server([], target) == Ok(first) && Permitted(target, ctx.options)
    ensures AnswersInOrder(ctx, target, first, RunPage(ctx, target).result)
  {
    CheckIsPermitted(target, ctx.options);
    assert [] + [Call(target, true)] == [Call(target, true)];
    KindsAre(first.contentType);
    if IsWanted(ctx.options, first) {
      FirstIsGiven(ctx, target, first);
    } else {
      LaterInOrder(ctx, target, first);
    }
  }

  /** The answer for every page that may be asked for, whatever the server serves. */
  lemma {:induction false} PageAnswers(ctx: Context, target: Url)
    requires Permitted(target, ctx.options) && ctx.options.llms.None?
    ensures match ctx.server([], target)
      case Err(e) => RunTarget(ctx, target).result == Err("Read request failed: " + e)
      case Ok(first) => AnswersInOrder(ctx, target, first, RunTarget(ctx, target).result)
  {
    CheckIsPermitted(target, ctx.options);
    if ctx.server([], target).Ok? {
      PageInOrder(ctx, target, ctx.server([], target).value);
    }
  }

  // ---------------------------------------------------------------- the llms modes

  /** All candidates before k are asked and are no llms file, and candidate k, if there is one, ends the search. */
  ghost predicate SearchEndsAt(ctx: Context, log: seq<Call>, candidates: seq<Url>, k: nat) {
    && k <= |candidates|
    && (forall j: nat | j < k :: NoFileAt(ctx, log, candidates, j))
    && (k < |candidates| ==> !NoFileAt(ctx, log, candidates, k))
  }

  /** What the file search gives then. */
  ghost predicate SearchGives(
    ctx: Context, log: seq<Call>, candidates: seq<Url>, filename: string, last: Option<nat>, k: nat, r: Result<Fetch>)
    requires k <= |candidates|
  {
    if k == |candidates| then
      r == Err(NoLlmsFile(filename,
                          if k == 0 then last
                          else match ctx.server(Asked(log, candidates, k - 1), candidates[k - 1])
                               case Ok(fetch) => Some(fetch.status) case Err(_) => None))
    else
      match ctx.server(Asked(log, candidates, k), candidates[k])
      case Err(e) => r == Err("Read request failed: " + e)
      case Ok(fetch) =>
        r == if ctx.options.requireMd && !IsMarkdown(fetch.contentType) then Err(ExpectedMarkdown(fetch.contentType))
             else Ok(fetch)
  }

  ghost predicate AllPermitted(candidates: seq<Url>, options: ReadOptions) {
    forall c <- candidates :: Permitted(c, options)
  }

  lemma {:induction false} EndsBehind(ctx: Context, log: seq<Call>, candidates: seq<Url>, k: nat)
    requires NoFileAt(ctx, log, candidates, 0)
    requires SearchEndsAt(ctx, log + [Call(candidates[0], true)], candidates[1..], k)
    ensures SearchEndsAt(ctx, log, candidates, k + 1)
  {
    var log1, others := log + [Call(candidates[0], true)], candidates[1..];
    forall j: nat | j < |others|
      ensures others[j] == candidates[j + 1] && NoFileAt(ctx, log1, others, j) == NoFileAt(ctx, log, candidates, j + 1)
    {
      AskedNext(log, candidates, j);
    }
    NoFilesShift(ctx, log, candidates, log1, others, k);
  }

  lemma {:induction false} GivesBehind(
    ctx: Context, log: seq<Call>, candidates: seq<Url>, filename: string, last: Option<nat>, k: nat, r: Result<Fetch>)
    requires NoFileAt(ctx, log, candidates, 0) && k < |candidates|
    requires var status := Some(ctx.server(Asked(log, candidates, 0), candidates[0]).value.status);
      SearchGives(ctx, log + [Call(candidates[0], true)], candidates[1..], filename, status, k, r)
    ensures SearchGives(ctx, log, candidates, filename, last, k + 1, r)
  {
    if k < |candidates| - 1 {
      AskedNext(log, candidates, k);
    } else if k > 0 {
      AskedNext(log, candidates, k - 1);
    }
  }

  /** The search for the file of an llms mode. */
  lemma {:induction false} SearchIs(
    ctx: Context, log: seq<Call>, candidates: seq<Url>, filename: string, last: Option<nat>) returns (k: nat)
    requires AllPermitted(candidates, ctx.options)
    ensures SearchEndsAt(ctx, log, candidates, k)
    ensures SearchGives(ctx, log, candidates, filename, last, k, FirstLlmsFile(ctx, log, candidates, filename, last).1)
    decreases |candidates|
  {
    k := 0;
    if candidates != [] {
      CheckIsPermitted(candidates[0], ctx.options);
      assert Asked(log, candidates, 0) == log;
      var answer := ctx.server(log, candidates[0]);
      if Unusable(answer) {
        var log1, status := log + [Call(candidates[0], true)], Some(answer.value.status);
        k := SearchIs(ctx, log1, candidates[1..], filename, status);
        EndsBehind(ctx, log, candidates, k);
        var r := FirstLlmsFile(ctx, log1, candidates[1..], filename, status).1;
        GivesBehind(ctx, log, candidates, filename, last, k, r);
        k := k + 1;
      }
    }
  }

  /** Every field of the report of an llms file: the links of an index, or the whole file or its
      filtered sections. Neither the outline nor the label of a filter applies. */
  predicate GivesFile(ctx: Context, target: Url, mode: LlmsMode, fetch: Fetch, result: Result<Report>) {
    match mode
    case Index =>
      (match ctx.views.index(fetch.body, fetch.finalUrl, ctx.options.filter)
       case Err(e) => result == Err(e)
       case Ok(content) => result == Ok(Report(
         target, fetch.finalUrl, fetch.status, fetch.contentType, "llms-index", fetch.truncated, content)))
    case Full =>
      result == Ok(Report(
        target, fetch.finalUrl, fetch.status, fetch.contentType, "llms-full", fetch.truncated,
        if ctx.options.filter.None? then fetch.body else ctx.views.full(fetch.body, ctx.options.filter.value)))
  }

  function FileOf(mode: LlmsMode): string {
    match mode
    case Index => "llms.txt"
    case Full => "llms-full.txt"
  }

  /** The answer of an llms mode when the search ends at candidate k, or finds nothing at all. */
  ghost predicate LlmsAnswers(ctx: Context, target: Url, mode: LlmsMode, k: nat, result: Result<Report>) {
    var candidates := Candidates(target, FileOf(mode));
    && SearchEndsAt(ctx, [], candidates, k)
    && if k == |candidates| then
         && k > 0
         && var last := ctx.server(Asked([], candidates, k - 1), candidates[k - 1]);
            last.Ok? && result == Err(FileOf(mode) + " failed with HTTP " + Render(last.value.status, 10))
       else
         match ctx.server(Asked([], candidates, k), candidates[k])
         case Err(e) => result == Err("Read request failed: " + e)
         case Ok(fetch) =>
           if ctx.options.requireMd && !IsType(fetch.contentType, "text/markdown")
           then Refuses(result, fetch.contentType)
           else GivesFile(ctx, target, mode, fetch, result)
  }

  lemma {:induction false} FileIsGiven(ctx: Context, target: Url, mode: LlmsMode, k: nat)
    requires var candidates := Candidates(target, FileOf(mode));
      && SearchEndsAt(ctx, [], candidates, k) && candidates != []
      && var r := FirstLlmsFile(ctx, [], candidates, FileOf(mode), None).1;
         SearchGives(ctx, [], candidates, FileOf(mode), None, k, r)
    ensures LlmsAnswers(ctx, target, mode, k, RunLlms(ctx, target, mode).result)
  {
    var candidates := Candidates(target, FileOf(mode));
    if k == |candidates| {
      assert NoFileAt(ctx, [], candidates, k - 1);
    } else {
      var answer := ctx.server(Asked([], candidates, k), candidates[k]);
      if answer.Ok? {
        KindsAre(answer.value.contentType);
        RefusalNames(answer.value.contentType);
      }
    }
  }

  /** The answer of an llms mode, whatever the server serves: the file of the nearest directory that
      has one, or the first error on the way there. */
  lemma {:induction false} FileAnswers(ctx: Context, target: Url, mode: LlmsMode) returns (k: nat)
    requires Permitted(target, ctx.options) && ctx.options.llms == Some(mode)
    ensures LlmsAnswers(ctx, target, mode, k, RunTarget(ctx, target).result)
  {
    CheckIsPermitted(target, ctx.options);
    var candidates := Candidates(target, FileOf(mode));
    CandidatesStayOnHost(target, FileOf(mode), ctx.options);
    var _ := CandidatesDescend(target, FileOf(mode));
    k := SearchIs(ctx, [], candidates, FileOf(mode), None);
    FileIsGiven(ctx, target, mode, k);
  }

  // ---------------------------------------------------------------- the target

  /** The text that the caller gave, without white space around it and with a scheme. */
  ghost predicate IsFullUrl(raw: string, full: string) {
    exists lead, text, tail ::
      && raw == lead + text + tail && Blank(lead) && Blank(tail) && Trimmed(text) && text != ""
      && full == (if exists k :: At(text, "://", k) then text else "https://" + text)
  }

  /** The page to read: the text given, with `https://` in front when it names no scheme, if that is
      an http or https URL with a host; its fragment is dropped. */
  lemma {:induction false} TargetIff(parse: string -> Option<Url>, raw: string, target: Url)
    ensures NormalizeUrl(parse, raw) == Ok(target)
      <==> exists full :: IsFullUrl(raw, full) && IsTargetOf(parse(full), target)
  {
    var text := Trim(raw);
    var full := if Contains(text, "://") then text else "https://" + text;
    if text != "" {
      FullUrlIs(raw);
    }
    forall other | IsFullUrl(raw, other) ensures text != "" && other == full {
      FullUrlIsUnique(raw, other);
    }
  }

  predicate IsTargetOf(parsed: Option<Url>, target: Url) {
    && parsed.Some? && (parsed.value.scheme == "http" || parsed.value.scheme == "https") && parsed.value.host.Some?
    && target == parsed.value.(fragment := None)
  }

  lemma {:induction false} ContainsIff(text: string)
    ensures Contains(text, "://") <==> exists k :: At(text, "://", k)
  {
    var found := Find(text, "://", 0);
    if found.Some? {
      assert At(text, "://", found.value);
    }
  }

  lemma {:induction false} FullUrlIs(raw: string)
    requires Trim(raw) != ""
    ensures IsFullUrl(raw, if Contains(Trim(raw), "://") then Trim(raw) else "https://" + Trim(raw))
  {
    var lead, tail := TrimParts(raw);
    TrimIsTrimmed(raw);
    ContainsIff(Trim(raw));
  }

  lemma {:induction false} FullUrlIsUnique(raw: string, full: string)
    requires IsFullUrl(raw, full)
    ensures Trim(raw) != "" && full == if Contains(Trim(raw), "://") then Trim(raw) else "https://" + Trim(raw)
  {
    var lead, text, tail :|
      && raw == lead + text + tail && Blank(lead) && Blank(tail) && Trimmed(text) && text != ""
      && full == (if exists k :: At(text, "://", k) then text else "https://" + text);
    TrimOfParts(lead, text, tail);
    ContainsIff(text);
  }
}
