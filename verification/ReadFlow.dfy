/**
 `run_read` (read.rs): one page read with its fallbacks, against any server. What the server
 answers may depend on everything it was asked before.
*/
module ReadFlow {
  import opened Numbers
  import opened Option
  import opened Result
  import opened Text
  import opened ReadTargets

  datatype Fetch = Fetch(
    finalUrl: string, status: nat, contentType: string, success: bool, body: string, truncated: bool)

  /** One use of `fetch_read_url`: refused by the allowlists or sent. */
  datatype Call = Call(url: Url, sent: bool)

  type Server = (seq<Call>, Url) -> Result<Fetch>

  /** What becomes of a body. The views stand for the HTML and Markdown processing: `html` for
      `html_to_markdownish`, `page` for the outline or the filter of a page, `index` for
      `format_llms_index`, `full` for the filter of llms-full.txt, and `link` for the choice
      of an llms.txt link for the page. */
  datatype Views = Views(
    html: string -> string, page: (ReadOptions, string, string) -> string,
    index: (string, string, Option<string>) -> Result<string>, full: (string, string) -> string,
    link: (string, Url, Url) -> Option<Url>)

  datatype Context = Context(server: Server, views: Views, parse: string -> Option<Url>, options: ReadOptions)

  datatype Report = Report(
    url: Url, finalUrl: string, status: nat, contentType: string, source: string, truncated: bool, content: string)

  datatype Done = Done(log: seq<Call>, result: Result<Report>)

  // ---------------------------------------------------------------- one request

  function FetchReadUrl(ctx: Context, log: seq<Call>, url: Url): (seq<Call>, Result<Fetch>) {
    match CheckAllowedForOptions(url, ctx.options)
    case Err(e) => (log + [Call(url, false)], Err(e))
    case Ok(_) => (log + [Call(url, true)], ctx.server(log, url))
  }

  function ReportOf(target: Url, fetch: Fetch, source: string, content: string): Report {
    Report(target, fetch.finalUrl, fetch.status, fetch.contentType, source, fetch.truncated, content)
  }

  function PageReport(ctx: Context, target: Url, fetch: Fetch, source: string, content: string): Report {
    if ctx.options.outline then
      ReportOf(target, fetch, source + "-outline", ctx.views.page(ctx.options, content, fetch.finalUrl))
    else if ctx.options.filter.Some? then
      ReportOf(target, fetch, source + "-filtered", ctx.views.page(ctx.options, content, fetch.finalUrl))
    else ReportOf(target, fetch, source, content)
  }

  function ExpectedMarkdown(contentType: string): string {
    var base := Trim(SplitOn(contentType, ';')[0]);
    "Expected text/markdown, got " + if base == "" then "unknown content type" else base
  }

  /** The source label and the content of a response that may be used. */
  function PrimaryContent(ctx: Context, fetch: Fetch): (string, string) {
    if ctx.options.raw then ("raw", fetch.body)
    else if IsMarkdownLike(fetch.contentType) then ("accept-markdown", fetch.body)
    else if IsPlainText(fetch.contentType) then ("text", fetch.body)
    else if IsHtml(fetch.contentType) then ("html-fallback", ctx.views.html(fetch.body))
    else ("raw", fetch.body)
  }

  /** `content_from_fetch` and `read_json_from_content`. */
  function FromPrimary(ctx: Context, target: Url, fetch: Fetch): Result<Report> {
    if ctx.options.requireMd && !IsMarkdown(fetch.contentType) then Err(ExpectedMarkdown(fetch.contentType))
    else
      var (source, content) := PrimaryContent(ctx, fetch);
      Ok(PageReport(ctx, target, fetch, source, content))
  }

  predicate DirectlyUsable(fetch: Fetch, options: ReadOptions) {
    || options.raw
    || IsMarkdown(fetch.contentType)
    || (!options.requireMd && IsMarkdownLike(fetch.contentType))
  }

  predicate FallbackUsable(contentType: string, options: ReadOptions) {
    if options.requireMd then IsMarkdown(contentType) else IsMarkdownLike(contentType) || IsPlainText(contentType)
  }

  predicate ShouldTryMarkdown(options: ReadOptions) {
    !HasAcceptHeader(options)
  }

  // ---------------------------------------------------------------- llms.txt

  function NoLlmsFile(filename: string, lastStatus: Option<nat>): string {
    match lastStatus
    case Some(status) => filename + " failed with HTTP " + Render(status, 10)
    case None => filename + " not found"
  }

  /** `fetch_first_llms_file`, from the remaining candidates on. */
  function FirstLlmsFile(ctx: Context, log: seq<Call>, candidates: seq<Url>, filename: string, lastStatus: Option<nat>)
    : (seq<Call>, Result<Fetch>)
    decreases |candidates|
  {
    if candidates == [] then (log, Err(NoLlmsFile(filename, lastStatus)))
    else
      var (log1, answer) := FetchReadUrl(ctx, log, candidates[0]);
      match answer
      case Err(e) => (log1, Err("Read request failed: " + e))
      case Ok(fetch) =>
        if !fetch.success || IsHtml(fetch.contentType) then
          FirstLlmsFile(ctx, log1, candidates[1..], filename, Some(fetch.status))
        else if ctx.options.requireMd && !IsMarkdown(fetch.contentType) then
          (log1, Err(ExpectedMarkdown(fetch.contentType)))
        else (log1, Ok(fetch))
  }

  method FetchFirstLlmsFile(ctx: Context, log: seq<Call>, target: Url, filename: string)
    returns (log': seq<Call>, r: Result<Fetch>)
    ensures (log', r) == FirstLlmsFile(ctx, log, Candidates(target, filename), filename, None)
  {
    var lastStatus: Option<nat> := None;
    log' := log;
    var candidates := LlmsFileCandidates(target, filename);
    ghost var goal := FirstLlmsFile(ctx, log, candidates, filename, None);
    while candidates != []
      invariant goal == FirstLlmsFile(ctx, log', candidates, filename, lastStatus)
      decreases |candidates|
    {
      var (log1, answer) := FetchReadUrl(ctx, log', candidates[0]);
      log' := log1;
      candidates := candidates[1..];
      if answer.Err? {
        return log', Err("Read request failed: " + answer.error);
      }
      var fetch := answer.value;
      if fetch.success {
        if IsHtml(fetch.contentType) {
          lastStatus := Some(fetch.status);
          continue;
        }
        if ctx.options.requireMd && !IsMarkdown(fetch.contentType) {
          return log', Err(ExpectedMarkdown(fetch.contentType));
        }
        return log', Ok(fetch);
      }
      lastStatus := Some(fetch.status);
    }
    r := Err(NoLlmsFile(filename, lastStatus));
  }

  /** `fetch_optional_llms_file`, from the remaining candidates on. */
  function OptionalLlmsFile(ctx: Context, log: seq<Call>, candidates: seq<Url>): (seq<Call>, Option<(Url, Fetch)>)
    decreases |candidates|
  {
    if candidates == [] then (log, None)
    else
      var (log1, answer) := FetchReadUrl(ctx, log, candidates[0]);
      match answer
      case Err(_) => (log1, None)
      case Ok(fetch) =>
        if fetch.success && !IsHtml(fetch.contentType) then (log1, Some((candidates[0], fetch)))
        else OptionalLlmsFile(ctx, log1, candidates[1..])
  }

  method FetchOptionalLlmsFile(ctx: Context, log: seq<Call>, target: Url, filename: string)
    returns (log': seq<Call>, r: Option<(Url, Fetch)>)
    ensures (log', r) == OptionalLlmsFile(ctx, log, Candidates(target, filename))
  {
    log' := log;
    var candidates := LlmsFileCandidates(target, filename);
    ghost var goal := OptionalLlmsFile(ctx, log, candidates);
    while candidates != []
      invariant goal == OptionalLlmsFile(ctx, log', candidates)
      decreases |candidates|
    {
      var url := candidates[0];
      var (log1, answer) := FetchReadUrl(ctx, log', url);
      log' := log1;
      candidates := candidates[1..];
      if answer.Err? {
        return log', None;
      }
      if answer.value.success && !IsHtml(answer.value.contentType) {
        return log', Some((url, answer.value));
      }
    }
    r := None;
  }

  /** `run_llms_index` and `run_llms_full`. */
  function RunLlms(ctx: Context, target: Url, mode: LlmsMode): Done {
    var filename := if mode.Index? then "llms.txt" else "llms-full.txt";
    var (log, answer) := FirstLlmsFile(ctx, [], Candidates(target, filename), filename, None);
    match answer
    case Err(e) => Done(log, Err(e))
    case Ok(fetch) =>
      if mode.Index? then
        match ctx.views.index(fetch.body, fetch.finalUrl, ctx.options.filter)
        case Err(e) => Done(log, Err(e))
        case Ok(content) => Done(log, Ok(ReportOf(target, fetch, "llms-index", content)))
      else
        var content :=
          if ctx.options.filter.Some? then ctx.views.full(fetch.body, ctx.options.filter.value) else fetch.body;
        Done(log, Ok(ReportOf(target, fetch, "llms-full", content)))
  }

  // ---------------------------------------------------------------- the fallbacks of a page

  /** The page with `.md` appended. */
  function TryMarkdownSibling(ctx: Context, log: seq<Call>, target: Url, primary: Fetch): (seq<Call>, Option<Report>) {
    var sibling := MarkdownFallbackUrl(target);
    if ctx.options.raw || IsMarkdown(primary.contentType) || !ShouldTryMarkdown(ctx.options) || sibling.None? then
      (log, None)
    else
      var (log1, answer) := FetchReadUrl(ctx, log, sibling.value);
      if answer.Ok? && answer.value.success && FallbackUsable(answer.value.contentType, ctx.options) then
        (log1, Some(PageReport(ctx, target, answer.value, "path-markdown", answer.value.body)))
      else (log1, None)
  }

  function ReadLinked(ctx: Context, log: seq<Call>, target: Url, link: Url): (seq<Call>, Option<Report>) {
    var (log1, answer) := FetchReadUrl(ctx, log, link);
    if answer.Err? || !answer.value.success then (log1, None)
    else if ctx.options.requireMd && !IsMarkdown(answer.value.contentType) then (log1, None)
    else
      var body := answer.value.body;
      var content := if IsHtml(answer.value.contentType) then ctx.views.html(body) else body;
      (log1, Some(PageReport(ctx, target, answer.value, "llms-link", content)))
  }

  /** The page that llms.txt links to. */
  function TryLlmsLink(ctx: Context, log: seq<Call>, target: Url): (seq<Call>, Option<Report>) {
    var (log1, llms) := OptionalLlmsFile(ctx, log, Candidates(target, "llms.txt"));
    if llms.None? then (log1, None)
    else
      var link := ctx.views.link(llms.value.1.body, llms.value.0, target);
      if link.None? then (log1, None) else ReadLinked(ctx, log1, target, link.value)
  }

  /** Neither the primary response as it is nor the Markdown sibling is usable. */
  function AfterSibling(ctx: Context, log: seq<Call>, target: Url, primary: Fetch): Done {
    if primary.success && !ctx.options.requireMd && IsPlainText(primary.contentType) then
      Done(log, FromPrimary(ctx, target, primary))
    else
      var (log2, linked) :=
        if !ctx.options.raw && ShouldTryMarkdown(ctx.options) then TryLlmsLink(ctx, log, target) else (log, None);
      if linked.Some? then Done(log2, Ok(linked.value))
      else if !primary.success then Done(log2, Err("Read failed with HTTP " + Render(primary.status, 10)))
      else Done(log2, FromPrimary(ctx, target, primary))
  }

  /** The primary response is not usable as it is. */
  function AfterPrimary(ctx: Context, log: seq<Call>, target: Url, primary: Fetch): Done {
    var (log1, sibling) := TryMarkdownSibling(ctx, log, target, primary);
    if sibling.Some? then Done(log1, Ok(sibling.value)) else AfterSibling(ctx, log1, target, primary)
  }

  function RunPage(ctx: Context, target: Url): Done {
    var (log, answer) := FetchReadUrl(ctx, [], target);
    match answer
    case Err(e) => Done(log, Err("Read request failed: " + e))
    case Ok(primary) =>
      if primary.success && DirectlyUsable(primary, ctx.options) then Done(log, FromPrimary(ctx, target, primary))
      else AfterPrimary(ctx, log, target, primary)
  }

  // ---------------------------------------------------------------- the whole

  function NormalizeUrl(parse: string -> Option<Url>, raw: string): Result<Url> {
    var trimmed := Trim(raw);
    if trimmed == "" then Err("Read URL is empty")
    else
      match parse(if Contains(trimmed, "://") then trimmed else "https://" + trimmed)
      case None => Err("Invalid read URL")
      case Some(url) =>
        if url.scheme !in {"http", "https"} then Err("Unsupported read URL scheme")
        else if url.host.None? then Err("Read URL must include a host")
        else Ok(url.(fragment := None))
  }

  function RunTarget(ctx: Context, target: Url): Done {
    match CheckAllowedForOptions(target, ctx.options)
    case Err(e) => Done([], Err(e))
    case Ok(_) => if ctx.options.llms.Some? then RunLlms(ctx, target, ctx.options.llms.value) else RunPage(ctx, target)
  }

  function RunRead(ctx: Context, raw: string): Done {
    match NormalizeUrl(ctx.parse, raw)
    case Err(e) => Done([], Err(e))
    case Ok(target) => RunTarget(ctx, target)
  }
}
