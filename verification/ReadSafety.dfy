/**
 What holds of every run of the reader, whatever the server answers.
*/
module ReadSafety {
  import opened Option
  import opened Result
  import opened ReadTargets
  import opened ReadFlow

  /** A request was sent exactly when every allowlist permits its URL. */
  ghost predicate Honest(ctx: Context, log: seq<Call>) {
    forall i | 0 <= i < |log| :: log[i].sent <==> Permitted(log[i].url, ctx.options)
  }

  /** What the server answered to request i of the run. */
  function AnswerAt(ctx: Context, log: seq<Call>, i: nat): Result<Fetch>
    requires i < |log|
  {
    ctx.server(log[..i], log[i].url)
  }

  /** Request i of the run was sent and brought `fetch`. */
  ghost predicate Brought(ctx: Context, log: seq<Call>, i: nat, fetch: Fetch) {
    i < |log| && log[i].sent && AnswerAt(ctx, log, i) == Ok(fetch)
  }

  /** A successful response, served as Markdown if that is required. */
  predicate Qualifies(fetch: Fetch, options: ReadOptions) {
    fetch.success && (options.requireMd ==> IsMarkdown(fetch.contentType))
  }

  /** What a page response is shown as: the body as it is, unless it is HTML and not asked for raw;
      then the outline or the filter, if there is one. */
  function Shown(ctx: Context, fetch: Fetch): string {
    var content := if !ctx.options.raw && IsHtml(fetch.contentType) then ctx.views.html(fetch.body) else fetch.body;
    if ctx.options.outline || ctx.options.filter.Some? then ctx.views.page(ctx.options, content, fetch.finalUrl)
    else content
  }

  /** The content of a report is made from the body of the response, by the mode. */
  predicate ShowsContent(ctx: Context, report: Report, fetch: Fetch) {
    match ctx.options.llms
    case None => report.content == Shown(ctx, fetch)
    case Some(Index) => ctx.views.index(fetch.body, fetch.finalUrl, ctx.options.filter) == Ok(report.content)
    case Some(Full) =>
      report.content ==
        if ctx.options.filter.Some? then ctx.views.full(fetch.body, ctx.options.filter.value) else fetch.body
  }

  predicate Reports(ctx: Context, target: Url, report: Report, fetch: Fetch) {
    && report.url == target
    && report.finalUrl == fetch.finalUrl && report.status == fetch.status
    && report.contentType == fetch.contentType && report.truncated == fetch.truncated
    && ShowsContent(ctx, report, fetch)
  }

  ghost predicate Backed(ctx: Context, log: seq<Call>, target: Url, report: Report) {
    exists i: nat, fetch ::
      Brought(ctx, log, i, fetch) && Qualifies(fetch, ctx.options) && Reports(ctx, target, report, fetch)
  }

  ghost predicate Sound(ctx: Context, target: Url, done: Done) {
    Honest(ctx, done.log) && (done.result.Ok? ==> Backed(ctx, done.log, target, done.result.value))
  }

  // ---------------------------------------------------------------- the steps

  lemma {:induction false} FetchStep(ctx: Context, log: seq<Call>, url: Url)
    requires Honest(ctx, log)
    ensures var (log1, answer) := FetchReadUrl(ctx, log, url);
      && Honest(ctx, log1) && log <= log1 && |log1| == |log| + 1
      && log1[|log|] == Call(url, Permitted(url, ctx.options))
      && (answer.Ok? ==> Brought(ctx, log1, |log|, answer.value))
      && (Permitted(url, ctx.options) ==> answer == ctx.server(log, url))
  {
    CheckIsPermitted(url, ctx.options);
    var (log1, _) := FetchReadUrl(ctx, log, url);
    assert log1[..|log|] == log;
  }

  lemma {:induction false} BroughtStays(ctx: Context, log: seq<Call>, more: seq<Call>, i: nat, fetch: Fetch)
    requires Brought(ctx, log, i, fetch) && log <= more
    ensures Brought(ctx, more, i, fetch)
  {
    assert more[..i] == log[..i];
  }

  /** No content type counts as HTML and as text at once. */
  lemma {:induction false} HtmlIsNoText(contentType: string)
    requires IsHtml(contentType)
    ensures !IsMarkdown(contentType) && !IsMarkdownLike(contentType) && !IsPlainText(contentType)
  {
  }

  lemma {:induction false} PageReports(ctx: Context, target: Url, fetch: Fetch, source: string, content: string)
    requires ctx.options.llms.None?
    requires content == if !ctx.options.raw && IsHtml(fetch.contentType) then ctx.views.html(fetch.body) else fetch.body
    ensures Reports(ctx, target, PageReport(ctx, target, fetch, source, content), fetch)
  {
  }

  lemma {:induction false} PrimaryContentIs(ctx: Context, fetch: Fetch)
    ensures PrimaryContent(ctx, fetch).1
         == if !ctx.options.raw && IsHtml(fetch.contentType) then ctx.views.html(fetch.body) else fetch.body
  {
    if IsHtml(fetch.contentType) {
      HtmlIsNoText(fetch.contentType);
    }
  }

  lemma {:induction false} FromPrimaryIff(ctx: Context, target: Url, primary: Fetch)
    requires primary.success
    ensures FromPrimary(ctx, target, primary).Ok? <==> Qualifies(primary, ctx.options)
  {
  }

  lemma {:induction false} FromPrimaryIsBacked(ctx: Context, log: seq<Call>, target: Url, i: nat, primary: Fetch)
    requires Brought(ctx, log, i, primary) && primary.success && ctx.options.llms.None?
    ensures var r := FromPrimary(ctx, target, primary); r.Ok? ==> Backed(ctx, log, target, r.value)
  {
    FromPrimaryIff(ctx, target, primary);
    var (source, content) := PrimaryContent(ctx, primary);
    PrimaryContentIs(ctx, primary);
    PageReports(ctx, target, primary, source, content);
  }

  lemma {:induction false} FirstLlmsSound(
    ctx: Context, log: seq<Call>, candidates: seq<Url>, filename: string, last: Option<nat>) returns (i: nat)
    requires Honest(ctx, log)
    ensures var (log', r) := FirstLlmsFile(ctx, log, candidates, filename, last);
      && Honest(ctx, log') && log <= log' && |log'| <= |log| + |candidates|
      && (r.Ok? ==> Brought(ctx, log', i, r.value) && Qualifies(r.value, ctx.options) && !IsHtml(r.value.contentType))
    decreases |candidates|
  {
    i := |log|;
    if candidates != [] {
      FetchStep(ctx, log, candidates[0]);
      var (log1, answer) := FetchReadUrl(ctx, log, candidates[0]);
      if answer.Ok? && (!answer.value.success || IsHtml(answer.value.contentType)) {
        i := FirstLlmsSound(ctx, log1, candidates[1..], filename, Some(answer.value.status));
      }
    }
  }

  lemma {:induction false} OptionalLlmsSound(ctx: Context, log: seq<Call>, candidates: seq<Url>)
    requires Honest(ctx, log)
    ensures var (log', r) := OptionalLlmsFile(ctx, log, candidates);
      && Honest(ctx, log') && log <= log' && |log'| <= |log| + |candidates|
    decreases |candidates|
  {
    if candidates != [] {
      FetchStep(ctx, log, candidates[0]);
      var (log1, answer) := FetchReadUrl(ctx, log, candidates[0]);
      if answer.Ok? && (!answer.value.success || IsHtml(answer.value.contentType)) {
        OptionalLlmsSound(ctx, log1, candidates[1..]);
      }
    }
  }

  lemma {:induction false} SiblingSound(ctx: Context, log: seq<Call>, target: Url, primary: Fetch)
    requires Honest(ctx, log) && ctx.options.llms.None?
    ensures var (log', r) := TryMarkdownSibling(ctx, log, target, primary);
      && Honest(ctx, log') && log <= log' && |log'| <= |log| + 1
      && (r.Some? ==> Backed(ctx, log', target, r.value))
  {
    var sibling := MarkdownFallbackUrl(target);
    if sibling.Some? {
      FetchStep(ctx, log, sibling.value);
      var (log1, answer) := FetchReadUrl(ctx, log, sibling.value);
      if answer.Ok? {
        if IsHtml(answer.value.contentType) {
          HtmlIsNoText(answer.value.contentType);
        } else {
          PageReports(ctx, target, answer.value, "path-markdown", answer.value.body);
        }
      }
    }
  }

  lemma {:induction false} LinkedSound(ctx: Context, log: seq<Call>, target: Url, link: Url)
    requires Honest(ctx, log) && ctx.options.llms.None? && !ctx.options.raw
    ensures var (log', r) := ReadLinked(ctx, log, target, link);
      && Honest(ctx, log') && log <= log' && |log'| == |log| + 1
      && (r.Some? ==> Backed(ctx, log', target, r.value))
  {
    FetchStep(ctx, log, link);
    var (_, answer) := FetchReadUrl(ctx, log, link);
    if answer.Ok? {
      var body := answer.value.body;
      var content := if IsHtml(answer.value.contentType) then ctx.views.html(body) else body;
      PageReports(ctx, target, answer.value, "llms-link", content);
    }
  }

  lemma {:induction false} LinkSound(ctx: Context, log: seq<Call>, target: Url)
    requires Honest(ctx, log) && ctx.options.llms.None? && !ctx.options.raw
    ensures var (log', r) := TryLlmsLink(ctx, log, target);
      && Honest(ctx, log') && log <= log' && |log'| <= |log| + |Segments(target)| + 2
      && (r.Some? ==> Backed(ctx, log', target, r.value))
  {
    var candidates := Candidates(target, "llms.txt");
    var _ := CandidatesDescend(target, "llms.txt");
    OptionalLlmsSound(ctx, log, candidates);
    var (log1, llms) := OptionalLlmsFile(ctx, log, candidates);
    if llms.Some? {
      var link := ctx.views.link(llms.value.1.body, llms.value.0, target);
      if link.Some? {
        LinkedSound(ctx, log1, target, link.value);
      }
    }
  }

  lemma {:induction false} PrimaryStaysBacked(
    ctx: Context, log: seq<Call>, more: seq<Call>, target: Url, i: nat, primary: Fetch)
    requires Brought(ctx, log, i, primary) && log <= more && ctx.options.llms.None?
    ensures var r := FromPrimary(ctx, target, primary); primary.success && r.Ok? ==> Backed(ctx, more, target, r.value)
  {
    BroughtStays(ctx, log, more, i, primary);
    if primary.success {
      FromPrimaryIsBacked(ctx, more, target, i, primary);
    }
  }

  lemma {:induction false} AfterSiblingSound(ctx: Context, log: seq<Call>, target: Url, i: nat, primary: Fetch)
    requires Honest(ctx, log) && Brought(ctx, log, i, primary) && ctx.options.llms.None?
    ensures var done := AfterSibling(ctx, log, target, primary);
      && Sound(ctx, target, done) && log <= done.log && |done.log| <= |log| + |Segments(target)| + 2
  {
    PrimaryStaysBacked(ctx, log, log, target, i, primary);
    if !ctx.options.raw {
      LinkSound(ctx, log, target);
      PrimaryStaysBacked(ctx, log, TryLlmsLink(ctx, log, target).0, target, i, primary);
    }
  }

  lemma {:induction false} AfterPrimarySound(ctx: Context, log: seq<Call>, target: Url, i: nat, primary: Fetch)
    requires Honest(ctx, log) && Brought(ctx, log, i, primary) && ctx.options.llms.None?
    ensures var done := AfterPrimary(ctx, log, target, primary);
      && Sound(ctx, target, done) && log <= done.log && |done.log| <= |log| + |Segments(target)| + 3
  {
    SiblingSound(ctx, log, target, primary);
    var (log1, _) := TryMarkdownSibling(ctx, log, target, primary);
    BroughtStays(ctx, log, log1, i, primary);
    AfterSiblingSound(ctx, log1, target, i, primary);
  }

  lemma {:induction false} PageSound(ctx: Context, target: Url)
    requires ctx.options.llms.None?
    ensures var done := RunPage(ctx, target);
      Sound(ctx, target, done) && |done.log| <= |Segments(target)| + 4
  {
    FetchStep(ctx, [], target);
    var (log, answer) := FetchReadUrl(ctx, [], target);
    if answer.Ok? {
      AfterPrimarySound(ctx, log, target, 0, answer.value);
      if answer.value.success {
        FromPrimaryIsBacked(ctx, log, target, 0, answer.value);
      }
    }
  }

  lemma {:induction false} LlmsSound(ctx: Context, target: Url, mode: LlmsMode)
    requires ctx.options.llms == Some(mode)
    ensures var done := RunLlms(ctx, target, mode);
      Sound(ctx, target, done) && |done.log| <= |Segments(target)| + 1
  {
    var filename := if mode.Index? then "llms.txt" else "llms-full.txt";
    var _ := CandidatesDescend(target, filename);
    var i := FirstLlmsSound(ctx, [], Candidates(target, filename), filename, None);
    var done := RunLlms(ctx, target, mode);
    if done.result.Ok? {
      var fetch := FirstLlmsFile(ctx, [], Candidates(target, filename), filename, None).1.value;
      assert Reports(ctx, target, done.result.value, fetch);
    }
  }

  // ---------------------------------------------------------------- the theorems

  /** Whatever the server does: an answer reports a successful response, served as text/markdown
      when that is required, with the content made from its body; a request is sent exactly when
      all allowlists permit it; and a page with n path segments costs at most n + 4 requests. */
  lemma {:induction false} ReadIsSound(ctx: Context, raw: string)
    ensures var target := NormalizeUrl(ctx.parse, raw);
      if target.Ok? then
        && Sound(ctx, target.value, RunRead(ctx, raw))
        && |RunRead(ctx, raw).log| <= |Segments(target.value)| + 4
      else RunRead(ctx, raw).log == [] && RunRead(ctx, raw).result.Err?
  {
    var target := NormalizeUrl(ctx.parse, raw);
    if target.Ok? {
      if ctx.options.llms.Some? {
        LlmsSound(ctx, target.value, ctx.options.llms.value);
      } else {
        PageSound(ctx, target.value);
      }
    }
  }

  /** Outside the llms mode there is exactly one request when the caller sets an Accept header, wants
      the raw body, or the first response can be used as it is. */
  lemma {:induction false} OneRequest(ctx: Context, target: Url)
    requires Permitted(target, ctx.options) && ctx.options.llms.None?
    requires
      var first := ctx.server([], target);
      || HasAcceptHeader(ctx.options) || ctx.options.raw || first.Err?
      || (first.value.success && DirectlyUsable(first.value, ctx.options))
    ensures RunTarget(ctx, target).log == [Call(target, true)]
  {
    FetchStep(ctx, [], target);
    CheckIsPermitted(target, ctx.options);
  }

  predicate Unusable(answer: Result<Fetch>) {
    answer.Ok? && (!answer.value.success || IsHtml(answer.value.contentType))
  }

  /** The page with `.md` appended is asked for. */
  predicate AsksSibling(options: ReadOptions, target: Url, primary: Fetch) {
    && !options.raw && !HasAcceptHeader(options) && !IsMarkdown(primary.contentType)
    && MarkdownFallbackUrl(target).Some?
  }

  /** Its response is usable. */
  ghost predicate SiblingWorks(ctx: Context, target: Url, primary: Fetch) {
    && AsksSibling(ctx.options, target, primary)
    && var sibling := MarkdownFallbackUrl(target).value;
       && Permitted(sibling, ctx.options)
       && var answer := ctx.server([Call(target, true)], sibling);
          answer.Ok? && answer.value.success && FallbackUsable(answer.value.contentType, ctx.options)
  }

  /** What has been asked before any llms.txt. */
  ghost function BeforeLlms(ctx: Context, target: Url, primary: Fetch): seq<Call> {
    if AsksSibling(ctx.options, target, primary) then
      var sibling := MarkdownFallbackUrl(target).value;
      [Call(target, true), Call(sibling, Permitted(sibling, ctx.options))]
    else [Call(target, true)]
  }

  /** The log after the first n candidates have been asked. */
  function Asked(log: seq<Call>, candidates: seq<Url>, n: nat): seq<Call>
    requires n <= |candidates|
  {
    log + seq(n, i requires 0 <= i < n => Call(candidates[i], true))
  }

  /** Asked in its turn, candidate j is no llms file, and the search goes on. */
  ghost predicate NoFileAt(ctx: Context, log: seq<Call>, candidates: seq<Url>, j: nat) {
    && j < |candidates| && Permitted(candidates[j], ctx.options)
    && Unusable(ctx.server(Asked(log, candidates, j), candidates[j]))
  }

  /** Candidate k is the first that serves an llms file. */
  ghost predicate NearestAt(ctx: Context, log: seq<Call>, candidates: seq<Url>, k: nat) {
    && k < |candidates| && Permitted(candidates[k], ctx.options)
    && (forall j: nat | j < k :: NoFileAt(ctx, log, candidates, j))
    && var answer := ctx.server(Asked(log, candidates, k), candidates[k]);
       answer.Ok? && !Unusable(answer)
  }

  /** Its file links to a page for the target, and the response of that page qualifies. */
  ghost predicate LinkedAt(ctx: Context, log: seq<Call>, target: Url, k: nat, link: Url) {
    var candidates := Candidates(target, "llms.txt");
    && NearestAt(ctx, log, candidates, k)
    && var file := ctx.server(Asked(log, candidates, k), candidates[k]).value;
       && ctx.views.link(file.body, candidates[k], target) == Some(link)
       && Permitted(link, ctx.options)
       && var answer := ctx.server(Asked(log, candidates, k + 1), link);
          answer.Ok? && Qualifies(answer.value, ctx.options)
  }

  ghost predicate LinkWorks(ctx: Context, target: Url, primary: Fetch) {
    && !ctx.options.raw && !HasAcceptHeader(ctx.options)
    && exists k: nat, link :: LinkedAt(ctx, BeforeLlms(ctx, target, primary), target, k, link)
  }

  lemma {:induction false} AskedNext(log: seq<Call>, candidates: seq<Url>, n: nat)
    requires n < |candidates|
    ensures Asked(log + [Call(candidates[0], true)], candidates[1..], n) == Asked(log, candidates, n + 1)
  {
  }

  /** The first candidate is passed over: what holds of candidate k of the others holds of k + 1. */
  lemma {:induction false} NearestBehind(ctx: Context, log: seq<Call>, candidates: seq<Url>, k: nat)
    requires NoFileAt(ctx, log, candidates, 0)
    ensures NearestAt(ctx, log + [Call(candidates[0], true)], candidates[1..], k)
      <==> NearestAt(ctx, log, candidates, k + 1)
  {
    var log1, others := log + [Call(candidates[0], true)], candidates[1..];
    forall j: nat | j < |others|
      ensures others[j] == candidates[j + 1] && NoFileAt(ctx, log1, others, j) == NoFileAt(ctx, log, candidates, j + 1)
    {
      AskedNext(log, candidates, j);
    }
    if k < |others| {
      AskedNext(log, candidates, k);
      NoFilesShift(ctx, log, candidates, log1, others, k);
    }
  }

  lemma {:induction false} NoFilesShift(
    ctx: Context, log: seq<Call>, candidates: seq<Url>, log1: seq<Call>, others: seq<Url>, k: nat)
    requires NoFileAt(ctx, log, candidates, 0) && k <= |others|
    requires forall j: nat | j < |others| :: NoFileAt(ctx, log1, others, j) == NoFileAt(ctx, log, candidates, j + 1)
    ensures (forall j: nat | j < k :: NoFileAt(ctx, log1, others, j))
      <==> (forall j: nat | j < k + 1 :: NoFileAt(ctx, log, candidates, j))
  {
    if forall j: nat | j < k :: NoFileAt(ctx, log1, others, j) {
      forall j: nat | j < k + 1 ensures NoFileAt(ctx, log, candidates, j) {
        if j > 0 {
          assert NoFileAt(ctx, log1, others, j - 1);
        }
      }
    }
  }

  lemma {:induction false} OptionalStep(ctx: Context, log: seq<Call>, candidates: seq<Url>)
    requires candidates != [] && Permitted(candidates[0], ctx.options)
    ensures var log1 := log + [Call(candidates[0], true)];
      var answer := ctx.server(Asked(log, candidates, 0), candidates[0]);
      && (NoFileAt(ctx, log, candidates, 0) ==>
            OptionalLlmsFile(ctx, log, candidates) == OptionalLlmsFile(ctx, log1, candidates[1..]))
      && (answer.Ok? && !Unusable(answer) ==>
            OptionalLlmsFile(ctx, log, candidates) == (log1, Some((candidates[0], answer.value))))
      && log1 == Asked(log, candidates, 1)
  {
    CheckIsPermitted(candidates[0], ctx.options);
    assert Asked(log, candidates, 0) == log;
    assert Asked(log, candidates, 1) == log + [Call(candidates[0], true)];
  }

  /** What `fetch_optional_llms_file` gives is the nearest llms file. */
  lemma {:induction false} OptionalIsNearest(ctx: Context, log: seq<Call>, candidates: seq<Url>, k: nat)
    requires NearestAt(ctx, log, candidates, k)
    ensures var (log', r) := OptionalLlmsFile(ctx, log, candidates);
      && log' == Asked(log, candidates, k + 1)
      && r == Some((candidates[k], ctx.server(Asked(log, candidates, k), candidates[k]).value))
    decreases |candidates|
  {
    if k > 0 {
      assert NoFileAt(ctx, log, candidates, 0);
      OptionalStep(ctx, log, candidates);
      NearestBehind(ctx, log, candidates, k - 1);
      OptionalIsNearest(ctx, log + [Call(candidates[0], true)], candidates[1..], k - 1);
      AskedNext(log, candidates, k - 1);
      AskedNext(log, candidates, k);
    } else {
      OptionalStep(ctx, log, candidates);
    }
  }

  lemma {:induction false} NearestIsThere(ctx: Context, log: seq<Call>, candidates: seq<Url>) returns (k: nat)
    requires OptionalLlmsFile(ctx, log, candidates).1.Some?
    ensures NearestAt(ctx, log, candidates, k)
    decreases |candidates|
  {
    CheckIsPermitted(candidates[0], ctx.options);
    assert Asked(log, candidates, 0) == log;
    if Unusable(ctx.server(log, candidates[0])) {
      var i := NearestIsThere(ctx, log + [Call(candidates[0], true)], candidates[1..]);
      NearestBehind(ctx, log, candidates, i);
      k := i + 1;
    } else {
      k := 0;
    }
  }

  lemma {:induction false} LinkIff(ctx: Context, log: seq<Call>, target: Url)
    ensures TryLlmsLink(ctx, log, target).1.Some? <==> exists k: nat, link :: LinkedAt(ctx, log, target, k, link)
  {
    if TryLlmsLink(ctx, log, target).1.Some? {
      var k := NearestIsThere(ctx, log, Candidates(target, "llms.txt"));
      var link := LinkAtNearest(ctx, log, target, k);
    }
    forall k: nat, link | LinkedAt(ctx, log, target, k, link) ensures TryLlmsLink(ctx, log, target).1.Some? {
      OptionalIsNearest(ctx, log, Candidates(target, "llms.txt"), k);
      CheckIsPermitted(link, ctx.options);
    }
  }

  lemma {:induction false} LinkAtNearest(ctx: Context, log: seq<Call>, target: Url, k: nat) returns (link: Url)
    requires TryLlmsLink(ctx, log, target).1.Some? && NearestAt(ctx, log, Candidates(target, "llms.txt"), k)
    ensures LinkedAt(ctx, log, target, k, link)
  {
    var candidates := Candidates(target, "llms.txt");
    OptionalIsNearest(ctx, log, candidates, k);
    var file := ctx.server(Asked(log, candidates, k), candidates[k]).value;
    link := ctx.views.link(file.body, candidates[k], target).value;
    CheckIsPermitted(link, ctx.options);
  }

  lemma {:induction false} SiblingIff(ctx: Context, target: Url, primary: Fetch)
    ensures var (log1, sibling) := TryMarkdownSibling(ctx, [Call(target, true)], target, primary);
      log1 == BeforeLlms(ctx, target, primary) && (sibling.Some? <==> SiblingWorks(ctx, target, primary))
  {
    if MarkdownFallbackUrl(target).Some? {
      CheckIsPermitted(MarkdownFallbackUrl(target).value, ctx.options);
    }
  }

  lemma {:induction false} AfterPrimaryIff(ctx: Context, target: Url, primary: Fetch)
    ensures AfterPrimary(ctx, [Call(target, true)], target, primary).result.Err? <==>
      !Qualifies(primary, ctx.options) && !SiblingWorks(ctx, target, primary) && !LinkWorks(ctx, target, primary)
  {
    SiblingIff(ctx, target, primary);
    LinkIff(ctx, BeforeLlms(ctx, target, primary), target);
    if primary.success {
      FromPrimaryIff(ctx, target, primary);
    }
  }

  /** Exactly when a permitted page is reported as an error: the request itself fails, or neither
      its response, nor the Markdown sibling, nor the page that the nearest llms.txt links to can
      be used. */
  lemma {:induction false} ErrorsAreReal(ctx: Context, target: Url)
    requires Permitted(target, ctx.options) && ctx.options.llms.None?
    ensures var first := ctx.server([], target);
      RunTarget(ctx, target).result.Err? <==>
        || first.Err?
        || (!Qualifies(first.value, ctx.options) && !SiblingWorks(ctx, target, first.value)
            && !LinkWorks(ctx, target, first.value))
  {
    CheckIsPermitted(target, ctx.options);
    assert [] + [Call(target, true)] == [Call(target, true)];
    var first := ctx.server([], target);
    if first.Ok? {
      AfterPrimaryIff(ctx, target, first.value);
      if first.value.success {
        FromPrimaryIff(ctx, target, first.value);
      }
    }
  }

  /** Request i asked for `url`, and the answer was no llms file. */
  ghost predicate PassedOver(ctx: Context, log: seq<Call>, i: nat, url: Url) {
    i < |log| && log[i] == Call(url, true) && Unusable(AnswerAt(ctx, log, i))
  }

  lemma {:induction false} PassedOverStays(ctx: Context, log: seq<Call>, more: seq<Call>, i: nat, url: Url)
    requires PassedOver(ctx, log, i, url) && log <= more
    ensures PassedOver(ctx, more, i, url)
  {
    assert more[..i] == log[..i];
  }

  /** In the llms modes the file comes from the nearest directory that serves one: the candidates
      are asked in order, and all before the chosen one did not succeed or served HTML. */
  lemma {:induction false} LlmsFileIsNearest(
    ctx: Context, log: seq<Call>, candidates: seq<Url>, filename: string, last: Option<nat>) returns (k: nat)
    requires Honest(ctx, log) && FirstLlmsFile(ctx, log, candidates, filename, last).1.Ok?
    ensures var (log', r) := FirstLlmsFile(ctx, log, candidates, filename, last);
      && k < |candidates| && |log'| == |log| + k + 1 && log <= log'
      && (forall j: nat | j < k :: PassedOver(ctx, log', |log| + j, candidates[j]))
      && log'[|log| + k] == Call(candidates[k], true) && AnswerAt(ctx, log', |log| + k) == r
    decreases |candidates|
  {
    FetchStep(ctx, log, candidates[0]);
    var (log1, answer) := FetchReadUrl(ctx, log, candidates[0]);
    if Unusable(answer) {
      var status := Some(answer.value.status);
      var m := LlmsFileIsNearest(ctx, log1, candidates[1..], filename, status);
      k := m + 1;
      var (log', r) := FirstLlmsFile(ctx, log1, candidates[1..], filename, status);
      PassedOverStays(ctx, log1, log', |log|, candidates[0]);
      forall j: nat | j < k ensures PassedOver(ctx, log', |log| + j, candidates[j]) {
        if j > 0 {
          assert PassedOver(ctx, log', |log1| + (j - 1), candidates[1..][j - 1]);
        }
      }
    } else {
      k := 0;
    }
  }
}
