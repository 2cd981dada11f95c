/**
 Cookies from a `curl` command line or a bare Cookie header (commands.rs), and the way back.
*/
module Cookies {
  import opened Option
  import opened Text

  datatype Cookie = Cookie(name: string, value: string)

  datatype Parsed = Cookies(list: seq<Cookie>) | JsonInput | EmptyInput | NoCookieHeader | NoCookies

  // ---------------------------------------------------------------- parse_cookie_header

  function ParsePiece(piece: string): seq<Cookie> {
    var p := Trim(piece);
    match Find(p, "=", 0)
    case None => []
    case Some(eq) => if Trim(p[..eq]) == "" then [] else [Cookie(Trim(p[..eq]), Trim(p[eq + 1..]))]
  }

  function ParsePieces(pieces: seq<string>): seq<Cookie> {
    if pieces == [] then [] else ParsePiece(pieces[0]) + ParsePieces(pieces[1..])
  }

  function ParseHeader(header: string): Parsed {
    var out := ParsePieces(SplitOn(header, ';'));
    if out == [] then NoCookies else Cookies(out)
  }

  method ParseCookieHeader(header: string) returns (r: Parsed)
    ensures r == ParseHeader(header)
  {
    var out := ParsePieceList(SplitOn(header, ';'));
    return if out == [] then NoCookies else Cookies(out);
  }

  /** The loop over the pieces between the semicolons. */
  method ParsePieceList(pieces: seq<string>) returns (out: seq<Cookie>)
    ensures out == ParsePieces(pieces)
  {
    out := [];
    ghost var goal := ParsePieces(pieces);
    for i := 0 to |pieces|
      invariant out + ParsePieces(pieces[i..]) == goal
    {
      assert pieces[i..][1..] == pieces[i + 1..];
      Regroup(out, ParsePiece(pieces[i]), ParsePieces(pieces[i + 1..]));
      ghost var before := out;
      var piece := Trim(pieces[i]);
      var eq := Find(piece, "=", 0);
      if eq.Some? {
        var name, value := Trim(piece[..eq.value]), Trim(piece[eq.value + 1..]);
        if name != "" {
          out := out + [Cookie(name, value)];
        }
      }
      assert out == before + ParsePiece(pieces[i]);
    }
  }

  // ---------------------------------------------------------------- match_quoted_arg

  /** `is_ascii_whitespace`. */
  predicate IsSpace(c: char) {
    c == ' ' || c == '\t' || c == '\n' || c == '\r' || c as int == 12
  }

  /** The flag stands at i as a word of its own, followed by white space. */
  predicate IsFlagAt(h: string, flag: string, i: nat) {
    && At(h, flag, i) && (i == 0 || IsSpace(h[i - 1]))
    && i + |flag| < |h| && IsSpace(h[i + |flag|])
  }

  function SkipSpaces(h: string, j: nat): (r: nat)
    requires j <= |h|
    ensures j <= r <= |h| && (r < |h| ==> !IsSpace(h[r]))
    ensures forall k | j <= k < r :: IsSpace(h[k])
    decreases |h| - j
  {
    if j < |h| && IsSpace(h[j]) then SkipSpaces(h, j + 1) else j
  }

  function QuoteEnd(h: string, quote: char, k: nat): (r: nat)
    requires k <= |h|
    ensures k <= r <= |h| && (r < |h| ==> h[r] == quote)
    ensures quote !in h[k..r]
    decreases |h| - k
  {
    if k < |h| && h[k] != quote then
      var r := QuoteEnd(h, quote, k + 1);
      assert h[k..r] == [h[k]] + h[k + 1..r];
      r
    else k
  }

  /** The value of a quoted argument; with an expected header only when it carries that header. */
  function Qualify(argument: string, header: Option<string>): Option<string> {
    match header
    case None => Some(argument)
    case Some(name) =>
      if Lower(name) + ":" <= Lower(argument) then Some(Trim(argument[|name| + 1..])) else None
  }

  /** What an argument is read as. */
  type Reader = string -> Option<string>

  function ReaderFor(header: Option<string>): Reader {
    argument => Qualify(argument, header)
  }

  /** What the scan does at position i: move on, give up, or return a value. */
  datatype Look = Skip(next: nat) | Stop | Found(value: string)

  function LookAt(h: string, flag: string, read: Reader, i: nat): (l: Look)
    requires i + |flag| < |h|
    ensures l.Skip? ==> i < l.next <= |h|
  {
    if !IsFlagAt(h, flag, i) then Skip(i + 1)
    else
      var j := SkipSpaces(h, i + |flag|);
      if j >= |h| then Stop
      else if h[j] != '\'' && h[j] != '"' then Skip(j)
      else
        var k := QuoteEnd(h, h[j], j + 1);
        if k >= |h| then Stop
        else
          match read(h[j + 1..k])
          case Some(value) => Found(value)
          case None => Skip(k + 1)
  }

  function Scan(h: string, flag: string, read: Reader, i: nat): Option<string>
    decreases |h| - i
  {
    if i + |flag| >= |h| then None
    else
      match LookAt(h, flag, read, i)
      case Skip(next) => Scan(h, flag, read, next)
      case Stop => None
      case Found(value) => Some(value)
  }

  method SkipSpacesFrom(h: string, from: nat) returns (j: nat)
    requires from <= |h|
    ensures j == SkipSpaces(h, from)
  {
    j := from;
    while j < |h| && IsSpace(h[j])
      invariant from <= j <= |h| && SkipSpaces(h, j) == SkipSpaces(h, from)
    {
      j := j + 1;
    }
  }

  method FindQuoteFrom(h: string, quote: char, start: nat) returns (k: nat)
    requires start <= |h|
    ensures k == QuoteEnd(h, quote, start)
  {
    k := start;
    while k < |h| && h[k] != quote
      invariant start <= k <= |h| && QuoteEnd(h, quote, k) == QuoteEnd(h, quote, start)
    {
      k := k + 1;
    }
  }

  /** One turn of the loop of `match_quoted_arg`. */
  method LookHere(h: string, flag: string, read: Reader, i: nat) returns (l: Look)
    requires i + |flag| < |h|
    ensures l == LookAt(h, flag, read, i)
  {
    var boundary := (i == 0 || IsSpace(h[i - 1])) && IsSpace(h[i + |flag|]);
    if h[i..i + |flag|] != flag || !boundary {
      return Skip(i + 1);
    }
    var j := SkipSpacesFrom(h, i + |flag|);
    if j >= |h| {
      return Stop;
    }
    if h[j] != '\'' && h[j] != '"' {
      return Skip(j);
    }
    var k := FindQuoteFrom(h, h[j], j + 1);
    if k >= |h| {
      return Stop;
    }
    match read(h[j + 1..k]) {
      case Some(value) => return Found(value);
      case None => return Skip(k + 1);
    }
  }

  method MatchQuotedArg(h: string, flag: string, header: Option<string>) returns (r: Option<string>)
    ensures r == Scan(h, flag, ReaderFor(header), 0)
  {
    var i, read := 0, ReaderFor(header);
    ghost var goal := Scan(h, flag, read, 0);
    while i + |flag| < |h|
      invariant i <= |h| && Scan(h, flag, read, i) == goal
      decreases |h| - i
    {
      var look := LookHere(h, flag, read, i);
      match look {
        case Skip(next) => i := next;
        case Stop => return None;
        case Found(value) => return Some(value);
      }
    }
    return None;
  }

  // ---------------------------------------------------------------- parse_curl_cookies

  /** Line continuations of bash and cmd become spaces. */
  function JoinLines(curl: string): string {
    Replace(Replace(Replace(Replace(curl, "\\\r\n", " "), "\\\n", " "), "^\r\n", " "), "^\n", " ")
  }

  function ExtractHeader(curl: string): Option<string> {
    var joined := JoinLines(curl);
    var h := Scan(joined, "-H", ReaderFor(Some("cookie")), 0);
    if h.Some? then h
    else
      var b := Scan(joined, "-b", ReaderFor(None), 0);
      if b.Some? then b else Scan(joined, "--cookie", ReaderFor(None), 0)
  }

  predicate LooksLikeCurl(s: string) {
    |s| > 4 && Lower(s[..4]) == "curl" && (IsWhitespace(s[4]) || s[4] == '\'' || s[4] == '"')
  }

  /** The input formats other than JSON. */
  function ParseCurlCookies(raw: string): Parsed {
    var s := Trim(raw);
    if s == "" then EmptyInput
    else if s[0] == '[' then JsonInput
    else if !LooksLikeCurl(s) then ParseHeader(s)
    else
      match ExtractHeader(s)
      case None => NoCookieHeader
      case Some(header) => ParseHeader(header)
  }

  // ---------------------------------------------------------------- what the scan finds

  /** h holds flag, white space and a quoted argument at p, and the argument gives this value. */
  predicate QuotedArgAt(h: string, flag: string, read: Reader, p: nat, j: nat, k: nat, value: string) {
    && IsFlagAt(h, flag, p)
    && p + |flag| < j < k < |h| && (forall m | p + |flag| <= m < j :: IsSpace(h[m]))
    && (h[j] == '\'' || h[j] == '"') && h[k] == h[j] && h[j] !in h[j + 1..k]
    && read(h[j + 1..k]) == Some(value)
  }

  /** Whatever is returned is a qualifying quoted argument of the flag. */
  lemma {:induction false} FoundIsQuoted(h: string, flag: string, read: Reader, i: nat)
    requires Scan(h, flag, read, i).Some?
    ensures exists p: nat, j: nat, k: nat :: i <= p && QuotedArgAt(h, flag, read, p, j, k, Scan(h, flag, read, i).value)
    decreases |h| - i
  {
    var look := LookAt(h, flag, read, i);
    if look.Skip? {
      FoundIsQuoted(h, flag, read, look.next);
      var p: nat, j: nat, k: nat :| look.next <= p
        && QuotedArgAt(h, flag, read, p, j, k, Scan(h, flag, read, look.next).value);
    } else {
      var j := SkipSpaces(h, i + |flag|);
      assert QuotedArgAt(h, flag, read, i, j, QuoteEnd(h, h[j], j + 1), look.value);
    }
  }

  lemma {:induction false} SpacesEndAt(h: string, from: nat, j: nat)
    requires from <= j < |h| && !IsSpace(h[j]) && forall m | from <= m < j :: IsSpace(h[m])
    ensures SkipSpaces(h, from) == j
    decreases j - from
  {
    if from < j {
      SpacesEndAt(h, from + 1, j);
    }
  }

  lemma {:induction false} QuoteEndsAt(h: string, quote: char, start: nat, k: nat)
    requires start <= k < |h| && h[k] == quote && quote !in h[start..k]
    ensures QuoteEnd(h, quote, start) == k
    decreases k - start
  {
    if start < k {
      assert h[start] == h[start..k][0];
      assert h[start..k][1..] == h[start + 1..k];
      QuoteEndsAt(h, quote, start + 1, k);
    }
  }

  lemma {:induction false} LookFinds(h: string, flag: string, read: Reader, p: nat, j: nat, k: nat, value: string)
    requires QuotedArgAt(h, flag, read, p, j, k, value)
    ensures LookAt(h, flag, read, p) == Found(value)
  {
    SpacesEndAt(h, p + |flag|, j);
    QuoteEndsAt(h, h[j], j + 1, k);
  }

  lemma {:induction false} ScanMovesOn(h: string, flag: string, read: Reader, i: nat, p: nat)
    requires i <= p && p + |flag| < |h|
    requires forall q | i <= q < p :: !IsFlagAt(h, flag, q)
    ensures Scan(h, flag, read, i) == Scan(h, flag, read, p)
    decreases p - i
  {
    if i < p {
      assert LookAt(h, flag, read, i) == Skip(i + 1);
      ScanMovesOn(h, flag, read, i + 1, p);
    }
  }

  /** The first place at or after i where the flag stands. */
  ghost predicate NextFlag(h: string, flag: string, i: nat, p: nat) {
    i <= p && IsFlagAt(h, flag, p) && forall q | i <= q < p :: !IsFlagAt(h, flag, q)
  }

  ghost predicate NoFlagFrom(h: string, flag: string, i: nat) {
    forall q | i <= q :: !IsFlagAt(h, flag, q)
  }

  /** What follows the flag at p: its first character behind the white space stands at j. */
  ghost predicate ArgumentAt(h: string, flag: string, p: nat, j: nat) {
    && IsFlagAt(h, flag, p)
    && p + |flag| < j < |h| && !IsSpace(h[j]) && (forall m | p + |flag| <= m < j :: IsSpace(h[m]))
  }

  /** The argument is quoted, and the quote is closed at k. */
  ghost predicate ClosedAt(h: string, flag: string, p: nat, j: nat, k: nat) {
    && ArgumentAt(h, flag, p, j) && IsQuote(h[j])
    && j < k < |h| && h[k] == h[j] && h[j] !in h[j + 1..k]
  }

  /** The argument is closed in front of `next` and refused. */
  ghost predicate RefusesAt(h: string, flag: string, read: Reader, p: nat, j: nat, next: nat) {
    next > 0 && ClosedAt(h, flag, p, j, next - 1) && read(h[j + 1..next - 1]) == None
  }

  /** The scan passes over the flag at p and goes on at `next`: its argument is closed but refused,
      or it is not quoted. */
  ghost predicate PassesOver(h: string, flag: string, read: Reader, p: nat, next: nat) {
    || (exists j: nat :: RefusesAt(h, flag, read, p, j, next))
    || (ArgumentAt(h, flag, p, next) && !IsQuote(h[next]))
  }

  /** The argument's quote is never closed. */
  ghost predicate UnclosedAt(h: string, flag: string, p: nat, j: nat) {
    ArgumentAt(h, flag, p, j) && IsQuote(h[j]) && h[j] !in h[j + 1..]
  }

  ghost predicate NothingBehind(h: string, flag: string, p: nat) {
    IsFlagAt(h, flag, p) && forall m | p + |flag| <= m < |h| :: IsSpace(h[m])
  }

  /** The scan ends at the flag at p: nothing follows it, or its quote is never closed. */
  ghost predicate EndsAt(h: string, flag: string, p: nat) {
    NothingBehind(h, flag, p) || exists j: nat :: UnclosedAt(h, flag, p, j)
  }

  datatype Pass = Pass(p: nat, next: nat)

  /** Starting at i, the scan passes over these flags and arrives at `at`. */
  ghost predicate Arrives(h: string, flag: string, read: Reader, i: nat, passes: seq<Pass>, at: nat)
    decreases |passes|
  {
    if passes == [] then i == at
    else
      && NextFlag(h, flag, i, passes[0].p) && PassesOver(h, flag, read, passes[0].p, passes[0].next)
      && Arrives(h, flag, read, passes[0].next, passes[1..], at)
  }

  predicate IsQuote(c: char) {
    c == '\'' || c == '"'
  }

  lemma {:induction false} NextFlagIsScanned(h: string, flag: string, read: Reader, i: nat, p: nat)
    requires NextFlag(h, flag, i, p)
    ensures Scan(h, flag, read, i) == Scan(h, flag, read, p)
  {
    ScanMovesOn(h, flag, read, i, p);
  }

  lemma {:induction false} BareIsScanned(h: string, flag: string, read: Reader, p: nat, next: nat)
    requires ArgumentAt(h, flag, p, next) && !IsQuote(h[next])
    ensures LookAt(h, flag, read, p) == Skip(next)
  {
    SpacesEndAt(h, p + |flag|, next);
  }

  lemma {:induction false} RefusedIsScanned(h: string, flag: string, read: Reader, p: nat, j: nat, next: nat)
    requires RefusesAt(h, flag, read, p, j, next)
    ensures LookAt(h, flag, read, p) == Skip(next)
  {
    SpacesEndAt(h, p + |flag|, j);
    QuoteEndsAt(h, h[j], j + 1, next - 1);
  }

  lemma {:induction false} PassIsScanned(h: string, flag: string, read: Reader, p: nat, next: nat)
    requires PassesOver(h, flag, read, p, next)
    ensures p + |flag| < |h| && p < next <= |h| && Scan(h, flag, read, p) == Scan(h, flag, read, next)
  {
    if ArgumentAt(h, flag, p, next) && !IsQuote(h[next]) {
      BareIsScanned(h, flag, read, p, next);
    } else {
      var j: nat :| RefusesAt(h, flag, read, p, j, next);
      RefusedIsScanned(h, flag, read, p, j, next);
    }
  }

  lemma {:induction false} ArrivalIsScanned(
    h: string, flag: string, read: Reader, i: nat, passes: seq<Pass>, at: nat)
    requires Arrives(h, flag, read, i, passes, at)
    ensures Scan(h, flag, read, i) == Scan(h, flag, read, at)
    decreases |passes|
  {
    if passes != [] {
      NextFlagIsScanned(h, flag, read, i, passes[0].p);
      PassIsScanned(h, flag, read, passes[0].p, passes[0].next);
      ArrivalIsScanned(h, flag, read, passes[0].next, passes[1..], at);
    }
  }

  /** From there the next flag has a qualifying argument. */
  ghost predicate FindsAt(h: string, flag: string, read: Reader, at: nat, value: string) {
    exists p: nat, j: nat, k: nat :: NextFlag(h, flag, at, p) && QuotedArgAt(h, flag, read, p, j, k, value)
  }

  /** From there no flag is left, or the scan ends at the next one. */
  ghost predicate GivesUpAt(h: string, flag: string, at: nat) {
    NoFlagFrom(h, flag, at) || exists p: nat :: NextFlag(h, flag, at, p) && EndsAt(h, flag, p)
  }

  lemma {:induction false} FindsIsScanned(h: string, flag: string, read: Reader, at: nat, value: string)
    requires FindsAt(h, flag, read, at, value)
    ensures Scan(h, flag, read, at) == Some(value)
  {
    var p: nat, j: nat, k: nat :| NextFlag(h, flag, at, p) && QuotedArgAt(h, flag, read, p, j, k, value);
    NextFlagIsScanned(h, flag, read, at, p);
    LookFinds(h, flag, read, p, j, k, value);
  }

  lemma {:induction false} SpacesToTheEnd(h: string, from: nat)
    requires from <= |h| && forall m | from <= m < |h| :: IsSpace(h[m])
    ensures SkipSpaces(h, from) == |h|
    decreases |h| - from
  {
    if from < |h| {
      SpacesToTheEnd(h, from + 1);
    }
  }

  lemma {:induction false} QuoteNeverEnds(h: string, quote: char, start: nat)
    requires start <= |h| && quote !in h[start..]
    ensures QuoteEnd(h, quote, start) == |h|
    decreases |h| - start
  {
    if start < |h| {
      assert h[start] == h[start..][0] && h[start..][1..] == h[start + 1..];
      QuoteNeverEnds(h, quote, start + 1);
    }
  }

  lemma {:induction false} UnclosedIsScanned(h: string, flag: string, read: Reader, p: nat, j: nat)
    requires UnclosedAt(h, flag, p, j)
    ensures Scan(h, flag, read, p) == None
  {
    SpacesEndAt(h, p + |flag|, j);
    QuoteNeverEnds(h, h[j], j + 1);
  }

  lemma {:induction false} EndIsScanned(h: string, flag: string, read: Reader, p: nat)
    requires EndsAt(h, flag, p)
    ensures Scan(h, flag, read, p) == None
  {
    if NothingBehind(h, flag, p) {
      SpacesToTheEnd(h, p + |flag|);
    } else {
      var j: nat :| UnclosedAt(h, flag, p, j);
      UnclosedIsScanned(h, flag, read, p, j);
    }
  }

  lemma {:induction false} NoFlagIsScanned(h: string, flag: string, read: Reader, i: nat)
    requires NoFlagFrom(h, flag, i)
    ensures Scan(h, flag, read, i) == None
    decreases |h| - i
  {
    if i + |flag| < |h| {
      NoFlagIsScanned(h, flag, read, i + 1);
    }
  }

  lemma {:induction false} GivesUpIsScanned(h: string, flag: string, read: Reader, at: nat)
    requires GivesUpAt(h, flag, at)
    ensures Scan(h, flag, read, at) == None
  {
    if NoFlagFrom(h, flag, at) {
      NoFlagIsScanned(h, flag, read, at);
    } else {
      var p: nat :| NextFlag(h, flag, at, p) && EndsAt(h, flag, p);
      NextFlagIsScanned(h, flag, read, at, p);
      EndIsScanned(h, flag, read, p);
    }
  }

  /** What one look does at a place where the flag stands. */
  lemma {:induction false} LookIs(h: string, flag: string, read: Reader, p: nat)
    requires IsFlagAt(h, flag, p)
    ensures match LookAt(h, flag, read, p)
      case Skip(next) => PassesOver(h, flag, read, p, next)
      case Stop => EndsAt(h, flag, p)
      case Found(value) => exists j: nat, k: nat :: QuotedArgAt(h, flag, read, p, j, k, value)
  {
    var j := SkipSpaces(h, p + |flag|);
    if j < |h| {
      assert ArgumentAt(h, flag, p, j);
      if IsQuote(h[j]) {
        var k := QuoteEnd(h, h[j], j + 1);
        if k < |h| {
          assert read(h[j + 1..k]) == None ==> RefusesAt(h, flag, read, p, j, k + 1);
          assert read(h[j + 1..k]).Some? ==> QuotedArgAt(h, flag, read, p, j, k, read(h[j + 1..k]).value);
        } else {
          assert h[j + 1..k] == h[j + 1..];
          assert UnclosedAt(h, flag, p, j);
        }
      }
    }
  }

  lemma {:induction false} FirstFlagFrom(h: string, flag: string, i: nat) returns (p: nat)
    ensures NextFlag(h, flag, i, p) || NoFlagFrom(h, flag, i)
    decreases |h| - i
  {
    p := i;
    if i < |h| && !IsFlagAt(h, flag, i) {
      p := FirstFlagFrom(h, flag, i + 1);
      assert IsFlagAt(h, flag, i) || NoFlagFrom(h, flag, i) || NextFlag(h, flag, i, p);
    }
  }

  /** Every scan passes over some flags and then finds a value or gives up. */
  lemma {:induction false} ScanIsATrace(h: string, flag: string, read: Reader, i: nat)
    returns (passes: seq<Pass>, at: nat)
    ensures Arrives(h, flag, read, i, passes, at)
    ensures match Scan(h, flag, read, i)
      case Some(value) => FindsAt(h, flag, read, at, value)
      case None => GivesUpAt(h, flag, at)
    decreases |h| - i
  {
    passes, at := [], i;
    var p := FirstFlagFrom(h, flag, i);
    if NextFlag(h, flag, i, p) {
      NextFlagIsScanned(h, flag, read, i, p);
      LookIs(h, flag, read, p);
      match LookAt(h, flag, read, p) {
        case Skip(next) =>
          var rest, last := ScanIsATrace(h, flag, read, next);
          passes, at := [Pass(p, next)] + rest, last;
        case Stop =>
        case Found(value) =>
      }
    } else {
      NoFlagIsScanned(h, flag, read, i);
    }
  }

  /** Passing over these flags, the scan arrives where a qualifying argument comes next. */
  ghost predicate FindsAfter(
    h: string, flag: string, read: Reader, i: nat, passes: seq<Pass>, at: nat, value: string)
  {
    Arrives(h, flag, read, i, passes, at) && FindsAt(h, flag, read, at, value)
  }

  /** Passing over these flags, the scan arrives where it gives up. */
  ghost predicate GivesUpAfter(h: string, flag: string, read: Reader, i: nat, passes: seq<Pass>, at: nat) {
    Arrives(h, flag, read, i, passes, at) && GivesUpAt(h, flag, at)
  }

  lemma {:induction false} FindsAfterIsScanned(
    h: string, flag: string, read: Reader, i: nat, passes: seq<Pass>, at: nat, value: string)
    requires FindsAfter(h, flag, read, i, passes, at, value)
    ensures Scan(h, flag, read, i) == Some(value)
  {
    ArrivalIsScanned(h, flag, read, i, passes, at);
    FindsIsScanned(h, flag, read, at, value);
  }

  lemma {:induction false} GivesUpAfterIsScanned(
    h: string, flag: string, read: Reader, i: nat, passes: seq<Pass>, at: nat)
    requires GivesUpAfter(h, flag, read, i, passes, at)
    ensures Scan(h, flag, read, i) == None
  {
    ArrivalIsScanned(h, flag, read, i, passes, at);
    GivesUpIsScanned(h, flag, read, at);
  }

  lemma {:induction false} TraceOf(h: string, flag: string, read: Reader, i: nat) returns (passes: seq<Pass>, at: nat)
    ensures match Scan(h, flag, read, i)
      case Some(value) => FindsAfter(h, flag, read, i, passes, at, value)
      case None => GivesUpAfter(h, flag, read, i, passes, at)
  {
    passes, at := ScanIsATrace(h, flag, read, i);
  }

  /** Which argument is returned: the scan finds a value if and only if, passing over closed
      arguments that are refused and over arguments without a quote, it arrives at a flag whose
      argument qualifies with that value. */
  lemma {:induction false} FoundIff(h: string, flag: string, read: Reader, i: nat, value: string)
    ensures Scan(h, flag, read, i) == Some(value) <==>
      exists passes, at: nat :: FindsAfter(h, flag, read, i, passes, at, value)
  {
    var passes, at := TraceOf(h, flag, read, i);
    forall passes, at: nat | FindsAfter(h, flag, read, i, passes, at, value)
      ensures Scan(h, flag, read, i) == Some(value)
    {
      FindsAfterIsScanned(h, flag, read, i, passes, at, value);
    }
  }

  /** Nothing is returned if and only if, passing over such arguments, it runs out of flags or
      comes to one with nothing behind it or with an unclosed quote. */
  lemma {:induction false} NothingIff(h: string, flag: string, read: Reader, i: nat)
    ensures Scan(h, flag, read, i) == None <==>
      exists passes, at: nat :: GivesUpAfter(h, flag, read, i, passes, at)
  {
    var passes, at := TraceOf(h, flag, read, i);
    forall passes, at: nat | GivesUpAfter(h, flag, read, i, passes, at)
      ensures Scan(h, flag, read, i) == None
    {
      GivesUpAfterIsScanned(h, flag, read, i, passes, at);
    }
  }

  /** So the first qualifying argument is not always returned: an unclosed quote in front of it
      hides it. For any text and any argument that would qualify behind it: */
  lemma {:induction false} UnclosedQuoteHides(before: string, argument: string, read: Reader, value: string)
    requires '\'' !in before && '\'' !in argument && '"' !in argument && read(argument) == Some(value)
    ensures var h := "-H '" + before + (" -H \"" + argument + "\"");
      && QuotedArgAt(h, "-H", read, |before| + 5, |before| + 8, |before| + 9 + |argument|, value)
      && Scan(h, "-H", read, 0) == None
  {
    var tail := " -H \"" + argument + "\"";
    QualifyingBehind("-H '" + before, argument, read, value);
    Regroup("-H '", before, tail);
    assert '\'' !in tail;
    NothingInFront("-H '" + (before + tail), before + tail, read);
  }

  lemma {:induction false} QualifyingBehind(front: string, argument: string, read: Reader, value: string)
    requires '"' !in argument && read(argument) == Some(value)
    ensures var h := front + (" -H \"" + argument + "\"");
      QuotedArgAt(h, "-H", read, |front| + 1, |front| + 4, |front| + 5 + |argument|, value)
  {
    var h, p := front + (" -H \"" + argument + "\""), |front| + 1;
    assert h[p - 1] == ' ' && h[p..p + 2] == "-H" && h[p + 2] == ' ' && h[p + 3] == '"';
    assert h[p + 4 + |argument|] == '"' && h[p + 4..p + 4 + |argument|] == argument;
  }

  lemma {:induction false} UnclosedInFront(h: string, behind: string)
    requires h == "-H '" + behind && '\'' !in behind
    ensures EndsAt(h, "-H", 0)
  {
    assert h[0..2] == "-H" && h[2] == ' ' && h[3] == '\'' && h[4..] == behind;
    assert UnclosedAt(h, "-H", 0, 3);
  }

  lemma {:induction false} NothingInFront(h: string, behind: string, read: Reader)
    requires h == "-H '" + behind && '\'' !in behind
    ensures Scan(h, "-H", read, 0) == None
  {
    UnclosedInFront(h, behind);
    EndIsScanned(h, "-H", read, 0);
  }

  // ---------------------------------------------------------------- the way back

  /** What every legal cookie (section 4.2.1 of RFC 6265) satisfies, for a given quote. */
  predicate Printable(c: Cookie, quote: char) {
    && c.name != "" && Trimmed(c.name) && Trimmed(c.value)
    && '=' !in c.name && ';' !in c.name && ';' !in c.value
    && quote !in c.name && quote !in c.value && '\n' !in c.name && '\n' !in c.value
  }

  function Pair(c: Cookie): string {
    c.name + "=" + c.value
  }

  function Header(cookies: seq<Cookie>): string {
    if cookies == [] then "" else if |cookies| == 1 then Pair(cookies[0])
    else Pair(cookies[0]) + [';'] + (" " + Header(cookies[1..]))
  }

  lemma {:induction false} PairIsClean(c: Cookie, quote: char)
    requires Printable(c, quote) && (quote == '\'' || quote == '"')
    ensures Trimmed(Pair(c)) && Pair(c) != "" && ';' !in Pair(c) && quote !in Pair(c) && '\n' !in Pair(c)
  {
    var p := Pair(c);
    assert p[0] == c.name[0];
    assert p[|p| - 1] == if c.value == "" then '=' else c.value[|c.value| - 1];
  }

  lemma {:induction false} PairSplits(c: Cookie, quote: char)
    requires Printable(c, quote)
    ensures Find(Pair(c), "=", 0) == Some(|c.name|)
    ensures Pair(c)[..|c.name|] == c.name && Pair(c)[|c.name| + 1..] == c.value
  {
    var p, n := Pair(c), |c.name|;
    forall j | 0 <= j <= n ensures At(p, "=", j) <==> j == n {
      AtChar(p, '=', j);
    }
    FindIs(p, "=", 0, n);
  }

  /** A printed pair parses back, also behind the space that separates it from the one before. */
  lemma {:induction false} PairParses(c: Cookie, quote: char, lead: string)
    requires Printable(c, quote) && (quote == '\'' || quote == '"') && (lead == "" || lead == " ")
    ensures ParsePiece(lead + Pair(c)) == [c]
  {
    PairIsClean(c, quote);
    PairSplits(c, quote);
    TrimOfTrimmed(c.name);
    TrimOfTrimmed(c.value);
    if lead == "" {
      assert lead + Pair(c) == Pair(c);
      TrimOfTrimmed(Pair(c));
    } else {
      TrimLeadingSpace(Pair(c));
    }
    assert Trim(lead + Pair(c)) == Pair(c);
  }

  ghost predicate AllPrintable(cookies: seq<Cookie>, quote: char) {
    forall c <- cookies :: Printable(c, quote)
  }

  lemma {:induction false} HeadAndTail(cookies: seq<Cookie>, quote: char)
    requires AllPrintable(cookies, quote) && cookies != []
    ensures Printable(cookies[0], quote) && AllPrintable(cookies[1..], quote)
  {
    assert cookies[0] in cookies;
  }

  /** Splitting a printed header at the semicolons and parsing the pieces gives the cookies back. */
  lemma {:induction false} PiecesOfHeader(cookies: seq<Cookie>, quote: char, lead: string)
    requires cookies != [] && (lead == "" || lead == " ") && (quote == '\'' || quote == '"')
    requires AllPrintable(cookies, quote)
    ensures ParsePieces(SplitOn(lead + Header(cookies), ';')) == cookies
    decreases |cookies|
  {
    var c, tail := cookies[0], cookies[1..];
    HeadAndTail(cookies, quote);
    var piece := lead + Pair(c);
    assert ParsePiece(piece) == [c] && ';' !in piece by {
      PairIsClean(c, quote);
      PairParses(c, quote, lead);
    }
    assert cookies == [c] + tail;
    if tail == [] {
      OnlyPiece(piece, c);
    } else {
      HeaderUnfolds(cookies, lead);
      PiecesOfHeader(tail, quote, " ");
      FirstPiece(piece, c, " " + Header(tail), tail);
    }
  }

  lemma {:induction false} OnlyPiece(piece: string, c: Cookie)
    requires ';' !in piece && ParsePiece(piece) == [c]
    ensures ParsePieces(SplitOn(piece, ';')) == [c]
  {
    SplitOnLast(piece, ';');
    ConsPieces(piece, [], c);
  }

  lemma {:induction false} HeaderUnfolds(cookies: seq<Cookie>, lead: string)
    requires |cookies| > 1
    ensures lead + Header(cookies) == lead + Pair(cookies[0]) + [';'] + (" " + Header(cookies[1..]))
  {
    var rest := " " + Header(cookies[1..]);
    assert lead + (Pair(cookies[0]) + [';'] + rest) == lead + Pair(cookies[0]) + [';'] + rest;
  }

  lemma {:induction false} FirstPiece(piece: string, c: Cookie, rest: string, cookies: seq<Cookie>)
    requires ';' !in piece && ParsePiece(piece) == [c] && ParsePieces(SplitOn(rest, ';')) == cookies
    ensures ParsePieces(SplitOn(piece + [';'] + rest, ';')) == [c] + cookies
  {
    SplitOnCons(piece, ';', rest);
    ConsPieces(piece, SplitOn(rest, ';'), c);
  }

  lemma {:induction false} ConsPieces(piece: string, pieces: seq<string>, c: Cookie)
    requires ParsePiece(piece) == [c]
    ensures ParsePieces([piece] + pieces) == [c] + ParsePieces(pieces)
  {
    assert ([piece] + pieces)[1..] == pieces;
  }

  lemma {:induction false} HeaderIsClean(cookies: seq<Cookie>, quote: char)
    requires cookies != [] && (quote == '\'' || quote == '"')
    requires AllPrintable(cookies, quote)
    ensures var h := Header(cookies); h != "" && Trimmed(h) && quote !in h && '\n' !in h
    decreases |cookies|
  {
    var c := cookies[0];
    HeadAndTail(cookies, quote);
    PairIsClean(c, quote);
    if |cookies| > 1 {
      var rest := Header(cookies[1..]);
      HeaderIsClean(cookies[1..], quote);
      var h := Pair(c) + [';'] + (" " + rest);
      assert h[0] == Pair(c)[0] && h[|h| - 1] == rest[|rest| - 1];
    }
  }

  lemma {:induction false} QualifiesCookie(text: string)
    requires Trimmed(text)
    ensures Qualify("cookie: " + text, Some("cookie")) == Some(text)
  {
    var argument := "cookie: " + text;
    assert Lower("cookie") + ":" == "cookie:";
    assert Lower(argument)[..7] == "cookie:";
    assert argument[7..] == " " + text;
    TrimLeadingSpace(text);
  }

  /** A printed Cookie header, pasted as it is, parses back. */
  lemma {:induction false} HeaderRoundTrip(cookies: seq<Cookie>, quote: char)
    requires cookies != [] && IsQuote(quote) && AllPrintable(cookies, quote)
    ensures ParseHeader(Header(cookies)) == Cookies(cookies)
  {
    assert "" + Header(cookies) == Header(cookies);
    PiecesOfHeader(cookies, quote, "");
  }
}
