/**
 Cookies printed into a `curl` command line as browsers copy it, and parsed back: any words and
 other headers in front, line continuations between the arguments, and anything behind.
*/
module CurlCommands {
  import opened Cookies
  import opened Option
  import opened Text

  // ---------------------------------------------------------------- the command line

  /** How a line is continued: not at all, or as bash or cmd do, with either line end. */
  datatype Break = NoBreak | BashCrLf | BashLf | CmdCrLf | CmdLf

  function Pattern(b: Break): (r: string)
    ensures b != NoBreak ==> |r| >= 2 && (r[0] == '\\' || r[0] == '^') && (r[1] == '\r' || r[1] == '\n')
    ensures b != NoBreak && r[1] == '\r' ==> |r| == 3 && r[2] == '\n'
  {
    match b
    case NoBreak => ""
    case BashCrLf => "\\\r\n"
    case BashLf => "\\\n"
    case CmdCrLf => "^\r\n"
    case CmdLf => "^\n"
  }

  function Spaces(n: nat): (s: string)
    ensures |s| == n && forall i | 0 <= i < n :: s[i] == ' '
  {
    seq(n, i requires 0 <= i < n => ' ')
  }

  /** The white space in front of an argument. */
  datatype Gap = Gap(kind: Break, indent: nat)

  /** A word, or a header in quotes of either kind. */
  datatype Arg = Word(text: string) | HeaderArg(quote: char, text: string)

  datatype Piece = Piece(gap: Gap, arg: Arg)

  /** The continuation as it stands, or the space it has become. */
  function BreakText(b: Break, joined: set<Break>): string {
    if b == NoBreak then "" else if b in joined then " " else Pattern(b)
  }

  function GapText(g: Gap, joined: set<Break>): string {
    " " + BreakText(g.kind, joined) + Spaces(g.indent)
  }

  function ArgText(a: Arg): string {
    match a
    case Word(text) => text
    case HeaderArg(quote, text) => "-H " + [quote] + text + [quote]
  }

  function PiecesText(pieces: seq<Piece>, joined: set<Break>): string {
    if pieces == [] then ""
    else GapText(pieces[0].gap, joined) + (ArgText(pieces[0].arg) + PiecesText(pieces[1..], joined))
  }

  /** An argument in front of the cookies: a word other than the flag, or a header that is no
      Cookie header. */
  predicate InFront(a: Arg) {
    match a
    case Word(text) => text != "" && text != "-H" && forall c <- text :: !IsSpace(c)
    case HeaderArg(quote, text) =>
      IsQuote(quote) && quote !in text && '\n' !in text && Qualify(text, Some("cookie")) == None
  }

  function CookieArg(cookies: seq<Cookie>, quote: char): Arg {
    HeaderArg(quote, "cookie: " + Header(cookies))
  }

  /** `curl`, the arguments in front, the Cookie header, and whatever follows. */
  function Command(front: seq<Piece>, gap: Gap, cookies: seq<Cookie>, quote: char, behind: string): string {
    "curl" + (PiecesText(front + [Piece(gap, CookieArg(cookies, quote))], {}) + behind)
  }

  // ---------------------------------------------------------------- joining the lines

  /** No line end in an argument, and a quote at the end of the last one. */
  ghost predicate OneLine(pieces: seq<Piece>) {
    && (forall p <- pieces :: ArgText(p.arg) != "" && '\n' !in ArgText(p.arg))
    && (pieces != [] ==> var last := ArgText(pieces[|pieces| - 1].arg); IsQuote(last[|last| - 1]))
  }

  /** No occurrence of the pattern starts in x. */
  ghost predicate Quiet(x: string, tail: string, b: Break) {
    forall k | 0 <= k < |x| :: !At(x + tail, Pattern(b), k)
  }

  /** An occurrence starts with the mark and ends with a line feed at most two characters on. */
  lemma {:induction false} OccurrenceEnds(s: string, b: Break, k: int)
    requires b != NoBreak && At(s, Pattern(b), k)
    ensures s[k] == Pattern(b)[0] && s[k + 1] == Pattern(b)[1]
    ensures s[k + 1] == '\n' || (s[k + 1] == '\r' && k + 2 < |s| && s[k + 2] == '\n')
  {
    AtIndex(s, Pattern(b), k, 0);
    AtIndex(s, Pattern(b), k, 1);
    if Pattern(b)[1] == '\r' {
      AtIndex(s, Pattern(b), k, 2);
    }
  }

  lemma {:induction false} SpacesAreQuiet(n: nat, tail: string, b: Break)
    requires b != NoBreak
    ensures Quiet(Spaces(n), tail, b)
  {
    forall k | 0 <= k < n ensures !At(Spaces(n) + tail, Pattern(b), k) {
      if At(Spaces(n) + tail, Pattern(b), k) {
        OccurrenceEnds(Spaces(n) + tail, b, k);
      }
    }
  }

  lemma {:induction false} OtherBreakIsQuiet(other: Break, tail: string, b: Break)
    requires b != NoBreak && other != NoBreak && other != b
    ensures Quiet(Pattern(other), tail, b)
  {
    var s := Pattern(other) + tail;
    forall k | 0 <= k < |Pattern(other)| ensures !At(s, Pattern(b), k) {
      if At(s, Pattern(b), k) {
        OccurrenceEnds(s, b, k);
      }
    }
  }

  lemma {:induction false} ArgIsQuiet(arg: string, tail: string, b: Break)
    requires b != NoBreak && arg != "" && '\n' !in arg
    requires IsQuote(arg[|arg| - 1]) || (tail != "" && tail[0] == ' ')
    ensures Quiet(arg, tail, b)
  {
    var s := arg + tail;
    assert forall i | 0 <= i < |arg| :: s[i] == arg[i] && s[i] != '\n';
    forall k | 0 <= k < |arg| ensures !At(s, Pattern(b), k) {
      if At(s, Pattern(b), k) {
        OccurrenceEnds(s, b, k);
      }
    }
  }

  lemma {:induction false} JoinQuiet(x: string, tail: string, b: Break)
    requires b != NoBreak && Quiet(x, tail, b)
    ensures Replace(x + tail, Pattern(b), " ") == x + Replace(tail, Pattern(b), " ")
  {
    ReplaceOver(x, tail, Pattern(b), " ");
  }

  lemma {:induction false} JoinBreak(kind: Break, joined: set<Break>, tail: string, b: Break)
    requires b != NoBreak && b !in joined
    ensures Replace(BreakText(kind, joined) + tail, Pattern(b), " ")
         == BreakText(kind, joined + {b}) + Replace(tail, Pattern(b), " ")
  {
    if kind == NoBreak {
      assert "" + tail == tail;
      assert "" + Replace(tail, Pattern(b), " ") == Replace(tail, Pattern(b), " ");
    } else if kind == b {
      ReplaceHit(Pattern(b), tail, " ");
    } else if kind in joined {
      SpacesAreQuiet(1, tail, b);
      assert Spaces(1) == " ";
      JoinQuiet(" ", tail, b);
    } else {
      OtherBreakIsQuiet(kind, tail, b);
      JoinQuiet(Pattern(kind), tail, b);
    }
  }

  lemma {:induction false} JoinGap(g: Gap, joined: set<Break>, tail: string, b: Break)
    requires b != NoBreak && b !in joined
    ensures Replace(GapText(g, joined) + tail, Pattern(b), " ")
         == GapText(g, joined + {b}) + Replace(tail, Pattern(b), " ")
  {
    var mid, indent := BreakText(g.kind, joined), Spaces(g.indent);
    SpacesAreQuiet(1, mid + (indent + tail), b);
    assert Spaces(1) == " ";
    JoinQuiet(" ", mid + (indent + tail), b);
    JoinBreak(g.kind, joined, indent + tail, b);
    SpacesAreQuiet(g.indent, tail, b);
    JoinQuiet(indent, tail, b);
    GapGroups(mid, indent, tail);
    GapGroups(BreakText(g.kind, joined + {b}), indent, Replace(tail, Pattern(b), " "));
  }

  lemma {:induction false} GapGroups(mid: string, indent: string, tail: string)
    ensures " " + mid + indent + tail == " " + (mid + (indent + tail))
  {
  }

  lemma {:induction false} JoinPiece(g: Gap, joined: set<Break>, arg: string, tail: string, b: Break)
    requires b != NoBreak && b !in joined && arg != "" && '\n' !in arg
    requires IsQuote(arg[|arg| - 1]) || (tail != "" && tail[0] == ' ')
    ensures Replace(GapText(g, joined) + (arg + tail), Pattern(b), " ")
         == GapText(g, joined + {b}) + (arg + Replace(tail, Pattern(b), " "))
  {
    ArgIsQuiet(arg, tail, b);
    JoinQuiet(arg, tail, b);
    JoinGap(g, joined, arg + tail, b);
  }

  lemma {:induction false} JoinPieces(pieces: seq<Piece>, joined: set<Break>, behind: string, b: Break)
    requires b != NoBreak && b !in joined && OneLine(pieces)
    ensures Replace(PiecesText(pieces, joined) + behind, Pattern(b), " ")
         == PiecesText(pieces, joined + {b}) + Replace(behind, Pattern(b), " ")
  {
    if pieces == [] {
      assert "" + behind == behind;
      assert "" + Replace(behind, Pattern(b), " ") == Replace(behind, Pattern(b), " ");
    } else {
      var arg, rest := ArgText(pieces[0].arg), pieces[1..];
      assert pieces[0] in pieces;
      var gap, tail := GapText(pieces[0].gap, joined), PiecesText(rest, joined);
      TailStarts(pieces, joined, behind);
      JoinPieces(rest, joined, behind, b);
      JoinPiece(pieces[0].gap, joined, arg, tail + behind, b);
      PieceGroups(gap, arg, tail, behind);
      var joinedGap, joinedTail := GapText(pieces[0].gap, joined + {b}), PiecesText(rest, joined + {b});
      PieceGroups(joinedGap, arg, joinedTail, Replace(behind, Pattern(b), " "));
    }
  }

  lemma {:induction false} TailStarts(pieces: seq<Piece>, joined: set<Break>, behind: string)
    requires pieces != [] && OneLine(pieces)
    ensures var arg, tail := ArgText(pieces[0].arg), PiecesText(pieces[1..], joined) + behind;
      && OneLine(pieces[1..])
      && arg != "" && (IsQuote(arg[|arg| - 1]) || (tail != "" && tail[0] == ' '))
  {
    assert pieces[0] in pieces;
    RestIsOneLine(pieces);
    if |pieces| > 1 {
      StartsWithSpace(pieces[1..], joined, behind);
    }
  }

  lemma {:induction false} RestIsOneLine(pieces: seq<Piece>)
    requires pieces != [] && OneLine(pieces)
    ensures OneLine(pieces[1..])
  {
    if |pieces| > 1 {
      assert pieces[1..][|pieces[1..]| - 1] == pieces[|pieces| - 1];
    }
  }

  lemma {:induction false} StartsWithSpace(pieces: seq<Piece>, joined: set<Break>, behind: string)
    requires pieces != []
    ensures var text := PiecesText(pieces, joined) + behind; text != "" && text[0] == ' '
  {
  }

  lemma {:induction false} PieceGroups(gap: string, arg: string, tail: string, behind: string)
    ensures gap + (arg + tail) + behind == gap + (arg + (tail + behind))
  {
  }

  const BASH: set<Break> := {BashCrLf, BashLf}

  const ALL: set<Break> := {BashCrLf, BashLf, CmdCrLf, CmdLf}

  lemma {:induction false} JoinCommand(pieces: seq<Piece>, joined: set<Break>, behind: string, b: Break)
    requires b != NoBreak && b !in joined && OneLine(pieces)
    ensures Replace("curl" + (PiecesText(pieces, joined) + behind), Pattern(b), " ")
         == "curl" + (PiecesText(pieces, joined + {b}) + Replace(behind, Pattern(b), " "))
  {
    var s := "curl" + (PiecesText(pieces, joined) + behind);
    assert forall i | 0 <= i < 4 :: s[i] == "curl"[i];
    forall k | 0 <= k < 4 ensures !At(s, Pattern(b), k) {
      if At(s, Pattern(b), k) {
        OccurrenceEnds(s, b, k);
      }
    }
    JoinQuiet("curl", PiecesText(pieces, joined) + behind, b);
    JoinPieces(pieces, joined, behind, b);
  }

  lemma {:induction false} JoinTwo(
    pieces: seq<Piece>, joined: set<Break>, both: set<Break>, behind: string, b: Break, c: Break)
    requires b != NoBreak && c != NoBreak && b != c && b !in joined && c !in joined && OneLine(pieces)
    requires both == joined + {b} + {c}
    ensures Replace(Replace("curl" + (PiecesText(pieces, joined) + behind), Pattern(b), " "), Pattern(c), " ")
         == "curl" + (PiecesText(pieces, both) + Replace(Replace(behind, Pattern(b), " "), Pattern(c), " "))
  {
    JoinCommand(pieces, joined, behind, b);
    JoinCommand(pieces, joined + {b}, Replace(behind, Pattern(b), " "), c);
  }

  /** All continuations between the arguments become spaces; what is behind is joined on its own. */
  lemma {:induction false} LinesAreJoined(pieces: seq<Piece>, behind: string)
    requires OneLine(pieces)
    ensures JoinLines("curl" + (PiecesText(pieces, {}) + behind))
         == "curl" + (PiecesText(pieces, ALL) + JoinLines(behind))
  {
    var bash := Replace(Replace(behind, Pattern(BashCrLf), " "), Pattern(BashLf), " ");
    JoinTwo(pieces, {}, BASH, behind, BashCrLf, BashLf);
    JoinTwo(pieces, BASH, ALL, bash, CmdCrLf, CmdLf);
  }

  // ---------------------------------------------------------------- scanning the joined line

  ghost predicate AllInFront(pieces: seq<Piece>) {
    forall p <- pieces :: InFront(p.arg)
  }

  lemma {:induction false} InFrontIsOneLine(a: Arg)
    requires InFront(a)
    ensures ArgText(a) != "" && '\n' !in ArgText(a)
  {
    assert IsSpace('\n');
  }

  const COOKIE: Option<string> := Some("cookie")

  /** The scan from each position of the line. */
  type Scanner = nat -> Option<string>

  function ScanOf(h: string): Scanner {
    (i: nat) => Scan(h, "-H", ReaderFor(COOKIE), i)
  }

  /** No flag stands from a up to b. */
  ghost predicate Clear(h: string, a: nat, b: nat) {
    a <= b && b + 2 < |h| && forall q | a <= q < b :: !IsFlagAt(h, "-H", q)
  }

  ghost predicate Passes(h: string, p: nat, next: nat) {
    PassesOver(h, "-H", ReaderFor(COOKIE), p, next)
  }

  ghost predicate MovesOn(h: string, scan: Scanner) {
    && (forall a: nat, b: nat | Clear(h, a, b) :: scan(a) == scan(b))
    && (forall p: nat, next: nat | Passes(h, p, next) :: scan(p) == scan(next))
  }

  lemma {:induction false} ScanOfMovesOn(h: string)
    ensures MovesOn(h, ScanOf(h))
  {
    forall a: nat, b: nat | Clear(h, a, b)
      ensures Scan(h, "-H", ReaderFor(COOKIE), a) == Scan(h, "-H", ReaderFor(COOKIE), b)
    {
      ScanMovesOn(h, "-H", ReaderFor(COOKIE), a, b);
    }
    forall p: nat, next: nat | Passes(h, p, next)
      ensures Scan(h, "-H", ReaderFor(COOKIE), p) == Scan(h, "-H", ReaderFor(COOKIE), next)
    {
      PassIsScanned(h, "-H", ReaderFor(COOKIE), p, next);
    }
  }

  lemma {:induction false} AtParts(h: string, x: string, y: string, k: nat)
    requires At(h, x + y, k)
    ensures At(h, x, k) && At(h, y, k + |x|)
  {
    assert h[k..k + |x|] == (x + y)[..|x|];
    assert h[k + |x|..k + |x| + |y|] == (x + y)[|x|..];
  }

  lemma {:induction false} JoinedGapIsSpaces(g: Gap)
    ensures GapText(g, ALL) != "" && forall i | 0 <= i < |GapText(g, ALL)| :: GapText(g, ALL)[i] == ' '
  {
  }

  lemma {:induction false} NotADash(h: string, q: nat)
    requires q < |h| && h[q] != '-'
    ensures !IsFlagAt(h, "-H", q)
  {
    if At(h, "-H", q) {
      AtIndex(h, "-H", q, 0);
    }
  }

  /** No flag stands in a gap, and a space stands at its end. */
  lemma {:induction false} GapIsClear(h: string, a: nat, gap: string)
    requires At(h, gap, a) && a + |gap| + 2 < |h| && gap != "" && forall i | 0 <= i < |gap| :: gap[i] == ' '
    ensures Clear(h, a, a + |gap|) && IsSpace(h[a + |gap| - 1])
  {
    forall q | a <= q < a + |gap| ensures h[q] == ' ' && !IsFlagAt(h, "-H", q) {
      AtIndex(h, gap, a, q - a);
      NotADash(h, q);
    }
  }

  /** A word other than the flag holds no flag. */
  lemma {:induction false} WordIsClear(h: string, p: nat, text: string)
    requires InFront(Word(text)) && At(h, text, p) && p + |text| + 2 < |h| && IsSpace(h[p + |text|])
    ensures Clear(h, p, p + |text|)
  {
    forall i | 0 <= i < |text| ensures h[p + i] == text[i] && !IsSpace(h[p + i]) {
      AtIndex(h, text, p, i);
    }
    forall q | p <= q < p + |text| ensures !IsFlagAt(h, "-H", q) {
      if q == p {
        WordIsNoFlag(h, p, text);
      } else {
        assert h[p + (q - 1 - p)] == h[q - 1];
      }
    }
  }

  lemma {:induction false} WordIsNoFlag(h: string, p: nat, text: string)
    requires InFront(Word(text)) && At(h, text, p) && p + |text| < |h| && IsSpace(h[p + |text|])
    ensures !IsFlagAt(h, "-H", p)
  {
    if |text| > 2 {
      AtIndex(h, text, p, 2);
      assert text[2] in text;
    } else if At(h, "-H", p) {
      AtIndex(h, "-H", p, 1);
    }
  }

  /** What stands where a quoted header argument is written. */
  lemma {:induction false} HeaderIsClosed(h: string, p: nat, quote: char, text: string)
    requires 0 < p <= |h| && IsSpace(h[p - 1]) && IsQuote(quote) && quote !in text
    requires At(h, ArgText(HeaderArg(quote, text)), p)
    ensures ClosedAt(h, "-H", p, p + 3, p + 4 + |text|) && h[p + 3 + 1..p + 4 + |text|] == text
  {
    AtParts(h, "-H " + [quote] + text, [quote], p);
    AtParts(h, "-H " + [quote], text, p);
    AtParts(h, "-H ", [quote], p);
    AtIndex(h, "-H ", p, 2);
    assert h[p..p + 2] == h[p..p + 3][..2];
    AtChar(h, quote, p + 3);
    AtChar(h, quote, p + 4 + |text|);
  }

  /** A header that is no Cookie header is passed over. */
  lemma {:induction false} HeaderIsPassed(h: string, p: nat, quote: char, text: string)
    requires 0 < p <= |h| && IsSpace(h[p - 1]) && InFront(HeaderArg(quote, text))
    requires At(h, ArgText(HeaderArg(quote, text)), p)
    ensures Passes(h, p, p + 5 + |text|)
  {
    HeaderIsClosed(h, p, quote, text);
    assert RefusesAt(h, "-H", ReaderFor(COOKIE), p, p + 3, p + 5 + |text|);
  }

  lemma {:induction false} PassArg(h: string, scan: Scanner, p: nat, arg: Arg, next: nat)
    requires MovesOn(h, scan) && InFront(arg) && 0 < p <= |h| && IsSpace(h[p - 1])
    requires At(h, ArgText(arg), p) && next == p + |ArgText(arg)| && next + 2 < |h| && IsSpace(h[next])
    ensures scan(p) == scan(next)
  {
    match arg
    case Word(text) => WordIsClear(h, p, text);
    case HeaderArg(quote, text) => HeaderIsPassed(h, p, quote, text);
  }

  lemma {:induction false} PassGap(h: string, scan: Scanner, a: nat, gap: string)
    requires MovesOn(h, scan) && At(h, gap, a) && a + |gap| + 2 < |h|
    requires gap != "" && forall i | 0 <= i < |gap| :: gap[i] == ' '
    ensures scan(a) == scan(a + |gap|) && IsSpace(h[a + |gap| - 1])
  {
    GapIsClear(h, a, gap);
  }

  /** Wherever this part stands in front of a space, it is passed over. */
  ghost predicate PartPasses(h: string, scan: Scanner, part: string) {
    && part != "" && part[0] == ' '
    && forall a: nat | At(h, part, a) && a + |part| + 2 < |h| && IsSpace(h[a + |part|]) :: scan(a) == scan(a + |part|)
  }

  /** A gap and the argument behind it are passed over. */
  lemma {:induction false} PassPiece(h: string, scan: Scanner, gap: string, arg: Arg, text: string)
    requires MovesOn(h, scan) && InFront(arg) && text == ArgText(arg)
    requires gap != "" && forall i | 0 <= i < |gap| :: gap[i] == ' '
    ensures PartPasses(h, scan, gap + text)
  {
    InFrontIsOneLine(arg);
    forall a: nat | At(h, gap + text, a) && a + |gap + text| + 2 < |h| && IsSpace(h[a + |gap + text|])
      ensures scan(a) == scan(a + |gap + text|)
    {
      AtParts(h, gap, text, a);
      PassGap(h, scan, a, gap);
      PassArg(h, scan, a + |gap|, arg, a + |gap| + |text|);
    }
  }

  lemma {:induction false} SpaceFirst(h: string, scan: Scanner, parts: seq<string>)
    requires forall part <- parts :: PartPasses(h, scan, part)
    ensures Concat(parts) != "" ==> Concat(parts)[0] == ' '
  {
    assert parts != [] ==> parts[0] in parts;
  }

  lemma {:induction false} PassFirst(h: string, scan: Scanner, part: string, tail: string, start: nat)
    requires PartPasses(h, scan, part) && At(h, part + tail, start) && (tail != "" ==> tail[0] == ' ')
    requires var next := start + |part + tail|; next + 2 < |h| && IsSpace(h[next])
    ensures scan(start) == scan(start + |part|) && At(h, tail, start + |part|)
  {
    AtParts(h, part, tail, start);
    if tail != "" {
      AtIndex(h, tail, start + |part|, 0);
    }
  }

  /** Parts that are passed over one by one are passed over together. */
  lemma {:induction false} PassParts(h: string, scan: Scanner, parts: seq<string>, start: nat)
    requires (forall part <- parts :: PartPasses(h, scan, part)) && At(h, Concat(parts), start)
    requires var next := start + |Concat(parts)|; next + 2 < |h| && IsSpace(h[next])
    ensures scan(start) == scan(start + |Concat(parts)|)
  {
    if parts != [] {
      var part, tail := parts[0], Concat(parts[1..]);
      assert PartPasses(h, scan, part) by { assert part in parts; }
      assert tail != "" ==> tail[0] == ' ' by { SpaceFirst(h, scan, parts[1..]); }
      PassFirst(h, scan, part, tail, start);
      PassParts(h, scan, parts[1..], start + |part|);
    }
  }

  function PieceText(piece: Piece): string {
    GapText(piece.gap, ALL) + ArgText(piece.arg)
  }

  function Parts(front: seq<Piece>): (parts: seq<string>)
    ensures |parts| == |front| && forall i | 0 <= i < |front| :: parts[i] == PieceText(front[i])
  {
    seq(|front|, i requires 0 <= i < |front| => PieceText(front[i]))
  }

  lemma {:induction false} TextOfParts(front: seq<Piece>)
    ensures PiecesText(front, ALL) == Concat(Parts(front))
    decreases |front|
  {
    if front != [] {
      TextOfParts(front[1..]);
      assert Parts(front)[1..] == Parts(front[1..]);
      Regroup(GapText(front[0].gap, ALL), ArgText(front[0].arg), PiecesText(front[1..], ALL));
    }
  }

  lemma {:induction false} EachPasses(h: string, scan: Scanner, front: seq<Piece>)
    requires MovesOn(h, scan) && AllInFront(front)
    ensures forall part <- Parts(front) :: PartPasses(h, scan, part)
  {
    forall part | part in Parts(front) ensures PartPasses(h, scan, part) {
      var i :| 0 <= i < |front| && Parts(front)[i] == part;
      assert InFront(front[i].arg);
      JoinedGapIsSpaces(front[i].gap);
      PassPiece(h, scan, GapText(front[i].gap, ALL), front[i].arg, ArgText(front[i].arg));
    }
  }

  /** The scan passes over everything in front. */
  lemma {:induction false} PassInFront(h: string, scan: Scanner, start: nat, front: seq<Piece>)
    requires MovesOn(h, scan) && AllInFront(front) && At(h, PiecesText(front, ALL), start)
    requires var next := start + |PiecesText(front, ALL)|; next + 2 < |h| && IsSpace(h[next])
    ensures scan(start) == scan(start + |PiecesText(front, ALL)|)
  {
    TextOfParts(front);
    EachPasses(h, scan, front);
    PassParts(h, scan, Parts(front), start);
  }

  /** The Cookie header at p is returned. */
  lemma {:induction false} CookiesAreFound(h: string, p: nat, quote: char, header: string)
    requires IsQuote(quote) && quote !in header && Trimmed(header) && 0 < p <= |h| && IsSpace(h[p - 1])
    requires At(h, ArgText(HeaderArg(quote, "cookie: " + header)), p)
    ensures ScanOf(h)(p) == Some(header)
  {
    var text := "cookie: " + header;
    HeaderIsClosed(h, p, quote, text);
    QualifiesCookie(header);
    LookFinds(h, "-H", ReaderFor(COOKIE), p, p + 3, p + 4 + |text|, header);
  }

  lemma {:induction false} CurlIsClear(h: string)
    requires At(h, "curl", 0) && |h| > 6
    ensures Clear(h, 0, 4)
  {
    forall q | 0 <= q < 4 ensures !IsFlagAt(h, "-H", q) {
      AtIndex(h, "curl", 0, q);
      NotADash(h, q);
    }
  }

  lemma {:induction false} PiecesTextSnoc(front: seq<Piece>, last: Piece, joined: set<Break>)
    ensures PiecesText(front + [last], joined)
         == PiecesText(front, joined) + (GapText(last.gap, joined) + ArgText(last.arg))
  {
    if front == [] {
      assert [] + [last] == [last] && [last][1..] == [];
      assert ArgText(last.arg) + "" == ArgText(last.arg);
      assert "" + (GapText(last.gap, joined) + ArgText(last.arg)) == GapText(last.gap, joined) + ArgText(last.arg);
    } else {
      assert (front + [last])[1..] == front[1..] + [last] && (front + [last])[0] == front[0];
      PiecesTextSnoc(front[1..], last, joined);
      var end := GapText(last.gap, joined) + ArgText(last.arg);
      PieceGroups(GapText(front[0].gap, joined), ArgText(front[0].arg), PiecesText(front[1..], joined), end);
    }
  }

  lemma {:induction false} SpaceAfter(h: string, p: nat, gap: string, arg: string)
    requires At(h, gap + arg, p) && |arg| > 2 && gap != "" && forall i | 0 <= i < |gap| :: gap[i] == ' '
    ensures At(h, gap, p) && p + |gap| + 2 < |h| && IsSpace(h[p])
  {
    AtParts(h, gap, arg, p);
    AtIndex(h, gap, p, 0);
  }

  /** Passing over everything in front, the scan returns the header. */
  lemma {:induction false} LineIsScanned(
    h: string, scan: Scanner, front: seq<Piece>, p: nat, gap: string, arg: string, header: string)
    requires AllInFront(front) && At(h, "curl", 0) && At(h, PiecesText(front, ALL), 4)
    requires gap != "" && forall i | 0 <= i < |gap| :: gap[i] == ' '
    requires p == 4 + |PiecesText(front, ALL)| && |arg| > 2 && At(h, gap + arg, p)
    ensures MovesOn(h, scan) && scan(p + |gap|) == Some(header) ==> scan(0) == Some(header)
  {
    SpaceAfter(h, p, gap, arg);
    if MovesOn(h, scan) {
      PassGap(h, scan, p, gap);
      PassInFront(h, scan, 4, front);
      CurlIsClear(h);
      assert Clear(h, 0, 4);
    }
  }

  lemma {:induction false} CookiesBehindGap(h: string, at: nat, gap: string, quote: char, header: string)
    requires IsQuote(quote) && quote !in header && Trimmed(header)
    requires gap != "" && forall i | 0 <= i < |gap| :: gap[i] == ' '
    requires At(h, gap + ArgText(HeaderArg(quote, "cookie: " + header)), at)
    ensures ScanOf(h)(at + |gap|) == Some(header)
  {
    AtParts(h, gap, ArgText(HeaderArg(quote, "cookie: " + header)), at);
    AtIndex(h, gap, at, |gap| - 1);
    CookiesAreFound(h, at + |gap|, quote, header);
  }

  lemma {:induction false} PartsStand(curl: string, front: string, last: string, behind: string)
    ensures var h := curl + (front + last + behind);
      At(h, curl, 0) && At(h, front, |curl|) && At(h, last, |curl| + |front|)
  {
    var h := curl + (front + last + behind);
    assert h[0..0 + |curl|] == curl && h[|curl|..|curl| + |front|] == front;
    assert h[|curl| + |front|..|curl| + |front| + |last|] == last;
  }

  /** On the joined line the scan returns the cookies. */
  lemma {:induction false} JoinedLineIsScanned(
    front: seq<Piece>, gap: Gap, header: string, quote: char, behind: string)
    requires AllInFront(front) && IsQuote(quote) && quote !in header && Trimmed(header)
    ensures var last := Piece(gap, HeaderArg(quote, "cookie: " + header));
      Scan("curl" + (PiecesText(front + [last], ALL) + behind), "-H", ReaderFor(COOKIE), 0) == Some(header)
  {
    var last := Piece(gap, HeaderArg(quote, "cookie: " + header));
    var arg, spaces := ArgText(last.arg), GapText(gap, ALL);
    PiecesTextSnoc(front, last, ALL);
    PartsStand("curl", PiecesText(front, ALL), spaces + arg, behind);
    JoinedGapIsSpaces(gap);
    var h, p := "curl" + (PiecesText(front, ALL) + (spaces + arg) + behind), 4 + |PiecesText(front, ALL)|;
    PartsAreScanned(h, front, p, spaces, arg, header, quote);
  }

  lemma {:induction false} PartsAreScanned(
    h: string, front: seq<Piece>, p: nat, gap: string, arg: string, header: string, quote: char)
    requires AllInFront(front) && IsQuote(quote) && quote !in header && Trimmed(header)
    requires gap != "" && forall i | 0 <= i < |gap| :: gap[i] == ' '
    requires |arg| > 2 && arg == ArgText(HeaderArg(quote, "cookie: " + header))
    requires At(h, "curl", 0) && At(h, PiecesText(front, ALL), 4)
    requires p == 4 + |PiecesText(front, ALL)| && At(h, gap + arg, p)
    ensures ScanOf(h)(0) == Some(header)
  {
    LineIsScanned(h, ScanOf(h), front, p, gap, arg, header);
    ScanOfMovesOn(h);
    CookiesBehindGap(h, p, gap, quote, header);
  }

  // ---------------------------------------------------------------- the way back

  lemma {:induction false} TrimBehind(front: string, behind: string)
    requires front != "" && !IsWhitespace(front[0]) && !IsWhitespace(front[|front| - 1])
    ensures Trim(front + behind) == front + TrimEnd(behind)
  {
    TrimEndBehind(front, behind);
  }

  lemma {:induction false} TrimEndBehind(front: string, behind: string)
    requires front != "" && !IsWhitespace(front[|front| - 1])
    ensures TrimEnd(front + behind) == front + TrimEnd(behind)
  {
    if behind == "" {
      assert front + "" == front;
    } else if IsWhitespace(behind[|behind| - 1]) {
      assert (front + behind)[..|front + behind| - 1] == front + behind[..|behind| - 1];
      TrimEndBehind(front, behind[..|behind| - 1]);
    }
  }

  lemma {:induction false} CommandIsOneLine(front: seq<Piece>, gap: Gap, cookies: seq<Cookie>, quote: char)
    requires AllInFront(front) && cookies != [] && IsQuote(quote) && AllPrintable(cookies, quote)
    ensures OneLine(front + [Piece(gap, CookieArg(cookies, quote))])
  {
    HeaderIsClean(cookies, quote);
    forall p | p in front ensures ArgText(p.arg) != "" && '\n' !in ArgText(p.arg) {
      assert InFront(p.arg);
      InFrontIsOneLine(p.arg);
    }
    var last := ArgText(CookieArg(cookies, quote));
    assert last[|last| - 1] == quote;
  }

  /** The command line starts with `curl` and a space, and its Cookie header ends with the quote. */
  lemma {:induction false} CommandEnds(front: seq<Piece>, gap: Gap, arg: Arg)
    requires arg.HeaderArg?
    ensures var text := PiecesText(front + [Piece(gap, arg)], {});
      |text| > 0 && text[0] == ' ' && text[|text| - 1] == arg.quote
  {
    PiecesTextSnoc(front, Piece(gap, arg), {});
  }

  lemma {:induction false} TrimCommand(text: string, quote: char, behind: string)
    requires |text| > 0 && text[0] == ' ' && text[|text| - 1] == quote && IsQuote(quote)
    ensures Trim("curl" + (text + behind)) == "curl" + (text + TrimEnd(behind))
    ensures LooksLikeCurl("curl" + (text + TrimEnd(behind)))
  {
    Regroup("curl", text, behind);
    Regroup("curl", text, TrimEnd(behind));
    TrimBehind("curl" + text, behind);
    CurlIsSeen(text + TrimEnd(behind));
  }

  lemma {:induction false} CurlIsSeen(rest: string)
    requires |rest| > 0 && rest[0] == ' '
    ensures LooksLikeCurl("curl" + rest)
  {
    var s := "curl" + rest;
    assert s[4] == ' ';
    assert s[..4] == "curl" && Lower("curl") == "curl";
  }

  /** Cookies printed into a command parse back to the same list: behind `curl`, any words and any
      headers other than Cookie, continued lines of either shell, and in front of any text. */
  lemma {:induction false} CurlRoundTrip(
    front: seq<Piece>, gap: Gap, cookies: seq<Cookie>, quote: char, behind: string)
    requires AllInFront(front) && cookies != [] && IsQuote(quote) && AllPrintable(cookies, quote)
    ensures ParseCurlCookies(Command(front, gap, cookies, quote, behind)) == Cookies(cookies)
  {
    var pieces := front + [Piece(gap, CookieArg(cookies, quote))];
    var text := PiecesText(pieces, {});
    CommandEnds(front, gap, CookieArg(cookies, quote));
    TrimCommand(text, quote, behind);
    CommandIsOneLine(front, gap, cookies, quote);
    LinesAreJoined(pieces, TrimEnd(behind));
    HeaderIsClean(cookies, quote);
    JoinedLineIsScanned(front, gap, Header(cookies), quote, JoinLines(TrimEnd(behind)));
    HeaderRoundTrip(cookies, quote);
  }
}
