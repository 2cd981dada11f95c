/**
 Reading the printed llms.txt index back.
*/
module LlmsRoundTrip {
  import opened Dedup
  import opened LlmsLinks
  import opened Option
  import opened Text

  // ---------------------------------------------------------------- the URLs of listed links

  predicate IsLetter(c: char) {
    'a' <= c <= 'z' || 'A' <= c <= 'Z'
  }

  predicate IsBracket(c: char) {
    c == '<' || c == '>'
  }

  /** The text of a URL in a list: it starts with its scheme and has no white space, because a
      reference ends at the first white space and resolving one adds none. */
  predicate IsUrlText(u: string) {
    u != "" && IsLetter(u[0]) && forall c <- u :: !IsWhitespace(c)
  }

  /** The condition of the round trip: no closing parenthesis, and no angle bracket at the end. */
  predicate PlainUrl(u: string)
    requires u != ""
  {
    ')' !in u && !IsBracket(u[|u| - 1])
  }

  /** `u` up to its first closing parenthesis. */
  function CutAt(u: string): (r: string)
    ensures r <= u && ')' !in r
    ensures ')' !in u ==> r == u
    ensures ')' in u ==> |r| < |u| && u[|r|] == ')'
  {
    if u == "" || u[0] == ')' then "" else [u[0]] + CutAt(u[1..])
  }

  /** The reference that a printed URL is read as. */
  function ReadAs(u: string): string {
    Href(CutAt(u))
  }

  /** What the round trip relies on for a listed URL: resolving it is the identity, and resolving
      a piece of it, cut off where the parser cuts, does not give it again. */
  predicate ResolvesTo(join: Resolver, u: string) {
    && IsUrlText(u)
    && join(u) == Some(u)
    && (ReadAs(u) != u ==> join(ReadAs(u)) != Some(u))
  }

  /** Every piece can be resolved, as it can unless a parenthesis stands in front of the path. */
  ghost predicate PiecesResolve(join: Resolver, links: seq<Link>) {
    forall l <- links :: join(ReadAs(l.url)).Some?
  }

  /** Behind a closing parenthesis no item can start. */
  ghost predicate NoItemBehind(links: seq<Link>) {
    forall l <- links :: '[' !in l.url[|CutAt(l.url)|..]
  }

  // ---------------------------------------------------------------- what the parser gives

  /** A link as the parser makes it from a line. */
  ghost predicate IsParsed(l: Link, join: Resolver) {
    && l.title != "" && Trimmed(l.title) && !Contains(l.title, "](") && '\n' !in l.title
    && exists h :: join(h) == Some(l.url)
  }

  /** Trimming takes a slice. */
  lemma {:induction false} TrimIsSlice(s: string) returns (a: nat)
    ensures a + |Trim(s)| <= |s| && Trim(s) == s[a..a + |Trim(s)|]
  {
    TrimStartIsSuffix(s);
    TrimEndIsPrefix(TrimStart(s));
    a := |s| - |TrimStart(s)|;
  }

  lemma {:induction false} SliceLacks(s: string, p: string, from: nat, to: nat)
    requires from <= to <= |s| && forall k | from <= k < to :: !At(s, p, k) || k + |p| > to
    requires p != ""
    ensures !Contains(s[from..to], p)
  {
    var part := s[from..to];
    forall k ensures !At(part, p, k) {
      if 0 <= k && k + |p| <= |part| {
        SliceOfSlice(s, from, to, k, k + |p|);
        assert !At(s, p, from + k);
      }
    }
  }

  lemma {:induction false} TitleIsClean(line: string, start: nat, end: nat)
    requires start <= end <= |line| && '\n' !in line
    requires forall k | start <= k < end :: !At(line, "](", k)
    ensures var title := Trim(line[start..end]);
      Trimmed(title) && !Contains(title, "](") && '\n' !in title
  {
    var caption := line[start..end];
    TrimIsTrimmed(caption);
    var a := TrimIsSlice(caption);
    var title := Trim(caption);
    SliceOfSlice(line, start, end, a, a + |title|);
    SliceLacks(line, "](", start + a, start + a + |title|);
  }

  lemma {:induction false} LinkOfIsParsed(title: string, href: string, join: Resolver)
    requires Trimmed(title) && !Contains(title, "](") && '\n' !in title
    ensures forall l <- LinkOf(title, href, join) :: IsParsed(l, join)
  {
    if title != "" && href != "" && join(href).Some? {
      assert IsParsed(Link(title, join(href).value), join);
    }
  }

  lemma {:induction false} LinksFromAreParsed(line: string, cursor: nat, join: Resolver)
    requires '\n' !in line
    ensures forall l <- LinksFrom(line, cursor, join) :: IsParsed(l, join)
    decreases |line| - cursor
  {
    match TurnAt(line, cursor)
    case Stop =>
    case Skip(next) => LinksFromAreParsed(line, next, join);
    case Take(caption, href, next) =>
      LinksFromAreParsed(line, next, join);
      var start := Find(line, "[", cursor).value;
      var end := Find(line, "](", start + 1).value;
      TitleIsClean(line, start + 1, end);
      LinkOfIsParsed(Trim(caption), Href(href), join);
  }

  lemma {:induction false} ItemTextHasNoNewline(line: string)
    requires '\n' !in line
    ensures ItemText(line).Some? ==> '\n' !in ItemText(line).value
  {
    TrimStartIsSuffix(line);
  }

  lemma {:induction false} LinksOfLinesAreParsed(lines: seq<string>, join: Resolver)
    requires forall l <- lines :: '\n' !in l
    ensures forall l <- LinksOfLines(lines, join) :: IsParsed(l, join)
  {
    if lines != [] {
      assert lines[0] in lines;
      ItemTextHasNoNewline(lines[0]);
      if ItemText(lines[0]).Some? {
        LinksFromAreParsed(ItemText(lines[0]).value, 0, join);
      }
      LinksOfLinesAreParsed(lines[1..], join);
    }
  }

  lemma {:induction false} FirstsAreMembers(links: seq<Link>, seen: set<string>)
    ensures forall l <- Firsts(links, LinkKey, seen) :: l in links
  {
    var at := FirstsPick(links, LinkKey, seen);
  }

  lemma {:induction false} RetainKeeps(links: seq<Link>, needle: string)
    ensures forall l <- Retain(links, needle) :: l in links && Matches(l, needle)
  {
    if links != [] {
      RetainKeeps(links[1..], needle);
    }
  }

  lemma {:induction false} RetainDistinct(links: seq<Link>, needle: string, seen: set<string>)
    requires DistinctKeys(links, LinkKey) && NewKeys(links, LinkKey, seen)
    ensures DistinctKeys(Retain(links, needle), LinkKey) && NewKeys(Retain(links, needle), LinkKey, seen)
  {
    if links != [] {
      var k := LinkKey(links[0]);
      forall i | 0 <= i < |links[1..]| ensures LinkKey(links[1..][i]) !in seen + {k} {
        assert links[1..][i] == links[i + 1];
      }
      RetainDistinct(links[1..], needle, seen + {k});
      var rest := Retain(links[1..], needle);
      assert forall i | 0 <= i < |rest| :: LinkKey(rest[i]) !in seen + {k};
    }
  }

  /** Every listed link is as the parser makes them, and no two have the same key. */
  lemma {:induction false} IndexLinksAreParsed(body: string, filter: Option<string>, join: Resolver)
    ensures var links := IndexLinks(body, filter, join);
      (forall l <- links :: IsParsed(l, join)) && DistinctKeys(links, LinkKey)
  {
    var all := LinksOfLines(Lines(body), join);
    forall l <- Lines(body) ensures '\n' !in l {
      LinesHaveNoNewline(body, l);
    }
    LinksOfLinesAreParsed(Lines(body), join);
    FirstsAreMembers(all, {});
    FirstsAreDistinct(all, LinkKey, {});
    if filter.Some? {
      RetainKeeps(Distinct(all), Lower(filter.value));
      RetainDistinct(Distinct(all), Lower(filter.value), {});
    }
  }

  // ---------------------------------------------------------------- reading one item

  lemma {:induction false} TrimCharIs(s: string, c: char)
    requires s != "" && s[0] != c
    ensures TrimChar(s, c) == TrimEndChar(s, c) && TrimChar(s, c) != "" && TrimChar(s, c)[0] == s[0]
    ensures TrimChar(s, c) == s <==> s[|s| - 1] != c
  {
  }

  lemma {:induction false} HrefTrims(u: string)
    requires IsUrlText(u)
    ensures TrimEndChar(u, '<') != "" && Href(u) == TrimEndChar(TrimEndChar(u, '<'), '>')
  {
    assert u[0] in u;
    WordEnds(u, "");
    assert u + "" == u;
    TrimCharIs(u, '<');
    TrimCharIs(TrimChar(u, '<'), '>');
  }

  /** A text without white space loses exactly the brackets at its end. */
  lemma {:induction false} HrefOfText(u: string)
    requires IsUrlText(u)
    ensures Href(u) != "" && |Href(u)| <= |u| && (Href(u) == u <==> !IsBracket(u[|u| - 1]))
  {
    var v := TrimEndChar(u, '<');
    HrefTrims(u);
    TrimCharIs(u, '<');
    TrimCharIs(v, '>');
  }

  /** A printed URL is read as itself exactly when it is plain. */
  lemma {:induction false} ReadAsItself(u: string)
    requires IsUrlText(u)
    ensures ReadAs(u) == u <==> PlainUrl(u)
    ensures ReadAs(u) != ""
  {
    CutIsText(u);
    HrefOfText(CutAt(u));
  }

  lemma {:induction false} CutIsText(u: string)
    requires IsUrlText(u)
    ensures IsUrlText(CutAt(u))
  {
    assert forall c <- CutAt(u) :: c in u;
  }

  lemma {:induction false} HrefEnds(before: string, href: string, tail: string)
    requires ')' !in href
    ensures Find(before + href + ")" + tail, ")", |before|) == Some(|before| + |href|)
  {
    var line, from := before + href + ")" + tail, |before|;
    forall k | from <= k < from + |href| ensures !At(line, ")", k) {
      AtChar(line, ')', k);
      assert line[k] == href[k - from];
    }
    AtChar(line, ')', from + |href|);
    FindIs(line, ")", from, from + |href|);
  }

  lemma {:induction false} BracketStarts(before: string, cursor: nat, rest: string)
    requires cursor <= |before| && '[' !in before[cursor..]
    ensures Find(before + "[" + rest, "[", cursor) == Some(|before|)
  {
    var line := before + "[" + rest;
    forall k | cursor <= k <= |before| ensures At(line, "[", k) <==> k == |before| {
      AtChar(line, '[', k);
      if k < |before| {
        assert line[k] == before[cursor..][k - cursor];
      }
    }
    FindIs(line, "[", cursor, |before|);
  }

  lemma {:induction false} TitleEnds(before: string, title: string, rest: string)
    requires !Contains(title, "](")
    ensures Find(before + title + "](" + rest, "](", |before|) == Some(|before| + |title|)
  {
    var line, n := before + title + "](" + rest, |before|;
    assert line[n + |title|..n + |title| + 2] == "](";
    forall j | n <= j < n + |title| ensures !At(line, "](", j) {
      if At(line, "](", j) {
        AtIndex(line, "](", j, 1);
        assert j + 1 < n + |title|;
        assert title[j - n..j - n + 2] == line[j..j + 2];
        assert At(title, "](", j - n);
      }
    }
    FindIs(line, "](", n, n + |title|);
  }

  lemma {:induction false} SliceIs(line: string, a: string, b: string, c: string)
    requires line == a + b + c
    ensures line[|a|..|a| + |b|] == b
  {
  }

  /** The scan takes a line apart where the three searches put it. */
  lemma {:induction false} TurnTakes(line: string, cursor: nat, start: nat, end: nat, close: nat)
    requires 0 < start <= |line| ==> line[start - 1] != '!'
    requires Find(line, "[", cursor) == Some(start) && Find(line, "](", start + 1) == Some(end)
    requires Find(line, ")", end + 2) == Some(close)
    ensures TurnAt(line, cursor) == Take(line[start + 1..end], line[end + 2..close], close + 1)
  {
  }

  lemma {:induction false} Regroup5(a: string, b: string, c: string, d: string, e: string, f: string)
    ensures a + b + c + d + e + f == a + (b + c + d + e + f)
    ensures a + b + c + d + e + f == a + b + c + (d + e + f)
    ensures a + b + c + d + e + f == a + b + (c + d + e + f)
    ensures a + b + c + d + e + f == a + b + c + d + (e + f)
  {
  }

  /** What the three searches find, in a line given by its pieces. */
  lemma {:induction false} FindsPieces(
    line: string, a: string, cursor: nat, title: string, href: string, tail: string, rest: string)
    requires cursor <= |a| && '[' !in a[cursor..] && !Contains(title, "](") && ')' !in href
    requires line == a + "[" + rest && line == a + "[" + title + "](" + (href + (")" + tail))
    requires line == a + "[" + title + "](" + href + ")" + tail
    ensures Find(line, "[", cursor) == Some(|a|) && Find(line, "](", |a| + 1) == Some(|a| + 1 + |title|)
    ensures Find(line, ")", |a| + |title| + 3) == Some(|a| + |title| + |href| + 3)
  {
    BracketStarts(a, cursor, rest);
    TitleEnds(a + "[", title, href + (")" + tail));
    HrefEnds(a + "[" + title + "](", href, tail);
  }

  lemma {:induction false} SlicesPieces(line: string, a: string, title: string, href: string, tail: string)
    requires line == a + "[" + title + ("](" + href + (")" + tail))
    requires line == a + "[" + title + "](" + href + (")" + tail)
    ensures |a| + |title| + |href| + 3 <= |line| && a <= line
    ensures line[|a| + 1..|a| + 1 + |title|] == title
    ensures line[|a| + |title| + 3..|a| + |title| + 3 + |href|] == href
  {
    SliceIs(line, a + "[", title, "](" + href + (")" + tail));
    SliceIs(line, a + "[" + title + "](", href, ")" + tail);
    assert a <= a + "[" + title + ("](" + href + (")" + tail));
  }

  /** The pieces of `[title](href)` are found where they were put, behind any text that the scan
      has passed or that starts no item. */
  lemma {:induction false} TurnAtItem(a: string, cursor: nat, title: string, href: string, tail: string)
    requires cursor <= |a| && '[' !in a[cursor..] && (a != "" ==> a[|a| - 1] != '!')
    requires !Contains(title, "](") && ')' !in href
    ensures TurnAt(a + ("[" + title + "](" + href + ")" + tail), cursor)
         == Take(title, href, |a| + |title| + |href| + 4)
  {
    var line := a + "[" + title + "](" + href + (")" + tail);
    ItemShapes(a, title, href, tail);
    FindsPieces(line, a, cursor, title, href, tail, title + "](" + href + (")" + tail));
    SlicesPieces(line, a, title, href, tail);
    TakesPieces(line, a, cursor, title, href);
  }

  lemma {:induction false} ItemShapes(a: string, title: string, href: string, tail: string)
    ensures var line := a + "[" + title + "](" + href + (")" + tail);
      && line == a + ("[" + title + "](" + href + ")" + tail)
      && line == a + "[" + (title + "](" + href + (")" + tail))
      && line == a + "[" + title + "](" + (href + (")" + tail))
      && line == a + "[" + title + "](" + href + ")" + tail
      && line == a + "[" + title + ("](" + href + (")" + tail))
  {
    var t := ")" + tail;
    Regroup(a + "[" + title, "](", href + t);
    Regroup("](", href, t);
    Regroup(a + "[" + title + "](", href, t);
    Regroup(a + "[" + title + "](" + href, ")", tail);
    Regroup5(a, "[", title, "](", href, t);
    Regroup("[" + title + "](" + href, ")", tail);
    Regroup(a + "[", title, "](" + href + t);
    Regroup(title, "](", href + t);
    Regroup(title + "](", href, t);
  }

  lemma {:induction false} TakesPieces(line: string, a: string, cursor: nat, title: string, href: string)
    requires |a| + |title| + |href| + 3 <= |line| && a <= line
    requires line[|a| + 1..|a| + 1 + |title|] == title
    requires line[|a| + |title| + 3..|a| + |title| + 3 + |href|] == href
    requires a != "" ==> a[|a| - 1] != '!'
    requires Find(line, "[", cursor) == Some(|a|) && Find(line, "](", |a| + 1) == Some(|a| + 1 + |title|)
    requires Find(line, ")", |a| + |title| + 3) == Some(|a| + |title| + |href| + 3)
    ensures TurnAt(line, cursor) == Take(title, href, |a| + |title| + |href| + 4)
  {
    assert |a| > 0 ==> line[|a| - 1] == a[|a| - 1];
    TurnTakes(line, cursor, |a|, |a| + 1 + |title|, |a| + |title| + |href| + 3);
  }

  lemma {:induction false} TurnAtFirstItem(title: string, href: string, tail: string)
    requires !Contains(title, "](") && ')' !in href
    ensures TurnAt("[" + title + "](" + href + ")" + tail, 0) == Take(title, href, |title| + |href| + 4)
  {
    TurnAtItem("", 0, title, href, tail);
    var text := "[" + title + "](" + href + ")" + tail;
    assert "" + text == text;
  }

  lemma {:induction false} StopAtEnd(line: string)
    ensures TurnAt(line, |line|) == Stop
  {
  }

  lemma {:induction false} ItemLineReads(l: Link)
    ensures ItemText(ItemLine(l)) == Some(Item(l))
    ensures '\n' !in l.title && '\n' !in l.url ==> PlainLine(ItemLine(l)) && ItemLine(l) != ""
  {
    var line := ItemLine(l);
    assert TrimStart(line) == line && line[..2] == "- " && line[2..] == Item(l);
    assert line[|line| - 1] == ')';
  }

  lemma {:induction false} NoLinksAtEnd(line: string, join: Resolver)
    ensures LinksFrom(line, |line|, join) == []
  {
    StopAtEnd(line);
  }

  lemma {:induction false} WholeScan(text: string, title: string, href: string, join: Resolver)
    requires TurnAt(text, 0) == Take(title, href, |text|)
    ensures LinksFrom(text, 0, join) == LinkOf(Trim(title), Href(href), join)
  {
    NoLinksAtEnd(text, join);
  }

  lemma {:induction false} NoBracketNoLinks(line: string, cursor: nat, join: Resolver)
    requires cursor <= |line| && '[' !in line[cursor..]
    ensures LinksFrom(line, cursor, join) == []
  {
    forall k | cursor <= k ensures !At(line, "[", k) {
      AtChar(line, '[', k);
      if k < |line| {
        assert line[k] == line[cursor..][k - cursor];
      }
    }
  }

  /** The first turn gives what it takes; without a bracket behind it nothing follows. */
  lemma {:induction false} FirstScan(text: string, title: string, href: string, next: nat, join: Resolver)
    requires TurnAt(text, 0) == Take(title, href, next)
    ensures LinkOf(Trim(title), Href(href), join) <= LinksFrom(text, 0, join)
    ensures '[' !in text[next..] ==> LinksFrom(text, 0, join) == LinkOf(Trim(title), Href(href), join)
  {
    if '[' !in text[next..] {
      NoBracketNoLinks(text, next, join);
    }
  }

  lemma {:induction false} TurnAtWholeItem(l: Link)
    requires !Contains(l.title, "](") && ')' !in l.url
    ensures TurnAt(Item(l), 0) == Take(l.title, l.url, |Item(l)|)
  {
    TurnAtFirstItem(l.title, l.url, "");
    assert Item(l) == "[" + l.title + "](" + l.url + ")" + "";
  }

  lemma {:induction false} TurnAtPiece(title: string, cut: string, rest: string)
    requires !Contains(title, "](") && ')' !in cut
    ensures var text := "[" + title + "](" + (cut + ")" + rest) + ")";
      && TurnAt(text, 0) == Take(title, cut, |title| + |cut| + 4)
      && |title| + |cut| + 4 <= |text| && text[|title| + |cut| + 4..] == rest + ")"
  {
    TurnAtFirstItem(title, cut, rest + ")");
    ItemRegroup("[" + title + "](", cut, rest, ")");
    DropFront("[" + title + "](" + cut + ")", rest + ")");
  }

  lemma {:induction false} TurnAtCutItem(l: Link) returns (next: nat)
    requires !Contains(l.title, "](") && ')' in l.url
    ensures TurnAt(Item(l), 0) == Take(l.title, CutAt(l.url), next)
    ensures next <= |Item(l)| && Item(l)[next..] == l.url[|CutAt(l.url)| + 1..] + ")"
  {
    var cut := CutAt(l.url);
    var rest := l.url[|cut| + 1..];
    next := |l.title| + |cut| + 4;
    UrlAtCut(l.url);
    TurnAtPiece(l.title, cut, rest);
  }

  lemma {:induction false} UrlAtCut(u: string)
    requires ')' in u
    ensures |CutAt(u)| < |u| && u == CutAt(u) + ")" + u[|CutAt(u)| + 1..]
  {
  }

  lemma {:induction false} DropFront(a: string, b: string)
    ensures (a + b)[|a|..] == b
  {
  }

  /** What a printed link is read as: one link at most for its piece, and nothing behind it
      unless an item can start there. */
  lemma {:induction false} ItemReads(l: Link, join: Resolver)
    requires IsParsed(l, join)
    ensures var read, first := LinksOfLine(ItemLine(l), join), LinkOf(l.title, ReadAs(l.url), join);
      && first <= read
      && ('[' !in l.url[|CutAt(l.url)|..] ==> read == first)
  {
    ItemLineReads(l);
    TrimOfTrimmed(l.title);
    if ')' in l.url {
      var next := TurnAtCutItem(l);
      FirstScan(Item(l), l.title, CutAt(l.url), next, join);
      var behind := l.url[|CutAt(l.url)|..];
      assert forall c <- l.url[|CutAt(l.url)| + 1..] :: c in behind;
    } else {
      TurnAtWholeItem(l);
      WholeScan(Item(l), l.title, l.url, join);
    }
  }

  /** A link with a plain URL is read back. */
  lemma {:induction false} GoodItem(l: Link, join: Resolver)
    requires IsParsed(l, join) && ResolvesTo(join, l.url) && PlainUrl(l.url)
    ensures LinksOfLine(ItemLine(l), join) == [l]
  {
    ItemLineReads(l);
    TurnAtWholeItem(l);
    TrimOfTrimmed(l.title);
    ReadAsItself(l.url);
    WholeScan(Item(l), l.title, l.url, join);
  }

  /** Any other link is not: what is read first, if anything, is another link. */
  lemma {:induction false} BadItem(l: Link, join: Resolver)
    requires IsParsed(l, join) && ResolvesTo(join, l.url) && !PlainUrl(l.url)
    ensures var read := LinksOfLine(ItemLine(l), join);
      && (join(ReadAs(l.url)).Some? ==> read != [] && read[0] != l)
      && ('[' !in l.url[|CutAt(l.url)|..] ==> |read| <= 1 && read != [l])
  {
    ItemReads(l, join);
    ReadAsItself(l.url);
  }

  lemma {:induction false} ItemRegroup(a: string, b: string, c: string, d: string)
    ensures a + (b + d + c) + d == a + b + d + (c + d)
  {
  }

  // ---------------------------------------------------------------- reading the index

  function ItemLines(links: seq<Link>): (r: seq<string>)
    ensures |r| == |links| && forall i | 0 <= i < |links| :: r[i] == ItemLine(links[i])
  {
    seq(|links|, i requires 0 <= i < |links| => ItemLine(links[i]))
  }

  lemma {:induction false} ItemsAreJoined(links: seq<Link>)
    requires links != []
    ensures Items(links) == "\n" + Join(ItemLines(links), "\n")
  {
    if |links| > 1 {
      ItemsAreJoined(links[1..]);
      assert ItemLines(links)[1..] == ItemLines(links[1..]);
    } else {
      assert links[1..] == [];
    }
  }

  /** A line that starts with an ordinary character is no list item. */
  lemma {:induction false} NoItem(s: string)
    requires s != "" && !IsWhitespace(s[0]) && !IsDigit(s[0]) && s[0] !in {'-', '*', '+', '.', ')'}
    ensures ItemText(s).None?
  {
    assert TrimStart(s) == s;
    MarkIsLater(s);
    match FirstMark(s, 0)
    case None =>
    case Some(k) =>
      if k < |s| {
        assert s[0] in s[..k];
      }
  }

  /** The header lines are no list items. */
  lemma {:induction false} HeaderHasNoItem(finalUrl: string)
    ensures ItemText("# llms.txt").None? && ItemText("").None? && ItemText("Source: " + finalUrl).None?
  {
    NoItem("# llms.txt");
    NoItem("Source: " + finalUrl);
  }

  lemma {:induction false} MarkIsLater(s: string)
    requires s != "" && s[0] != '.' && s[0] != ')'
    ensures FirstMark(s, 0).Some? ==> FirstMark(s, 0).value > 0
  {
    MarkIsFrom(s, 1);
  }

  lemma {:induction false} MarkIsFrom(s: string, from: nat)
    requires from <= |s|
    ensures FirstMark(s, from).Some? ==> FirstMark(s, from).value >= from
    decreases |s| - from
  {
    if from < |s| {
      MarkIsFrom(s, from + 1);
    }
  }

  lemma {:induction false} PrintedRegroup(start: string, nl: string, source: string, url: string, body: string)
    ensures start + nl + nl + source + url + nl + (nl + body) == start + nl + (nl + (source + url + nl + (nl + body)))
  {
  }

  lemma {:induction false} HeaderLines(source: string, body: string)
    requires PlainLine(source)
    ensures Lines("# llms.txt" + "\n" + ("\n" + (source + "\n" + ("\n" + body))))
         == ["# llms.txt"] + ([""] + ([source] + ([""] + Lines(body))))
  {
    LinesCons("", body);
    assert "" + "\n" + body == "\n" + body;
    LinesCons(source, "\n" + body);
    var tail := source + "\n" + ("\n" + body);
    LinesCons("", tail);
    assert "" + "\n" + tail == "\n" + tail;
    LinesCons("# llms.txt", "\n" + tail);
  }

  lemma {:induction false} ItemsReadBack(links: seq<Link>) returns (body: string)
    requires links != [] && forall l <- ItemLines(links) :: PlainLine(l) && l != ""
    ensures Items(links) == "\n" + body && Lines(body) == ItemLines(links)
  {
    var items := ItemLines(links);
    body := Join(items, "\n");
    ItemsAreJoined(links);
    assert items[|items| - 1] in items;
    LinesOfJoin(items);
  }

  lemma {:induction false} PrintedLines(links: seq<Link>, finalUrl: string)
    requires links != [] && PlainLine(finalUrl)
    requires forall l <- ItemLines(links) :: PlainLine(l) && l != ""
    ensures Lines(Printed(links, finalUrl)) == ["# llms.txt", "", "Source: " + finalUrl, ""] + ItemLines(links)
  {
    var body := ItemsReadBack(links);
    HeadedLines(finalUrl, body);
  }

  lemma {:induction false} HeadedLines(finalUrl: string, body: string)
    requires PlainLine(finalUrl)
    ensures Lines("# llms.txt\n\nSource: " + finalUrl + "\n" + ("\n" + body))
         == ["# llms.txt", "", "Source: " + finalUrl, ""] + Lines(body)
  {
    HeaderRegroup(finalUrl, body);
    HeaderLines("Source: " + finalUrl, body);
  }

  lemma {:induction false} HeaderRegroup(finalUrl: string, body: string)
    ensures "# llms.txt\n\nSource: " + finalUrl + "\n" + ("\n" + body)
         == "# llms.txt" + "\n" + ("\n" + ("Source: " + finalUrl + "\n" + ("\n" + body)))
  {
    assert "# llms.txt\n\nSource: " == "# llms.txt" + "\n" + "\n" + "Source: ";
    PrintedRegroup("# llms.txt", "\n", "Source: ", finalUrl, body);
  }

  lemma {:induction false} LinksOfConcat(a: seq<string>, b: seq<string>, join: Resolver)
    ensures LinksOfLines(a + b, join) == LinksOfLines(a, join) + LinksOfLines(b, join)
  {
    if a == [] {
      assert a + b == b;
    } else {
      assert (a + b)[1..] == a[1..] + b;
      LinksOfConcat(a[1..], b, join);
    }
  }

  lemma {:induction false} NoItemsNoLinks(lines: seq<string>, join: Resolver)
    requires forall l <- lines :: ItemText(l).None?
    ensures LinksOfLines(lines, join) == []
  {
    if lines != [] {
      assert lines[0] in lines;
      NoItemsNoLinks(lines[1..], join);
    }
  }

  ghost predicate AllListed(links: seq<Link>, join: Resolver) {
    forall l <- links :: IsParsed(l, join) && ResolvesTo(join, l.url)
  }

  ghost predicate AllPlain(links: seq<Link>) {
    forall l <- links :: l.url != "" && PlainUrl(l.url)
  }

  lemma {:induction false} ConsAll(links: seq<Link>, join: Resolver)
    requires links != [] && AllListed(links, join)
    ensures IsParsed(links[0], join) && ResolvesTo(join, links[0].url) && AllListed(links[1..], join)
    ensures AllPlain(links) <==> PlainUrl(links[0].url) && AllPlain(links[1..])
    ensures LinksOfLines(ItemLines(links), join)
         == LinksOfLine(ItemLine(links[0]), join) + LinksOfLines(ItemLines(links[1..]), join)
  {
    assert links[0] in links;
    assert forall x :: x in links <==> x == links[0] || x in links[1..];
    assert ItemLines(links)[0] == ItemLine(links[0]) && ItemLines(links)[1..] == ItemLines(links[1..]);
  }

  lemma {:induction false} GoodFirst(links: seq<Link>, join: Resolver)
    requires links != [] && AllListed(links, join) && AllPlain(links)
    ensures AllListed(links[1..], join) && AllPlain(links[1..])
    ensures LinksOfLines(ItemLines(links), join) == [links[0]] + LinksOfLines(ItemLines(links[1..]), join)
  {
    ConsAll(links, join);
    GoodItem(links[0], join);
  }

  lemma {:induction false} PlainItemsReadBack(links: seq<Link>, join: Resolver)
    requires AllListed(links, join) && AllPlain(links)
    ensures LinksOfLines(ItemLines(links), join) == links
  {
    if links != [] {
      GoodFirst(links, join);
      PlainItemsReadBack(links[1..], join);
      assert links == [links[0]] + links[1..];
    }
  }

  /** When every piece resolves, the first link that is not plain is read as another one. */
  lemma {:induction false} ResolvedPiecesDiffer(links: seq<Link>, join: Resolver)
    requires AllListed(links, join) && PiecesResolve(join, links) && LinksOfLines(ItemLines(links), join) == links
    ensures AllPlain(links)
  {
    if links != [] {
      ConsAll(links, join);
      var l, rest := links[0], links[1..];
      var read, more := LinksOfLine(ItemLine(l), join), LinksOfLines(ItemLines(rest), join);
      if !PlainUrl(l.url) {
        SameHead(read, more);
        BadItem(l, join);
      } else {
        GoodItem(l, join);
        assert more == (read + more)[1..];
        ResolvedPiecesDiffer(rest, join);
      }
    }
  }

  /** When no item can start behind a parenthesis, every line gives one link at most, so one that
      is not plain is missing or another one. */
  lemma {:induction false} AtMostOneEach(links: seq<Link>, join: Resolver)
    requires AllListed(links, join) && NoItemBehind(links)
    ensures |LinksOfLines(ItemLines(links), join)| <= |links|
    ensures LinksOfLines(ItemLines(links), join) == links ==> AllPlain(links)
  {
    if links != [] {
      ConsAll(links, join);
      var l, rest := links[0], links[1..];
      var read, more := LinksOfLine(ItemLine(l), join), LinksOfLines(ItemLines(rest), join);
      AtMostOneEach(rest, join);
      ItemReads(l, join);
      if read + more == links {
        OneThenRest(read, more, links);
        if !PlainUrl(l.url) {
          BadItem(l, join);
        }
      }
    }
  }

  lemma {:induction false} SameHead(read: seq<Link>, more: seq<Link>)
    ensures read != [] ==> (read + more)[0] == read[0]
  {
  }

  lemma {:induction false} OneThenRest(read: seq<Link>, more: seq<Link>, links: seq<Link>)
    requires links != [] && read + more == links && |read| <= 1 && |more| <= |links| - 1
    ensures read == [links[0]] && more == links[1..]
  {
    assert more == (read + more)[|read|..] && read == (read + more)[..|read|];
  }

  lemma {:induction false} ItemLinesArePlain(links: seq<Link>, join: Resolver)
    requires AllListed(links, join)
    ensures forall line <- ItemLines(links) :: PlainLine(line) && line != ""
  {
    forall i | 0 <= i < |links| ensures PlainLine(ItemLine(links[i])) && ItemLine(links[i]) != "" {
      assert links[i] in links;
      ItemLineReads(links[i]);
    }
  }

  lemma {:induction false} HeaderThenItems(header: seq<string>, items: seq<string>, join: Resolver)
    requires forall l <- header :: ItemText(l).None?
    ensures LinksOfLines(header + items, join) == LinksOfLines(items, join)
  {
    LinksOfConcat(header, items, join);
    NoItemsNoLinks(header, join);
  }

  /** Reading the printed index is reading its items. */
  lemma {:induction false} PrintedReadsItems(links: seq<Link>, finalUrl: string, join: Resolver)
    requires links != [] && PlainLine(finalUrl) && AllListed(links, join)
    ensures LinksOfLines(Lines(Printed(links, finalUrl)), join) == LinksOfLines(ItemLines(links), join)
  {
    ItemLinesArePlain(links, join);
    PrintedLines(links, finalUrl);
    HeaderHasNoItem(finalUrl);
    HeaderThenItems(["# llms.txt", "", "Source: " + finalUrl, ""], ItemLines(links), join);
  }

  /** Parser and printer: re-reading the printed index of a body, with or without a filter, gives
      exactly the listed links in order, if and only if all their URLs are plain. That plain URLs
      suffice holds whenever the listed URLs resolve as URLs do; that they are needed also takes one
      of two facts, of which only a parenthesis in front of some URL's path together with an item
      in one's path can deny both. */
  lemma {:induction false} PrintedIndexReadsBack(body: string, finalUrl: string, filter: Option<string>, join: Resolver)
    requires PlainLine(finalUrl) && IndexLinks(body, filter, join) != []
    requires forall l <- IndexLinks(body, filter, join) :: ResolvesTo(join, l.url)
    ensures var links := IndexLinks(body, filter, join);
      var read := LinksOfLines(Lines(Printed(links, finalUrl)), join);
      && (AllPlain(links) ==> read == links)
      && (PiecesResolve(join, links) || NoItemBehind(links) ==> (read == links <==> AllPlain(links)))
  {
    var links := IndexLinks(body, filter, join);
    IndexLinksAreParsed(body, filter, join);
    PrintedReadsItems(links, finalUrl, join);
    if AllPlain(links) {
      PlainItemsReadBack(links, join);
    } else if LinksOfLines(ItemLines(links), join) == links {
      if PiecesResolve(join, links) {
        ResolvedPiecesDiffer(links, join);
      } else if NoItemBehind(links) {
        AtMostOneEach(links, join);
      }
    }
  }

  /** Printing is then idempotent: the index of a printed index is that index. */
  lemma {:induction false} IndexOfIndex(body: string, finalUrl: string, filter: Option<string>, join: Resolver)
    requires PlainLine(finalUrl) && IndexLinks(body, filter, join) != []
    requires forall l <- IndexLinks(body, filter, join) :: ResolvesTo(join, l.url) && PlainUrl(l.url)
    ensures var links := IndexLinks(body, filter, join);
      IndexLinks(Printed(links, finalUrl), None, join) == links
  {
    var links := IndexLinks(body, filter, join);
    assert AllPlain(links);
    PrintedIndexReadsBack(body, finalUrl, filter, join);
    IndexLinksAreParsed(body, filter, join);
    FirstsOfDistinct(links, LinkKey, {});
  }
}
