/**
 Which links a list item of an llms.txt file holds, stated on the characters of its line, and
 which of the parsed links the index lists.
*/
module LlmsItems {
  import opened Dedup
  import opened LlmsLinks
  import LlmsRoundTrip
  import opened Option
  import opened Text

  // ---------------------------------------------------------------- brackets and parentheses

  /** The first `c` at or behind `from` stands at k. */
  ghost predicate NextChar(line: string, c: char, from: nat, k: nat) {
    from <= k < |line| && line[k] == c && forall i | from <= i < k :: line[i] != c
  }

  predicate PairAt(line: string, k: int) {
    0 <= k && k + 1 < |line| && line[k] == ']' && line[k + 1] == '('
  }

  ghost predicate NextPair(line: string, from: nat, k: nat) {
    from <= k && PairAt(line, k) && forall i | from <= i < k :: !PairAt(line, i)
  }

  /** An opening bracket that starts a link: one that no exclamation mark precedes. */
  predicate Opens(line: string, k: int) {
    0 <= k < |line| && line[k] == '[' && (k == 0 || line[k - 1] != '!')
  }

  /** Where a link stands: its `[`, the `]` in front of `(`, and its `)`. */
  datatype Span = Span(open: nat, middle: nat, close: nat)

  /** The first link at or behind `from`: an image starts none, and each end is the nearest. */
  ghost predicate NextSpan(line: string, from: nat, s: Span) {
    && from <= s.open && Opens(line, s.open)
    && (forall k | from <= k < s.open :: !Opens(line, k))
    && NextPair(line, s.open + 1, s.middle)
    && NextChar(line, ')', s.middle + 2, s.close)
  }

  ghost predicate NoSpan(line: string, from: nat) {
    forall s: Span :: !NextSpan(line, from, s)
  }

  /** The links of a line, one behind the other and none left out. */
  ghost predicate AreSpans(line: string, from: nat, spans: seq<Span>)
    decreases |spans|
  {
    if spans == [] then NoSpan(line, from)
    else NextSpan(line, from, spans[0]) && AreSpans(line, spans[0].close + 1, spans[1..])
  }

  lemma {:induction false} NextSpanIsUnique(line: string, from: nat, s: Span, t: Span)
    requires NextSpan(line, from, s) && NextSpan(line, from, t)
    ensures s == t
  {
  }

  /** A line has its links at one list of places only. */
  lemma {:induction false} SpansAreUnique(line: string, from: nat, spans: seq<Span>, others: seq<Span>)
    requires AreSpans(line, from, spans) && AreSpans(line, from, others)
    ensures spans == others
    decreases |spans|
  {
    if spans != [] && others != [] {
      NextSpanIsUnique(line, from, spans[0], others[0]);
      SpansAreUnique(line, spans[0].close + 1, spans[1..], others[1..]);
      assert spans == [spans[0]] + spans[1..] && others == [others[0]] + others[1..];
    }
  }

  lemma {:induction false} FindChar(line: string, c: char, from: nat)
    ensures match Find(line, [c], from)
      case None => forall k | from <= k < |line| :: line[k] != c
      case Some(k) => NextChar(line, c, from, k)
  {
    forall k ensures At(line, [c], k) <==> 0 <= k < |line| && line[k] == c {
      AtChar(line, c, k);
    }
  }

  lemma {:induction false} AtPair(line: string, k: int)
    ensures At(line, "](", k) <==> PairAt(line, k)
  {
    if 0 <= k && k + 1 < |line| {
      assert line[k..k + 2] == [line[k], line[k + 1]];
      assert "](" == [']', '('];
    }
  }

  lemma {:induction false} FindPair(line: string, from: nat)
    ensures match Find(line, "](", from)
      case None => forall k | from <= k :: !PairAt(line, k)
      case Some(k) => NextPair(line, from, k)
  {
    forall k ensures At(line, "](", k) <==> PairAt(line, k) {
      AtPair(line, k);
    }
  }

  lemma {:induction false} CharFound(line: string, c: char, from: nat, k: nat)
    requires Find(line, [c], from) == Some(k)
    ensures NextChar(line, c, from, k)
  {
    FindChar(line, c, from);
  }

  lemma {:induction false} PairFound(line: string, from: nat, k: nat)
    requires Find(line, "](", from) == Some(k)
    ensures NextPair(line, from, k)
  {
    FindPair(line, from);
  }

  ghost predicate IsTaken(line: string, s: Span, caption: string, href: string, next: nat) {
    && s.open < s.middle && s.middle + 2 <= s.close < |line| && next == s.close + 1
    && caption == line[s.open + 1..s.middle] && href == line[s.middle + 2..s.close]
  }

  lemma {:induction false} BracketAhead(line: string, cursor: nat)
    ensures match Find(line, "[", cursor)
      case None => NoSpan(line, cursor)
      case Some(k) =>
        if k > 0 && line[k - 1] == '!' then forall s :: NextSpan(line, k + 1, s) <==> NextSpan(line, cursor, s)
        else forall s :: NextSpan(line, cursor, s) ==> s.open == k
  {
    FindChar(line, '[', cursor);
    var start := Find(line, "[", cursor);
    assert start.Some? ==> (Opens(line, start.value) <==> !(start.value > 0 && line[start.value - 1] == '!'));
  }

  lemma {:induction false} NoPairNoSpan(line: string, cursor: nat, open: nat)
    requires forall s :: NextSpan(line, cursor, s) ==> s.open == open
    requires forall k | open + 1 <= k :: !PairAt(line, k)
    ensures NoSpan(line, cursor)
  {
  }

  lemma {:induction false} NoCloseNoSpan(line: string, cursor: nat, open: nat, middle: nat)
    requires forall s :: NextSpan(line, cursor, s) ==> s.open == open
    requires NextPair(line, open + 1, middle)
    requires forall k | middle + 2 <= k < |line| :: line[k] != ')'
    ensures NoSpan(line, cursor)
  {
  }

  lemma {:induction false} SpanAhead(line: string, cursor: nat, s: Span)
    requires NextChar(line, '[', cursor, s.open) && !(s.open > 0 && line[s.open - 1] == '!')
    requires NextPair(line, s.open + 1, s.middle) && NextChar(line, ')', s.middle + 2, s.close)
    ensures NextSpan(line, cursor, s)
  {
  }

  /** What a turn of the scan has found: the first link, an image, or that no link is left. */
  ghost predicate Finds(line: string, cursor: nat, t: Turn) {
    match t
    case Stop => NoSpan(line, cursor)
    case Skip(next) => forall s :: NextSpan(line, next, s) <==> NextSpan(line, cursor, s)
    case Take(caption, href, next) => exists s :: NextSpan(line, cursor, s) && IsTaken(line, s, caption, href, next)
  }

  lemma {:induction false} SpanFound(line: string, cursor: nat, s: Span)
    requires Find(line, "[", cursor) == Some(s.open) && !(s.open > 0 && line[s.open - 1] == '!')
    requires Find(line, "](", s.open + 1) == Some(s.middle) && Find(line, ")", s.middle + 2) == Some(s.close)
    ensures NextSpan(line, cursor, s)
  {
    CharFound(line, '[', cursor, s.open);
    PairFound(line, s.open + 1, s.middle);
    CharFound(line, ')', s.middle + 2, s.close);
    SpanAhead(line, cursor, s);
  }

  lemma {:induction false} TakeFinds(line: string, cursor: nat, s: Span)
    requires NextSpan(line, cursor, s)
    ensures Finds(line, cursor, Take(line[s.open + 1..s.middle], line[s.middle + 2..s.close], s.close + 1))
  {
    assert IsTaken(line, s, line[s.open + 1..s.middle], line[s.middle + 2..s.close], s.close + 1);
  }

  lemma {:induction false} NoCloseAhead(line: string, cursor: nat, open: nat, middle: nat)
    requires Find(line, "[", cursor) == Some(open) && !(open > 0 && line[open - 1] == '!')
    requires Find(line, "](", open + 1) == Some(middle) && Find(line, ")", middle + 2) == None
    ensures TurnAt(line, cursor) == Stop && NoSpan(line, cursor)
  {
    BracketAhead(line, cursor);
    FindPair(line, open + 1);
    FindChar(line, ')', middle + 2);
    NoCloseNoSpan(line, cursor, open, middle);
  }

  lemma {:induction false} NoPairAhead(line: string, cursor: nat, open: nat)
    requires Find(line, "[", cursor) == Some(open) && !(open > 0 && line[open - 1] == '!')
    requires Find(line, "](", open + 1) == None
    ensures TurnAt(line, cursor) == Stop && NoSpan(line, cursor)
  {
    BracketAhead(line, cursor);
    FindPair(line, open + 1);
    NoPairNoSpan(line, cursor, open);
  }

  lemma {:induction false} CloseAhead(line: string, cursor: nat, s: Span)
    requires Find(line, "[", cursor) == Some(s.open) && !(s.open > 0 && line[s.open - 1] == '!')
    requires Find(line, "](", s.open + 1) == Some(s.middle) && Find(line, ")", s.middle + 2) == Some(s.close)
    ensures Finds(line, cursor, TurnAt(line, cursor))
  {
    LlmsRoundTrip.TurnTakes(line, cursor, s.open, s.middle, s.close);
    SpanFound(line, cursor, s);
    TakeFinds(line, cursor, s);
  }

  lemma {:induction false} EndsAhead(line: string, cursor: nat, open: nat)
    requires Find(line, "[", cursor) == Some(open) && !(open > 0 && line[open - 1] == '!')
    ensures Finds(line, cursor, TurnAt(line, cursor))
  {
    var end := Find(line, "](", open + 1);
    if end.None? {
      NoPairAhead(line, cursor, open);
    } else {
      var close := Find(line, ")", end.value + 2);
      if close.None? {
        NoCloseAhead(line, cursor, open, end.value);
      } else {
        CloseAhead(line, cursor, Span(open, end.value, close.value));
      }
    }
  }

  lemma {:induction false} TurnFinds(line: string, cursor: nat)
    ensures Finds(line, cursor, TurnAt(line, cursor))
  {
    BracketAhead(line, cursor);
    var start := Find(line, "[", cursor);
    if start.Some? && !(start.value > 0 && line[start.value - 1] == '!') {
      EndsAhead(line, cursor, start.value);
    }
  }

  // ---------------------------------------------------------------- the links of an item

  /** The first word of a target without the angle brackets around it. */
  function Reference(words: seq<string>): string {
    if words == [] then "" else TrimChar(TrimChar(words[0], '<'), '>')
  }

  /** A link needs a title, and a reference that resolves. */
  function LinkWith(title: string, reference: string, join: Resolver): seq<Link> {
    if title != "" && reference != "" && join(reference).Some? then [Link(title, join(reference).value)] else []
  }

  /** The link that stands at a span, if any: its title is trimmed, its reference the first word. */
  function LinkAt(line: string, s: Span, join: Resolver): seq<Link>
    requires s.open + 1 <= s.middle && s.middle + 2 <= s.close <= |line|
  {
    LinkWith(Trim(line[s.open + 1..s.middle]), Reference(Words(line[s.middle + 2..s.close])), join)
  }

  ghost function LinksAt(line: string, from: nat, spans: seq<Span>, join: Resolver): seq<Link>
    requires AreSpans(line, from, spans)
    decreases |spans|
  {
    if spans == [] then []
    else LinkAt(line, spans[0], join) + LinksAt(line, spans[0].close + 1, spans[1..], join)
  }

  lemma {:induction false} HrefIsFirstWord(s: string)
    ensures Href(s) == Reference(Words(s))
  {
    TrimStartIsSuffix(s);
  }

  lemma {:induction false} SkipSpans(line: string, cursor: nat, next: nat, spans: seq<Span>, join: Resolver)
    requires forall s :: NextSpan(line, next, s) <==> NextSpan(line, cursor, s)
    requires AreSpans(line, next, spans)
    ensures AreSpans(line, cursor, spans) && LinksAt(line, cursor, spans, join) == LinksAt(line, next, spans, join)
  {
    assert NoSpan(line, next) <==> NoSpan(line, cursor);
  }

  lemma {:induction false} LinkOfIs(title: string, href: string, join: Resolver)
    ensures LinkOf(title, href, join) == LinkWith(title, href, join)
  {
  }

  lemma {:induction false} LinkAtIs(line: string, s: Span, caption: string, href: string, next: nat, join: Resolver)
    requires IsTaken(line, s, caption, href, next)
    ensures LinkAt(line, s, join) == LinkOf(Trim(caption), Href(href), join)
  {
    HrefIsFirstWord(href);
    LinkOfIs(Trim(caption), Href(href), join);
  }

  lemma {:induction false} TakeSpan(line: string, cursor: nat, s: Span, spans: seq<Span>, join: Resolver)
    requires NextSpan(line, cursor, s) && AreSpans(line, s.close + 1, spans)
    ensures AreSpans(line, cursor, [s] + spans)
    ensures LinksAt(line, cursor, [s] + spans, join)
         == LinkAt(line, s, join) + LinksAt(line, s.close + 1, spans, join)
  {
    assert ([s] + spans)[1..] == spans;
  }

  /** The link taken in a turn stands in front of those that the scan lists afterwards. */
  lemma {:induction false} TakeLists(
    line: string, cursor: nat, caption: string, href: string, next: nat, rest: seq<Span>, join: Resolver)
    returns (spans: seq<Span>)
    requires Finds(line, cursor, Take(caption, href, next)) && AreSpans(line, next, rest)
    ensures AreSpans(line, cursor, spans)
    ensures LinksAt(line, cursor, spans, join)
         == LinkOf(Trim(caption), Href(href), join) + LinksAt(line, next, rest, join)
  {
    var s :| NextSpan(line, cursor, s) && IsTaken(line, s, caption, href, next);
    LinkAtIs(line, s, caption, href, next, join);
    TakeSpan(line, cursor, s, rest, join);
    spans := [s] + rest;
  }

  /** The scan lists the links that stand in the item, in order, and nothing else. */
  lemma {:induction false} ItemLists(line: string, cursor: nat, join: Resolver) returns (spans: seq<Span>)
    ensures AreSpans(line, cursor, spans) && LinksFrom(line, cursor, join) == LinksAt(line, cursor, spans, join)
    decreases |line| - cursor
  {
    TurnFinds(line, cursor);
    match TurnAt(line, cursor)
    case Stop => spans := [];
    case Skip(next) =>
      spans := ItemLists(line, next, join);
      SkipSpans(line, cursor, next, spans, join);
    case Take(caption, href, next) =>
      var rest := ItemLists(line, next, join);
      spans := TakeLists(line, cursor, caption, href, next, rest, join);
  }

  /** The span starts at a bracket that no `!` precedes, and has its middle and its end. */
  ghost predicate IsLinkText(line: string, s: Span) {
    && s.open < s.middle && s.middle + 2 <= s.close < |line|
    && line[s.open] == '[' && (s.open == 0 || line[s.open - 1] != '!')
    && PairAt(line, s.middle) && line[s.close] == ')'
  }

  lemma {:induction false} SpanIsLinkText(line: string, from: nat, s: Span)
    requires NextSpan(line, from, s)
    ensures IsLinkText(line, s)
  {
  }

  lemma {:induction false} OneLinkAt(title: string, reference: string, join: Resolver, l: Link)
    requires l in LinkWith(title, reference, join)
    ensures LinkWith(title, reference, join) == [l]
  {
  }

  lemma {:induction false} LinksAtSplit(line: string, from: nat, spans: seq<Span>, join: Resolver)
    requires AreSpans(line, from, spans) && spans != []
    ensures NextSpan(line, from, spans[0]) && AreSpans(line, spans[0].close + 1, spans[1..])
    ensures LinksAt(line, from, spans, join)
         == LinkAt(line, spans[0], join) + LinksAt(line, spans[0].close + 1, spans[1..], join)
  {
  }

  lemma {:induction false} LinkStandsAt(
    line: string, from: nat, spans: seq<Span>, join: Resolver, l: Link) returns (s: Span)
    requires AreSpans(line, from, spans) && l in LinksAt(line, from, spans, join)
    ensures IsLinkText(line, s) && l in LinkAt(line, s, join)
    decreases |spans|
  {
    LinksAtSplit(line, from, spans, join);
    SpanIsLinkText(line, from, spans[0]);
    if l in LinkAt(line, spans[0], join) {
      s := spans[0];
    } else {
      s := LinkStandsAt(line, spans[0].close + 1, spans[1..], join, l);
    }
  }

  /** Every listed link comes from a `[` that is first in the item or not preceded by `!`. */
  lemma {:induction false} ListedComesFrom(line: string, join: Resolver, l: Link) returns (s: Span)
    requires l in LinksFrom(line, 0, join)
    ensures IsLinkText(line, s) && LinkAt(line, s, join) == [l]
  {
    var spans := ItemLists(line, 0, join);
    s := LinkStandsAt(line, 0, spans, join, l);
    OneLinkAt(Trim(line[s.open + 1..s.middle]), Reference(Words(line[s.middle + 2..s.close])), join, l);
  }

  lemma {:induction false} NothingOpens(line: string, join: Resolver)
    requires forall k | 0 <= k < |line| && line[k] == '[' :: k > 0 && line[k - 1] == '!'
    ensures LinksFrom(line, 0, join) == []
  {
    var links := LinksFrom(line, 0, join);
    if links != [] {
      var s := ListedComesFrom(line, join, links[0]);
      assert false;
    }
  }

  /** An image, whatever its text and target, is no link, nor is text around it without brackets. */
  lemma {:induction false} ImageHasNoLinks(before: string, alt: string, target: string, behind: string, join: Resolver)
    requires '[' !in before && '[' !in alt && '[' !in target && '[' !in behind
    ensures LinksFrom(before + "![" + alt + "](" + target + ")" + behind, 0, join) == []
  {
    var line := before + "![" + alt + "](" + target + ")" + behind;
    forall k | 0 <= k < |line| && line[k] == '[' ensures k > 0 && line[k - 1] == '!' {
      OnlyBracket(before, alt + "](" + target + ")" + behind, k);
      assert line == before + "![" + (alt + "](" + target + ")" + behind);
    }
    NothingOpens(line, join);
  }

  lemma {:induction false} OnlyBracket(before: string, rest: string, k: nat)
    requires '[' !in before && '[' !in rest
    requires k < |before + "![" + rest| && (before + "![" + rest)[k] == '['
    ensures k == |before| + 1 && (before + "![" + rest)[k - 1] == '!'
  {
    var line := before + "![" + rest;
    assert forall i | 0 <= i < |before| :: line[i] == before[i];
    assert forall i | |before| + 2 <= i < |line| :: line[i] == rest[i - |before| - 2];
  }

  // ---------------------------------------------------------------- list items

  /** A marker of a list item: a bullet, or a number with a dot or a closing parenthesis. */
  ghost predicate IsMarker(marker: string) {
    || marker == "- " || marker == "* " || marker == "+ "
    || (|marker| > 2 && marker[|marker| - 1] == ' ' && marker[|marker| - 2] in {'.', ')'}
        && forall i | 0 <= i < |marker| - 2 :: IsDigit(marker[i]))
  }

  /** The line is white space, a marker, and the text of the item. */
  ghost predicate ItemHolds(line: string, lead: string, marker: string, text: string) {
    Blank(lead) && IsMarker(marker) && line == lead + marker + text
  }

  lemma {:induction false} MarkerIsRead(marker: string, text: string)
    requires IsMarker(marker)
    ensures !IsWhitespace((marker + text)[0]) && ItemText(marker + text) == Some(text)
  {
    if IsBullet(marker) {
      BulletIsRead(marker, text);
    } else {
      var n := |marker| - 2;
      NumberIsRead(marker[..n], marker[n], text);
      assert marker == marker[..n] + [marker[n]] + " ";
      assert IsDigit(marker[0]);
    }
  }

  lemma {:induction false} HeldIsRead(line: string, lead: string, marker: string, text: string)
    requires ItemHolds(line, lead, marker, text)
    ensures ItemText(line) == Some(text)
  {
    MarkerIsRead(marker, text);
    assert line == lead + (marker + text);
    BlankAtStart(lead, marker + text);
  }

  lemma {:induction false} MarkIsFirst(t: string, from: nat)
    requires from <= |t|
    ensures match FirstMark(t, from)
      case None => true
      case Some(k) => from <= k < |t| && t[k] in {'.', ')'}
    decreases |t| - from
  {
    if from < |t| {
      MarkIsFirst(t, from + 1);
    }
  }

  lemma {:induction false} ReadIsMarked(t: string, text: string) returns (marker: string)
    requires TrimStart(t) == t && ItemText(t) == Some(text)
    ensures IsMarker(marker) && t == marker + text
  {
    marker := t[..|t| - |text|];
    MarkIsFirst(t, 0);
    if !("- " <= t || "* " <= t || "+ " <= t) {
      var k := FirstMark(t, 0).value;
      assert forall i | 0 <= i < k :: t[i] in t[..k];
      assert t[k + 1..][0] == ' ';
    }
  }

  lemma {:induction false} LeadIsBlank(line: string) returns (lead: string)
    ensures Blank(lead) && line == lead + TrimStart(line)
  {
    TrimStartIsSuffix(line);
    lead := line[..|line| - |TrimStart(line)|];
  }

  lemma {:induction false} TrimmedReadsAlike(line: string, t: string)
    requires t == TrimStart(line)
    ensures TrimStart(t) == t && ItemText(t) == ItemText(line)
  {
    assert t != "" ==> !IsWhitespace(t[0]);
  }

  lemma {:induction false} ReadIsHeld(line: string, text: string) returns (lead: string, marker: string)
    requires ItemText(line) == Some(text)
    ensures ItemHolds(line, lead, marker, text)
  {
    var t := TrimStart(line);
    TrimmedReadsAlike(line, t);
    marker := ReadIsMarked(t, text);
    lead := LeadIsBlank(line);
    Regroup(lead, marker, text);
  }

  /** What `markdown_list_item_text` gives: the text behind a marker, and nothing for other lines. */
  lemma {:induction false} ItemTextIff(line: string, text: string)
    ensures ItemText(line) == Some(text) <==> exists lead, marker :: ItemHolds(line, lead, marker, text)
  {
    forall lead, marker | ItemHolds(line, lead, marker, text) ensures ItemText(line) == Some(text) {
      HeldIsRead(line, lead, marker, text);
    }
    if ItemText(line) == Some(text) {
      var lead, marker := ReadIsHeld(line, text);
    }
  }

  // ---------------------------------------------------------------- the index

  /** Same title but for the case of its letters, same URL. */
  predicate SameLink(l: Link, m: Link) {
    Lower(l.title) == Lower(m.title) && l.url == m.url
  }

  /** The filter looks for its text in the title and in the URL, whatever the case. */
  predicate Passes(l: Link, filter: Option<string>) {
    match filter
    case None => true
    case Some(f) => Contains(Lower(l.title), Lower(f)) || Contains(Lower(l.url), Lower(f))
  }

  lemma {:induction false} LowerKeepsNul(s: string)
    requires '\0' !in s
    ensures '\0' !in Lower(s)
  {
    forall i | 0 <= i < |s| ensures Lower(s)[i] != '\0' {
      assert s[i] in s;
    }
  }

  lemma {:induction false} SplitAtNul(a: string, b: string, c: string, d: string)
    requires '\0' !in a && '\0' !in c && a + "\0" + b == c + "\0" + d
    ensures a == c && b == d
  {
    var s := a + "\0" + b;
    forall i | 0 <= i <= |a| ensures s[i] == '\0' <==> i == |a| {
    }
    forall i | 0 <= i <= |c| ensures s[i] == '\0' <==> i == |c| {
      assert s[i] == (c + "\0" + d)[i];
    }
    assert s[|a|] == '\0' && s[|c|] == '\0';
    assert a == s[..|a|] && c == s[..|c|] && b == s[|a| + 1..] && d == s[|c| + 1..];
  }

  /** Two titles without a NUL have the same key only when the links are the same. */
  lemma {:induction false} KeyTellsLink(l: Link, m: Link)
    requires '\0' !in l.title && '\0' !in m.title
    ensures LinkKey(l) == LinkKey(m) <==> SameLink(l, m)
  {
    LowerKeepsNul(l.title);
    LowerKeepsNul(m.title);
    if LinkKey(l) == LinkKey(m) {
      SplitAtNul(Lower(l.title), l.url, Lower(m.title), m.url);
    }
  }

  lemma {:induction false} RetainHolds(links: seq<Link>, needle: string, l: Link)
    requires l in links && Matches(l, needle)
    ensures l in Retain(links, needle)
  {
    if l != links[0] {
      RetainHolds(links[1..], needle, l);
    }
  }

  lemma {:induction false} DistinctHolds(links: seq<Link>, l: Link) returns (m: Link)
    requires l in links && forall x <- links :: '\0' !in x.title
    ensures m in Distinct(links) && SameLink(l, m)
  {
    var i :| 0 <= i < |links| && links[i] == l;
    assert HasKey(links, LinkKey, LinkKey(l));
    FirstsKeepKeys(links, LinkKey, {}, LinkKey(l));
    var kept := Distinct(links);
    var j :| 0 <= j < |kept| && LinkKey(kept[j]) == LinkKey(l);
    m := kept[j];
    LlmsRoundTrip.FirstsAreMembers(links, {});
    KeyTellsLink(l, m);
  }

  /** The index lists parsed links that pass the filter, and no others. */
  lemma {:induction false} ListedIsParsed(body: string, filter: Option<string>, join: Resolver, m: Link)
    requires m in IndexLinks(body, filter, join)
    ensures m in LinksOfLines(Lines(body), join) && Passes(m, filter)
  {
    var all := LinksOfLines(Lines(body), join);
    LlmsRoundTrip.FirstsAreMembers(all, {});
    if filter.Some? {
      LlmsRoundTrip.RetainKeeps(Distinct(all), Lower(filter.value));
    }
  }

  /** It leaves none of them out: each is listed, or an earlier one with the same title and URL is. */
  lemma {:induction false} ParsedIsListed(body: string, filter: Option<string>, join: Resolver, l: Link)
    returns (m: Link)
    requires forall x <- LinksOfLines(Lines(body), join) :: '\0' !in x.title
    requires l in LinksOfLines(Lines(body), join) && Passes(l, filter)
    ensures m in IndexLinks(body, filter, join) && SameLink(l, m)
  {
    var all := LinksOfLines(Lines(body), join);
    m := DistinctHolds(all, l);
    if filter.Some? {
      RetainHolds(Distinct(all), Lower(filter.value), m);
    }
  }
}
