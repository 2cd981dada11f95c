/**
 The links of an llms.txt file (read.rs): the parser, the removal of duplicates, the filter and
 the printed index. A URL is its text; `join` resolves a reference against the file's URL.
*/
module LlmsLinks {
  import opened Dedup
  import Normalize
  import opened Option
  import opened Text

  datatype Link = Link(title: string, url: string)

  type Resolver = string -> Option<string>

  // ---------------------------------------------------------------- one line

  function FirstMark(s: string, from: nat): Option<nat>
    requires from <= |s|
    decreases |s| - from
  {
    if from == |s| then None
    else if s[from] == '.' || s[from] == ')' then Some(from)
    else FirstMark(s, from + 1)
  }

  /** The text of a list item, `markdown_list_item_text`. */
  function ItemText(line: string): Option<string> {
    var t := TrimStart(line);
    if "- " <= t || "* " <= t || "+ " <= t then Some(t[2..])
    else
      match FirstMark(t, 0)
      case None => None
      case Some(k) =>
        if k == 0 || k >= |t| || exists c <- t[..k] :: !IsDigit(c) then None
        else if " " <= t[k + 1..] then Some(t[k + 2..])
        else None
  }

  predicate IsBullet(marker: string) {
    marker == "- " || marker == "* " || marker == "+ "
  }

  lemma {:induction false} BulletIsRead(marker: string, text: string)
    requires IsBullet(marker)
    ensures ItemText(marker + text) == Some(text)
  {
    var line := marker + text;
    assert line[..2] == marker && line[2..] == text;
    assert TrimStart(line) == line;
  }

  lemma {:induction false} MarkAfterDigits(digits: string, rest: string, from: nat)
    requires from <= |digits| && rest != "" && (rest[0] == '.' || rest[0] == ')')
    requires forall c <- digits :: IsDigit(c)
    ensures FirstMark(digits + rest, from) == Some(|digits|)
    decreases |digits| - from
  {
    if from < |digits| {
      assert digits[from] in digits;
      MarkAfterDigits(digits, rest, from + 1);
    }
  }

  /** A numbered item, `7. text` or `7) text`. */
  lemma {:induction false} NumberIsRead(digits: string, mark: char, text: string)
    requires digits != "" && forall c <- digits :: IsDigit(c)
    requires mark == '.' || mark == ')'
    ensures ItemText(digits + [mark] + " " + text) == Some(text)
  {
    var rest := [mark] + " " + text;
    var line := digits + rest;
    assert line == digits + [mark] + " " + text;
    assert digits[0] in digits && line[0] == digits[0];
    assert TrimStart(line) == line;
    MarkAfterDigits(digits, rest, 0);
    assert line[..|digits|] == digits;
    assert line[|digits| + 1..] == " " + text && line[|digits| + 2..] == text;
  }

  function Href(s: string): string {
    TrimChar(TrimChar(WordOf(TrimStart(s)), '<'), '>')
  }

  function LinkOf(title: string, href: string, join: Resolver): seq<Link> {
    if title == "" || href == "" then []
    else
      match join(href)
      case None => []
      case Some(url) => [Link(title, url)]
  }

  /** What the scan of a line does from position `cursor` on. */
  datatype Turn = Stop | Skip(next: nat) | Take(caption: string, href: string, next: nat)

  function TurnAt(line: string, cursor: nat): (t: Turn)
    ensures !t.Stop? ==> cursor < t.next <= |line|
  {
    match Find(line, "[", cursor)
    case None => Stop
    case Some(start) =>
      if start > 0 && line[start - 1] == '!' then Skip(start + 1)
      else
        match Find(line, "](", start + 1)
        case None => Stop
        case Some(end) =>
          match Find(line, ")", end + 2)
          case None => Stop
          case Some(close) => Take(line[start + 1..end], line[end + 2..close], close + 1)
  }

  function LinksFrom(line: string, cursor: nat, join: Resolver): seq<Link>
    decreases |line| - cursor
  {
    match TurnAt(line, cursor)
    case Stop => []
    case Skip(next) => LinksFrom(line, next, join)
    case Take(caption, href, next) => LinkOf(Trim(caption), Href(href), join) + LinksFrom(line, next, join)
  }

  function LinksOfLine(line: string, join: Resolver): seq<Link> {
    match ItemText(line)
    case None => []
    case Some(text) => LinksFrom(text, 0, join)
  }

  function LinksOfLines(lines: seq<string>, join: Resolver): seq<Link> {
    if lines == [] then [] else LinksOfLine(lines[0], join) + LinksOfLines(lines[1..], join)
  }

  /** The scan of one list item. */
  method ParseItem(line: string, join: Resolver) returns (links: seq<Link>)
    ensures links == LinksFrom(line, 0, join)
  {
    links := [];
    var cursor := 0;
    ghost var goal := LinksFrom(line, 0, join);
    while true
      invariant 0 <= cursor <= |line|
      invariant goal == links + LinksFrom(line, cursor, join)
      decreases |line| - cursor
    {
      match TurnAt(line, cursor) {
        case Stop => return;
        case Skip(next) => cursor := next;
        case Take(caption, href, next) =>
          var found := LinkOf(Trim(caption), Href(href), join);
          Regroup(links, found, LinksFrom(line, next, join));
          links := links + found;
          cursor := next;
      }
    }
  }

  method ParseLine(line: string, join: Resolver) returns (links: seq<Link>)
    ensures links == LinksOfLine(line, join)
  {
    links := [];
    var text := ItemText(line);
    if text.Some? {
      links := ParseItem(text.value, join);
    }
  }

  method ParseLlmsLinks(body: string, join: Resolver) returns (links: seq<Link>)
    ensures links == LinksOfLines(Lines(body), join)
  {
    links := [];
    var lines := Lines(body);
    ghost var goal := LinksOfLines(lines, join);
    while lines != []
      invariant goal == links + LinksOfLines(lines, join)
      decreases |lines|
    {
      var found := ParseLine(lines[0], join);
      Regroup(links, found, LinksOfLines(lines[1..], join));
      links := links + found;
      lines := lines[1..];
    }
  }

  // ---------------------------------------------------------------- the index

  function LinkKey(l: Link): string {
    Lower(l.title) + "\0" + l.url
  }

  function Distinct(links: seq<Link>): seq<Link> {
    Firsts(links, LinkKey, {})
  }

  predicate Matches(l: Link, needle: string) {
    Contains(Lower(l.title), needle) || Contains(Lower(l.url), needle)
  }

  function Retain(links: seq<Link>, needle: string): seq<Link> {
    if links == [] then []
    else (if Matches(links[0], needle) then [links[0]] else []) + Retain(links[1..], needle)
  }

  /** The links that the index lists. */
  function IndexLinks(body: string, filter: Option<string>, join: Resolver): seq<Link> {
    var links := Distinct(LinksOfLines(Lines(body), join));
    match filter
    case None => links
    case Some(f) => Retain(links, Lower(f))
  }

  function ItemLine(l: Link): string {
    "- " + Item(l)
  }

  function Item(l: Link): string {
    "[" + l.title + "](" + l.url + ")"
  }

  function Items(links: seq<Link>): string {
    if links == [] then "" else "\n" + ItemLine(links[0]) + Items(links[1..])
  }

  function Printed(links: seq<Link>, finalUrl: string): string {
    "# llms.txt\n\nSource: " + finalUrl + "\n" + Items(links)
  }

  /** `format_llms_index` for a final URL that parses. */
  method FormatLlmsIndex(body: string, finalUrl: string, filter: Option<string>, join: Resolver)
    returns (out: string)
    ensures var links := IndexLinks(body, filter, join);
      out == if links != [] then Printed(links, finalUrl)
        else if filter.Some? then "No matching llms.txt links" else Normalize.Normalized(body)
  {
    var links := ParseLlmsLinks(body, join);
    links := Distinct(links);
    if filter.Some? {
      links := Retain(links, Lower(filter.value));
    }
    if links == [] {
      if filter.Some? {
        return "No matching llms.txt links";
      }
      out := Normalize.NormalizeMarkdownish(body);
      return;
    }
    out := "# llms.txt\n\nSource: " + finalUrl + "\n";
    ghost var goal := Printed(links, finalUrl);
    while links != []
      invariant goal == out + Items(links)
      decreases |links|
    {
      Regroup(out, "\n" + ItemLine(links[0]), Items(links[1..]));
      out := out + ("\n" + ItemLine(links[0]));
      links := links[1..];
    }
  }
}
