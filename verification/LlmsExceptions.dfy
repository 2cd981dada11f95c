/**
 Inputs on which the printed llms.txt index is not read back, and the one kind of input on which
 it is although a URL is not plain.
*/
module LlmsExceptions {
  import opened Dedup
  import opened LlmsLinks
  import opened LlmsRoundTrip
  import opened Option
  import opened Text

  // ---------------------------------------------------------------- the two failing inputs

  /** A simple resolver: what has a scheme is absolute and stays, all else is put behind the directory. */
  function InDirectory(dir: string): Resolver {
    h => if ':' in h then Some(h) else Some(dir + h)
  }

  lemma {:induction false} OneItemBody(title: string, href: string, join: Resolver)
    requires title != "" && Trimmed(title) && !Contains(title, "](") && '\n' !in title
    requires ')' !in href && '\n' !in href
    ensures LinksOfLines(Lines(ItemLine(Link(title, href))), join) == LinkOf(title, Href(href), join)
    ensures |LinkOf(title, Href(href), join)| == 1 ==>
      IndexLinks(ItemLine(Link(title, href)), None, join) == LinkOf(title, Href(href), join)
  {
    var l := Link(title, href);
    var body := ItemLine(l);
    ItemLineReads(l);
    LinesLast(body);
    TurnAtWholeItem(l);
    TrimOfTrimmed(title);
    WholeScan(Item(l), title, href, join);
    assert LinksOfLines([body], join) == LinksOfLine(body, join) + LinksOfLines([body][1..], join);
    if |LinkOf(title, Href(href), join)| == 1 {
      FirstsOfDistinct(LinkOf(title, Href(href), join), LinkKey, {});
    }
  }

  predicate IsTitle(title: string) {
    title != "" && Trimmed(title) && !Contains(title, "](") && '\n' !in title
  }

  /** The body with one item, and what its index reads as. */
  lemma {:induction false} OneLinkIndex(title: string, href: string, u: string, finalUrl: string, join: Resolver)
    requires IsTitle(title) && PlainLine(finalUrl)
    requires ')' !in href && '\n' !in href && Href(href) != "" && join(Href(href)) == Some(u)
    requires ResolvesTo(join, u) && join(ReadAs(u)).Some? && ReadAs(u) != ""
    ensures var links := IndexLinks(ItemLine(Link(title, href)), None, join);
      && links == [Link(title, u)]
      && Link(title, join(ReadAs(u)).value) in LinksOfLines(Lines(Printed(links, finalUrl)), join)
      && ('[' !in u[|CutAt(u)|..] ==>
            LinksOfLines(Lines(Printed(links, finalUrl)), join) == [Link(title, join(ReadAs(u)).value)])
  {
    var l := Link(title, u);
    OneItemBody(title, href, join);
    assert IsParsed(l, join);
    assert AllListed([l], join);
    PrintedReadsItems([l], finalUrl, join);
    ConsAll([l], join);
    assert [l][1..] == [] && ItemLines([]) == [];
    ItemReads(l, join);
  }

  /** A file whose own directory has a parenthesis, with a link to a page in it by a relative name:
      it is read back as a link to the piece in front of the parenthesis. */
  lemma {:induction false} ParenthesisBreaksIt(dir: string, name: string, title: string, finalUrl: string)
    requires IsUrlText(dir) && ')' in dir && ':' in ReadAs(dir)
    requires IsUrlText(name) && ':' !in name && PlainUrl(name)
    requires IsTitle(title) && PlainLine(finalUrl)
    ensures var join := InDirectory(dir);
      var links := IndexLinks(ItemLine(Link(title, name)), None, join);
      && links == [Link(title, dir + name)]
      && ResolvesTo(join, dir + name) && PiecesResolve(join, links)
      && ReadAs(dir) != dir + name
      && Link(title, ReadAs(dir)) in LinksOfLines(Lines(Printed(links, finalUrl)), join)
  {
    var join, u := InDirectory(dir), dir + name;
    HrefOfText(name);
    LongerUrl(dir, name);
    OneLinkIndex(title, name, u, finalUrl, join);
  }

  lemma {:induction false} LongerUrl(dir: string, name: string)
    requires IsUrlText(dir) && ')' in dir && ':' in ReadAs(dir) && IsUrlText(name)
    ensures ReadAs(dir + name) == ReadAs(dir) != dir + name && ReadAs(dir) != ""
    ensures ResolvesTo(InDirectory(dir), dir + name)
  {
    var u := dir + name;
    CutOfLonger(dir, name);
    assert u[0] == dir[0] && forall c <- u :: c in dir || c in name;
    ReadAsItself(dir);
    ReadAsItself(u);
    assert ')' in u;
    HrefIsPiece(CutAt(dir), ':');
    assert ':' in CutAt(dir) && forall c <- CutAt(dir) :: c in dir;
    assert ':' in u;
  }

  /** What is taken from a text is part of it. */
  lemma {:induction false} HrefIsPiece(s: string, c: char)
    requires c in Href(s)
    ensures c in s
  {
    TrimStartIsSuffix(s);
    var w := WordOf(TrimStart(s));
    assert c in TrimChar(w, '<') by { TrimCharIsPiece(TrimChar(w, '<'), '>', c); }
    TrimCharIsPiece(w, '<', c);
  }

  lemma {:induction false} TrimCharIsPiece(s: string, edge: char, c: char)
    requires c in TrimChar(s, edge)
    ensures c in s
  {
    if s != "" && s[0] == edge {
      TrimCharIsPiece(s[1..], edge, c);
    }
  }

  lemma {:induction false} CutOfLonger(dir: string, name: string)
    requires ')' in dir
    ensures CutAt(dir + name) == CutAt(dir)
  {
    if dir[0] != ')' {
      assert (dir + name)[1..] == dir[1..] + name;
      assert ')' in dir[1..];
      CutOfLonger(dir[1..], name);
    }
  }

  lemma {:induction false} TrimEndSnoc(v: string, c: char)
    requires v != "" && v[|v| - 1] != c
    ensures TrimEndChar(v + [c], c) == v && TrimEndChar(v, c) == v
  {
    assert (v + [c])[..|v|] == v;
  }

  lemma {:induction false} UrlTextSnoc(v: string, c: char)
    requires IsUrlText(v) && IsBracket(c)
    ensures IsUrlText(v + [c])
  {
    assert forall x <- v + [c] :: x in v || x == c;
  }

  /** One bracket at the end comes off, of two different ones the second. */
  lemma {:induction false} BracketComesOff(v: string)
    requires IsUrlText(v) && PlainUrl(v)
    ensures IsUrlText(v + "<") && Href(v + "<") == v && Href(v + "<>") == v + "<"
  {
    var u := v + "<";
    UrlTextSnoc(v, '<');
    HrefTrims(u);
    TrimEndSnoc(v, '<');
    TrimEndSnoc(v, '>');
    UrlTextSnoc(u, '>');
    HrefTrims(u + ">");
    TrimEndSnoc(u, '>');
    assert TrimEndChar(u + ">", '<') == u + ">";
    assert v + "<>" == u + ">";
  }

  /** An absolute URL with both brackets at its end: the parser takes off the outer one, the index
      prints the other, and reading that takes it off too. No parenthesis is involved. */
  lemma {:induction false} BracketBreaksIt(dir: string, v: string, title: string, finalUrl: string)
    requires IsUrlText(v) && ':' in v && PlainUrl(v)
    requires IsTitle(title) && PlainLine(finalUrl)
    ensures var join := InDirectory(dir);
      var links := IndexLinks(ItemLine(Link(title, v + "<>")), None, join);
      && links == [Link(title, v + "<")] && ')' !in v + "<"
      && ResolvesTo(join, v + "<") && PiecesResolve(join, links)
      && LinksOfLines(Lines(Printed(links, finalUrl)), join) == [Link(title, v)]
  {
    BracketComesOff(v);
    Unbracketed(dir, v, v + "<");
    OneLinkIndex(title, v + "<>", v + "<", finalUrl, InDirectory(dir));
  }

  lemma {:induction false} Unbracketed(dir: string, v: string, u: string)
    requires IsUrlText(u) && ':' in v && ')' !in v && u == v + "<" && Href(u) == v
    ensures ResolvesTo(InDirectory(dir), u) && ReadAs(u) == v && InDirectory(dir)(v) == Some(v)
    ensures ')' !in u && '[' !in u[|CutAt(u)|..]
    ensures ')' !in v + "<>" && '\n' !in v + "<>" && InDirectory(dir)(u) == Some(u)
  {
    assert ':' in u && forall c <- v + "<>" :: c in u || c == '>';
    assert ')' !in u;
  }

  // ---------------------------------------------------------------- what the two facts exclude

  /** A directory with a parenthesis in front of its path, `s` being no URL, and with an item in it. */
  function ItemDirectory(s: string, title: string, name: string): string {
    s + ")" + ("/" + ("[" + title + "](" + name + ")" + "/"))
  }

  /** Resolution in that directory. */
  function Without(s: string, dir: string): Resolver {
    h => if h == s then None else if ':' in h then Some(h) else Some(dir + h)
  }

  /** The index of the body lists this link alone, and the printed index gives it back. */
  predicate ListedAndReadBack(body: string, l: Link, finalUrl: string, join: Resolver) {
    && IndexLinks(body, None, join) == [l]
    && LinksOfLines(Lines(Printed([l], finalUrl)), join) == [l]
  }

  /** The name resolves to u, and the printed item of u takes two turns: `first`, which is no
      link, and the name. */
  predicate IsTwoTurnItem(title: string, name: string, u: string, join: Resolver, first: string, c: nat, d: nat) {
    && IsTitle(title) && IsUrlText(name) && ')' !in name && Href(name) == name && join(name) == Some(u)
    && ResolvesTo(join, u) && ')' in u && Href(first) == first && join(first) == None
    && var text := Item(Link(title, u));
       && TurnAt(text, 0) == Take(title, first, c)
       && TurnAt(text, c) == Take(title, name, d)
       && d <= |text| && '[' !in text[d..]
  }

  /** A page in such a directory prints as such an item. */
  lemma {:induction false} ItemBehindExists(s: string, title: string, name: string)
    returns (join: Resolver, u: string, d: nat)
    requires IsUrlText(s) && PlainUrl(s) && ':' in s
    requires IsUrlText(name) && PlainUrl(name) && ':' !in name && '[' !in name
    requires IsTitle(title) && (forall c <- title :: !IsWhitespace(c))
    ensures IsTwoTurnItem(title, name, u, join, s, |title| + |s| + 4, d)
  {
    var dir := ItemDirectory(s, title, name);
    join, u := Without(s, dir), dir + name;
    HrefOfText(s);
    HrefOfText(name);
    BehindIsSolid(title, name);
    ParenthesisDirectory(s, "/" + ("[" + title + "](" + name + ")" + "/"), name);
    d := BothTurns(s, title, name);
  }

  lemma {:induction false} BehindIsSolid(title: string, name: string)
    requires forall c <- title :: !IsWhitespace(c)
    requires forall c <- name :: !IsWhitespace(c)
    ensures forall c <- "/" + ("[" + title + "](" + name + ")" + "/") :: !IsWhitespace(c)
  {
    forall c | c in "/" + ("[" + title + "](" + name + ")" + "/") ensures !IsWhitespace(c) {
      assert c in title || c in name || c in "/[](" || c in ")/";
    }
  }

  /** Such a link is read back although its URL has a parenthesis: the piece in front of it is no
      link, and the item behind it is the very link that was printed. */
  lemma {:induction false} ItemBehindSurvives(
    title: string, name: string, u: string, finalUrl: string, join: Resolver, first: string, c: nat, d: nat)
    requires IsTwoTurnItem(title, name, u, join, first, c, d) && PlainLine(finalUrl)
    ensures ')' in u && ResolvesTo(join, u)
    ensures ListedAndReadBack(ItemLine(Link(title, name)), Link(title, u), finalUrl, join)
  {
    var l := Link(title, u);
    OneItemBody(title, name, join);
    assert IsParsed(l, join);
    assert AllListed([l], join);
    PrintedReadsItems([l], finalUrl, join);
    ConsAll([l], join);
    assert [l][1..] == [] && ItemLines([]) == [];
    ItemLineReads(l);
    TrimOfTrimmed(title);
    TwoTurns(Item(l), c, d, title, first, name, join);
  }

  lemma {:induction false} ParenthesisDirectory(s: string, behind: string, name: string)
    requires IsUrlText(s) && PlainUrl(s) && ':' in s
    requires IsUrlText(name) && ':' !in name && (forall c <- behind :: !IsWhitespace(c))
    ensures var dir := s + ")" + behind;
      && ')' in dir + name
      && ResolvesTo(Without(s, dir), dir + name) && Without(s, dir)(name) == Some(dir + name)
  {
    var dir := s + ")" + behind;
    CutOfPieces(s, behind);
    assert dir[|s|] == ')';
    CutOfLonger(dir, name);
    LongText(s, ")" + behind, name);
    HrefOfText(s);
    UrlWithout(s, dir, dir + name, name);
  }

  lemma {:induction false} LongText(s: string, behind: string, name: string)
    requires IsUrlText(s) && ':' in s && behind != "" && behind[0] == ')'
    requires (forall c <- behind :: !IsWhitespace(c)) && (forall c <- name :: !IsWhitespace(c))
    ensures var u := s + behind + name; IsUrlText(u) && ':' in u && ')' in u
  {
    var u := s + behind + name;
    assert u[0] == s[0] && u[|s|] == ')';
    forall c | c in u ensures !IsWhitespace(c) {
      assert c in s || c in behind || c in name;
    }
    var k :| 0 <= k < |s| && s[k] == ':';
    assert u[k] == ':';
  }

  lemma {:induction false} UrlWithout(s: string, dir: string, u: string, name: string)
    requires IsUrlText(u) && ':' in u && ')' in u && ')' !in s && CutAt(u) == s && Href(s) == s
    requires u == dir + name && ':' !in name && ':' in s
    ensures ResolvesTo(Without(s, dir), u) && Without(s, dir)(name) == Some(u)
  {
    assert u != s && name != s;
    var join := Without(s, dir);
    assert join(u) == Some(u);
    assert join(s) == None;
    assert join(name) == Some(dir + name);
    assert ReadAs(u) == s;
  }

  lemma {:induction false} CutOfPieces(s: string, behind: string)
    requires ')' !in s
    ensures CutAt(s + ")" + behind) == s
  {
    if s != "" {
      assert (s + ")" + behind)[1..] == s[1..] + ")" + behind;
      CutOfPieces(s[1..], behind);
    }
  }

  /** The two turns of the scan over the printed item. */
  lemma {:induction false} BothTurns(s: string, title: string, name: string) returns (d: nat)
    requires !Contains(title, "](") && ')' !in s && ')' !in name && '[' !in name
    ensures var text := Item(Link(title, ItemDirectory(s, title, name) + name));
      && TurnAt(text, 0) == Take(title, s, |title| + |s| + 4)
      && TurnAt(text, |title| + |s| + 4) == Take(title, name, d)
      && d <= |text| && '[' !in text[d..]
  {
    var item := "[" + title + "](" + name + ")";
    var text := Item(Link(title, ItemDirectory(s, title, name) + name));
    SecondItemShape("[" + title + "](", s, item, name);
    FirstTurnOver(text, s, title, "/" + (item + "/") + name);
    d := SecondTurnOver(text, item, s, title, name);
  }

  lemma {:induction false} FirstTurnOver(text: string, s: string, title: string, rest: string)
    requires text == "[" + title + "](" + (s + ")" + rest) + ")"
    requires !Contains(title, "](") && ')' !in s
    ensures TurnAt(text, 0) == Take(title, s, |title| + |s| + 4)
  {
    TurnAtPiece(title, s, rest);
  }

  lemma {:induction false} SecondTurnOver(text: string, item: string, s: string, title: string, name: string)
    returns (d: nat)
    requires text == "[" + title + "](" + s + ")" + "/" + (item + ("/" + name + ")"))
    requires item == "[" + title + "](" + name + ")"
    requires !Contains(title, "](") && ')' !in name && '[' !in name
    ensures TurnAt(text, |title| + |s| + 4) == Take(title, name, d) && d <= |text| && '[' !in text[d..]
  {
    var a := "[" + title + "](" + s + ")" + "/";
    d := |a| + |title| + |name| + 4;
    TurnBehind(text, a, item, "/" + name + ")", title, name);
  }

  lemma {:induction false} TurnBehind(text: string, a: string, item: string, tail: string, title: string, name: string)
    requires text == a + (item + tail) && item == "[" + title + "](" + name + ")"
    requires a != "" && a[|a| - 1] == '/' && '[' !in tail
    requires !Contains(title, "](") && ')' !in name
    ensures TurnAt(text, |a| - 1) == Take(title, name, |a| + |title| + |name| + 4)
    ensures |a| + |title| + |name| + 4 <= |text| && '[' !in text[|a| + |title| + |name| + 4..]
  {
    assert a[|a| - 1..] == "/";
    TurnAtItem(a, |a| - 1, title, name, tail);
    Regroup(a, item, tail);
    DropFront(a + item, tail);
  }

  lemma {:induction false} SecondItemShape(front: string, s: string, item: string, name: string)
    ensures front + (s + ")" + ("/" + (item + "/")) + name) + ")"
         == front + s + ")" + "/" + (item + ("/" + name + ")"))
    ensures front + (s + ")" + ("/" + (item + "/")) + name) + ")"
         == front + (s + ")" + ("/" + (item + "/") + name)) + ")"
  {
    Regroup(s + ")", "/" + (item + "/"), name);
  }

  lemma {:induction false} TwoTurns(
    text: string, c: nat, d: nat, title: string, first: string, second: string, join: Resolver)
    requires TurnAt(text, 0) == Take(title, first, c) && TurnAt(text, c) == Take(title, second, d)
    requires LinkOf(Trim(title), Href(first), join) == []
    requires '[' !in text[d..]
    ensures LinksFrom(text, 0, join) == LinkOf(Trim(title), Href(second), join)
  {
    NoBracketNoLinks(text, d, join);
  }
}
