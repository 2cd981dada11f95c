/**
 What the lines of a page say about its sections, stated on their characters: which lines are
 headings, and what the text of a section holds.
*/
module SectionText {
  import opened Option
  import opened Sections
  import opened Text

  // ---------------------------------------------------------------- headings

  ghost predicate AllHashes(s: string) {
    forall c <- s :: c == '#'
  }

  /** The parts of a heading line: hash signs, white space, the title, and hash signs again at the
      end if the line has some. The title is what stands in front of those without the white space. */
  datatype HeadingLine = HeadingLine(
    lead: string, level: nat, gap: string, title: string, space: string, closing: string, tail: string)
  {
    function Line(): string {
      lead + (Hashes(level) + (gap + (title + space + closing) + tail))
    }

    ghost predicate Valid() {
      && 1 <= level <= 6
      && Blank(lead) && Blank(gap) && gap != "" && Blank(space) && Blank(tail) && AllHashes(closing)
      && title != "" && Trimmed(title)
      && (title + space)[|title + space| - 1] != '#'
      && (closing == "" ==> space == "")
    }
  }

  ghost predicate IsHeadingLine(line: string, h: Heading) {
    exists parts: HeadingLine :: parts.Valid() && line == parts.Line() && h == Heading(parts.level, parts.title)
  }

  lemma {:induction false} CountedAreHashes(s: string)
    ensures var n := CountHashes(s);
      s == Hashes(n) + s[n..] && (n < |s| ==> s[n] != '#')
  {
    var n := CountHashes(s);
    if s != "" && s[0] == '#' {
      CountedAreHashes(s[1..]);
      assert s == ['#'] + s[1..];
      assert Hashes(n) == ['#'] + Hashes(n - 1);
    } else {
      assert Hashes(0) == "";
    }
  }

  lemma {:induction false} CoreIsTrimmed(title: string, space: string, closing: string)
    requires title != "" && Trimmed(title) && Blank(space) && AllHashes(closing)
    requires (title + space)[|title + space| - 1] != '#' && (closing == "" ==> space == "")
    ensures Trimmed(title + space + closing) && TrimEndChar(title + space + closing, '#') == title + space
    ensures Trim(title + space) == title
  {
    var core, stem := title + space + closing, title + space;
    if closing != "" {
      assert core[|core| - 1] == closing[|closing| - 1];
    }
    TrimsCharAtEnd(stem, closing, '#');
    TrimOfParts("", title, space);
    assert "" + title + space == title + space;
  }

  lemma {:induction false} TrimsCharAtEnd(stem: string, tail: string, c: char)
    requires (stem == "" || stem[|stem| - 1] != c) && forall x <- tail :: x == c
    ensures TrimEndChar(stem + tail, c) == stem
  {
    if tail == "" {
      assert stem + tail == stem;
    } else {
      var n := |tail| - 1;
      assert (stem + tail)[..|stem + tail| - 1] == stem + tail[..n];
      assert tail[n] in tail && forall x <- tail[..n] :: x in tail;
      TrimsCharAtEnd(stem, tail[..n], c);
    }
  }

  lemma {:induction false} RestIsRead(level: nat, rest: string, title: string)
    requires 1 <= level <= 6 && rest != "" && IsWhitespace(rest[0])
    requires title != "" && title == Trim(TrimEndChar(Trim(rest), '#'))
    ensures ParseMarkdownHeading(Hashes(level) + rest) == Some(Heading(level, title))
  {
    var line := Hashes(level) + rest;
    assert line[0] == '#';
    CountOfHashes(level, rest);
    assert line[level..] == rest;
  }

  lemma {:induction false} LeadIsSkipped(lead: string, line: string)
    requires Blank(lead) && line != "" && !IsWhitespace(line[0])
    ensures ParseMarkdownHeading(lead + line) == ParseMarkdownHeading(line)
  {
    BlankAtStart(lead, line);
  }

  lemma {:induction false} WrittenIsRead(parts: HeadingLine)
    requires parts.Valid()
    ensures ParseMarkdownHeading(parts.Line()) == Some(Heading(parts.level, parts.title))
  {
    var core := parts.title + parts.space + parts.closing;
    var rest := parts.gap + core + parts.tail;
    CoreIsTrimmed(parts.title, parts.space, parts.closing);
    TrimOfParts(parts.gap, core, parts.tail);
    assert rest[0] == parts.gap[0] && parts.gap[0] in parts.gap;
    RestIsRead(parts.level, rest, parts.title);
    assert (Hashes(parts.level) + rest)[0] == '#';
    LeadIsSkipped(parts.lead, Hashes(parts.level) + rest);
  }

  lemma {:induction false} BlankEnds(lead: string, title: string, tail: string)
    requires Blank(lead) && Blank(tail)
    ensures lead != "" ==> IsWhitespace((lead + title + tail)[0])
    ensures tail != "" ==> IsWhitespace((lead + title + tail)[|lead + title + tail| - 1])
  {
    if lead != "" {
      assert lead[0] in lead;
    }
    if tail != "" {
      assert tail[|tail| - 1] in tail;
    }
  }

  lemma {:induction false} StemParts(core: string, title: string) returns (space: string, closing: string)
    requires Trimmed(core) && title != "" && title == Trim(TrimEndChar(core, '#'))
    ensures core == title + space + closing && Blank(space) && AllHashes(closing) && Trimmed(title)
    ensures (title + space)[|title + space| - 1] != '#' && (closing == "" ==> space == "")
  {
    var stem := TrimEndChar(core, '#');
    closing := core[|stem|..];
    forall i | 0 <= i < |closing| ensures closing[i] == '#' {
      assert closing[i] == core[|stem| + i];
    }
    var lead, tail := TrimParts(stem);
    TrimIsTrimmed(stem);
    BlankEnds(lead, title, tail);
    assert stem != "" && stem[0] == core[0];
    assert stem == title + tail;
    space := tail;
  }

  /** Behind the hash signs. */
  lemma {:induction false} RestParts(rest: string, title: string)
    returns (gap: string, space: string, closing: string, tail: string)
    requires rest != "" && IsWhitespace(rest[0]) && title != "" && title == Trim(TrimEndChar(Trim(rest), '#'))
    ensures rest == gap + (title + space + closing) + tail
    ensures Blank(gap) && gap != "" && Blank(space) && Blank(tail) && AllHashes(closing) && Trimmed(title)
    ensures (title + space)[|title + space| - 1] != '#' && (closing == "" ==> space == "")
  {
    var core := Trim(rest);
    gap, tail := TrimParts(rest);
    TrimIsTrimmed(rest);
    space, closing := StemParts(core, title);
    GapIsThere(rest, gap, core, tail);
  }

  lemma {:induction false} GapIsThere(rest: string, gap: string, core: string, tail: string)
    requires rest == gap + core + tail && rest != "" && IsWhitespace(rest[0]) && core != "" && Trimmed(core)
    ensures gap != ""
  {
    assert gap == "" ==> rest == core + tail;
  }

  lemma {:induction false} ReadIsWritten(line: string, h: Heading) returns (parts: HeadingLine)
    requires ParseMarkdownHeading(line) == Some(h)
    ensures parts.Valid() && line == parts.Line() && h == Heading(parts.level, parts.title)
  {
    var t := TrimStart(line);
    TrimStartIsSuffix(line);
    CountedAreHashes(t);
    var gap, space, closing, tail := RestParts(t[h.level..], h.title);
    parts := HeadingLine(line[..|line| - |t|], h.level, gap, h.title, space, closing, tail);
  }

  /** A line is a heading with this level and title exactly when it is written as one. */
  lemma {:induction false} HeadingIff(line: string, h: Heading)
    ensures ParseMarkdownHeading(line) == Some(h) <==> IsHeadingLine(line, h)
  {
    forall parts: HeadingLine | parts.Valid() && line == parts.Line() && h == Heading(parts.level, parts.title)
      ensures ParseMarkdownHeading(line) == Some(h)
    {
      WrittenIsRead(parts);
    }
    if ParseMarkdownHeading(line) == Some(h) {
      var parts := ReadIsWritten(line, h);
    }
  }

  // ---------------------------------------------------------------- the text of a section

  /** The text of a section is that of its lines, from its heading to its end, but for white space
      around it. */
  lemma {:induction false} TextIsOfLines(lines: seq<string>, sections: seq<Section>, i: nat)
    returns (lead: string, tail: string)
    requires i < |sections| && forall s <- sections :: s.start <= s.end <= |lines|
    ensures var s, text := sections[i], SectionTexts(lines, sections)[i];
      && Join(lines[s.start..s.end], "\n") == lead + text + tail
      && Blank(lead) && Blank(tail) && Trimmed(text)
  {
    var all := Join(lines[sections[i].start..sections[i].end], "\n");
    lead, tail := TrimParts(all);
    TrimIsTrimmed(all);
  }

  // ---------------------------------------------------------------- the filter

  /** The filter stands in the title at position k, whatever the case of the letters. */
  predicate StandsIn(title: string, filter: string, k: nat) {
    k + |filter| <= |title| && forall i | 0 <= i < |filter| :: LowerChar(title[k + i]) == LowerChar(filter[i])
  }

  lemma {:induction false} LowerStands(title: string, filter: string, k: nat)
    ensures At(Lower(title), Lower(filter), k) <==> StandsIn(title, filter, k)
  {
    if k + |filter| <= |title| {
      var part := Lower(title)[k..k + |filter|];
      assert forall i | 0 <= i < |filter| :: part[i] == LowerChar(title[k + i]);
      assert forall i | 0 <= i < |filter| :: Lower(filter)[i] == LowerChar(filter[i]);
    }
  }

  /** A heading matches when the filter stands somewhere in its title. */
  lemma {:induction false} MatchIff(h: Heading, filter: string)
    ensures Matches(h, Lower(filter)) <==> exists k: nat :: StandsIn(h.title, filter, k)
  {
    forall k: nat ensures At(Lower(h.title), Lower(filter), k) <==> StandsIn(h.title, filter, k) {
      LowerStands(h.title, filter, k);
    }
    var found := Find(Lower(h.title), Lower(filter), 0);
    if found.Some? {
      assert StandsIn(h.title, filter, found.value);
    }
  }
}
