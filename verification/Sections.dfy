/**
 The sections of a Markdown page whose heading matches a filter (read.rs): `parse_markdown_heading`
 and `filter_page_sections`.
*/
module Sections {
  import opened Option
  import opened Text

  datatype Heading = Heading(level: nat, title: string)

  /** How a line is read as a heading. */
  type Reader = string -> Option<Heading>

  function CountHashes(s: string): (n: nat)
    ensures n <= |s|
  {
    if s != "" && s[0] == '#' then 1 + CountHashes(s[1..]) else 0
  }

  function ParseMarkdownHeading(line: string): Option<Heading> {
    var trimmed := TrimStart(line);
    var level := CountHashes(trimmed);
    var rest := trimmed[level..];
    if level == 0 || level > 6 then None
    else if rest != "" && !IsWhitespace(rest[0]) then None
    else
      var title := Trim(TrimEndChar(Trim(rest), '#'));
      if title == "" then None else Some(Heading(level, title))
  }

  function Hashes(n: nat): (s: string)
    ensures |s| == n && forall i | 0 <= i < n :: s[i] == '#'
  {
    seq(n, i requires 0 <= i < n => '#')
  }

  lemma {:induction false} CountOfHashes(n: nat, rest: string)
    requires rest == "" || rest[0] != '#'
    ensures CountHashes(Hashes(n) + rest) == n
  {
    if n == 0 {
      assert Hashes(0) + rest == rest;
    } else {
      assert (Hashes(n) + rest)[1..] == Hashes(n - 1) + rest;
      CountOfHashes(n - 1, rest);
    }
  }

  lemma {:induction false} TrimShortens(s: string)
    ensures |Trim(s)| <= |s|
  {
    TrimStartIsSuffix(s);
    TrimEndIsPrefix(TrimStart(s));
  }

  /** A heading is read with its level and title if and only if it has at most six hash signs and
      the title does not end in one. */
  lemma {:induction false} HeadingIsRead(level: nat, title: string)
    requires level > 0 && title != "" && Trimmed(title)
    ensures ParseMarkdownHeading(Hashes(level) + " " + title) == Some(Heading(level, title))
      <==> level <= 6 && title[|title| - 1] != '#'
  {
    var line, rest := Hashes(level) + " " + title, " " + title;
    assert line == Hashes(level) + rest;
    assert TrimStart(line) == line;
    CountOfHashes(level, rest);
    assert line[level..] == rest;
    TrimLeadingSpace(title);
    TitleIsKept(title);
  }

  lemma {:induction false} TitleIsKept(title: string)
    requires title != "" && Trimmed(title)
    ensures Trim(TrimEndChar(title, '#')) == title <==> title[|title| - 1] != '#'
  {
    if title[|title| - 1] == '#' {
      TrimShortens(TrimEndChar(title, '#'));
    } else {
      TrimOfTrimmed(title);
    }
  }

  predicate Matches(h: Heading, needle: string) {
    Contains(Lower(h.title), needle)
  }

  // ---------------------------------------------------------------- the headings of a page

  datatype Found = Found(line: nat, heading: Heading)

  /** The headings on the lines from `from` on. */
  function HeadingsFrom(lines: seq<string>, read: Reader, from: nat): seq<Found>
    decreases |lines| - from
  {
    if from >= |lines| then []
    else
      match read(lines[from])
      case None => HeadingsFrom(lines, read, from + 1)
      case Some(h) => [Found(from, h)] + HeadingsFrom(lines, read, from + 1)
  }

  ghost predicate IsHeadingList(lines: seq<string>, read: Reader, from: nat, hs: seq<Found>) {
    && (forall i | 0 <= i < |hs| :: from <= hs[i].line < |lines| && read(lines[hs[i].line]) == Some(hs[i].heading))
    && (forall i, j | 0 <= i < j < |hs| :: hs[i].line < hs[j].line)
    && (forall k | from <= k < |lines| && read(lines[k]).Some? :: Lists(hs, k))
  }

  ghost predicate Lists(hs: seq<Found>, k: nat) {
    exists i | 0 <= i < |hs| :: hs[i].line == k
  }

  lemma {:induction false} HeadingsAreListed(lines: seq<string>, read: Reader, from: nat)
    ensures IsHeadingList(lines, read, from, HeadingsFrom(lines, read, from))
    decreases |lines| - from
  {
    if from < |lines| {
      HeadingsAreListed(lines, read, from + 1);
      var rest, hs := HeadingsFrom(lines, read, from + 1), HeadingsFrom(lines, read, from);
      forall k | from <= k < |lines| && read(lines[k]).Some? ensures Lists(hs, k) {
        if k == from {
          assert hs[0].line == k;
        } else {
          assert Lists(rest, k);
          var i :| 0 <= i < |rest| && rest[i].line == k;
          assert hs[if hs == rest then i else i + 1].line == k;
        }
      }
    }
  }

  // ---------------------------------------------------------------- the sections

  datatype Section = Section(start: nat, end: nat)

  /** The line of the next heading at this level or above, from the i-th on; n without one. */
  function SectionEnd(hs: seq<Found>, i: nat, level: nat, n: nat): nat
    decreases |hs| - i
  {
    if i >= |hs| then n
    else if hs[i].heading.level <= level then hs[i].line
    else SectionEnd(hs, i + 1, level, n)
  }

  /** From a matching heading to the next heading of the same or a smaller level, or the end. */
  ghost predicate IsSection(lines: seq<string>, read: Reader, needle: string, s: Section) {
    && s.start < s.end <= |lines|
    && read(lines[s.start]).Some?
    && var h := read(lines[s.start]).value;
       && Matches(h, needle)
       && (forall k | s.start < k < s.end && read(lines[k]).Some? :: read(lines[k]).value.level > h.level)
       && (s.end < |lines| ==> read(lines[s.end]).Some? && read(lines[s.end]).value.level <= h.level)
  }

  /** The line is a matching heading. */
  predicate IsMatch(lines: seq<string>, read: Reader, needle: string, k: nat) {
    k < |lines| && read(lines[k]).Some? && Matches(read(lines[k]).value, needle)
  }

  predicate InSection(s: Section, k: nat) {
    s.start <= k < s.end
  }

  /** Sections in document order, without overlap. */
  ghost predicate Ordered(sections: seq<Section>) {
    forall i, j | 0 <= i < j < |sections| :: sections[i].end <= sections[j].start
  }

  ghost predicate Covered(sections: seq<Section>, k: nat) {
    exists i | 0 <= i < |sections| :: InSection(sections[i], k)
  }

  lemma {:induction false} SectionEndIs(lines: seq<string>, read: Reader, hs: seq<Found>, i: nat, j: nat)
    requires IsHeadingList(lines, read, 0, hs) && i < j <= |hs|
    ensures var h := hs[i].heading;
      var end := SectionEnd(hs, j, h.level, |lines|);
      && hs[i].line < end <= |lines|
      && (j < |hs| ==> hs[j].line <= end)
      && (forall k | (if j < |hs| then hs[j].line else |lines|) <= k < end && read(lines[k]).Some? ::
           read(lines[k]).value.level > h.level)
      && (end < |lines| ==> read(lines[end]).Some? && read(lines[end]).value.level <= h.level)
    decreases |hs| - j
  {
    if j < |hs| && hs[j].heading.level > hs[i].heading.level {
      SectionEndIs(lines, read, hs, i, j + 1);
      var end := SectionEnd(hs, j, hs[i].heading.level, |lines|);
      forall k | hs[j].line <= k < end && read(lines[k]).Some?
        ensures read(lines[k]).value.level > hs[i].heading.level
      {
        assert Lists(hs, k);
        var m :| 0 <= m < |hs| && hs[m].line == k;
        if m > j + 1 {
          assert hs[j + 1].line < hs[m].line;
        }
      }
    }
  }

  lemma {:induction false} IsSectionAt(lines: seq<string>, read: Reader, needle: string, hs: seq<Found>, i: nat)
    requires IsHeadingList(lines, read, 0, hs) && i < |hs| && Matches(hs[i].heading, needle)
    ensures IsSection(lines, read, needle, Section(hs[i].line, SectionEnd(hs, i + 1, hs[i].heading.level, |lines|)))
  {
    SectionEndIs(lines, read, hs, i, i + 1);
    var s := Section(hs[i].line, SectionEnd(hs, i + 1, hs[i].heading.level, |lines|));
    forall k | s.start < k < s.end && read(lines[k]).Some? ensures read(lines[k]).value.level > hs[i].heading.level {
      assert Lists(hs, k);
      var m :| 0 <= m < |hs| && hs[m].line == k;
      assert m > i;
      if m > i + 1 {
        assert hs[i + 1].line < hs[m].line;
      }
    }
  }

  /** What the loop has done with the first i headings. */
  ghost predicate Captured(
    lines: seq<string>, read: Reader, needle: string, hs: seq<Found>, i: nat, until: nat, sections: seq<Section>)
  {
    && i <= |hs|
    && (forall s <- sections :: IsSection(lines, read, needle, s))
    && Ordered(sections)
    && until == (if sections == [] then 0 else sections[|sections| - 1].end)
    && (forall j | i <= j < |hs| && sections != [] :: sections[|sections| - 1].start < hs[j].line)
    && (forall j | 0 <= j < i && Matches(hs[j].heading, needle) :: Covered(sections, hs[j].line))
  }

  lemma {:induction false} CapturedSkip(
    lines: seq<string>, read: Reader, needle: string, hs: seq<Found>, i: nat, until: nat, sections: seq<Section>)
    requires Captured(lines, read, needle, hs, i, until, sections) && i < |hs|
    requires hs[i].line < until || !Matches(hs[i].heading, needle)
    ensures Captured(lines, read, needle, hs, i + 1, until, sections)
  {
    if hs[i].line < until {
      assert InSection(sections[|sections| - 1], hs[i].line);
      assert Covered(sections, hs[i].line);
    }
  }

  lemma {:induction false} CapturedTake(
    lines: seq<string>, read: Reader, needle: string, hs: seq<Found>, i: nat, until: nat, sections: seq<Section>)
    requires IsHeadingList(lines, read, 0, hs)
    requires Captured(lines, read, needle, hs, i, until, sections) && i < |hs|
    requires until <= hs[i].line && Matches(hs[i].heading, needle)
    ensures var end := SectionEnd(hs, i + 1, hs[i].heading.level, |lines|);
      Captured(lines, read, needle, hs, i + 1, end, sections + [Section(hs[i].line, end)])
  {
    IsSectionAt(lines, read, needle, hs, i);
    var s := Section(hs[i].line, SectionEnd(hs, i + 1, hs[i].heading.level, |lines|));
    var more := sections + [s];
    LastEndBounds(lines, read, needle, sections, until);
    assert Ordered(more);
    forall j | 0 <= j < i + 1 && Matches(hs[j].heading, needle) ensures Covered(more, hs[j].line) {
      if j == i {
        assert InSection(more[|sections|], hs[i].line);
      } else {
        assert Covered(sections, hs[j].line);
        var m :| 0 <= m < |sections| && InSection(sections[m], hs[j].line);
        assert InSection(more[m], hs[j].line);
      }
    }
  }

  lemma {:induction false} LastEndBounds(
    lines: seq<string>, read: Reader, needle: string, sections: seq<Section>, until: nat)
    requires forall s <- sections :: IsSection(lines, read, needle, s)
    requires Ordered(sections) && until == (if sections == [] then 0 else sections[|sections| - 1].end)
    ensures forall s <- sections :: s.end <= until
  {
    forall j | 0 <= j < |sections| ensures sections[j].end <= until {
      if j < |sections| - 1 {
        assert IsSection(lines, read, needle, sections[|sections| - 1]);
      }
    }
  }

  /** The sections from line `low` on: they start at matching headings and end where they should,
      do not overlap, and every matching heading lies in one of them. */
  ghost predicate IsCapture(lines: seq<string>, read: Reader, needle: string, low: nat, sections: seq<Section>) {
    && (forall s <- sections :: low <= s.start && IsSection(lines, read, needle, s))
    && Ordered(sections)
    && (forall k | low <= k && IsMatch(lines, read, needle, k) :: Covered(sections, k))
  }

  /** The loop of `filter_page_sections`. */
  method CaptureSections(lines: seq<string>, read: Reader, needle: string) returns (sections: seq<Section>)
    ensures IsCapture(lines, read, needle, 0, sections)
  {
    var hs := HeadingsFrom(lines, read, 0);
    HeadingsAreListed(lines, read, 0);
    sections := [];
    var capturedUntil := 0;
    for i := 0 to |hs|
      invariant Captured(lines, read, needle, hs, i, capturedUntil, sections)
    {
      if hs[i].line < capturedUntil || !Matches(hs[i].heading, needle) {
        CapturedSkip(lines, read, needle, hs, i, capturedUntil, sections);
        continue;
      }
      CapturedTake(lines, read, needle, hs, i, capturedUntil, sections);
      var end := SectionEnd(hs, i + 1, hs[i].heading.level, |lines|);
      capturedUntil := end;
      sections := sections + [Section(hs[i].line, end)];
    }
    forall k | IsMatch(lines, read, needle, k) ensures Covered(sections, k) {
      assert Lists(hs, k);
      var j :| 0 <= j < |hs| && hs[j].line == k;
    }
  }

  function SectionTexts(lines: seq<string>, sections: seq<Section>): seq<string>
    requires forall s <- sections :: s.start <= s.end <= |lines|
  {
    seq(|sections|, i requires 0 <= i < |sections| => Trim(Join(lines[sections[i].start..sections[i].end], "\n")))
  }

  /** `filter_page_sections`; without a matching heading it falls back on `filter_markdown_sections`. */
  method FilterPageSections(content: string, filter: string, fallback: (string, string) -> string)
    returns (out: string, sections: seq<Section>)
    ensures IsCapture(Lines(content), ParseMarkdownHeading, Lower(filter), 0, sections)
    ensures out ==
      if sections != [] then Join(SectionTexts(Lines(content), sections), "\n\n") else fallback(content, filter)
  {
    var lines := Lines(content);
    sections := CaptureSections(lines, ParseMarkdownHeading, Lower(filter));
    if sections != [] {
      return Join(SectionTexts(lines, sections), "\n\n"), sections;
    }
    out := fallback(content, filter);
  }

  // ---------------------------------------------------------------- the contract is exact

  /** A line lies in at most one section. */
  lemma {:induction false} InOneSection(sections: seq<Section>, i: nat, j: nat, k: nat)
    requires Ordered(sections) && i < |sections| && j < |sections|
    requires InSection(sections[i], k) && InSection(sections[j], k)
    ensures i == j
  {
  }

  lemma {:induction false} SameSection(lines: seq<string>, read: Reader, needle: string, s: Section, t: Section)
    requires IsSection(lines, read, needle, s) && IsSection(lines, read, needle, t) && s.start == t.start
    ensures s == t
  {
  }

  lemma {:induction false} FirstCaptured(
    lines: seq<string>, read: Reader, needle: string, low: nat, a: seq<Section>, b: seq<Section>)
    requires IsCapture(lines, read, needle, low, a) && IsCapture(lines, read, needle, low, b) && a != []
    ensures b != [] && b[0].start <= a[0].start
  {
    var k := a[0].start;
    assert IsSection(lines, read, needle, a[0]);
    assert IsMatch(lines, read, needle, k);
    assert Covered(b, k);
    var j :| 0 <= j < |b| && InSection(b[j], k);
    assert IsSection(lines, read, needle, b[0]);
    assert j > 0 ==> b[0].end <= b[j].start;
  }

  lemma {:induction false} TailCaptured(lines: seq<string>, read: Reader, needle: string, low: nat, a: seq<Section>)
    requires IsCapture(lines, read, needle, low, a) && a != []
    ensures IsCapture(lines, read, needle, a[0].end, a[1..])
  {
    forall k | a[0].end <= k && IsMatch(lines, read, needle, k) ensures Covered(a[1..], k) {
      assert IsSection(lines, read, needle, a[0]);
      assert Covered(a, k);
      var i :| 0 <= i < |a| && InSection(a[i], k);
      assert InSection(a[1..][i - 1], k);
    }
  }

  /** A page has only one such list of sections. */
  lemma {:induction false} CaptureIsUnique(
    lines: seq<string>, read: Reader, needle: string, low: nat, a: seq<Section>, b: seq<Section>)
    requires IsCapture(lines, read, needle, low, a) && IsCapture(lines, read, needle, low, b)
    ensures a == b
    decreases |a|
  {
    if a != [] {
      FirstCaptured(lines, read, needle, low, a, b);
      FirstCaptured(lines, read, needle, low, b, a);
      SameSection(lines, read, needle, a[0], b[0]);
      TailCaptured(lines, read, needle, low, a);
      TailCaptured(lines, read, needle, low, b);
      CaptureIsUnique(lines, read, needle, a[0].end, a[1..], b[1..]);
      assert a == [a[0]] + a[1..] && b == [b[0]] + b[1..];
    } else if b != [] {
      FirstCaptured(lines, read, needle, low, b, a);
    }
  }
}
