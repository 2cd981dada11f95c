/**
 What the reader takes for Markdown, plain text and pages, stated on the text of a content type.
*/
module ContentTypes {
  import opened ReadTargets
  import opened Text

  /** A content type is white space, its name, white space, and parameters behind a semicolon. */
  ghost predicate IsNamed(contentType: string, lead: string, name: string, tail: string, rest: string) {
    && contentType == lead + name + tail + rest
    && Blank(lead) && Blank(tail) && Trimmed(name) && ';' !in name
    && (rest == "" || rest[0] == ';')
  }

  ghost predicate HasName(contentType: string, name: string) {
    exists lead, tail, rest :: IsNamed(contentType, lead, name, tail, rest)
  }

  /** Names are compared without case. */
  ghost predicate IsType(contentType: string, lower: string) {
    exists name :: HasName(contentType, name) && Lower(name) == lower
  }

  ghost predicate IsPage(contentType: string) {
    IsType(contentType, "text/html") || IsType(contentType, "application/xhtml+xml")
  }

  ghost predicate IsSomeMarkdown(contentType: string) {
    || IsType(contentType, "text/markdown") || IsType(contentType, "text/x-markdown")
    || IsType(contentType, "application/markdown")
  }

  lemma {:induction false} FrontOf(contentType: string) returns (front: string, rest: string)
    ensures contentType == front + rest && front == SplitOn(contentType, ';')[0]
    ensures ';' !in front && (rest == "" || rest[0] == ';')
  {
    forall k ensures At(contentType, ";", k) <==> 0 <= k < |contentType| && contentType[k] == ';' {
      AtChar(contentType, ';', k);
    }
    front := SplitOn(contentType, ';')[0];
    rest := contentType[|front|..];
  }

  lemma {:induction false} NameIsThere(contentType: string)
    ensures HasName(contentType, Trim(SplitOn(contentType, ';')[0]))
  {
    var front, rest := FrontOf(contentType);
    var lead, tail := TrimParts(front);
    TrimIsTrimmed(front);
    assert forall c <- Trim(front) :: c in front;
    assert IsNamed(contentType, lead, Trim(front), tail, rest);
  }

  lemma {:induction false} NameIsTrimmed(contentType: string, lead: string, name: string, tail: string, rest: string)
    requires IsNamed(contentType, lead, name, tail, rest)
    ensures Trim(SplitOn(contentType, ';')[0]) == name
  {
    var front := lead + name + tail;
    assert ';' !in front;
    TrimOfParts(lead, name, tail);
    if rest == "" {
      assert contentType == front;
      SplitOnLast(front, ';');
    } else {
      assert contentType == front + [';'] + rest[1..];
      SplitOnCons(front, ';', rest[1..]);
    }
  }

  /** The name that the program cuts out of a content type is its only name. */
  lemma {:induction false} NameIff(contentType: string, name: string)
    ensures HasName(contentType, name) <==> name == Trim(SplitOn(contentType, ';')[0])
  {
    NameIsThere(contentType);
    forall lead, tail, rest | IsNamed(contentType, lead, name, tail, rest)
      ensures name == Trim(SplitOn(contentType, ';')[0])
    {
      NameIsTrimmed(contentType, lead, name, tail, rest);
    }
  }

  lemma {:induction false} BaseIff(contentType: string, lower: string)
    ensures ContentTypeBase(contentType) == lower <==> IsType(contentType, lower)
  {
    var name := Trim(SplitOn(contentType, ';')[0]);
    NameIff(contentType, name);
    forall other | HasName(contentType, other) ensures other == name {
      NameIff(contentType, other);
    }
  }

  /** What counts as Markdown, as plain text and as a page. */
  lemma {:induction false} KindsAre(contentType: string)
    ensures IsMarkdown(contentType) <==> IsType(contentType, "text/markdown")
    ensures IsMarkdownLike(contentType) <==> IsSomeMarkdown(contentType)
    ensures IsPlainText(contentType) <==> IsType(contentType, "text/plain")
    ensures IsHtml(contentType) <==> IsPage(contentType)
  {
    BaseIff(contentType, "text/markdown");
    BaseIff(contentType, "text/x-markdown");
    BaseIff(contentType, "application/markdown");
    BaseIff(contentType, "text/plain");
    BaseIff(contentType, "text/html");
    BaseIff(contentType, "application/xhtml+xml");
  }
}
