/**
 What a cookie is in the text that is pasted, and where in a `curl` command it is looked for.
*/
module CookieText {
  import opened Cookies
  import opened Option
  import opened Text

  // ---------------------------------------------------------------- one pair

  /** The piece is a name, an equals sign and a value, with white space around both; the name is not
      empty and ends at the first equals sign. */
  ghost predicate IsPair(piece: string, c: Cookie, a: string, b: string, x: string, y: string) {
    && piece == a + c.name + b + "=" + (x + c.value + y)
    && Blank(a) && Blank(b) && Blank(x) && Blank(y)
    && c.name != "" && Trimmed(c.name) && '=' !in c.name && Trimmed(c.value)
  }

  lemma {:induction false} TrimEndBehind(x: string, rest: string)
    requires x != "" && !IsWhitespace(x[|x| - 1])
    ensures TrimEnd(x + rest) == x + TrimEnd(rest)
  {
    if rest == "" {
      assert x + rest == x;
    } else if IsWhitespace(rest[|rest| - 1]) {
      assert (x + rest)[..|x + rest| - 1] == x + rest[..|rest| - 1];
      TrimEndBehind(x, rest[..|rest| - 1]);
    }
  }

  lemma {:induction false} ValueIsTrimmed(x: string, value: string, y: string)
    requires Blank(x) && Blank(y) && Trimmed(value)
    ensures Trim(TrimEnd(x + value + y)) == value
  {
    if value == "" {
      assert x + value + y == "" + (x + y);
      BlankAtEnd("", x + y);
    } else {
      BlankAtEnd(x + value, y);
      TrimOfParts(x, value, "");
      assert x + value + "" == x + value;
    }
  }

  lemma {:induction false} TrimmedPair(a: string, front: string, rest: string)
    requires Blank(a) && front != "" && !IsWhitespace(front[0]) && !IsWhitespace(front[|front| - 1])
    ensures Trim(a + front + rest) == front + TrimEnd(rest)
  {
    assert a + front + rest == a + (front + rest);
    BlankAtStart(a, front + rest);
    assert TrimStart(front + rest) == front + rest;
    TrimEndBehind(front, rest);
  }

  lemma {:induction false} FirstEquals(name: string, b: string, rest: string)
    requires '=' !in name && Blank(b)
    ensures Find(name + b + "=" + rest, "=", 0) == Some(|name + b|)
  {
    var s, n := name + b + "=" + rest, |name + b|;
    forall j | 0 <= j <= n ensures At(s, "=", j) <==> j == n {
      AtChar(s, '=', j);
      if j < n {
        assert s[j] == (name + b)[j] && (name + b)[j] in name + b;
      }
    }
    FindIs(s, "=", 0, n);
  }

  lemma {:induction false} PieceAtEquals(piece: string, name: string, value: string)
    requires Trim(piece) == name + "=" + value && Find(Trim(piece), "=", 0) == Some(|name|) && Trim(name) != ""
    ensures ParsePiece(piece) == [Cookie(Trim(name), Trim(value))]
  {
    var p := name + "=" + value;
    assert p[..|name|] == name && p[|name| + 1..] == value;
  }

  lemma {:induction false} PairIsRead(piece: string, c: Cookie, a: string, b: string, x: string, y: string)
    requires IsPair(piece, c, a, b, x, y)
    ensures ParsePiece(piece) == [c]
  {
    var name, rest := c.name + b, x + c.value + y;
    TrimmedFront(a, c.name, b, rest);
    assert piece == a + (name + "=") + rest;
    FirstEquals(c.name, b, TrimEnd(rest));
    TrimOfParts("", c.name, b);
    assert "" + c.name + b == name;
    PieceAtEquals(piece, name, TrimEnd(rest));
    ValueIsTrimmed(x, c.value, y);
  }

  lemma {:induction false} TrimmedFront(a: string, name: string, b: string, rest: string)
    requires Blank(a) && name != "" && Trimmed(name)
    ensures Trim(a + (name + b + "=") + rest) == name + b + "=" + TrimEnd(rest)
  {
    var front := name + b + "=";
    assert front[0] == name[0] && front[|front| - 1] == '=';
    TrimmedPair(a, front, rest);
  }

  lemma {:induction false} EqualsAt(p: string, eq: nat)
    requires Find(p, "=", 0) == Some(eq)
    ensures eq < |p| && p == p[..eq] + "=" + p[eq + 1..] && '=' !in p[..eq]
  {
    forall i ensures At(p, "=", i) <==> 0 <= i < |p| && p[i] == '=' {
      AtChar(p, '=', i);
    }
  }

  lemma {:induction false} ReadIsPair(piece: string, c: Cookie) returns (a: string, b: string, x: string, y: string)
    requires ParsePiece(piece) == [c]
    ensures IsPair(piece, c, a, b, x, y)
  {
    var p := Trim(piece);
    var lead, tail := TrimParts(piece);
    var eq := Find(p, "=", 0).value;
    var front, rest := p[..eq], p[eq + 1..];
    EqualsAt(p, eq);
    var a1, b1 := TrimParts(front);
    var x1, y1 := TrimParts(rest);
    TrimIsTrimmed(front);
    TrimIsTrimmed(rest);
    assert forall x <- c.name :: x in front;
    a, b, x, y := lead + a1, b1, x1, y1 + tail;
    PairRegroup(lead, a1, c.name, b1, x1, c.value, y1, tail);
  }

  lemma {:induction false} PairRegroup(
    lead: string, a: string, name: string, b: string, x: string, value: string, y: string, tail: string)
    ensures lead + (a + name + b + "=" + (x + value + y)) + tail
         == lead + a + name + b + "=" + (x + value + (y + tail))
  {
  }

  /** Which pieces between the semicolons are cookies, and which cookie each is. */
  lemma {:induction false} PieceIff(piece: string, c: Cookie)
    ensures ParsePiece(piece) == [c] <==> exists a, b, x, y :: IsPair(piece, c, a, b, x, y)
    ensures |ParsePiece(piece)| <= 1
  {
    forall a, b, x, y | IsPair(piece, c, a, b, x, y) ensures ParsePiece(piece) == [c] {
      PairIsRead(piece, c, a, b, x, y);
    }
    if ParsePiece(piece) == [c] {
      var a, b, x, y := ReadIsPair(piece, c);
    }
  }

  /** White space between arguments is ASCII white space: the vertical tab is not part of it. */
  lemma {:induction false} SpaceIff(c: char)
    ensures IsSpace(c) <==> IsWhitespace(c) && c as int < 128 && c as int != 11
  {
  }

  // ---------------------------------------------------------------- where a cookie header is looked for

  /** The argument is the named header, whatever the case, and this is its value. */
  ghost predicate IsHeader(argument: string, name: string, value: string) {
    exists lead, tail ::
      && argument[if |name| < |argument| then |name| + 1 else |argument|..] == lead + value + tail
      && Blank(lead) && Blank(tail) && Trimmed(value)
      && |name| < |argument| && argument[|name|] == ':'
      && forall i | 0 <= i < |name| :: LowerChar(argument[i]) == LowerChar(name[i])
  }

  lemma {:induction false} StartsWithName(argument: string, name: string)
    ensures Lower(name) + ":" <= Lower(argument) <==>
      && |name| < |argument| && argument[|name|] == ':'
      && forall i | 0 <= i < |name| :: LowerChar(argument[i]) == LowerChar(name[i])
  {
    var p, l := Lower(name) + ":", Lower(argument);
    if |name| < |argument| {
      assert forall i | 0 <= i < |name| :: p[i] == LowerChar(name[i]) && l[i] == LowerChar(argument[i]);
      assert p[|name|] == ':' && l[|name|] == LowerChar(argument[|name|]);
      assert p <= l <==> forall i | 0 <= i < |p| :: p[i] == l[i];
    }
  }

  /** A `-H` argument is read as the value of the header it names, any other not at all. */
  lemma {:induction false} HeaderIff(argument: string, name: string, value: string)
    ensures ReaderFor(Some(name))(argument) == Some(value) <==> IsHeader(argument, name, value)
  {
    StartsWithName(argument, name);
    if |name| < |argument| {
      var behind := argument[|name| + 1..];
      var lead, tail := TrimParts(behind);
      TrimIsTrimmed(behind);
      forall other, a, b | behind == a + other + b && Blank(a) && Blank(b) && Trimmed(other)
        ensures other == Trim(behind)
      {
        TrimOfParts(a, other, b);
      }
    }
  }

  /** The scan for a flag finds this value. */
  ghost predicate Gives(h: string, flag: string, header: Option<string>, value: string) {
    exists passes, at: nat :: FindsAfter(h, flag, ReaderFor(header), 0, passes, at, value)
  }

  ghost predicate GivesNothing(h: string, flag: string, header: Option<string>) {
    exists passes, at: nat :: GivesUpAfter(h, flag, ReaderFor(header), 0, passes, at)
  }

  /** The Cookie header comes before `-b`, and `-b` before `--cookie`, wherever they stand. */
  lemma {:induction false} SourceIff(curl: string, value: string)
    ensures var h := JoinLines(curl);
      ExtractHeader(curl) == Some(value) <==>
      || Gives(h, "-H", Some("cookie"), value)
      || (GivesNothing(h, "-H", Some("cookie")) && Gives(h, "-b", None, value))
      || (GivesNothing(h, "-H", Some("cookie")) && GivesNothing(h, "-b", None) && Gives(h, "--cookie", None, value))
  {
    var h := JoinLines(curl);
    FoundIff(h, "-H", ReaderFor(Some("cookie")), 0, value);
    NothingIff(h, "-H", ReaderFor(Some("cookie")), 0);
    FoundIff(h, "-b", ReaderFor(None), 0, value);
    NothingIff(h, "-b", ReaderFor(None), 0);
    FoundIff(h, "--cookie", ReaderFor(None), 0, value);
  }

  // ---------------------------------------------------------------- what is pasted

  predicate IsCurl(text: string) {
    && |text| >= 5 && LowerChar(text[0]) == 'c' && LowerChar(text[1]) == 'u'
    && LowerChar(text[2]) == 'r' && LowerChar(text[3]) == 'l'
    && (IsWhitespace(text[4]) || text[4] == '\'' || text[4] == '"')
  }

  /** White space around the text does not matter. Text that starts with a bracket is JSON; a command
      must hold a cookie header; anything else is one. */
  lemma {:induction false} PastedText(lead: string, text: string, tail: string)
    requires Blank(lead) && Blank(tail) && Trimmed(text)
    ensures ParseCurlCookies(lead + text + tail)
         == if text == "" then EmptyInput
            else if text[0] == '[' then JsonInput
            else if !IsCurl(text) then ParseHeader(text)
            else if ExtractHeader(text).Some? then ParseHeader(ExtractHeader(text).value)
            else NoCookieHeader
  {
    TrimOfParts(lead, text, tail);
    if |text| > 4 {
      var head := Lower(text[..4]);
      assert head == "curl" <==> head[0] == 'c' && head[1] == 'u' && head[2] == 'r' && head[3] == 'l';
      assert LooksLikeCurl(text) <==> IsCurl(text);
    }
  }
}
