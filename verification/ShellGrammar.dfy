/**
 What every command line means to `shell_words_split`: a line is a list of tokens, and no other
 reading is possible.
*/
module ShellGrammar {
  import ShellWords
  import opened Text

  /** A character as it is or behind a backslash. */
  datatype Unit = Bare(c: char) | Escaped(c: char)

  /** A character outside quotes, a part in quotes, or a space between two words. */
  datatype Token = One(u: Unit) | InDouble(units: seq<Unit>) | InSingle(text: string) | Gap

  /** What may stand at the very end: nothing, a quote that is never closed, or a lone backslash. */
  datatype End = Complete | Backslash | OpenDouble(units: seq<Unit>, backslash: bool) | OpenSingle(text: string)

  // ---------------------------------------------------------------- how it is written

  predicate UnitOk(u: Unit, inDouble: bool) {
    u.Bare? ==> u.c != '\\' && u.c != '"' && (!inDouble ==> u.c != '\'' && u.c != ' ')
  }

  predicate UnitsOk(units: seq<Unit>) {
    forall u <- units :: UnitOk(u, true)
  }

  predicate TokenOk(t: Token) {
    match t
    case One(u) => UnitOk(u, false)
    case InDouble(units) => UnitsOk(units)
    case InSingle(text) => '\'' !in text
    case Gap => true
  }

  predicate EndOk(e: End) {
    match e
    case OpenDouble(units, _) => UnitsOk(units)
    case OpenSingle(text) => '\'' !in text
    case _ => true
  }

  function UnitText(u: Unit): string {
    match u
    case Bare(c) => [c]
    case Escaped(c) => ['\\', c]
  }

  function UnitsText(units: seq<Unit>): string {
    if units == [] then "" else UnitText(units[0]) + UnitsText(units[1..])
  }

  function TokenText(t: Token): string {
    match t
    case One(u) => UnitText(u)
    case InDouble(units) => "\"" + UnitsText(units) + "\""
    case InSingle(text) => "'" + text + "'"
    case Gap => " "
  }

  function EndText(e: End): string {
    match e
    case Complete => ""
    case Backslash => "\\"
    case OpenDouble(units, backslash) => "\"" + UnitsText(units) + (if backslash then "\\" else "")
    case OpenSingle(text) => "'" + text
  }

  function LineText(tokens: seq<Token>, e: End): string {
    if tokens == [] then EndText(e) else TokenText(tokens[0]) + LineText(tokens[1..], e)
  }

  // ---------------------------------------------------------------- what it means

  function Meant(units: seq<Unit>): (r: string)
    ensures |r| == |units| && forall i | 0 <= i < |units| :: r[i] == units[i].c
  {
    seq(|units|, i requires 0 <= i < |units| => units[i].c)
  }

  function EndMeant(e: End): string {
    match e
    case OpenDouble(units, _) => Meant(units)
    case OpenSingle(text) => text
    case _ => ""
  }

  /** The words: what stands between two gaps is one word, without its quotes and backslashes; a word
      of no characters is none. */
  function WordsOf(tokens: seq<Token>, e: End, word: string): seq<string> {
    if tokens == [] then (if word + EndMeant(e) == "" then [] else [word + EndMeant(e)])
    else
      match tokens[0]
      case One(u) => WordsOf(tokens[1..], e, word + [u.c])
      case InDouble(units) => WordsOf(tokens[1..], e, word + Meant(units))
      case InSingle(text) => WordsOf(tokens[1..], e, word + text)
      case Gap => (if word == "" then [] else [word]) + WordsOf(tokens[1..], e, "")
  }

  predicate IsLine(tokens: seq<Token>, e: End) {
    (forall t <- tokens :: TokenOk(t)) && EndOk(e)
  }

  // ---------------------------------------------------------------- the split follows

  lemma {:induction false} SplitUnit(u: Unit, rest: string, word: string, inDouble: bool)
    requires UnitOk(u, inDouble)
    ensures ShellWords.Split(UnitText(u) + rest, word, inDouble, false)
         == ShellWords.Split(rest, word + [u.c], inDouble, false)
  {
    var s := UnitText(u) + rest;
    if u.Escaped? {
      assert s[0] == '\\' && s[1..] == [u.c] + rest && s[1..][1..] == rest;
    } else {
      assert s[0] == u.c && s[1..] == rest;
    }
  }

  lemma {:induction false} SplitUnits(units: seq<Unit>, rest: string, word: string)
    requires UnitsOk(units)
    ensures ShellWords.Split(UnitsText(units) + rest, word, true, false)
         == ShellWords.Split(rest, word + Meant(units), true, false)
  {
    if units == [] {
      assert UnitsText(units) + rest == rest && word + Meant(units) == word;
    } else {
      var tail := UnitsText(units[1..]);
      assert units[0] in units;
      Regroup(UnitText(units[0]), tail, rest);
      SplitUnit(units[0], tail + rest, word, true);
      SplitUnits(units[1..], rest, word + [units[0].c]);
      assert word + [units[0].c] + Meant(units[1..]) == word + Meant(units);
    }
  }

  lemma {:induction false} SplitText(text: string, rest: string, word: string)
    requires '\'' !in text
    ensures ShellWords.Split(text + rest, word, false, true) == ShellWords.Split(rest, word + text, false, true)
  {
    if text == "" {
      assert text + rest == rest && word + text == word;
    } else {
      var s := text + rest;
      assert s[0] == text[0] && s[1..] == text[1..] + rest;
      SplitText(text[1..], rest, word + [text[0]]);
      assert word + [text[0]] + text[1..] == word + text;
    }
  }

  lemma {:induction false} SplitQuote(quote: char, rest: string, word: string, inDouble: bool, inSingle: bool)
    requires quote == '"' ==> !inSingle
    requires quote == '\'' ==> !inDouble
    requires quote == '"' || quote == '\''
    ensures ShellWords.Split([quote] + rest, word, inDouble, inSingle)
         == if quote == '"' then ShellWords.Split(rest, word, !inDouble, inSingle)
            else ShellWords.Split(rest, word, inDouble, !inSingle)
  {
    assert ([quote] + rest)[1..] == rest;
  }

  lemma {:induction false} SplitDouble(units: seq<Unit>, rest: string, word: string)
    requires UnitsOk(units)
    ensures ShellWords.Split("\"" + UnitsText(units) + "\"" + rest, word, false, false)
         == ShellWords.Split(rest, word + Meant(units), false, false)
  {
    var inner := UnitsText(units) + ("\"" + rest);
    assert "\"" + UnitsText(units) + "\"" + rest == "\"" + inner;
    SplitQuote('"', inner, word, false, false);
    SplitUnits(units, "\"" + rest, word);
    SplitQuote('"', rest, word + Meant(units), true, false);
  }

  lemma {:induction false} SplitSingle(text: string, rest: string, word: string)
    requires '\'' !in text
    ensures ShellWords.Split("'" + text + "'" + rest, word, false, false)
         == ShellWords.Split(rest, word + text, false, false)
  {
    var inner := text + ("'" + rest);
    assert "'" + text + "'" + rest == "'" + inner;
    SplitQuote('\'', inner, word, false, false);
    SplitText(text, "'" + rest, word);
    SplitQuote('\'', rest, word + text, false, true);
  }

  lemma {:induction false} SplitGap(rest: string, word: string)
    ensures ShellWords.Split(" " + rest, word, false, false)
         == ShellWords.Flush(word) + ShellWords.Split(rest, "", false, false)
  {
    assert (" " + rest)[1..] == rest;
  }

  lemma {:induction false} SplitEnd(e: End, word: string)
    requires EndOk(e)
    ensures ShellWords.Split(EndText(e), word, false, false) == ShellWords.Flush(word + EndMeant(e))
  {
    match e
    case Complete => assert word + "" == word;
    case Backslash => assert word + "" == word;
    case OpenDouble(units, backslash) =>
      var tail := if backslash then "\\" else "";
      Regroup("\"", UnitsText(units), tail);
      SplitQuote('"', UnitsText(units) + tail, word, false, false);
      SplitUnits(units, tail, word);
    case OpenSingle(text) =>
      SplitQuote('\'', text, word, false, false);
      SplitText(text, "", word);
      assert text + "" == text;
  }

  /** The words of a line are those of its tokens. */
  lemma {:induction false} SplitIs(tokens: seq<Token>, e: End, word: string)
    requires IsLine(tokens, e)
    ensures ShellWords.Split(LineText(tokens, e), word, false, false) == WordsOf(tokens, e, word)
  {
    if tokens == [] {
      SplitEnd(e, word);
    } else {
      var t, rest := tokens[0], LineText(tokens[1..], e);
      assert t in tokens && forall x <- tokens[1..] :: x in tokens;
      match t {
        case One(u) =>
          SplitUnit(u, rest, word, false);
          SplitIs(tokens[1..], e, word + [u.c]);
        case InDouble(units) =>
          SplitDouble(units, rest, word);
          SplitIs(tokens[1..], e, word + Meant(units));
        case InSingle(text) =>
          SplitSingle(text, rest, word);
          SplitIs(tokens[1..], e, word + text);
        case Gap =>
          SplitGap(rest, word);
          SplitIs(tokens[1..], e, "");
      }
    }
  }

  // ---------------------------------------------------------------- every text is such a line

  /** The units in front of the closing quote, or up to the end of the text. */
  lemma {:induction false} UnitsOf(s: string) returns (units: seq<Unit>, rest: string, backslash: bool)
    ensures UnitsOk(units) && s == UnitsText(units) + rest
    ensures rest == "" || rest[0] == '"' || rest == "\\"
    ensures backslash <==> rest == "\\"
    decreases |s|
  {
    if s == "" || s[0] == '"' || s == "\\" {
      units, rest, backslash := [], s, s == "\\";
      assert s == "" + s;
    } else {
      var u := if s[0] == '\\' then Escaped(s[1]) else Bare(s[0]);
      var behind := s[|UnitText(u)|..];
      assert s == UnitText(u) + behind;
      var more;
      more, rest, backslash := UnitsOf(behind);
      units := [u] + more;
      assert units[1..] == more;
      Regroup(UnitText(u), UnitsText(more), rest);
    }
  }

  lemma {:induction false} TextOf(s: string) returns (text: string, rest: string)
    ensures s == text + rest && '\'' !in text && (rest == "" || rest[0] == '\'')
  {
    forall k ensures At(s, "'", k) <==> 0 <= k < |s| && s[k] == '\'' {
      AtChar(s, '\'', k);
    }
    match Find(s, "'", 0)
    case None => text, rest := s, "";
    case Some(k) => text, rest := s[..k], s[k..];
  }

  lemma {:induction false} ConsLine(t: Token, tokens: seq<Token>, e: End)
    requires TokenOk(t) && IsLine(tokens, e)
    ensures IsLine([t] + tokens, e) && LineText([t] + tokens, e) == TokenText(t) + LineText(tokens, e)
  {
    assert ([t] + tokens)[1..] == tokens;
  }

  /** Every text is a line of tokens, so its words are known. */
  lemma {:induction false} EveryLineReads(s: string) returns (tokens: seq<Token>, e: End)
    ensures IsLine(tokens, e) && s == LineText(tokens, e)
    ensures ShellWords.Split(s, "", false, false) == WordsOf(tokens, e, "")
  {
    tokens, e := TokensOf(s);
    SplitIs(tokens, e, "");
  }

  /** A part in quotes at the start of the text, closed or not. */
  lemma {:induction false} DoubleStart(s: string)
    returns (units: seq<Unit>, closed: bool, backslash: bool, rest: string)
    requires s != "" && s[0] == '"'
    ensures UnitsOk(units) && |rest| < |s|
    ensures s == if closed then TokenText(InDouble(units)) + rest else EndText(OpenDouble(units, backslash))
  {
    var behind;
    units, behind, backslash := UnitsOf(s[1..]);
    closed := behind != "" && !backslash;
    rest := if closed then behind[1..] else "";
    assert s == "\"" + (UnitsText(units) + behind);
    Regroup("\"", UnitsText(units), behind);
    if closed {
      assert behind == "\"" + rest;
      Regroup("\"" + UnitsText(units), "\"", rest);
    }
  }

  lemma {:induction false} SingleStart(s: string) returns (text: string, closed: bool, rest: string)
    requires s != "" && s[0] == '\''
    ensures '\'' !in text && |rest| < |s|
    ensures s == if closed then TokenText(InSingle(text)) + rest else EndText(OpenSingle(text))
  {
    var behind;
    text, behind := TextOf(s[1..]);
    closed := behind != "";
    rest := if closed then behind[1..] else "";
    assert s == "'" + (text + behind);
    Regroup("'", text, behind);
    if closed {
      assert behind == "'" + rest;
      Regroup("'" + text, "'", rest);
    }
  }

  lemma {:induction false} PlainStart(s: string) returns (t: Token, rest: string)
    requires s != "" && s != "\\" && s[0] != '"' && s[0] != '\''
    ensures TokenOk(t) && s == TokenText(t) + rest && |rest| < |s|
  {
    if s[0] == ' ' {
      t, rest := Gap, s[1..];
    } else {
      t := One(if s[0] == '\\' then Escaped(s[1]) else Bare(s[0]));
      rest := s[|TokenText(t)|..];
    }
  }

  lemma {:induction false} TokensOf(s: string) returns (tokens: seq<Token>, e: End)
    ensures IsLine(tokens, e) && s == LineText(tokens, e)
    decreases |s|
  {
    var t: Token, rest: string := Gap, "";
    if s == "" || s == "\\" {
      return [], if s == "" then Complete else Backslash;
    } else if s[0] == '"' {
      var units, closed, backslash;
      units, closed, backslash, rest := DoubleStart(s);
      if !closed {
        return [], OpenDouble(units, backslash);
      }
      t := InDouble(units);
    } else if s[0] == '\'' {
      var text, closed;
      text, closed, rest := SingleStart(s);
      if !closed {
        return [], OpenSingle(text);
      }
      t := InSingle(text);
    } else {
      t, rest := PlainStart(s);
    }
    var more;
    more, e := TokensOf(rest);
    ConsLine(t, more, e);
    tokens := [t] + more;
  }
}
