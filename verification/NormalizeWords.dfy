/**
 `normalize_markdownish` changes white space only: the words of the text and their order are kept.
*/
module NormalizeWords {
  import opened Normalize
  import opened Option
  import opened Text

  function AllWords(lines: seq<string>): seq<string> {
    if lines == [] then [] else Words(lines[0]) + AllWords(lines[1..])
  }

  // ---------------------------------------------------------------- words across white space

  lemma {:induction false} WordOfEnds(s: string)
    ensures s[|WordOf(s)|..] == "" || IsWhitespace(s[|WordOf(s)|])
  {
    if s != "" && !IsWhitespace(s[0]) {
      WordOfEnds(s[1..]);
      assert s[1..][|WordOf(s[1..])|..] == s[|WordOf(s)|..];
    }
  }

  /** White space separates words. */
  lemma {:induction false} WordsAcross(a: string, c: char, b: string)
    requires IsWhitespace(c)
    ensures Words(a + [c] + b) == Words(a) + Words(b)
    decreases |a|
  {
    if a == "" {
      assert a + [c] + b == [c] + b;
      WordsSkip(c, b);
    } else if IsWhitespace(a[0]) {
      WordsSkip(a[0], a[1..]);
      WordsSkip(a[0], a[1..] + [c] + b);
      assert a == [a[0]] + a[1..] && a + [c] + b == [a[0]] + (a[1..] + [c] + b);
      WordsAcross(a[1..], c, b);
    } else {
      var w := WordOf(a);
      var rest := a[|w|..];
      WordOfEnds(a);
      assert a == w + rest && a + [c] + b == w + (rest + [c] + b);
      WordsOfMore(w, rest);
      WordsOfMore(w, rest + [c] + b);
      WordsAcross(rest, c, b);
      Regroup([w], Words(rest), Words(b));
    }
  }

  lemma {:induction false} WordsDropLast(s: string)
    requires s != "" && IsWhitespace(s[|s| - 1])
    ensures Words(s[..|s| - 1]) == Words(s)
  {
    WordsAcross(s[..|s| - 1], s[|s| - 1], "");
    assert s == s[..|s| - 1] + [s[|s| - 1]] + "";
    assert Words("") == [];
  }

  lemma {:induction false} WordsOfTrimEnd(s: string)
    ensures Words(TrimEnd(s)) == Words(s)
  {
    if s != "" && IsWhitespace(s[|s| - 1]) {
      WordsDropLast(s);
      WordsOfTrimEnd(s[..|s| - 1]);
    }
  }

  lemma {:induction false} WordsOfTrimStart(s: string)
    ensures Words(TrimStart(s)) == Words(s)
  {
    if s != "" && IsWhitespace(s[0]) {
      WordsSkip(s[0], s[1..]);
      assert s == [s[0]] + s[1..];
      WordsOfTrimStart(s[1..]);
    }
  }

  // ---------------------------------------------------------------- lines

  lemma {:induction false} WordsOfChopCr(s: string)
    ensures Words(ChopCr(s)) == Words(s)
  {
    if ChopCr(s) != s {
      WordsDropLast(s);
    }
  }

  lemma {:induction false} WordsOfLine(line: string, rest: string)
    ensures Words(ChopCr(line)) + Words(rest) == Words(line + ['\n'] + rest)
  {
    WordsOfChopCr(line);
    WordsAcross(line, '\n', rest);
  }

  lemma {:induction false} WordsOfFirstLine(s: string, k: nat)
    requires At(s, "\n", k)
    ensures Words(ChopCr(s[..k])) + Words(s[k + 1..]) == Words(s)
  {
    AtIndex(s, "\n", k, 0);
    assert s == s[..k] + ['\n'] + s[k + 1..];
    WordsOfLine(s[..k], s[k + 1..]);
  }

  lemma {:induction false} WordsOfLines(s: string)
    ensures AllWords(Lines(s)) == Words(s)
    decreases |s|
  {
    if s == "" {
      assert Words("") == [];
    } else {
      match Find(s, "\n", 0)
      case None =>
        assert Lines(s) == [s] && [s][1..] == [];
      case Some(k) =>
        WordsOfLines(s[k + 1..]);
        WordsOfFirstLine(s, k);
        var head, rest := ChopCr(s[..k]), Lines(s[k + 1..]);
        assert Lines(s) == [head] + rest && ([head] + rest)[1..] == rest;
    }
  }

  lemma {:induction false} WordsOfJoinedLines(lines: seq<string>)
    ensures Words(Join(lines, "\n")) == AllWords(lines)
  {
    if lines == [] {
    } else if |lines| == 1 {
      assert lines[1..] == [];
    } else {
      WordsOfJoinedLines(lines[1..]);
      WordsAcross(lines[0], '\n', Join(lines[1..], "\n"));
      assert Join(lines, "\n") == lines[0] + ['\n'] + Join(lines[1..], "\n");
    }
  }

  lemma {:induction false} AllWordsSnoc(lines: seq<string>, line: string)
    ensures AllWords(lines + [line]) == AllWords(lines) + Words(line)
  {
    if lines == [] {
      assert ([line])[1..] == [] && [] + [line] == [line];
    } else {
      assert (lines + [line])[1..] == lines[1..] + [line];
      AllWordsSnoc(lines[1..], line);
      Regroup(Words(lines[0]), AllWords(lines[1..]), Words(line));
    }
  }

  // ---------------------------------------------------------------- the loop

  lemma {:induction false} WordsOfClean(raw: string, inFence: bool)
    ensures Words(Clean(raw, inFence)) == Words(raw)
  {
    if inFence {
      WordsOfTrimEnd(raw);
    } else {
      WordsOfJoin(Words(raw));
    }
  }

  lemma {:induction false} BlankHasNoWords(line: string)
    requires IsBlank(line)
    ensures Words(line) == []
  {
    WordsOfTrimStart(line);
    WordsOfTrimEnd(TrimStart(line));
    assert Words("") == [];
  }

  /** One turn of the loop adds the words of its line. */
  predicate AddsWords(r: Rules, st: State, raw: string) {
    AllWords(Step(r, st, raw).lines) == AllWords(st.lines) + Words(raw)
  }

  ghost predicate KeepsWords(r: Rules) {
    forall st, raw :: AddsWords(r, st, raw)
  }

  lemma {:induction false} TurnAddsWords(st: State, raw: string)
    ensures AddsWords(ProgramRules(), st, raw)
  {
    var line := Clean(raw, st.inFence);
    WordsOfClean(raw, st.inFence);
    if IsBlank(line) {
      BlankHasNoWords(line);
      AllWordsSnoc(st.lines, "");
      assert Words("") == [];
    } else {
      AllWordsSnoc(st.lines, line);
    }
  }

  lemma {:induction false} RunKeepsWords(r: Rules, raws: seq<string>)
    requires KeepsWords(r)
    ensures AllWords(Run(r, raws).lines) == AllWords(raws)
  {
    if raws != [] {
      var front, last := raws[..|raws| - 1], raws[|raws| - 1];
      RunKeepsWords(r, front);
      assert AddsWords(r, Run(r, front), last);
      AllWordsSnoc(front, last);
      assert raws == front + [last];
    }
  }

  /** The output has the words of the input, in order. */
  lemma {:induction false} NormalizeKeepsWords(input: string)
    ensures Words(Normalized(input)) == Words(input)
  {
    var text := Join(Run(ProgramRules(), Lines(input)).lines, "\n");
    WordsOfTrimStart(text);
    WordsOfTrimEnd(TrimStart(text));
    WordsOfJoinedLines(Run(ProgramRules(), Lines(input)).lines);
    forall st, raw ensures AddsWords(ProgramRules(), st, raw) {
      TurnAddsWords(st, raw);
    }
    RunKeepsWords(ProgramRules(), Lines(input));
    WordsOfLines(input);
  }
}
