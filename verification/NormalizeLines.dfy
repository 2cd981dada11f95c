/**
 What `normalize_markdownish` makes of each line, told without the loop: which lines of the text
 are kept, and as what.
*/
module NormalizeLines {
  import opened Normalize
  import NormalizeWords
  import opened Text

  predicate IsEmptyLine(raw: string) {
    Trim(raw) == ""
  }

  predicate IsMarker(raw: string) {
    Trim(raw) == "```"
  }

  /** An odd number of fence markers stands in front of line i. */
  predicate Inside(raws: seq<string>, i: nat)
    requires i <= |raws|
  {
    i > 0 && Inside(raws, i - 1) != IsMarker(raws[i - 1])
  }

  /** Line i is not empty, or it is the first empty line behind another one. */
  predicate IsKept(raws: seq<string>, i: nat) {
    i < |raws| && (IsEmptyLine(raws[i]) ==> i > 0 && !IsEmptyLine(raws[i - 1]))
  }

  /** Text follows, on line i or behind it. */
  ghost predicate TextFollows(raws: seq<string>, i: nat) {
    exists j | i <= j < |raws| :: !IsEmptyLine(raws[j])
  }

  /** A line inside a fence stays as it is, but for white space at its end; outside, its words are
      joined by single spaces. */
  predicate KeptAs(raws: seq<string>, i: nat, line: string) {
    && i < |raws|
    && line == if IsEmptyLine(raws[i]) then "" else if Inside(raws, i) then TrimEnd(raws[i])
               else Join(Words(raws[i]), " ")
  }

  ghost predicate AllKeptAs(raws: seq<string>, lines: seq<string>, at: seq<nat>) {
    |at| == |lines| && forall m | 0 <= m < |at| :: KeptAs(raws, at[m], lines[m])
  }

  // ---------------------------------------------------------------- lines and their words

  lemma {:induction false} NoWordsIsBlank(s: string)
    requires Words(s) == []
    ensures TrimStart(s) == "" && Blank(s)
  {
    TrimStartIsSuffix(s);
    assert s[..|s|] == s;
  }

  lemma {:induction false} BlankBehind(s: string, rest: string)
    requires rest != "" && Blank(rest)
    ensures !Trimmed(s + rest)
  {
    assert (s + rest)[|s + rest| - 1] == rest[|rest| - 1] && rest[|rest| - 1] in rest;
  }

  /** A text trims to one word exactly when that is its only word. */
  lemma {:induction false} TrimIsWord(s: string, w: string)
    requires IsWord(w)
    ensures Trim(s) == w <==> Words(s) == [w]
  {
    NormalizeWords.WordsOfTrimStart(s);
    NormalizeWords.WordsOfTrimEnd(TrimStart(s));
    var t := Trim(s);
    TrimIsTrimmed(s);
    WordsOfMore(w, "");
    assert w + "" == w && Words("") == [];
    if Words(t) == [w] {
      OnlyWord(t, w);
    }
  }

  lemma {:induction false} OnlyWord(t: string, w: string)
    requires Trimmed(t) && IsWord(w) && Words(t) == [w]
    ensures t == w
  {
    TrimOfTrimmed(t);
    assert WordOf(t) == Words(t)[0] == w;
    var rest := t[|w|..];
    assert Words(rest) == Words(t)[1..];
    assert t == w + rest;
    NoWordsIsBlank(rest);
    if rest != "" {
      BlankBehind(w, rest);
    }
  }

  lemma {:induction false} TrimIsNothing(s: string)
    ensures Trim(s) == "" <==> Words(s) == []
  {
    NormalizeWords.WordsOfTrimStart(s);
    NormalizeWords.WordsOfTrimEnd(TrimStart(s));
    assert Words("") == [];
    if Words(s) == [] {
      NoWordsIsBlank(s);
    }
  }

  /** Cleaning a line neither makes nor hides a marker or an empty line. */
  lemma {:induction false} CleanKeepsKind(raw: string, inFence: bool)
    ensures IsBlank(Clean(raw, inFence)) <==> IsEmptyLine(raw)
    ensures IsFence(Clean(raw, inFence)) <==> IsMarker(raw)
  {
    NormalizeWords.WordsOfClean(raw, inFence);
    TrimIsNothing(raw);
    TrimIsNothing(Clean(raw, inFence));
    assert IsWord("```");
    TrimIsWord(raw, "```");
    TrimIsWord(Clean(raw, inFence), "```");
  }

  // ---------------------------------------------------------------- the loop

  lemma {:induction false} InsideOfPrefix(raws: seq<string>, front: seq<string>, i: nat)
    requires front <= raws && i <= |front|
    ensures Inside(raws, i) == Inside(front, i)
  {
    if i > 0 {
      InsideOfPrefix(raws, front, i - 1);
    }
  }

  /** The positions are those of the kept lines. */
  ghost predicate AreKept(raws: seq<string>, at: seq<nat>) {
    forall i: nat :: i in at <==> IsKept(raws, i)
  }

  ghost predicate IsRun(raws: seq<string>, st: State, at: seq<nat>) {
    && Increasing(at, |raws|) && AreKept(raws, at) && AllKeptAs(raws, st.lines, at)
    && st.inFence == Inside(raws, |raws|)
    && (st.blanks == 0 <==> raws == [] || !IsEmptyLine(raws[|raws| - 1]))
  }

  lemma {:induction false} KeptAsInMore(raws: seq<string>, front: seq<string>, lines: seq<string>, at: seq<nat>)
    requires front <= raws && AllKeptAs(front, lines, at)
    ensures AllKeptAs(raws, lines, at)
  {
    forall m | 0 <= m < |at| ensures KeptAs(raws, at[m], lines[m]) {
      assert KeptAs(front, at[m], lines[m]);
      InsideOfPrefix(raws, front, at[m]);
    }
  }

  lemma {:induction false} KeptInMore(front: seq<string>, raw: string, at: seq<nat>)
    requires AreKept(front, at)
    ensures var raws := front + [raw];
      AreKept(raws, if IsKept(raws, |front|) then at + [|front|] else at)
  {
    var raws := front + [raw];
    assert forall i | 0 <= i < |front| :: raws[i] == front[i];
  }

  /** What one turn adds. */
  lemma {:induction false} TurnIs(front: seq<string>, raw: string, st: State, at: seq<nat>)
    requires IsRun(front, st, at)
    ensures var raws := front + [raw];
      var next := Step(ProgramRules(), st, raw);
      && next.inFence == Inside(raws, |raws|)
      && (next.blanks == 0 <==> !IsEmptyLine(raw))
      && (if IsKept(raws, |front|) then |next.lines| == |st.lines| + 1 && st.lines <= next.lines
                                        && KeptAs(raws, |front|, next.lines[|st.lines|])
          else next.lines == st.lines)
  {
    var raws := front + [raw];
    CleanKeepsKind(raw, st.inFence);
    InsideOfPrefix(raws, front, |front|);
    assert raws[|front|] == raw;
    if front != [] {
      assert raws[|front| - 1] == front[|front| - 1];
      assert !IsEmptyLine(front[|front| - 1]) ==> |front| - 1 in at;
    }
  }

  lemma {:induction false} OneMoreKept(
    raws: seq<string>, lines: seq<string>, more: seq<string>, at: seq<nat>, i: nat)
    requires AllKeptAs(raws, lines, at) && Increasing(at, i) && i < |raws|
    requires |more| == |lines| + 1 && lines <= more && KeptAs(raws, i, more[|lines|])
    ensures AllKeptAs(raws, more, at + [i]) && Increasing(at + [i], |raws|)
  {
    forall m | 0 <= m < |at| + 1 ensures KeptAs(raws, (at + [i])[m], more[m]) {
      if m < |at| {
        assert KeptAs(raws, at[m], lines[m]) && more[m] == lines[m];
      }
    }
  }

  lemma {:induction false} RunNext(front: seq<string>, raw: string, st: State, before: seq<nat>) returns (at: seq<nat>)
    requires IsRun(front, st, before)
    ensures IsRun(front + [raw], Step(ProgramRules(), st, raw), at)
  {
    var raws, next := front + [raw], Step(ProgramRules(), st, raw);
    TurnIs(front, raw, st, before);
    KeptAsInMore(raws, front, st.lines, before);
    KeptInMore(front, raw, before);
    at := before;
    if IsKept(raws, |front|) {
      OneMoreKept(raws, st.lines, next.lines, before, |front|);
      at := before + [|front|];
    }
  }

  lemma {:induction false} RunIs(raws: seq<string>) returns (at: seq<nat>)
    ensures IsRun(raws, Run(ProgramRules(), raws), at)
  {
    at := [];
    if raws != [] {
      var front, raw := raws[..|raws| - 1], raws[|raws| - 1];
      var before := RunIs(front);
      at := RunNext(front, raw, Run(ProgramRules(), front), before);
      assert raws == front + [raw];
    }
  }

  // ---------------------------------------------------------------- the output

  lemma {:induction false} KeptIsNotEmpty(raws: seq<string>, i: nat, line: string)
    requires KeptAs(raws, i, line)
    ensures line == "" <==> IsEmptyLine(raws[i])
  {
    var raw := raws[i];
    TrimIsNothing(raw);
    NormalizeWords.WordsOfTrimEnd(raw);
    WordsOfJoin(Words(raw));
    assert Words("") == [];
  }

  /** Behind a kept line there is text, on the next kept line or in front of it. */
  lemma {:induction false} NextHasText(raws: seq<string>, at: seq<nat>, m: nat)
    requires AreKept(raws, at) && m + 1 < |at| && at[m] < at[m + 1]
    ensures TextFollows(raws, at[m])
  {
    var j := at[m + 1];
    assert j in at && IsKept(raws, j);
    if IsEmptyLine(raws[j]) {
      assert !IsEmptyLine(raws[j - 1]);
    }
  }

  /** The lines are empty where the text is. */
  ghost predicate SameEmpty(raws: seq<string>, lines: seq<string>, at: seq<nat>) {
    |at| == |lines| && forall m | 0 <= m < |at| :: at[m] < |raws| && (lines[m] == "" <==> IsEmptyLine(raws[at[m]]))
  }

  lemma {:induction false} KeptAreEmptyTogether(raws: seq<string>, lines: seq<string>, at: seq<nat>)
    requires AllKeptAs(raws, lines, at)
    ensures SameEmpty(raws, lines, at)
  {
    forall m | 0 <= m < |at| ensures at[m] < |raws| && (lines[m] == "" <==> IsEmptyLine(raws[at[m]])) {
      assert KeptAs(raws, at[m], lines[m]);
      KeptIsNotEmpty(raws, at[m], lines[m]);
    }
  }

  /** Text follows on or behind every kept line but an empty one at the end. */
  lemma {:induction false} TextFollowsKept(raws: seq<string>, lines: seq<string>, at: seq<nat>, m: nat)
    requires Increasing(at, |raws|) && AreKept(raws, at) && SameEmpty(raws, lines, at)
    requires m < |Front(lines)|
    ensures TextFollows(raws, at[m])
  {
    if lines[m] == "" {
      assert m + 1 < |at|;
      NextHasText(raws, at, m);
    }
  }

  lemma {:induction false} NothingBehind(raws: seq<string>, at: seq<nat>)
    requires Increasing(at, |raws|) && AreKept(raws, at) && at != [] && IsEmptyLine(raws[at[|at| - 1]])
    ensures !TextFollows(raws, at[|at| - 1])
  {
    forall j | at[|at| - 1] <= j < |raws| ensures IsEmptyLine(raws[j]) {
      assert !IsEmptyLine(raws[j]) ==> IsKept(raws, j);
      assert j in at ==> j <= at[|at| - 1];
    }
  }

  /** And none behind that. */
  lemma {:induction false} NoTextAtEnd(raws: seq<string>, lines: seq<string>, at: seq<nat>, m: nat)
    requires Increasing(at, |raws|) && AreKept(raws, at) && SameEmpty(raws, lines, at)
    requires |Front(lines)| <= m < |at|
    ensures !TextFollows(raws, at[m])
  {
    assert m == |at| - 1 && lines[m] == "";
    NothingBehind(raws, at);
  }

  /** Of the kept lines, those are in the output behind or on which there is text. */
  lemma {:induction false} FrontIs(raws: seq<string>, lines: seq<string>, at: seq<nat>)
    requires Increasing(at, |raws|) && AreKept(raws, at) && SameEmpty(raws, lines, at)
    ensures forall i: nat :: i in at[..|Front(lines)|] <==> IsKept(raws, i) && TextFollows(raws, i)
  {
    var some := at[..|Front(lines)|];
    forall i: nat ensures i in some <==> IsKept(raws, i) && TextFollows(raws, i) {
      if i in some {
        var m :| 0 <= m < |some| && some[m] == i;
        assert at[m] in at;
        TextFollowsKept(raws, lines, at, m);
      } else if i in at {
        var m :| 0 <= m < |at| && at[m] == i;
        assert forall k | 0 <= k < |some| :: some[k] == at[k] && some[k] in some;
        NoTextAtEnd(raws, lines, at, m);
      }
    }
  }

  lemma {:induction false} FirstKeptAs(raws: seq<string>, lines: seq<string>, at: seq<nat>, kept: seq<string>)
    requires AllKeptAs(raws, lines, at) && Increasing(at, |raws|) && kept <= lines
    ensures AllKeptAs(raws, kept, at[..|kept|]) && Increasing(at[..|kept|], |raws|)
  {
    forall m | 0 <= m < |kept| ensures KeptAs(raws, at[..|kept|][m], kept[m]) {
      assert KeptAs(raws, at[m], lines[m]);
    }
  }

  lemma {:induction false} RunOutput(raws: seq<string>) returns (at: seq<nat>)
    ensures var kept := Front(Run(ProgramRules(), raws).lines);
      && Increasing(at, |raws|) && AllKeptAs(raws, kept, at)
      && (forall i: nat :: i in at <==> IsKept(raws, i) && TextFollows(raws, i))
  {
    var lines := Run(ProgramRules(), raws).lines;
    var all := RunIs(raws);
    KeptAreEmptyTogether(raws, lines, all);
    FrontIs(raws, lines, all);
    FirstKeptAs(raws, lines, all, Front(lines));
    at := all[..|Front(lines)|];
  }

  /** The lines of the output are, in order, the lines with text and the first of several empty lines
      between them; inside a fence each is its input line less the white space at its end, outside
      the words of its input line joined by single spaces. */
  lemma {:induction false} OutputLines(input: string) returns (at: seq<nat>)
    ensures var raws, lines := Lines(input), Lines(Normalized(input));
      && Increasing(at, |raws|) && AllKeptAs(raws, lines, at)
      && (forall i: nat :: i in at <==> IsKept(raws, i) && TextFollows(raws, i))
  {
    at := RunOutput(Lines(input));
    NormalizedLines(input);
  }

  /** And the output is these lines joined. */
  lemma {:induction false} OutputIsItsLines(input: string)
    ensures Normalized(input) == Join(Lines(Normalized(input)), "\n")
  {
    NormalizedLines(input);
  }
}
