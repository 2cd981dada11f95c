/**
 `normalize_markdownish` (read.rs): white space outside code fences is squeezed, blank lines are
 merged. Normalizing twice is normalizing once.
*/
module Normalize {
  import opened Text

  // ---------------------------------------------------------------- one line

  function Squeezed(s: string): string {
    Join(Words(s), " ")
  }

  /** A line as it is kept. */
  function Clean(raw: string, inFence: bool): string {
    if inFence then TrimEnd(raw) else Squeezed(raw)
  }

  predicate IsBlank(line: string) {
    Trim(line) == ""
  }

  predicate IsFence(line: string) {
    Trim(line) == "```"
  }

  /** The treatment of one line, as values, so that the loop can be reasoned about on its own. */
  datatype Rules = Rules(clean: (string, bool) -> string, isFence: string -> bool, isBlank: string -> bool)

  function ProgramRules(): Rules {
    Rules(Clean, IsFence, IsBlank)
  }

  /** What the loop needs of the treatment of a line: it is settled after one turn. */
  ghost predicate Settles(r: Rules) {
    && r.isBlank("")
    && (forall line :: !(r.isBlank(line) && r.isFence(line)))
    && (forall f :: r.isBlank(r.clean("", f)))
    && (forall raw, f :: r.clean(r.clean(raw, f), f) == r.clean(raw, f))
  }

  // ---------------------------------------------------------------- the loop

  datatype State = State(lines: seq<string>, blanks: nat, inFence: bool)

  const START := State([], 0, false)

  function Step(r: Rules, st: State, raw: string): State {
    var line := r.clean(raw, st.inFence);
    var inFence := if r.isFence(line) then !st.inFence else st.inFence;
    if r.isBlank(line) then
      State(if st.blanks == 0 && st.lines != [] then st.lines + [""] else st.lines, st.blanks + 1, inFence)
    else State(st.lines + [line], 0, inFence)
  }

  function Run(r: Rules, raws: seq<string>): State {
    if raws == [] then START else Step(r, Run(r, raws[..|raws| - 1]), raws[|raws| - 1])
  }

  function Normalized(input: string): string {
    Trim(Join(Run(ProgramRules(), Lines(input)).lines, "\n"))
  }

  method NormalizeMarkdownish(input: string) returns (out: string)
    ensures out == Normalized(input)
  {
    var r := ProgramRules();
    var lines: seq<string> := [];
    var blankCount, inFence := 0, false;
    var raws := Lines(input);
    for i := 0 to |raws|
      invariant Run(r, raws[..i]) == State(lines, blankCount, inFence)
    {
      assert raws[..i + 1][..i] == raws[..i];
      var line := r.clean(raws[i], inFence);
      if r.isFence(line) {
        inFence := !inFence;
      }
      if r.isBlank(line) {
        blankCount := blankCount + 1;
        if blankCount <= 1 && lines != [] {
          lines := lines + [""];
        }
      } else {
        blankCount := 0;
        lines := lines + [line];
      }
    }
    assert raws[..|raws|] == raws;
    out := Trim(Join(lines, "\n"));
  }

  // ---------------------------------------------------------------- the loop on its own output

  /** Single blank lines, and none at the start. */
  ghost predicate WellSpaced(r: Rules, lines: seq<string>) {
    && (lines != [] ==> !r.isBlank(lines[0]))
    && (forall i | 0 <= i < |lines| :: r.isBlank(lines[i]) ==> lines[i] == "")
    && (forall i | 0 <= i < |lines| - 1 :: !(r.isBlank(lines[i]) && r.isBlank(lines[i + 1])))
  }

  /** The last kept line is the blank one. */
  predicate EndsBlank(lines: seq<string>) {
    lines != [] && lines[|lines| - 1] == ""
  }

  /** The kept lines run through the loop once more: nothing changes but the count of blank lines. */
  ghost predicate Replays(r: Rules, st: State) {
    && Run(r, st.lines) == State(st.lines, if EndsBlank(st.lines) then 1 else 0, st.inFence)
    && (EndsBlank(st.lines) <==> st.blanks > 0 && st.lines != [])
    && WellSpaced(r, st.lines)
  }

  lemma {:induction false} RunSnoc(r: Rules, raws: seq<string>, raw: string)
    ensures Run(r, raws + [raw]) == Step(r, Run(r, raws), raw)
  {
    assert (raws + [raw])[..|raws|] == raws;
  }

  /** A line other than a blank one is kept by the replay too. */
  lemma {:induction false} ReplayLine(r: Rules, st: State, raw: string)
    requires Settles(r) && Replays(r, st) && !r.isBlank(r.clean(raw, st.inFence))
    ensures var next := Step(r, st, raw);
      Run(r, next.lines) == State(next.lines, 0, next.inFence) && !EndsBlank(next.lines)
  {
    var line := r.clean(raw, st.inFence);
    RunSnoc(r, st.lines, line);
    assert r.clean(line, st.inFence) == line;
  }

  /** The first of several blank lines is kept by the replay too. */
  lemma {:induction false} ReplayBlank(r: Rules, st: State)
    requires Settles(r) && Replays(r, st) && st.blanks == 0 && st.lines != []
    ensures Run(r, st.lines + [""]) == State(st.lines + [""], 1, st.inFence)
  {
    RunSnoc(r, st.lines, "");
    BlankKeepsFence(r, st, "");
  }

  lemma {:induction false} SpacedSnoc(r: Rules, lines: seq<string>, line: string)
    requires WellSpaced(r, lines)
    requires r.isBlank(line) ==> line == "" && lines != [] && !r.isBlank(lines[|lines| - 1])
    ensures WellSpaced(r, lines + [line])
  {
  }

  lemma {:induction false} ReplayStep(r: Rules, st: State, raw: string)
    requires Settles(r) && Replays(r, st)
    ensures Replays(r, Step(r, st, raw))
  {
    var line := r.clean(raw, st.inFence);
    if !r.isBlank(line) {
      ReplayLine(r, st, raw);
      SpacedSnoc(r, st.lines, line);
    } else {
      BlankKeepsFence(r, st, raw);
      if st.blanks == 0 && st.lines != [] {
        ReplayBlank(r, st);
        SpacedSnoc(r, st.lines, "");
      }
    }
  }

  lemma {:induction false} BlankKeepsFence(r: Rules, st: State, raw: string)
    requires Settles(r) && r.isBlank(r.clean(raw, st.inFence))
    ensures Step(r, st, raw).inFence == st.inFence
  {
  }

  lemma {:induction false} ReplayRun(r: Rules, raws: seq<string>)
    requires Settles(r)
    ensures Replays(r, Run(r, raws))
  {
    if raws != [] {
      ReplayRun(r, raws[..|raws| - 1]);
      ReplayStep(r, Run(r, raws[..|raws| - 1]), raws[|raws| - 1]);
    }
  }

  /** The kept lines without a blank one at the end. */
  function Front(lines: seq<string>): (r: seq<string>)
    ensures r <= lines
  {
    if EndsBlank(lines) then lines[..|lines| - 1] else lines
  }

  lemma {:induction false} RunLength(r: Rules, raws: seq<string>)
    ensures |Run(r, raws).lines| <= |raws|
  {
    if raws != [] {
      RunLength(r, raws[..|raws| - 1]);
    }
  }

  /** A list that the loop keeps whole has only prefixes that it keeps whole. */
  lemma {:induction false} KeptPrefix(r: Rules, lines: seq<string>, n: nat)
    requires n <= |lines| && Run(r, lines).lines == lines
    ensures Run(r, lines[..n]).lines == lines[..n]
    decreases |lines|
  {
    if n < |lines| {
      var front := lines[..|lines| - 1];
      RunLength(r, front);
      assert Run(r, front).lines == front by {
        var st := Run(r, front);
        var next := Run(r, lines).lines;
        assert st.lines <= next && |next| <= |st.lines| + 1;
      }
      KeptPrefix(r, front, n);
      assert front[..n] == lines[..n];
    } else {
      assert lines[..n] == lines;
    }
  }

  lemma {:induction false} FrontIsKept(r: Rules, raws: seq<string>)
    requires Settles(r)
    ensures var kept := Front(Run(r, raws).lines);
      && Run(r, kept).lines == kept && WellSpaced(r, kept)
      && (kept != [] ==> !r.isBlank(kept[|kept| - 1]))
  {
    ReplayRun(r, raws);
    var lines := Run(r, raws).lines;
    var kept := Front(lines);
    KeptPrefix(r, lines, |kept|);
    assert lines[..|kept|] == kept;
    if EndsBlank(lines) {
      assert |lines| > 1;
      assert !(r.isBlank(lines[|lines| - 1]) && r.isBlank(lines[|lines| - 2]));
    }
  }

  ghost predicate Increasing(at: seq<nat>, bound: nat) {
    && (forall i | 0 <= i < |at| :: at[i] < bound)
    && (forall i, j | 0 <= i < j < |at| :: at[i] < at[j])
  }

  /** Line i of the output comes from line at[i] of the input, and both meet the same fence state. */
  ghost predicate SeesSameFence(r: Rules, raws: seq<string>, lines: seq<string>, at: seq<nat>) {
    |at| == |lines| && Increasing(at, |raws|) && AllSameFence(r, raws, lines, at)
  }

  ghost predicate AllSameFence(r: Rules, raws: seq<string>, lines: seq<string>, at: seq<nat>) {
    forall i | 0 <= i < |at| :: SameFenceAt(r, raws, lines, at[i], i)
  }

  ghost predicate SameFenceAt(r: Rules, raws: seq<string>, lines: seq<string>, k: nat, i: nat) {
    && k < |raws| && i < |lines|
    && var inFence := Run(r, raws[..k]).inFence;
       && inFence == Run(r, lines[..i]).inFence
       && lines[i] == if r.isBlank(r.clean(raws[k], inFence)) then "" else r.clean(raws[k], inFence)
  }

  lemma {:induction false} SameFenceStays(
    r: Rules, front: seq<string>, raws: seq<string>, lines: seq<string>, more: seq<string>, k: nat, i: nat)
    requires SameFenceAt(r, front, lines, k, i) && front <= raws && lines <= more
    ensures SameFenceAt(r, raws, more, k, i)
  {
    assert raws[..k] == front[..k] && more[..i] == lines[..i];
  }

  /** A line that is added meets the fence state that the output so far leads to. */
  lemma {:induction false} SameFenceAdded(r: Rules, front: seq<string>, raw: string)
    requires Settles(r) && Replays(r, Run(r, front)) && Step(r, Run(r, front), raw).lines != Run(r, front).lines
    ensures var st, lines := Run(r, front), Step(r, Run(r, front), raw).lines;
      |lines| == |st.lines| + 1 && SameFenceAt(r, front + [raw], lines, |front|, |st.lines|)
  {
    var st, lines := Run(r, front), Step(r, Run(r, front), raw).lines;
    assert lines[..|st.lines|] == st.lines && (front + [raw])[..|front|] == front;
  }

  lemma {:induction false} SameFenceKept(
    r: Rules, front: seq<string>, raws: seq<string>, lines: seq<string>, more: seq<string>, at: seq<nat>)
    requires AllSameFence(r, front, lines, at) && front <= raws && lines <= more
    ensures AllSameFence(r, raws, more, at)
  {
    forall i | 0 <= i < |at| ensures SameFenceAt(r, raws, more, at[i], i) {
      SameFenceStays(r, front, raws, lines, more, at[i], i);
    }
  }

  lemma {:induction false} SameFenceSnoc(r: Rules, raws: seq<string>, lines: seq<string>, at: seq<nat>, k: nat)
    requires AllSameFence(r, raws, lines, at) && SameFenceAt(r, raws, lines, k, |at|)
    requires Increasing(at, k)
    ensures AllSameFence(r, raws, lines, at + [k]) && Increasing(at + [k], k + 1)
  {
  }

  lemma {:induction false} SameFenceMore(
    r: Rules, front: seq<string>, raw: string, before: seq<nat>) returns (at: seq<nat>)
    requires Settles(r) && Replays(r, Run(r, front))
    requires SeesSameFence(r, front, Run(r, front).lines, before)
    ensures SeesSameFence(r, front + [raw], Step(r, Run(r, front), raw).lines, at)
  {
    var kept, lines := Run(r, front).lines, Step(r, Run(r, front), raw).lines;
    SameFenceKept(r, front, front + [raw], kept, lines, before);
    if lines == kept {
      at := before;
    } else {
      SameFenceAdded(r, front, raw);
      SameFenceSnoc(r, front + [raw], lines, before, |front|);
      at := before + [|front|];
    }
  }

  lemma {:induction false} SameFence(r: Rules, raws: seq<string>) returns (at: seq<nat>)
    requires Settles(r)
    ensures SeesSameFence(r, raws, Run(r, raws).lines, at)
  {
    at := [];
    if raws != [] {
      var front := raws[..|raws| - 1];
      var before := SameFence(r, front);
      ReplayRun(r, front);
      at := SameFenceMore(r, front, raws[|raws| - 1], before);
      assert front + [raws[|raws| - 1]] == raws;
    }
  }

  // ---------------------------------------------------------------- the treatment of a line settles

  lemma {:induction false} SqueezedTwice(s: string)
    ensures Squeezed(Squeezed(s)) == Squeezed(s)
  {
    WordsOfJoin(Words(s));
  }

  lemma {:induction false} CleanTwice(raw: string, inFence: bool)
    ensures Clean(Clean(raw, inFence), inFence) == Clean(raw, inFence)
  {
    SqueezedTwice(raw);
  }

  lemma {:induction false} ProgramSettles()
    ensures Settles(ProgramRules())
  {
    var r := ProgramRules();
    assert Words("") == [];
    forall raw, f ensures r.clean(r.clean(raw, f), f) == r.clean(raw, f) {
      CleanTwice(raw, f);
    }
  }

  /** No white space at the end, and outside fences none at the start. */
  ghost predicate CleanShape(line: string, inFence: bool) {
    && '\n' !in line
    && (line != "" ==> !IsWhitespace(line[|line| - 1]) && (inFence || !IsWhitespace(line[0])))
  }

  lemma {:induction false} CleanHasShape(raw: string, inFence: bool)
    requires '\n' !in raw
    ensures CleanShape(Clean(raw, inFence), inFence)
  {
    if inFence {
      TrimEndIsPrefix(raw);
    } else {
      JoinedWords(Words(raw));
    }
  }

  lemma {:induction false} JoinedWords(ws: seq<string>)
    requires forall w <- ws :: IsWord(w)
    ensures CleanShape(Join(ws, " "), false)
  {
    if ws != [] {
      assert IsWord(ws[0]) by { assert ws[0] in ws; }
      assert ws[0][0] in ws[0] && ws[0][|ws[0]| - 1] in ws[0];
      if |ws| > 1 {
        assert IsWord(ws[1]) by { assert ws[1] in ws; }
        JoinedWords(ws[1..]);
        assert Join(ws[1..], " ") != "";
      }
    }
  }

  lemma {:induction false} ShapedBlankIsEmpty(line: string, inFence: bool)
    requires CleanShape(line, inFence)
    ensures IsBlank(line) <==> line == ""
  {
    TrimEmptyIffBlank(line);
    assert line != "" ==> line[|line| - 1] in line;
  }

  // ---------------------------------------------------------------- the text

  /** Lines that can be joined and split again, the first without leading white space. */
  ghost predicate Tidy(lines: seq<string>) {
    && (forall l <- lines :: CleanShape(l, true))
    && (lines != [] ==> lines[0] != "" && CleanShape(lines[0], false))
  }

  lemma {:induction false} TidyStep(st: State, raw: string)
    requires Tidy(st.lines) && (st.lines == [] ==> !st.inFence) && '\n' !in raw
    ensures var next := Step(ProgramRules(), st, raw);
      Tidy(next.lines) && (next.lines == [] ==> !next.inFence)
  {
    var line := Clean(raw, st.inFence);
    CleanHasShape(raw, st.inFence);
    ShapedBlankIsEmpty(line, st.inFence);
    ProgramSettles();
    assert !(IsBlank(line) && IsFence(line));
  }

  lemma {:induction false} RunIsTidy(raws: seq<string>)
    requires forall l <- raws :: '\n' !in l
    ensures var st := Run(ProgramRules(), raws);
      Tidy(st.lines) && (st.lines == [] ==> !st.inFence)
  {
    if raws != [] {
      RunIsTidy(raws[..|raws| - 1]);
      assert raws[|raws| - 1] in raws;
      TidyStep(Run(ProgramRules(), raws[..|raws| - 1]), raws[|raws| - 1]);
    }
  }

  lemma {:induction false} JoinEnds(parts: seq<string>, sep: string)
    requires parts != [] && parts[0] != "" && parts[|parts| - 1] != ""
    ensures var s := Join(parts, sep);
      && s != "" && s[0] == parts[0][0]
      && s[|s| - 1] == parts[|parts| - 1][|parts[|parts| - 1]| - 1]
  {
    if |parts| > 1 {
      JoinSnoc(parts[..|parts| - 1], sep, parts[|parts| - 1]);
      assert parts == parts[..|parts| - 1] + [parts[|parts| - 1]];
      assert parts[0] <= Join(parts, sep);
    }
  }

  /** The final `trim` removes the blank line at the end and nothing else. */
  lemma {:induction false} TrimDropsLastBlank(lines: seq<string>)
    requires Tidy(lines) && (Front(lines) != [] ==> Front(lines)[|Front(lines)| - 1] != "")
    ensures Trim(Join(lines, "\n")) == Join(Front(lines), "\n")
  {
    var kept := Front(lines);
    var s := Join(kept, "\n");
    if kept != [] {
      assert kept[|kept| - 1] in lines;
      JoinEnds(kept, "\n");
      TrimOfTrimmed(s);
      if EndsBlank(lines) {
        JoinSnoc(kept, "\n", "");
        assert lines == kept + [""];
        TrimNewline(s);
        assert s + "\n" + "" == s + "\n";
      }
    } else {
      assert lines == [];
    }
  }

  lemma {:induction false} TrimNewline(s: string)
    requires s != "" && Trimmed(s)
    ensures Trim(s + "\n") == s
  {
    assert (s + "\n")[..|s|] == s;
    TrimOfTrimmed(s);
  }

  /** The output is the kept lines without a blank one at the end, and splits into them again. */
  lemma {:induction false} NormalizedLines(input: string)
    ensures var kept := Front(Run(ProgramRules(), Lines(input)).lines);
      && Normalized(input) == Join(kept, "\n")
      && Lines(Normalized(input)) == kept
      && Tidy(kept)
      && (kept != [] ==> kept[|kept| - 1] != "")
  {
    var r, raws := ProgramRules(), Lines(input);
    ProgramSettles();
    forall l <- raws ensures '\n' !in l {
      LinesHaveNoNewline(input, l);
    }
    RunIsTidy(raws);
    FrontIsKept(r, raws);
    var lines := Run(r, raws).lines;
    var kept := Front(lines);
    assert kept != [] ==> kept[|kept| - 1] != "";
    TrimDropsLastBlank(lines);
    assert forall l <- kept :: l in lines && CleanShape(l, true);
    LinesOfJoin(kept);
  }

  /** Normalizing is idempotent on every text. */
  lemma {:induction false} NormalizeIdempotent(input: string)
    ensures Normalized(Normalized(input)) == Normalized(input)
  {
    ProgramSettles();
    NormalizedLines(input);
    FrontIsKept(ProgramRules(), Lines(input));
    var kept := Front(Run(ProgramRules(), Lines(input)).lines);
    assert Front(kept) == kept;
    TrimDropsLastBlank(kept);
  }

  /** No two blank lines follow each other, and none stands at the start or the end. */
  lemma {:induction false} NormalizedIsWellSpaced(input: string)
    ensures var lines := Lines(Normalized(input));
      && (forall i | 0 <= i < |lines| - 1 :: !(IsBlank(lines[i]) && IsBlank(lines[i + 1])))
      && (lines != [] ==> !IsBlank(lines[0]) && !IsBlank(lines[|lines| - 1]))
  {
    ProgramSettles();
    NormalizedLines(input);
    FrontIsKept(ProgramRules(), Lines(input));
  }

  /** Every line of the output comes from a line of the input, in order, and a second pass sees the
      fence state at it that the first pass saw at the line it comes from. */
  lemma {:induction false} SecondPassSeesSameFences(input: string) returns (at: seq<nat>)
    ensures SeesSameFence(ProgramRules(), Lines(input), Lines(Normalized(input)), at)
  {
    var r, raws := ProgramRules(), Lines(input);
    ProgramSettles();
    NormalizedLines(input);
    var lines := Run(r, raws).lines;
    var kept := Front(lines);
    var all := SameFence(r, raws);
    at := all[..|kept|];
    forall i | 0 <= i < |at| ensures SameFenceAt(r, raws, kept, at[i], i) {
      assert SameFenceAt(r, raws, lines, all[i], i);
      assert kept[..i] == lines[..i];
    }
  }
}
