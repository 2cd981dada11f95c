/**
 Removing the blocks of one HTML tag with their content (read.rs): `strip_tag_block` and
 `find_open_tag`. Tag names are compared without case; lower-casing keeps all positions.
*/
module StripTags {
  import opened Option
  import opened Text

  predicate IsTagName(tag: string) {
    forall c <- tag :: 'a' <= c <= 'z'
  }

  predicate IsBoundary(c: char) {
    c in {' ', '\t', '\n', '\r', '\U{0C}', '/', '>'}
  }

  predicate EndsName(lower: string, k: int)
    requires 0 <= k <= |lower|
  {
    k == |lower| || IsBoundary(lower[k])
  }

  /** An open tag with exactly this name starts at position k. */
  predicate OpenAt(lower: string, tag: string, k: int) {
    && At(lower, "<" + tag, k)
    && EndsName(lower, k + 1 + |tag|)
  }

  /** The first open tag at or after `from`. */
  function FirstOpen(lower: string, tag: string, from: nat): (r: Option<nat>)
    ensures r.Some? ==> from <= r.value && OpenAt(lower, tag, r.value)
    ensures r.Some? ==> forall k | from <= k < r.value :: !OpenAt(lower, tag, k)
    ensures r.None? ==> forall k | from <= k :: !OpenAt(lower, tag, k)
    decreases |lower| - from
  {
    if from >= |lower| then None
    else if OpenAt(lower, tag, from) then Some(from)
    else FirstOpen(lower, tag, from + 1)
  }

  /** Where the scan resumes after a name without a boundary no open tag has been passed over. */
  lemma {:induction false} NoOpenInsideName(lower: string, tag: string, start: nat, k: nat)
    requires IsTagName(tag) && At(lower, "<" + tag, start) && start < k < start + 1 + |tag|
    ensures !OpenAt(lower, tag, k)
  {
    AtIndex(lower, "<" + tag, start, k - start);
    assert ("<" + tag)[k - start] == tag[k - start - 1] && tag[k - start - 1] in tag;
    if OpenAt(lower, tag, k) {
      AtIndex(lower, "<" + tag, k, 0);
    }
  }

  lemma {:induction false} SkipsNoOpen(lower: string, tag: string, search: nat, start: nat)
    requires IsTagName(tag) && Find(lower, "<" + tag, search) == Some(start) && !OpenAt(lower, tag, start)
    ensures FirstOpen(lower, tag, search) == FirstOpen(lower, tag, start + 1 + |tag|)
  {
    forall k | search <= k < start + 1 + |tag| ensures !OpenAt(lower, tag, k) {
      if start < k {
        NoOpenInsideName(lower, tag, start, k);
      }
    }
    FirstOpenSkips(lower, tag, search, start + 1 + |tag|);
  }

  lemma {:induction false} FirstOpenSkips(lower: string, tag: string, from: nat, until: nat)
    requires from <= until <= |lower| && forall k | from <= k < until :: !OpenAt(lower, tag, k)
    ensures FirstOpen(lower, tag, from) == FirstOpen(lower, tag, until)
    decreases until - from
  {
    if from < until {
      FirstOpenSkips(lower, tag, from + 1, until);
    }
  }

  lemma {:induction false} FoundOpen(lower: string, tag: string, search: nat, start: nat)
    requires Find(lower, "<" + tag, search) == Some(start) && OpenAt(lower, tag, start)
    ensures FirstOpen(lower, tag, search) == Some(start)
  {
    FirstOpenSkips(lower, tag, search, start);
  }

  lemma {:induction false} NoNeedleNoOpen(lower: string, tag: string, search: nat)
    requires Find(lower, "<" + tag, search).None?
    ensures FirstOpen(lower, tag, search) == None
  {
  }

  method FindOpenTag(lower: string, tag: string, cursor: nat) returns (r: Option<nat>)
    requires IsTagName(tag) && cursor <= |lower|
    ensures r == FirstOpen(lower, tag, cursor)
  {
    var needle := "<" + tag;
    var search := cursor;
    ghost var goal := FirstOpen(lower, tag, cursor);
    while true
      invariant cursor <= search <= |lower|
      invariant goal == FirstOpen(lower, tag, search)
      decreases |lower| - search
    {
      var found := Find(lower, needle, search);
      if found.None? {
        NoNeedleNoOpen(lower, tag, search);
        return None;
      }
      var start := found.value;
      var afterName := start + |needle|;
      if EndsName(lower, afterName) {
        FoundOpen(lower, tag, search, start);
        return Some(start);
      }
      SkipsNoOpen(lower, tag, search, start);
      search := afterName;
    }
  }

  // ---------------------------------------------------------------- the cuts

  datatype Cut = Cut(start: nat, end: nat)

  /** The position after the pattern's first occurrence at or after `from`, or the end. */
  function After(lower: string, pattern: string, from: nat): (r: nat)
    requires from <= |lower|
    ensures from <= r <= |lower|
  {
    match Find(lower, pattern, from)
    case None => |lower|
    case Some(k) => k + |pattern|
  }

  function CloseOf(tag: string): string {
    "</" + tag + ">"
  }

  /** A block ends after the first close tag behind the end of its open tag. */
  function BlockEnd(lower: string, tag: string, start: nat): (r: nat)
    requires start < |lower|
    ensures start < r <= |lower|
  {
    After(lower, CloseOf(tag), After(lower, ">", start))
  }

  function Cuts(lower: string, tag: string, cursor: nat): (r: seq<Cut>)
    requires cursor <= |lower|
    decreases |lower| - cursor
  {
    match FirstOpen(lower, tag, cursor)
    case None => []
    case Some(start) =>
      var end := BlockEnd(lower, tag, start);
      [Cut(start, end)] + Cuts(lower, tag, end)
  }

  /** The cuts lie in order within the text from `cursor` on. */
  predicate InOrder(n: nat, cursor: nat, cuts: seq<Cut>)
    decreases |cuts|
  {
    if cuts == [] then cursor <= n
    else cursor <= cuts[0].start < cuts[0].end <= n && InOrder(n, cuts[0].end, cuts[1..])
  }

  /** The pieces between the cuts. */
  function Kept(input: string, cursor: nat, cuts: seq<Cut>): (r: seq<string>)
    requires InOrder(|input|, cursor, cuts)
    ensures |r| == |cuts| + 1
    decreases |cuts|
  {
    if cuts == [] then [input[cursor..]]
    else [input[cursor..cuts[0].start]] + Kept(input, cuts[0].end, cuts[1..])
  }

  function Removed(input: string, cursor: nat, cuts: seq<Cut>): (r: seq<string>)
    requires InOrder(|input|, cursor, cuts)
    ensures |r| == |cuts|
    decreases |cuts|
  {
    if cuts == [] then []
    else [input[cuts[0].start..cuts[0].end]] + Removed(input, cuts[0].end, cuts[1..])
  }

  /** Kept and removed pieces in turn. */
  function Woven(kept: seq<string>, removed: seq<string>): string
    requires |kept| == |removed| + 1
  {
    if removed == [] then kept[0] else kept[0] + removed[0] + Woven(kept[1..], removed[1..])
  }

  lemma {:induction false} CutsInOrder(lower: string, tag: string, cursor: nat)
    requires cursor <= |lower|
    ensures InOrder(|lower|, cursor, Cuts(lower, tag, cursor))
    decreases |lower| - cursor
  {
    var open := FirstOpen(lower, tag, cursor);
    if open.Some? {
      CutsInOrder(lower, tag, BlockEnd(lower, tag, open.value));
    }
  }

  /** What the function keeps of a text. */
  function Stripped(input: string, tag: string): string {
    CutsInOrder(Lower(input), tag, 0);
    Concat(Kept(input, 0, Cuts(Lower(input), tag, 0)))
  }

  method StripTagBlock(input: string, tag: string) returns (out: string)
    requires IsTagName(tag)
    ensures out == Stripped(input, tag)
  {
    out := "";
    var cursor := 0;
    var lower := Lower(input);
    var close := "</" + tag + ">";
    CutsInOrder(lower, tag, 0);
    ghost var goal := Stripped(input, tag);
    while true
      invariant cursor <= |input|
      invariant InOrder(|input|, cursor, Cuts(lower, tag, cursor))
      invariant goal == out + Concat(Kept(input, cursor, Cuts(lower, tag, cursor)))
      decreases |input| - cursor
    {
      var open := FindOpenTag(lower, tag, cursor);
      if open.None? {
        LastPiece(input, cursor);
        out := out + input[cursor..];
        return;
      }
      var start := open.value;
      var afterStart := After(lower, ">", start);
      var end := After(lower, close, afterStart);
      CutsInOrder(lower, tag, end);
      FirstPiece(input, cursor, Cut(start, end), Cuts(lower, tag, end));
      Regroup(out, input[cursor..start], Concat(Kept(input, end, Cuts(lower, tag, end))));
      out := out + input[cursor..start];
      cursor := end;
    }
  }

  lemma {:induction false} LastPiece(input: string, cursor: nat)
    requires cursor <= |input|
    ensures Concat(Kept(input, cursor, [])) == input[cursor..]
  {
    assert Kept(input, cursor, [])[1..] == [];
  }

  lemma {:induction false} FirstPiece(input: string, cursor: nat, c: Cut, rest: seq<Cut>)
    requires InOrder(|input|, cursor, [c] + rest)
    ensures InOrder(|input|, c.end, rest)
    ensures Concat(Kept(input, cursor, [c] + rest)) == input[cursor..c.start] + Concat(Kept(input, c.end, rest))
  {
    assert ([c] + rest)[1..] == rest;
    var kept := Kept(input, cursor, [c] + rest);
    assert kept[1..] == Kept(input, c.end, rest);
  }

  // ---------------------------------------------------------------- the theorems

  /** Kept and removed pieces, in turn, are the whole input. */
  lemma {:induction false} PiecesPartition(input: string, cursor: nat, cuts: seq<Cut>)
    requires InOrder(|input|, cursor, cuts)
    ensures Woven(Kept(input, cursor, cuts), Removed(input, cursor, cuts)) == input[cursor..]
    decreases |cuts|
  {
    if cuts != [] {
      var c := cuts[0];
      PiecesPartition(input, c.end, cuts[1..]);
      var kept, removed := Kept(input, cursor, cuts), Removed(input, cursor, cuts);
      assert kept[1..] == Kept(input, c.end, cuts[1..]) && removed[1..] == Removed(input, c.end, cuts[1..]);
      assert input[cursor..] == input[cursor..c.start] + input[c.start..c.end] + input[c.end..];
    }
  }

  /** No pattern occurs between the positions. */
  ghost predicate Absent(lower: string, pattern: string, from: nat, to: nat) {
    forall k | from <= k < to :: !At(lower, pattern, k)
  }

  /** `end` is the end of the first occurrence at or after `from`, or the end of the text without one. */
  ghost predicate EndsFirst(lower: string, pattern: string, from: nat, end: nat) {
    || (from + |pattern| <= end && At(lower, pattern, end - |pattern|) && Absent(lower, pattern, from, end - |pattern|))
    || (end == |lower| && Absent(lower, pattern, from, |lower|))
  }

  /** A cut runs from an open tag to the first close tag behind the first `>`, or to the end. */
  ghost predicate IsBlock(lower: string, tag: string, c: Cut) {
    && OpenAt(lower, tag, c.start)
    && exists gt: nat | gt <= |lower| ::
         EndsFirst(lower, ">", c.start, gt) && EndsFirst(lower, CloseOf(tag), gt, c.end)
  }

  /** Every cut is a block, and between the cuts no open tag starts. */
  ghost predicate CutsBlocks(lower: string, tag: string, cursor: nat, cuts: seq<Cut>)
    decreases |cuts|
  {
    if cuts == [] then forall k | cursor <= k :: !OpenAt(lower, tag, k)
    else
      && (forall k | cursor <= k < cuts[0].start :: !OpenAt(lower, tag, k))
      && IsBlock(lower, tag, cuts[0])
      && CutsBlocks(lower, tag, cuts[0].end, cuts[1..])
  }

  lemma {:induction false} AfterEndsFirst(lower: string, pattern: string, from: nat)
    requires from <= |lower|
    ensures EndsFirst(lower, pattern, from, After(lower, pattern, from))
  {
    var found := Find(lower, pattern, from);
    if found.Some? {
      assert At(lower, pattern, found.value);
    }
  }

  lemma {:induction false} CutsAreBlocks(lower: string, tag: string, cursor: nat)
    requires cursor <= |lower|
    ensures CutsBlocks(lower, tag, cursor, Cuts(lower, tag, cursor))
    decreases |lower| - cursor
  {
    var open := FirstOpen(lower, tag, cursor);
    if open.Some? {
      var start := open.value;
      var gt, end := After(lower, ">", start), BlockEnd(lower, tag, start);
      AfterEndsFirst(lower, ">", start);
      AfterEndsFirst(lower, CloseOf(tag), gt);
      assert IsBlock(lower, tag, Cut(start, end));
      CutsAreBlocks(lower, tag, end);
    }
  }

  /** The function keeps what is left between the blocks: the blocks and the rest make up the input. */
  lemma {:induction false} StrippedIsThePartition(input: string, tag: string) returns (cuts: seq<Cut>)
    ensures InOrder(|input|, 0, cuts) && CutsBlocks(Lower(input), tag, 0, cuts)
    ensures Stripped(input, tag) == Concat(Kept(input, 0, cuts))
    ensures Woven(Kept(input, 0, cuts), Removed(input, 0, cuts)) == input
  {
    cuts := Cuts(Lower(input), tag, 0);
    CutsInOrder(Lower(input), tag, 0);
    CutsAreBlocks(Lower(input), tag, 0);
    PiecesPartition(input, 0, cuts);
  }

  /** There is only one such partition. */
  lemma {:induction false} BlocksAreUnique(lower: string, tag: string, cursor: nat, a: seq<Cut>, b: seq<Cut>)
    requires InOrder(|lower|, cursor, a) && InOrder(|lower|, cursor, b)
    requires CutsBlocks(lower, tag, cursor, a) && CutsBlocks(lower, tag, cursor, b)
    ensures a == b
    decreases |a|
  {
    if a != [] && b != [] {
      SameStart(lower, tag, a[0].start, b[0].start, cursor);
      SameBlock(lower, tag, a[0], b[0]);
      BlocksAreUnique(lower, tag, a[0].end, a[1..], b[1..]);
      assert a == [a[0]] + a[1..] && b == [b[0]] + b[1..];
    } else if a != [] {
      FirstCutOpens(lower, tag, cursor, a);
    } else if b != [] {
      FirstCutOpens(lower, tag, cursor, b);
    }
  }

  lemma {:induction false} FirstCutOpens(lower: string, tag: string, cursor: nat, cuts: seq<Cut>)
    requires InOrder(|lower|, cursor, cuts) && CutsBlocks(lower, tag, cursor, cuts) && cuts != []
    ensures cursor <= cuts[0].start && OpenAt(lower, tag, cuts[0].start)
  {
  }

  lemma {:induction false} SameStart(lower: string, tag: string, s: nat, t: nat, cursor: nat)
    requires cursor <= s && cursor <= t && OpenAt(lower, tag, s) && OpenAt(lower, tag, t)
    requires forall k | cursor <= k < s :: !OpenAt(lower, tag, k)
    requires forall k | cursor <= k < t :: !OpenAt(lower, tag, k)
    ensures s == t
  {
  }

  lemma {:induction false} SameEnd(lower: string, pattern: string, from: nat, s: nat, t: nat)
    requires pattern != "" && from <= |lower| && s <= |lower| && t <= |lower|
    requires EndsFirst(lower, pattern, from, s) && EndsFirst(lower, pattern, from, t)
    ensures s == t
  {
  }

  lemma {:induction false} SameBlock(lower: string, tag: string, a: Cut, b: Cut)
    requires a.start == b.start <= |lower| && a.end <= |lower| && b.end <= |lower|
    requires IsBlock(lower, tag, a) && IsBlock(lower, tag, b)
    ensures a == b
  {
    var g: nat :| g <= |lower| && EndsFirst(lower, ">", a.start, g) && EndsFirst(lower, CloseOf(tag), g, a.end);
    var h: nat :| h <= |lower| && EndsFirst(lower, ">", b.start, h) && EndsFirst(lower, CloseOf(tag), h, b.end);
    SameEnd(lower, ">", a.start, g, h);
    SameEnd(lower, CloseOf(tag), g, a.end, b.end);
  }

  /** Which text opens a block: `<`, the name in any case, and a character that ends the name. */
  predicate IsOpenTag(input: string, tag: string, k: nat) {
    var end := k + 1 + |tag|;
    && end <= |input| && input[k] == '<' && Lower(input[k + 1..end]) == tag
    && (end < |input| ==>
          var c := input[end];
          c == ' ' || c == '\t' || c == '\n' || c == '\r' || c as int == 12 || c == '/' || c == '>')
  }

  lemma {:induction false} LowerOfSlice(input: string, a: nat, b: nat)
    requires a <= b <= |input|
    ensures Lower(input[a..b]) == Lower(input)[a..b]
  {
  }

  lemma {:induction false} OpenIff(input: string, tag: string, k: nat)
    ensures OpenAt(Lower(input), tag, k) <==> IsOpenTag(input, tag, k)
  {
    var lower, end := Lower(input), k + 1 + |tag|;
    if end <= |input| {
      LowerOfSlice(input, k + 1, end);
      assert lower[k..end] == [lower[k]] + lower[k + 1..end];
      assert "<" + tag == ['<'] + tag;
      assert lower[k..end] == "<" + tag ==> lower[k] == '<' && lower[k..end][1..] == ("<" + tag)[1..];
    }
  }
}
