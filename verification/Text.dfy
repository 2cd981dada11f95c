/**
 The string operations of the Rust standard library that the modelled code uses.
 A string is a sequence of Unicode scalar values; positions count scalars.
*/
module Text {
  import opened Option

  // ---------------------------------------------------------------- characters

  /** `char::is_whitespace`: the Unicode property White_Space. */
  predicate IsWhitespace(c: char) {
    var n := c as int;
    || 9 <= n <= 13 || n == 0x20 || n == 0x85 || n == 0xA0 || n == 0x1680
    || 0x2000 <= n <= 0x200A || n == 0x2028 || n == 0x2029 || n == 0x202F || n == 0x205F || n == 0x3000
  }

  predicate IsDigit(c: char) {
    '0' <= c <= '9'
  }

  function LowerChar(c: char): char {
    if 'A' <= c <= 'Z' then (c as int + 32) as char else c
  }

  /** `to_ascii_lowercase`: length and positions are kept. */
  function Lower(s: string): (r: string)
    ensures |r| == |s|
  {
    seq(|s|, i requires 0 <= i < |s| => LowerChar(s[i]))
  }

  /** The letters, in their order; every other character is left alone. */
  lemma {:induction false} LettersLower(c: char)
    ensures Lower("ABCDEFGHIJKLMNOPQRSTUVWXYZ") == "abcdefghijklmnopqrstuvwxyz"
    ensures c !in "ABCDEFGHIJKLMNOPQRSTUVWXYZ" ==> LowerChar(c) == c
  {
    var upper := "ABCDEFGHIJKLMNOPQRSTUVWXYZ";
    if 'A' <= c <= 'Z' {
      assert upper[c as int - 'A' as int] == c;
    }
  }

  lemma {:induction false} Regroup<T>(a: seq<T>, b: seq<T>, c: seq<T>)
    ensures a + (b + c) == (a + b) + c
  {
  }

  lemma {:induction false} SliceOfSlice<T>(s: seq<T>, a: nat, b: nat, c: nat, d: nat)
    requires a <= b <= |s| && c <= d <= b - a
    ensures s[a..b][c..d] == s[a + c..a + d]
  {
    forall i | 0 <= i < d - c ensures s[a..b][c..d][i] == s[a + c..a + d][i] {
      assert s[a..b][c + i] == s[a + c + i];
    }
  }

  // ---------------------------------------------------------------- trimming

  predicate Blank(s: string) {
    forall c <- s :: IsWhitespace(c)
  }

  predicate Trimmed(s: string) {
    s == "" || (!IsWhitespace(s[0]) && !IsWhitespace(s[|s| - 1]))
  }

  function TrimStart(s: string): (r: string)
    ensures r != "" ==> !IsWhitespace(r[0])
  {
    if s != "" && IsWhitespace(s[0]) then TrimStart(s[1..]) else s
  }

  function TrimEnd(s: string): (r: string)
    ensures r != "" ==> !IsWhitespace(r[|r| - 1])
  {
    if s != "" && IsWhitespace(s[|s| - 1]) then TrimEnd(s[..|s| - 1]) else s
  }

  function Trim(s: string): string {
    TrimEnd(TrimStart(s))
  }

  /** What is trimmed off at the start is white space. */
  lemma {:induction false} TrimStartIsSuffix(s: string)
    ensures |TrimStart(s)| <= |s| && TrimStart(s) == s[|s| - |TrimStart(s)|..]
    ensures Blank(s[..|s| - |TrimStart(s)|])
  {
    if s != "" && IsWhitespace(s[0]) {
      TrimStartIsSuffix(s[1..]);
      assert s[..|s| - |TrimStart(s)|] == [s[0]] + s[1..][..|s[1..]| - |TrimStart(s)|];
    }
  }

  lemma {:induction false} TrimEndIsPrefix(s: string)
    ensures |TrimEnd(s)| <= |s| && TrimEnd(s) == s[..|TrimEnd(s)|]
    ensures Blank(s[|TrimEnd(s)|..])
  {
    if s != "" && IsWhitespace(s[|s| - 1]) {
      TrimEndIsPrefix(s[..|s| - 1]);
      assert s[|TrimEnd(s)|..] == s[..|s| - 1][|TrimEnd(s)|..] + [s[|s| - 1]];
    }
  }

  lemma {:induction false} TrimIsTrimmed(s: string)
    ensures Trimmed(Trim(s))
  {
    TrimEndIsPrefix(TrimStart(s));
  }

  lemma {:induction false} TrimOfTrimmed(s: string)
    requires Trimmed(s)
    ensures TrimStart(s) == s && TrimEnd(s) == s && Trim(s) == s
  {
  }

  lemma {:induction false} TrimLeadingSpace(s: string)
    requires Trimmed(s)
    ensures Trim(" " + s) == s
  {
    assert (" " + s)[1..] == s;
    TrimOfTrimmed(s);
  }

  lemma {:induction false} TrimEmptyIffBlank(s: string)
    ensures Trim(s) == "" <==> Blank(s)
  {
    var t := TrimStart(s);
    TrimStartIsSuffix(s);
    TrimEndIsPrefix(t);
    assert s == s[..|s| - |t|] + t && t == TrimEnd(t) + t[|TrimEnd(t)|..];
    if Trim(s) != "" {
      assert Trim(s)[0] in s;
      TrimIsTrimmed(s);
    }
  }

  /** Trimming takes white space off both ends, and nothing else. */
  lemma {:induction false} TrimParts(s: string) returns (lead: string, tail: string)
    ensures s == lead + Trim(s) + tail && Blank(lead) && Blank(tail)
  {
    var t := TrimStart(s);
    TrimStartIsSuffix(s);
    TrimEndIsPrefix(t);
    lead := s[..|s| - |t|];
    tail := t[|Trim(s)|..];
    assert t == Trim(s) + tail && s == lead + t;
  }

  lemma {:induction false} BlankAtEnd(s: string, tail: string)
    requires Blank(tail) && (s == "" || !IsWhitespace(s[|s| - 1]))
    ensures TrimEnd(s + tail) == s
  {
    if tail == "" {
      assert s + tail == s;
    } else {
      var last := |tail| - 1;
      assert IsWhitespace(tail[last]);
      assert (s + tail)[..|s + tail| - 1] == s + tail[..last];
      BlankAtEnd(s, tail[..last]);
    }
  }

  lemma {:induction false} BlankAtStart(lead: string, s: string)
    requires Blank(lead)
    ensures TrimStart(lead + s) == TrimStart(s)
  {
    if lead == "" {
      assert lead + s == s;
    } else {
      assert IsWhitespace(lead[0]) && (lead + s)[1..] == lead[1..] + s;
      BlankAtStart(lead[1..], s);
    }
  }

  /** What is left is what stands between the white space. */
  lemma {:induction false} TrimOfParts(lead: string, name: string, tail: string)
    requires Blank(lead) && Blank(tail) && Trimmed(name)
    ensures Trim(lead + name + tail) == name
  {
    assert lead + name + tail == lead + (name + tail);
    BlankAtStart(lead, name + tail);
    if name == "" {
      assert name + tail == tail;
      BlankAtStart(tail, "");
      assert tail + "" == tail;
    } else {
      assert TrimStart(name + tail) == name + tail;
      BlankAtEnd(name, tail);
    }
  }

  /** `trim_start_matches` and `trim_end_matches` with one character. */
  function TrimStartChar(s: string, c: char): (r: string)
    ensures r == "" || r[0] != c
  {
    if s != "" && s[0] == c then TrimStartChar(s[1..], c) else s
  }

  /** What `trim_start_matches` drops. */
  lemma {:induction false} TrimStartCharIs(s: string, c: char) returns (lead: string)
    ensures s == lead + TrimStartChar(s, c) && forall x <- lead :: x == c
  {
    if s != "" && s[0] == c {
      lead := TrimStartCharIs(s[1..], c);
      lead := [c] + lead;
    } else {
      lead := "";
    }
  }

  function TrimEndChar(s: string, c: char): (r: string)
    ensures r == "" || r[|r| - 1] != c
    ensures r <= s && forall i | |r| <= i < |s| :: s[i] == c
  {
    if s != "" && s[|s| - 1] == c then TrimEndChar(s[..|s| - 1], c) else s
  }

  function TrimChar(s: string, c: char): string {
    TrimEndChar(TrimStartChar(s, c), c)
  }

  predicate EndsWith(s: string, p: string) {
    |p| <= |s| && s[|s| - |p|..] == p
  }

  // ---------------------------------------------------------------- searching

  /** The pattern stands at position k. */
  predicate At(s: string, p: string, k: int) {
    0 <= k && k + |p| <= |s| && s[k..k + |p|] == p
  }

  /** `s[from..].find(p)`, as a position in s: the first occurrence at or after `from`. */
  function Find(s: string, p: string, from: nat): (r: Option<nat>)
    ensures r.Some? ==> from <= r.value && At(s, p, r.value)
    ensures r.Some? ==> forall k | from <= k < r.value :: !At(s, p, k)
    ensures r.None? ==> forall k | from <= k :: !At(s, p, k)
    decreases |s| - from
  {
    if from + |p| > |s| then None
    else if At(s, p, from) then Some(from)
    else Find(s, p, from + 1)
  }

  predicate Contains(s: string, p: string) {
    Find(s, p, 0).Some?
  }

  lemma {:induction false} FindIs(s: string, p: string, from: nat, k: nat)
    requires from <= k && At(s, p, k) && forall j | from <= j < k :: !At(s, p, j)
    ensures Find(s, p, from) == Some(k)
  {
  }

  lemma {:induction false} AtIndex(s: string, p: string, k: int, i: nat)
    requires At(s, p, k) && i < |p|
    ensures s[k + i] == p[i]
  {
    assert s[k..k + |p|][i] == s[k + i];
  }

  /** A one-character pattern stands wherever its character does. */
  lemma {:induction false} AtChar(s: string, c: char, k: int)
    ensures At(s, [c], k) <==> 0 <= k < |s| && s[k] == c
  {
    if 0 <= k < |s| {
      assert s[k..k + 1] == [s[k]];
    }
  }

  // ---------------------------------------------------------------- splitting and replacing

  /** `split` on one character: never empty. */
  function SplitOn(s: string, c: char): (parts: seq<string>)
    ensures parts != []
    decreases |s|
  {
    match Find(s, [c], 0)
    case None => [s]
    case Some(k) => [s[..k]] + SplitOn(s[k + 1..], c)
  }

  lemma {:induction false} SplitOnCons(head: string, c: char, rest: string)
    requires c !in head
    ensures SplitOn(head + [c] + rest, c) == [head] + SplitOn(rest, c)
  {
    var s := head + [c] + rest;
    forall j | 0 <= j <= |head| ensures At(s, [c], j) <==> j == |head| {
      AtChar(s, c, j);
    }
    FindIs(s, [c], 0, |head|);
    assert s[..|head|] == head && s[|head| + 1..] == rest;
  }

  lemma {:induction false} SplitOnLast(s: string, c: char)
    requires c !in s
    ensures SplitOn(s, c) == [s]
  {
    forall k ensures !At(s, [c], k) { AtChar(s, c, k); }
  }

  /** `replace`: every occurrence of the pattern, left to right. */
  function Replace(s: string, pattern: string, subst: string): string
    requires pattern != ""
    decreases |s|
  {
    match Find(s, pattern, 0)
    case None => s
    case Some(k) => s[..k] + subst + Replace(s[k + |pattern|..], pattern, subst)
  }

  lemma {:induction false} AtShift(x: string, rest: string, p: string, k: int)
    requires k >= 0
    ensures At(x + rest, p, |x| + k) <==> At(rest, p, k)
  {
    if |x| + k + |p| <= |x + rest| {
      assert (x + rest)[|x| + k..|x| + k + |p|] == rest[k..k + |p|];
    }
  }

  lemma {:induction false} FindOver(x: string, rest: string, p: string)
    requires forall k | 0 <= k < |x| :: !At(x + rest, p, k)
    ensures match Find(rest, p, 0)
      case None => Find(x + rest, p, 0) == None
      case Some(k) => Find(x + rest, p, 0) == Some(|x| + k)
  {
    var s := x + rest;
    forall k | k >= |x| ensures At(s, p, k) <==> At(rest, p, k - |x|) {
      AtShift(x, rest, p, k - |x|);
    }
    match Find(rest, p, 0)
    case None =>
    case Some(k) => FindIs(s, p, 0, |x| + k);
  }

  lemma {:induction false} CutsOver(x: string, rest: string, k: nat, n: nat)
    requires k + n <= |rest|
    ensures (x + rest)[..|x| + k] == x + rest[..k] && (x + rest)[|x| + k + n..] == rest[k + n..]
  {
  }

  lemma {:induction false} FirstOver(
    replace: string -> string, s: string, x: string, head: string, subst: string, rest: string, after: string)
    requires replace(s) == x + head + subst + replace(after)
    requires replace(rest) == head + subst + replace(after)
    ensures replace(s) == x + replace(rest)
  {
    assert x + head + subst + replace(after) == x + (head + subst + replace(after));
  }

  lemma {:induction false} FirstOverAt(
    s: string, x: string, rest: string, pattern: string, subst: string, k: nat, after: string)
    requires pattern != "" && Find(s, pattern, 0) == Some(|x| + k) && Find(rest, pattern, 0) == Some(k)
    requires k + |pattern| <= |rest| && after == rest[k + |pattern|..] == s[|x| + k + |pattern|..]
    requires s[..|x| + k] == x + rest[..k]
    ensures Replace(s, pattern, subst) == x + Replace(rest, pattern, subst)
  {
    FirstOver(t => Replace(t, pattern, subst), s, x, rest[..k], subst, rest, after);
  }

  /** Nothing is replaced in front of the first occurrence. */
  lemma {:induction false} ReplaceOver(x: string, rest: string, pattern: string, subst: string)
    requires pattern != "" && forall k | 0 <= k < |x| :: !At(x + rest, pattern, k)
    ensures Replace(x + rest, pattern, subst) == x + Replace(rest, pattern, subst)
  {
    FindOver(x, rest, pattern);
    var found := Find(rest, pattern, 0);
    if found.Some? {
      CutsOver(x, rest, found.value, |pattern|);
      FirstOverAt(x + rest, x, rest, pattern, subst, found.value, rest[found.value + |pattern|..]);
    }
  }

  lemma {:induction false} ReplaceHit(pattern: string, rest: string, subst: string)
    requires pattern != ""
    ensures Replace(pattern + rest, pattern, subst) == subst + Replace(rest, pattern, subst)
  {
    var s := pattern + rest;
    assert s[0..0 + |pattern|] == pattern && s[0 + |pattern|..] == rest;
    FindIs(s, pattern, 0, 0);
  }

  // ---------------------------------------------------------------- words

  predicate IsWord(s: string) {
    s != "" && forall c <- s :: !IsWhitespace(c)
  }

  /** The characters in front of the first white space. */
  function WordOf(s: string): (r: string)
    ensures r <= s && forall c <- r :: !IsWhitespace(c)
    ensures s != "" && !IsWhitespace(s[0]) ==> r != ""
  {
    if s == "" || IsWhitespace(s[0]) then "" else [s[0]] + WordOf(s[1..])
  }

  /** `split_whitespace`. */
  function Words(s: string): (r: seq<string>)
    ensures forall w <- r :: IsWord(w)
    decreases |s|
  {
    TrimStartIsSuffix(s);
    var t := TrimStart(s);
    if t == "" then [] else [WordOf(t)] + Words(t[|WordOf(t)|..])
  }

  lemma {:induction false} WordEnds(w: string, rest: string)
    requires forall c <- w :: !IsWhitespace(c)
    requires rest == "" || IsWhitespace(rest[0])
    ensures WordOf(w + rest) == w
  {
    if w == "" {
      assert w + rest == rest;
    } else {
      assert (w + rest)[1..] == w[1..] + rest;
      WordEnds(w[1..], rest);
    }
  }

  lemma {:induction false} WordsSkip(c: char, s: string)
    requires IsWhitespace(c)
    ensures Words([c] + s) == Words(s)
  {
    assert ([c] + s)[1..] == s;
  }

  lemma {:induction false} WordsOfMore(word: string, rest: string)
    requires IsWord(word) && (rest == "" || IsWhitespace(rest[0]))
    ensures Words(word + rest) == [word] + Words(rest)
  {
    var s := word + rest;
    assert TrimStart(s) == s;
    WordEnds(word, rest);
    assert s[|word|..] == rest;
  }

  /** Words joined by single spaces are split into the same words. */
  lemma {:induction false} WordsOfJoin(ws: seq<string>)
    requires forall w <- ws :: IsWord(w)
    ensures Words(Join(ws, " ")) == ws
  {
    if ws != [] {
      assert IsWord(ws[0]) by { assert ws[0] in ws; }
      var rest := if |ws| == 1 then "" else " " + Join(ws[1..], " ");
      var s := Join(ws, " ");
      assert s == ws[0] + rest;
      WordsOfMore(ws[0], rest);
      if |ws| > 1 {
        WordsOfJoin(ws[1..]);
        WordsSkip(' ', Join(ws[1..], " "));
      }
    }
  }

  // ---------------------------------------------------------------- lines

  function ChopCr(s: string): string {
    if s != "" && s[|s| - 1] == '\r' then s[..|s| - 1] else s
  }

  /** `str::lines`. */
  function Lines(s: string): seq<string> {
    if s == "" then []
    else
      match Find(s, "\n", 0)
      case None => [s]
      case Some(k) => [ChopCr(s[..k])] + Lines(s[k + 1..])
  }

  function Concat(parts: seq<string>): string {
    if parts == [] then "" else parts[0] + Concat(parts[1..])
  }

  /** `join`. */
  function Join(parts: seq<string>, sep: string): string {
    if parts == [] then "" else if |parts| == 1 then parts[0]
    else parts[0] + sep + Join(parts[1..], sep)
  }

  lemma {:induction false} JoinSnoc(parts: seq<string>, sep: string, last: string)
    requires parts != []
    ensures Join(parts + [last], sep) == Join(parts, sep) + sep + last
  {
    var more := parts + [last];
    if |parts| == 1 {
      assert more[1..] == [last];
    } else {
      assert more[1..] == parts[1..] + [last];
      JoinSnoc(parts[1..], sep, last);
      Regroup(parts[0] + sep, Join(parts[1..], sep), sep + last);
    }
  }

  /** A line that `lines` gives back unchanged when it is followed by a newline. */
  predicate PlainLine(s: string) {
    '\n' !in s && (s == "" || s[|s| - 1] != '\r')
  }

  /** The first line of a text, without the carriage return that may end it. */
  lemma {:induction false} FirstLine(head: string, rest: string)
    requires '\n' !in head
    ensures Lines(head + "\n" + rest)
         == [if head != "" && head[|head| - 1] == '\r' then head[..|head| - 1] else head] + Lines(rest)
  {
    var s := head + "\n" + rest;
    forall j | 0 <= j <= |head| ensures At(s, "\n", j) <==> j == |head| {
      AtChar(s, '\n', j);
    }
    FindIs(s, "\n", 0, |head|);
    assert s[..|head|] == head && s[|head| + 1..] == rest;
  }

  lemma {:induction false} LinesCons(head: string, rest: string)
    requires PlainLine(head)
    ensures Lines(head + "\n" + rest) == [head] + Lines(rest)
  {
    FirstLine(head, rest);
  }

  lemma {:induction false} LinesLast(s: string)
    requires '\n' !in s && s != ""
    ensures Lines(s) == [s]
  {
    forall k ensures !At(s, "\n", k) { AtChar(s, '\n', k); }
  }

  lemma {:induction false} LinesOfMore(head: string, rest: string, parts: seq<string>)
    requires PlainLine(head) && Lines(rest) == parts
    ensures Lines(head + "\n" + rest) == [head] + parts
  {
    LinesCons(head, rest);
  }

  /** `lines` undoes `join("\n")` when the last line is not empty. */
  lemma {:induction false} LinesOfJoin(parts: seq<string>)
    requires forall p <- parts :: PlainLine(p)
    requires parts != [] ==> parts[|parts| - 1] != ""
    ensures Lines(Join(parts, "\n")) == parts
  {
    if parts == [] {
    } else if |parts| == 1 {
      assert parts[0] in parts;
      LinesLast(parts[0]);
    } else {
      assert parts[0] in parts;
      LinesOfJoin(parts[1..]);
      LinesOfMore(parts[0], Join(parts[1..], "\n"), parts[1..]);
    }
  }

  /** No line that `lines` gives holds a newline. */
  lemma {:induction false} LinesHaveNoNewline(s: string, l: string)
    requires l in Lines(s)
    ensures '\n' !in l
    decreases |s|
  {
    match Find(s, "\n", 0)
    case None =>
      forall i | 0 <= i < |s| ensures s[i] != '\n' {
        AtChar(s, '\n', i);
      }
    case Some(k) =>
      if l in Lines(s[k + 1..]) {
        LinesHaveNoNewline(s[k + 1..], l);
      } else {
        forall i | 0 <= i < k ensures s[i] != '\n' {
          AtChar(s, '\n', i);
        }
      }
  }
}
