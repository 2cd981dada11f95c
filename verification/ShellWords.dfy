/**
 `shell_words_split` of commands.rs and its inverse, shell quoting.
*/
module ShellWords {
  import opened Text

  /** The word under construction, if there is one, becomes an argument. */
  function Flush(current: string): seq<string> {
    if current == "" then [] else [current]
  }

  function Split(s: string, current: string, inDouble: bool, inSingle: bool): seq<string>
    decreases |s|
  {
    if s == "" then Flush(current)
    else
      var c, rest := s[0], s[1..];
      if c == '\\' && !inSingle then
        if rest == "" then Split(rest, current, inDouble, inSingle)
        else Split(rest[1..], current + [rest[0]], inDouble, inSingle)
      else if c == '"' && !inSingle then Split(rest, current, !inDouble, inSingle)
      else if c == '\'' && !inDouble then Split(rest, current, inDouble, !inSingle)
      else if c == ' ' && !inDouble && !inSingle then Flush(current) + Split(rest, "", inDouble, inSingle)
      else Split(rest, current + [c], inDouble, inSingle)
  }

  /** `chars` is the iterator over the characters still to come. */
  method ShellWordsSplit(s: string) returns (args: seq<string>)
    ensures args == Split(s, "", false, false)
  {
    args := [];
    var current, inDouble, inSingle, chars := "", false, false, s;
    while chars != ""
      invariant args + Split(chars, current, inDouble, inSingle) == Split(s, "", false, false)
      decreases |chars|
    {
      var c := chars[0];
      chars := chars[1..];
      if c == '\\' && !inSingle {
        if chars != "" {
          current := current + [chars[0]];
          chars := chars[1..];
        }
      } else if c == '"' && !inSingle {
        inDouble := !inDouble;
      } else if c == '\'' && !inDouble {
        inSingle := !inSingle;
      } else if c == ' ' && !inDouble && !inSingle {
        Regroup(args, Flush(current), Split(chars, "", inDouble, inSingle));
        if current != "" {
          args := args + [current];
          current := "";
        }
      } else {
        current := current + [c];
      }
    }
    if current != "" {
      args := args + [current];
    }
  }

  // ---------------------------------------------------------------- quoting

  datatype Style = Bare | Backslash | DoubleQuotes | SingleQuotes

  predicate Special(c: char) {
    c == '\\' || c == '"' || c == '\'' || c == ' '
  }

  predicate Applies(arg: string, style: Style) {
    match style
    case Bare => forall c <- arg :: !Special(c)
    case SingleQuotes => '\'' !in arg
    case _ => true
  }

  function Escaped(arg: string, all: bool): string {
    if arg == "" then ""
    else (if all || arg[0] == '"' || arg[0] == '\\' then ['\\', arg[0]] else [arg[0]]) + Escaped(arg[1..], all)
  }

  function Quote(arg: string, style: Style): string {
    match style
    case Bare => arg
    case Backslash => Escaped(arg, true)
    case DoubleQuotes => "\"" + Escaped(arg, false) + "\""
    case SingleQuotes => "'" + arg + "'"
  }

  predicate Quotable(args: seq<string>, styles: seq<Style>) {
    |styles| == |args| && forall i | 0 <= i < |args| :: Applies(args[i], styles[i])
  }

  /** The arguments, quoted one by one and separated by single spaces. */
  function CommandLine(args: seq<string>, styles: seq<Style>): string
    requires Quotable(args, styles)
  {
    if args == [] then ""
    else if |args| == 1 then Quote(args[0], styles[0])
    else Quote(args[0], styles[0]) + " " + CommandLine(args[1..], styles[1..])
  }

  function NonEmpty(args: seq<string>): seq<string> {
    if args == [] then [] else Flush(args[0]) + NonEmpty(args[1..])
  }

  // ---------------------------------------------------------------- splitting undoes quoting

  lemma {:induction false} SplitPlain(arg: string, rest: string, current: string, inSingle: bool)
    requires if inSingle then '\'' !in arg else forall c <- arg :: !Special(c)
    ensures Split(arg + rest, current, false, inSingle) == Split(rest, current + arg, false, inSingle)
    decreases |arg|
  {
    if arg == "" {
      assert arg + rest == rest && current + arg == current;
    } else {
      assert arg[0] in arg && forall c <- arg[1..] :: c in arg;
      assert (arg + rest)[1..] == arg[1..] + rest;
      SplitPlain(arg[1..], rest, current + [arg[0]], inSingle);
      assert current + [arg[0]] + arg[1..] == current + arg;
    }
  }

  /** One character of an escaped argument is read as itself. */
  lemma {:induction false} SplitEscapedChar(c: char, all: bool, tail: string, current: string)
    ensures var piece := if all || c == '"' || c == '\\' then ['\\', c] else [c];
      Split(piece + tail, current, !all, false) == Split(tail, current + [c], !all, false)
  {
    var piece := if all || c == '"' || c == '\\' then ['\\', c] else [c];
    if |piece| == 2 {
      assert (piece + tail)[1..][1..] == tail && (piece + tail)[1..] != "";
    } else {
      assert (piece + tail)[1..] == tail;
    }
  }

  lemma {:induction false} SplitEscaped(arg: string, all: bool, rest: string, current: string)
    ensures Split(Escaped(arg, all) + rest, current, !all, false) == Split(rest, current + arg, !all, false)
    decreases |arg|
  {
    if arg == "" {
      assert Escaped(arg, all) + rest == rest && current + arg == current;
    } else {
      var piece := if all || arg[0] == '"' || arg[0] == '\\' then ['\\', arg[0]] else [arg[0]];
      Regroup(piece, Escaped(arg[1..], all), rest);
      SplitEscapedChar(arg[0], all, Escaped(arg[1..], all) + rest, current);
      SplitEscaped(arg[1..], all, rest, current + [arg[0]]);
      Regroup(current, [arg[0]], arg[1..]);
      assert [arg[0]] + arg[1..] == arg;
    }
  }

  lemma {:induction false} SplitQuoted(arg: string, style: Style, rest: string)
    requires Applies(arg, style)
    ensures Split(Quote(arg, style) + rest, "", false, false) == Split(rest, arg, false, false)
  {
    assert "" + arg == arg;
    match style
    case Bare => SplitPlain(arg, rest, "", false);
    case Backslash => SplitEscaped(arg, true, rest, "");
    case DoubleQuotes =>
      var s, inner := Quote(arg, style) + rest, Escaped(arg, false) + ("\"" + rest);
      assert s == "\"" + inner && s[1..] == inner;
      SplitEscaped(arg, false, "\"" + rest, "");
      assert ("\"" + rest)[1..] == rest;
    case SingleQuotes =>
      var s, inner := Quote(arg, style) + rest, arg + ("'" + rest);
      assert s == "'" + inner && s[1..] == inner;
      SplitPlain(arg, "'" + rest, "", true);
      assert ("'" + rest)[1..] == rest;
  }

  /** Splitting a quoted command line gives back the arguments, without the empty ones. */
  lemma {:induction false} SplitOfCommandLine(args: seq<string>, styles: seq<Style>)
    requires Quotable(args, styles)
    ensures Split(CommandLine(args, styles), "", false, false) == NonEmpty(args)
    decreases |args|
  {
    if args != [] {
      var q := Quote(args[0], styles[0]);
      if |args| == 1 {
        SplitQuoted(args[0], styles[0], "");
        assert q + "" == q && NonEmpty(args[1..]) == [];
      } else {
        var rest := CommandLine(args[1..], styles[1..]);
        SplitQuoted(args[0], styles[0], " " + rest);
        assert CommandLine(args, styles) == q + (" " + rest);
        assert (" " + rest)[1..] == rest;
        SplitOfCommandLine(args[1..], styles[1..]);
      }
    }
  }

  lemma {:induction false} NonEmptyShrinks(args: seq<string>)
    ensures |NonEmpty(args)| <= |args|
    ensures NonEmpty(args) == args <==> "" !in args
  {
    if args != [] {
      NonEmptyShrinks(args[1..]);
      assert args == [args[0]] + args[1..];
      if args[0] == "" {
        assert |NonEmpty(args)| < |args|;
      } else {
        assert NonEmpty(args)[1..] == NonEmpty(args[1..]);
      }
    }
  }

  /** The round trip is exact if and only if no argument is empty. */
  lemma {:induction false} RoundTripIffNoEmptyArgument(args: seq<string>, styles: seq<Style>)
    requires Quotable(args, styles)
    ensures Split(CommandLine(args, styles), "", false, false) == args <==> "" !in args
  {
    SplitOfCommandLine(args, styles);
    NonEmptyShrinks(args);
  }
}
