/**
 The three scanners over one argument vector (flags.rs): `extract_config_path`,
 `parse_flags` and `clean_args`.  What each scanner takes a token for is a parameter
 (FlagTables gives the actual lists); the results hold for all classifications that agree.
*/
module ArgScan {
  import opened Option
  import opened Text

  /** What a scanner may take a token for. */
  datatype Kind = RestoreIs | SwitchFlag | ValueFlag | Inline | Restore | Config | Plain

  datatype Tables = Tables(
    parse: string -> Kind, clean: string -> Kind, extract: string -> Kind, isCommand: string -> bool)

  predicate Dashed(s: string) {
    s != "" && s[0] == '-'
  }

  predicate IsBool(s: string) {
    s == "true" || s == "false"
  }

  /** The scanners classify alike, except that `clean_args` may know more switches and treats
      --config as any flag with a value, and that `extract_config_path` looks for nothing else. */
  ghost predicate Agree(t: Tables) {
    && (forall s :: t.parse(s) != Plain ==> Dashed(s))
    && (forall s :: t.clean(s) != Plain ==> Dashed(s))
    && (forall s :: t.parse(s) != Plain ==> t.clean(s) == if t.parse(s) == Config then ValueFlag else t.parse(s))
    && (forall s :: t.parse(s) == Plain ==> t.clean(s) == Plain || t.clean(s) == SwitchFlag)
    && (forall s :: t.extract(s) == if t.parse(s) == Config || t.parse(s) == ValueFlag then t.parse(s) else Plain)
    && !t.isCommand("true") && !t.isCommand("false")
  }

  predicate SeesCommand(t: Tables, seen: bool, arg: string) {
    seen || (!Dashed(arg) && t.isCommand(arg))
  }

  /** A bare --restore takes the next token as its key. */
  predicate TakesKey(t: Tables, seen: bool, args: seq<string>) {
    !seen && |args| > 1 && !Dashed(args[1]) && !t.isCommand(args[1])
  }

  // ---------------------------------------------------------------- parse_flags

  /** One assignment that `parse_flags` makes. */
  datatype Event =
    | SetSwitch(flag: string, on: bool)
    | SetValue(flag: string, value: string)
    | SetInline(token: string)
    | RestoreKey(key: string)
    | RestoreSession

  /** What a token turned out to be. */
  datatype Role = Flag | Operand | Word

  /** Assignments and roles, for one turn of the loop or for a whole scan. */
  datatype Parse = Parse(events: seq<Event>, roles: seq<Role>) {
    function Then(p: Parse): Parse {
      Parse(events + p.events, roles + p.roles)
    }
  }

  /** One turn of `parse_flags` at the first of the tokens still to come. */
  function Turn(t: Tables, args: seq<string>, seen: bool): (p: Parse)
    requires args != []
    ensures 1 <= |p.roles| <= 2 && |p.roles| <= |args|
  {
    var arg, more := args[0], |args| > 1;
    match t.parse(arg)
    case RestoreIs => Parse([SetInline(arg)], [Flag])
    case SwitchFlag =>
      if more && IsBool(args[1]) then Parse([SetSwitch(arg, args[1] == "true")], [Flag, Operand])
      else Parse([SetSwitch(arg, true)], [Flag])
    case ValueFlag =>
      if more then Parse([SetValue(arg, args[1])], [Flag, Operand]) else Parse([], [Flag])
    case Inline => Parse([SetInline(arg)], [Flag])
    case Restore =>
      if TakesKey(t, seen, args) then Parse([RestoreKey(args[1])], [Flag, Operand])
      else Parse([RestoreSession], [Flag])
    case Config => Parse([], if more then [Flag, Operand] else [Flag])
    case Plain => Parse([], [Word])
  }

  /** `parse_flags` on the tokens still to come: the assignments to `flags` in order, and
      the role of every token. */
  function ParseFrom(t: Tables, args: seq<string>, seen: bool): (p: Parse)
    ensures |p.roles| == |args|
    decreases |args|
  {
    if args == [] then Parse([], [])
    else
      var seen' := SeesCommand(t, seen, args[0]);
      var turn := Turn(t, args, seen');
      turn.Then(ParseFrom(t, args[|turn.roles|..], seen'))
  }

  lemma {:induction false} ThenAssociates(p: Parse, q: Parse, r: Parse)
    ensures p.Then(q).Then(r) == p.Then(q.Then(r))
  {
    Regroup(p.events, q.events, r.events);
    Regroup(p.roles, q.roles, r.roles);
  }

  method ParseFlags(t: Tables, args: seq<string>) returns (events: seq<Event>, roles: seq<Role>)
    ensures Parse(events, roles) == ParseFrom(t, args, false)
  {
    events, roles := [], [];
    var i, seenCommand := 0, false;
    ghost var goal := ParseFrom(t, args, false);
    while i < |args|
      invariant i <= |args|
      invariant Parse(events, roles).Then(ParseFrom(t, args[i..], seenCommand)) == goal
      decreases |args| - i
    {
      ghost var rest := args[i..];
      var arg := args[i];
      var next := if i + 1 < |args| then Some(args[i + 1]) else None;
      if !Dashed(arg) && t.isCommand(arg) {
        seenCommand := true;
      }
      var event: seq<Event>, role := [], [Flag];
      match t.parse(arg) {
        case RestoreIs => event := [SetInline(arg)];
        case SwitchFlag =>
          if next.Some? && IsBool(next.value) {
            event, role := [SetSwitch(arg, next.value == "true")], [Flag, Operand];
          } else {
            event := [SetSwitch(arg, true)];
          }
        case ValueFlag =>
          if next.Some? {
            event, role := [SetValue(arg, next.value)], [Flag, Operand];
          }
        case Inline => event := [SetInline(arg)];
        case Restore =>
          if seenCommand {
            event := [RestoreSession];
          } else if next.Some? && !Dashed(next.value) && !t.isCommand(next.value) {
            event, role := [RestoreKey(next.value)], [Flag, Operand];
          } else {
            event := [RestoreSession];
          }
        case Config =>
          if next.Some? {
            role := [Flag, Operand];
          }
        case Plain => role := [Word];
      }
      assert Parse(event, role) == Turn(t, rest, seenCommand);
      i := i + |role|;
      assert rest[|role|..] == args[i..];
      ThenAssociates(Parse(events, roles), Parse(event, role), ParseFrom(t, args[i..], seenCommand));
      events, roles := events + event, roles + role;
    }
  }

  // ---------------------------------------------------------------- clean_args

  /** One turn of `clean_args`: which of the first one or two tokens stay. */
  function CleanTurn(t: Tables, args: seq<string>, seen: bool): (keep: seq<bool>)
    requires args != []
    ensures keep == [true] || keep == [false] || keep == [false, false]
    ensures |keep| <= |args|
  {
    var more := |args| > 1;
    match t.clean(args[0])
    case RestoreIs => [false]
    case Inline => [false]
    case ValueFlag => if more then [false, false] else [false]
    case Restore => if TakesKey(t, seen, args) then [false, false] else [false]
    case SwitchFlag => if more && IsBool(args[1]) then [false, false] else [false]
    case _ => [true]
  }

  /** `clean_args` on the tokens still to come: for every token, whether it stays. */
  function CleanFrom(t: Tables, args: seq<string>, seen: bool): (keep: seq<bool>)
    ensures |keep| == |args|
    decreases |args|
  {
    if args == [] then []
    else
      var turn := CleanTurn(t, args, seen);
      var seen' := if turn == [true] then SeesCommand(t, seen, args[0]) else seen;
      turn + CleanFrom(t, args[|turn|..], seen')
  }

  function Kept(args: seq<string>, keep: seq<bool>): seq<string>
    requires |keep| == |args|
  {
    if args == [] then [] else (if keep[0] then [args[0]] else []) + Kept(args[1..], keep[1..])
  }

  /** The tokens that stay, of those still to come. */
  function Cleaned(t: Tables, args: seq<string>, seen: bool): seq<string> {
    Kept(args, CleanFrom(t, args, seen))
  }

  lemma {:induction false} KeptDrops(args: seq<string>, turn: seq<bool>, keep: seq<bool>)
    requires turn == [true] || turn == [false] || turn == [false, false]
    requires |turn| + |keep| == |args|
    ensures Kept(args, turn + keep) == (if turn == [true] then [args[0]] else []) + Kept(args[|turn|..], keep)
  {
    var all := turn + keep;
    if |turn| == 1 {
      assert all[1..] == keep;
    } else {
      assert all[1..] == [false] + keep && all[1..][1..] == keep && args[1..][1..] == args[2..];
    }
  }

  lemma {:induction false} CleanedTurn(t: Tables, args: seq<string>, seen: bool)
    requires args != []
    ensures var turn := CleanTurn(t, args, seen);
      Cleaned(t, args, seen) ==
        if turn == [true] then [args[0]] + Cleaned(t, args[1..], SeesCommand(t, seen, args[0]))
        else Cleaned(t, args[|turn|..], seen)
  {
    var turn := CleanTurn(t, args, seen);
    KeptDrops(args, turn, CleanFrom(t, args[|turn|..], if turn == [true] then SeesCommand(t, seen, args[0]) else seen));
  }

  /** What `clean_args` keeps of the tokens still to come, as a value: it goes turn by turn. */
  type Cleaner = (seq<string>, bool) -> seq<string>

  ghost predicate CleansByTurns(t: Tables, clean: Cleaner) {
    && (forall seen :: clean([], seen) == [])
    && (forall args, seen | args != [] :: CleansTurn(t, clean, args, seen))
  }

  predicate CleansTurn(t: Tables, clean: Cleaner, args: seq<string>, seen: bool)
    requires args != []
  {
    var turn := CleanTurn(t, args, seen);
    clean(args, seen) ==
      if turn == [true] then [args[0]] + clean(args[1..], SeesCommand(t, seen, args[0]))
      else clean(args[|turn|..], seen)
  }

  /** What the loop at index i, with `skip_next` set or not, has still to add to the result. */
  function StillToAdd(clean: Cleaner, args: seq<string>, i: nat, skipNext: bool, seen: bool): seq<string> {
    var tail := if skipNext then i + 1 else i;
    if tail <= |args| then clean(args[tail..], seen) else []
  }

  /** Where one turn of the loop leads: what becomes of index, `skip_next` and `seen_command`,
      and whether the token stays. */
  datatype LoopState = LoopState(i: nat, skipNext: bool, seen: bool, keep: bool)

  function NextTurn(t: Tables, args: seq<string>, i: nat, seen: bool): LoopState
    requires i < |args|
  {
    match t.clean(args[i])
    case RestoreIs => LoopState(i + 1, false, seen, false)
    case Inline => LoopState(i + 1, false, seen, false)
    case ValueFlag => LoopState(i + 1, true, seen, false)
    case Restore => LoopState(if TakesKey(t, seen, args[i..]) then i + 2 else i + 1, false, seen, false)
    case SwitchFlag => LoopState(if i + 1 < |args| && IsBool(args[i + 1]) then i + 2 else i + 1, false, seen, false)
    case _ => LoopState(i + 1, false, SeesCommand(t, seen, args[i]), true)
  }

  lemma {:induction false} NextTurnIsTurn(t: Tables, args: seq<string>, i: nat, seen: bool)
    requires i < |args|
    ensures var turn, next := CleanTurn(t, args[i..], seen), NextTurn(t, args, i, seen);
      && (next.keep <==> turn == [true])
      && (next.keep ==> next.i == i + 1 && !next.skipNext && next.seen == SeesCommand(t, seen, args[i]))
      && (!next.keep ==> next.seen == seen)
      && (!next.keep && !next.skipNext ==> next.i == i + |turn|)
      && (next.skipNext ==> next.i == i + 1 && |turn| == if i + 1 < |args| then 2 else 1)
  {
    var rest := args[i..];
    assert rest[0] == args[i] && (i + 1 < |args| ==> rest[1] == args[i + 1]);
  }

  lemma {:induction false} LoopTurn(t: Tables, clean: Cleaner, args: seq<string>, i: nat, seen: bool)
    requires CleansByTurns(t, clean) && i < |args|
    ensures var next := NextTurn(t, args, i, seen);
      StillToAdd(clean, args, i, false, seen)
        == (if next.keep then [args[i]] else []) + StillToAdd(clean, args, next.i, next.skipNext, next.seen)
  {
    var rest := args[i..];
    assert CleansTurn(t, clean, rest, seen);
    NextTurnIsTurn(t, args, i, seen);
    assert rest[1..] == args[i + 1..];
    if i + 1 < |args| {
      assert rest[2..] == args[i + 2..];
    } else {
      assert args[i + 1..] == [];
    }
  }

  /** What a loop at (index, `skip_next`, `seen_command`) has still to add, as a value. */
  type Rest = (nat, bool, bool) -> seq<string>

  function RestOf(clean: Cleaner, args: seq<string>): Rest {
    (i: nat, skipNext, seen) => StillToAdd(clean, args, i, skipNext, seen)
  }

  ghost predicate TurnAdds(t: Tables, args: seq<string>, rest: Rest, i: nat, seen: bool)
    requires i < |args|
  {
    var next := NextTurn(t, args, i, seen);
    rest(i, false, seen) == (if next.keep then [args[i]] else []) + rest(next.i, next.skipNext, next.seen)
  }

  ghost predicate IsRest(t: Tables, args: seq<string>, rest: Rest) {
    && (forall skip, seen :: rest(|args|, skip, seen) == [])
    && (forall i: nat, seen | i < |args| :: rest(i, true, seen) == rest(i + 1, false, seen))
    && (forall i: nat, seen | i < |args| :: TurnAdds(t, args, rest, i, seen))
  }

  lemma {:induction false} RestIsRest(t: Tables, clean: Cleaner, args: seq<string>)
    requires CleansByTurns(t, clean)
    ensures IsRest(t, args, RestOf(clean, args)) && RestOf(clean, args)(0, false, false) == clean(args, false)
  {
    forall i: nat, seen | i < |args| ensures TurnAdds(t, args, RestOf(clean, args), i, seen) {
      LoopTurn(t, clean, args, i, seen);
    }
    assert args[|args|..] == [] && args[0..] == args;
  }

  /** `skip_next` drops the value of a flag on the next turn of the loop. */
  method CleanLoop(t: Tables, args: seq<string>, ghost rest: Rest) returns (result: seq<string>)
    requires IsRest(t, args, rest)
    ensures result == rest(0, false, false)
  {
    result := [];
    var skipNext, i, seenCommand := false, 0, false;
    while i < |args|
      invariant i <= |args|
      invariant rest(0, false, false) == result + rest(i, skipNext, seenCommand)
      decreases |args| - i
    {
      var arg := args[i];
      if skipNext {
        skipNext := false;
        i := i + 1;
        continue;
      }
      assert TurnAdds(t, args, rest, i, seenCommand);
      var kind := t.clean(arg);
      if kind == RestoreIs || kind == Inline {
        i := i + 1;
        continue;
      }
      if kind == ValueFlag {
        skipNext := true;
        i := i + 1;
        continue;
      }
      if kind == Restore {
        if !seenCommand && i + 1 < |args| && !Dashed(args[i + 1]) && !t.isCommand(args[i + 1]) {
          i := i + 1;
        }
        i := i + 1;
        continue;
      }
      if kind == SwitchFlag {
        if i + 1 < |args| && IsBool(args[i + 1]) {
          i := i + 1;
        }
        i := i + 1;
        continue;
      }
      if !Dashed(arg) && t.isCommand(arg) {
        seenCommand := true;
      }
      i := i + 1;
      Regroup(result, [arg], rest(i, false, seenCommand));
      result := result + [arg];
    }
  }

  function CleanerOf(t: Tables): Cleaner {
    (args, seen) => Cleaned(t, args, seen)
  }

  lemma {:induction false} CleanedByTurns(t: Tables)
    ensures CleansByTurns(t, CleanerOf(t))
  {
    forall args: seq<string>, seen | args != [] ensures CleansTurn(t, CleanerOf(t), args, seen) {
      CleanedTurn(t, args, seen);
    }
  }

  method CleanArgs(t: Tables, args: seq<string>) returns (result: seq<string>)
    ensures result == Cleaned(t, args, false)
  {
    CleanedByTurns(t);
    RestIsRest(t, CleanerOf(t), args);
    result := CleanLoop(t, args, RestOf(CleanerOf(t), args));
  }

  // ---------------------------------------------------------------- extract_config_path

  /** The path after the first --config: None when there is no --config, Some(None) when it is last. */
  function ExtractFrom(t: Tables, args: seq<string>): Option<Option<string>>
    decreases |args|
  {
    if args == [] then None
    else if t.extract(args[0]) == Config then Some(if |args| > 1 then Some(args[1]) else None)
    else if t.extract(args[0]) == ValueFlag && |args| > 1 then ExtractFrom(t, args[2..])
    else ExtractFrom(t, args[1..])
  }

  method ExtractConfigPath(t: Tables, args: seq<string>) returns (r: Option<Option<string>>)
    ensures r == ExtractFrom(t, args)
  {
    var i := 0;
    while i < |args|
      invariant ExtractFrom(t, if i <= |args| then args[i..] else []) == ExtractFrom(t, args)
      decreases |args| - i
    {
      ghost var rest := args[i..];
      if t.extract(args[i]) == Config {
        return Some(if i + 1 < |args| then Some(args[i + 1]) else None);
      }
      if t.extract(args[i]) == ValueFlag {
        i := i + 1;
      }
      i := i + 1;
      if i <= |args| {
        assert rest[1..] == args[i..] || rest[2..] == args[i..];
      } else {
        assert rest[1..] == [];
      }
    }
    return None;
  }

  // ---------------------------------------------------------------- the scanners keep step

  /** A switch that only `clean_args` knows, standing where `parse_flags` sees a word. */
  predicate ExtraSwitch(t: Tables, args: seq<string>, roles: seq<Role>, i: nat)
    requires |roles| == |args| && i < |args|
  {
    roles[i] == Word && t.clean(args[i]) == SwitchFlag
  }

  /** Words that `clean_args` drops: the extra switches, and a true/false right after one. */
  predicate ExtraDrop(t: Tables, args: seq<string>, roles: seq<Role>, i: nat)
    requires |roles| == |args| && i < |args|
  {
    || ExtraSwitch(t, args, roles, i)
    || (i > 0 && IsBool(args[i]) && ExtraSwitch(t, args, roles, i - 1))
  }

  /** Which tokens should stay, told from the roles alone; `after` says that the token before
      was an extra switch. */
  function Expected(t: Tables, args: seq<string>, roles: seq<Role>, after: bool): (keep: seq<bool>)
    requires |roles| == |args|
    ensures |keep| == |args|
  {
    if args == [] then []
    else
      var extra := roles[0] == Word && t.clean(args[0]) == SwitchFlag;
      [roles[0] == Word && !extra && !(after && IsBool(args[0]))] + Expected(t, args[1..], roles[1..], extra)
  }

  lemma {:induction false} ExpectedAt(t: Tables, args: seq<string>, roles: seq<Role>, after: bool, i: nat)
    requires |roles| == |args| && i < |args|
    ensures Expected(t, args, roles, after)[i]
      <==> roles[i] == Word && !ExtraDrop(t, args, roles, i) && !(i == 0 && after && IsBool(args[0]))
    decreases |args|
  {
    if i > 0 {
      var extra := roles[0] == Word && t.clean(args[0]) == SwitchFlag;
      ExpectedAt(t, args[1..], roles[1..], extra, i - 1);
      if i > 1 {
        assert roles[1..][i - 2] == roles[i - 1] && args[1..][i - 2] == args[i - 1];
      }
    }
  }

  /** Two tokens that neither scanner leaves alone. */
  lemma {:induction false} ExpectedDropsTwo(
    t: Tables, args: seq<string>, first: Role, second: Role, tail: seq<Role>, after: bool)
    requires |args| == 2 + |tail|
    requires (first == Flag && second == Operand)
      || (first == Word && second == Word && t.clean(args[0]) == SwitchFlag
          && IsBool(args[1]) && t.clean(args[1]) == Plain)
    ensures Expected(t, args, [first, second] + tail, after) == [false, false] + Expected(t, args[2..], tail, false)
  {
    var roles := [first, second] + tail;
    assert roles[1..] == [second] + tail && roles[1..][1..] == tail && args[1..][1..] == args[2..];
    assert Expected(t, args[1..], roles[1..], first == Word) == [false] + Expected(t, args[2..], tail, false);
  }

  lemma {:induction false} ExpectedFirst(t: Tables, args: seq<string>, first: Role, tail: seq<Role>, after: bool)
    requires |args| == 1 + |tail|
    ensures var extra := first == Word && t.clean(args[0]) == SwitchFlag;
      Expected(t, args, [first] + tail, after)
        == [first == Word && !extra && !(after && IsBool(args[0]))] + Expected(t, args[1..], tail, extra)
  {
    assert ([first] + tail)[1..] == tail;
  }

  /** One turn of both scanners, in terms of the rest of the arguments. */
  lemma {:induction false} TurnAgrees(t: Tables, args: seq<string>, seen: bool)
    requires Agree(t) && args != []
    ensures var seen' := SeesCommand(t, seen, args[0]);
      var head, turn := Turn(t, args, seen').roles, CleanTurn(t, args, seen);
      || (head == [Word] && turn == [true] && t.clean(args[0]) == Plain)
      || (head == [Word] && turn == [false] && t.clean(args[0]) == SwitchFlag && seen' == seen
          && (|args| > 1 ==> !IsBool(args[1])))
      || (head == [Word] && turn == [false, false] && t.clean(args[0]) == SwitchFlag && seen' == seen
          && IsBool(args[1]))
      || (head == [Flag] && turn == [false] && seen' == seen)
      || (head == [Flag, Operand] && turn == [false, false] && seen' == seen)
  {
  }

  /** A true/false on its own is a word to `parse_flags` and no command word. */
  lemma {:induction false} BoolIsWord(t: Tables, args: seq<string>, seen: bool)
    requires Agree(t) && args != [] && IsBool(args[0])
    ensures ParseFrom(t, args, seen).roles == [Word] + ParseFrom(t, args[1..], seen).roles
    ensures t.clean(args[0]) == Plain
  {
    assert !Dashed(args[0]);
  }

  lemma {:induction false} ParseUnfolds(t: Tables, args: seq<string>, seen: bool)
    requires args != []
    ensures var seen' := SeesCommand(t, seen, args[0]);
      var head := Turn(t, args, seen').roles;
      ParseFrom(t, args, seen).roles == head + ParseFrom(t, args[|head|..], seen').roles
  {
  }

  lemma {:induction false} OneDropOrKeep(t: Tables, args: seq<string>, seen: bool, after: bool)
    requires Agree(t) && args != [] && |CleanTurn(t, args, seen)| == 1 && !(after && IsBool(args[0]))
    requires var head := Turn(t, args, SeesCommand(t, seen, args[0])).roles;
      IsExpected(t, args[1..], SeesCommand(t, seen, args[0]), head == [Word] && CleanTurn(t, args, seen) == [false])
    ensures IsExpected(t, args, seen, after)
  {
    var seen' := SeesCommand(t, seen, args[0]);
    TurnAgrees(t, args, seen);
    ParseUnfolds(t, args, seen);
    ExpectedFirst(t, args, Turn(t, args, seen').roles[0], ParseFrom(t, args[1..], seen').roles, after);
  }

  lemma {:induction false} DropsOperand(t: Tables, args: seq<string>, seen: bool, after: bool)
    requires Agree(t) && |args| > 1 && CleanTurn(t, args, seen) == [false, false]
    requires Turn(t, args, seen).roles == [Flag, Operand] && SeesCommand(t, seen, args[0]) == seen
    requires IsExpected(t, args[2..], seen, false)
    ensures IsExpected(t, args, seen, after)
  {
    ParseUnfolds(t, args, seen);
    ExpectedDropsTwo(t, args, Flag, Operand, ParseFrom(t, args[2..], seen).roles, after);
  }

  lemma {:induction false} TwoWords(t: Tables, args: seq<string>, seen: bool)
    requires Agree(t) && |args| > 1 && IsBool(args[1])
    requires Turn(t, args, seen).roles == [Word] && SeesCommand(t, seen, args[0]) == seen
    ensures ParseFrom(t, args, seen).roles == [Word, Word] + ParseFrom(t, args[2..], seen).roles
  {
    var rest, tail := args[1..], ParseFrom(t, args[2..], seen).roles;
    assert ParseFrom(t, rest, seen).roles == [Word] + tail by {
      BoolIsWord(t, rest, seen);
      assert rest[1..] == args[2..];
    }
    assert ParseFrom(t, args, seen).roles == [Word] + ParseFrom(t, rest, seen).roles by {
      ParseUnfolds(t, args, seen);
    }
    assert [Word] + ([Word] + tail) == [Word, Word] + tail;
  }

  lemma {:induction false} CleanUnfoldsTwo(t: Tables, args: seq<string>, seen: bool)
    requires |args| > 1 && CleanTurn(t, args, seen) == [false, false]
    ensures CleanFrom(t, args, seen) == [false, false] + CleanFrom(t, args[2..], seen)
  {
  }

  lemma {:induction false} DropsBool(t: Tables, args: seq<string>, seen: bool, after: bool)
    requires Agree(t) && |args| > 1 && CleanTurn(t, args, seen) == [false, false]
    requires Turn(t, args, seen).roles == [Word] && SeesCommand(t, seen, args[0]) == seen
    requires t.clean(args[0]) == SwitchFlag && IsBool(args[1])
    requires IsExpected(t, args[2..], seen, false)
    ensures IsExpected(t, args, seen, after)
  {
    TwoWords(t, args, seen);
    CleanUnfoldsTwo(t, args, seen);
    assert t.clean(args[1]) == Plain by { BoolIsWord(t, args[1..], seen); }
    ExpectedDropsTwo(t, args, Word, Word, ParseFrom(t, args[2..], seen).roles, after);
  }

  ghost predicate IsExpected(t: Tables, args: seq<string>, seen: bool, after: bool) {
    CleanFrom(t, args, seen) == Expected(t, args, ParseFrom(t, args, seen).roles, after)
  }

  lemma {:induction false} CleanIsExpected(t: Tables, args: seq<string>, seen: bool, after: bool)
    requires Agree(t)
    requires after && args != [] ==> !IsBool(args[0])
    ensures IsExpected(t, args, seen, after)
    decreases |args|
  {
    if args != [] {
      var seen' := SeesCommand(t, seen, args[0]);
      TurnAgrees(t, args, seen);
      if |CleanTurn(t, args, seen)| == 1 {
        var dropped := Turn(t, args, seen').roles == [Word] && CleanTurn(t, args, seen) == [false];
        CleanIsExpected(t, args[1..], seen', dropped);
        OneDropOrKeep(t, args, seen, after);
      } else {
        CleanIsExpected(t, args[2..], seen, false);
        if Turn(t, args, seen').roles == [Word] {
          DropsBool(t, args, seen, after);
        } else {
          DropsOperand(t, args, seen, after);
        }
      }
    }
  }

  /** The exact relation: a token stays iff `parse_flags` takes it for a word and it is no
      extra drop.  In particular no flag and no operand stays. */
  lemma {:induction false} CleanAgreesWithParse(t: Tables, args: seq<string>, seen: bool, i: nat)
    requires Agree(t) && i < |args|
    ensures var roles := ParseFrom(t, args, seen).roles;
      CleanFrom(t, args, seen)[i] <==> roles[i] == Word && !ExtraDrop(t, args, roles, i)
  {
    CleanIsExpected(t, args, seen, false);
    ExpectedAt(t, args, ParseFrom(t, args, seen).roles, false, i);
  }

  /** Tokens of `cleaned` carry no flag for either scanner. */
  ghost predicate OnlyWords(t: Tables, cleaned: seq<string>) {
    forall s <- cleaned :: t.clean(s) == Plain
  }

  lemma {:induction false} CleanedHasOnlyWords(t: Tables, args: seq<string>, seen: bool)
    requires Agree(t)
    ensures OnlyWords(t, Cleaned(t, args, seen))
    decreases |args|
  {
    if args != [] {
      CleanedTurn(t, args, seen);
      var turn := CleanTurn(t, args, seen);
      CleanedHasOnlyWords(t, args[|turn|..], if turn == [true] then SeesCommand(t, seen, args[0]) else seen);
    }
  }

  /** A word that `clean_args` keeps is no flag for the other two scanners either. */
  lemma {:induction false} WordTurn(t: Tables, words: seq<string>, seen: bool)
    requires Agree(t) && words != [] && t.clean(words[0]) == Plain
    ensures CleanTurn(t, words, seen) == [true]
    ensures Turn(t, words, seen) == Parse([], [Word])
    ensures t.extract(words[0]) == Plain
  {
  }

  lemma {:induction false} WordsAreKept(t: Tables, words: seq<string>, seen: bool)
    requires Agree(t) && OnlyWords(t, words)
    ensures Cleaned(t, words, seen) == words
    decreases |words|
  {
    if words != [] {
      assert words[0] in words && OnlyWords(t, words[1..]);
      WordTurn(t, words, seen);
      CleanedTurn(t, words, seen);
      WordsAreKept(t, words[1..], SeesCommand(t, seen, words[0]));
      assert words == [words[0]] + words[1..];
    }
  }

  lemma {:induction false} WordsSetNothing(t: Tables, words: seq<string>, seen: bool)
    requires Agree(t) && OnlyWords(t, words)
    ensures ParseFrom(t, words, seen).events == []
    decreases |words|
  {
    if words != [] {
      assert words[0] in words && OnlyWords(t, words[1..]);
      WordTurn(t, words, SeesCommand(t, seen, words[0]));
      WordsSetNothing(t, words[1..], SeesCommand(t, seen, words[0]));
    }
  }

  lemma {:induction false} WordsHoldNoConfig(t: Tables, words: seq<string>)
    requires Agree(t) && OnlyWords(t, words)
    ensures ExtractFrom(t, words) == None
    decreases |words|
  {
    if words != [] {
      assert words[0] in words && OnlyWords(t, words[1..]);
      WordTurn(t, words, false);
      WordsHoldNoConfig(t, words[1..]);
    }
  }

  /** Cleaning is idempotent; on cleaned arguments `parse_flags` assigns nothing, exactly as on
      no arguments at all, and there is no --config. */
  lemma {:induction false} CleanIsFinal(t: Tables, args: seq<string>, seen: bool)
    requires Agree(t)
    ensures var cleaned := Cleaned(t, args, seen);
      && Cleaned(t, cleaned, seen) == cleaned
      && ParseFrom(t, cleaned, seen).events == ParseFrom(t, [], seen).events
      && ExtractFrom(t, cleaned) == None
  {
    CleanedHasOnlyWords(t, args, seen);
    WordsAreKept(t, Cleaned(t, args, seen), seen);
    WordsSetNothing(t, Cleaned(t, args, seen), seen);
    WordsHoldNoConfig(t, Cleaned(t, args, seen));
  }

  /** Position i is a --config that `parse_flags` visits as a flag. */
  predicate VisitsConfig(t: Tables, args: seq<string>, roles: seq<Role>, i: nat)
    requires |roles| == |args| && i < |args|
  {
    roles[i] == Flag && t.parse(args[i]) == Config
  }

  /** Position i is the first --config that `parse_flags` visits, and `path` is what follows it. */
  ghost predicate FirstVisit(t: Tables, args: seq<string>, roles: seq<Role>, i: nat, path: Option<string>)
    requires |roles| == |args|
  {
    && i < |args| && VisitsConfig(t, args, roles, i)
    && (forall j | 0 <= j < i :: !VisitsConfig(t, args, roles, j))
    && path == if i + 1 < |args| then Some(args[i + 1]) else None
  }

  ghost predicate NoVisit(t: Tables, args: seq<string>, roles: seq<Role>)
    requires |roles| == |args|
  {
    forall i | 0 <= i < |args| :: !VisitsConfig(t, args, roles, i)
  }

  lemma {:induction false} VisitsShift(t: Tables, args: seq<string>, head: seq<Role>, tail: seq<Role>)
    requires |head| + |tail| == |args|
    requires forall i | 0 <= i < |head| :: !VisitsConfig(t, args, head + tail, i)
    ensures NoVisit(t, args[|head|..], tail) ==> NoVisit(t, args, head + tail)
    ensures forall k: nat, path | FirstVisit(t, args[|head|..], tail, k, path) ::
      FirstVisit(t, args, head + tail, k + |head|, path)
  {
    forall i | |head| <= i < |args|
      ensures VisitsConfig(t, args, head + tail, i) == VisitsConfig(t, args[|head|..], tail, i - |head|)
    {
      assert (head + tail)[i] == tail[i - |head|] && args[i] == args[|head|..][i - |head|];
    }
  }

  /** `extract_config_path` finds the first --config that `parse_flags` visits, and nothing else. */
  lemma {:induction false} ExtractFindsFirstVisited(t: Tables, args: seq<string>, seen: bool)
    requires Agree(t)
    ensures ExtractFrom(t, args) == None ==> NoVisit(t, args, ParseFrom(t, args, seen).roles)
    ensures ExtractFrom(t, args).Some? ==>
      exists i: nat :: FirstVisit(t, args, ParseFrom(t, args, seen).roles, i, ExtractFrom(t, args).value)
    decreases |args|
  {
    if args != [] {
      var seen' := SeesCommand(t, seen, args[0]);
      var head := Turn(t, args, seen').roles;
      var tail := ParseFrom(t, args[|head|..], seen').roles;
      TurnAgrees(t, args, seen);
      ParseUnfolds(t, args, seen);
      if t.parse(args[0]) == Config {
        assert FirstVisit(t, args, head + tail, 0, ExtractFrom(t, args).value);
      } else {
        ExtractSkipsTurn(t, args, seen');
        ExtractFindsFirstVisited(t, args[|head|..], seen');
        VisitsShift(t, args, head, tail);
        if ExtractFrom(t, args).Some? {
          var k: nat :| FirstVisit(t, args[|head|..], tail, k, ExtractFrom(t, args).value);
          assert FirstVisit(t, args, head + tail, k + |head|, ExtractFrom(t, args).value);
        }
      }
    }
  }

  /** Operands that `extract_config_path` does not skip are harmless to it. */
  lemma {:induction false} ExtractSkipsTurn(t: Tables, args: seq<string>, seen: bool)
    requires Agree(t) && args != [] && t.parse(args[0]) != Config
    ensures ExtractFrom(t, args) == ExtractFrom(t, args[|Turn(t, args, seen).roles|..])
  {
    if |Turn(t, args, seen).roles| == 2 && t.parse(args[0]) != ValueFlag {
      assert !Dashed(args[1]) && t.parse(args[1]) == Plain;
      assert args[1..][1..] == args[2..];
    }
  }
}
