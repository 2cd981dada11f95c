/**
 What `parse_flags` makes of an argument vector, told from the tokens alone: which token is what,
 and which assignments are made, in order.
*/
module ArgEvents {
  import opened ArgScan

  // ---------------------------------------------------------------- what each token is

  /** A command stands at or before position i, at a place where the scan looks for one. */
  ghost predicate CommandSeen(t: Tables, args: seq<string>, roles: seq<Role>, seen: bool, i: int)
    requires |roles| == |args| && i < |args|
  {
    seen || exists j | 0 <= j <= i :: roles[j] != Operand && !Dashed(args[j]) && t.isCommand(args[j])
  }

  /** The flag at position i takes the next token along: a switch only `true` or `false`, a flag with
      a value whatever there is, and --restore a word that is no command, before any command. */
  ghost predicate TakesNext(t: Tables, args: seq<string>, roles: seq<Role>, seen: bool, i: int)
    requires |roles| == |args| && 0 <= i < |args|
  {
    && i + 1 < |args|
    && match t.parse(args[i])
       case SwitchFlag => args[i + 1] == "true" || args[i + 1] == "false"
       case ValueFlag => true
       case Config => true
       case Restore =>
         !CommandSeen(t, args, roles, seen, i) && !Dashed(args[i + 1]) && !t.isCommand(args[i + 1])
       case _ => false
  }

  ghost predicate IsOperand(t: Tables, args: seq<string>, roles: seq<Role>, seen: bool, i: int)
    requires |roles| == |args| && 0 <= i < |args|
  {
    i > 0 && roles[i - 1] == Flag && TakesNext(t, args, roles, seen, i - 1)
  }

  /** A token is an operand when the flag in front takes it, and else a flag or a word by itself. */
  ghost predicate RoleIs(t: Tables, args: seq<string>, roles: seq<Role>, seen: bool, i: int)
    requires |roles| == |args| && 0 <= i < |args|
  {
    && (roles[i] == Operand <==> IsOperand(t, args, roles, seen, i))
    && (roles[i] != Operand ==> (roles[i] == Word <==> t.parse(args[i]) == Plain))
  }

  ghost predicate RolesAre(t: Tables, args: seq<string>, roles: seq<Role>, seen: bool) {
    |roles| == |args| && forall i | 0 <= i < |args| :: RoleIs(t, args, roles, seen, i)
  }

  /** The scan behind its first turn sees what the whole scan sees there. */
  lemma {:induction false} SeenBehind(
    t: Tables, args: seq<string>, roles: seq<Role>, seen: bool, n: nat, i: int)
    requires |roles| == |args| && (n == 1 || (n == 2 && |args| > 1 && roles[1] == Operand))
    requires args != [] && roles[0] != Operand && n <= i < |args|
    ensures CommandSeen(t, args, roles, seen, i)
      <==> CommandSeen(t, args[n..], roles[n..], SeesCommand(t, seen, args[0]), i - n)
  {
    var rest, later := args[n..], roles[n..];
    forall j | 0 <= j < |rest| ensures rest[j] == args[j + n] && later[j] == roles[j + n] {
    }
    if exists j | 0 <= j <= i :: roles[j] != Operand && !Dashed(args[j]) && t.isCommand(args[j]) {
      var j :| 0 <= j <= i && roles[j] != Operand && !Dashed(args[j]) && t.isCommand(args[j]);
      if j >= n {
        assert later[j - n] != Operand && !Dashed(rest[j - n]) && t.isCommand(rest[j - n]);
      }
    }
    if exists j | 0 <= j <= i - n :: later[j] != Operand && !Dashed(rest[j]) && t.isCommand(rest[j]) {
      var j :| 0 <= j <= i - n && later[j] != Operand && !Dashed(rest[j]) && t.isCommand(rest[j]);
      assert roles[j + n] != Operand && !Dashed(args[j + n]) && t.isCommand(args[j + n]);
    }
  }

  /** What the tokens of one turn are. */
  lemma {:induction false} TurnRoles(t: Tables, args: seq<string>, roles: seq<Role>, seen: bool)
    requires args != [] && |roles| == |args|
    requires var turn := Turn(t, args, SeesCommand(t, seen, args[0])).roles; roles[..|turn|] == turn
    ensures var turn := Turn(t, args, SeesCommand(t, seen, args[0])).roles;
      && (turn == [Flag] || turn == [Word] || turn == [Flag, Operand])
      && (|turn| == 2 <==> turn[0] == Flag && TakesNext(t, args, roles, seen, 0))
      && (turn == [Word] <==> t.parse(args[0]) == Plain)
      && roles[0] == turn[0] && (|turn| == 2 ==> roles[1] == Operand)
  {
    var turn := Turn(t, args, SeesCommand(t, seen, args[0])).roles;
    assert roles[0] == roles[..|turn|][0];
    assert |turn| == 2 ==> roles[1] == roles[..|turn|][1];
    assert CommandSeen(t, args, roles, seen, 0) <==> SeesCommand(t, seen, args[0]);
  }

  lemma {:induction false} RoleBehind(
    t: Tables, args: seq<string>, roles: seq<Role>, seen: bool, n: nat, i: int)
    requires |roles| == |args| && (n == 1 || (n == 2 && |args| > 1 && roles[1] == Operand))
    requires args != [] && roles[0] != Operand && n <= i < |args|
    requires n == 1 ==> !(roles[0] == Flag && TakesNext(t, args, roles, seen, 0))
    requires RoleIs(t, args[n..], roles[n..], SeesCommand(t, seen, args[0]), i - n)
    ensures RoleIs(t, args, roles, seen, i)
  {
    if i > n {
      SeenBehind(t, args, roles, seen, n, i - 1);
      assert args[n..][i - n] == args[i] && args[n..][i - 1 - n] == args[i - 1];
    }
  }

  /** Every token is what the tokens say it is. */
  lemma {:induction false} RolesOfParse(t: Tables, args: seq<string>, seen: bool)
    ensures RolesAre(t, args, ParseFrom(t, args, seen).roles, seen)
    decreases |args|
  {
    if args != [] {
      var roles, seen' := ParseFrom(t, args, seen).roles, SeesCommand(t, seen, args[0]);
      var turn := Turn(t, args, seen').roles;
      var n := |turn|;
      RolesOfParse(t, args[n..], seen');
      assert roles[..n] == turn && roles[n..] == ParseFrom(t, args[n..], seen').roles;
      TurnRoles(t, args, roles, seen);
      forall i | 0 <= i < |args| ensures RoleIs(t, args, roles, seen, i) {
        if i >= n {
          RoleBehind(t, args, roles, seen, n, i);
        }
      }
    }
  }

  /** And nothing else. */
  lemma {:induction false} RolesAreUnique(t: Tables, args: seq<string>, a: seq<Role>, b: seq<Role>, seen: bool, i: nat)
    requires RolesAre(t, args, a, seen) && RolesAre(t, args, b, seen) && i <= |args|
    ensures a[..i] == b[..i]
  {
    if i > 0 {
      RolesAreUnique(t, args, a, b, seen, i - 1);
      assert forall j | 0 <= j < i - 1 :: a[..i - 1][j] == a[j] && b[..i - 1][j] == b[j];
      assert RoleIs(t, args, a, seen, i - 1) && RoleIs(t, args, b, seen, i - 1);
      if i > 1 {
        assert CommandSeen(t, args, a, seen, i - 2) == CommandSeen(t, args, b, seen, i - 2);
      }
    }
  }

  // ---------------------------------------------------------------- the assignments

  /** The flag at position i assigns something: all but --config, and a flag with a value only if
      there is one. */
  predicate Assigns(t: Tables, args: seq<string>, roles: seq<Role>, i: int)
    requires |roles| == |args| && 0 <= i < |args|
  {
    roles[i] == Flag && t.parse(args[i]) != Config && (t.parse(args[i]) == ValueFlag ==> i + 1 < |args|)
  }

  /** What it assigns: a switch is off if and only if `false` follows, a flag with a value gets the
      next token, and --restore that token if and only if it takes it. */
  predicate Tells(t: Tables, args: seq<string>, roles: seq<Role>, i: int, e: Event)
    requires |roles| == |args| && 0 <= i < |args|
  {
    match t.parse(args[i])
    case SwitchFlag => e.SetSwitch? && e.flag == args[i] && (!e.on <==> i + 1 < |args| && args[i + 1] == "false")
    case ValueFlag => i + 1 < |args| && e.SetValue? && e.flag == args[i] && e.value == args[i + 1]
    case Restore =>
      if i + 1 < |args| && roles[i + 1] == Operand then e.RestoreKey? && e.key == args[i + 1] else e.RestoreSession?
    case RestoreIs => e.SetInline? && e.token == args[i]
    case Inline => e.SetInline? && e.token == args[i]
    case _ => false
  }

  /** The events are those of the positions `at`: all that assign, in order. */
  ghost predicate AreEvents(t: Tables, args: seq<string>, roles: seq<Role>, events: seq<Event>, at: seq<nat>) {
    && |roles| == |args| && |at| == |events|
    && AllTell(t, args, roles, events, at)
    && Increasing(at)
    && AreAll(t, args, roles, at, 0)
  }

  ghost predicate Increasing(at: seq<nat>) {
    forall m, k | 0 <= m < k < |at| :: at[m] < at[k]
  }

  ghost predicate AllTell(t: Tables, args: seq<string>, roles: seq<Role>, events: seq<Event>, at: seq<nat>)
    requires |roles| == |args| && |at| == |events|
  {
    forall m | 0 <= m < |at| :: at[m] < |args| && Tells(t, args, roles, at[m], events[m])
  }

  /** From `low` on, these are the positions that assign. */
  ghost predicate AreAll(t: Tables, args: seq<string>, roles: seq<Role>, at: seq<nat>, low: nat)
    requires |roles| == |args|
  {
    forall i: nat | low <= i < |args| :: i in at <==> Assigns(t, args, roles, i)
  }

  function Shifted(at: seq<nat>, n: nat): (r: seq<nat>)
    ensures |r| == |at| && forall m | 0 <= m < |at| :: r[m] == at[m] + n
  {
    seq(|at|, m requires 0 <= m < |at| => at[m] + n)
  }

  lemma {:induction false} ShiftedHas(at: seq<nat>, n: nat, i: nat)
    ensures i in Shifted(at, n) <==> i >= n && i - n in at
  {
    if i >= n && i - n in at {
      var m :| 0 <= m < |at| && at[m] == i - n;
      assert Shifted(at, n)[m] == i;
    }
  }

  lemma {:induction false} TellsBehind(t: Tables, args: seq<string>, roles: seq<Role>, n: nat, i: nat, e: Event)
    requires |roles| == |args| && n <= |args| && i < |args| - n
    ensures Tells(t, args[n..], roles[n..], i, e) == Tells(t, args, roles, i + n, e)
    ensures Assigns(t, args[n..], roles[n..], i) == Assigns(t, args, roles, i + n)
  {
    assert args[n..][i] == args[i + n] && roles[n..][i] == roles[i + n];
    assert i + 1 < |args| - n ==> args[n..][i + 1] == args[i + 1 + n] && roles[n..][i + 1] == roles[i + 1 + n];
  }

  /** The event of a turn, if it has one. */
  lemma {:induction false} TurnEvents(t: Tables, args: seq<string>, roles: seq<Role>, seen: bool)
    requires args != [] && |roles| == |args| && RolesAre(t, args, roles, seen)
    requires var turn := Turn(t, args, SeesCommand(t, seen, args[0])).roles; roles[..|turn|] == turn
    ensures var events := Turn(t, args, SeesCommand(t, seen, args[0])).events;
      && |events| == (if Assigns(t, args, roles, 0) then 1 else 0)
      && (Assigns(t, args, roles, 0) ==> Tells(t, args, roles, 0, events[0]))
  {
    TurnRoles(t, args, roles, seen);
    if |args| > 1 {
      assert RoleIs(t, args, roles, seen, 1);
    }
  }

  lemma {:induction false} LaterTell(
    t: Tables, args: seq<string>, roles: seq<Role>, n: nat, rest: seq<Event>, at: seq<nat>)
    requires |roles| == |args| && n <= |args| && AreEvents(t, args[n..], roles[n..], rest, at)
    ensures AllTell(t, args, roles, rest, Shifted(at, n)) && AreAll(t, args, roles, Shifted(at, n), n)
  {
    forall m | 0 <= m < |at| ensures at[m] + n < |args| && Tells(t, args, roles, at[m] + n, rest[m]) {
      TellsBehind(t, args, roles, n, at[m], rest[m]);
    }
    forall i: nat | n <= i < |args| ensures i in Shifted(at, n) <==> Assigns(t, args, roles, i) {
      ShiftedHas(at, n, i);
      TellsBehind(t, args, roles, n, i - n, RestoreSession);
    }
  }

  lemma {:induction false} ShiftedIncrease(at: seq<nat>, n: nat)
    requires Increasing(at) && n > 0
    ensures Increasing(Shifted(at, n)) && Increasing([0] + Shifted(at, n))
  {
  }

  lemma {:induction false} AddFirst(
    t: Tables, args: seq<string>, roles: seq<Role>, e: Event, rest: seq<Event>, later: seq<nat>)
    requires args != [] && |roles| == |args| && |later| == |rest|
    requires Tells(t, args, roles, 0, e) && AllTell(t, args, roles, rest, later)
    ensures AllTell(t, args, roles, [e] + rest, [0] + later)
  {
    var at, events := [0] + later, [e] + rest;
    forall m | 0 <= m < |at| ensures at[m] < |args| && Tells(t, args, roles, at[m], events[m]) {
      if m > 0 {
        assert at[m] == later[m - 1] && events[m] == rest[m - 1];
      }
    }
  }

  /** The positions of one turn and those behind it. */
  lemma {:induction false} AllFromStart(t: Tables, args: seq<string>, roles: seq<Role>, n: nat, later: seq<nat>)
    requires args != [] && |roles| == |args| && 1 <= n <= 2 && n <= |args| && (n == 2 ==> roles[1] != Flag)
    requires AreAll(t, args, roles, later, n) && forall m | 0 <= m < |later| :: n <= later[m]
    ensures AreAll(t, args, roles, if Assigns(t, args, roles, 0) then [0] + later else later, 0)
  {
  }

  lemma {:induction false} EventsCons(
    t: Tables, args: seq<string>, roles: seq<Role>, n: nat, first: seq<Event>, rest: seq<Event>, at: seq<nat>)
    returns (all: seq<nat>)
    requires args != [] && |roles| == |args| && 1 <= n <= |args| && n <= 2 && (n == 2 ==> roles[1] != Flag)
    requires |first| == (if Assigns(t, args, roles, 0) then 1 else 0)
    requires Assigns(t, args, roles, 0) ==> Tells(t, args, roles, 0, first[0])
    requires AreEvents(t, args[n..], roles[n..], rest, at)
    ensures AreEvents(t, args, roles, first + rest, all)
  {
    var later := Shifted(at, n);
    LaterTell(t, args, roles, n, rest, at);
    AllFromStart(t, args, roles, n, later);
    ShiftedIncrease(at, n);
    if Assigns(t, args, roles, 0) {
      AddFirst(t, args, roles, first[0], rest, later);
      assert first == [first[0]];
      all := [0] + later;
    } else {
      assert first + rest == rest;
      all := later;
    }
  }

  /** `parse_flags` makes exactly these assignments, in order. */
  lemma {:induction false} EventsOfParse(t: Tables, args: seq<string>, seen: bool) returns (at: seq<nat>)
    ensures var p := ParseFrom(t, args, seen); AreEvents(t, args, p.roles, p.events, at)
    decreases |args|
  {
    at := [];
    if args != [] {
      var p, seen' := ParseFrom(t, args, seen), SeesCommand(t, seen, args[0]);
      var turn := Turn(t, args, seen');
      var n := |turn.roles|;
      var rest := ParseFrom(t, args[n..], seen');
      assert p.roles[..n] == turn.roles && p.roles[n..] == rest.roles;
      RolesOfParse(t, args, seen);
      TurnRoles(t, args, p.roles, seen);
      TurnEvents(t, args, p.roles, seen);
      var later := EventsOfParse(t, args[n..], seen');
      at := EventsCons(t, args, p.roles, n, turn.events, rest.events, later);
    }
  }
}
