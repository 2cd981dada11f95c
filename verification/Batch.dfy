/**
 `run_batch` of main.rs with `--json`: the loop over the commands, with and without `--bail`,
 against any daemon whose replies are a function of its state.
*/
module Batch {
  import opened Option
  import opened Requests

  datatype Answer<D> = Answer(success: bool, data: D, error: Option<string>)

  datatype Parsed<C> = Parsed(command: C) | BadCommand(error: string)

  datatype Entry<D> = Entry(command: seq<string>, success: bool, result: Option<D>, error: Option<string>)

  /** The daemon and `parse_command` with what is attached to its result. */
  datatype Context<!W, !C, !D> = Context(server: Server<W, C, Answer<D>>, parse: seq<string> -> Parsed<C>)

  /** A run: the state it leaves, what it recorded, and how often it connected to the daemon. */
  datatype Run<W, D> = Run(world: W, results: seq<Entry<D>>, connections: nat)

  // ---------------------------------------------------------------- one command

  function EntryOf<D>(args: seq<string>, reply: Reply<Answer<D>>): Entry<D> {
    match reply
    case Response(a) => Entry(args, a.success, Some(a.data), a.error)
    case Error(message) => Entry(args, false, None, Some(message))
  }

  function RunOne<W, C, D>(ctx: Context<W, C, D>, w: W, args: seq<string>): Run<W, D> {
    match ctx.parse(args)
    case BadCommand(error) => Run(w, [Entry(args, false, None, Some(error))], 0)
    case Parsed(command) =>
      var o := SendWithRespawn(ctx.server, w, command);
      Run(o.world, [EntryOf(args, o.reply)], o.used)
  }

  /** The command was understood, and this is what the daemon answered. */
  predicate Answered<W, C, D(==)>(ctx: Context<W, C, D>, w: W, args: seq<string>, answer: Answer<D>) {
    && ctx.parse(args).Parsed?
    && SendWithRespawn(ctx.server, w, ctx.parse(args).command).reply == Response(answer)
  }

  lemma {:induction false} RunOneCost<W, C, D>(ctx: Context<W, C, D>, w: W, args: seq<string>)
    ensures var r := RunOne(ctx, w, args);
      |r.results| == 1 && r.results[0].command == args && r.connections <= 2 * MAX_RETRIES
  {
    match ctx.parse(args)
    case BadCommand(_) =>
    case Parsed(command) =>
      var _, _ := RespawnCost(ctx.server, w, command);
  }

  /** Every command leaves one entry: a success exactly when the command was understood and the
      daemon answered with one; without an answer there is an error text and no result. */
  lemma {:induction false} RunOneRecords<W, C, D>(ctx: Context<W, C, D>, w: W, args: seq<string>)
    ensures var r := RunOne(ctx, w, args);
      && |r.results| == 1 && r.results[0].command == args
      && (r.results[0].success <==> exists answer :: Answered(ctx, w, args, answer) && answer.success)
      && (forall answer | Answered(ctx, w, args, answer) ::
            r.results[0].result == Some(answer.data) && r.results[0].error == answer.error)
      && ((forall answer :: !Answered(ctx, w, args, answer)) ==> r.results[0].result.None? && r.results[0].error.Some?)
  {
    RunOneCost(ctx, w, args);
    if ctx.parse(args).Parsed? {
      var o := SendWithRespawn(ctx.server, w, ctx.parse(args).command);
      if o.reply.Response? {
        assert Answered(ctx, w, args, o.reply.response);
      }
    }
  }

  // ---------------------------------------------------------------- the loop

  function Then<W, D>(first: Run<W, D>, second: Run<W, D>): Run<W, D> {
    Run(second.world, first.results + second.results, first.connections + second.connections)
  }

  predicate Failed<W, D>(run: Run<W, D>) {
    exists i | 0 <= i < |run.results| :: !run.results[i].success
  }

  /** All commands in order; with `bail`, up to the first failure. */
  function RunAll<W, C, D>(ctx: Context<W, C, D>, w: W, commands: seq<seq<string>>, bail: bool): Run<W, D> {
    if commands == [] then Run(w, [], 0)
    else if commands[0] == [] then RunAll(ctx, w, commands[1..], bail)
    else
      var one := RunOne(ctx, w, commands[0]);
      if bail && Failed(one) then one else Then(one, RunAll(ctx, one.world, commands[1..], bail))
  }

  /** The loop. `hadError` becomes the exit status. */
  method RunBatch<W, C, D>(ctx: Context<W, C, D>, w: W, commands: seq<seq<string>>, bail: bool)
    returns (run: Run<W, D>, hadError: bool)
    ensures run == RunAll(ctx, w, commands, bail)
    ensures hadError <==> Failed(run)
  {
    run, hadError := Run(w, [], 0), false;
    var todo := commands;
    ghost var goal := RunAll(ctx, w, commands, bail);
    while todo != []
      invariant goal == Then(run, RunAll(ctx, run.world, todo, bail))
      invariant hadError <==> Failed(run)
      invariant bail ==> !hadError
      decreases |todo|
    {
      var args := todo[0];
      if args == [] {
        todo := todo[1..];
        continue;
      }
      var one := RunOne(ctx, run.world, args);
      RunOneCost(ctx, run.world, args);
      FailedThen(run, one);
      ThenRegroup(run, one, RunAll(ctx, one.world, todo[1..], bail));
      run := Then(run, one);
      if !one.results[0].success {
        hadError := true;
        if bail {
          break;
        }
      }
      todo := todo[1..];
    }
  }

  lemma {:induction false} FailedThen<W, D>(first: Run<W, D>, second: Run<W, D>)
    ensures Failed(Then(first, second)) <==> Failed(first) || Failed(second)
  {
    var both := Then(first, second).results;
    if Failed(first) {
      var i :| 0 <= i < |first.results| && !first.results[i].success;
      assert !both[i].success;
    } else if Failed(second) {
      var i :| 0 <= i < |second.results| && !second.results[i].success;
      assert !both[|first.results| + i].success;
    }
  }

  lemma {:induction false} ThenRegroup<W, D>(a: Run<W, D>, b: Run<W, D>, c: Run<W, D>)
    ensures Then(a, Then(b, c)) == Then(Then(a, b), c)
  {
    assert a.results + (b.results + c.results) == (a.results + b.results) + c.results;
  }

  // ---------------------------------------------------------------- bail is a prefix

  /** The entries up to and with the first failure. */
  function CutAfterFailure<D>(entries: seq<Entry<D>>): seq<Entry<D>> {
    if entries == [] then []
    else if !entries[0].success then [entries[0]]
    else [entries[0]] + CutAfterFailure(entries[1..])
  }

  /** The cut is the shortest prefix with a failure, or everything. */
  lemma {:induction false} CutIsAPrefix<D>(entries: seq<Entry<D>>)
    ensures CutAfterFailure(entries) <= entries
    ensures var n := |CutAfterFailure(entries)|;
      && (forall i | 0 <= i < n - 1 :: entries[i].success)
      && (n < |entries| ==> n > 0 && !entries[n - 1].success)
  {
    if entries != [] && entries[0].success {
      CutIsAPrefix(entries[1..]);
    }
  }

  /** With `--bail` the recorded results are those of the run without it, cut just after the first
      failure, and the daemon is left as a run of some first part of the commands leaves it. */
  lemma {:induction false} BailIsAPrefix<W, C, D>(
    ctx: Context<W, C, D>, w: W, commands: seq<seq<string>>) returns (m: nat)
    ensures RunAll(ctx, w, commands, true).results == CutAfterFailure(RunAll(ctx, w, commands, false).results)
    ensures m <= |commands| && RunAll(ctx, w, commands, true) == RunAll(ctx, w, commands[..m], false)
    ensures m < |commands| ==> Failed(RunAll(ctx, w, commands, true))
  {
    if commands == [] {
      m := 0;
    } else {
      assert forall k | 0 <= k < |commands| ::
        commands[..k + 1][0] == commands[0] && commands[..k + 1][1..] == commands[1..][..k];
      var one := RunOne(ctx, w, commands[0]);
      RunOneCost(ctx, w, commands[0]);
      if commands[0] != [] && Failed(one) {
        m := 1;
        assert commands[..1][1..] == [];
        assert Then(one, Run(one.world, [], 0)) == one;
      } else {
        var w1 := if commands[0] == [] then w else one.world;
        var k := BailIsAPrefix(ctx, w1, commands[1..]);
        m := k + 1;
        assert commands[..m][1..] == commands[1..][..k];
        if commands[0] != [] {
          FailedThen(one, RunAll(ctx, w1, commands[1..], true));
          var e := one.results[0];
          assert one.results == [e] && e.success;
          var full := RunAll(ctx, w, commands, false).results;
          assert full[0] == e && full[1..] == RunAll(ctx, w1, commands[1..], false).results;
        }
      }
    }
  }

  // ---------------------------------------------------------------- one result a command

  function NonEmpty(commands: seq<seq<string>>): seq<seq<string>> {
    if commands == [] then []
    else (if commands[0] == [] then [] else [commands[0]]) + NonEmpty(commands[1..])
  }

  function CommandsOf<D>(entries: seq<Entry<D>>): seq<seq<string>> {
    seq(|entries|, i requires 0 <= i < |entries| => entries[i].command)
  }

  lemma {:induction false} CommandsOfThen<W, D>(one: Run<W, D>, rest: Run<W, D>)
    requires |one.results| == 1
    ensures CommandsOf(Then(one, rest).results) == [one.results[0].command] + CommandsOf(rest.results)
  {
  }

  /** Without `--bail` every command with words has exactly one result, in order; each costs at
      most ten connections. */
  lemma {:induction false} OneResultPerCommand<W, C, D>(ctx: Context<W, C, D>, w: W, commands: seq<seq<string>>)
    ensures var run := RunAll(ctx, w, commands, false);
      CommandsOf(run.results) == NonEmpty(commands) && run.connections <= 2 * MAX_RETRIES * |run.results|
  {
    if commands != [] {
      if commands[0] == [] {
        OneResultPerCommand(ctx, w, commands[1..]);
      } else {
        var one := RunOne(ctx, w, commands[0]);
        RunOneCost(ctx, w, commands[0]);
        OneResultPerCommand(ctx, one.world, commands[1..]);
        CommandsOfThen(one, RunAll(ctx, one.world, commands[1..], false));
      }
    }
  }

  // ---------------------------------------------------------------- the states of a run

  /** What one command does: from w it leaves w2 and records the entry. A command that does not parse
      never reaches the daemon. */
  predicate Does<W(==), C, D(==)>(ctx: Context<W, C, D>, w: W, w2: W, e: Entry<D>) {
    match ctx.parse(e.command)
    case BadCommand(error) => w2 == w && e == Entry(e.command, false, None, Some(error))
    case Parsed(command) =>
      var o := SendWithRespawn(ctx.server, w, command);
      && w2 == o.world
      && match o.reply
         case Response(a) => e == Entry(e.command, a.success, Some(a.data), a.error)
         case Error(message) => e == Entry(e.command, false, None, Some(message))
  }

  /** The states between the commands: each command meets the state that the one before it left. */
  ghost predicate AreStates<W, C, D>(ctx: Context<W, C, D>, w: W, run: Run<W, D>, ws: seq<W>) {
    && |ws| == |run.results| + 1 && ws[0] == w && ws[|run.results|] == run.world
    && forall i | 0 <= i < |run.results| :: Does(ctx, ws[i], ws[i + 1], run.results[i])
  }

  lemma {:induction false} OneDoes<W, C, D>(ctx: Context<W, C, D>, w: W, args: seq<string>)
    ensures var one := RunOne(ctx, w, args);
      |one.results| == 1 && one.results[0].command == args && Does(ctx, w, one.world, one.results[0])
  {
  }

  lemma {:induction false} StatesAfterOne<W, C, D>(
    ctx: Context<W, C, D>, w: W, one: Run<W, D>, rest: Run<W, D>, ws: seq<W>)
    requires |one.results| == 1 && Does(ctx, w, one.world, one.results[0]) && AreStates(ctx, one.world, rest, ws)
    ensures AreStates(ctx, w, Then(one, rest), [w] + ws)
  {
    var all := [w] + ws;
    forall i | 0 <= i < |rest.results| + 1 ensures Does(ctx, all[i], all[i + 1], Then(one, rest).results[i]) {
      if i > 0 {
        assert Does(ctx, ws[i - 1], ws[i - 1 + 1], rest.results[i - 1]);
      }
    }
  }

  lemma {:induction false} StatesOfOne<W, C, D>(ctx: Context<W, C, D>, w: W, one: Run<W, D>) returns (ws: seq<W>)
    requires |one.results| == 1 && Does(ctx, w, one.world, one.results[0])
    ensures AreStates(ctx, w, one, ws)
  {
    ws := [w, one.world];
  }

  /** Every run, with or without `--bail`, has such states: each command is sent to the daemon as its
      predecessor left it. */
  lemma {:induction false} CommandsFollow<W, C, D>(
    ctx: Context<W, C, D>, w: W, commands: seq<seq<string>>, bail: bool) returns (ws: seq<W>)
    ensures AreStates(ctx, w, RunAll(ctx, w, commands, bail), ws)
  {
    if commands == [] {
      ws := [w];
    } else if commands[0] == [] {
      ws := CommandsFollow(ctx, w, commands[1..], bail);
    } else {
      var one := RunOne(ctx, w, commands[0]);
      OneDoes(ctx, w, commands[0]);
      if bail && Failed(one) {
        ws := StatesOfOne(ctx, w, one);
      } else {
        var more := CommandsFollow(ctx, one.world, commands[1..], bail);
        StatesAfterOne(ctx, w, one, RunAll(ctx, one.world, commands[1..], bail), more);
        ws := [w] + more;
      }
    }
  }
}
