/**
 What the results of `ensure_daemon` mean, and who writes `.config`, in every run.
*/
module DaemonResults {
  import opened Option
  import opened Daemon
  import opened DaemonCapacity

  predicate ActsAt(s: State, a: Action, c: ClientId, pc: PC) {
    a.ClientStep? && a.c == c && c in s.clients && s.clients[c].pc == pc
  }

  /** The step at which client c finds its own child in the `.pid` file. */
  predicate SeesOwnPid(s: State, a: Action, c: ClientId) {
    ActsAt(s, a, c, Awaiting(CheckPid)) && PidMatches(s.w, s.clients[c])
  }

  /** The step at which client c gets a child process. */
  predicate SpawnsPid(s: State, a: Action, c: ClientId, p: Pid) {
    && a.ClientStep? && a.c == c && c in s.clients && s.clients[c].pc.Spawn?
    && a.choice.flag && a.choice.pid == p
  }

  // ---------------------------------------------------------------- one client over a run

  lemma {:induction false} OthersLeaveRecord(max: nat, s: State, a: Action, c: ClientId)
    requires Enabled(s, a) && c in s.clients && !By(a, c)
    ensures c in Next(max, s, a).clients && Next(max, s, a).clients[c] == s.clients[c]
  {
  }

  lemma {:induction false} ClientsStay(max: nat, ss: seq<State>, acts: seq<Action>, k: nat)
    requires IsRun(max, ss, acts) && k < |ss|
    ensures ss[k].clients.Keys == ss[0].clients.Keys
  {
    if k > 0 {
      ClientsStay(max, ss, acts, k - 1);
    }
  }

  predicate IsOk(k: Client) {
    k.pc.Done? && k.pc.outcome.Ok?
  }

  /** Every Ok is decided at a step after which `.config` holds the caller's fingerprint,
      whatever the other processes did before. */
  lemma {:induction false} OkMeansConfigEqual(max: nat, s: State, a: Action, c: ClientId)
    requires Enabled(s, a) && c in s.clients
    requires !IsOk(s.clients[c]) && IsOk(Next(max, s, a).clients[c])
    ensures a.ClientStep? && a.c == c && ConfigMatches(Next(max, s, a).w, s.clients[c])
  {
    if By(a, c) {
      match s.clients[c].pc
      case Approaching(at) => DecidesInApproach(s.w, s.clients[c], at, a.choice);
      case Awaiting(at) => DecidesInWait(s.w, s.clients[c], at, a.choice.flag);
      case _ =>
    }
  }

  /** Before the lock the only result is the reuse of a daemon whose config matches. */
  lemma {:induction false} DecidesInApproach(w: World, k: Client, at: Approach, ch: Choice)
    requires k.pc == Approaching(at)
    ensures var (w2, k2) := ApproachNext(w, k, at, ch);
      k2.pc.Done? ==> && (at.CompareConfig? || at.SettleConfig?) && k2.pc.outcome == Ok(true, false)
                      && w2 == w && ConfigMatches(w, k)
  {
  }

  /** After the spawn a fresh daemon is reported only by the step that writes `.config`. */
  lemma {:induction false} DecidesInWait(w: World, k: Client, at: Wait, more: bool)
    requires k.pc == Awaiting(at)
    ensures var (w2, k2) := WaitNext(w, k, at, more);
      k2.pc.Done? && k2.pc.outcome.Ok? ==>
        && k2.pc.outcome.restarted == k.restarted
        && (!k2.pc.outcome.alreadyRunning <==> at.WriteConfig?)
        && ConfigMatches(w2, k)
  {
  }

  /** The way into the writing step is to find one's own child in `.pid`. */
  lemma {:induction false} EntersWrite(max: nat, s: State, c: ClientId, ch: Choice)
    requires Enabled(s, ClientStep(c, ch))
    requires Next(max, s, ClientStep(c, ch)).clients[c].pc == Awaiting(WriteConfig)
    ensures SeesOwnPid(s, ClientStep(c, ch), c) && Next(max, s, ClientStep(c, ch)).w == s.w
    ensures Next(max, s, ClientStep(c, ch)).clients[c] == s.clients[c].(pc := Awaiting(WriteConfig))
  {
    match s.clients[c].pc
    case Approaching(at) => ApproachShrinks(s.w, s.clients[c], at, ch);
    case _ =>
  }

  /** The way to report a fresh daemon is the writing step. */
  lemma {:induction false} FreshFromWrite(max: nat, s: State, c: ClientId, ch: Choice)
    requires Enabled(s, ClientStep(c, ch))
    requires var pc := Next(max, s, ClientStep(c, ch)).clients[c].pc;
      pc.Done? && pc.outcome.Ok? && !pc.outcome.alreadyRunning
    ensures s.clients[c].pc == Awaiting(WriteConfig)
    ensures Next(max, s, ClientStep(c, ch)).clients[c].child == s.clients[c].child
  {
    match s.clients[c].pc
    case Approaching(at) => DecidesInApproach(s.w, s.clients[c], at, ch);
    case Awaiting(at) => DecidesInWait(s.w, s.clients[c], at, ch.flag);
    case _ =>
  }

  /** `already_running == false`: earlier in the run `.pid` held the child this client spawned. */
  lemma {:induction false} FreshMeansOwnPid(max: nat, ss: seq<State>, acts: seq<Action>, k: nat, c: ClientId)
    requires IsRun(max, ss, acts) && k < |ss| && c in ss[k].clients
    requires var pc := ss[k].clients[c].pc;
      pc == Awaiting(WriteConfig) || (pc.Done? && pc.outcome.Ok? && !pc.outcome.alreadyRunning)
    ensures exists j | 0 <= j < k :: SeesOwnPid(ss[j], acts[j], c) && ss[j].clients[c].child == ss[k].clients[c].child
  {
    if k > 0 {
      var s, a := ss[k - 1], acts[k - 1];
      ClientsStay(max, ss, acts, k - 1);
      ClientsStay(max, ss, acts, k);
      if By(a, c) {
        if ss[k].clients[c].pc.Done? {
          FreshFromWrite(max, s, c, a.choice);
          FreshMeansOwnPid(max, ss, acts, k - 1, c);
        } else {
          EntersWrite(max, s, c, a.choice);
          assert SeesOwnPid(ss[k - 1], acts[k - 1], c);
        }
      } else {
        OthersLeaveRecord(max, s, a, c);
        FreshMeansOwnPid(max, ss, acts, k - 1, c);
      }
    }
  }

  /** A client's child is a process that this client spawned earlier in the run. */
  lemma {:induction false} ChildWasSpawned(max: nat, ss: seq<State>, acts: seq<Action>, k: nat, c: ClientId)
    requires IsRun(max, ss, acts) && k < |ss| && c in ss[k].clients && ss[k].clients[c].child.Some?
    ensures exists j | 0 <= j < k :: SpawnsPid(ss[j], acts[j], c, ss[k].clients[c].child.value)
  {
    if k > 0 {
      var s, a := ss[k - 1], acts[k - 1];
      ClientsStay(max, ss, acts, k - 1);
      ClientsStay(max, ss, acts, k);
      if By(a, c) {
        var kept := ss[k].clients[c].child == s.clients[c].child;
        if kept {
          ChildWasSpawned(max, ss, acts, k - 1, c);
        } else {
          ChildOnlyFromSpawn(max, s, c, a.choice);
          assert SpawnsPid(ss[k - 1], acts[k - 1], c, ss[k].clients[c].child.value);
        }
      } else {
        OthersLeaveRecord(max, s, a, c);
        ChildWasSpawned(max, ss, acts, k - 1, c);
      }
    }
  }

  lemma {:induction false} ChildOnlyFromSpawn(max: nat, s: State, c: ClientId, ch: Choice)
    requires Enabled(s, ClientStep(c, ch))
    requires Next(max, s, ClientStep(c, ch)).clients[c].child != s.clients[c].child
    ensures s.clients[c].pc.Spawn? && ch.flag && Next(max, s, ClientStep(c, ch)).clients[c].child == Some(ch.pid)
  {
    match s.clients[c].pc
    case Approaching(at) => ApproachShrinks(s.w, s.clients[c], at, ch);
    case Awaiting(at) => WaitShape(s.w, s.clients[c], at, ch.flag);
    case _ =>
  }

  // ---------------------------------------------------------------- the spawn race

  /** While c holds the lock, every other process keeps to `Rely`. */
  lemma {:induction false} OthersRely(max: nat, s: State, a: Action, c: ClientId)
    requires Inv(max, s) && Enabled(s, a) && s.w.lock == Some(c) && !By(a, c)
    ensures Rely(s.w, Next(max, s, a).w)
  {
    match a
    case ClientStep(d, ch) =>
      assert !Locked(s.clients[d].pc) && !s.clients[d].pc.AcquireLock?;
      ApproachShrinks(s.w, s.clients[d], s.clients[d].pc.approach, ch);
      ShrinkKeeps(s.w, Next(max, s, a).w);
    case ClientDies(d) =>
      assert Next(max, s, a).w.abandoned == s.w.abandoned;
      ShrinkKeeps(s.w, Next(max, s, a).w);
    case DaemonStep(p) => DaemonKeeps(s.w, p);
    case Crash(p) => ShrinkKeeps(s.w, Next(max, s, a).w);
    case Remove(n, e) =>
      DeleteShrinks(s.w, n, e);
      ShrinkKeeps(s.w, Next(max, s, a).w);
  }

  /** `.pid` holds the id of an orphan. */
  predicate NamesOrphan(w: World, n: Session) {
    n in w.pid && w.pid[n].Names? && w.pid[n].pid in w.abandoned
  }

  /** A client may have to write `.config` only if `.pid` is gone, or names its own child,
      or names a child that some other client abandoned. */
  predicate PidNotAnothers(w: World, k: Client) {
    k.session in w.pid ==>
      || PidMatches(w, k)
      || NamesOrphan(w, k.session)
  }

  lemma {:induction false} PidStaysOwn(max: nat, w: World, w2: World, k: Client)
    requires HolderInv(max, w, k) && Rely(w, w2) && PidNotAnothers(w, k)
    ensures PidNotAnothers(w2, k)
  {
    if k.session in w2.pid {
      assert SameOrRegisters(w, w2, k.session);
    }
  }

  lemma {:induction false} OthersKeepPid(max: nat, s: State, a: Action, c: ClientId)
    requires Inv(max, s) && Enabled(s, a) && c in s.clients && !By(a, c)
    requires Locked(s.clients[c].pc) && PidNotAnothers(s.w, s.clients[c])
    ensures PidNotAnothers(Next(max, s, a).w, s.clients[c])
  {
    OthersRely(max, s, a, c);
    PidStaysOwn(max, s.w, Next(max, s, a).w, s.clients[c]);
  }

  lemma {:induction false} EntersAsOwner(max: nat, s: State, c: ClientId, ch: Choice)
    requires Enabled(s, ClientStep(c, ch))
    requires Next(max, s, ClientStep(c, ch)).clients[c].pc == Awaiting(WriteConfig)
    ensures PidNotAnothers(Next(max, s, ClientStep(c, ch)).w, Next(max, s, ClientStep(c, ch)).clients[c])
  {
    EntersWrite(max, s, c, ch);
  }

  lemma {:induction false} WriterStays(max: nat, s: State, a: Action, c: ClientId)
    requires Inv(max, s) && Enabled(s, a) && c in s.clients
    requires Next(max, s, a).clients[c].pc == Awaiting(WriteConfig)
    requires s.clients[c].pc == Awaiting(WriteConfig) ==> PidNotAnothers(s.w, s.clients[c])
    ensures PidNotAnothers(Next(max, s, a).w, Next(max, s, a).clients[c])
  {
    if By(a, c) {
      EntersAsOwner(max, s, c, a.choice);
    } else {
      OthersLeaveRecord(max, s, a, c);
      OthersKeepPid(max, s, a, c);
    }
  }

  lemma {:induction false} WriterOwnsPid(max: nat, ss: seq<State>, acts: seq<Action>, k: nat, c: ClientId)
    requires IsRun(max, ss, acts) && k < |ss| && c in ss[k].clients
    requires ss[k].clients[c].pc == Awaiting(WriteConfig)
    ensures PidNotAnothers(ss[k].w, ss[k].clients[c])
  {
    if k > 0 {
      ClientsStay(max, ss, acts, k - 1);
      ClientsStay(max, ss, acts, k);
      RunKeeps(max, ss, acts, k - 1);
      if ss[k - 1].clients[c].pc == Awaiting(WriteConfig) {
        WriterOwnsPid(max, ss, acts, k - 1, c);
      }
      WriterStays(max, ss[k - 1], acts[k - 1], c);
    }
  }

  lemma {:induction false} OwnChildStays(max: nat, s: State, a: Action, c: ClientId)
    requires Inv(max, s) && Enabled(s, a) && c in s.clients && Next(max, s, a).clients[c].pc.Awaiting?
    requires s.clients[c].pc.Awaiting? ==> NotAbandoned(s.w, s.clients[c])
    ensures NotAbandoned(Next(max, s, a).w, Next(max, s, a).clients[c])
  {
    if By(a, c) {
      match s.clients[c].pc
      case Approaching(at) => ApproachShrinks(s.w, s.clients[c], at, a.choice);
      case Awaiting(at) => WaitShape(s.w, s.clients[c], at, a.choice.flag);
      case _ =>
    } else {
      OthersLeaveRecord(max, s, a, c);
      OthersRely(max, s, a, c);
    }
  }

  predicate NotAbandoned(w: World, k: Client) {
    k.child.Some? && k.child.value !in w.abandoned
  }

  /** The child that a client waits for is nobody's orphan. */
  lemma {:induction false} OwnChildIsAwaited(max: nat, ss: seq<State>, acts: seq<Action>, k: nat, c: ClientId)
    requires IsRun(max, ss, acts) && k < |ss| && c in ss[k].clients && ss[k].clients[c].pc.Awaiting?
    ensures NotAbandoned(ss[k].w, ss[k].clients[c])
  {
    if k > 0 {
      ClientsStay(max, ss, acts, k - 1);
      ClientsStay(max, ss, acts, k);
      RunKeeps(max, ss, acts, k - 1);
      if ss[k - 1].clients[c].pc.Awaiting? {
        OwnChildIsAwaited(max, ss, acts, k - 1, c);
      }
      OwnChildStays(max, ss[k - 1], acts[k - 1], c);
    }
  }

  /** When `.config` is written, `.pid` names the writer's own child if and only if it is still
      there and names no orphan. */
  lemma {:induction false} WriterOwnsPidIff(max: nat, ss: seq<State>, acts: seq<Action>, k: nat, c: ClientId)
    requires IsRun(max, ss, acts) && k < |ss| && c in ss[k].clients
    requires ss[k].clients[c].pc == Awaiting(WriteConfig)
    ensures var w, me := ss[k].w, ss[k].clients[c];
      PidMatches(w, me) <==> me.session in w.pid && !NamesOrphan(w, me.session)
  {
    WriterOwnsPid(max, ss, acts, k, c);
    OwnChildIsAwaited(max, ss, acts, k, c);
  }

  /** `config2` is `config` with entries deleted at most. */
  predicate OnlyDeletes(config: map<Session, string>, config2: map<Session, string>) {
    forall n <- config2 :: n in config && config2[n] == config[n]
  }

  lemma {:induction false} ClientDeletesOrWrites(max: nat, w: World, c: ClientId, k: Client, ch: Choice)
    ensures var w2 := ClientNext(max, w, c, k, ch).0;
      if k.pc == Awaiting(WriteConfig) then w2.config == w.config[k.session := k.fingerprint] && w2.lock == None
      else OnlyDeletes(w.config, w2.config)
  {
    match k.pc
    case Approaching(at) => ApproachShrinks(w, k, at, ch);
    case Walking(at) => WalkShrinks(w, at, ch.name);
    case Awaiting(at) => WaitShape(w, k, at, ch.flag);
    case _ =>
  }

  /** A step that does more than delete `.config` entries is the writing step of the lock
      holder, for its own session and fingerprint, and it gives up the lock. */
  lemma {:induction false} OnlyTheWriterWrites(max: nat, s: State, a: Action)
    requires Inv(max, s) && Enabled(s, a) && !OnlyDeletes(s.w.config, Next(max, s, a).w.config)
    ensures a.ClientStep? && ActsAt(s, a, a.c, Awaiting(WriteConfig)) && s.w.lock == Some(a.c)
    ensures Next(max, s, a).w.config == s.w.config[s.clients[a.c].session := s.clients[a.c].fingerprint]
    ensures Next(max, s, a).w.lock == None
  {
    match a
    case ClientStep(c, ch) => ClientDeletesOrWrites(max, s.w, c, s.clients[c], ch);
    case ClientDies(c) =>
    case DaemonStep(p) => DaemonKeeps(s.w, p);
    case Crash(p) =>
    case Remove(m, e) => DeleteShrinks(s.w, m, e);
  }

  /** Spawn race: every write of `.config` is made by the lock holder, after it has seen its
      own child in `.pid`; and at the write `.pid` names that child if and only if it is still
      there and names no child that a client has abandoned. */
  lemma {:induction false} SpawnRace(max: nat, ss: seq<State>, acts: seq<Action>, k: nat, n: Session)
    requires IsRun(max, ss, acts) && k < |acts|
    requires n in ss[k + 1].w.config && (n in ss[k].w.config ==> ss[k + 1].w.config[n] != ss[k].w.config[n])
    ensures acts[k].ClientStep? && acts[k].c in ss[k].clients
    ensures var c := acts[k].c; var me := ss[k].clients[c];
      && me.session == n && ss[k + 1].w.config[n] == me.fingerprint
      && ss[k].w.lock == Some(c)
      && (exists j | 0 <= j < k :: SeesOwnPid(ss[j], acts[j], c) && ss[j].clients[c].child == me.child)
      && (PidMatches(ss[k].w, me) <==> n in ss[k].w.pid && !NamesOrphan(ss[k].w, n))
  {
    RunKeeps(max, ss, acts, k);
    OnlyTheWriterWrites(max, ss[k], acts[k]);
    FreshMeansOwnPid(max, ss, acts, k, acts[k].c);
    WriterOwnsPidIff(max, ss, acts, k, acts[k].c);
  }

  lemma {:induction false} FrozenStep(max: nat, ss: seq<State>, acts: seq<Action>, k: nat)
    requires IsRun(max, ss, acts) && k < |acts| && ss[k + 1].w.lock.Some?
    ensures OnlyDeletes(ss[k].w.config, ss[k + 1].w.config)
  {
    RunKeeps(max, ss, acts, k);
    assert IsStep(max, ss[k], acts[k], ss[k + 1]);
    if !OnlyDeletes(ss[k].w.config, ss[k + 1].w.config) {
      OnlyTheWriterWrites(max, ss[k], acts[k]);
    }
  }

  lemma {:induction false} DeletesCompose(x: map<Session, string>, y: map<Session, string>, z: map<Session, string>)
    requires OnlyDeletes(x, y) && OnlyDeletes(y, z)
    ensures OnlyDeletes(x, z)
  {
  }

  /** While one client holds the lock no `.config` entry appears or changes: until that
      client itself returns, entries can only be deleted. */
  lemma {:induction false} ConfigFrozenUnderLock(
    max: nat, ss: seq<State>, acts: seq<Action>, i: nat, k: nat, c: ClientId)
    requires IsRun(max, ss, acts) && i <= k < |ss|
    requires forall j | i <= j <= k :: ss[j].w.lock == Some(c)
    ensures OnlyDeletes(ss[i].w.config, ss[k].w.config)
  {
    if i < k {
      ConfigFrozenUnderLock(max, ss, acts, i, k - 1, c);
      FrozenStep(max, ss, acts, k - 1);
      DeletesCompose(ss[i].w.config, ss[k - 1].w.config, ss[k].w.config);
    }
  }

  predicate Lost(pc: PC) {
    || pc == Awaiting(CheckConfig) || pc == Awaiting(Adopt)
    || (pc.Done? && (pc.outcome.Ok? ==> pc.outcome.alreadyRunning))
  }

  lemma {:induction false} LostStays(max: nat, s: State, a: Action, c: ClientId)
    requires Enabled(s, a) && c in s.clients && Lost(s.clients[c].pc)
    ensures c in Next(max, s, a).clients && Lost(Next(max, s, a).clients[c].pc)
  {
    if By(a, c) {
      if a.ClientStep? {
        DecidesInWait(s.w, s.clients[c], s.clients[c].pc.wait, a.choice.flag);
      }
    } else {
      OthersLeaveRecord(max, s, a, c);
    }
  }

  lemma {:induction false} LosesAt(max: nat, s: State, a: Action, c: ClientId)
    requires Enabled(s, a) && ActsAt(s, a, c, Awaiting(CheckPid)) && !PidMatches(s.w, s.clients[c])
    ensures c in Next(max, s, a).clients && Lost(Next(max, s, a).clients[c].pc)
  {
  }

  /** A client that does not find its own child in `.pid` never writes `.config` afterwards:
      it adopts the winner when the configs agree, or fails. */
  lemma {:induction false} LoserNeverWrites(max: nat, ss: seq<State>, acts: seq<Action>, j: nat, k: nat, c: ClientId)
    requires IsRun(max, ss, acts) && j < k < |ss| && c in ss[j].clients
    requires ActsAt(ss[j], acts[j], c, Awaiting(CheckPid)) && !PidMatches(ss[j].w, ss[j].clients[c])
    ensures c in ss[k].clients && Lost(ss[k].clients[c].pc)
    ensures k < |acts| ==> !ActsAt(ss[k], acts[k], c, Awaiting(WriteConfig))
  {
    assert IsStep(max, ss[k - 1], acts[k - 1], ss[k - 1 + 1]);
    if k > j + 1 {
      LoserNeverWrites(max, ss, acts, j, k - 1, c);
      LostStays(max, ss[k - 1], acts[k - 1], c);
    } else {
      LosesAt(max, ss[j], acts[j], c);
    }
  }
}
