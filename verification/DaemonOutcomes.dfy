/**
 What an `ensure_daemon` call has done by the time it holds the lock, and how it ends, in every run:
 the files deleted before the lock, the sessions counted by the walk, the report of the winner and
 of those that adopt its daemon, and the reasons of each failure.
*/
module DaemonOutcomes {
  import opened Option
  import opened Daemon
  import opened DaemonCapacity
  import opened DaemonResults
  import DaemonAnswers

  predicate HasFile(w: World, n: Session, e: Ext) {
    match e
    case PidExt => n in w.pid
    case VersionExt => n in w.version
    case ConfigExt => n in w.config
    case SockExt => n in w.sock
  }

  // ---------------------------------------------------------------- before the lock

  /** The client has its own cleaning of file e behind it. */
  predicate HasCleaned(pc: PC, e: Ext) {
    || pc.AcquireLock? || Locked(pc)
    || (pc.Approaching? && pc.approach.Cleanup? && e !in pc.approach.left)
  }

  /** Client c cleans file e of its session. */
  predicate Cleans(s: State, a: Action, c: ClientId, e: Ext) {
    && a.ClientStep? && a.c == c && c in s.clients
    && s.clients[c].pc.Approaching? && s.clients[c].pc.approach.Cleanup?
    && s.clients[c].pc.approach.left != [] && s.clients[c].pc.approach.left[0] == e
  }

  lemma {:induction false} AllExtensions(e: Ext)
    ensures e in REMOVAL_ORDER
  {
    assert REMOVAL_ORDER[0] == PidExt && REMOVAL_ORDER[1] == VersionExt;
    assert REMOVAL_ORDER[2] == ConfigExt && REMOVAL_ORDER[3] == SockExt;
  }

  lemma {:induction false} DeleteRemoves(w: World, n: Session, e: Ext)
    ensures !HasFile(Delete(w, n, e), n, e)
  {
  }

  lemma {:induction false} CleaningStep(max: nat, s: State, c: ClientId, ch: Choice, e: Ext)
    requires Enabled(s, ClientStep(c, ch)) && s.clients[c].pc.Approaching?
    ensures var s2, a := Next(max, s, ClientStep(c, ch)), ClientStep(c, ch);
      && (HasCleaned(s2.clients[c].pc, e) ==> HasCleaned(s.clients[c].pc, e) || Cleans(s, a, c, e))
      && (Cleans(s, a, c, e) ==> !HasFile(s2.w, s.clients[c].session, e))
  {
    AllExtensions(e);
    var k := s.clients[c];
    if k.pc.approach.Cleanup? && k.pc.approach.left != [] {
      DeleteRemoves(s.w, k.session, k.pc.approach.left[0]);
    }
  }

  lemma {:induction false} TowardsLock(max: nat, s: State, a: Action, c: ClientId, e: Ext)
    requires Enabled(s, a) && c in s.clients
    ensures var s2 := Next(max, s, a);
      && (HasCleaned(s2.clients[c].pc, e) ==> HasCleaned(s.clients[c].pc, e) || Cleans(s, a, c, e))
      && (Cleans(s, a, c, e) ==> !HasFile(s2.w, s.clients[c].session, e))
  {
    if By(a, c) && a.ClientStep? && s.clients[c].pc.Approaching? {
      CleaningStep(max, s, c, a.choice, e);
    }
  }

  /** Whoever waits for the lock or holds it has deleted every sidecar file of its session before. */
  lemma {:induction false} CleanedBeforeLock(
    max: nat, ss: seq<State>, acts: seq<Action>, k: nat, c: ClientId, e: Ext) returns (j: nat)
    requires IsRun(max, ss, acts) && k < |ss| && c in ss[k].clients && HasCleaned(ss[k].clients[c].pc, e)
    ensures j < k && By(acts[j], c) && c in ss[j].clients && !HasFile(ss[j + 1].w, ss[j].clients[c].session, e)
  {
    DaemonAnswers.RunStep(max, ss, acts, k - 1, c);
    TowardsLock(max, ss[k - 1], acts[k - 1], c, e);
    if Cleans(ss[k - 1], acts[k - 1], c, e) {
      j := k - 1;
    } else {
      j := CleanedBeforeLock(max, ss, acts, k - 1, c, e);
    }
  }

  /** The client has the socket of the daemon it stops by force behind it. */
  predicate HasUnlinked(pc: PC) {
    DaemonAnswers.UsesForce(pc) && !pc.approach.KillUnlink?
  }

  lemma {:induction false} TowardsSignal(max: nat, s: State, a: Action, c: ClientId)
    requires Enabled(s, a) && c in s.clients && HasUnlinked(Next(max, s, a).clients[c].pc)
    ensures HasUnlinked(s.clients[c].pc) || (By(a, c) && !HasFile(Next(max, s, a).w, s.clients[c].session, SockExt))
  {
    if By(a, c) && a.ClientStep? {
      match s.clients[c].pc
      case Awaiting(at) => WaitShape(s.w, s.clients[c], at, a.choice.flag);
      case _ =>
    }
  }

  /** Before a client looks for the process to signal it has deleted the socket of its session, so
      that nobody connects to a dying daemon. */
  lemma {:induction false} UnlinkedBeforeSignal(max: nat, ss: seq<State>, acts: seq<Action>, k: nat, c: ClientId)
    returns (j: nat)
    requires IsRun(max, ss, acts) && k < |ss| && c in ss[k].clients && HasUnlinked(ss[k].clients[c].pc)
    ensures j < k && By(acts[j], c) && c in ss[j].clients && !HasFile(ss[j + 1].w, ss[j].clients[c].session, SockExt)
  {
    DaemonAnswers.RunStep(max, ss, acts, k - 1, c);
    TowardsSignal(max, ss[k - 1], acts[k - 1], c);
    if HasUnlinked(ss[k - 1].clients[c].pc) {
      j := UnlinkedBeforeSignal(max, ss, acts, k - 1, c);
    } else {
      j := k - 1;
    }
  }

  // ---------------------------------------------------------------- the walk

  function Counted(pc: PC): set<Session> {
    match pc
    case Walking(WalkPids(_, counted)) => counted
    case Walking(WalkAlive(_, _, _, counted)) => counted
    case Walking(WalkClean(_, _, _, counted, _)) => counted
    case Walking(WalkSocks(_, counted)) => counted
    case Admit(counted) => counted
    case Spawn(counted) => counted
    case _ => {}
  }

  /** Client c reads in the `.pid` file of session n the id of process p. */
  predicate ReadsEntry(s: State, a: Action, c: ClientId, n: Session, p: Pid) {
    && a.ClientStep? && a.c == c && c in s.clients
    && s.clients[c].pc.Walking? && s.clients[c].pc.walk.WalkPids?
    && n in s.w.pid && s.w.pid[n] == Names(p)
  }

  /** Client c finds the process alive that it has read for session n, and counts n. */
  predicate Counts(s: State, a: Action, c: ClientId, n: Session, p: Pid) {
    && a.ClientStep? && a.c == c && c in s.clients
    && s.clients[c].pc.Walking? && s.clients[c].pc.walk.WalkAlive?
    && s.clients[c].pc.walk.entry == n && s.clients[c].pc.walk.named == p && p in s.w.live
  }

  predicate IsAsking(pc: PC, n: Session, p: Pid) {
    pc.Walking? && pc.walk.WalkAlive? && pc.walk.entry == n && pc.walk.named == p
  }

  lemma {:induction false} WalkCounts(w: World, at: Walk, name: Session, n: Session)
    ensures var pc2 := WalkNext(w, at, name).1;
      && (n in Counted(pc2) ==> n in Counted(Walking(at)) || (at.WalkAlive? && at.entry == n && at.named in w.live))
      && (pc2.Walking? && pc2.walk.WalkAlive? ==>
            at.WalkPids? && pc2.walk.entry in w.pid && w.pid[pc2.walk.entry] == Names(pc2.walk.named))
  {
  }

  lemma {:induction false} TowardsCount(max: nat, s: State, a: Action, c: ClientId, n: Session, p: Pid)
    requires Enabled(s, a) && c in s.clients
    ensures var pc, pc2 := s.clients[c].pc, Next(max, s, a).clients[c].pc;
      && (n in Counted(pc2) ==> n in Counted(pc) || exists q :: Counts(s, a, c, n, q))
      && (IsAsking(pc2, n, p) ==> IsAsking(pc, n, p) || ReadsEntry(s, a, c, n, p))
  {
    var pc := s.clients[c].pc;
    if By(a, c) && a.ClientStep? {
      match pc
      case Walking(at) =>
        WalkCounts(s.w, at, a.choice.name, n);
        assert at.WalkAlive? && at.entry == n && at.named in s.w.live ==> Counts(s, a, c, n, at.named);
      case Awaiting(at) => WaitShape(s.w, s.clients[c], at, a.choice.flag);
      case _ =>
    }
  }

  lemma {:induction false} EntryWasRead(
    max: nat, ss: seq<State>, acts: seq<Action>, k: nat, c: ClientId, n: Session, p: Pid) returns (i: nat)
    requires IsRun(max, ss, acts) && k < |ss| && c in ss[k].clients && IsAsking(ss[k].clients[c].pc, n, p)
    ensures i < k && ReadsEntry(ss[i], acts[i], c, n, p)
  {
    DaemonAnswers.RunStep(max, ss, acts, k - 1, c);
    TowardsCount(max, ss[k - 1], acts[k - 1], c, n, p);
    if ReadsEntry(ss[k - 1], acts[k - 1], c, n, p) {
      i := k - 1;
    } else {
      i := EntryWasRead(max, ss, acts, k - 1, c, n, p);
    }
  }

  ghost predicate CountsAny(s: State, a: Action, c: ClientId, n: Session) {
    exists q :: Counts(s, a, c, n, q)
  }

  lemma {:induction false} CountedGoesOn(max: nat, ss: seq<State>, acts: seq<Action>, k: nat, c: ClientId, n: Session)
    requires IsRun(max, ss, acts) && k < |acts| && c in ss[k + 1].clients && n in Counted(ss[k + 1].clients[c].pc)
    ensures c in ss[k].clients && (n in Counted(ss[k].clients[c].pc) || CountsAny(ss[k], acts[k], c, n))
  {
    DaemonAnswers.RunStep(max, ss, acts, k, c);
    TowardsCount(max, ss[k], acts[k], c, n, 0);
  }

  lemma {:induction false} CountedBefore(
    max: nat, ss: seq<State>, acts: seq<Action>, k: nat, c: ClientId, n: Session) returns (j: nat, p: Pid)
    requires IsRun(max, ss, acts) && k < |ss| && c in ss[k].clients && n in Counted(ss[k].clients[c].pc)
    ensures j < k && Counts(ss[j], acts[j], c, n, p)
  {
    CountedGoesOn(max, ss, acts, k - 1, c, n);
    if n in Counted(ss[k - 1].clients[c].pc) {
      j, p := CountedBefore(max, ss, acts, k - 1, c, n);
    } else {
      var s, a := ss[k - 1], acts[k - 1];
      p :| Counts(s, a, c, n, p);
      j := k - 1;
    }
  }

  /** A session counts against the cap only when its `.pid` file named a process and that process
      was alive afterwards. */
  lemma {:induction false} CountedWasLive(
    max: nat, ss: seq<State>, acts: seq<Action>, k: nat, c: ClientId, n: Session) returns (i: nat, j: nat, p: Pid)
    requires IsRun(max, ss, acts) && k < |ss| && c in ss[k].clients && n in Counted(ss[k].clients[c].pc)
    ensures i < j < k && n in ss[i].w.pid && ss[i].w.pid[n] == Names(p) && p in ss[j].w.live
    ensures By(acts[i], c) && By(acts[j], c)
  {
    j, p := CountedBefore(max, ss, acts, k, c, n);
    i := EntryWasRead(max, ss, acts, j, c, n, p);
  }

  /** Client c finds the entry of session n stale: its `.pid` names no process, or a dead one, or its
      socket has no `.pid`. */
  predicate FindsStale(s: State, a: Action, c: ClientId, n: Session) {
    && a.ClientStep? && a.c == c && c in s.clients && s.clients[c].pc.Walking?
    && var at := s.clients[c].pc.walk;
       || (at.WalkPids? && a.choice.name == n && at.todo != {} && !(n in s.w.pid && s.w.pid[n].Names?))
       || (at.WalkAlive? && at.entry == n && at.named !in s.w.live)
       || (at.WalkSocks? && a.choice.name == n && at.todo != {} && n !in s.w.pid)
  }

  /** The walk is cleaning up after session n. */
  predicate CleansEntry(pc: PC, n: Session) {
    pc.Walking? && pc.walk.WalkClean? && pc.walk.entry == n
  }

  predicate HasDropped(pc: PC, n: Session, e: Ext) {
    CleansEntry(pc, n) && e !in pc.walk.left
  }

  lemma {:induction false} WalkDrops(w: World, at: Walk, name: Session, n: Session, e: Ext)
    ensures var (w2, pc2) := WalkNext(w, at, name);
      HasDropped(pc2, n, e) ==> HasDropped(Walking(at), n, e) || !HasFile(w2, n, e)
  {
    AllExtensions(e);
    if at.WalkClean? && at.left != [] {
      DeleteRemoves(w, at.entry, at.left[0]);
    }
  }

  lemma {:induction false} TowardsDrop(max: nat, s: State, a: Action, c: ClientId, n: Session, e: Ext)
    requires Enabled(s, a) && c in s.clients
    ensures var pc, s2 := s.clients[c].pc, Next(max, s, a); var pc2 := s2.clients[c].pc;
      && (HasDropped(pc2, n, e) ==> HasDropped(pc, n, e) || (By(a, c) && !HasFile(s2.w, n, e)))
      && (CleansEntry(pc2, n) ==> CleansEntry(pc, n) || FindsStale(s, a, c, n))
      && (FindsStale(s, a, c, n) ==> CleansEntry(pc2, n))
      && (CleansEntry(pc, n) && !CleansEntry(pc2, n) && !pc2.Done? ==> forall x :: HasDropped(pc, n, x))
  {
    if By(a, c) && a.ClientStep? {
      match s.clients[c].pc
      case Walking(at) => WalkDrops(s.w, at, a.choice.name, n, e);
      case Awaiting(at) => WaitShape(s.w, s.clients[c], at, a.choice.flag);
      case _ =>
    }
  }

  /** The walk deletes files of sessions only that it has found stale. */
  lemma {:induction false} CleanedWasStale(
    max: nat, ss: seq<State>, acts: seq<Action>, k: nat, c: ClientId, n: Session) returns (j: nat)
    requires IsRun(max, ss, acts) && k < |ss| && c in ss[k].clients && CleansEntry(ss[k].clients[c].pc, n)
    ensures j < k && FindsStale(ss[j], acts[j], c, n)
  {
    DaemonAnswers.RunStep(max, ss, acts, k - 1, c);
    TowardsDrop(max, ss[k - 1], acts[k - 1], c, n, PidExt);
    if CleansEntry(ss[k - 1].clients[c].pc, n) {
      j := CleanedWasStale(max, ss, acts, k - 1, c, n);
    } else {
      j := k - 1;
    }
  }

  /** And of every session that it has found stale it deletes all four files, before it goes on: the
      walk leaves the entry only when each was dropped, and each that was dropped was deleted. */
  lemma {:induction false} StaleIsCleaned(
    max: nat, ss: seq<State>, acts: seq<Action>, k: nat, c: ClientId, n: Session, e: Ext) returns (j: nat)
    requires IsRun(max, ss, acts) && k < |acts| && c in ss[k].clients && CleansEntry(ss[k].clients[c].pc, n)
    requires c in ss[k + 1].clients && !CleansEntry(ss[k + 1].clients[c].pc, n) && !ss[k + 1].clients[c].pc.Done?
    ensures j < k && By(acts[j], c) && !HasFile(ss[j + 1].w, n, e)
  {
    DaemonAnswers.RunStep(max, ss, acts, k, c);
    TowardsDrop(max, ss[k], acts[k], c, n, e);
    j := DroppedBefore(max, ss, acts, k, c, n, e);
  }

  lemma {:induction false} DroppedBefore(
    max: nat, ss: seq<State>, acts: seq<Action>, k: nat, c: ClientId, n: Session, e: Ext) returns (j: nat)
    requires IsRun(max, ss, acts) && k < |ss| && c in ss[k].clients && HasDropped(ss[k].clients[c].pc, n, e)
    ensures j < k && By(acts[j], c) && !HasFile(ss[j + 1].w, n, e)
  {
    DaemonAnswers.RunStep(max, ss, acts, k - 1, c);
    TowardsDrop(max, ss[k - 1], acts[k - 1], c, n, e);
    if HasDropped(ss[k - 1].clients[c].pc, n, e) {
      j := DroppedBefore(max, ss, acts, k - 1, c, n, e);
    } else {
      j := k - 1;
    }
  }

  // ---------------------------------------------------------------- failures

  /** The step in which a call of its own accord fails, and why: the lock or the process cannot be
      had, the cap is reached, the waits are used up, the child is gone and nobody serves the
      session, or the daemon of somebody else has another configuration until patience ends. */
  predicate HasReason(max: nat, w: World, k: Client, ch: Choice) {
    match k.pc
    case AcquireLock => !ch.flag
    case Admit(counted) => |counted| >= max || !ch.flag
    case Spawn(_) => !ch.flag
    case Awaiting(Poll(attempts)) => attempts == 0
    case Awaiting(Exited) => !ch.flag || !Ready(w, k.session)
    case Awaiting(Adopt) => !ch.flag && !(k.session in w.config && w.config[k.session] == k.fingerprint)
    case _ => false
  }

  lemma {:induction false} FailsIff(max: nat, s: State, c: ClientId, ch: Choice)
    requires Enabled(s, ClientStep(c, ch))
    ensures Next(max, s, ClientStep(c, ch)).clients[c].pc == Done(Failed) <==> HasReason(max, s.w, s.clients[c], ch)
  {
    match s.clients[c].pc
    case Approaching(at) => DecidesInApproach(s.w, s.clients[c], at, ch);
    case Awaiting(at) => DecidesInWait(s.w, s.clients[c], at, ch.flag);
    case _ =>
  }

  /** Client c looks for its daemon while it waits for its child, and finds none. */
  predicate FindsNobody(s: State, a: Action, c: ClientId) {
    && a.ClientStep? && a.c == c && c in s.clients
    && s.clients[c].pc.Awaiting? && s.clients[c].pc.wait.Poll? && !Ready(s.w, s.clients[c].session)
  }

  predicate FindsChildDead(s: State, a: Action, c: ClientId) {
    && a.ClientStep? && a.c == c && c in s.clients
    && s.clients[c].pc.Awaiting? && s.clients[c].pc.wait.PollChild?
    && s.clients[c].child.Some? && s.clients[c].child.value !in s.w.live
  }

  predicate IsPolling(pc: PC, attempts: nat) {
    pc == Awaiting(Poll(attempts)) || pc == Awaiting(PollChild(attempts))
  }

  /** How the polling goes on: the count falls by one exactly when nobody serves the session. */
  lemma {:induction false} TowardsTimeout(max: nat, s: State, a: Action, c: ClientId, attempts: nat)
    requires Enabled(s, a) && c in s.clients
    ensures var pc, pc2 := s.clients[c].pc, Next(max, s, a).clients[c].pc;
      && (IsPolling(pc2, attempts) ==>
            || IsPolling(pc, attempts)
            || (pc == Awaiting(Poll(attempts + 1)) && FindsNobody(s, a, c))
            || (pc.Spawn? && attempts == 50))
      && (pc2 == Awaiting(Exited) ==> pc == pc2 || FindsChildDead(s, a, c))
  {
    if By(a, c) && a.ClientStep? {
      match s.clients[c].pc
      case Approaching(at) => ApproachShrinks(s.w, s.clients[c], at, a.choice);
      case _ =>
    }
  }

  ghost predicate AreMisses(ss: seq<State>, acts: seq<Action>, c: ClientId, k: nat, at: seq<nat>) {
    && k <= |acts| < |ss|
    && (forall i | 0 <= i < |at| :: at[i] < k && FindsNobody(ss[at[i]], acts[at[i]], c))
    && (forall i, j | 0 <= i < j < |at| :: at[i] < at[j])
  }

  lemma {:induction false} OneMoreMiss(
    ss: seq<State>, acts: seq<Action>, c: ClientId, k: nat, at: seq<nat>) returns (more: seq<nat>)
    requires k < |acts| < |ss| && AreMisses(ss, acts, c, k, at) && FindsNobody(ss[k], acts[k], c)
    ensures AreMisses(ss, acts, c, k + 1, more) && |more| == |at| + 1
  {
    more := at + [k];
  }

  /** A call that gives up waiting has found its session unserved fifty times. */
  lemma {:induction false} TimeoutMeansUnserved(
    max: nat, ss: seq<State>, acts: seq<Action>, k: nat, c: ClientId, attempts: nat) returns (at: seq<nat>)
    requires IsRun(max, ss, acts) && k < |ss| && c in ss[k].clients && IsPolling(ss[k].clients[c].pc, attempts)
    ensures AreMisses(ss, acts, c, k, at) && |at| + attempts == 50
  {
    DaemonAnswers.RunStep(max, ss, acts, k - 1, c);
    TowardsTimeout(max, ss[k - 1], acts[k - 1], c, attempts);
    var pc := ss[k - 1].clients[c].pc;
    if IsPolling(pc, attempts) {
      at := TimeoutMeansUnserved(max, ss, acts, k - 1, c, attempts);
    } else if pc == Awaiting(Poll(attempts + 1)) {
      at := TimeoutMeansUnserved(max, ss, acts, k - 1, c, attempts + 1);
      at := OneMoreMiss(ss, acts, c, k - 1, at);
    } else {
      at := [];
    }
  }

  /** A call that reports its child gone has seen it dead. */
  lemma {:induction false} ExitMeansChildDead(
    max: nat, ss: seq<State>, acts: seq<Action>, k: nat, c: ClientId) returns (j: nat)
    requires IsRun(max, ss, acts) && k < |ss| && c in ss[k].clients && ss[k].clients[c].pc == Awaiting(Exited)
    ensures j < k && FindsChildDead(ss[j], acts[j], c)
  {
    DaemonAnswers.RunStep(max, ss, acts, k - 1, c);
    TowardsTimeout(max, ss[k - 1], acts[k - 1], c, 0);
    if FindsChildDead(ss[k - 1], acts[k - 1], c) {
      j := k - 1;
    } else {
      j := ExitMeansChildDead(max, ss, acts, k - 1, c);
    }
  }

  // ---------------------------------------------------------------- the winner and the others

  /** Where `.config` is compared the call ends at once if and only if it holds the caller's
      fingerprint, as the reuse of a daemon that was running, and nothing is changed. */
  lemma {:induction false} AdoptsIff(max: nat, s: State, c: ClientId, ch: Choice)
    requires Enabled(s, ClientStep(c, ch))
    requires s.clients[c].pc in
      {Approaching(CompareConfig), Approaching(SettleConfig), Awaiting(CheckConfig), Awaiting(Adopt)}
    ensures var k, s2 := s.clients[c], Next(max, s, ClientStep(c, ch));
      && (IsOk(s2.clients[c]) <==> k.session in s.w.config && s.w.config[k.session] == k.fingerprint)
      && (IsOk(s2.clients[c]) ==> s2.clients[c].pc.outcome.alreadyRunning && s2.w.config == s.w.config)
  {
  }

  /** A call that finds its session served while it waits looks next whose daemon it is. */
  lemma {:induction false} ServedIsChecked(max: nat, s: State, c: ClientId, ch: Choice)
    requires Enabled(s, ClientStep(c, ch)) && s.clients[c].pc.Awaiting? && s.clients[c].pc.wait.Poll?
    requires s.clients[c].pc.wait.attempts > 0
    ensures Next(max, s, ClientStep(c, ch)).clients[c].pc == Awaiting(CheckPid) <==> Ready(s.w, s.clients[c].session)
  {
  }

  /** A call whose child is dead does not wait any longer. */
  lemma {:induction false} DeadChildIsSeen(max: nat, s: State, c: ClientId, ch: Choice)
    requires Enabled(s, ClientStep(c, ch)) && s.clients[c].pc.Awaiting? && s.clients[c].pc.wait.PollChild?
    requires s.clients[c].child.Some?
    ensures Next(max, s, ClientStep(c, ch)).clients[c].pc == Awaiting(Exited) <==> s.clients[c].child.value !in s.w.live
  {
  }

  /** Then it adopts another daemon, if one serves the session, and looks at no `.pid` any more. */
  lemma {:induction false} GoneChildAdopts(max: nat, s: State, c: ClientId, ch: Choice)
    requires Enabled(s, ClientStep(c, ch)) && s.clients[c].pc == Awaiting(Exited)
    ensures var pc2 := Next(max, s, ClientStep(c, ch)).clients[c].pc;
      pc2 == if ch.flag && Ready(s.w, s.clients[c].session) then Awaiting(Adopt) else Done(Failed)
  {
  }

  /** What a winner has done so far: nothing yet, or written its fingerprint and reported a fresh
      daemon, or it was killed. */
  ghost predicate HasWon(ss: seq<State>, acts: seq<Action>, j: nat, k: nat, c: ClientId)
    requires j < k <= |acts| < |ss| && c in ss[k].clients
  {
    var me := ss[k].clients[c];
    || me.pc == Awaiting(WriteConfig)
    || (me.pc == Done(Failed) && exists i | j < i < k :: acts[i] == ClientDies(c))
    || (me.pc == Done(Ok(false, me.restarted)) && exists i | j < i < k :: WritesOwn(ss, acts, i, c, me))
  }

  ghost predicate WritesOwn(ss: seq<State>, acts: seq<Action>, i: nat, c: ClientId, me: Client)
    requires i < |acts| < |ss|
  {
    By(acts[i], c) && me.session in ss[i + 1].w.config && ss[i + 1].w.config[me.session] == me.fingerprint
  }

  lemma {:induction false} WinnerStarts(max: nat, s: State, a: Action, c: ClientId)
    requires Enabled(s, a) && SeesOwnPid(s, a, c)
    ensures c in Next(max, s, a).clients && Next(max, s, a).clients[c].pc == Awaiting(WriteConfig)
  {
  }

  lemma {:induction false} WinnerStep(max: nat, s: State, a: Action, c: ClientId)
    requires Enabled(s, a) && c in s.clients && s.clients[c].pc == Awaiting(WriteConfig)
    ensures c in Next(max, s, a).clients
    ensures var me, s2 := s.clients[c], Next(max, s, a); var me2 := s2.clients[c];
      || me2 == me
      || (me2.pc == Done(Failed) && a == ClientDies(c))
      || (me2 == me.(pc := Done(Ok(false, me.restarted))) && By(a, c)
          && me.session in s2.w.config && s2.w.config[me.session] == me.fingerprint)
  {
    if By(a, c) && a.ClientStep? {
      WaitShape(s.w, s.clients[c], WriteConfig, a.choice.flag);
    }
  }

  lemma {:induction false} DoneStays(max: nat, s: State, a: Action, c: ClientId)
    requires Enabled(s, a) && c in s.clients && s.clients[c].pc.Done?
    ensures c in Next(max, s, a).clients && Next(max, s, a).clients[c] == s.clients[c]
  {
  }

  lemma {:induction false} WinnerGoesOn(
    max: nat, ss: seq<State>, acts: seq<Action>, j: nat, k: nat, c: ClientId)
    requires IsRun(max, ss, acts) && j < k < |acts| && c in ss[k].clients && HasWon(ss, acts, j, k, c)
    ensures c in ss[k + 1].clients && HasWon(ss, acts, j, k + 1, c)
  {
    assert IsStep(max, ss[k], acts[k], ss[k + 1]);
    if ss[k].clients[c].pc.Done? {
      DoneStays(max, ss[k], acts[k], c);
    } else {
      WinnerStep(max, ss[k], acts[k], c);
      var me := ss[k + 1].clients[c];
      assert WritesOwn(ss, acts, k, c, me) || me.pc != Done(Ok(false, me.restarted));
    }
  }

  /** A client that finds its own child in `.pid` writes its fingerprint and reports a fresh daemon,
      unless it is killed before. */
  lemma {:induction false} WinnerReports(max: nat, ss: seq<State>, acts: seq<Action>, j: nat, k: nat, c: ClientId)
    requires IsRun(max, ss, acts) && j < k < |ss| && SeesOwnPid(ss[j], acts[j], c)
    ensures c in ss[k].clients && HasWon(ss, acts, j, k, c)
  {
    if k == j + 1 {
      assert IsStep(max, ss[j], acts[j], ss[j + 1]);
      WinnerStarts(max, ss[j], acts[j], c);
    } else {
      WinnerReports(max, ss, acts, j, k - 1, c);
      WinnerGoesOn(max, ss, acts, j, k - 1, c);
    }
  }
}
