/**
 Which process has written what a sidecar file holds, and what a daemon does to the files of its
 session over its life, in every run.
*/
module DaemonFiles {
  import opened Daemon
  import opened DaemonCapacity

  // ---------------------------------------------------------------- who writes

  /** Process p, a daemon of session n, moves on from the given phase. */
  predicate DaemonActs(s: State, a: Action, p: Pid, n: Session, phase: Phase) {
    && a == DaemonStep(p) && p in s.w.daemons && p in s.w.live
    && s.w.daemons[p].session == n && s.w.daemons[p].phase == phase
  }

  /** Nothing in the three files that daemons write is new. */
  ghost predicate NothingWritten(w: World, w2: World) {
    && (forall n <- w2.pid :: n in w.pid && w2.pid[n] == w.pid[n])
    && (forall n <- w2.version :: n in w.version && w2.version[n] == w.version[n])
    && (forall n <- w2.sock :: n in w.sock && w2.sock[n] == w.sock[n])
  }

  lemma {:induction false} DeleteWritesNothing(w: World, n: Session, e: Ext)
    ensures NothingWritten(w, Delete(w, n, e))
  {
  }

  lemma {:induction false} ApproachWritesNothing(w: World, k: Client, at: Approach, ch: Choice)
    ensures NothingWritten(w, ApproachNext(w, k, at, ch).0)
  {
    match at
    case KillUnlink => DeleteWritesNothing(w, k.session, SockExt);
    case KillCleanup(left) => if left != [] { DeleteWritesNothing(w, k.session, left[0]); }
    case Cleanup(left) => if left != [] { DeleteWritesNothing(w, k.session, left[0]); }
    case _ =>
  }

  lemma {:induction false} WalkWritesNothing(w: World, at: Walk, name: Session)
    ensures NothingWritten(w, WalkNext(w, at, name).0)
  {
    if at.WalkClean? && at.left != [] {
      DeleteWritesNothing(w, at.entry, at.left[0]);
    }
  }

  lemma {:induction false} ClientsWriteNothing(max: nat, s: State, a: Action)
    requires Enabled(s, a) && !a.DaemonStep?
    ensures NothingWritten(s.w, Next(max, s, a).w)
  {
    match a
    case ClientStep(c, ch) =>
      match s.clients[c].pc {
        case Approaching(at) => ApproachWritesNothing(s.w, s.clients[c], at, ch);
        case Walking(at) => WalkWritesNothing(s.w, at, ch.name);
        case Awaiting(at) => WaitShape(s.w, s.clients[c], at, ch.flag);
        case _ =>
      }
    case ClientDies(c) =>
    case Crash(p) =>
    case Remove(n, e) => DeleteWritesNothing(s.w, n, e);
  }

  /** What step a, from s, has written for session n, if anything: only a daemon of n writes, its own
      id, its own version, or itself as the listener of a socket that nobody had. */
  ghost predicate OnlyOwnEntries(s: State, a: Action, w2: World, n: Session) {
    && (n in w2.pid ==>
          || (n in s.w.pid && w2.pid[n] == s.w.pid[n])
          || exists p :: DaemonActs(s, a, p, n, WritePid) && w2.pid[n] == Names(p))
    && (n in w2.version ==>
          || (n in s.w.version && w2.version[n] == s.w.version[n])
          || exists p :: DaemonActs(s, a, p, n, WriteVersion) && w2.version[n] == s.w.daemons[p].version)
    && (n in w2.sock ==>
          || (n in s.w.sock && w2.sock[n] == s.w.sock[n])
          || exists p :: DaemonActs(s, a, p, n, Bind) && w2.sock[n] == p && n !in s.w.sock)
  }

  lemma {:induction false} DaemonWritesOwn(s: State, p: Pid, n: Session)
    requires p in s.w.daemons && p in s.w.live
    ensures OnlyOwnEntries(s, DaemonStep(p), DaemonNext(s.w, p), n)
  {
    assert DaemonActs(s, DaemonStep(p), p, s.w.daemons[p].session, s.w.daemons[p].phase);
  }

  /** Every entry of the files is left as it is, deleted, or written by a daemon of its session; so a
      socket in use is never taken over. */
  lemma {:induction false} EntriesAreTheirDaemons(max: nat, s: State, a: Action, n: Session)
    requires Enabled(s, a)
    ensures OnlyOwnEntries(s, a, Next(max, s, a).w, n)
  {
    if a.DaemonStep? {
      DaemonWritesOwn(s, a.p, n);
    } else {
      ClientsWriteNothing(max, s, a);
    }
  }

  /** The listener of a socket that was not there at the start is a daemon of that session that has
      bound it. */
  lemma {:induction false} ListenerHasBound(
    max: nat, ss: seq<State>, acts: seq<Action>, k: nat, n: Session) returns (j: nat)
    requires IsRun(max, ss, acts) && k < |ss| && n in ss[k].w.sock
    requires n in ss[0].w.sock ==> ss[0].w.sock[n] != ss[k].w.sock[n]
    ensures j < k && DaemonActs(ss[j], acts[j], ss[k].w.sock[n], n, Bind) && n !in ss[j].w.sock
  {
    assert IsStep(max, ss[k - 1], acts[k - 1], ss[k - 1 + 1]);
    EntriesAreTheirDaemons(max, ss[k - 1], acts[k - 1], n);
    if n in ss[k - 1].w.sock && ss[k].w.sock[n] == ss[k - 1].w.sock[n] {
      j := ListenerHasBound(max, ss, acts, k - 1, n);
    } else {
      j := k - 1;
    }
  }

  /** A version file that was not there at the start was written by a daemon of its session. */
  lemma {:induction false} VersionIsDaemons(
    max: nat, ss: seq<State>, acts: seq<Action>, k: nat, n: Session) returns (j: nat, p: Pid)
    requires IsRun(max, ss, acts) && k < |ss| && n in ss[k].w.version
    requires n in ss[0].w.version ==> ss[0].w.version[n] != ss[k].w.version[n]
    ensures j < k && DaemonActs(ss[j], acts[j], p, n, WriteVersion) && ss[j].w.daemons[p].version == ss[k].w.version[n]
  {
    var s, a := ss[k - 1], acts[k - 1];
    assert IsStep(max, ss[k - 1], acts[k - 1], ss[k - 1 + 1]);
    EntriesAreTheirDaemons(max, s, a, n);
    if n in s.w.version && ss[k].w.version[n] == s.w.version[n] {
      j, p := VersionIsDaemons(max, ss, acts, k - 1, n);
    } else {
      p :| DaemonActs(s, a, p, n, WriteVersion) && ss[k].w.version[n] == s.w.daemons[p].version;
      j := k - 1;
    }
  }

  // ---------------------------------------------------------------- the life of a daemon

  /** What the files of session n hold when daemon p has left the given phase. */
  predicate LeftBehind(w: World, p: Pid, d: Process, phase: Phase) {
    var n := d.session;
    match phase
    case WritePid => n in w.pid && w.pid[n] == Names(p)
    case WriteVersion => n in w.version && w.version[n] == d.version
    case UnlinkSock => n !in w.sock
    case Bind => n in w.sock
    case Serving => true
    case DropSock => n !in w.sock
    case DropPid => n !in w.pid
    case DropVersion => n !in w.version && p !in w.live
  }

  function Order(phase: Phase): nat {
    match phase
    case WritePid => 0
    case WriteVersion => 1
    case UnlinkSock => 2
    case Bind => 3
    case Serving => 4
    case DropSock => 5
    case DropPid => 6
    case DropVersion => 7
  }

  /** The step in which a daemon leaves a phase does to the files what the phase is for. */
  lemma {:induction false} PhaseIsDone(w: World, p: Pid)
    requires p in w.daemons
    ensures LeftBehind(DaemonNext(w, p), p, w.daemons[p], w.daemons[p].phase)
  {
  }

  /** The phases follow each other; only a daemon that finds a socket in its place does not serve. */
  function PhaseAfter(phase: Phase, taken: bool): (r: Phase)
    ensures Order(phase) <= Order(r) <= Order(phase) + (if phase == Bind then 2 else 1)
  {
    match phase
    case WritePid => WriteVersion
    case WriteVersion => UnlinkSock
    case UnlinkSock => Bind
    case Bind => if taken then DropSock else Serving
    case Serving => DropSock
    case DropSock => DropPid
    case DropPid => DropVersion
    case DropVersion => DropVersion
  }

  lemma {:induction false} PhasesFollow(w: World, p: Pid)
    requires p in w.daemons
    ensures var d := w.daemons[p];
      DaemonNext(w, p).daemons == w.daemons[p := d.(phase := PhaseAfter(d.phase, d.session in w.sock))]
  {
  }

  /** What a client makes of the processes: at most one new one, of its own session and version. */
  lemma {:induction false} ClientsStartOwn(max: nat, s: State, c: ClientId, ch: Choice, p: Pid)
    requires Inv(max, s) && Enabled(s, ClientStep(c, ch)) && p in Next(max, s, ClientStep(c, ch)).w.daemons
    ensures var d := Next(max, s, ClientStep(c, ch)).w.daemons[p];
      || (p in s.w.daemons && d == s.w.daemons[p])
      || (p !in s.w.daemons && d == Process(s.clients[c].session, s.clients[c].version, WritePid))
  {
    match s.clients[c].pc
    case Approaching(at) => ApproachShrinks(s.w, s.clients[c], at, ch);
    case Walking(at) => WalkShrinks(s.w, at, ch.name);
    case Awaiting(at) => WaitShape(s.w, s.clients[c], at, ch.flag);
    case _ =>
  }

  ghost predicate HasBehind(ss: seq<State>, acts: seq<Action>, k: nat, p: Pid, d: Process, phase: Phase) {
    exists j: nat :: j < k && k <= |acts| < |ss| && acts[j] == DaemonStep(p) && LeftBehind(ss[j + 1].w, p, d, phase)
  }

  lemma {:induction false} PhaseStep(max: nat, s: State, a: Action, p: Pid)
    requires Inv(max, s) && Enabled(s, a) && p in Next(max, s, a).w.daemons
    ensures var s2 := Next(max, s, a); var d := s2.w.daemons[p];
      || (p in s.w.daemons && d == s.w.daemons[p])
      || (p !in s.w.daemons && d.phase == WritePid)
      || (p in s.w.daemons && a == DaemonStep(p) && d == s.w.daemons[p].(phase := d.phase)
          && LeftBehind(s2.w, p, s.w.daemons[p], s.w.daemons[p].phase)
          && Order(d.phase) <= Order(s.w.daemons[p].phase) + (if s.w.daemons[p].phase == Bind then 2 else 1))
  {
    match a
    case ClientStep(c, ch) => ClientsStartOwn(max, s, c, ch, p);
    case DaemonStep(q) =>
      PhasesFollow(s.w, q);
      if p == q {
        PhaseIsDone(s.w, p);
      }
    case Remove(n, e) => DeleteShrinks(s.w, n, e);
    case _ =>
  }

  /** A daemon started in the run has done what each phase before its present one is for: it wrote
      its id before its version, and both before it bound; in the end it deleted all three files. */
  lemma {:induction false} PhasesWereDone(
    max: nat, ss: seq<State>, acts: seq<Action>, k: nat, p: Pid, phase: Phase)
    requires IsRun(max, ss, acts) && k < |ss| && p in ss[k].w.daemons && p !in ss[0].w.daemons
    requires phase != Serving && Order(phase) < Order(ss[k].w.daemons[p].phase)
    ensures HasBehind(ss, acts, k, p, ss[k].w.daemons[p].(phase := phase), phase)
  {
    var s, a := ss[k - 1], acts[k - 1];
    RunKeeps(max, ss, acts, k - 1);
    assert IsStep(max, ss[k - 1], acts[k - 1], ss[k - 1 + 1]);
    PhaseStep(max, s, a, p);
    if Order(phase) < Order(s.w.daemons[p].phase) {
      PhasesWereDone(max, ss, acts, k - 1, p, phase);
      var d := s.w.daemons[p].(phase := phase);
      var j: nat :| j < k - 1 && acts[j] == DaemonStep(p) && LeftBehind(ss[j + 1].w, p, d, phase);
      assert acts[j] == DaemonStep(p);
    } else {
      assert s.w.daemons[p].phase == phase;
      assert acts[k - 1] == DaemonStep(p);
    }
  }
}
