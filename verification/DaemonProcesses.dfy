/**
 The session cap bounds processes, not only `.pid` files: when every client has a session of its
 own and nobody deletes files from outside, no session ever has two daemons, and every daemon that
 has not taken its `.pid` file away is within the cap, or an orphan beyond it.
*/
module DaemonProcesses {
  import opened Option
  import opened Daemon
  import opened DaemonCapacity
  import Cardinality

  // ---------------------------------------------------------------- processes and their files

  predicate IsUp(w: World, p: Pid) {
    p in w.daemons && p in w.live
  }

  /** The daemon has not yet taken its `.pid` file away on its way out. */
  predicate IsRunning(w: World, p: Pid) {
    IsUp(w, p) && w.daemons[p].phase != DropVersion
  }

  function Running(w: World): set<Pid> {
    set p | p in w.daemons && IsRunning(w, p)
  }

  ghost predicate OneEach(w: World) {
    forall p, q | IsUp(w, p) && IsUp(w, q) && p != q :: w.daemons[p].session != w.daemons[q].session
  }

  /** A starting daemon has left no file yet; a later one is named by its `.pid` file. */
  predicate HasItsFile(w: World, p: Pid)
    requires p in w.daemons
  {
    var d := w.daemons[p];
    && d.session != ""
    && (d.phase == WritePid ==> d.session !in w.pid && d.session !in w.sock)
    && (d.phase != WritePid && d.phase != DropVersion ==> d.session in w.pid && w.pid[d.session] == Names(p))
  }

  ghost predicate Filed(w: World) {
    forall p | IsUp(w, p) :: HasItsFile(w, p)
  }

  /** No daemon of session n is there. */
  ghost predicate Nobody(w: World, n: Session) {
    forall p | IsUp(w, p) :: w.daemons[p].session != n
  }

  /** No daemon of session n is starting. */
  ghost predicate NoneStarts(w: World, n: Session) {
    forall p | IsUp(w, p) && w.daemons[p].session == n :: w.daemons[p].phase != WritePid
  }

  /** Of session n at most process p is running. */
  ghost predicate AtMost(w: World, n: Session, p: Pid) {
    forall q | IsRunning(w, q) && w.daemons[q].session == n :: q == p
  }

  ghost predicate NoneRuns(w: World, n: Session) {
    forall q | IsRunning(w, q) :: w.daemons[q].session != n
  }

  // ---------------------------------------------------------------- what a client knows

  predicate NoFiles(w: World, n: Session) {
    n !in w.pid && n !in w.sock
  }

  predicate Cleaned(w: World, n: Session, left: seq<Ext>) {
    (PidExt !in left ==> n !in w.pid) && (SockExt !in left ==> n !in w.sock)
  }

  predicate BeforeSpawn(pc: PC) {
    pc.AcquireLock? || pc.Walking? || pc.Admit? || pc.Spawn?
  }

  ghost predicate KnowsItsSession(w: World, k: Client) {
    && k.session != ""
    && (k.pc.Approaching? || BeforeSpawn(k.pc) ==> Nobody(w, k.session))
    && (k.pc.Approaching? && k.pc.approach.Cleanup? ==> Cleaned(w, k.session, k.pc.approach.left))
    && (BeforeSpawn(k.pc) ==> NoFiles(w, k.session))
  }

  ghost predicate AllOld(w: World, todo: set<Session>) {
    forall n <- todo :: NoneStarts(w, n)
  }

  ghost predicate KnowsTheWalk(w: World, at: Walk) {
    match at
    case ListPids => true
    case WalkPids(todo, _) => AllOld(w, todo)
    case WalkAlive(e, p, todo, _) => AllOld(w, todo) && AtMost(w, e, p)
    case WalkClean(e, _, todo, _, _) => AllOld(w, todo) && NoneRuns(w, e)
    case WalkSocks(todo, _) => AllOld(w, todo)
  }

  ghost predicate Knows(w: World, k: Client) {
    KnowsItsSession(w, k) && (k.pc.Walking? ==> KnowsTheWalk(w, k.pc.walk))
  }

  ghost predicate OwnSessions(clients: map<ClientId, Client>) {
    forall c, d | c in clients && d in clients && c != d :: clients[c].session != clients[d].session
  }

  ghost predicate Orderly(s: State) {
    OneEach(s.w) && Filed(s.w) && OwnSessions(s.clients) && forall c <- s.clients :: Knows(s.w, s.clients[c])
  }

  // ---------------------------------------------------------------- what others may do

  /** Process p in w2 was there in w, and has not gone back. */
  predicate GoesOn(w: World, w2: World, p: Pid)
    requires p in w2.daemons
  {
    && IsUp(w, p) && w2.daemons[p].session == w.daemons[p].session
    && (w2.daemons[p].phase == WritePid ==> w.daemons[p].phase == WritePid)
    && (w.daemons[p].phase == DropVersion ==> w2.daemons[p].phase == DropVersion)
  }

  /** No new process, and no new file of a session without one. */
  ghost predicate Calm(w: World, w2: World) {
    && (forall p | IsUp(w2, p) :: GoesOn(w, w2, p))
    && (forall n | n in w2.pid && n !in w.pid :: !Nobody(w, n))
    && (forall n | n in w2.sock && n !in w.sock :: !Nobody(w, n))
  }

  lemma {:induction false} CalmKeepsWalk(w: World, w2: World, at: Walk)
    requires Calm(w, w2) && KnowsTheWalk(w, at)
    ensures KnowsTheWalk(w2, at)
  {
  }

  lemma {:induction false} CalmKeepsSession(w: World, w2: World, k: Client)
    requires Calm(w, w2) && KnowsItsSession(w, k)
    ensures KnowsItsSession(w2, k)
  {
  }

  lemma {:induction false} CalmKeeps(w: World, w2: World, k: Client)
    requires Calm(w, w2) && Knows(w, k)
    ensures Knows(w2, k)
  {
    CalmKeepsSession(w, w2, k);
    if k.pc.Walking? {
      CalmKeepsWalk(w, w2, k.pc.walk);
    }
  }

  /** Whoever deletes only files of sessions without a running daemon disturbs no daemon. */
  lemma {:induction false} DeletionKeeps(w: World, n: Session, e: Ext)
    requires OneEach(w) && Filed(w) && NoneRuns(w, n)
    ensures var w2 := Delete(w, n, e); OneEach(w2) && Filed(w2) && Calm(w, w2)
  {
    var w2 := Delete(w, n, e);
    assert w2.daemons == w.daemons && w2.live == w.live;
    forall p | IsUp(w2, p) ensures HasItsFile(w2, p) {
      assert IsUp(w, p) && HasItsFile(w, p);
      assert w.daemons[p].session == n ==> !IsRunning(w, p);
    }
  }

  /** Nothing but deaths. */
  lemma {:induction false} DeathKeepsFiles(w: World, w2: World)
    requires OneEach(w) && Filed(w)
    requires w2.daemons == w.daemons && w2.live <= w.live && w2.pid == w.pid && w2.sock == w.sock
    ensures OneEach(w2) && Filed(w2) && Calm(w, w2)
  {
    forall p | IsUp(w2, p) ensures HasItsFile(w2, p) && GoesOn(w, w2, p) {
      assert IsUp(w, p) && HasItsFile(w, p);
    }
  }

  // ---------------------------------------------------------------- daemon steps

  /** The same, but for one entry. */
  predicate SameButFor<T(==)>(entries: map<Session, T>, entries2: map<Session, T>, key: Session) {
    entries2 - {key} == entries - {key}
  }

  lemma {:induction false} SameElsewhere<T>(
    entries: map<Session, T>, entries2: map<Session, T>, key: Session, other: Session)
    requires SameButFor(entries, entries2, key) && other != key
    ensures other in entries2 <==> other in entries
    ensures other in entries ==> entries2[other] == entries[other]
  {
    assert other in entries <==> other in entries - {key};
    assert other in entries2 <==> other in entries2 - {key};
  }

  lemma {:induction false} EntryOnly<T>(entries: map<Session, T>, key: Session, x: T)
    ensures SameButFor(entries, entries[key := x], key) && SameButFor(entries, entries - {key}, key)
  {
    assert entries[key := x] - {key} == entries - {key} && entries - {key} - {key} == entries - {key};
  }

  /** Another daemon keeps its file. */
  lemma {:induction false} OtherFileKept(w: World, w2: World, q: Pid, n: Session)
    requires q in w.daemons && q in w2.daemons && w2.daemons[q] == w.daemons[q] && w.daemons[q].session != n
    requires HasItsFile(w, q) && SameButFor(w.pid, w2.pid, n) && SameButFor(w.sock, w2.sock, n)
    ensures HasItsFile(w2, q)
  {
    SameElsewhere(w.pid, w2.pid, n, w.daemons[q].session);
    SameElsewhere(w.sock, w2.sock, n, w.daemons[q].session);
  }

  /** Daemon p goes on to a later phase, having changed the files of its own session at most. */
  lemma {:induction false} PhaseKeepsFiles(w: World, w1: World, p: Pid, phase: Phase)
    requires OneEach(w) && Filed(w) && IsUp(w, p) && w1.daemons == w.daemons && w1.live == w.live
    requires var n := w.daemons[p].session;
      && SameButFor(w.pid, w1.pid, n) && SameButFor(w.sock, w1.sock, n)
      && phase != WritePid && w.daemons[p].phase != DropVersion
      && (phase != DropVersion ==> n in w1.pid && w1.pid[n] == Names(p))
    ensures var w2 := At(w1, p, phase); OneEach(w2) && Filed(w2) && Calm(w, w2)
  {
    var w2, n := At(w1, p, phase), w.daemons[p].session;
    assert HasItsFile(w, p);
    forall q | IsUp(w2, q) ensures HasItsFile(w2, q) && GoesOn(w, w2, q) {
      if q != p {
        assert HasItsFile(w, q);
        OtherFileKept(w, w2, q, n);
      }
    }
    assert !Nobody(w, n);
    forall m | m != n ensures (m in w2.pid <==> m in w.pid) && (m in w2.sock <==> m in w.sock) {
      SameElsewhere(w.pid, w2.pid, n, m);
      SameElsewhere(w.sock, w2.sock, n, m);
    }
  }

  lemma {:induction false} DaemonKeepsFiles(w: World, p: Pid)
    requires OneEach(w) && Filed(w) && IsUp(w, p)
    ensures var w2 := DaemonNext(w, p); OneEach(w2) && Filed(w2) && Calm(w, w2)
  {
    var d := w.daemons[p];
    assert HasItsFile(w, p);
    EntryOnly(w.pid, d.session, Names(p));
    EntryOnly(w.sock, d.session, p);
    match d.phase
    case WritePid => PhaseKeepsFiles(w, w.(pid := w.pid[d.session := Names(p)]), p, WriteVersion);
    case WriteVersion => PhaseKeepsFiles(w, w.(version := w.version[d.session := d.version]), p, UnlinkSock);
    case UnlinkSock => PhaseKeepsFiles(w, w.(sock := w.sock - {d.session}), p, Bind);
    case Bind =>
      if d.session in w.sock {
        PhaseKeepsFiles(w, w, p, DropSock);
      } else {
        PhaseKeepsFiles(w, w.(sock := w.sock[d.session := p]), p, Serving);
      }
    case Serving => PhaseKeepsFiles(w, w, p, DropSock);
    case DropSock => PhaseKeepsFiles(w, w.(sock := w.sock - {d.session}), p, DropPid);
    case DropPid => PhaseKeepsFiles(w, w.(pid := w.pid - {d.session}), p, DropVersion);
    case DropVersion => DeathKeepsFiles(w, DaemonNext(w, p));
  }

  // ---------------------------------------------------------------- client steps

  lemma {:induction false} ApproachCalm(w: World, k: Client, at: Approach, ch: Choice)
    requires OneEach(w) && Filed(w) && k.pc == Approaching(at) && Nobody(w, k.session)
    ensures var w2 := ApproachNext(w, k, at, ch).0; OneEach(w2) && Filed(w2) && Calm(w, w2)
  {
    match at
    case KillUnlink => DeletionKeeps(w, k.session, SockExt);
    case KillCleanup(left) =>
      if left != [] { DeletionKeeps(w, k.session, left[0]); } else { DeathKeepsFiles(w, w); }
    case Cleanup(left) =>
      if left != [] { DeletionKeeps(w, k.session, left[0]); } else { DeathKeepsFiles(w, w); }
    case _ => DeathKeepsFiles(w, ApproachNext(w, k, at, ch).0);
  }

  lemma {:induction false} OneCleaned(w: World, n: Session, left: seq<Ext>)
    requires left != [] && Cleaned(w, n, left)
    ensures Cleaned(Delete(w, n, left[0]), n, left[1..])
  {
    assert forall e | e != left[0] && e !in left[1..] :: e !in left;
  }

  lemma {:induction false} ApproachShape(w: World, k: Client, at: Approach, ch: Choice)
    requires k.pc == Approaching(at) && (at.Cleanup? ==> Cleaned(w, k.session, at.left))
    ensures var (w2, k2) := ApproachNext(w, k, at, ch);
      && k2.session == k.session && !k2.pc.Walking? && (BeforeSpawn(k2.pc) ==> NoFiles(w2, k.session))
      && (k2.pc.Approaching? && k2.pc.approach.Cleanup? ==> Cleaned(w2, k.session, k2.pc.approach.left))
  {
    if at.Cleanup? && at.left != [] {
      OneCleaned(w, k.session, at.left);
    }
  }

  lemma {:induction false} ApproachKeeps(w: World, k: Client, at: Approach, ch: Choice)
    requires OneEach(w) && Filed(w) && k.pc == Approaching(at) && Knows(w, k)
    ensures var (w2, k2) := ApproachNext(w, k, at, ch);
      OneEach(w2) && Filed(w2) && Calm(w, w2) && Knows(w2, k2) && k2.session == k.session
  {
    ApproachCalm(w, k, at, ch);
    ApproachShape(w, k, at, ch);
    assert Nobody(ApproachNext(w, k, at, ch).0, k.session);
  }

  /** What the walk finds out about an entry from its `.pid` file. */
  lemma {:induction false} ReadTells(w: World, n: Session)
    requires Filed(w) && NoneStarts(w, n)
    ensures if n in w.pid && w.pid[n].Names? then AtMost(w, n, w.pid[n].pid) else NoneRuns(w, n)
  {
    forall q | IsRunning(w, q) && w.daemons[q].session == n ensures n in w.pid && w.pid[n] == Names(q) {
      assert HasItsFile(w, q);
    }
  }

  /** An entry that has a file has no starting daemon. */
  lemma {:induction false} ListedAreOld(w: World, todo: set<Session>)
    requires Filed(w) && forall n <- todo :: n in w.pid || n in w.sock
    ensures AllOld(w, todo)
  {
    forall n, p | n in todo && IsUp(w, p) && w.daemons[p].session == n ensures w.daemons[p].phase != WritePid {
      assert HasItsFile(w, p);
    }
  }

  lemma {:induction false} WalkCalm(w: World, at: Walk, name: Session)
    requires OneEach(w) && Filed(w) && KnowsTheWalk(w, at)
    ensures var w2 := WalkNext(w, at, name).0; OneEach(w2) && Filed(w2) && Calm(w, w2)
  {
    if at.WalkClean? && at.left != [] {
      DeletionKeeps(w, at.entry, at.left[0]);
    } else {
      DeathKeepsFiles(w, w);
    }
  }

  lemma {:induction false} WalkKnows(w: World, at: Walk, name: Session)
    requires OneEach(w) && Filed(w) && KnowsTheWalk(w, at)
    requires (at.WalkPids? || at.WalkSocks?) && at.todo != {} ==> name in at.todo
    ensures var (w2, pc2) := WalkNext(w, at, name);
      (pc2.Walking? ==> KnowsTheWalk(w2, pc2.walk)) && BeforeSpawn(pc2)
  {
    match at
    case ListPids => ListedAreOld(w, w.pid.Keys - {""});
    case WalkPids(todo, _) =>
      if todo == {} { ListedAreOld(w, w.sock.Keys - {""}); } else { ReadTells(w, name); }
    case WalkAlive(_, _, _, _) =>
    case WalkClean(_, left, _, _, _) =>
      WalkCalm(w, at, name);
      CalmKeepsWalk(w, WalkNext(w, at, name).0, at);
    case WalkSocks(todo, _) =>
      if todo != {} { ReadTells(w, name); }
  }

  /** The new daemon of a session that had none. */
  lemma {:induction false} SpawnKeepsFiles(w: World, k: Client, p: Pid)
    requires OneEach(w) && Filed(w) && PidsKnown(w) && p !in w.used
    requires k.session != "" && Nobody(w, k.session) && NoFiles(w, k.session)
    ensures var w2 := SpawnChild(w, k, p); OneEach(w2) && Filed(w2)
  {
    var w2 := SpawnChild(w, k, p);
    forall q | IsUp(w2, q) ensures HasItsFile(w2, q) && (q != p ==> IsUp(w, q)) {
      assert q != p ==> IsUp(w, q) && HasItsFile(w, q);
    }
  }

  lemma {:induction false} OthersOfSpawn(w: World, k: Client, p: Pid, other: Client)
    requires PidsKnown(w) && p !in w.used && Knows(w, other) && !other.pc.Walking?
    requires other.session != k.session
    ensures Knows(SpawnChild(w, k, p), other)
  {
    var w2 := SpawnChild(w, k, p);
    if Nobody(w, other.session) {
      forall q | IsUp(w2, q) ensures w2.daemons[q].session != other.session {
        assert q != p ==> IsUp(w, q);
      }
    }
  }

  // ---------------------------------------------------------------- every step

  /** A step of one client that spawns nothing. */
  lemma {:induction false} CalmStep(s: State, c: ClientId, w2: World, k2: Client)
    requires Orderly(s) && c in s.clients && OneEach(w2) && Filed(w2) && Calm(s.w, w2)
    requires Knows(w2, k2) && k2.session == s.clients[c].session
    ensures Orderly(State(w2, s.clients[c := k2]))
  {
    forall d | d in s.clients && d != c ensures Knows(w2, s.clients[d]) {
      CalmKeeps(s.w, w2, s.clients[d]);
    }
  }

  lemma {:induction false} EnvironmentStep(s: State, w2: World)
    requires Orderly(s) && OneEach(w2) && Filed(w2) && Calm(s.w, w2)
    ensures Orderly(s.(w := w2))
  {
    forall d | d in s.clients ensures Knows(w2, s.clients[d]) {
      CalmKeeps(s.w, w2, s.clients[d]);
    }
  }

  lemma {:induction false} SpawnStep(max: nat, s: State, c: ClientId, p: Pid)
    requires Inv(max, s) && Orderly(s) && c in s.clients && s.clients[c].pc.Spawn? && p !in s.w.used
    ensures var k := s.clients[c];
      Orderly(State(SpawnChild(s.w, k, p),
                    s.clients[c := k.(pc := Awaiting(Poll(POLL_ATTEMPTS)), child := Some(p))]))
  {
    var k := s.clients[c];
    SpawnKeepsFiles(s.w, k, p);
    forall d | d in s.clients && d != c ensures Knows(SpawnChild(s.w, k, p), s.clients[d]) {
      OthersOfSpawn(s.w, k, p, s.clients[d]);
    }
  }

  /** Steps that change neither processes nor `.pid` files nor sockets, and start no walk. */
  lemma {:induction false} PlainStep(s: State, c: ClientId, w2: World, k2: Client)
    requires Orderly(s) && c in s.clients && k2.session == s.clients[c].session
    requires w2.daemons == s.w.daemons && w2.live == s.w.live && w2.pid == s.w.pid && w2.sock == s.w.sock
    requires !k2.pc.Approaching? && (k2.pc.Walking? ==> k2.pc.walk.ListPids?)
    requires BeforeSpawn(k2.pc) ==> BeforeSpawn(s.clients[c].pc)
    ensures Orderly(State(w2, s.clients[c := k2]))
  {
    DeathKeepsFiles(s.w, w2);
    CalmKeepsSession(s.w, w2, s.clients[c]);
    CalmStep(s, c, w2, k2);
  }

  lemma {:induction false} WalkStep(s: State, c: ClientId, name: Session)
    requires Orderly(s) && c in s.clients && s.clients[c].pc.Walking?
    requires ClientEnabled(s.w, s.clients[c], Choice(name, 0, false))
    ensures var (w2, pc2) := WalkNext(s.w, s.clients[c].pc.walk, name);
      Orderly(State(w2, s.clients[c := s.clients[c].(pc := pc2)]))
  {
    var k := s.clients[c];
    var (w2, pc2) := WalkNext(s.w, k.pc.walk, name);
    WalkCalm(s.w, k.pc.walk, name);
    WalkKnows(s.w, k.pc.walk, name);
    CalmKeepsSession(s.w, w2, k);
    CalmStep(s, c, w2, k.(pc := pc2));
  }

  lemma {:induction false} ClientKeepsOrder(max: nat, s: State, c: ClientId, ch: Choice)
    requires Inv(max, s) && Orderly(s) && Enabled(s, ClientStep(c, ch))
    ensures Orderly(Next(max, s, ClientStep(c, ch)))
  {
    var k := s.clients[c];
    var (w2, k2) := ClientNext(max, s.w, c, k, ch);
    match k.pc
    case Approaching(at) =>
      ApproachKeeps(s.w, k, at, ch);
      CalmStep(s, c, w2, k2);
    case Walking(at) => WalkStep(s, c, ch.name);
    case Spawn(_) =>
      if ch.flag {
        SpawnStep(max, s, c, ch.pid);
      } else {
        PlainStep(s, c, w2, k2);
      }
    case Awaiting(at) =>
      WaitShape(s.w, k, at, ch.flag);
      PlainStep(s, c, w2, k2);
    case _ => PlainStep(s, c, w2, k2);
  }

  lemma {:induction false} StepKeepsOrder(max: nat, s: State, a: Action)
    requires Inv(max, s) && Orderly(s) && Enabled(s, a) && !a.Remove?
    ensures Orderly(Next(max, s, a))
  {
    match a
    case ClientStep(c, ch) => ClientKeepsOrder(max, s, c, ch);
    case ClientDies(c) =>
      var (w2, k2) := Finish(s.w, s.clients[c], Failed);
      PlainStep(s, c, w2, k2);
    case DaemonStep(p) =>
      DaemonKeepsFiles(s.w, p);
      EnvironmentStep(s, DaemonNext(s.w, p));
    case Crash(p) =>
      var w2 := s.w.(live := s.w.live - {p});
      DeathKeepsFiles(s.w, w2);
      EnvironmentStep(s, w2);
  }

  // ---------------------------------------------------------------- main results

  /** A run in which every client has a session of its own that nobody serves at the start, the
      daemons there are in order, and no file is deleted from outside. */
  ghost predicate IsOrderlyRun(max: nat, ss: seq<State>, acts: seq<Action>) {
    && IsRun(max, ss, acts)
    && OneEach(ss[0].w) && Filed(ss[0].w) && OwnSessions(ss[0].clients)
    && (forall c <- ss[0].clients :: ss[0].clients[c].session != "" && Nobody(ss[0].w, ss[0].clients[c].session))
    && (forall a <- acts :: !a.Remove?)
  }

  lemma {:induction false} OrderHolds(max: nat, ss: seq<State>, acts: seq<Action>, i: nat)
    requires IsOrderlyRun(max, ss, acts) && i < |ss|
    ensures Orderly(ss[i])
  {
    if i > 0 {
      OrderHolds(max, ss, acts, i - 1);
      RunKeeps(max, ss, acts, i - 1);
      assert IsStep(max, ss[i - 1], acts[i - 1], ss[i - 1 + 1]) && acts[i - 1] in acts;
      StepKeepsOrder(max, ss[i - 1], acts[i - 1]);
    }
  }

  /** No session ever has two daemons. */
  lemma {:induction false} OneDaemonEach(max: nat, ss: seq<State>, acts: seq<Action>, i: nat, p: Pid, q: Pid)
    requires IsOrderlyRun(max, ss, acts) && i < |ss| && IsUp(ss[i].w, p) && IsUp(ss[i].w, q)
    ensures ss[i].w.daemons[p].session == ss[i].w.daemons[q].session ==> p == q
  {
    OrderHolds(max, ss, acts, i);
  }

  lemma {:induction false} RunningAreCounted(w: World)
    requires OneEach(w) && Filed(w)
    ensures |Running(w)| <= |Registered(w)| + |Pending(w)|
  {
    var later := Running(w) - Pending(w);
    var session := map p | p in w.daemons :: w.daemons[p].session;
    forall p | p in later ensures session[p] in Registered(w) {
      assert IsUp(w, p) && HasItsFile(w, p);
    }
    Cardinality.Injection(later, session, Registered(w));
    Cardinality.Union(later, Pending(w));
    Cardinality.Subset(Running(w), later + Pending(w));
  }

  /** All daemons that have not taken their `.pid` file away exceed the cap by at most the number of
      live orphans: the cap holds of processes. */
  lemma {:induction false} ProcessesAreCapped(max: nat, ss: seq<State>, acts: seq<Action>, i: nat)
    requires IsOrderlyRun(max, ss, acts) && i < |ss|
    ensures |Running(ss[i].w)| <= max + |LiveOrphans(ss[i].w)|
  {
    OrderHolds(max, ss, acts, i);
    RunningAreCounted(ss[i].w);
    CapacitySafety(max, ss, acts, i);
  }
}
