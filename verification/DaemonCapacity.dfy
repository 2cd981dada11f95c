/**
 Capacity safety of `ensure_daemon` over every interleaving.

 The lock admits at most `max` sessions: those registered by a daemon that nobody abandoned,
 together with the children that may still register. What can go beyond the cap is exactly
 the abandoned children, whose parent returned before they had written their `.pid` file.
 The holder of the lock keeps an invariant that survives whatever the other processes do
 meanwhile (`Rely`).
*/
module DaemonCapacity {
  import opened Option
  import opened Daemon
  import Cardinality

  /** Session n was registered by an abandoned child. */
  predicate OwnedByOrphan(w: World, n: Session) {
    && n in w.pid && w.pid[n].Names? && w.pid[n].pid in w.abandoned
    && w.pid[n].pid in w.daemons
  }

  /** Registered sessions whose daemon nobody abandoned. */
  function Admitted(w: World): set<Session> {
    set n | n in Registered(w) && !OwnedByOrphan(w, n)
  }

  /** Children that may still register and whose parent still waits. */
  function Awaited(w: World): set<Pid> {
    Pending(w) - w.abandoned
  }

  function Budget(w: World): nat {
    |Admitted(w)| + |Awaited(w)|
  }

  ghost predicate WorldInv(max: nat, w: World) {
    && PidsKnown(w)
    && Budget(w) <= max
    && (w.lock == None ==> Awaited(w) == {})
  }

  /** The sessions that the walk has counted or still has to look at. */
  predicate WalkCovers(w: World, at: Walk, n: Session) {
    match at
    case ListPids => true
    case WalkPids(todo, counted) => n in todo || n in counted
    case WalkAlive(e, p, todo, counted) =>
      n in todo || n in counted || (n == e && n in w.pid && w.pid[n] == Names(p))
    case WalkClean(_, _, todo, counted, socks) => n in counted || (!socks && n in todo)
    case WalkSocks(_, counted) => n in counted
  }

  predicate Covers(w: World, pc: PC, n: Session) {
    match pc
    case Walking(at) => WalkCovers(w, at, n)
    case Admit(counted) => n in counted
    case Spawn(counted) => n in counted
    case _ => true
  }

  ghost predicate PendingOwned(w: World, child: Option<Pid>) {
    forall p <- Pending(w) :: p in w.abandoned || child == Some(p)
  }

  ghost predicate AllCovered(w: World, pc: PC) {
    !pc.Awaiting? ==> forall n <- Registered(w) :: Covers(w, pc, n) || OwnedByOrphan(w, n)
  }

  ghost predicate HolderInv(max: nat, w: World, k: Client) {
    && Locked(k.pc)
    && (k.pc.Awaiting? <==> k.child.Some?)
    && PendingOwned(w, k.child)
    && AllCovered(w, k.pc)
    && (k.pc.Spawn? ==> |k.pc.counted| < max)
  }

  ghost predicate Inv(max: nat, s: State) {
    && WorldInv(max, s.w)
    && (forall c <- s.clients :: Locked(s.clients[c].pc) <==> s.w.lock == Some(c))
    && (forall c <- s.clients :: !s.clients[c].pc.Awaiting? && !s.clients[c].pc.Done? ==> s.clients[c].child == None)
    && (s.w.lock.Some? ==> s.w.lock.value in s.clients && HolderInv(max, s.w, s.clients[s.w.lock.value]))
  }

  // ---------------------------------------------------------------- what others may do

  /** Entry n of the `.pid` files in w2 is the one in w, or a child of w has just written it. */
  predicate SameOrRegisters(w: World, w2: World, n: Session) {
    && n in w2.pid
    && ((n in w.pid && w2.pid[n] == w.pid[n]) || (w2.pid[n].Names? && w2.pid[n].pid in Pending(w)))
  }

  ghost predicate Rely(w: World, w2: World) {
    && w2.lock == w.lock && w2.used == w.used && w2.abandoned == w.abandoned
    && w2.live <= w.live
    && w2.daemons.Keys == w.daemons.Keys
    && Pending(w2) <= Pending(w)
    && (forall n <- w2.pid :: SameOrRegisters(w, w2, n))
    && (forall n <- w2.config :: n in w.config && w2.config[n] == w.config[n])
  }

  /** Nothing but deletions and deaths. */
  ghost predicate Shrinks(w: World, w2: World) {
    && w2.lock == w.lock && w2.used == w.used && w2.abandoned == w.abandoned
    && w2.live <= w.live && w2.daemons == w.daemons
    && (forall n <- w2.pid :: n in w.pid && w2.pid[n] == w.pid[n])
    && (forall n <- w2.config :: n in w.config && w2.config[n] == w.config[n])
  }

  lemma {:induction false} ShrinkKeeps(w: World, w2: World)
    requires PidsKnown(w) && Shrinks(w, w2)
    ensures PidsKnown(w2) && Rely(w, w2) && Budget(w2) <= Budget(w)
    ensures Registered(w2) <= Registered(w)
  {
    Cardinality.Subset(Admitted(w2), Admitted(w));
    Cardinality.Subset(Awaited(w2), Awaited(w));
  }

  lemma {:induction false} DeleteShrinks(w: World, n: Session, e: Ext)
    ensures Shrinks(w, Delete(w, n, e))
  {
    match e
    case PidExt =>
    case VersionExt =>
    case ConfigExt =>
    case SockExt =>
  }

  /** A child that registers moves from the children to the sessions, admitted or an orphan's. */
  lemma {:induction false} RegistrationMoves(w: World, p: Pid)
    requires PidsKnown(w) && p in w.daemons && p in w.live && w.daemons[p].phase == WritePid
    ensures var w2, n := DaemonNext(w, p), w.daemons[p].session;
      && Pending(w2) == Pending(w) - {p} && p in Pending(w)
      && Admitted(w2) <= (if p in w.abandoned then Admitted(w) else Admitted(w) + {n})
  {
    var w2, n := DaemonNext(w, p), w.daemons[p].session;
    assert OwnedByOrphan(w2, n) <==> p in w.abandoned;
    forall m | m in Admitted(w2) && m != n ensures m in Admitted(w) {
      assert IsRegistered(w, m) && !OwnedByOrphan(w, m);
    }
  }

  lemma {:induction false} RegistrationBudget(w: World, p: Pid)
    requires PidsKnown(w) && p in w.daemons && p in w.live && w.daemons[p].phase == WritePid
    ensures Budget(DaemonNext(w, p)) <= Budget(w)
  {
    var w2, n := DaemonNext(w, p), w.daemons[p].session;
    RegistrationMoves(w, p);
    if p in w.abandoned {
      Cardinality.Subset(Admitted(w2), Admitted(w));
      assert Awaited(w2) == Awaited(w);
    } else {
      Cardinality.Subset(Admitted(w2), Admitted(w) + {n});
      Cardinality.Union(Admitted(w), {n});
      assert Awaited(w2) == Awaited(w) - {p};
    }
  }

  lemma {:induction false} RegistrationKeeps(w: World, p: Pid)
    requires PidsKnown(w) && p in w.daemons && p in w.live && w.daemons[p].phase == WritePid
    ensures var w2 := DaemonNext(w, p);
      PidsKnown(w2) && Rely(w, w2) && Budget(w2) <= Budget(w)
  {
    RegistrationRelies(w, p);
    RegistrationBudget(w, p);
  }

  lemma {:induction false} RegistrationRelies(w: World, p: Pid)
    requires PidsKnown(w) && p in w.daemons && p in w.live && w.daemons[p].phase == WritePid
    ensures PidsKnown(DaemonNext(w, p)) && Rely(w, DaemonNext(w, p))
  {
    assert Pending(DaemonNext(w, p)) == Pending(w) - {p} && p in Pending(w);
  }

  /** Every other daemon step deletes files, moves the daemon past registration, or ends it. */
  lemma {:induction false} LaterDaemonShrinks(w: World, p: Pid)
    requires PidsKnown(w) && p in w.daemons && p in w.live && w.daemons[p].phase != WritePid
    ensures Shrinks(w, DaemonNext(w, p).(daemons := w.daemons))
    ensures Pending(DaemonNext(w, p)) == Pending(DaemonNext(w, p).(daemons := w.daemons))
  {
    var w2 := DaemonNext(w, p);
    var w1 := w2.(daemons := w.daemons);
    forall q | q in w.daemons ensures IsPending(w2, q) == IsPending(w1, q) {
      assert q in w2.daemons && (q != p ==> w2.daemons[q] == w.daemons[q]);
      assert w2.daemons[p].phase != WritePid;
    }
  }

  lemma {:induction false} LaterDaemonStep(w: World, p: Pid)
    requires PidsKnown(w) && p in w.daemons && p in w.live && w.daemons[p].phase != WritePid
    ensures var w2 := DaemonNext(w, p);
      PidsKnown(w2) && Rely(w, w2) && Budget(w2) <= Budget(w)
  {
    var w2 := DaemonNext(w, p);
    LaterDaemonShrinks(w, p);
    MovedOn(w, w2.(daemons := w.daemons), w2);
  }

  /** Deletions, and a daemon past its registration that moves on. */
  lemma {:induction false} MovedOn(w: World, w1: World, w2: World)
    requires PidsKnown(w) && Shrinks(w, w1)
    requires w2 == w1.(daemons := w2.daemons) && w2.daemons.Keys == w.daemons.Keys && Pending(w2) == Pending(w1)
    requires forall q <- w.daemons :: w2.daemons[q].session == w.daemons[q].session
    requires forall q <- w.daemons :: w.daemons[q].phase != WritePid ==> w2.daemons[q].phase != WritePid
    ensures PidsKnown(w2) && Rely(w, w2) && Budget(w2) <= Budget(w)
  {
    ShrinkKeeps(w, w1);
    SameBudget(w1, w2);
  }

  /** The budget does not depend on how far a registered daemon is. */
  lemma {:induction false} SameBudget(w1: World, w2: World)
    requires w2.pid == w1.pid && w2.live == w1.live && w2.abandoned == w1.abandoned
    requires w2.daemons.Keys == w1.daemons.Keys && Pending(w2) == Pending(w1)
    ensures Budget(w2) == Budget(w1)
  {
    forall n | n in w1.pid
      ensures IsRegistered(w2, n) == IsRegistered(w1, n) && OwnedByOrphan(w2, n) == OwnedByOrphan(w1, n)
    {
    }
    assert Admitted(w2) == Admitted(w1);
  }

  lemma {:induction false} DaemonKeeps(w: World, p: Pid)
    requires PidsKnown(w) && p in w.daemons && p in w.live
    ensures var w2 := DaemonNext(w, p);
      PidsKnown(w2) && Rely(w, w2) && Budget(w2) <= Budget(w)
  {
    if w.daemons[p].phase == WritePid {
      RegistrationKeeps(w, p);
    } else {
      LaterDaemonStep(w, p);
    }
  }

  lemma {:induction false} HolderStable(max: nat, w: World, w2: World, k: Client)
    requires PidsKnown(w) && PidsKnown(w2) && HolderInv(max, w, k) && Rely(w, w2)
    ensures HolderInv(max, w2, k)
  {
    forall n | n in Registered(w2) ensures Covers(w2, k.pc, n) || OwnedByOrphan(w2, n) {
      assert SameOrRegisters(w, w2, n);
      if n in w.pid && w2.pid[n] == w.pid[n] {
        assert n in Registered(w);
      }
    }
  }

  lemma {:induction false} EnvironmentKeeps(max: nat, s: State, w2: World)
    requires Inv(max, s) && PidsKnown(w2) && Rely(s.w, w2) && Budget(w2) <= Budget(s.w)
    ensures Inv(max, s.(w := w2))
  {
    if s.w.lock.Some? {
      HolderStable(max, s.w, w2, s.clients[s.w.lock.value]);
    }
  }

  // ---------------------------------------------------------------- client steps

  lemma {:induction false} ApproachShrinks(w: World, k: Client, at: Approach, ch: Choice)
    requires k.pc == Approaching(at)
    ensures var (w2, k2) := ApproachNext(w, k, at, ch);
      && Shrinks(w, w2) && !Locked(k2.pc) && !k2.pc.Awaiting? && k2.child == k.child
  {
    match at
    case KillUnlink => DeleteShrinks(w, k.session, SockExt);
    case KillCleanup(left) => if left != [] { DeleteShrinks(w, k.session, left[0]); }
    case Cleanup(left) => if left != [] { DeleteShrinks(w, k.session, left[0]); }
    case _ =>
  }

  lemma {:induction false} WalkShrinks(w: World, at: Walk, name: Session)
    ensures Shrinks(w, WalkNext(w, at, name).0)
  {
    if at.WalkClean? && at.left != [] {
      DeleteShrinks(w, at.entry, at.left[0]);
    }
  }

  /** A walk step leaves no registered session uncovered. */
  lemma {:induction false} WalkCoverage(w: World, at: Walk, name: Session, n: Session)
    requires WalkCovers(w, at, n) && IsRegistered(w, n)
    requires at.WalkPids? && at.todo != {} ==> name in at.todo
    ensures var (w2, pc2) := WalkNext(w, at, name); IsRegistered(w2, n) ==> Covers(w2, pc2, n)
  {
    WalkShrinks(w, at, name);
  }

  lemma {:induction false} WalkKeeps(max: nat, w: World, k: Client, name: Session)
    requires PidsKnown(w) && HolderInv(max, w, k) && k.pc.Walking?
    requires ClientEnabled(w, k, Choice(name, 0, false))
    ensures var (w2, pc2) := WalkNext(w, k.pc.walk, name);
      Shrinks(w, w2) && PidsKnown(w2) && HolderInv(max, w2, k.(pc := pc2))
  {
    var (w2, pc2) := WalkNext(w, k.pc.walk, name);
    WalkShrinks(w, k.pc.walk, name);
    ShrinkKeeps(w, w2);
    forall n | n in Registered(w2) ensures Covers(w2, pc2, n) || OwnedByOrphan(w2, n) {
      assert n in Registered(w);
      if !OwnedByOrphan(w, n) {
        WalkCoverage(w, k.pc.walk, name, n);
      }
    }
  }

  /** When every registered session is counted or owned by an orphan and no child is awaited,
      the budget is at most the count. */
  lemma {:induction false} CountBoundsBudget(w: World, counted: set<Session>)
    requires Awaited(w) == {}
    requires forall n <- Registered(w) :: n in counted || OwnedByOrphan(w, n)
    ensures Budget(w) <= |counted|
  {
    Cardinality.Subset(Admitted(w), counted);
  }

  lemma {:induction false} SpawnAddsOne(w: World, k: Client, p: Pid)
    requires PidsKnown(w) && p !in w.used
    ensures PidsKnown(SpawnChild(w, k, p))
    ensures Registered(SpawnChild(w, k, p)) == Registered(w) && Admitted(SpawnChild(w, k, p)) == Admitted(w)
    ensures Pending(SpawnChild(w, k, p)) == Pending(w) + {p}
  {
    var w2 := SpawnChild(w, k, p);
    forall n | n in w.pid ensures IsRegistered(w2, n) == IsRegistered(w, n) {
      assert w.pid[n].Names? ==> w.pid[n].pid in w.used;
      assert OwnedByOrphan(w2, n) == OwnedByOrphan(w, n);
    }
    forall q | q in w2.daemons ensures IsPending(w2, q) == (q == p || (q in w.daemons && IsPending(w, q))) {
    }
  }

  lemma {:induction false} SpawnKeeps(max: nat, w: World, k: Client, p: Pid)
    requires WorldInv(max, w) && HolderInv(max, w, k) && k.pc.Spawn? && p !in w.used && w.lock.Some?
    ensures WorldInv(max, SpawnChild(w, k, p))
    ensures HolderInv(max, SpawnChild(w, k, p), k.(pc := Awaiting(Poll(POLL_ATTEMPTS)), child := Some(p)))
  {
    var w2 := SpawnChild(w, k, p);
    SpawnAddsOne(w, k, p);
    assert Awaited(w) == {};
    CountBoundsBudget(w, k.pc.counted);
    assert Awaited(w2) <= {p};
    Cardinality.Subset(Awaited(w2), {p});
  }

  lemma {:induction false} FinishKeeps(max: nat, w: World, k: Client, o: Outcome)
    requires WorldInv(max, w) && HolderInv(max, w, k) && w.lock.Some?
    ensures WorldInv(max, Finish(w, k, o).0)
  {
    var w2 := Finish(w, k, o).0;
    assert Registered(w2) == Registered(w) && Pending(w2) == Pending(w);
    Cardinality.Subset(Admitted(w2), Admitted(w));
    forall p | p in Pending(w) ensures p in w2.abandoned {
      assert p in w.abandoned || k.child == Some(p);
    }
    assert Awaited(w2) == {};
  }

  lemma {:induction false} ConfigIrrelevant(max: nat, w: World, config: map<Session, string>, k: Client)
    requires WorldInv(max, w) && HolderInv(max, w, k) && k.pc.Awaiting?
    ensures WorldInv(max, w.(config := config)) && HolderInv(max, w.(config := config), k)
  {
    var w2 := w.(config := config);
    assert Registered(w2) == Registered(w) && Pending(w2) == Pending(w);
    SameBudget(w, w2);
  }

  // Lifting the world and the acting client back to the whole state.

  lemma {:induction false} HolderMoves(max: nat, s: State, c: ClientId, w2: World, k2: Client)
    requires Inv(max, s) && c in s.clients && s.w.lock == Some(c)
    requires WorldInv(max, w2) && w2.lock == s.w.lock && HolderInv(max, w2, k2)
    ensures Inv(max, State(w2, s.clients[c := k2]))
  {
  }

  lemma {:induction false} LockIsFree(max: nat, s: State, c: ClientId, w2: World, k2: Client)
    requires Inv(max, s) && c in s.clients && s.w.lock == Some(c)
    requires WorldInv(max, w2) && w2.lock == None && k2.pc.Done?
    ensures Inv(max, State(w2, s.clients[c := k2]))
  {
  }

  lemma {:induction false} HolderReturns(max: nat, s: State, c: ClientId, w: World, o: Outcome)
    requires Inv(max, s) && c in s.clients && s.w.lock == Some(c)
    requires WorldInv(max, w) && HolderInv(max, w, s.clients[c]) && w.lock == s.w.lock
    ensures var (w2, k2) := Finish(w, s.clients[c], o); Inv(max, State(w2, s.clients[c := k2]))
  {
    FinishKeeps(max, w, s.clients[c], o);
    var (w2, k2) := Finish(w, s.clients[c], o);
    LockIsFree(max, s, c, w2, k2);
  }

  lemma {:induction false} OutsiderMoves(max: nat, s: State, c: ClientId, w2: World, k2: Client)
    requires Inv(max, s) && c in s.clients && !Locked(s.clients[c].pc) && Shrinks(s.w, w2)
    requires !Locked(k2.pc) && k2.child == s.clients[c].child && !s.clients[c].pc.Done?
    ensures Inv(max, State(w2, s.clients[c := k2]))
  {
    ShrinkKeeps(s.w, w2);
    EnvironmentKeeps(max, s, w2);
  }

  lemma {:induction false} TakesLock(max: nat, s: State, c: ClientId)
    requires Inv(max, s) && c in s.clients && s.clients[c].pc.AcquireLock? && s.w.lock == None
    ensures Inv(max, State(s.w.(lock := Some(c)), s.clients[c := s.clients[c].(pc := Walking(ListPids))]))
  {
    var w2 := s.w.(lock := Some(c));
    assert Registered(w2) == Registered(s.w) && Pending(w2) == Pending(s.w);
    SameBudget(s.w, w2);
    forall p | p in Pending(s.w) ensures p in s.w.abandoned {
      assert p !in Awaited(s.w);
    }
  }

  lemma {:induction false} UnlockedStepKeeps(max: nat, s: State, c: ClientId, ch: Choice)
    requires Inv(max, s) && Enabled(s, ClientStep(c, ch)) && !Locked(s.clients[c].pc)
    ensures Inv(max, Next(max, s, ClientStep(c, ch)))
  {
    var k := s.clients[c];
    var (w2, k2) := ClientNext(max, s.w, c, k, ch);
    if k.pc.AcquireLock? {
      if ch.flag {
        TakesLock(max, s, c);
      } else {
        OutsiderMoves(max, s, c, w2, k2);
      }
    } else {
      ApproachShrinks(s.w, k, k.pc.approach, ch);
      OutsiderMoves(max, s, c, w2, k2);
    }
  }

  /** A step after the spawn writes the fingerprint and returns, returns, or only waits on. */
  lemma {:induction false} WaitShape(w: World, k: Client, at: Wait, more: bool)
    requires k.pc == Awaiting(at)
    ensures var (w2, k2) := WaitNext(w, k, at, more);
      if at.WriteConfig? then
        (w2, k2) == Finish(w.(config := w.config[k.session := k.fingerprint]), k, Ok(false, k.restarted))
      else if k2.pc.Done? then (w2, k2) == Finish(w, k, k2.pc.outcome)
      else w2 == w && k2 == k.(pc := k2.pc) && k2.pc.Awaiting?
  {
  }

  lemma {:induction false} WriteStepKeeps(max: nat, s: State, c: ClientId, o: Outcome)
    requires Inv(max, s) && c in s.clients && s.clients[c].pc.Awaiting?
    ensures var k := s.clients[c];
      var (w2, k2) := Finish(s.w.(config := s.w.config[k.session := k.fingerprint]), k, o);
      Inv(max, State(w2, s.clients[c := k2]))
  {
    var k := s.clients[c];
    var config := s.w.config[k.session := k.fingerprint];
    ConfigIrrelevant(max, s.w, config, k);
    HolderReturns(max, s, c, s.w.(config := config), o);
  }

  lemma {:induction false} HolderStepKeeps(max: nat, s: State, c: ClientId, ch: Choice)
    requires Inv(max, s) && Enabled(s, ClientStep(c, ch)) && Locked(s.clients[c].pc)
    ensures Inv(max, Next(max, s, ClientStep(c, ch)))
  {
    var k := s.clients[c];
    var (w2, k2) := ClientNext(max, s.w, c, k, ch);
    match k.pc
    case Walking(at) =>
      WalkKeeps(max, s.w, k, ch.name);
      ShrinkKeeps(s.w, w2);
      HolderMoves(max, s, c, w2, k2);
    case Admit(counted) =>
      if k2.pc.Done? {
        HolderReturns(max, s, c, s.w, Failed);
      } else {
        HolderMoves(max, s, c, w2, k2);
      }
    case Spawn(_) =>
      if ch.flag {
        SpawnKeeps(max, s.w, k, ch.pid);
        HolderMoves(max, s, c, w2, k2);
      } else {
        HolderReturns(max, s, c, s.w, Failed);
      }
    case Awaiting(at) =>
      WaitShape(s.w, k, at, ch.flag);
      if at.WriteConfig? {
        WriteStepKeeps(max, s, c, Ok(false, k.restarted));
      } else if k2.pc.Done? {
        HolderReturns(max, s, c, s.w, k2.pc.outcome);
      } else {
        HolderMoves(max, s, c, w2, k2);
      }
  }

  /** A killed client leaves what a failing one leaves. */
  lemma {:induction false} DeathKeeps(max: nat, s: State, c: ClientId)
    requires Inv(max, s) && Enabled(s, ClientDies(c))
    ensures Inv(max, Next(max, s, ClientDies(c)))
  {
    var (w2, k2) := Finish(s.w, s.clients[c], Failed);
    if Locked(s.clients[c].pc) {
      HolderReturns(max, s, c, s.w, Failed);
    } else {
      assert w2.abandoned == s.w.abandoned;
      OutsiderMoves(max, s, c, w2, k2);
    }
  }

  lemma {:induction false} StepKeeps(max: nat, s: State, a: Action)
    requires Inv(max, s) && Enabled(s, a)
    ensures Inv(max, Next(max, s, a))
  {
    match a
    case ClientStep(c, ch) =>
      if Locked(s.clients[c].pc) {
        HolderStepKeeps(max, s, c, ch);
      } else {
        UnlockedStepKeeps(max, s, c, ch);
      }
    case ClientDies(c) => DeathKeeps(max, s, c);
    case DaemonStep(p) =>
      DaemonKeeps(s.w, p);
      EnvironmentKeeps(max, s, DaemonNext(s.w, p));
    case Crash(p) =>
      var w2 := s.w.(live := s.w.live - {p});
      ShrinkKeeps(s.w, w2);
      EnvironmentKeeps(max, s, w2);
    case Remove(n, e) =>
      DeleteShrinks(s.w, n, e);
      ShrinkKeeps(s.w, Delete(s.w, n, e));
      EnvironmentKeeps(max, s, Delete(s.w, n, e));
  }

  lemma {:induction false} InitKeeps(max: nat, s: State)
    requires Init(max, s)
    ensures Inv(max, s)
  {
    Cardinality.Subset(Admitted(s.w), Registered(s.w));
    assert Awaited(s.w) == {};
  }

  lemma {:induction false} RunKeeps(max: nat, ss: seq<State>, acts: seq<Action>, i: nat)
    requires IsRun(max, ss, acts) && i < |ss|
    ensures Inv(max, ss[i])
  {
    if i > 0 {
      RunKeeps(max, ss, acts, i - 1);
      assert IsStep(max, ss[i - 1], acts[i - 1], ss[i - 1 + 1]);
      StepKeeps(max, ss[i - 1], acts[i - 1]);
    } else {
      InitKeeps(max, ss[0]);
    }
  }

  // ---------------------------------------------------------------- main results

  /** In every reachable state the sessions of daemons that nobody abandoned, with the lock
      holder's unregistered child, are within the cap. */
  lemma {:induction false} CapacityBound(max: nat, ss: seq<State>, acts: seq<Action>, i: nat)
    requires IsRun(max, ss, acts) && i < |ss|
    ensures |Admitted(ss[i].w)| + |Awaited(ss[i].w)| <= max
    ensures forall p <- Awaited(ss[i].w) ::
      exists c <- ss[i].clients :: ss[i].w.lock == Some(c) && ss[i].clients[c].child == Some(p)
  {
    RunKeeps(max, ss, acts, i);
  }

  function LiveOrphans(w: World): set<Pid> {
    w.abandoned * w.live
  }

  /** Sessions of orphans have distinct live orphans, which have registered. */
  lemma {:induction false} OrphanSessions(w: World)
    requires PidsKnown(w)
    ensures |Registered(w) - Admitted(w)| <= |LiveOrphans(w) - Pending(w)|
  {
    var extra := Registered(w) - Admitted(w);
    var owner := map n | n in extra :: w.pid[n].pid;
    forall m, n | m in extra && n in extra && owner[m] == owner[n] ensures m == n {
      assert OwnedByOrphan(w, m) && OwnedByOrphan(w, n);
    }
    Cardinality.Injection(extra, owner, LiveOrphans(w) - Pending(w));
  }

  /** Every session and child beyond the budget has a live orphan of its own. */
  lemma {:induction false} OrphansBoundTheRest(w: World)
    requires PidsKnown(w)
    ensures |Registered(w)| + |Pending(w)| <= Budget(w) + |LiveOrphans(w)|
  {
    OrphanSessions(w);
    Cardinality.Parts(Registered(w), Admitted(w));
    Cardinality.Parts(Pending(w), w.abandoned);
    Cardinality.Parts(LiveOrphans(w), Pending(w));
    assert Registered(w) * Admitted(w) == Admitted(w);
    assert LiveOrphans(w) * Pending(w) == Pending(w) * w.abandoned;
  }

  /** All registered sessions and all children that may still register exceed the cap by at most
      the number of live orphans; so without a live orphan the cap holds outright. */
  lemma {:induction false} CapacitySafety(max: nat, ss: seq<State>, acts: seq<Action>, i: nat)
    requires IsRun(max, ss, acts) && i < |ss|
    ensures |Registered(ss[i].w)| + |Pending(ss[i].w)| <= max + |LiveOrphans(ss[i].w)|
  {
    RunKeeps(max, ss, acts, i);
    OrphansBoundTheRest(ss[i].w);
  }

  /** At most one client is between taking the lock and returning. */
  lemma {:induction false} MutualExclusion(
    max: nat, ss: seq<State>, acts: seq<Action>, i: nat, c: ClientId, d: ClientId)
    requires IsRun(max, ss, acts) && i < |ss|
    requires c in ss[i].clients && d in ss[i].clients
    requires Locked(ss[i].clients[c].pc) && Locked(ss[i].clients[d].pc)
    ensures c == d
  {
    RunKeeps(max, ss, acts, i);
  }
}
