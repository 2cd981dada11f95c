/**
 What `restarted` means in every run: which daemon this call met, why it wanted another one,
 and when the daemon that it met is gone at the end of the stop routine. Signals are not
 guaranteed to arrive, and without a `.pid` file nobody is signalled.
*/
module DaemonRestarts {
  import opened Daemon
  import opened DaemonCapacity
  import opened DaemonResults

  // ---------------------------------------------------------------- the steps that matter

  /** Client c finds its session served. */
  predicate FindsReady(s: State, a: Action, c: ClientId) {
    ActsAt(s, a, c, Approaching(Connect)) && Ready(s.w, s.clients[c].session)
  }

  predicate VersionMatches(w: World, k: Client) {
    k.session in w.version && w.version[k.session] == k.version
  }

  /** Client c finds another version or another configuration, or none until its patience ends. */
  predicate FindsMismatch(s: State, a: Action, c: ClientId) {
    || (ActsAt(s, a, c, Approaching(CompareVersion)) && !VersionMatches(s.w, s.clients[c]))
    || (ActsAt(s, a, c, Approaching(CompareConfig))
        && s.clients[c].session in s.w.config && !ConfigMatches(s.w, s.clients[c]))
    || (ActsAt(s, a, c, Approaching(SettleConfig)) && !ConfigMatches(s.w, s.clients[c]) && !a.choice.flag)
  }

  /** The step of client c that ends its stop routine, graceful or forced. */
  predicate EndsStop(s: State, a: Action, c: ClientId) {
    || (ActsAt(s, a, c, Approaching(AwaitExit)) && !Ready(s.w, s.clients[c].session))
    || ActsAt(s, a, c, Approaching(KillCleanup([])))
  }

  /** Client c reads the id of process d in the `.pid` file, to signal it next. */
  predicate ReadsPid(s: State, a: Action, c: ClientId, d: Pid) {
    && ActsAt(s, a, c, Approaching(KillRead))
    && s.clients[c].session in s.w.pid && s.w.pid[s.clients[c].session] == Names(d)
  }

  /** The signal of client c to process d arrives. */
  predicate Signals(s: State, a: Action, c: ClientId, d: Pid) {
    ActsAt(s, a, c, Approaching(KillSignal(d))) && a.choice.flag
  }

  // ---------------------------------------------------------------- how far a client is

  predicate IsStopping(at: Approach) {
    at.AskShutdown? || at.AwaitExit? || at.KillUnlink? || at.KillRead? || at.KillSignal? || at.KillCleanup?
  }

  /** The client has found its session served. */
  predicate HasMet(k: Client) {
    || k.restarted
    || (k.pc.Approaching? && (k.pc.approach.CompareVersion? || k.pc.approach.CompareConfig?
                              || k.pc.approach.SettleConfig? || IsStopping(k.pc.approach)))
  }

  /** It has found a mismatch as well. */
  predicate HasRefused(k: Client) {
    k.restarted || (k.pc.Approaching? && IsStopping(k.pc.approach))
  }

  /** Until a stop has ended `restarted` is not set. */
  predicate BeforeCleanup(pc: PC) {
    pc.Approaching? && !pc.approach.Cleanup?
  }

  lemma {:induction false} ApproachStages(s: State, c: ClientId, at: Approach, ch: Choice)
    requires c in s.clients && s.clients[c].pc == Approaching(at)
    ensures var k, k2, a := s.clients[c], ApproachNext(s.w, s.clients[c], at, ch).1, ClientStep(c, ch);
      && (HasMet(k2) ==> HasMet(k) || FindsReady(s, a, c))
      && (HasRefused(k2) ==> HasRefused(k) || (HasMet(k) && FindsMismatch(s, a, c)))
      && (k2.restarted <==> k.restarted || EndsStop(s, a, c))
      && (EndsStop(s, a, c) ==> HasRefused(k))
      && (BeforeCleanup(k2.pc) ==> BeforeCleanup(k.pc) && !EndsStop(s, a, c))
      && (IsOk(k2) ==> k2.pc.outcome.restarted == false && BeforeCleanup(k.pc) && !EndsStop(s, a, c))
  {
  }

  lemma {:induction false} StageStep(max: nat, s: State, a: Action, c: ClientId)
    requires Enabled(s, a) && c in s.clients
    ensures c in Next(max, s, a).clients
    ensures var k, k2 := s.clients[c], Next(max, s, a).clients[c];
      && (HasMet(k2) ==> HasMet(k) || FindsReady(s, a, c))
      && (HasRefused(k2) ==> HasRefused(k) || (HasMet(k) && FindsMismatch(s, a, c)))
      && (k2.restarted <==> k.restarted || EndsStop(s, a, c))
      && (EndsStop(s, a, c) ==> HasRefused(k))
  {
    if By(a, c) && a.ClientStep? {
      match s.clients[c].pc
      case Approaching(at) => ApproachStages(s, c, at, a.choice);
      case Awaiting(at) => WaitShape(s.w, s.clients[c], at, a.choice.flag);
      case _ =>
    }
  }

  // ---------------------------------------------------------------- what happened before

  ghost predicate Met(ss: seq<State>, acts: seq<Action>, c: ClientId, k: nat) {
    exists i: nat :: i < k && k <= |acts| < |ss| && FindsReady(ss[i], acts[i], c)
  }

  ghost predicate Refused(ss: seq<State>, acts: seq<Action>, c: ClientId, k: nat) {
    exists j: nat :: j < k && k <= |acts| < |ss| && FindsMismatch(ss[j], acts[j], c) && Met(ss, acts, c, j)
  }

  ghost predicate Stopped(ss: seq<State>, acts: seq<Action>, c: ClientId, k: nat) {
    exists l: nat :: l < k && k <= |acts| < |ss| && EndsStop(ss[l], acts[l], c) && Refused(ss, acts, c, l)
  }

  lemma {:induction false} MetBefore(max: nat, ss: seq<State>, acts: seq<Action>, k: nat, c: ClientId)
    requires IsRun(max, ss, acts) && k < |ss| && c in ss[k].clients && HasMet(ss[k].clients[c])
    ensures Met(ss, acts, c, k)
  {
    if k > 0 {
      ClientsStay(max, ss, acts, k - 1);
      ClientsStay(max, ss, acts, k);
      StageStep(max, ss[k - 1], acts[k - 1], c);
      if HasMet(ss[k - 1].clients[c]) {
        MetBefore(max, ss, acts, k - 1, c);
        var i: nat :| i < k - 1 && FindsReady(ss[i], acts[i], c);
        assert FindsReady(ss[i], acts[i], c);
      } else {
        assert FindsReady(ss[k - 1], acts[k - 1], c);
      }
    }
  }

  lemma {:induction false} RefusedBefore(max: nat, ss: seq<State>, acts: seq<Action>, k: nat, c: ClientId)
    requires IsRun(max, ss, acts) && k < |ss| && c in ss[k].clients && HasRefused(ss[k].clients[c])
    ensures Refused(ss, acts, c, k)
  {
    if k > 0 {
      ClientsStay(max, ss, acts, k - 1);
      ClientsStay(max, ss, acts, k);
      StageStep(max, ss[k - 1], acts[k - 1], c);
      if HasRefused(ss[k - 1].clients[c]) {
        RefusedBefore(max, ss, acts, k - 1, c);
        var j: nat :| j < k - 1 && FindsMismatch(ss[j], acts[j], c) && Met(ss, acts, c, j);
        assert FindsMismatch(ss[j], acts[j], c);
      } else {
        MetBefore(max, ss, acts, k - 1, c);
        assert FindsMismatch(ss[k - 1], acts[k - 1], c);
      }
    }
  }

  /** `restarted` is true exactly when this call found its session served, then another version
      or configuration than its own, and then came to the end of stopping the daemon. */
  lemma {:induction false} RestartedMeansStopped(max: nat, ss: seq<State>, acts: seq<Action>, k: nat, c: ClientId)
    requires IsRun(max, ss, acts) && k < |ss| && c in ss[k].clients
    ensures ss[k].clients[c].restarted <==> Stopped(ss, acts, c, k)
  {
    if k > 0 {
      ClientsStay(max, ss, acts, k - 1);
      ClientsStay(max, ss, acts, k);
      StageStep(max, ss[k - 1], acts[k - 1], c);
      RestartedMeansStopped(max, ss, acts, k - 1, c);
      if EndsStop(ss[k - 1], acts[k - 1], c) {
        RefusedBefore(max, ss, acts, k - 1, c);
      }
      StoppedNext(ss, acts, c, k - 1);
    }
  }

  lemma {:induction false} StoppedNext(ss: seq<State>, acts: seq<Action>, c: ClientId, k: nat)
    requires k < |acts| < |ss|
    ensures Stopped(ss, acts, c, k + 1)
      <==> Stopped(ss, acts, c, k) || (EndsStop(ss[k], acts[k], c) && Refused(ss, acts, c, k))
  {
    if Stopped(ss, acts, c, k + 1) {
      var l: nat :| l < k + 1 && EndsStop(ss[l], acts[l], c) && Refused(ss, acts, c, l);
      assert l < k ==> Stopped(ss, acts, c, k);
    }
  }

  lemma {:induction false} ReportsFlag(max: nat, s: State, a: Action, c: ClientId)
    requires Enabled(s, a) && c in s.clients
    requires BeforeCleanup(s.clients[c].pc) ==> !s.clients[c].restarted
    requires IsOk(s.clients[c]) ==> s.clients[c].pc.outcome.restarted == s.clients[c].restarted
    ensures var k2 := Next(max, s, a).clients[c];
      && (BeforeCleanup(k2.pc) ==> !k2.restarted)
      && (IsOk(k2) ==> k2.pc.outcome.restarted == k2.restarted)
  {
    StageStep(max, s, a, c);
    if By(a, c) && a.ClientStep? {
      match s.clients[c].pc
      case Approaching(at) => ApproachStages(s, c, at, a.choice);
      case Awaiting(at) => DecidesInWait(s.w, s.clients[c], at, a.choice.flag);
                           WaitShape(s.w, s.clients[c], at, a.choice.flag);
      case _ =>
    }
  }

  /** And every Ok reports it. */
  lemma {:induction false} OkReportsRestart(max: nat, ss: seq<State>, acts: seq<Action>, k: nat, c: ClientId)
    requires IsRun(max, ss, acts) && k < |ss| && c in ss[k].clients
    ensures BeforeCleanup(ss[k].clients[c].pc) ==> !ss[k].clients[c].restarted
    ensures IsOk(ss[k].clients[c]) ==>
      (ss[k].clients[c].pc.outcome.restarted <==> Stopped(ss, acts, c, k))
  {
    FlagIsReported(max, ss, acts, k, c);
    RestartedMeansStopped(max, ss, acts, k, c);
  }

  lemma {:induction false} FlagIsReported(max: nat, ss: seq<State>, acts: seq<Action>, k: nat, c: ClientId)
    requires IsRun(max, ss, acts) && k < |ss| && c in ss[k].clients
    ensures BeforeCleanup(ss[k].clients[c].pc) ==> !ss[k].clients[c].restarted
    ensures IsOk(ss[k].clients[c]) ==> ss[k].clients[c].pc.outcome.restarted == ss[k].clients[c].restarted
  {
    if k > 0 {
      ClientsStay(max, ss, acts, k - 1);
      ClientsStay(max, ss, acts, k);
      FlagIsReported(max, ss, acts, k - 1, c);
      ReportsFlag(max, ss[k - 1], acts[k - 1], c);
    }
  }

  // ---------------------------------------------------------------- when the daemon is gone

  /** The step ends process d: it crashes, has exited, or gets a signal that some client sends it. */
  predicate Ends(s: State, a: Action, d: Pid) {
    match a
    case ClientStep(c, _) => Signals(s, a, c, d)
    case ClientDies(_) => false
    case DaemonStep(p) => p == d && d in s.w.daemons && s.w.daemons[d].phase == DropVersion
    case Crash(p) => p == d
    case Remove(_, _) => false
  }

  lemma {:induction false} DeletionsKill(w: World, n: Session, e: Ext)
    ensures Delete(w, n, e).live == w.live && Delete(w, n, e).used == w.used
  {
  }

  lemma {:induction false} ApproachKills(w: World, k: Client, at: Approach, ch: Choice)
    requires k.pc == Approaching(at)
    ensures var w2 := ApproachNext(w, k, at, ch).0;
      w2.used == w.used && w2.live == if at.KillSignal? && ch.flag then w.live - {at.victim} else w.live
  {
    match at
    case KillUnlink => DeletionsKill(w, k.session, SockExt);
    case KillCleanup(left) => if left != [] { DeletionsKill(w, k.session, left[0]); }
    case Cleanup(left) => if left != [] { DeletionsKill(w, k.session, left[0]); }
    case _ =>
  }

  lemma {:induction false} WalkKillsNobody(w: World, at: Walk, name: Session)
    ensures WalkNext(w, at, name).0.live == w.live && WalkNext(w, at, name).0.used == w.used
  {
    if at.WalkClean? && at.left != [] {
      DeletionsKill(w, at.entry, at.left[0]);
    }
  }

  lemma {:induction false} ClientsKill(max: nat, s: State, c: ClientId, ch: Choice, d: Pid)
    requires Enabled(s, ClientStep(c, ch)) && d in s.w.used
    ensures var w2 := Next(max, s, ClientStep(c, ch)).w;
      && d in w2.used
      && (d in w2.live <==> d in s.w.live && !Signals(s, ClientStep(c, ch), c, d))
  {
    match s.clients[c].pc
    case Approaching(at) => ApproachKills(s.w, s.clients[c], at, ch);
    case Walking(at) => WalkKillsNobody(s.w, at, ch.name);
    case Awaiting(at) => WaitShape(s.w, s.clients[c], at, ch.flag);
    case _ =>
  }

  lemma {:induction false} DaemonsKill(w: World, p: Pid)
    requires p in w.daemons
    ensures DaemonNext(w, p).used == w.used
    ensures DaemonNext(w, p).live == if w.daemons[p].phase == DropVersion then w.live - {p} else w.live
  {
  }

  /** A process in sight stays or goes by these steps alone. */
  lemma {:induction false} OnlyEndsKill(max: nat, s: State, a: Action, d: Pid)
    requires Enabled(s, a) && d in s.w.used
    ensures d in Next(max, s, a).w.used
    ensures d in Next(max, s, a).w.live <==> d in s.w.live && !Ends(s, a, d)
  {
    match a
    case ClientStep(c, ch) => ClientsKill(max, s, c, ch, d);
    case ClientDies(c) =>
    case DaemonStep(p) => DaemonsKill(s.w, p);
    case Crash(p) =>
    case Remove(n, e) => DeletionsKill(s.w, n, e);
  }

  ghost predicate EndedBetween(ss: seq<State>, acts: seq<Action>, i: nat, l: nat, d: Pid) {
    exists j: nat :: i <= j < l && l <= |acts| < |ss| && Ends(ss[j], acts[j], d)
  }

  lemma {:induction false} GoneIff(max: nat, ss: seq<State>, acts: seq<Action>, i: nat, l: nat, d: Pid)
    requires IsRun(max, ss, acts) && i <= l < |ss| && d in ss[i].w.live
    ensures d in ss[l].w.used
    ensures d !in ss[l].w.live <==> EndedBetween(ss, acts, i, l, d)
  {
    if i < l {
      GoneIff(max, ss, acts, i, l - 1, d);
      assert IsStep(max, ss[l - 1], acts[l - 1], ss[l - 1 + 1]);
      OnlyEndsKill(max, ss[l - 1], acts[l - 1], d);
      EndedNext(ss, acts, i, l - 1, d);
    } else {
      LiveIsUsed(max, ss, acts, i, d);
    }
  }

  lemma {:induction false} LiveIsUsed(max: nat, ss: seq<State>, acts: seq<Action>, i: nat, d: Pid)
    requires IsRun(max, ss, acts) && i < |ss| && d in ss[i].w.live
    ensures d in ss[i].w.used
  {
    RunKeeps(max, ss, acts, i);
  }

  lemma {:induction false} EndedNext(ss: seq<State>, acts: seq<Action>, i: nat, l: nat, d: Pid)
    requires i <= l < |acts| < |ss|
    ensures EndedBetween(ss, acts, i, l + 1, d) <==> EndedBetween(ss, acts, i, l, d) || Ends(ss[l], acts[l], d)
  {
    if EndedBetween(ss, acts, i, l + 1, d) {
      var j: nat :| i <= j < l + 1 && Ends(ss[j], acts[j], d);
      assert j < l ==> EndedBetween(ss, acts, i, l, d);
    }
  }

  /** Whom a client is about to signal it has read from the `.pid` file. */
  lemma {:induction false} ReadBefore(
    max: nat, ss: seq<State>, acts: seq<Action>, i: nat, k: nat, c: ClientId, d: Pid) returns (r: nat)
    requires IsRun(max, ss, acts) && i <= k < |ss| && c in ss[i].clients && c in ss[k].clients
    requires !(ss[i].clients[c].pc.Approaching? && ss[i].clients[c].pc.approach.KillSignal?)
    requires ss[k].clients[c].pc == Approaching(KillSignal(d))
    ensures i <= r < k && ReadsPid(ss[r], acts[r], c, d)
  {
    ClientsStay(max, ss, acts, k - 1);
    ClientsStay(max, ss, acts, k);
    assert IsStep(max, ss[k - 1], acts[k - 1], ss[k - 1 + 1]);
    if ss[k - 1].clients[c].pc == Approaching(KillSignal(d)) {
      r := ReadBefore(max, ss, acts, i, k - 1, c, d);
    } else {
      r := k - 1;
      SignalFollowsRead(max, ss[k - 1], acts[k - 1], c, d);
    }
  }

  lemma {:induction false} SignalFollowsRead(max: nat, s: State, a: Action, c: ClientId, d: Pid)
    requires Enabled(s, a) && c in s.clients && s.clients[c].pc != Approaching(KillSignal(d))
    requires Next(max, s, a).clients[c].pc == Approaching(KillSignal(d))
    ensures ReadsPid(s, a, c, d)
  {
    if By(a, c) && a.ClientStep? {
      match s.clients[c].pc
      case Awaiting(at) => WaitShape(s.w, s.clients[c], at, a.choice.flag);
      case _ =>
    }
  }

  /** This call has read the id of d and its signal to d has arrived. */
  ghost predicate KilledBy(ss: seq<State>, acts: seq<Action>, i: nat, l: nat, c: ClientId, d: Pid) {
    exists r: nat, j: nat :: i <= r < j < l && l <= |acts| < |ss|
      && ReadsPid(ss[r], acts[r], c, d) && Signals(ss[j], acts[j], c, d)
  }

  /** Somebody else has ended d: itself, a crash, or another client. */
  ghost predicate EndedByOthers(ss: seq<State>, acts: seq<Action>, i: nat, l: nat, c: ClientId, d: Pid) {
    exists j: nat :: i <= j < l && l <= |acts| < |ss| && Ends(ss[j], acts[j], d) && !By(acts[j], c)
  }

  /** The daemon that this call met is gone at the end of the stop if and only if the call read its
      id in `.pid` and then signalled it with success, or somebody else ended it meanwhile. */
  lemma {:induction false} StopEndsDaemon(
    max: nat, ss: seq<State>, acts: seq<Action>, i: nat, l: nat, c: ClientId)
    requires IsRun(max, ss, acts) && i < l < |acts|
    requires FindsReady(ss[i], acts[i], c) && EndsStop(ss[l], acts[l], c)
    ensures var d := ss[i].w.sock[ss[i].clients[c].session];
      d !in ss[l].w.live <==> KilledBy(ss, acts, i, l, c, d) || EndedByOthers(ss, acts, i, l, c, d)
  {
    var d := ss[i].w.sock[ss[i].clients[c].session];
    GoneIff(max, ss, acts, i, l, d);
    if EndedBetween(ss, acts, i, l, d) && !EndedByOthers(ss, acts, i, l, c, d) {
      var j: nat :| i <= j < l && Ends(ss[j], acts[j], d);
      assert By(acts[j], c) && Signals(ss[j], acts[j], c, d);
      var r := ReadBefore(max, ss, acts, i, j, c, d);
    }
    if KilledBy(ss, acts, i, l, c, d) {
      var r: nat, j: nat :| i <= r < j < l && ReadsPid(ss[r], acts[r], c, d) && Signals(ss[j], acts[j], c, d);
      assert Ends(ss[j], acts[j], d);
    }
  }

  // ---------------------------------------------------------------- nobody else acts

  /** From i to l only client c acts, and its signal arrives. */
  ghost predicate Alone(ss: seq<State>, acts: seq<Action>, i: nat, l: nat, c: ClientId) {
    l <= |acts| < |ss| && forall j | i <= j < l :: OwnStep(ss[j], acts[j], c)
  }

  predicate OwnStep(s: State, a: Action, c: ClientId) {
    && a.ClientStep? && a.c == c && c in s.clients
    && (s.clients[c].pc.Approaching? && s.clients[c].pc.approach.KillSignal? ==> a.choice.flag)
  }

  /** Who is left of w when the process named in the `.pid` file of n is gone. */
  function WithoutNamed(w: World, n: Session): set<Pid> {
    if n in w.pid && w.pid[n].Names? then w.live - {w.pid[n].pid} else w.live
  }

  /** What the client, alone, has made of the world w0 in which it found its session served. */
  ghost predicate SoFar(w0: World, w: World, k: Client) {
    && k.pc != Approaching(Connect)
    && (BeforeCleanup(k.pc) ==>
          match k.pc.approach
          case KillRead => w.live == w0.live && w.pid == w0.pid
          case KillSignal(p) => w.live == w0.live && k.session in w0.pid && w0.pid[k.session] == Names(p)
          case KillCleanup(_) => w.live == WithoutNamed(w0, k.session)
          case _ => w == w0)
  }

  lemma {:induction false} SoFarApproach(w0: World, w: World, k: Client, at: Approach, ch: Choice)
    requires k.pc == Approaching(at) && (at.KillSignal? ==> ch.flag)
    requires SoFar(w0, w, k) || (at.Connect? && Ready(w, k.session) && w == w0)
    ensures var (w2, k2) := ApproachNext(w, k, at, ch); SoFar(w0, w2, k2)
  {
    if at.KillCleanup? && at.left != [] {
      DeletionsKill(w, k.session, at.left[0]);
    }
  }

  lemma {:induction false} NeverBack(max: nat, s: State, c: ClientId, ch: Choice)
    requires Enabled(s, ClientStep(c, ch)) && !s.clients[c].pc.Approaching?
    ensures !Next(max, s, ClientStep(c, ch)).clients[c].pc.Approaching?
  {
    match s.clients[c].pc
    case Awaiting(at) => WaitShape(s.w, s.clients[c], at, ch.flag);
    case _ =>
  }

  lemma {:induction false} SoFarStep(max: nat, w0: World, s: State, a: Action, c: ClientId)
    requires Enabled(s, a) && OwnStep(s, a, c)
    requires SoFar(w0, s.w, s.clients[c]) || (FindsReady(s, a, c) && s.w == w0)
    ensures SoFar(w0, Next(max, s, a).w, Next(max, s, a).clients[c])
  {
    if s.clients[c].pc.Approaching? {
      SoFarApproach(w0, s.w, s.clients[c], s.clients[c].pc.approach, a.choice);
    } else {
      NeverBack(max, s, c, a.choice);
    }
  }

  lemma {:induction false} SessionStays(max: nat, s: State, a: Action, c: ClientId)
    requires Enabled(s, a) && c in s.clients
    ensures Next(max, s, a).clients[c].session == s.clients[c].session
  {
    if By(a, c) && a.ClientStep? {
      match s.clients[c].pc
      case Awaiting(at) => WaitShape(s.w, s.clients[c], at, a.choice.flag);
      case _ =>
    }
  }

  lemma {:induction false} SoFarNext(max: nat, w0: World, s: State, a: Action, s2: State, c: ClientId, n: Session)
    requires IsStep(max, s, a, s2) && OwnStep(s, a, c) && s.clients[c].session == n
    requires SoFar(w0, s.w, s.clients[c]) || (FindsReady(s, a, c) && s.w == w0)
    ensures c in s2.clients && SoFar(w0, s2.w, s2.clients[c]) && s2.clients[c].session == n
  {
    SoFarStep(max, w0, s, a, c);
    SessionStays(max, s, a, c);
  }

  lemma {:induction false} SoFarHolds(
    max: nat, ss: seq<State>, acts: seq<Action>, i: nat, k: nat, l: nat, c: ClientId)
    requires IsRun(max, ss, acts) && i < k <= l && Alone(ss, acts, i, l, c) && FindsReady(ss[i], acts[i], c)
    ensures c in ss[k].clients && SoFar(ss[i].w, ss[k].w, ss[k].clients[c])
    ensures ss[k].clients[c].session == ss[i].clients[c].session
  {
    assert OwnStep(ss[k - 1], acts[k - 1], c);
    assert IsStep(max, ss[k - 1], acts[k - 1], ss[k - 1 + 1]);
    if k > i + 1 {
      SoFarHolds(max, ss, acts, i, k - 1, l, c);
    }
    SoFarNext(max, ss[i].w, ss[k - 1], acts[k - 1], ss[k], c, ss[i].clients[c].session);
  }

  /** When nobody else acts and the signal arrives, the daemon that this call met is gone at the end
      of the stop if and only if `.pid` named it when the call began. */
  lemma {:induction false} PidFileDecides(
    max: nat, ss: seq<State>, acts: seq<Action>, i: nat, l: nat, c: ClientId)
    requires IsRun(max, ss, acts) && i < l < |acts| && Alone(ss, acts, i, l, c)
    requires FindsReady(ss[i], acts[i], c) && EndsStop(ss[l], acts[l], c)
    ensures var w0, n := ss[i].w, ss[i].clients[c].session;
      w0.sock[n] !in ss[l].w.live <==> n in w0.pid && w0.pid[n] == Names(w0.sock[n])
  {
    SoFarHolds(max, ss, acts, i, l, l, c);
  }
}
