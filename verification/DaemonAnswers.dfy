/**
 Why `ensure_daemon` answers as it does, in every run: which comparisons stand behind the reuse of
 a daemon, what a mismatch leads to, what was cleaned up before the lock, and why a call fails.
*/
module DaemonAnswers {
  import opened Option
  import opened Daemon
  import opened DaemonCapacity
  import opened DaemonResults
  import opened DaemonRestarts

  // ---------------------------------------------------------------- reuse

  /** Client c reads the version of its session, and it is its own. */
  predicate SeesVersion(s: State, a: Action, c: ClientId) {
    && ActsAt(s, a, c, Approaching(CompareVersion))
    && s.clients[c].session in s.w.version && s.w.version[s.clients[c].session] == s.clients[c].version
  }

  /** Client c reads the fingerprint of its session before the lock, and it is its own. */
  predicate SeesConfig(s: State, a: Action, c: ClientId) {
    && (ActsAt(s, a, c, Approaching(CompareConfig)) || ActsAt(s, a, c, Approaching(SettleConfig)))
    && s.clients[c].session in s.w.config && s.w.config[s.clients[c].session] == s.clients[c].fingerprint
  }

  predicate IsComparing(pc: PC) {
    pc == Approaching(CompareConfig) || pc == Approaching(SettleConfig)
  }

  /** An Ok that was decided before the lock: no child was ever spawned. */
  predicate IsReuse(k: Client) {
    IsOk(k) && k.child == None
  }

  lemma {:induction false} ReuseStep(s: State, c: ClientId, at: Approach, ch: Choice)
    requires c in s.clients && s.clients[c].pc == Approaching(at)
    ensures var k2, a := ApproachNext(s.w, s.clients[c], at, ch).1, ClientStep(c, ch);
      && (IsComparing(k2.pc) ==> IsComparing(Approaching(at)) || SeesVersion(s, a, c))
      && (IsOk(k2) ==> IsComparing(Approaching(at)) && SeesConfig(s, a, c) && k2.pc.outcome == Ok(true, false))
      && (k2.pc == Approaching(CompareVersion) ==> FindsReady(s, a, c))
  {
  }

  /** The holder of the lock has a child as soon as it waits. */
  lemma {:induction false} WaitersHaveChildren(max: nat, s: State, c: ClientId)
    requires Inv(max, s) && c in s.clients && s.clients[c].pc.Awaiting?
    ensures s.clients[c].child.Some?
  {
    assert Locked(s.clients[c].pc);
  }

  /** Past the decision whether the daemon may stay. */
  predicate IsPast(k: Client) {
    Locked(k.pc) || k.pc.AcquireLock? || (k.pc.Approaching? && k.pc.approach.Cleanup?) || (IsOk(k) && k.child.Some?)
  }

  lemma {:induction false} WaitingGoesOn(w: World, k: Client, at: Wait, more: bool)
    requires k.pc == Awaiting(at)
    ensures var k2 := WaitNext(w, k, at, more).1;
      !k2.pc.Approaching? && k2.restarted == k.restarted && k2.child == k.child && (k2.pc.Done? || k2.pc.Awaiting?)
  {
    WaitShape(w, k, at, more);
  }

  lemma {:induction false} BeyondApproach(max: nat, s: State, c: ClientId, ch: Choice)
    requires Inv(max, s) && Enabled(s, ClientStep(c, ch)) && !s.clients[c].pc.Approaching?
    ensures var k, k2 := s.clients[c], Next(max, s, ClientStep(c, ch)).clients[c];
      && !k2.pc.Approaching? && k2.restarted == k.restarted
      && (IsOk(k2) ==> k2.child.Some?)
      && (IsPast(k2) ==> IsPast(k))
  {
    if s.clients[c].pc.Awaiting? {
      WaitersHaveChildren(max, s, c);
      WaitingGoesOn(s.w, s.clients[c], s.clients[c].pc.wait, ch.flag);
    }
  }

  /** How the reuse of a daemon comes about. */
  lemma {:induction false} TowardsReuse(max: nat, s: State, a: Action, c: ClientId)
    requires Inv(max, s) && Enabled(s, a) && c in s.clients
    ensures var k, k2 := s.clients[c], Next(max, s, a).clients[c];
      && (IsComparing(k2.pc) ==> IsComparing(k.pc) || SeesVersion(s, a, c))
      && (IsReuse(k2) ==> IsReuse(k) || (IsComparing(k.pc) && SeesConfig(s, a, c)))
      && (k2.pc == Approaching(CompareVersion) ==> k.pc == k2.pc || FindsReady(s, a, c))
  {
    if By(a, c) && a.ClientStep? {
      if s.clients[c].pc.Approaching? {
        ReuseStep(s, c, s.clients[c].pc.approach, a.choice);
      } else {
        BeyondApproach(max, s, c, a.choice);
      }
    }
  }

  lemma {:induction false} RunStep(max: nat, ss: seq<State>, acts: seq<Action>, k: nat, c: ClientId)
    requires IsRun(max, ss, acts) && k < |acts| && c in ss[k + 1].clients
    ensures c in ss[k].clients && IsStep(max, ss[k], acts[k], ss[k + 1]) && Inv(max, ss[k])
  {
    ClientsStay(max, ss, acts, k);
    ClientsStay(max, ss, acts, k + 1);
    RunKeeps(max, ss, acts, k);
  }

  lemma {:induction false} ReuseGoesOn(max: nat, ss: seq<State>, acts: seq<Action>, k: nat, c: ClientId)
    requires IsRun(max, ss, acts) && k < |acts| && c in ss[k + 1].clients
    ensures c in ss[k].clients
    ensures var k1, k2 := ss[k].clients[c], ss[k + 1].clients[c];
      && (IsComparing(k2.pc) ==> IsComparing(k1.pc) || SeesVersion(ss[k], acts[k], c))
      && (IsReuse(k2) ==> IsReuse(k1) || (IsComparing(k1.pc) && SeesConfig(ss[k], acts[k], c)))
      && (k2.pc == Approaching(CompareVersion) ==> k1.pc == k2.pc || FindsReady(ss[k], acts[k], c))
  {
    RunStep(max, ss, acts, k, c);
    TowardsReuse(max, ss[k], acts[k], c);
  }

  lemma {:induction false} ReadyBefore(max: nat, ss: seq<State>, acts: seq<Action>, k: nat, c: ClientId)
    returns (i: nat)
    requires IsRun(max, ss, acts) && k < |ss| && c in ss[k].clients
    requires ss[k].clients[c].pc == Approaching(CompareVersion)
    ensures i < k && FindsReady(ss[i], acts[i], c)
  {
    ReuseGoesOn(max, ss, acts, k - 1, c);
    if FindsReady(ss[k - 1], acts[k - 1], c) {
      i := k - 1;
    } else {
      i := ReadyBefore(max, ss, acts, k - 1, c);
    }
  }

  lemma {:induction false} VersionBefore(max: nat, ss: seq<State>, acts: seq<Action>, k: nat, c: ClientId)
    returns (j: nat)
    requires IsRun(max, ss, acts) && k < |ss| && c in ss[k].clients && IsComparing(ss[k].clients[c].pc)
    ensures j < k && SeesVersion(ss[j], acts[j], c)
  {
    ReuseGoesOn(max, ss, acts, k - 1, c);
    if SeesVersion(ss[k - 1], acts[k - 1], c) {
      j := k - 1;
    } else {
      j := VersionBefore(max, ss, acts, k - 1, c);
    }
  }

  /** An Ok without a child: the call found its session served, then `.version` held exactly its own
      version, and then `.config` its own fingerprint. */
  lemma {:induction false} ReuseMeansMatches(max: nat, ss: seq<State>, acts: seq<Action>, k: nat, c: ClientId)
    returns (i: nat, j: nat, l: nat)
    requires IsRun(max, ss, acts) && k < |ss| && c in ss[k].clients && IsReuse(ss[k].clients[c])
    ensures i < j < l < k
    ensures FindsReady(ss[i], acts[i], c) && SeesVersion(ss[j], acts[j], c) && SeesConfig(ss[l], acts[l], c)
  {
    ReuseGoesOn(max, ss, acts, k - 1, c);
    if SeesConfig(ss[k - 1], acts[k - 1], c) {
      l := k - 1;
      j := VersionBefore(max, ss, acts, l, c);
      i := ReadyBefore(max, ss, acts, j, c);
    } else {
      i, j, l := ReuseMeansMatches(max, ss, acts, k - 1, c);
    }
  }

  // ---------------------------------------------------------------- a mismatch

  predicate IsHalted(k: Client) {
    k.pc == Done(Failed)
  }

  /** The client stops the daemon, or has died. */
  predicate StopsOrDied(k: Client) {
    IsHalted(k) || (k.pc.Approaching? && IsStopping(k.pc.approach))
  }

  lemma {:induction false} StoppingStep(s: State, c: ClientId, at: Approach, ch: Choice)
    requires c in s.clients && s.clients[c].pc == Approaching(at)
    ensures var k2, a := ApproachNext(s.w, s.clients[c], at, ch).1, ClientStep(c, ch);
      && (IsStopping(at) ==> StopsOrDied(k2) || EndsStop(s, a, c))
      && (FindsMismatch(s, a, c) ==> StopsOrDied(k2))
  {
  }

  lemma {:induction false} TowardsStop(max: nat, s: State, a: Action, c: ClientId)
    requires Enabled(s, a) && c in s.clients
    ensures var k, k2 := s.clients[c], Next(max, s, a).clients[c];
      && (StopsOrDied(k) ==> StopsOrDied(k2) || EndsStop(s, a, c))
      && (FindsMismatch(s, a, c) ==> StopsOrDied(k2))
  {
    if By(a, c) && a.ClientStep? && s.clients[c].pc.Approaching? {
      StoppingStep(s, c, s.clients[c].pc.approach, a.choice);
    }
  }

  ghost predicate StopEnded(ss: seq<State>, acts: seq<Action>, i: nat, k: nat, c: ClientId) {
    exists l: nat :: i < l < k && k <= |acts| < |ss| && EndsStop(ss[l], acts[l], c)
  }

  lemma {:induction false} StopEndedLater(ss: seq<State>, acts: seq<Action>, i: nat, k: nat, c: ClientId)
    requires i < k < |acts| < |ss|
    requires StopEnded(ss, acts, i, k, c) || EndsStop(ss[k], acts[k], c)
    ensures StopEnded(ss, acts, i, k + 1, c)
  {
    if StopEnded(ss, acts, i, k, c) {
      var l: nat :| i < l < k && EndsStop(ss[l], acts[l], c);
      assert EndsStop(ss[l], acts[l], c);
    }
  }

  lemma {:induction false} StopGoesOn(max: nat, ss: seq<State>, acts: seq<Action>, k: nat, c: ClientId)
    requires IsRun(max, ss, acts) && k < |acts| && c in ss[k].clients
    ensures c in ss[k + 1].clients
    ensures StopsOrDied(ss[k].clients[c]) ==> StopsOrDied(ss[k + 1].clients[c]) || EndsStop(ss[k], acts[k], c)
    ensures FindsMismatch(ss[k], acts[k], c) ==> StopsOrDied(ss[k + 1].clients[c])
  {
    ClientsStay(max, ss, acts, k);
    ClientsStay(max, ss, acts, k + 1);
    RunStep(max, ss, acts, k, c);
    TowardsStop(max, ss[k], acts[k], c);
  }

  /** After a mismatch the call answers nothing but a failure until it has come to the end of
      stopping the daemon. */
  lemma {:induction false} MismatchLeadsToStop(
    max: nat, ss: seq<State>, acts: seq<Action>, i: nat, k: nat, c: ClientId)
    requires IsRun(max, ss, acts) && i < k < |ss| && FindsMismatch(ss[i], acts[i], c)
    ensures c in ss[k].clients && (StopsOrDied(ss[k].clients[c]) || StopEnded(ss, acts, i, k, c))
    ensures IsOk(ss[k].clients[c]) ==> StopEnded(ss, acts, i, k, c)
  {
    if i < k - 1 {
      MismatchLeadsToStop(max, ss, acts, i, k - 1, c);
      StopGoesOn(max, ss, acts, k - 1, c);
      if StopEnded(ss, acts, i, k - 1, c) || EndsStop(ss[k - 1], acts[k - 1], c) {
        StopEndedLater(ss, acts, i, k - 1, c);
      }
    } else {
      StopGoesOn(max, ss, acts, i, c);
    }
  }

  // ---------------------------------------------------------------- force

  /** The daemon has not taken the request to exit, or serves on when the patience for it ends. */
  predicate FindsUnwilling(s: State, a: Action, c: ClientId) {
    || (ActsAt(s, a, c, Approaching(AskShutdown)) && !(a.choice.flag && Ready(s.w, s.clients[c].session)))
    || (ActsAt(s, a, c, Approaching(AwaitExit)) && !a.choice.flag && Ready(s.w, s.clients[c].session))
  }

  /** The client is stopping its daemon by force. */
  predicate UsesForce(pc: PC) {
    && pc.Approaching?
    && (pc.approach.KillUnlink? || pc.approach.KillRead? || pc.approach.KillSignal? || pc.approach.KillCleanup?)
  }

  /** Force begins exactly at such a step. */
  lemma {:induction false} TowardsForce(max: nat, s: State, a: Action, c: ClientId)
    requires Enabled(s, a) && c in s.clients
    ensures UsesForce(Next(max, s, a).clients[c].pc) ==> UsesForce(s.clients[c].pc) || FindsUnwilling(s, a, c)
    ensures FindsUnwilling(s, a, c) ==> UsesForce(Next(max, s, a).clients[c].pc)
  {
    if By(a, c) && a.ClientStep? {
      match s.clients[c].pc
      case Awaiting(at) => WaitShape(s.w, s.clients[c], at, a.choice.flag);
      case _ =>
    }
  }

  lemma {:induction false} ForceGoesOn(max: nat, ss: seq<State>, acts: seq<Action>, k: nat, c: ClientId)
    requires IsRun(max, ss, acts) && k < |acts| && c in ss[k + 1].clients && UsesForce(ss[k + 1].clients[c].pc)
    ensures c in ss[k].clients && (UsesForce(ss[k].clients[c].pc) || FindsUnwilling(ss[k], acts[k], c))
  {
    RunStep(max, ss, acts, k, c);
    TowardsForce(max, ss[k], acts[k], c);
  }

  /** Force is used only against a daemon that was asked to exit and did not. */
  lemma {:induction false} ForceMeansUnwilling(max: nat, ss: seq<State>, acts: seq<Action>, k: nat, c: ClientId)
    returns (j: nat)
    requires IsRun(max, ss, acts) && k < |ss| && c in ss[k].clients && UsesForce(ss[k].clients[c].pc)
    ensures j < k && FindsUnwilling(ss[j], acts[j], c)
  {
    ForceGoesOn(max, ss, acts, k - 1, c);
    if FindsUnwilling(ss[k - 1], acts[k - 1], c) {
      j := k - 1;
    } else {
      j := ForceMeansUnwilling(max, ss, acts, k - 1, c);
    }
  }

  // ---------------------------------------------------------------- a served session

  lemma {:induction false} PastStep(s: State, c: ClientId, at: Approach, ch: Choice)
    requires c in s.clients && s.clients[c].pc == Approaching(at) && s.clients[c].child == None
    requires IsPast(s.clients[c]) ==> s.clients[c].restarted
    ensures var k2 := ApproachNext(s.w, s.clients[c], at, ch).1;
      && (IsPast(k2) ==> k2.restarted || (at.Connect? && !Ready(s.w, s.clients[c].session)))
      && (k2.pc == Approaching(Connect) ==> at.Connect?)
  {
  }

  lemma {:induction false} NoChildYet(max: nat, s: State, c: ClientId)
    requires Inv(max, s) && c in s.clients && s.clients[c].pc.Approaching?
    ensures s.clients[c].child == None
  {
  }

  lemma {:induction false} ApproachStaysRestarted(max: nat, s: State, c: ClientId, ch: Choice)
    requires Inv(max, s) && Enabled(s, ClientStep(c, ch)) && s.clients[c].pc.Approaching?
    requires s.clients[c].pc != Approaching(Connect) && (IsPast(s.clients[c]) ==> s.clients[c].restarted)
    ensures var k2 := Next(max, s, ClientStep(c, ch)).clients[c];
      k2.pc != Approaching(Connect) && (IsPast(k2) ==> k2.restarted)
  {
    NoChildYet(max, s, c);
    PastStep(s, c, s.clients[c].pc.approach, ch);
  }

  lemma {:induction false} StaysRestarted(max: nat, s: State, a: Action, c: ClientId)
    requires Inv(max, s) && Enabled(s, a) && c in s.clients && s.clients[c].pc != Approaching(Connect)
    requires IsPast(s.clients[c]) ==> s.clients[c].restarted
    ensures var k2 := Next(max, s, a).clients[c];
      k2.pc != Approaching(Connect) && (IsPast(k2) ==> k2.restarted)
  {
    if By(a, c) && a.ClientStep? {
      if s.clients[c].pc.Approaching? {
        ApproachStaysRestarted(max, s, c, a.choice);
      } else {
        BeyondApproach(max, s, c, a.choice);
      }
    }
  }

  /** A session that was found served is cleaned up and started anew only by a call that has stopped
      its daemon, so never by one that met its own version and configuration. */
  lemma {:induction false} ServedIsKept(
    max: nat, ss: seq<State>, acts: seq<Action>, i: nat, k: nat, c: ClientId)
    requires IsRun(max, ss, acts) && i < k < |ss| && FindsReady(ss[i], acts[i], c)
    ensures c in ss[k].clients && ss[k].clients[c].pc != Approaching(Connect)
    ensures IsPast(ss[k].clients[c]) ==> ss[k].clients[c].restarted && Refused(ss, acts, c, k)
  {
    ClientsStay(max, ss, acts, i);
    ClientsStay(max, ss, acts, k);
    RunStep(max, ss, acts, k - 1, c);
    if i < k - 1 {
      ServedIsKept(max, ss, acts, i, k - 1, c);
      StaysRestarted(max, ss[k - 1], acts[k - 1], c);
    }
    if ss[k].clients[c].restarted {
      RefusedBefore(max, ss, acts, k, c);
    }
  }
}
