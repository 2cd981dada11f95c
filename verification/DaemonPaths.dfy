/**
 Runs of the daemon state machine, put together from the steps of one client and one daemon
 in an orderly directory: what the examples of DaemonWitness are made of.
*/
module DaemonPaths {
  import opened Option
  import opened Daemon

  ghost predicate Path(max: nat, s: State, acts: seq<Action>, t: State)
    decreases |acts|
  {
    if acts == [] then s == t
    else Enabled(s, acts[0]) && Path(max, Next(max, s, acts[0]), acts[1..], t)
  }

  ghost predicate Reaches(max: nat, s: State, t: State) {
    exists acts :: Path(max, s, acts, t)
  }

  lemma {:induction false} ReachesNext(max: nat, s: State, a: Action)
    requires Enabled(s, a)
    ensures Reaches(max, s, Next(max, s, a))
  {
    assert [a][1..] == [];
    assert Path(max, s, [a], Next(max, s, a));
  }

  lemma {:induction false} PathConcat(max: nat, s: State, x: seq<Action>, t: State, y: seq<Action>, u: State)
    requires Path(max, s, x, t) && Path(max, t, y, u)
    ensures Path(max, s, x + y, u)
    decreases |x|
  {
    if x == [] {
      assert x + y == y;
    } else {
      PathConcat(max, Next(max, s, x[0]), x[1..], t, y, u);
      assert (x + y)[1..] == x[1..] + y;
    }
  }

  lemma {:induction false} ReachesTrans(max: nat, s: State, t: State, u: State)
    requires Reaches(max, s, t) && Reaches(max, t, u)
    ensures Reaches(max, s, u)
  {
    var x :| Path(max, s, x, t);
    var y :| Path(max, t, y, u);
    PathConcat(max, s, x, t, y, u);
  }

  /** Every state reached from a start state ends a run. */
  lemma {:induction false} PathIsRun(max: nat, s: State, acts: seq<Action>, t: State) returns (ss: seq<State>)
    requires Path(max, s, acts, t)
    ensures |ss| == |acts| + 1 && ss[0] == s && ss[|acts|] == t
    ensures forall i | 0 <= i < |acts| :: IsStep(max, ss[i], acts[i], ss[i + 1])
    decreases |acts|
  {
    if acts == [] {
      ss := [s];
    } else {
      var rest := PathIsRun(max, Next(max, s, acts[0]), acts[1..], t);
      ss := [s] + rest;
      forall i | 0 <= i < |acts| ensures IsStep(max, ss[i], acts[i], ss[i + 1]) {
        if i > 0 {
          assert IsStep(max, rest[i - 1], acts[1..][i - 1], rest[i]);
        }
      }
    }
  }

  lemma {:induction false} ReachesIsRun(max: nat, s: State, t: State)
    requires Init(max, s) && Reaches(max, s, t)
    ensures Reachable(max, t)
  {
    var acts :| Path(max, s, acts, t);
    var ss := PathIsRun(max, s, acts, t);
    assert IsRun(max, ss, acts) && ss[|acts|] == t;
  }

  function With(s: State, w: World, c: ClientId, k: Client): State {
    State(w, s.clients[c := k])
  }

  lemma {:induction false} ClientMoves(max: nat, s: State, s0: State, w: World, c: ClientId, k: Client, ch: Choice)
    requires c in s.clients && Reaches(max, s0, With(s, w, c, k)) && ClientEnabled(w, k, ch)
    ensures var (w2, k2) := ClientNext(max, w, c, k, ch); Reaches(max, s0, With(s, w2, c, k2))
  {
    var (w2, k2) := ClientNext(max, w, c, k, ch);
    var t := With(s, w, c, k);
    assert t.clients[c] == k && t.clients[c := k2] == s.clients[c := k2];
    ReachesNext(max, t, ClientStep(c, ch));
    ReachesTrans(max, s0, t, With(s, w2, c, k2));
  }

  lemma {:induction false} Moves(max: nat, s0: State, t: State, a: Action)
    requires Reaches(max, s0, t) && Enabled(t, a)
    ensures Reaches(max, s0, Next(max, t, a))
  {
    ReachesNext(max, t, a);
    ReachesTrans(max, s0, t, Next(max, t, a));
  }

  /** Nothing in the directory belongs to session n. */
  predicate Absent(w: World, n: Session) {
    n !in w.pid && n !in w.version && n !in w.config && n !in w.sock
  }

  /** Every session in the directory is named, has a live process and is in order. */
  predicate AllServed(w: World) {
    && (forall m <- w.pid :: m != "" && w.pid[m].Names? && w.pid[m].pid in w.live)
    && (forall m <- w.sock :: m != "" && m in w.pid)
  }

  /** Session n is new, the lock is free, and fewer than `max` sessions are served. */
  predicate HasRoom(max: nat, w: World, n: Session) {
    Absent(w, n) && AllServed(w) && |w.pid.Keys| < max && w.lock == None
  }

  lemma {:induction false} DeletesNothing(w: World, n: Session, e: Ext)
    requires Absent(w, n)
    ensures Delete(w, n, e) == w
  {
    assert w.pid - {n} == w.pid && w.version - {n} == w.version;
    assert w.config - {n} == w.config && w.sock - {n} == w.sock;
  }

  lemma {:induction false} CleansNothing(
    max: nat, s: State, s0: State, w: World, c: ClientId, k: Client, left: seq<Ext>)
    requires c in s.clients && Absent(w, k.session) && k.pc == Approaching(Cleanup(left))
    requires Reaches(max, s0, With(s, w, c, k))
    ensures Reaches(max, s0, With(s, w, c, k.(pc := AcquireLock)))
    decreases |left|
  {
    ClientMoves(max, s, s0, w, c, k, Choice("", 0, true));
    if left != [] {
      DeletesNothing(w, k.session, left[0]);
      CleansNothing(max, s, s0, w, c, k.(pc := Approaching(Cleanup(left[1..]))), left[1..]);
    }
  }

  /** The first loop of the walk counts every entry. */
  lemma {:induction false} WalksPids(
    max: nat, s: State, s0: State, w: World, c: ClientId, k: Client, todo: set<Session>, counted: set<Session>)
    requires c in s.clients && AllServed(w) && todo <= w.pid.Keys
    requires Reaches(max, s0, With(s, w, c, k.(pc := Walking(WalkPids(todo, counted)))))
    ensures Reaches(max, s0, With(s, w, c, k.(pc := Walking(WalkSocks(w.sock.Keys, counted + todo)))))
    decreases |todo|
  {
    var here := k.(pc := Walking(WalkPids(todo, counted)));
    if todo == {} {
      ClientMoves(max, s, s0, w, c, here, Choice("", 0, true));
      assert w.sock.Keys - {""} == w.sock.Keys && counted + todo == counted;
    } else {
      var name :| name in todo;
      ClientMoves(max, s, s0, w, c, here, Choice(name, 0, true));
      var looking := k.(pc := Walking(WalkAlive(name, w.pid[name].pid, todo - {name}, counted)));
      ClientMoves(max, s, s0, w, c, looking, Choice(name, 0, true));
      WalksPids(max, s, s0, w, c, k, todo - {name}, counted + {name});
      assert counted + {name} + (todo - {name}) == counted + todo;
    }
  }

  /** The second loop finds no socket without its `.pid` file. */
  lemma {:induction false} WalksSocks(
    max: nat, s: State, s0: State, w: World, c: ClientId, k: Client, todo: set<Session>, counted: set<Session>)
    requires c in s.clients && AllServed(w) && todo <= w.sock.Keys
    requires Reaches(max, s0, With(s, w, c, k.(pc := Walking(WalkSocks(todo, counted)))))
    ensures Reaches(max, s0, With(s, w, c, k.(pc := Admit(counted))))
    decreases |todo|
  {
    var here := k.(pc := Walking(WalkSocks(todo, counted)));
    if todo == {} {
      ClientMoves(max, s, s0, w, c, here, Choice("", 0, true));
    } else {
      var name :| name in todo;
      ClientMoves(max, s, s0, w, c, here, Choice(name, 0, true));
      WalksSocks(max, s, s0, w, c, k, todo - {name}, counted);
    }
  }

  lemma {:induction false} WalksThrough(max: nat, s: State, s0: State, w: World, c: ClientId, k: Client)
    requires c in s.clients && AllServed(w) && Reaches(max, s0, With(s, w, c, k.(pc := Walking(ListPids))))
    ensures Reaches(max, s0, With(s, w, c, k.(pc := Admit(w.pid.Keys))))
  {
    ClientMoves(max, s, s0, w, c, k.(pc := Walking(ListPids)), Choice("", 0, true));
    assert w.pid.Keys - {""} == w.pid.Keys;
    WalksPids(max, s, s0, w, c, k, w.pid.Keys, {});
    assert {} + w.pid.Keys == w.pid.Keys;
    WalksSocks(max, s, s0, w, c, k, w.sock.Keys, w.pid.Keys);
  }

  function Fresh(n: Session): Client {
    Client(n, "f", "v", Approaching(Connect), None, false)
  }

  /** Beside fewer than `max` live sessions and with the lock free, a client for a new session
      gets from the lock as far as its spawn. */
  lemma {:induction false} SpawnsFromLock(max: nat, s: State, s0: State, w: World, c: ClientId, k: Client, p: Pid)
    requires c in s.clients && k.pc == AcquireLock && Reaches(max, s0, With(s, w, c, k))
    requires HasRoom(max, w, k.session) && p !in w.used
    ensures Reaches(max, s0, With(s, SpawnChild(w.(lock := Some(c)), k, p), c,
                                  k.(pc := Awaiting(Poll(POLL_ATTEMPTS)), child := Some(p))))
  {
    var w2, ch := w.(lock := Some(c)), Choice("", p, true);
    ClientMoves(max, s, s0, w, c, k, ch);
    WalksThrough(max, s, s0, w2, c, k);
    ClientMoves(max, s, s0, w2, c, k.(pc := Admit(w.pid.Keys)), ch);
    ClientMoves(max, s, s0, w2, c, k.(pc := Spawn(w.pid.Keys)), ch);
  }

  lemma {:induction false} SpawnsBeside(max: nat, s: State, s0: State, c: ClientId, p: Pid)
    requires Reaches(max, s0, s) && c in s.clients && s.clients[c].pc == Approaching(Connect)
    requires HasRoom(max, s.w, s.clients[c].session) && p !in s.w.used
    ensures var k := s.clients[c];
      Reaches(max, s0, With(s, SpawnChild(s.w.(lock := Some(c)), k, p), c,
                            k.(pc := Awaiting(Poll(POLL_ATTEMPTS)), child := Some(p))))
  {
    var k := s.clients[c];
    assert With(s, s.w, c, k) == s;
    ClientMoves(max, s, s0, s.w, c, k, Choice("", 0, true));
    CleansNothing(max, s, s0, s.w, c, k.(pc := Approaching(Cleanup(REMOVAL_ORDER))), REMOVAL_ORDER);
    SpawnsFromLock(max, s, s0, s.w, c, k.(pc := AcquireLock), p);
  }

  /** While the child stays alive and nothing listens, all attempts are used up. */
  lemma {:induction false} PollsInVain(max: nat, s: State, s0: State, w: World, c: ClientId, k: Client, attempts: nat)
    requires c in s.clients && !Ready(w, k.session) && k.child.Some? && k.child.value in w.live
    requires Reaches(max, s0, With(s, w, c, k.(pc := Awaiting(Poll(attempts)))))
    ensures Reaches(max, s0, With(s, w, c, k.(pc := Awaiting(Poll(0)))))
  {
    if attempts > 0 {
      ClientMoves(max, s, s0, w, c, k.(pc := Awaiting(Poll(attempts))), Choice("", 0, true));
      ClientMoves(max, s, s0, w, c, k.(pc := Awaiting(PollChild(attempts - 1))), Choice("", 0, true));
      PollsInVain(max, s, s0, w, c, k, attempts - 1);
    }
  }

  /** And then the client gives up on it. */
  lemma {:induction false} GivesUp(max: nat, s: State, s0: State, w: World, c: ClientId, k: Client, attempts: nat)
    requires c in s.clients && !Ready(w, k.session) && k.child.Some? && IsPending(w, k.child.value)
    requires k.pc == Awaiting(Poll(attempts)) && Reaches(max, s0, With(s, w, c, k))
    ensures var w2 := w.(lock := None, abandoned := w.abandoned + {k.child.value});
      Reaches(max, s0, With(s, w2, c, k.(pc := Done(Failed))))
  {
    assert k.(pc := Awaiting(Poll(attempts))) == k;
    PollsInVain(max, s, s0, w, c, k, attempts);
    ClientMoves(max, s, s0, w, c, k.(pc := Awaiting(Poll(0))), Choice("", 0, true));
  }

  /** The world in which client k has started a child p and given up on it. */
  function Orphan(w: World, k: Client, p: Pid): World {
    SpawnChild(w, k, p).(abandoned := w.abandoned + {p})
  }

  /** Beside fewer than `max` live sessions a client for a session of its own can leave an orphan. */
  lemma {:induction false} LeavesOrphan(max: nat, s: State, s0: State, c: ClientId, p: Pid)
    requires Reaches(max, s0, s) && c in s.clients && s.clients[c].pc == Approaching(Connect)
    requires HasRoom(max, s.w, s.clients[c].session) && p !in s.w.used
    ensures var k := s.clients[c];
      Reaches(max, s0, With(s, Orphan(s.w, k, p), c, k.(pc := Done(Failed), child := Some(p))))
  {
    var k, w := s.clients[c], SpawnChild(s.w.(lock := Some(c)), s.clients[c], p);
    var waiter := k.(pc := Awaiting(Poll(POLL_ATTEMPTS)), child := Some(p));
    SpawnsBeside(max, s, s0, c, p);
    assert IsPending(w, p) && !Ready(w, k.session);
    GivesUp(max, s, s0, w, c, waiter, POLL_ATTEMPTS);
    assert w.(lock := None, abandoned := w.abandoned + {p}) == Orphan(s.w, k, p);
    assert waiter.(pc := Done(Failed)) == k.(pc := Done(Failed), child := Some(p));
  }

  // ---------------------------------------------------------------- the child comes up

  /** The world in which p has written its files and listens. */
  function Up(w: World, p: Pid, n: Session, v: string): World {
    w.(pid := w.pid[n := Names(p)], version := w.version[n := v], sock := w.sock[n := p],
       daemons := w.daemons[p := Process(n, v, Serving)])
  }

  lemma {:induction false} DaemonMoves(max: nat, s0: State, w: World, clients: map<ClientId, Client>, p: Pid)
    requires Reaches(max, s0, State(w, clients)) && p in w.daemons && p in w.live
    ensures Reaches(max, s0, State(DaemonNext(w, p), clients))
  {
    Moves(max, s0, State(w, clients), DaemonStep(p));
  }

  lemma {:induction false} BindsLast(w: World, p: Pid, n: Session, v: string, w2: World)
    requires p in w.daemons && w.daemons[p] == Process(n, v, UnlinkSock) && p in DaemonNext(w, p).daemons
    requires w2 == DaemonNext(DaemonNext(w, p), p)
    ensures w2 == w.(sock := w.sock[n := p], daemons := w.daemons[p := Process(n, v, Serving)])
  {
    assert (w.sock - {n})[n := p] == w.sock[n := p];
    assert w2.daemons == w.daemons[p := Process(n, v, Serving)];
  }

  /** The child writes its files and binds the socket. */
  lemma {:induction false} ComesUp(
    max: nat, s0: State, w: World, clients: map<ClientId, Client>, p: Pid, n: Session, v: string)
    requires Reaches(max, s0, State(w, clients)) && p in w.live
    requires p in w.daemons && w.daemons[p] == Process(n, v, WritePid)
    ensures Reaches(max, s0, State(Up(w, p, n, v), clients))
  {
    DaemonMoves(max, s0, w, clients, p);
    var w1 := DaemonNext(w, p);
    DaemonMoves(max, s0, w1, clients, p);
    var w2 := DaemonNext(w1, p);
    DaemonMoves(max, s0, w2, clients, p);
    DaemonMoves(max, s0, DaemonNext(w2, p), clients, p);
    BindsLast(w2, p, n, v, DaemonNext(DaemonNext(w2, p), p));
    assert w2.daemons[p := Process(n, v, Serving)] == w.daemons[p := Process(n, v, Serving)];
  }

  /** Then its client gets as far as writing `.config`. */
  lemma {:induction false} GetsToWrite(
    max: nat, s: State, s0: State, w: World, c: ClientId, k: Client, attempts: nat)
    requires c in s.clients && k.pc == Awaiting(Poll(attempts)) && attempts > 0
    requires Ready(w, k.session) && PidMatches(w, k) && Reaches(max, s0, With(s, w, c, k))
    ensures Reaches(max, s0, With(s, w, c, k.(pc := Awaiting(WriteConfig))))
  {
    ClientMoves(max, s, s0, w, c, k, Choice("", 0, true));
    ClientMoves(max, s, s0, w, c, k.(pc := Awaiting(CheckPid)), Choice("", 0, true));
  }

  /** And reports a fresh daemon. */
  lemma {:induction false} Reports(max: nat, s: State, s0: State, w: World, c: ClientId, k: Client) returns (t: State)
    requires c in s.clients && k.pc == Awaiting(WriteConfig) && Reaches(max, s0, With(s, w, c, k))
    ensures Reaches(max, s0, t) && t.w.live == w.live && t.w.daemons == w.daemons
    ensures k.child.Some? && !IsPending(w, k.child.value) ==> t.w.abandoned == w.abandoned
    ensures c in t.clients && t.clients[c] == k.(pc := Done(Ok(false, k.restarted)))
  {
    ClientMoves(max, s, s0, w, c, k, Choice("", 0, true));
    var (w2, k2) := ClientNext(max, w, c, k, Choice("", 0, true));
    t := With(s, w2, c, k2);
  }
}
