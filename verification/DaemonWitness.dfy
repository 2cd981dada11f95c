/**
 Example runs, for every positive cap and every session: the bound of DaemonCapacity is attained with
 any number of orphans, both halves of the condition in DaemonResults.SpawnRace can fail, and a restart
 may stop nobody.
*/
module DaemonWitness {
  import opened Option
  import opened Daemon
  import opened DaemonCapacity
  import opened DaemonPaths
  import Cardinality

  // ---------------------------------------------------------------- any number of orphans

  function Name(i: nat): (n: Session)
    ensures |n| == i + 1
  {
    seq(i + 1, j requires 0 <= j < i + 1 => 'a')
  }

  /** The `.pid` and socket files of the first n sessions. */
  function PidFiles(n: nat): (files: map<Session, PidFile>)
    ensures forall x <- files :: 0 < |x| <= n && x == Name(|x| - 1) && files[x] == Names(|x| - 1)
    ensures |files.Keys| == n
  {
    if n == 0 then map[]
    else
      assert PidFiles(n - 1)[Name(n - 1) := Names(n - 1)].Keys == PidFiles(n - 1).Keys + {Name(n - 1)};
      PidFiles(n - 1)[Name(n - 1) := Names(n - 1)]
  }

  function SockFiles(n: nat): (files: map<Session, Pid>)
    ensures files.Keys == PidFiles(n).Keys
  {
    if n == 0 then map[] else SockFiles(n - 1)[Name(n - 1) := n - 1]
  }

  function Range(a: nat, n: nat): (r: set<nat>)
    ensures forall i: nat :: i in r <==> a <= i < a + n
  {
    if n == 0 then {} else Range(a, n - 1) + {a + n - 1}
  }

  function Server(i: Pid): Process {
    Process(Name(i), "v", Serving)
  }

  /** Processes 0 to b serve their sessions. */
  function Served(b: nat): World {
    World(PidFiles(b), map[], map[], SockFiles(b), Range(0, b), Range(0, b),
          map i | i in Range(0, b) :: Server(i), None, {})
  }

  function Newcomer(b: nat, c: ClientId): Client {
    Fresh(Name(b + c))
  }

  /** Clients 0 to m come, each for a session of its own. */
  function Newcomers(b: nat, m: nat): State {
    State(Served(b), map c | c in Range(0, m + 1) :: Newcomer(b, c))
  }

  /** The first b sessions are served, and the children from b to `last`, whose clients have given
      up, are still starting. */
  ghost predicate Crowded(w: World, b: nat, last: nat) {
    && w.lock == None && AllServed(w) && ShortNames(w, b)
    && UsedBelow(w, last) && Starting(w, b, last) && w.abandoned <= w.live
  }

  ghost predicate Sizes(w: World, sessions: nat, orphans: nat) {
    |w.pid.Keys| == sessions && |w.abandoned| == orphans
  }

  ghost predicate ShortNames(w: World, b: nat) {
    forall n: Session :: Absent(w, n) || |n| <= b
  }

  ghost predicate UsedBelow(w: World, last: nat) {
    forall p <- w.used :: p < last
  }

  /** The processes from `first` to `last` have not written anything yet. */
  ghost predicate Starting(w: World, first: nat, last: nat) {
    forall p | first <= p < last :: p in w.live && p in w.daemons && w.daemons[p] == Process(Name(p), "v", WritePid)
  }

  ghost predicate StillFresh(clients: map<ClientId, Client>, b: nat, m: nat, k: nat) {
    forall c: nat | k <= c <= m :: c in clients && clients[c] == Newcomer(b, c)
  }

  lemma {:induction false} ServedIsKnown(b: nat)
    ensures PidsKnown(Served(b)) && Pending(Served(b)) == {} && |Registered(Served(b))| <= b + 1
  {
    var w := Served(b);
    Cardinality.Subset(Registered(w), PidFiles(b).Keys);
  }

  lemma {:induction false} ServedIsCrowded(b: nat)
    ensures Crowded(Served(b), b, b) && Sizes(Served(b), b, 0)
  {
  }

  lemma {:induction false} NewcomersAreFresh(b: nat, m: nat)
    ensures var clients := Newcomers(b, m).clients;
      StillFresh(clients, b, m, 0) && forall c <- clients :: clients[c] == Newcomer(b, c)
  {
    var clients := Newcomers(b, m).clients;
    forall c: nat | 0 <= c <= m ensures c in clients && clients[c] == Newcomer(b, c) {
      assert c in Range(0, m + 1);
    }
  }

  lemma {:induction false} NewcomersAreInit(b: nat, m: nat)
    ensures Init(b + 1, Newcomers(b, m))
  {
    ServedIsKnown(b);
    NewcomersAreFresh(b, m);
  }

  lemma {:induction false} CrowdHasRoom(max: nat, w: World, b: nat, last: nat)
    requires Crowded(w, b, last) && |w.pid.Keys| < max && b <= last
    ensures HasRoom(max, w, Name(last)) && last !in w.used
  {
  }

  /** Process p has started, and every file is as it was. */
  ghost predicate StartsOne(w: World, w2: World, p: Pid) {
    && w2.pid == w.pid && w2.version == w.version && w2.config == w.config && w2.sock == w.sock
    && w2.live == w.live + {p} && w2.used == w.used + {p}
    && w2.daemons == w.daemons[p := Process(Name(p), "v", WritePid)]
  }

  lemma {:induction false} OneMoreStarts(w: World, w2: World, b: nat, last: nat)
    requires Starting(w, b, last) && UsedBelow(w, last) && StartsOne(w, w2, last)
    ensures Starting(w2, b, last + 1) && UsedBelow(w2, last + 1)
  {
  }

  lemma {:induction false} AddsOne<T>(s: set<T>, x: T)
    requires x !in s
    ensures |s + {x}| == |s| + 1
  {
  }

  lemma {:induction false} StillServed(w: World, w2: World, p: Pid, b: nat)
    requires AllServed(w) && ShortNames(w, b) && StartsOne(w, w2, p)
    ensures AllServed(w2) && ShortNames(w2, b)
  {
    assert forall n :: Absent(w2, n) == Absent(w, n);
  }

  lemma {:induction false} CrowdGrows(w: World, w2: World, b: nat, last: nat)
    requires Crowded(w, b, last)
    requires StartsOne(w, w2, last) && w2.lock == None && w2.abandoned == w.abandoned + {last}
    ensures Crowded(w2, b, last + 1)
  {
    OneMoreStarts(w, w2, b, last);
    StillServed(w, w2, last, b);
  }

  lemma {:induction false} OrphansGrow(w: World, w2: World, b: nat, k: nat, p: Pid)
    requires Sizes(w, b, k) && w.abandoned <= w.used && p !in w.used
    requires w2.pid == w.pid && w2.abandoned == w.abandoned + {p}
    ensures Sizes(w2, b, k + 1)
  {
    AddsOne(w.abandoned, p);
  }

  /** One more client gives up on its child. */
  lemma {:induction false} NextGivesUp(max: nat, s0: State, s: State, b: nat, c: ClientId, last: nat) returns (t: State)
    requires Init(max, s0) && Reaches(max, s0, s) && Crowded(s.w, b, last) && b <= last
    requires |s.w.pid.Keys| < max && c in s.clients && s.clients[c] == Fresh(Name(last))
    ensures Reaches(max, s0, t) && Crowded(t.w, b, last + 1) && t.w.pid == s.w.pid
    ensures s.w.abandoned <= s.w.used && last !in s.w.used && t.w.abandoned == s.w.abandoned + {last}
    ensures t.clients.Keys == s.clients.Keys && forall d <- s.clients :: d != c ==> t.clients[d] == s.clients[d]
  {
    CrowdHasRoom(max, s.w, b, last);
    LeavesOrphan(max, s, s0, c, last);
    ReachedIsKnown(max, s0, s);
    t := With(s, Orphan(s.w, Fresh(Name(last)), last), c, Fresh(Name(last)).(pc := Done(Failed), child := Some(last)));
    CrowdGrows(s.w, t.w, b, last);
  }

  lemma {:induction false} StayFresh(
    clients: map<ClientId, Client>, clients2: map<ClientId, Client>, b: nat, m: nat, k: nat)
    requires StillFresh(clients, b, m, k) && clients2.Keys == clients.Keys
    requires forall d <- clients :: d != k ==> clients2[d] == clients[d]
    ensures StillFresh(clients2, b, m, k + 1)
  {
  }

  lemma {:induction false} OneMoreGivesUp(
    s0: State, s: State, b: nat, m: nat, k: nat, last: nat, k2: nat, last2: nat) returns (t: State)
    requires k2 == k + 1 <= m && last2 == last + 1 && last == b + k && Init(b + 1, s0) && Reaches(b + 1, s0, s)
    requires Crowded(s.w, b, last) && Sizes(s.w, b, k) && StillFresh(s.clients, b, m, k)
    ensures Reaches(b + 1, s0, t) && Crowded(t.w, b, last2) && Sizes(t.w, b, k2) && StillFresh(t.clients, b, m, k2)
  {
    assert s.clients[k] == Newcomer(b, k);
    t := NextGivesUp(b + 1, s0, s, b, k, last);
    OrphansGrow(s.w, t.w, b, k, last);
    StayFresh(s.clients, t.clients, b, m, k);
  }

  /** One client after the other gives up. */
  lemma {:induction false} ManyGiveUp(s0: State, b: nat, m: nat, k: nat) returns (t: State)
    requires k <= m && Init(b + 1, s0)
    requires Crowded(s0.w, b, b) && Sizes(s0.w, b, 0) && StillFresh(s0.clients, b, m, 0)
    ensures Reaches(b + 1, s0, t) && Crowded(t.w, b, b + k) && Sizes(t.w, b, k) && StillFresh(t.clients, b, m, k)
  {
    if k == 0 {
      t := s0;
      assert Path(b + 1, s0, [], s0);
    } else {
      var s := ManyGiveUp(s0, b, m, k - 1);
      t := OneMoreGivesUp(s0, s, b, m, k - 1, b + (k - 1), k, b + k);
    }
  }

  lemma {:induction false} ReachedIsKnown(max: nat, s0: State, s: State)
    requires Init(max, s0) && Reaches(max, s0, s)
    ensures s.w.abandoned <= s.w.used
  {
    ReachesIsRun(max, s0, s);
    var ss: seq<State>, acts: seq<Action> :| IsRun(max, ss, acts) && ss[|acts|] == s;
    RunKeeps(max, ss, acts, |acts|);
  }

  /** m orphans; of them and the last child, those before b + up have registered. */
  ghost predicate Overfull(w: World, b: nat, m: nat, up: nat) {
    && (forall n <- w.pid :: IsRegistered(w, n) && |n| <= b + up)
    && Starting(w, b + up, b + m + 1) && w.abandoned <= w.live
  }

  /** The last client spawns its child beside the orphans. */
  lemma {:induction false} LastSpawns(s0: State, s: State, b: nat, m: nat) returns (t: State)
    requires Reaches(b + 1, s0, s) && Crowded(s.w, b, b + m) && Sizes(s.w, b, m) && StillFresh(s.clients, b, m, m)
    ensures Reaches(b + 1, s0, t) && Overfull(t.w, b, m, 0) && Sizes(t.w, b, m)
  {
    CrowdHasRoom(b + 1, s.w, b, b + m);
    assert s.clients[m] == Newcomer(b, m);
    SpawnsBeside(b + 1, s, s0, m, b + m);
    CrowdOverflows(s.w, SpawnChild(s.w.(lock := Some(m)), Newcomer(b, m), b + m), b, m);
    t := With(s, SpawnChild(s.w.(lock := Some(m)), Newcomer(b, m), b + m), m,
              Newcomer(b, m).(pc := Awaiting(Poll(POLL_ATTEMPTS)), child := Some(b + m)));
  }

  lemma {:induction false} NamesAreRegistered(w: World, w2: World, b: nat)
    requires AllServed(w) && ShortNames(w, b) && w2.pid == w.pid && w.live <= w2.live
    ensures forall n <- w2.pid :: IsRegistered(w2, n) && |n| <= b
  {
    forall n | n in w2.pid ensures |n| <= b {
      assert !Absent(w, n);
    }
  }

  lemma {:induction false} CrowdOverflows(w: World, w2: World, b: nat, m: nat)
    requires Crowded(w, b, b + m) && StartsOne(w, w2, b + m) && w2.abandoned == w.abandoned
    ensures Overfull(w2, b, m, 0)
  {
    OneMoreStarts(w, w2, b, b + m);
    NamesAreRegistered(w, w2, b);
  }

  lemma {:induction false} FirstStarts(w: World, first: nat, last: nat)
    requires Starting(w, first, last) && first < last
    ensures first in w.daemons && first in w.live && w.daemons[first] == Process(Name(first), "v", WritePid)
    ensures Starting(DaemonNext(w, first), first + 1, last)
  {
  }

  lemma {:induction false} OneMoreName(w: World, p: Pid)
    requires p in w.live && p in w.daemons && w.daemons[p] == Process(Name(p), "v", WritePid)
    requires forall n <- w.pid :: IsRegistered(w, n) && |n| <= p
    ensures var w2 := DaemonNext(w, p);
      && (forall n <- w2.pid :: IsRegistered(w2, n) && |n| <= p + 1)
      && w2.pid.Keys == w.pid.Keys + {Name(p)} && Name(p) !in w.pid
      && w2.abandoned == w.abandoned && w2.live == w.live
  {
  }

  lemma {:induction false} OneRegisters(w: World, b: nat, m: nat, up: nat)
    requires up <= m && Overfull(w, b, m, up)
    ensures b + up in w.daemons && b + up in w.live
    ensures var w2 := DaemonNext(w, b + up);
      && Overfull(w2, b, m, up + 1) && w2.abandoned == w.abandoned
      && w2.pid.Keys == w.pid.Keys + {Name(b + up)} && Name(b + up) !in w.pid.Keys
  {
    FirstStarts(w, b + up, b + m + 1);
    OneMoreName(w, b + up);
  }

  lemma {:induction false} SessionsGrow(w: World, w2: World, sessions: nat, orphans: nat, n: Session)
    requires Sizes(w, sessions, orphans) && w2.abandoned == w.abandoned
    requires w2.pid.Keys == w.pid.Keys + {n} && n !in w.pid.Keys
    ensures Sizes(w2, sessions + 1, orphans)
  {
    AddsOne(w.pid.Keys, n);
  }

  /** The children register one after the other. */
  lemma {:induction false} AllRegister(s0: State, s: State, b: nat, m: nat, up: nat) returns (t: State)
    requires up <= m + 1 && Reaches(b + 1, s0, s) && Overfull(s.w, b, m, 0) && Sizes(s.w, b, m)
    ensures Reaches(b + 1, s0, t) && Overfull(t.w, b, m, up) && Sizes(t.w, b + up, m)
  {
    if up == 0 {
      t := s;
    } else {
      var u := AllRegister(s0, s, b, m, up - 1);
      var p := b + (up - 1);
      OneRegisters(u.w, b, m, up - 1);
      Moves(b + 1, s0, u, DaemonStep(p));
      t := Next(b + 1, u, DaemonStep(p));
      SessionsGrow(u.w, t.w, p, m, Name(p));
    }
  }

  lemma {:induction false} OverfullCounts(w: World, b: nat, m: nat, up: nat)
    requires Overfull(w, b, m, up) && Sizes(w, b + up, m)
    ensures |LiveOrphans(w)| == m && |Registered(w)| == b + up
  {
    assert LiveOrphans(w) == w.abandoned;
    assert Registered(w) == w.pid.Keys;
  }

  /** The bound is attained for every cap and every number of orphans: m abandoned children
      bring the registered sessions to the cap plus m. */
  lemma {:induction false} AbandonedChildBreaksCap(max: nat, m: nat)
    requires max > 0
    ensures exists t: State :: Reachable(max, t) && |LiveOrphans(t.w)| == m && |Registered(t.w)| == max + m
  {
    var b, s0 := max - 1, Newcomers(max - 1, m);
    NewcomersAreInit(b, m);
    NewcomersAreFresh(b, m);
    ServedIsCrowded(b);
    var s := ManyGiveUp(s0, b, m, m);
    var u := LastSpawns(s0, s, b, m);
    var t := AllRegister(s0, u, b, m, m + 1);
    OverfullCounts(t.w, b, m, m + 1);
    ReachesIsRun(max, s0, t);
  }

  // ---------------------------------------------------------------- the two ways to spoil the race

  /** An empty directory. */
  const NOBODY: World := World(map[], map[], map[], map[], {}, {}, map[], None, {})

  /** Two clients for the same session. */
  function Rivals(n: Session): State {
    State(NOBODY, map[0 := Fresh(n), 1 := Fresh(n)])
  }

  lemma {:induction false} RivalsAreInit(max: nat, n: Session)
    ensures Init(max, Rivals(n))
  {
    assert Pending(NOBODY) == {} && Registered(NOBODY) == {};
  }

  /** The client with a new session gets as far as writing `.config` for its child p. */
  lemma {:induction false} WritesForItsOwn(max: nat, s: State, s0: State, c: ClientId, p: Pid) returns (t: State)
    requires Reaches(max, s0, s) && c in s.clients && s.clients[c] == Fresh(s.clients[c].session)
    requires HasRoom(max, s.w, s.clients[c].session) && p !in s.w.used
    ensures var n := s.clients[c].session;
      && Reaches(max, s0, t) && t.clients.Keys == s.clients.Keys
      && t.clients[c] == Fresh(n).(pc := Awaiting(WriteConfig), child := Some(p))
      && t.w == Up(SpawnChild(s.w.(lock := Some(c)), Fresh(n), p), p, n, "v")
  {
    var n := s.clients[c].session;
    var k, w := Fresh(n).(pc := Awaiting(Poll(POLL_ATTEMPTS)), child := Some(p)),
                SpawnChild(s.w.(lock := Some(c)), Fresh(n), p);
    SpawnsBeside(max, s, s0, c, p);
    ComesUp(max, s0, w, s.clients[c := k], p, n, "v");
    GetsToWrite(max, s, s0, Up(w, p, n, "v"), c, k, POLL_ATTEMPTS);
    t := With(s, Up(w, p, n, "v"), c, k.(pc := Awaiting(WriteConfig)));
  }

  predicate AboutToWrite(t: State, c: ClientId, n: Session) {
    c in t.clients && t.clients[c].session == n && t.clients[c].pc == Awaiting(WriteConfig)
  }

  /** With an abandoned child, a client may write `.config` while `.pid` names that child instead
      of its own: for every positive cap and every session. */
  lemma {:induction false} AbandonedChildSpoilsRace(max: nat, n: Session)
    requires max > 0
    ensures exists t: State ::
      && Reachable(max, t) && AboutToWrite(t, 1, n)
      && n in t.w.pid && !PidMatches(t.w, t.clients[1])
  {
    var s0 := Rivals(n);
    assert Path(max, s0, [], s0);
    LeavesOrphan(max, s0, s0, 0, 0);
    var s := With(s0, Orphan(NOBODY, Fresh(n), 0), 0, Fresh(n).(pc := Done(Failed), child := Some(0)));
    var t := WritesForItsOwn(max, s, s0, 1, 1);
    assert t.w.daemons[0] == Process(n, "v", WritePid);
    Moves(max, s0, t, DaemonStep(0));
    RivalsAreInit(max, n);
    ReachesIsRun(max, s0, Next(max, t, DaemonStep(0)));
  }

  /** Without any abandoned child, `.pid` may be gone when `.config` is written, because the
      client's own daemon has meanwhile exited: for every positive cap and every session. */
  lemma {:induction false} ExitSpoilsRace(max: nat, n: Session)
    requires max > 0
    ensures exists t: State ::
      && Reachable(max, t) && AboutToWrite(t, 1, n) && t.w.abandoned == {} && n !in t.w.pid
  {
    var s0 := Rivals(n);
    assert Path(max, s0, [], s0);
    var t := WritesForItsOwn(max, s0, s0, 1, 1);
    var t2 := Exits(max, s0, t, 1, n);
    RivalsAreInit(max, n);
    ReachesIsRun(max, s0, t2);
  }

  /** A serving daemon leaves and takes its socket and its `.pid` along. */
  lemma {:induction false} Exits(max: nat, s0: State, t: State, p: Pid, n: Session) returns (t2: State)
    requires Reaches(max, s0, t) && p in t.w.live
    requires p in t.w.daemons && t.w.daemons[p] == Process(n, "v", Serving)
    ensures Reaches(max, s0, t2) && t2.clients == t.clients
    ensures n !in t2.w.pid && t2.w.abandoned == t.w.abandoned
  {
    Moves(max, s0, t, DaemonStep(p));
    var t1 := Next(max, t, DaemonStep(p));
    Moves(max, s0, t1, DaemonStep(p));
    t2 := Next(max, t1, DaemonStep(p));
    Moves(max, s0, t2, DaemonStep(p));
    t2 := Next(max, t2, DaemonStep(p));
  }

  // ---------------------------------------------------------------- a restart that stops nobody

  /** Daemon d serves session n, while its predecessor d + 1 is about to leave. */
  function Overlap(n: Session, d: Pid, v: string): World {
    World(map[n := Names(d)], map[n := v], map[], map[n := d], {d, d + 1}, {d, d + 1},
          map[d := Process(n, v, Serving), d + 1 := Process(n, v, DropPid)], None, {})
  }

  /** The predecessor has left and has taken the files of its successor along. */
  function Nameless(n: Session, d: Pid, v: string): World {
    World(map[], map[], map[], map[n := d], {d}, {d, d + 1},
          map[d := Process(n, v, Serving), d + 1 := Process(n, v, DropVersion)], None, {})
  }

  lemma {:induction false} OverlapIsInit(max: nat, n: Session, d: Pid, v: string)
    requires max > 0
    ensures Init(max, State(Overlap(n, d, v), map[0 := Fresh(n)]))
  {
    assert Pending(Overlap(n, d, v)) == {};
    Cardinality.Subset(Registered(Overlap(n, d, v)), {n});
  }

  lemma {:induction false} PredecessorLeaves(max: nat, n: Session, d: Pid, v: string)
    ensures Reaches(max, State(Overlap(n, d, v), map[0 := Fresh(n)]), State(Nameless(n, d, v), map[0 := Fresh(n)]))
  {
    var w, clients := Overlap(n, d, v), map[0 := Fresh(n)];
    assert Path(max, State(w, clients), [], State(w, clients));
    DaemonMoves(max, State(w, clients), w, clients, d + 1);
    DaemonMoves(max, State(w, clients), DaemonNext(w, d + 1), clients, d + 1);
    LeavesNameless(n, d, v);
  }

  lemma {:induction false} LeavesNameless(n: Session, d: Pid, v: string)
    ensures var w1 := DaemonNext(Overlap(n, d, v), d + 1);
      d + 1 in w1.daemons && DaemonNext(w1, d + 1) == Nameless(n, d, v)
  {
    assert map[n := Names(d)] - {n} == map[] && map[n := v] - {n} == map[];
    assert {d, d + 1} - {d + 1} == {d};
  }

  /** The client finds no version, gets no answer to its request, and goes on to kill. */
  lemma {:induction false} GoesToKill(max: nat, s: State, s0: State, n: Session, d: Pid, v: string)
    requires s == State(Nameless(n, d, v), map[0 := Fresh(n)]) && Reaches(max, s0, s)
    ensures Reaches(max, s0, With(s, s.w, 0, Fresh(n).(pc := Approaching(KillUnlink))))
  {
    var k, ch := Fresh(n), Choice("", 0, false);
    assert With(s, s.w, 0, k) == s;
    ClientMoves(max, s, s0, s.w, 0, k, ch);
    ClientMoves(max, s, s0, s.w, 0, k.(pc := Approaching(CompareVersion)), ch);
    ClientMoves(max, s, s0, s.w, 0, k.(pc := Approaching(AskShutdown)), ch);
  }

  /** It removes the socket, finds nobody to signal, and takes the daemon for stopped. */
  lemma {:induction false} KillsNobody(max: nat, s: State, s0: State, n: Session, d: Pid, v: string)
    requires s == State(Nameless(n, d, v), map[0 := Fresh(n)]) && Reaches(max, s0, s)
    ensures Reaches(max, s0, With(s, s.w.(sock := map[]), 0, Fresh(n).(pc := AcquireLock, restarted := true)))
  {
    var k, w, ch := Fresh(n), s.w.(sock := map[]), Choice("", 0, false);
    GoesToKill(max, s, s0, n, d, v);
    ClientMoves(max, s, s0, s.w, 0, k.(pc := Approaching(KillUnlink)), ch);
    assert Delete(s.w, n, SockExt) == w by { assert map[n := d] - {n} == map[]; }
    ClientMoves(max, s, s0, w, 0, k.(pc := Approaching(KillRead)), ch);
    KillCleansNothing(max, s, s0, w, 0, k.(pc := Approaching(KillCleanup(REMOVAL_ORDER))), REMOVAL_ORDER);
    var stopped := k.(pc := Approaching(Cleanup(REMOVAL_ORDER)), restarted := true);
    CleansNothing(max, s, s0, w, 0, stopped, REMOVAL_ORDER);
  }

  lemma {:induction false} KillCleansNothing(
    max: nat, s: State, s0: State, w: World, c: ClientId, k: Client, left: seq<Ext>)
    requires c in s.clients && Absent(w, k.session) && k.pc == Approaching(KillCleanup(left))
    requires Reaches(max, s0, With(s, w, c, k))
    ensures Reaches(max, s0, With(s, w, c, k.(pc := Approaching(Cleanup(REMOVAL_ORDER)), restarted := true)))
    decreases |left|
  {
    ClientMoves(max, s, s0, w, c, k, Choice("", 0, true));
    if left != [] {
      DeletesNothing(w, k.session, left[0]);
      KillCleansNothing(max, s, s0, w, c, k.(pc := Approaching(KillCleanup(left[1..]))), left[1..]);
    }
  }

  predicate Serves(w: World, p: Pid, n: Session, v: string) {
    p in w.live && p in w.daemons && w.daemons[p] == Process(n, v, Serving)
  }

  /** It starts a daemon of its own and reports the restart. */
  lemma {:induction false} RestartsBeside(max: nat, s: State, s0: State, n: Session, d: Pid, v: string)
    returns (t: State)
    requires max > 0 && s == State(Nameless(n, d, v), map[0 := Fresh(n)]) && Reaches(max, s0, s)
    ensures Reaches(max, s0, t) && 0 in t.clients && t.clients[0].session == n
    ensures t.clients[0].pc == Done(Ok(false, true))
    ensures Serves(t.w, d, n, v) && Serves(t.w, d + 2, n, "v") && t.w.abandoned == {}
  {
    var w, p := s.w.(sock := map[]), d + 2;
    var unlocked := Fresh(n).(pc := AcquireLock, restarted := true);
    var waiter := unlocked.(pc := Awaiting(Poll(POLL_ATTEMPTS)), child := Some(p));
    var w2 := SpawnChild(w.(lock := Some(0)), unlocked, p);
    KillsNobody(max, s, s0, n, d, v);
    SpawnsFromLock(max, s, s0, w, 0, unlocked, p);
    ComesUp(max, s0, w2, s.clients[0 := waiter], p, n, "v");
    var w3 := Up(w2, p, n, "v");
    GetsToWrite(max, s, s0, w3, 0, waiter, POLL_ATTEMPTS);
    t := Reports(max, s, s0, w3, 0, waiter.(pc := Awaiting(WriteConfig)));
  }

  /** A restart is reported although the daemon that was to be stopped still serves, beside the
      new one and without any orphan: for every positive cap, session, process and version. So
      `restarted` does not mean that a daemon is gone, and cap 1 does not mean one process. */
  lemma {:induction false} RestartMayStopNobody(max: nat, n: Session, d: Pid, v: string)
    requires max > 0
    ensures exists t: State ::
      && Reachable(max, t) && 0 in t.clients && t.clients[0].session == n
      && t.clients[0].pc == Done(Ok(false, true))
      && Serves(t.w, d, n, v) && Serves(t.w, d + 2, n, "v") && t.w.abandoned == {}
  {
    var s0, s := State(Overlap(n, d, v), map[0 := Fresh(n)]), State(Nameless(n, d, v), map[0 := Fresh(n)]);
    PredecessorLeaves(max, n, d, v);
    var t := RestartsBeside(max, s, s0, n, d, v);
    OverlapIsInit(max, n, d, v);
    ReachesIsRun(max, s0, t);
  }
}
