/**
 The daemon lifecycle of connection.rs and native/daemon.rs as a state machine.

 Any number of command-line clients run `ensure_daemon` at once over one socket
 directory, together with the daemons they start and with processes that may kill
 a daemon or delete a sidecar file at any moment.  Every file, process or lock
 action is one step.  A client changes only its own record and the shared `World`.
*/
module Daemon {
  import opened Option

  type Session = string
  type Pid = nat
  type ClientId = nat

  /** What a `.pid` file holds: a process id, or text that does not parse as one. */
  datatype PidFile = Names(pid: Pid) | Unreadable

  datatype Ext = PidExt | VersionExt | ConfigExt | SockExt

  /** Life of a daemon process, in the order of native/daemon.rs. */
  datatype Phase = WritePid | WriteVersion | UnlinkSock | Bind | Serving | DropSock | DropPid | DropVersion

  datatype Process = Process(session: Session, version: string, phase: Phase)

  /** The shared state: the directory, the processes and the capacity lock.
      `used` holds every process id seen so far; `abandoned` records the children
      whose parent returned before they had registered. */
  datatype World = World(
    pid: map<Session, PidFile>,
    version: map<Session, string>,
    config: map<Session, string>,
    sock: map<Session, Pid>,
    live: set<Pid>,
    used: set<Pid>,
    daemons: map<Pid, Process>,
    lock: Option<ClientId>,
    abandoned: set<Pid>)

  datatype Outcome = Ok(alreadyRunning: bool, restarted: bool) | Failed

  /** Before the lock: reuse a daemon that answers, or stop it, and clean up. */
  datatype Approach =
    | Connect
    | CompareVersion
    | CompareConfig
    | SettleConfig
    | AskShutdown
    | AwaitExit
    | KillUnlink
    | KillRead
    | KillSignal(victim: Pid)
    | KillCleanup(left: seq<Ext>)
    | Cleanup(left: seq<Ext>)

  /** `walk_daemons`, entry by entry. */
  datatype Walk =
    | ListPids
    | WalkPids(todo: set<Session>, counted: set<Session>)
    | WalkAlive(entry: Session, named: Pid, todo: set<Session>, counted: set<Session>)
    | WalkClean(entry: Session, left: seq<Ext>, todo: set<Session>, counted: set<Session>, socks: bool)
    | WalkSocks(todo: set<Session>, counted: set<Session>)

  /** After the spawn. */
  datatype Wait =
    | Poll(attempts: nat)
    | PollChild(attempts: nat)
    | Exited
    | CheckPid
    | WriteConfig
    | CheckConfig
    | Adopt

  datatype PC =
    | Approaching(approach: Approach)
    | AcquireLock
    | Walking(walk: Walk)
    | Admit(counted: set<Session>)
    | Spawn(counted: set<Session>)
    | Awaiting(wait: Wait)
    | Done(outcome: Outcome)

  datatype Client = Client(
    session: Session, fingerprint: string, version: string,
    pc: PC, child: Option<Pid>, restarted: bool)

  /** How a step resolves what the program does not decide: which directory entry
      comes next, which process id a new child gets, and whether a wait goes on. */
  datatype Choice = Choice(name: Session, pid: Pid, flag: bool)

  datatype Action =
    | ClientStep(c: ClientId, choice: Choice)
    | ClientDies(c: ClientId)
    | DaemonStep(p: Pid)
    | Crash(p: Pid)
    | Remove(n: Session, e: Ext)

  datatype State = State(w: World, clients: map<ClientId, Client>)

  const REMOVAL_ORDER: seq<Ext> := [PidExt, VersionExt, ConfigExt, SockExt]
  const POLL_ATTEMPTS: nat := 50

  // ---------------------------------------------------------------- the world

  function Delete(w: World, n: Session, e: Ext): World {
    match e
    case PidExt => w.(pid := w.pid - {n})
    case VersionExt => w.(version := w.version - {n})
    case ConfigExt => w.(config := w.config - {n})
    case SockExt => w.(sock := w.sock - {n})
  }

  /** Connecting succeeds iff the socket file exists and its listener is alive. */
  predicate Ready(w: World, n: Session) {
    n in w.sock && w.sock[n] in w.live
  }

  predicate ConfigMatches(w: World, k: Client) {
    k.session in w.config && w.config[k.session] == k.fingerprint
  }

  predicate PidMatches(w: World, k: Client) {
    && k.child.Some? && k.session in w.pid && w.pid[k.session] == Names(k.child.value)
  }

  predicate IsPending(w: World, p: Pid) {
    p in w.live && p in w.daemons && w.daemons[p].phase == WritePid
  }

  /** Started processes that have not written their `.pid` file yet. */
  function Pending(w: World): set<Pid> {
    set p | p in w.daemons && IsPending(w, p)
  }

  predicate IsRegistered(w: World, n: Session) {
    n != "" && n in w.pid && w.pid[n].Names? && w.pid[n].pid in w.live
  }

  /** Sessions whose `.pid` file names a live process: what `walk_daemons` counts. */
  function Registered(w: World): set<Session> {
    set n | n in w.pid && IsRegistered(w, n)
  }

  // ---------------------------------------------------------------- daemon steps

  function DaemonNext(w: World, p: Pid): World
    requires p in w.daemons
  {
    var d := w.daemons[p];
    match d.phase
    case WritePid => At(w.(pid := w.pid[d.session := Names(p)]), p, WriteVersion)
    case WriteVersion => At(w.(version := w.version[d.session := d.version]), p, UnlinkSock)
    case UnlinkSock => At(w.(sock := w.sock - {d.session}), p, Bind)
    case Bind =>
      if d.session in w.sock then At(w, p, DropSock)
      else At(w.(sock := w.sock[d.session := p]), p, Serving)
    case Serving => At(w, p, DropSock)
    case DropSock => At(w.(sock := w.sock - {d.session}), p, DropPid)
    case DropPid => At(w.(pid := w.pid - {d.session}), p, DropVersion)
    case DropVersion => w.(version := w.version - {d.session}, live := w.live - {p})
  }

  function At(w: World, p: Pid, phase: Phase): World
    requires p in w.daemons
  {
    w.(daemons := w.daemons[p := w.daemons[p].(phase := phase)])
  }

  // ---------------------------------------------------------------- client steps

  /** True from taking the capacity lock until the result is decided. */
  predicate Locked(pc: PC) {
    pc.Walking? || pc.Admit? || pc.Spawn? || pc.Awaiting?
  }

  predicate ClientEnabled(w: World, k: Client, ch: Choice) {
    match k.pc
    case AcquireLock => w.lock == None
    case Walking(at) =>
      && (at.WalkPids? ==> at.todo == {} || ch.name in at.todo)
      && (at.WalkSocks? ==> at.todo == {} || ch.name in at.todo)
    case Spawn(_) => ch.flag ==> ch.pid !in w.used
    case Done(_) => false
    case _ => true
  }

  /** Return, or be killed: the lock file is dropped, and a child that has not registered is abandoned. */
  function Finish(w: World, k: Client, o: Outcome): (World, Client) {
    var orphan := if k.pc.Awaiting? && k.child.Some? && IsPending(w, k.child.value)
                  then {k.child.value} else {};
    (w.(lock := if Locked(k.pc) then None else w.lock, abandoned := w.abandoned + orphan),
     k.(pc := Done(o)))
  }

  function ApproachTo(w: World, k: Client, at: Approach): (World, Client) {
    (w, k.(pc := Approaching(at)))
  }

  function ApproachNext(w: World, k: Client, at: Approach, ch: Choice): (World, Client) {
    match at
    case Connect =>
      ApproachTo(w, k, if Ready(w, k.session) then CompareVersion else Cleanup(REMOVAL_ORDER))
    case CompareVersion =>
      ApproachTo(w, k, if k.session in w.version && w.version[k.session] == k.version
                       then CompareConfig else AskShutdown)
    case CompareConfig =>
      if ConfigMatches(w, k) then Finish(w, k, Ok(true, false))
      else ApproachTo(w, k, if k.session in w.config then AskShutdown else SettleConfig)
    case SettleConfig =>
      if ConfigMatches(w, k) then Finish(w, k, Ok(true, false))
      else ApproachTo(w, k, if ch.flag then SettleConfig else AskShutdown)
    case AskShutdown =>
      ApproachTo(w, k, if ch.flag && Ready(w, k.session) then AwaitExit else KillUnlink)
    case AwaitExit =>
      if !Ready(w, k.session) then ApproachTo(w, k.(restarted := true), Cleanup(REMOVAL_ORDER))
      else ApproachTo(w, k, if ch.flag then AwaitExit else KillUnlink)
    case KillUnlink => ApproachTo(Delete(w, k.session, SockExt), k, KillRead)
    case KillRead =>
      ApproachTo(w, k, if k.session in w.pid && w.pid[k.session].Names?
                       then KillSignal(w.pid[k.session].pid) else KillCleanup(REMOVAL_ORDER))
    case KillSignal(p) =>
      ApproachTo(if ch.flag then w.(live := w.live - {p}) else w, k, KillCleanup(REMOVAL_ORDER))
    case KillCleanup(left) =>
      if left == [] then ApproachTo(w, k.(restarted := true), Cleanup(REMOVAL_ORDER))
      else ApproachTo(Delete(w, k.session, left[0]), k, KillCleanup(left[1..]))
    case Cleanup(left) =>
      if left == [] then (w, k.(pc := AcquireLock))
      else ApproachTo(Delete(w, k.session, left[0]), k, Cleanup(left[1..]))
  }

  function WalkNext(w: World, at: Walk, name: Session): (World, PC) {
    match at
    case ListPids => (w, Walking(WalkPids(w.pid.Keys - {""}, {})))
    case WalkPids(todo, counted) =>
      if todo == {} then (w, Walking(WalkSocks(w.sock.Keys - {""}, counted)))
      else if name in w.pid && w.pid[name].Names?
      then (w, Walking(WalkAlive(name, w.pid[name].pid, todo - {name}, counted)))
      else (w, Walking(WalkClean(name, REMOVAL_ORDER, todo - {name}, counted, false)))
    case WalkAlive(n, p, todo, counted) =>
      if p in w.live then (w, Walking(WalkPids(todo, counted + {n})))
      else (w, Walking(WalkClean(n, REMOVAL_ORDER, todo, counted, false)))
    case WalkClean(n, left, todo, counted, socks) =>
      if left == [] then (w, Walking(if socks then WalkSocks(todo, counted) else WalkPids(todo, counted)))
      else (Delete(w, n, left[0]), Walking(WalkClean(n, left[1..], todo, counted, socks)))
    case WalkSocks(todo, counted) =>
      if todo == {} then (w, Admit(counted))
      else if name in w.pid then (w, Walking(WalkSocks(todo - {name}, counted)))
      else (w, Walking(WalkClean(name, REMOVAL_ORDER, todo - {name}, counted, true)))
  }

  function WaitTo(w: World, k: Client, at: Wait): (World, Client) {
    (w, k.(pc := Awaiting(at)))
  }

  function WaitNext(w: World, k: Client, at: Wait, more: bool): (World, Client) {
    match at
    case Poll(attempts) =>
      if attempts == 0 then Finish(w, k, Failed)
      else WaitTo(w, k, if Ready(w, k.session) then CheckPid else PollChild(attempts - 1))
    case PollChild(attempts) =>
      WaitTo(w, k, if k.child.Some? && k.child.value !in w.live then Exited else Poll(attempts))
    case Exited => if more && Ready(w, k.session) then WaitTo(w, k, Adopt) else Finish(w, k, Failed)
    case CheckPid => WaitTo(w, k, if PidMatches(w, k) then WriteConfig else CheckConfig)
    case WriteConfig =>
      Finish(w.(config := w.config[k.session := k.fingerprint]), k, Ok(false, k.restarted))
    case CheckConfig =>
      if ConfigMatches(w, k) then Finish(w, k, Ok(true, k.restarted)) else WaitTo(w, k, Adopt)
    case Adopt =>
      if ConfigMatches(w, k) then Finish(w, k, Ok(true, k.restarted))
      else if more then WaitTo(w, k, Adopt) else Finish(w, k, Failed)
  }

  /** The new child process exists and has not written anything yet. */
  function SpawnChild(w: World, k: Client, p: Pid): World {
    w.(live := w.live + {p}, used := w.used + {p},
       daemons := w.daemons[p := Process(k.session, k.version, WritePid)])
  }

  function ClientNext(max: nat, w: World, c: ClientId, k: Client, ch: Choice): (World, Client) {
    match k.pc
    case Approaching(at) => ApproachNext(w, k, at, ch)
    case AcquireLock =>
      if ch.flag then (w.(lock := Some(c)), k.(pc := Walking(ListPids))) else Finish(w, k, Failed)
    case Walking(at) => var (w2, pc2) := WalkNext(w, at, ch.name); (w2, k.(pc := pc2))
    case Admit(counted) =>
      if |counted| >= max || !ch.flag then Finish(w, k, Failed) else (w, k.(pc := Spawn(counted)))
    case Spawn(_) =>
      if !ch.flag then Finish(w, k, Failed)
      else (SpawnChild(w, k, ch.pid), k.(pc := Awaiting(Poll(POLL_ATTEMPTS)), child := Some(ch.pid)))
    case Awaiting(at) => WaitNext(w, k, at, ch.flag)
    case Done(_) => (w, k)
  }

  // ---------------------------------------------------------------- runs

  /** Client c acts, or it is killed and the system closes its files. */
  predicate By(a: Action, c: ClientId) {
    (a.ClientStep? || a.ClientDies?) && a.c == c
  }

  predicate Enabled(s: State, a: Action) {
    match a
    case ClientStep(c, ch) => c in s.clients && ClientEnabled(s.w, s.clients[c], ch)
    case ClientDies(c) => c in s.clients && !s.clients[c].pc.Done?
    case DaemonStep(p) => p in s.w.daemons && p in s.w.live
    case Crash(p) => true
    case Remove(_, _) => true
  }

  function Next(max: nat, s: State, a: Action): State
    requires Enabled(s, a)
  {
    match a
    case ClientStep(c, ch) =>
      var (w, k) := ClientNext(max, s.w, c, s.clients[c], ch);
      State(w, s.clients[c := k])
    case ClientDies(c) =>
      var (w, k) := Finish(s.w, s.clients[c], Failed);
      State(w, s.clients[c := k])
    case DaemonStep(p) => s.(w := DaemonNext(s.w, p))
    case Crash(p) => s.(w := s.w.(live := s.w.live - {p}))
    case Remove(n, e) => s.(w := Delete(s.w, n, e))
  }

  /** Start states: nobody holds the lock, no daemon is half started, every process id
      in sight counts as used, and the registered sessions are within the cap. */
  ghost predicate Init(max: nat, s: State) {
    && s.w.lock == None && s.w.abandoned == {} && Pending(s.w) == {}
    && PidsKnown(s.w)
    && |Registered(s.w)| <= max
    && (forall c <- s.clients ::
          s.clients[c].pc == Approaching(Connect) && s.clients[c].child == None && !s.clients[c].restarted)
  }

  ghost predicate PidsKnown(w: World) {
    && w.live <= w.used && w.daemons.Keys <= w.used && w.abandoned <= w.used
    && (forall n <- w.pid :: w.pid[n].Names? ==> w.pid[n].pid in w.used)
    && (forall n <- w.pid :: w.pid[n].Names? && w.pid[n].pid in w.daemons ==>
          w.daemons[w.pid[n].pid].session == n && w.daemons[w.pid[n].pid].phase != WritePid)
  }

  ghost predicate IsRun(max: nat, ss: seq<State>, acts: seq<Action>) {
    && |ss| == |acts| + 1
    && Init(max, ss[0])
    && (forall i | 0 <= i < |acts| :: IsStep(max, ss[i], acts[i], ss[i + 1]))
  }

  /** The state ends some run. */
  ghost predicate Reachable(max: nat, t: State) {
    exists ss: seq<State>, acts: seq<Action> :: IsRun(max, ss, acts) && ss[|acts|] == t
  }

  predicate IsStep(max: nat, s: State, a: Action, s2: State) {
    Enabled(s, a) && s2 == Next(max, s, a)
  }
}
