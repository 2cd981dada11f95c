/**
 `walk_daemons` of connection.rs: classify every `.pid` and `.sock` entry of the socket
 directory and delete the sidecar files of the stale ones, with liveness held fixed.
*/
module SocketDir {
  import opened Option
  import opened Text
  import opened Daemon

  datatype CleanReason = ProcessGone | UnreadablePidFile | OrphanedSocket

  datatype ActiveSession = ActiveSession(name: Session, pid: Pid, version: Option<string>)

  datatype CleanedSession = CleanedSession(name: Session, reason: CleanReason)

  /** The sidecar files of a directory, by extension. */
  datatype Files = Files(
    pid: map<Session, PidFile>, version: map<Session, string>, config: map<Session, string>, sock: set<Session>)

  function Without(d: Files, names: set<Session>): Files {
    Files(d.pid - names, d.version - names, d.config - names, d.sock - names)
  }

  predicate IsLive(d: Files, live: set<Pid>, n: Session) {
    n in d.pid && d.pid[n].Names? && d.pid[n].pid in live
  }

  /** A named entry to clean up: a `.pid` that names no live process, or a lone `.sock`. */
  predicate IsStale(d: Files, live: set<Pid>, n: Session) {
    n != "" && (n in d.pid || n in d.sock) && !IsLive(d, live, n)
  }

  function Stale(d: Files, live: set<Pid>): set<Session> {
    set n | n in d.pid.Keys + d.sock && IsStale(d, live, n)
  }

  function ReasonFor(d: Files, n: Session): CleanReason {
    if n !in d.pid then OrphanedSocket else if d.pid[n].Names? then ProcessGone else UnreadablePidFile
  }

  /** The `.version` contents, when there are any besides white space. */
  function ReadVersion(version: map<Session, string>, n: Session): Option<string> {
    if n in version && Trim(version[n]) != "" then Some(Trim(version[n])) else None
  }

  function Entry(d: Files, n: Session): ActiveSession
    requires n in d.pid && d.pid[n].Names?
  {
    ActiveSession(n, d.pid[n].pid, ReadVersion(d.version, n))
  }

  /** `sessions` lists exactly the live entries among `names`, each once. */
  ghost predicate ListsLive(d: Files, live: set<Pid>, names: set<Session>, sessions: seq<ActiveSession>) {
    && (forall e <- sessions :: e.name in names && e.name != "" && IsLive(d, live, e.name) && e == Entry(d, e.name))
    && (forall n <- names :: n != "" && IsLive(d, live, n) ==> Entry(d, n) in sessions)
    && (forall i, j | 0 <= i < j < |sessions| :: sessions[i].name != sessions[j].name)
  }

  /** `cleaned` lists exactly the stale entries among `names`, each once and with its reason. */
  ghost predicate ListsStale(d: Files, live: set<Pid>, names: set<Session>, cleaned: seq<CleanedSession>) {
    && (forall e <- cleaned :: e.name in names && IsStale(d, live, e.name) && e.reason == ReasonFor(d, e.name))
    && (forall n <- names :: IsStale(d, live, n) ==> CleanedSession(n, ReasonFor(d, n)) in cleaned)
    && (forall i, j | 0 <= i < j < |cleaned| :: cleaned[i].name != cleaned[j].name)
  }

  class SocketDirectory {
    var pid: map<Session, PidFile>
    var version: map<Session, string>
    var config: map<Session, string>
    var sock: set<Session>

    ghost function Contents(): Files
      reads this
    {
      Files(pid, version, config, sock)
    }

    constructor (d: Files)
      ensures Contents() == d
    {
      pid, version, config, sock := d.pid, d.version, d.config, d.sock;
    }

    method CleanupStaleFiles(n: Session)
      modifies this
      ensures Contents() == Without(old(Contents()), {n})
    {
      pid := pid - {n};
      version := version - {n};
      config := config - {n};
      sock := sock - {n};
    }

    /** Entries come in whatever order the directory gives them. */
    method WalkDaemons(live: set<Pid>) returns (sessions: seq<ActiveSession>, cleaned: seq<CleanedSession>)
      modifies this
      ensures Contents() == Without(old(Contents()), Stale(old(Contents()), live))
      ensures ListsLive(old(Contents()), live, old(Contents()).pid.Keys, sessions)
      ensures ListsStale(old(Contents()), live, old(Contents()).pid.Keys + old(Contents()).sock, cleaned)
    {
      ghost var d := Contents();
      sessions, cleaned := [], [];
      var todo := pid.Keys - {""};
      ghost var done: set<Session> := {};
      while todo != {}
        invariant todo + done == d.pid.Keys - {""} && todo !! done
        invariant Contents() == Without(d, StaleAmong(d, live, done))
        invariant ListsLive(d, live, done, sessions) && ListsStale(d, live, done, cleaned)
        decreases todo
      {
        var n :| n in todo;
        todo := todo - {n};
        OneMore(d, live, done, n, sessions, cleaned);
        assert pid[n] == d.pid[n] && ReadVersion(version, n) == ReadVersion(d.version, n);
        if pid[n].Names? && pid[n].pid in live {
          sessions := sessions + [ActiveSession(n, pid[n].pid, ReadVersion(version, n))];
        } else {
          cleaned := cleaned + [CleanedSession(n, if pid[n].Names? then ProcessGone else UnreadablePidFile)];
          CleanupStaleFiles(n);
        }
        done := done + {n};
      }
      CompleteLive(d, live, done, sessions);
      todo := sock - {""};
      ghost var seen := done;
      while todo != {}
        invariant todo <= d.sock - {""} && d.sock - {""} <= seen + todo && done <= seen <= d.pid.Keys + d.sock
        invariant forall n <- todo :: n in seen ==> IsLive(d, live, n)
        invariant Contents() == Without(d, StaleAmong(d, live, seen)) && ListsStale(d, live, seen, cleaned)
        decreases todo
      {
        var n :| n in todo;
        todo := todo - {n};
        OneMore(d, live, seen, n, [], cleaned);
        if n !in pid {
          cleaned := cleaned + [CleanedSession(n, OrphanedSocket)];
          CleanupStaleFiles(n);
        }
        seen := seen + {n};
      }
      WidenStale(d, live, seen, d.pid.Keys + d.sock, cleaned);
      assert StaleAmong(d, live, seen) == Stale(d, live);
    }
  }

  function StaleAmong(d: Files, live: set<Pid>, names: set<Session>): set<Session> {
    set n | n in names && IsStale(d, live, n)
  }

  /** What one more entry adds to the lists and to the deletions. */
  lemma {:induction false} OneMore(d: Files, live: set<Pid>, names: set<Session>, n: Session,
                                   sessions: seq<ActiveSession>, cleaned: seq<CleanedSession>)
    requires n != "" && (n in d.pid || n in d.sock)
    ensures IsLive(d, live, n) ==> StaleAmong(d, live, names + {n}) == StaleAmong(d, live, names)
    ensures !IsLive(d, live, n) ==> IsStale(d, live, n)
    ensures !IsLive(d, live, n) ==>
      Without(Without(d, StaleAmong(d, live, names)), {n}) == Without(d, StaleAmong(d, live, names + {n}))
    ensures ListsLive(d, live, names, sessions) && n !in names ==>
      ListsLive(d, live, names + {n}, if IsLive(d, live, n) then sessions + [Entry(d, n)] else sessions)
    ensures ListsStale(d, live, names, cleaned) && (n in names ==> IsLive(d, live, n)) ==>
      ListsStale(d, live, names + {n},
                 if IsLive(d, live, n) then cleaned else cleaned + [CleanedSession(n, ReasonFor(d, n))])
  {
    if IsLive(d, live, n) {
      assert StaleAmong(d, live, names + {n}) == StaleAmong(d, live, names);
    } else {
      assert StaleAmong(d, live, names + {n}) == StaleAmong(d, live, names) + {n};
    }
  }

  lemma {:induction false} CompleteLive(d: Files, live: set<Pid>, names: set<Session>, sessions: seq<ActiveSession>)
    requires ListsLive(d, live, names, sessions) && names == d.pid.Keys - {""}
    ensures ListsLive(d, live, d.pid.Keys, sessions)
  {
  }

  lemma {:induction false} WidenStale(
    d: Files, live: set<Pid>, names: set<Session>, all: set<Session>, cleaned: seq<CleanedSession>)
    requires ListsStale(d, live, names, cleaned) && names <= all
    requires forall n | n in all - names :: !IsStale(d, live, n)
    ensures ListsStale(d, live, all, cleaned)
  {
  }

  // ---------------------------------------------------------------- main results

  /** Every named `.pid` entry is reported exactly once, as a session or as cleaned; a session
      name is never also cleaned. */
  lemma {:induction false} WalkPartitions(
    d: Files, live: set<Pid>, sessions: seq<ActiveSession>, cleaned: seq<CleanedSession>, n: Session)
    requires ListsLive(d, live, d.pid.Keys, sessions) && ListsStale(d, live, d.pid.Keys + d.sock, cleaned)
    requires n in d.pid && n != ""
    ensures (exists e <- sessions :: e.name == n) <==> !(exists e <- cleaned :: e.name == n)
    ensures forall i, j | 0 <= i < |sessions| && 0 <= j < |sessions| ::
      sessions[i].name == n && sessions[j].name == n ==> i == j
    ensures forall i, j | 0 <= i < |cleaned| && 0 <= j < |cleaned| ::
      cleaned[i].name == n && cleaned[j].name == n ==> i == j
  {
    if IsLive(d, live, n) {
      assert Entry(d, n) in sessions;
    } else {
      assert CleanedSession(n, ReasonFor(d, n)) in cleaned;
    }
  }

  /** After a walk every named `.pid` is live, every named `.sock` has its `.pid`, and no file
      of a live session has changed. */
  lemma {:induction false} WalkLeavesOnlyLive(d: Files, live: set<Pid>, n: Session)
    requires n != ""
    ensures var d2 := Without(d, Stale(d, live));
      && (n in d2.pid ==> IsLive(d2, live, n))
      && (n in d2.sock ==> n in d2.pid)
      && (IsLive(d, live, n) ==>
            && n in d2.pid && d2.pid[n] == d.pid[n]
            && (n in d2.sock <==> n in d.sock)
            && (n in d2.version <==> n in d.version) && (n in d.version ==> d2.version[n] == d.version[n])
            && (n in d2.config <==> n in d.config) && (n in d.config ==> d2.config[n] == d.config[n]))
  {
    if n in d.pid || n in d.sock {
      assert IsStale(d, live, n) <==> n in Stale(d, live);
    }
  }

  /** A reported version is the text of the version file without the white space around it. */
  lemma {:induction false} VersionIff(version: map<Session, string>, n: Session, v: string)
    ensures ReadVersion(version, n) == Some(v) <==>
      && n in version && v != "" && Trimmed(v)
      && exists lead, tail :: Blank(lead) && Blank(tail) && version[n] == lead + v + tail
  {
    if n in version {
      var lead, tail := TrimParts(version[n]);
      TrimIsTrimmed(version[n]);
      forall a, b | Blank(a) && Blank(b) && version[n] == a + v + b && Trimmed(v) ensures v == Trim(version[n]) {
        TrimOfParts(a, v, b);
      }
    }
  }

  lemma {:induction false} MemberOrEmpty<T>(s: seq<T>)
    ensures s == [] || exists e :: e in s
  {
    if s != [] {
      assert s[0] in s;
    }
  }

  /** A second walk finds the same sessions and nothing to clean. */
  lemma {:induction false} SecondWalkIsIdle(
    d: Files, live: set<Pid>, sessions: seq<ActiveSession>, cleaned: seq<CleanedSession>)
    requires var d2 := Without(d, Stale(d, live));
      ListsLive(d2, live, d2.pid.Keys, sessions) && ListsStale(d2, live, d2.pid.Keys + d2.sock, cleaned)
    ensures var d2 := Without(d, Stale(d, live)); Without(d2, Stale(d2, live)) == d2
    ensures cleaned == []
    ensures ListsLive(d, live, d.pid.Keys, sessions)
  {
    var d2 := Without(d, Stale(d, live));
    forall n ensures !IsStale(d2, live, n) {
      if n != "" {
        WalkLeavesOnlyLive(d, live, n);
      }
    }
    assert Stale(d2, live) == {};
    MemberOrEmpty(cleaned);
    forall n | n in d.pid && n != "" && IsLive(d, live, n)
      ensures n in d2.pid && IsLive(d2, live, n) && Entry(d2, n) == Entry(d, n)
    {
      WalkLeavesOnlyLive(d, live, n);
    }
    forall e | e in sessions
      ensures e.name in d.pid.Keys && e.name != "" && IsLive(d, live, e.name) && e == Entry(d, e.name)
    {
      WalkLeavesOnlyLive(d, live, e.name);
    }
  }
}
