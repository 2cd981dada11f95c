# Verified model of the skeptic command line

This project models, in Dafny, the logic of `crates/skeptic-cli` that is hardest to get right by reading, and
proves what it is meant to guarantee. `dafny verify dfyconfig.toml` checks everything.

**Daemon lifecycle** (`Daemon`, `DaemonCapacity`, `DaemonProcesses`, `DaemonResults`, `DaemonRestarts`, `DaemonAnswers`,
`DaemonOutcomes`, `DaemonFiles`; example runs in `DaemonPaths` and `DaemonWitness`). Any number of `ensure_daemon` clients, the daemons they start, and processes that
may kill a client or a daemon or delete a sidecar file at any moment are one state machine over the shared socket
directory; every file, process or lock action is one step. The results are about every run:

- The lock admits at most `max_sessions`: the sessions of daemons nobody abandoned, plus the lock holder's
  unregistered child, never exceed the cap. A client may also leave while its child is still starting: its poll loop
  gives up after fifty turns or adopts another daemon, or it is killed. Such an orphan writes `.pid` later, without the
  lock, so *all* registered sessions are bounded by the cap plus the number of live orphans, and by the cap itself
  when there is none. For every positive cap and every number of orphans a run attains
  the bound.
- When every client has a session of its own that nobody serves at the start, and no file is deleted from outside, no
  session ever has two daemons, and the cap (plus live orphans) bounds all daemon processes that have not taken their
  `.pid` file away. With a session that is already served it does not: see the restart below.
- An `Ok` is decided at a step after which `.config` equals the caller's fingerprint; a fresh daemon is reported
  only after `.pid` held the child that this call spawned.
- A daemon is reused, before the lock, only after the call found its session served, then its own version in
  `.version`, and then its own fingerprint in `.config`. After a mismatch the call gives no `Ok` before it has come to
  the end of stopping the daemon, and a served session is never cleaned up without that. Force is used only against a
  daemon that did not take the request to exit or serves on afterwards.
- Whoever waits for the lock has deleted every sidecar file of its session; a session counts against the cap only when
  its `.pid` named a process that was alive afterwards; a winner always writes `.config` and reports a fresh daemon,
  unless it is killed; and every failure has one of six listed reasons.
- `.pid`, `.version` and `.sock` are written by daemons of their own session only, and a socket is never taken over.
- `restarted` is true exactly when this call found its session served, then another version or configuration than its
  own, and then came to the end of its stop routine. It does *not* mean that the daemon it met is gone. That holds if
  and only if the call read the daemon's id in `.pid` and its signal arrived, or somebody else ended the daemon
  meanwhile; with nobody else acting and signals arriving, if and only if `.pid` named the daemon when the call began.
  Without a `.pid` file nobody is signalled: a predecessor that exits late removes the files of its successor, and then
  a run reports a restart while the old daemon still serves beside the new one.
- Only the lock holder writes `.config`, after it has found its own child in `.pid`; a client that finds another
  process there never writes it. At the write `.pid` names the writer's own child if and only if `.pid` is still there
  and names no orphan. Both can fail, for every positive cap and every session: an orphan of the same session registers
  late, or the client's own daemon has meanwhile exited.

The daemon's own start-up follows `native/daemon.rs`: it writes `.pid` *before* it binds its socket, and removes
`.pid` again when the bind fails, so a second daemon does touch `.pid`. Assumptions: process ids are not
reused, all clients share one cap, writing `.config` succeeds, dropping the lock file belongs to the deciding step, and
only `ensure_daemon` writes `.config` files. A `.config` that cannot be read counts as one with other contents.

**Socket directory** (`SocketDir`): `walk_daemons` as a method on a mutable directory, with liveness held fixed.

**Port** (`Port`): the 32-bit wrapping hash loop against the base-31 polynomial.

**Requests and batches** (`Requests`, `Batch`): retry, error classes, respawn, and `run_batch` with `--json`, against
any daemon that answers as a function of its state.

**Reader** (`ReadTargets`, `ReadFlow`, `ReadSafety`, `ReadAnswers`, `ReadPlaces`, `ContentTypes`): `run_read` with all
its fallbacks against a server whose answers may depend on everything it was asked before; which answer it gives, with
every field of the report. `LlmsLinks`, `LlmsItems`, `LlmsRoundTrip`, `LlmsExceptions`: the llms.txt parser and printer.
`StripTags`, `Entities`, `EntityText`, `Normalize`, `NormalizeWords`, `NormalizeLines`, `Sections`, `SectionText`: the
text algorithms.

**Argument scanners** (`ArgScan`, `ArgEvents`, `FlagTables`), **shell words** (`ShellWords`, `ShellGrammar`),
**cookies** (`Cookies`, `CookieText`, `CurlCommands`), **plugin registry** (`Plugins`).

Loops of the program are methods proved against specification functions; what the program promises is proved about
those functions. A second kind of result says what such a function computes without naming it or its steps, on the
characters, tokens, requests or files themselves (the modules whose names end in `Text`, `Items`, `Lines`, `Events`,
`Answers`, `Outcomes`, `Files`, `Places` and `Grammar`). Several scanners take their classification as a function value (`Tables`, `Lookup`, `Reader`,
`Rules`), and a separate lemma shows that the program's own classification has what the results need. Strings are
sequences of Unicode scalar values, so positions count scalars where the program counts bytes; all searched-for
patterns are ASCII, and the one place where bytes matter (the entity length limit) counts UTF-8 bytes. Lower-casing is
ASCII throughout.

Some laws hold under an exact condition, which is proved in both directions (the daemon's are above):

- Splitting a quoted command line gives the arguments back if and only if none is empty (empty arguments vanish).
- Re-reading a printed llms.txt index gives the links back if and only if no listed URL has a closing parenthesis and
  none ends in an angle bracket. Both make it fail: a file whose own directory has a parenthesis, linking to a page by a
  relative name; and an absolute URL written `v<>`, listed as `v<` and re-read as `v`. That the condition
  suffices needs only that listed URLs resolve to themselves. That it is necessary also needs that each
  printed URL, cut at its parenthesis, still resolves, or that no `[` stands behind the parenthesis; a URL that has a
  parenthesis in front of its path *and* a list item behind it can escape, and one is given.
- `match_quoted_arg` returns an argument if and only if it is the first qualifying one that the scan reaches, passing
  over closed arguments that are refused and over bare ones; it returns none if and only if the scan reaches no flag, a
  flag with nothing behind it, or an unclosed quote first. So an argument that would qualify is missed behind
  `-H 'x` as long as no second such quote follows.
- A permitted page is reported as an error if and only if its request fails, or neither its response, nor the Markdown
  sibling, nor the page that the nearest llms.txt links to can be used.
- A printed heading is read back if and only if it has at most six hash signs and the title does not end in one.
- A token survives `clean_args` if and only if `parse_flags` takes it for a word and it is neither one of seven extra
  switches that only `clean_args` knows nor a `true`/`false` right after one.

Abbreviations below: a *round* is one call of `send_command`; a *candidate* is one place where an llms.txt may be.

## Model

| member | source | states |
|---|---|---|
| DaemonCapacity.StepKeeps | crates/skeptic-cli/src/connection.rs:762-997 | every step of any client, its death, and every daemon step, crash or deletion keeps the invariant: budget within the cap, lock held by exactly the client in its locked section, every pending child awaited by the lock holder or orphaned |
| DaemonCapacity.CapacityBound | crates/skeptic-cli/src/connection.rs:812-837 | in every reachable state the sessions of daemons nobody abandoned plus the awaited children are within the cap, and only the lock holder's own child is awaited |
| DaemonCapacity.CapacitySafety | crates/skeptic-cli/src/connection.rs:921-986 | all registered sessions and unregistered children together exceed the cap by at most the number of live orphans |
| DaemonCapacity.OrphansBoundTheRest | crates/skeptic-cli/src/connection.rs:921-986 | every session or child beyond the budget has a live orphan of its own |
| DaemonCapacity.CountBoundsBudget | crates/skeptic-daemon/src/lib.rs:255-266 | when the walk has counted every registered session, bar orphans', the count that admission compares with the cap bounds the budget |
| DaemonCapacity.RegistrationKeeps | crates/skeptic-cli/src/native/daemon.rs:67-68 | a child that writes its `.pid` moves within the budget and disturbs nothing the lock holder relies on |
| DaemonCapacity.MutualExclusion | crates/skeptic-cli/src/connection.rs:815-826 | at most one client is between taking the capacity lock and returning |
| DaemonProcesses.OneDaemonEach | crates/skeptic-cli/src/connection.rs:808-921 | with a session per client, none served at the start, and no deletions from outside, no session has two daemons in any reachable state |
| DaemonProcesses.ProcessesAreCapped | crates/skeptic-cli/src/connection.rs:827-837 | in such runs all daemons that have not taken their `.pid` away exceed the cap by at most the number of live orphans |
| DaemonProcesses.StepKeepsOrder | crates/skeptic-cli/src/connection.rs:165-187 | cleaning up and walking the directory never takes a file from a running daemon, and a client finds no file of its session when it spawns |
| DaemonWitness.AbandonedChildBreaksCap | crates/skeptic-cli/src/connection.rs:923-986 | for every positive cap and every number m of orphans some run reaches m live orphans and cap + m registered sessions: the bound is attained |
| DaemonResults.OkMeansConfigEqual | crates/skeptic-cli/src/connection.rs:605-662 | every Ok is decided at a step of this client after which `.config` holds its fingerprint |
| DaemonResults.FreshMeansOwnPid | crates/skeptic-cli/src/connection.rs:605-617 | `already_running == false` only when, earlier in the run, `.pid` held the child of this client |
| DaemonResults.ChildWasSpawned | crates/skeptic-cli/src/connection.rs:921 | a client's child is a process that this client spawned earlier in the run |
| DaemonRestarts.RestartedMeansStopped | crates/skeptic-cli/src/connection.rs:774-805 | `restarted` is true exactly when this call found its session served, later a mismatch of version or configuration, and later ended a stop routine; that a mismatch always leads there is MismatchLeadsToStop |
| DaemonRestarts.OkReportsRestart | crates/skeptic-cli/src/connection.rs:770-805 | every Ok reports exactly that |
| DaemonRestarts.GoneIff | crates/skeptic-cli/src/connection.rs:686-731 | a process in sight is gone later exactly when it crashed, exited, or was signalled by a client in between |
| DaemonRestarts.StopEndsDaemon | crates/skeptic-cli/src/connection.rs:686-760 | the daemon that the call met is gone at the end of the stop exactly when the call read its id in `.pid` and its signal arrived, or somebody else ended it |
| DaemonRestarts.PidFileDecides | crates/skeptic-cli/src/connection.rs:694-731 | when nobody else acts and signals arrive, it is gone exactly when `.pid` named it as the call began |
| DaemonAnswers.ReuseMeansMatches | crates/skeptic-cli/src/connection.rs:774-799 | an Ok without a child comes after three steps of this call, in order: the session is served, `.version` holds exactly the client's version, `.config` exactly its fingerprint |
| DaemonAnswers.MismatchLeadsToStop | crates/skeptic-cli/src/connection.rs:777-794 | after a mismatch of version or configuration the call stops the daemon or has failed, and gives no Ok before it has ended its stop routine |
| DaemonAnswers.ServedIsKept | crates/skeptic-cli/src/connection.rs:774-797 | a session found served is cleaned up or started anew only by a call that met a mismatch and has stopped its daemon |
| DaemonAnswers.TowardsForce | crates/skeptic-cli/src/connection.rs:744-760 | a step at which the daemon does not take the request, or serves on when the patience ends, leads to force, and no other step does |
| DaemonAnswers.ForceMeansUnwilling | crates/skeptic-cli/src/connection.rs:744-760 | the call stops by force only after a request to exit that was not taken, or a daemon that served on |
| DaemonOutcomes.UnlinkedBeforeSignal | crates/skeptic-cli/src/connection.rs:687-694 | the socket is deleted before the process to signal is looked for |
| DaemonOutcomes.CleanedBeforeLock | crates/skeptic-cli/src/connection.rs:797-828 | each of the four sidecar files of its session was deleted by the client itself before it asked for the lock |
| DaemonOutcomes.CountedWasLive | crates/skeptic-cli/src/connection.rs:266-337 | a counted session had a `.pid` naming a process that was alive at a later step of the walk |
| DaemonOutcomes.CleanedWasStale | crates/skeptic-cli/src/connection.rs:266-337 | the walk deletes files only of a session whose `.pid` it found naming nobody or a dead process, or whose socket it found without `.pid` |
| DaemonOutcomes.StaleIsCleaned | crates/skeptic-cli/src/connection.rs:266-337 | and goes on behind such a session only after deleting all four of its files |
| DaemonOutcomes.FailsIff | crates/skeptic-cli/src/connection.rs:812-997 | the steps at which a call fails by itself, exactly: no lock, cap reached, no process, waits used up, child gone and nobody serving, another configuration until patience ends |
| DaemonOutcomes.TimeoutMeansUnserved | crates/skeptic-cli/src/connection.rs:923-986 | a call that gives up waiting has found its session unserved at fifty steps of its own |
| DaemonOutcomes.ExitMeansChildDead | crates/skeptic-cli/src/connection.rs:940-984 | one that reports its child gone has seen it dead |
| DaemonOutcomes.DeadChildIsSeen | crates/skeptic-cli/src/connection.rs:939-941 | the call stops waiting exactly when its child is dead |
| DaemonOutcomes.GoneChildAdopts | crates/skeptic-cli/src/connection.rs:950-963 | then it waits for another daemon's configuration if one serves the session, and fails otherwise |
| DaemonOutcomes.ServedIsChecked | crates/skeptic-cli/src/connection.rs:923-927 | while waiting the call turns to the `.pid` comparison exactly when the session is served |
| DaemonOutcomes.AdoptsIff | crates/skeptic-cli/src/connection.rs:619-662 | wherever `.config` is compared the call ends at once exactly when it holds the caller's fingerprint, as a reuse, without a change |
| DaemonOutcomes.WinnerReports | crates/skeptic-cli/src/connection.rs:611-617 | a client that finds its own child in `.pid` writes its fingerprint and reports a fresh daemon, unless it is killed before |
| DaemonFiles.EntriesAreTheirDaemons | crates/skeptic-cli/src/native/daemon.rs:66-119 | a step leaves or deletes an entry, or a daemon of that session writes its own id, its own version, or itself into a free socket |
| DaemonFiles.ListenerHasBound | crates/skeptic-cli/src/native/daemon.rs:72-106 | whoever listens on a socket that is new in the run has bound it for this session when it was free |
| DaemonFiles.VersionIsDaemons | crates/skeptic-cli/src/native/daemon.rs:70-71 | a version file that is new in the run holds the version of a daemon of the session |
| DaemonFiles.PhasesWereDone | crates/skeptic-cli/src/native/daemon.rs:66-119 | a daemon started in the run has done to the files what each earlier phase is for, in order: id, version, socket, and at the end all three deleted |
| DaemonWitness.RestartMayStopNobody | crates/skeptic-cli/src/connection.rs:694-731 | for every positive cap, session and process a run, in which a predecessor's late exit has removed the daemon's files, reports a restart while the daemon to be stopped and the new one both serve, without any orphan |
| DaemonResults.SpawnRace | crates/skeptic-cli/src/connection.rs:605-627 | a changed `.config` was written by the lock holder, for its own session and fingerprint, after it saw its own child in `.pid`; at the write `.pid` names that child if and only if it is still there and names no orphan |
| DaemonResults.WriterOwnsPidIff | crates/skeptic-cli/src/connection.rs:612-613 | the same in every state in which a client is about to write |
| DaemonResults.OwnChildIsAwaited | crates/skeptic-cli/src/connection.rs:921-923 | the child that a client waits for is never an orphan |
| DaemonResults.LoserNeverWrites | crates/skeptic-cli/src/connection.rs:923-962 | a client that does not find its own child in `.pid` only adopts or fails from then on |
| DaemonResults.ConfigFrozenUnderLock | crates/skeptic-cli/src/connection.rs:812-826 | while one client holds the lock, `.config` entries are at most deleted |
| DaemonWitness.AbandonedChildSpoilsRace | crates/skeptic-cli/src/connection.rs:612-613 | for every positive cap and every session a client can reach the write while `.pid` names an orphan |
| DaemonWitness.ExitSpoilsRace | crates/skeptic-cli/src/connection.rs:612-613 | and, without any orphan, while `.pid` is gone because its own daemon has exited |
| SocketDir.SocketDirectory.CleanupStaleFiles | crates/skeptic-cli/src/connection.rs:165-187 | removes the sidecar files of one session and nothing else |
| SocketDir.SocketDirectory.WalkDaemons | crates/skeptic-cli/src/connection.rs:266-337 | lists exactly the live entries, cleans exactly the stale ones with their reason, each once, and deletes the files of the stale names only |
| SocketDir.WalkPartitions | crates/skeptic-cli/src/connection.rs:266-337 | every named `.pid` entry is reported exactly once, as a session or as cleaned |
| SocketDir.WalkLeavesOnlyLive | crates/skeptic-cli/src/connection.rs:257-337 | afterwards every named `.pid` is live, every named `.sock` has a `.pid`, and files of live sessions are unchanged |
| SocketDir.SecondWalkIsIdle | crates/skeptic-cli/src/connection.rs:266-337 | a second walk finds the same sessions and cleans nothing |
| SocketDir.VersionIff | crates/skeptic-cli/src/connection.rs:250-256 | a reported version is the text of the version file without white space around it, if there is any |
| Port.GetPortForSession | crates/skeptic-cli/src/connection.rs:356-364 | the wrapping loop equals the base-31 polynomial modulo 2^32 read as signed, and the port is in 49152..65534 for every name |
| Port.HashStep | crates/skeptic-cli/src/connection.rs:359 | shift, subtract and add on 32 bits multiply by 31 and add, modulo 2^32 |
| Requests.SendCommand | crates/skeptic-cli/src/connection.rs:1016-1045 | the retry loop computes a round |
| Requests.RoundIsFirstSettledReply | crates/skeptic-cli/src/connection.rs:1016-1045 | a round returns its first reply that is not transient; with five transient ones the last error and the note that it gave up |
| Requests.RespawnCost | crates/skeptic-cli/src/main.rs:1547-1560 | at most two rounds of five connections; the second exactly when the first found no daemon and a new one was started, and then it decides |
| Requests.OsErrorIsExact | crates/skeptic-cli/src/connection.rs:1081-1086 | an error code is matched exactly, in every message that ends in its only code: 11 is not found in 111 |
| Requests.TransientByCode | crates/skeptic-cli/src/connection.rs:1056-1068 | a message without a keyword in front of its final error code is transient exactly when the code is listed, and then it is no unreachable code |
| Requests.TransientByText | crates/skeptic-cli/src/connection.rs:1056-1068 | a message with one of the six texts is transient |
| Requests.UnreachableByCode | crates/skeptic-cli/src/connection.rs:1073-1079 | a message is unreachable exactly when its final code is listed or connecting failed |
| Requests.ConnectFailureIsUnreachable | crates/skeptic-cli/src/connection.rs:1000-1006 | whatever made connecting fail, the message counts as unreachable |
| Requests.RefusalRespawnsAtOnce | crates/skeptic-cli/src/connection.rs:1047-1079 | when the message ends in an unreachable code and has no transient keyword in front of it, the round is not retried against the same daemon and a new one is asked for |
| Batch.RunBatch | crates/skeptic-cli/src/main.rs:1612-1710 | the loop computes the run, and the exit status is non-zero exactly when a recorded result failed |
| Batch.RunOneRecords | crates/skeptic-cli/src/main.rs:1619-1695 | every command leaves one entry, a success exactly when it was understood and the daemon answered with one; otherwise there is an error text |
| Batch.BailIsAPrefix | crates/skeptic-cli/src/main.rs:1625-1695 | with `--bail` the results are the full results cut just after the first failure, and the daemon is left as by a first part of the commands |
| Batch.CutIsAPrefix | crates/skeptic-cli/src/main.rs:1676-1684 | the cut is the shortest prefix that ends in a failure, or everything |
| Batch.OneResultPerCommand | crates/skeptic-cli/src/main.rs:1612-1615 | without `--bail` every non-empty command has one result, in order, and costs at most ten connections |
| Batch.CommandsFollow | crates/skeptic-cli/src/main.rs:1612-1710 | with and without `--bail` there are states from first to last such that each command meets the one its predecessor left, and its result is what the daemon answers there |
| Plugins.FoundIsLast | crates/skeptic-cli/src/plugins.rs:141-143 | a found plugin is the last entry of its name |
| Plugins.FindInMerged | crates/skeptic-cli/src/flags.rs:172-178 | in a merged registry the later list hides the earlier one, name by name |
| Plugins.ResolvedPluginsWithCapability | crates/skeptic-cli/src/plugins.rs:169-182 | the backward scan with a seen-set gives the visible plugins of the capability in registry order |
| Plugins.ResolvedAgreesWithLookup | crates/skeptic-cli/src/plugins.rs:169-182 | a plugin is listed exactly when it is what its own name finds and has the capability; names are distinct, order is kept |
| Plugins.ConfigFile.Upsert | crates/skeptic-cli/src/plugins.rs:663-686 | replaces the entries of the name by the new one at the end, and refuses a field that is no array |
| Plugins.UpsertLookup | crates/skeptic-cli/src/plugins.rs:674-684 | afterwards the name finds the new plugin, every other name finds what it did, and a readable file stays readable |
| Plugins.UpsertTwice | crates/skeptic-cli/src/plugins.rs:674-684 | the update is idempotent and drops exactly the elements of the name |
| Plugins.UpsertKeepsOrder | crates/skeptic-cli/src/plugins.rs:674-684 | the other elements stay in their order and the new one comes last |
| Plugins.UpsertDropsByName | crates/skeptic-cli/src/plugins.rs:674-684 | which elements are there afterwards, by the name each holds |
| Plugins.NamelessIsEmpty | crates/skeptic-cli/src/plugins.rs:22-31 | an element without a name is found under the empty name only |
| ReadTargets.CheckAllowedUrl | crates/skeptic-cli/src/read.rs:523-548 | the loop over the patterns decides by whether one admits the host; no list means no restriction |
| ReadTargets.CheckIsPermitted | crates/skeptic-cli/src/read.rs:565-571 | a URL passes exactly when every non-empty allowlist has a pattern for its host |
| ReadTargets.RedirectCheckAgrees | crates/skeptic-cli/src/read.rs:550-578 | the redirect policy gives the same answer, error included, as the check before a request |
| ReadTargets.SiblingIsMarkdown | crates/skeptic-cli/src/read.rs:603-616 | a page has a Markdown sibling exactly when its path does not end in .md; the sibling's does, and only the path differs |
| ReadTargets.LlmsFileCandidates | crates/skeptic-cli/src/read.rs:663-694 | the two loops compute the candidates |
| ReadTargets.CandidatesDescend | crates/skeptic-cli/src/read.rs:663-694 | every ancestor directory is a candidate, deepest first, none twice, at most one more than there are segments |
| ReadTargets.RootIsLast | crates/skeptic-cli/src/read.rs:673-691 | the last candidate is the file at the root, without query |
| ReadTargets.CandidatesStayOnHost | crates/skeptic-cli/src/read.rs:675-684 | candidates keep scheme, host and port, so they are allowed when the page is |
| ReadPlaces.SiblingIff | crates/skeptic-cli/src/read.rs:603-616 | the sibling on the characters of the path: `/index.md` for the root, else `.md` in place of the final slashes |
| ReadPlaces.SegmentsAre | crates/skeptic-cli/src/read.rs:666-668 | the segments, joined by slashes between slashes, are the path; none holds a slash, first and last are not empty |
| ReadPlaces.CandidatesAre | crates/skeptic-cli/src/read.rs:663-694 | every candidate is the file below some first segments of the page, at the same origin and without query, deepest first and none twice |
| ReadPlaces.NoneIsLeftOut | crates/skeptic-cli/src/read.rs:663-694 | and for every number of first segments there is that candidate |
| ReadPlaces.NothingToDrop | crates/skeptic-cli/src/read.rs:680 | only double slashes inside a path make a candidate's directory lose names at its end |
| ReadPlaces.AdmitsIff | crates/skeptic-cli/src/read.rs:530-542 | a pattern admits its own host, and with `*.` in front the rest of it and every host below, without case |
| ContentTypes.NameIff | crates/skeptic-cli/src/read.rs:476-483 | the name of a content type is what stands in front of the first semicolon, without white space around it, and no other text is |
| ContentTypes.KindsAre | crates/skeptic-cli/src/read.rs:461-514 | which names count as Markdown, as like Markdown, as plain text and as a page |
| ReadFlow.FetchFirstLlmsFile | crates/skeptic-cli/src/read.rs:618-646 | the loop computes the first usable candidate or the error |
| ReadFlow.FetchOptionalLlmsFile | crates/skeptic-cli/src/read.rs:648-661 | the same loop when llms.txt is only a fallback |
| ReadSafety.ReadIsSound | crates/skeptic-cli/src/read.rs:190-364 | for every server: an answer reports a successful response, text/markdown if required, with content made from its body; a request is sent exactly when all allowlists permit its URL; at most segments + 4 requests; which response it reports is ReadAnswers.PageAnswers |
| ReadSafety.OneRequest | crates/skeptic-cli/src/read.rs:216-264 | outside llms mode exactly one request with a caller Accept header, in raw mode, or when the first response is usable |
| ReadSafety.ErrorsAreReal | crates/skeptic-cli/src/read.rs:216-364 | a permitted page is an error exactly when its request fails, or neither its response, nor the sibling, nor the page linked by the nearest llms.txt can be used |
| ReadSafety.LlmsFileIsNearest | crates/skeptic-cli/src/read.rs:618-646 | the llms file comes from the nearest directory that serves one: all deeper candidates were asked, in order, and failed or served HTML |
| ReadAnswers.PageAnswers | crates/skeptic-cli/src/read.rs:216-264 | which answer a permitted page gets, with every field: the first response if usable as it is; else the Markdown sibling; else a first response in plain text; else the linked page; else the first response, or its status as the error |
| ReadAnswers.FileAnswers | crates/skeptic-cli/src/read.rs:270-295 | the same for the llms modes: the file of the nearest directory that serves one, or the first error on the way, or the last status |
| ReadAnswers.TargetIff | crates/skeptic-cli/src/read.rs:143-171 | the page to read: the trimmed text, behind `https://` when it names no scheme, if that is an http or https URL with a host; without fragment |
| LlmsLinks.ParseItem | crates/skeptic-cli/src/read.rs:702-734 | the cursor loop over one list item finds the links of the item and ends; which they are is LlmsItems.ItemLists |
| LlmsLinks.ParseLlmsLinks | crates/skeptic-cli/src/read.rs:696-737 | the links of all list items in document order; which lines are items is LlmsItems.ItemTextIff |
| LlmsItems.ItemLists | crates/skeptic-cli/src/read.rs:702-734 | the scan lists exactly the links that stand in an item, in order: from a `[` that no `!` precedes over the nearest `](` to the nearest `)`, with trimmed title and first word as reference |
| LlmsItems.SpansAreUnique | crates/skeptic-cli/src/read.rs:702-734 | a line has its links at one list of places only |
| LlmsItems.ListedComesFrom | crates/skeptic-cli/src/read.rs:704-729 | every listed link comes from a `[` that is first or not preceded by `!`, with its `](` and `)` behind |
| LlmsItems.ImageHasNoLinks | crates/skeptic-cli/src/read.rs:705-708 | an image, for every text and target without `[`, and text around it without one, lists nothing |
| LlmsItems.ItemTextIff | crates/skeptic-cli/src/read.rs:766-779 | a line is a list item with this text exactly when it is white space, a bullet or numbered marker, and the text |
| LlmsLinks.BulletIsRead | crates/skeptic-cli/src/read.rs:766-772 | the three bullet markers are list items |
| LlmsLinks.NumberIsRead | crates/skeptic-cli/src/read.rs:774-778 | so are digits followed by a dot or parenthesis and a space |
| LlmsLinks.FormatLlmsIndex | crates/skeptic-cli/src/read.rs:844-866 | prints the deduplicated, filtered links; without any, the note or the normalized body |
| LlmsItems.ListedIsParsed | crates/skeptic-cli/src/read.rs:781-866 | every listed link is a parsed one that passes the filter |
| LlmsItems.ParsedIsListed | crates/skeptic-cli/src/read.rs:781-866 | and of every parsed link that passes, one with the same title up to case and the same URL is listed |
| LlmsRoundTrip.IndexLinksAreParsed | crates/skeptic-cli/src/read.rs:696-791 | listed links have clean titles and resolved URLs, and no two share title and URL up to case of the title |
| LlmsRoundTrip.PrintedIndexReadsBack | crates/skeptic-cli/src/read.rs:696-866 | re-reading the printed index of any body, filtered or not, gives exactly the listed links if no URL has a closing parenthesis or ends in an angle bracket, and only then, unless a parenthesis in front of a path meets a list item behind one |
| LlmsRoundTrip.IndexOfIndex | crates/skeptic-cli/src/read.rs:844-866 | with such URLs the index of the printed index lists the same links |
| LlmsExceptions.ParenthesisBreaksIt | crates/skeptic-cli/src/read.rs:714-729 | a relative link in a directory with a parenthesis is read back as a link to the piece in front of it, for every such directory and name |
| LlmsExceptions.BracketBreaksIt | crates/skeptic-cli/src/read.rs:719-724 | an absolute URL given with two brackets at its end is listed with one and read back with none |
| LlmsExceptions.ItemBehindSurvives | crates/skeptic-cli/src/read.rs:714-733 | a link whose URL has a parenthesis is read back all the same when its first piece resolves to nothing and the item behind it is the link itself |
| LlmsExceptions.ItemBehindExists | crates/skeptic-cli/src/read.rs:714-733 | there are such links, for every title and name without white space |
| Dedup.FirstsKeepKeys | crates/skeptic-cli/src/read.rs:781-791 | no key is lost when duplicates are removed |
| Dedup.FirstsPick | crates/skeptic-cli/src/read.rs:781-791 | what is kept keeps its order, and the first element stays |
| StripTags.FindOpenTag | crates/skeptic-cli/src/read.rs:1074-1091 | the loop that jumps over partial names still finds the first open tag with exactly this name |
| StripTags.StripTagBlock | crates/skeptic-cli/src/read.rs:1052-1072 | the loop keeps the pieces between the blocks; the cursor grows |
| StripTags.StrippedIsThePartition | crates/skeptic-cli/src/read.rs:1052-1072 | kept and removed pieces in turn are the input; each removed piece runs from an open tag to the first close tag behind its `>` or to the end; no open tag starts in a kept piece |
| StripTags.BlocksAreUnique | crates/skeptic-cli/src/read.rs:1052-1072 | only one partition is like that |
| StripTags.OpenIff | crates/skeptic-cli/src/read.rs:1074-1091 | an open tag on the characters of the text: `<`, the name in any case, and one of seven characters or the end |
| Entities.DecodeHtmlEntities | crates/skeptic-cli/src/read.rs:1140-1171 | the nested loops compute the decoding |
| Entities.EntityDecodes | crates/skeptic-cli/src/read.rs:1173-1189 | every named, decimal and hexadecimal reference to a scalar decodes to it within the 16-byte limit |
| Entities.DecodeOfEscape | crates/skeptic-cli/src/read.rs:1140-1189 | decoding undoes escaping, for every text and every choice of reference per character |
| EntityText.EntityIff | crates/skeptic-cli/src/read.rs:1173-1189 | exactly which entities mean which character: six names, and numbers with leading zeros, a plus sign and digits of either case |
| EntityText.AmpersandDecodes | crates/skeptic-cli/src/read.rs:1149-1168 | any `&` and the entity behind it become that character, or stay as they are; a semicolon behind either is dropped |
| EntityText.PlainStays | crates/skeptic-cli/src/read.rs:1143-1147 | text without `&` stays as it is |
| Normalize.NormalizeMarkdownish | crates/skeptic-cli/src/read.rs:1191-1219 | the loop computes the normal form; what each of its lines is, is NormalizeLines.OutputLines |
| Normalize.NormalizeIdempotent | crates/skeptic-cli/src/read.rs:1191-1219 | normalizing twice is normalizing once, for every text |
| Normalize.NormalizedIsWellSpaced | crates/skeptic-cli/src/read.rs:1207-1218 | no two adjacent blank lines, none at the start or the end |
| Normalize.SecondPassSeesSameFences | crates/skeptic-cli/src/read.rs:1194-1205 | output lines are cleaned input lines in order, and a second pass meets the same fence state at each |
| NormalizeWords.NormalizeKeepsWords | crates/skeptic-cli/src/read.rs:1191-1219 | the words of the text and their order are kept |
| NormalizeLines.OutputLines | crates/skeptic-cli/src/read.rs:1191-1219 | which input line each output line is: inside a fence the line less trailing white space, outside its words joined by single spaces; blank lines stay exactly between two lines with text |
| NormalizeLines.OutputIsItsLines | crates/skeptic-cli/src/read.rs:1191-1219 | the output is those lines joined, and they are its lines |
| Sections.HeadingIsRead | crates/skeptic-cli/src/read.rs:931-956 | a printed heading is read back if and only if it has at most six hash signs and the title does not end in one |
| SectionText.HeadingIff | crates/skeptic-cli/src/read.rs:931-956 | a line is a heading with this level and title exactly when it is white space, one to six hash signs, white space, the title, and possibly hash signs at the end |
| SectionText.MatchIff | crates/skeptic-cli/src/read.rs:901-913 | a heading matches when the filter stands in its title, without case |
| Sections.CaptureSections | crates/skeptic-cli/src/read.rs:900-921 | sections start at matching headings, end at the next heading of the same or a smaller level or the end, are disjoint and in order, and cover every matching heading |
| Sections.InOneSection | crates/skeptic-cli/src/read.rs:910-921 | a line lies in at most one section |
| Sections.CaptureIsUnique | crates/skeptic-cli/src/read.rs:910-921 | a page has only one such list of sections |
| Sections.FilterPageSections | crates/skeptic-cli/src/read.rs:900-929 | prints the trimmed sections, or falls back without any |
| SectionText.TextIsOfLines | crates/skeptic-cli/src/read.rs:915-921 | the text of a section is that of its lines, from its heading to its end, but for white space around it |
| ArgScan.ParseFlags | crates/skeptic-cli/src/flags.rs:620-1026 | the scan loop gives every token its role and makes the assignments in order; which they are is ArgEvents.EventsOfParse |
| ArgEvents.RolesOfParse | crates/skeptic-cli/src/flags.rs:620-1026 | what each token is, told from the tokens: an operand exactly when the flag in front takes it |
| ArgEvents.RolesAreUnique | crates/skeptic-cli/src/flags.rs:620-1026 | the tokens determine the roles |
| ArgEvents.EventsOfParse | crates/skeptic-cli/src/flags.rs:620-1026 | which assignments are made, in order: a switch is off exactly when `false` follows, a flag with a value gets exactly the next token and nothing when last, --restore its key exactly when it takes one |
| ArgScan.CleanArgs | crates/skeptic-cli/src/flags.rs:1045-1165 | the loop with `skip_next` keeps what the specification keeps |
| ArgScan.ExtractConfigPath | crates/skeptic-cli/src/flags.rs:242-292 | the index loop computes the path after the first --config |
| ArgScan.CleanAgreesWithParse | crates/skeptic-cli/src/flags.rs:1045-1165 | a token stays if and only if `parse_flags` takes it for a word and it is no extra drop |
| ArgScan.ExtractFindsFirstVisited | crates/skeptic-cli/src/flags.rs:242-292 | finds exactly the first --config that `parse_flags` visits, and what follows it |
| ArgScan.CleanIsFinal | crates/skeptic-cli/src/flags.rs:1045-1165 | cleaning is idempotent; on cleaned arguments `parse_flags` assigns nothing and there is no --config |
| FlagTables.ScannersAgree | crates/skeptic-cli/src/flags.rs:244-283 | the three scanners' own lists classify alike in the sense those results need |
| FlagTables.ExtraSwitchesListed | crates/skeptic-cli/src/flags.rs:1050-1072 | exactly seven switches are known to `clean_args` alone |
| FlagTables.ProgramScannersKeepStep | crates/skeptic-cli/src/flags.rs:620-1165 | the three results, the returned path included, for the program's own lists and every argument vector |
| ShellWords.ShellWordsSplit | crates/skeptic-cli/src/commands.rs:3114-3143 | the loop computes the split |
| ShellWords.SplitOfCommandLine | crates/skeptic-cli/src/commands.rs:3114-3143 | splitting a quoted command line gives back the arguments without the empty ones, for each quoting style per argument |
| ShellWords.RoundTripIffNoEmptyArgument | crates/skeptic-cli/src/commands.rs:3126-3131 | the round trip is exact if and only if no argument is empty |
| ShellGrammar.SplitIs | crates/skeptic-cli/src/commands.rs:3114-3143 | the words of every line of tokens: bare and escaped characters, parts in either quotes, gaps, and an unclosed quote or lone backslash at the end |
| ShellGrammar.EveryLineReads | crates/skeptic-cli/src/commands.rs:3114-3143 | and every text is such a line |
| Cookies.ParseCookieHeader | crates/skeptic-cli/src/commands.rs:300-315 | the loop computes the pairs, or the error without any |
| Cookies.MatchQuotedArg | crates/skeptic-cli/src/commands.rs:245-298 | the nested loops compute the scan; the position grows in every turn |
| Cookies.FoundIsQuoted | crates/skeptic-cli/src/commands.rs:245-298 | a returned value is a qualifying quoted argument of the flag, standing as a word of its own |
| Cookies.FoundIff | crates/skeptic-cli/src/commands.rs:245-298 | which argument is returned: exactly the first qualifying one that is reached by passing over refused and bare ones |
| Cookies.NothingIff | crates/skeptic-cli/src/commands.rs:245-298 | none is returned exactly when, passing over such arguments, the scan runs out of flags or meets one with nothing or an unclosed quote behind it |
| Cookies.UnclosedQuoteHides | crates/skeptic-cli/src/commands.rs:281-283 | an unclosed quote in front hides every argument that would qualify behind it |
| CookieText.PieceIff | crates/skeptic-cli/src/commands.rs:302-310 | a piece is a cookie exactly when it is a non-empty name up to the first `=` and a value, with white space around both |
| CookieText.HeaderIff | crates/skeptic-cli/src/commands.rs:286-294 | an argument counts as the header and gives its value exactly when it starts with the name, without case, and a colon |
| CookieText.SpaceIff | crates/skeptic-cli/src/commands.rs:255-272 | the white space that separates arguments is the ASCII part of `char::is_whitespace` without the vertical tab |
| CookieText.SourceIff | crates/skeptic-cli/src/commands.rs:230-239 | the Cookie header comes before `-b`, and `-b` before `--cookie`, wherever they stand |
| CookieText.PastedText | crates/skeptic-cli/src/commands.rs:179-217 | what is taken for nothing, for JSON, for a curl command and for a bare header |
| Cookies.HeaderRoundTrip | crates/skeptic-cli/src/commands.rs:300-315 | a printed Cookie header pasted as it is parses back |
| CurlCommands.LinesAreJoined | crates/skeptic-cli/src/commands.rs:223-229 | the continuations of either shell between the arguments become spaces, and nothing else changes in front of what follows |
| CurlCommands.CurlRoundTrip | crates/skeptic-cli/src/commands.rs:179-315 | cookies printed into a curl command, behind any words and other headers, on continued lines and in front of any text, parse back to the same cookies |

## Left out

- Sockets, signals, clocks, sleeps and spawning: abstract steps whose outcome is an arbitrary choice. Waiting loops with a deadline may go on or give up at any turn; the poll loop has its fifty turns.
- Windows: the `.port` and `.token` files and the TCP transport; the port function is included.
- Start-up checks of `ensure_daemon` that only fail (socket path length, writable directory) are one refusing choice; the texts of its errors are not modelled. The shutdown request has no effect of its own, since a daemon may exit at any moment.
- Writes of sidecar files are single steps: a reader never meets the moment at which a `.pid` or `.config` file is truncated and not yet filled.
- The empty session name: its `.pid` file is skipped by the walk and does not count as registered.
- SocketDir.SocketDirectory.WalkDaemons: liveness is held fixed and nobody else touches the directory meanwhile; the interleaved walk is part of the state machine.
- Port.GetPortForSession: the namespace prefix of the name is taken as part of the name.
- Requests: the read timeout, and how a connection fails; a connection is an arbitrary function of the daemon's state.
- Batch: printing without `--json`, reading the commands from standard input, and what is attached to a command before it is sent.
- ReadFlow: HTTP, TLS, redirects themselves, header contents and the body limit; a fetch is an arbitrary function of the requests before it. `parse` stands for the URL parser. `set_path` is modelled for paths built from parsed ones, where it only supplies the leading slash. The choice of an llms.txt link for a page (`find_llms_link_for_target`) is an arbitrary function.
- LlmsRoundTrip.PrintedIndexReadsBack: `join` is any function; of the listed URLs alone it is required that they start with a letter, have no white space, resolve to themselves, and that what is left of one after the parser's cut does not resolve to it again. The final URL parses and has no line break.
- HTML tags themselves (`html_to_markdownish`, `handle_html_tag`), outlines and `filter_markdown_sections`.
- `parse_flags`: the treatment of single values (numbers, lists, lower-casing), environment and configuration precedence, and its early exits; events hold the raw tokens.
- Cookies: the JSON input format. Lower-casing is ASCII, and the input is read by scalars.
- CurlCommands.CurlRoundTrip: arguments in front are words without white space other than `-H`, and `-H` with a quoted header on one line; a quoted argument with spaces counts as several words. Gaps are spaces and line continuations, no tabs. The header is written `cookie: `; Cookies.FoundIff covers any other form.
- The per-command JSON of `parse_command`, help and printing, installation, skills and code generation: wide, and settled branch by branch.
