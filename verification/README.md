# Paqto: a Dafny model of the session layer

Paqto is an asyncio peer-to-peer session layer. Its correctness rests on hand-written state
machines over mutable tables, interleaved at every await. This project models those machines and
proves what every run of them keeps.

Verify everything with `dafny verify dfyconfig.toml`.

## How the model is built

* **Critical sections.** No lock body of the connection manager contains an await, so each is one
  atomic step. It appears twice: as a pure function on the tables, and as a method of a class that
  updates the same dictionaries in place and ensures exactly that function.
* **Runs.** A module ending in `Runs` (and the writer, the listener and simultaneous open) folds
  such steps over any sequence of enabled events. One event is the code between two suspensions.
  Timeouts, cancellation and connection failures are events the environment may insert anywhere.
  The main lemmas hold after every run from the initial state.
* **Answers.** Beside what runs keep, lemmas named after an operation (`...Answers`, `...IsExact`,
  `...Settles`) say on arbitrary tables or bytes what it answers and what it leaves alone.
* **Connections** are identities with a one-way closed flag, raised before `close` first suspends.
* **Text codecs.** JSON text is a pair of functions of which only this is asked: what is parsed is
  what was dumped, with keys as their text, and the text of a safe value parses. The refusal of
  repeated names is derived from the duplicate test. Base64 is defined from RFC 4648.

| file | part of Paqto |
|---|---|
| `ManagerTables`, `Manager`, `ManagerRuns`, `ManagerStates` | canonical connections, single-flight setup, `close_peer`, `close_all`, reported states |
| `SessionTables`, `Sessions`, `SimultaneousOpen` | READY-session dictionaries, duplicate selection, two nodes dialling each other |
| `SessionOwnership` | the READY registry and the manager of one node together |
| `Correlation`, `CorrelationRuns` | pending requests and technical ACKs |
| `Writer`, `Reader` | the two loops of a READY connection |
| `Protocol`, `Negotiation`, `Json` | frames, hello, the session both ends derive, JSON limits |
| `Framing`, `Listener`, `Discovery` | LAN transport: length framing, accept hand-off, announcement cache |
| `Base64`, `Backoff` | bytes serializer, reconnect policy and loop |

## What the code does not do

Where a stated promise fails, the code is modelled as it is, a concrete input or run shows the
failure, and the exact condition is proved.

* A `close_peer` cancelled while it awaits the setup task forgets the connection it took out of the
  table (`ManagerRuns.CancelledClosePeerLeaks`, `ManagerRuns.ClosePeerClosesUnlessCancelled`).
* Sending does not ask whether the node runs, so a connection that becomes READY after `stop` can
  hold a pending ACK (`CorrelationRuns.LateSessionPends`, `CorrelationRuns.StoppedNodePendsIff`).
* A setup task or an adoption that resumes late may displace a healthy session
  (`SessionOwnership.StaleSetupClosesSession`, `SessionOwnership.StaleSetupIff`;
  `SessionOwnership.StaleAdoptionTakesSession`, `SessionOwnership.StaleAdoptionIff`).
* `maximum_delay` is documented as the maximum delay between attempts, but jitter is applied after
  the cap (`Backoff.FortyExceedsThirty`, `Backoff.MaximumIsHonouredIff`).
* The state diagram of `docs/reliability.md` draws ten transitions, all of which happen, and thirteen
  more happen undrawn: `ManagerStates.MISSING` lists them, `ManagerStates.TransitionsAreExact` and
  `ManagerStates.DiagramIsIncomplete` prove it, each with a run.
* Two overlapping `close_all` calls would break the manager's tables
  (`ManagerTables.OverlappingCloseAllBreaks`, `ManagerTables.EndCloseAllConsistentIff`); the node's
  lifecycle lock rules them out.
* Metadata with a number and a string key of the same text is accepted and encoded by one end and
  refused by the other (`Protocol.MixedKeysAreRefused`, `Protocol.HelloRoundTrip`).

One promise has a limit that the code itself names. Duplicates in one direction keep the first READY
session, and the two ends may disagree on which was first. So a node should dial a peer again only
when its earlier connection is gone at the other end too. Then exactly one connection survives
(`SimultaneousOpen.ExactlyOneSurvives`). Otherwise the newer one may lose to a half-open predecessor
(`SimultaneousOpen.HalfOpenPredecessorWins`, `SimultaneousOpen.PreferredLosesIff`), or each end may
close what the other one kept (`SimultaneousOpen.EarlyRedialsKillEachOther`).

## Model

| member | source | states |
|---|---|---|
| ManagerTables.ApplyKeepsConsistentIff | src/paqto/core/manager.py:46-263 | on any consistent tables every critical section keeps: connections exactly for the peers in state CONNECTED, nothing for a closing peer, nothing at all while closing; the end of `close_all` alone does so exactly when it overwrites no connected peer |
| ManagerTables.ApplyKeepsConsistent | src/paqto/core/manager.py:46-263 | with `close_all` calls serialised every critical section keeps those rules |
| ManagerTables.ConnectAnswers | src/paqto/core/manager.py:97-121 | on any tables `connect` refuses exactly while closing, and otherwise answers with the open connection, else the setup under way, else a new one |
| ManagerTables.AdoptAnswers | src/paqto/core/manager.py:126-138 | an adoption is refused exactly while closing, and otherwise hands back exactly the other connection the peer had |
| ManagerTables.RemovalAnswers | src/paqto/core/manager.py:140-158 | `connection_lost` answers true exactly for the canonical connection; `close_peer` takes exactly the entries that are there |
| ManagerTables.StateAnswers | src/paqto/core/manager.py:56-62 | CONNECTED is reported exactly for an open connection, the stored state without one, DISCONNECTED for a closed one or none stored |
| ManagerTables.TablesRefineAutomata | src/paqto/core/manager.py:46-263 | the shared tables are one independent automaton per peer: a call moves exactly the peers it names, and no call leaks into another peer |
| ManagerTables.ReapSettles | src/paqto/core/manager.py:46-54 | looking a peer up forgets exactly a closed connection of that peer and turns that peer, and no other, DISCONNECTED |
| ManagerTables.FinishRefines | src/paqto/core/manager.py:253-261 | the cleanup of a setup task clears only its own flight and sets the final state by the outcome and by whether the peer is closing |
| ManagerTables.CloseAllRefines | src/paqto/core/manager.py:173-198 | both sections of `close_all` act on each peer as the per-peer automaton says |
| ManagerTables.EndCloseAllConsistentIff | src/paqto/core/manager.py:194-198 | the end of a `close_all` keeps the rules exactly when none of the peers it overwrites has a connection |
| ManagerTables.OverlappingCloseAllBreaks | src/paqto/core/manager.py:171-198 | a concrete pair of overlapping `close_all` calls that violates that condition and breaks the tables |
| Manager.ConnectionManager.constructor | src/paqto/core/manager.py:33-40 | a new manager has empty, consistent tables |
| Manager.ConnectionManager.GetById | src/paqto/core/manager.py:46-54 | updates the dictionaries as the lookup section does and never returns a closed connection |
| Manager.ConnectionManager.State | src/paqto/core/manager.py:56-62 | reports the logical state, forgetting a closed connection on the way |
| Manager.ConnectionManager.MarkReconnecting | src/paqto/core/manager.py:64-73 | marks only a peer that is neither closing nor connected |
| Manager.ConnectionManager.MarkDisconnected | src/paqto/core/manager.py:75-80 | marks only a peer without a usable connection that is not closing |
| Manager.ConnectionManager.Connect | src/paqto/core/manager.py:97-121 | refuses exactly while closing, reuses an open connection, joins the flight, or starts the only one |
| Manager.ConnectionManager.Adopt | src/paqto/core/manager.py:126-138 | installs the connection and hands back the one it replaced, or refuses while closing |
| Manager.ConnectionManager.ConnectionLost | src/paqto/core/manager.py:140-149 | forgets a connection only when it is still the canonical one |
| Manager.ConnectionManager.BeginClosePeer | src/paqto/core/manager.py:151-158 | takes the peer's task and connection out of the tables and blocks the peer |
| Manager.ConnectionManager.EndClosePeer | src/paqto/core/manager.py:165-169 | unblocks the peer and ends at CLOSED unless something came back |
| Manager.ConnectionManager.BeginCloseAll | src/paqto/core/manager.py:171-186 | empties the tables, marks every known peer CLOSING and returns all tasks and connections |
| Manager.ConnectionManager.EndCloseAll | src/paqto/core/manager.py:194-198 | marks exactly the remembered peers CLOSED and lowers every flag |
| Manager.ConnectionManager.FinishTask | src/paqto/core/manager.py:253-261 | the last section of a setup task, on the dictionaries |
| ManagerRuns.RunsKeepInv | src/paqto/core/manager.py:46-263 | the joint invariant of tables, setup tasks, callers, closers and connection ownership survives any interleaving |
| ManagerRuns.TablesAgreeInEveryRun | src/paqto/core/manager.py:46-263 | in every reachable state: CONNECTED exactly for peers with a connection, nothing for closing peers, both maps empty during `close_all` |
| ManagerRuns.SingleFlight | src/paqto/core/manager.py:82-124 | at most one uncancelled unfinished setup task per peer, and each task dials at most once |
| ManagerRuns.ConnectCallsAreAnswered | src/paqto/core/manager.py:97-124 | in every run a call is rejected exactly while closing, gets the open connection at once, or waits for the one setup under way, which it starts only if there is none |
| ManagerRuns.PreparedConnectionIsUsed | src/paqto/core/manager.py:221-242 | a setup goes on with the connection `prepare` chose, closes its own when that is another one, and makes its choice canonical |
| ManagerRuns.ResumedSetupKeepsChoice | src/paqto/core/manager.py:225-242 | resumed after any close, a setup still installs or returns what it chose, and a failed one ends by raising |
| ManagerRuns.FailedSetupCleansUp | src/paqto/core/manager.py:243-263 | a setup whose await raised, or whose peer closed meanwhile, closes what it dialled, if that is open, and then ends by raising |
| ManagerRuns.EnteringClosePeer | src/paqto/core/manager.py:151-162 | `close_peer` takes the peer out of both maps, cancels exactly its setup and waits for it, or without one closes the connection it took at once |
| ManagerRuns.LeavingClosePeer | src/paqto/core/manager.py:160-169 | after the setup it closes what it took, and however it ends it unblocks the peer |
| ManagerRuns.ClosingAll | src/paqto/core/manager.py:171-198 | `close_all` takes everything out, cancels exactly the setups in flight, closes what it took, and lowers the flags at its end |
| ManagerRuns.HandingBack | src/paqto/core/manager.py:126-149 | `adopt` and `connection_lost` hand exactly the connection the manager lets go of back to their caller |
| ManagerRuns.SetupLeaksNothing | src/paqto/core/manager.py:200-263 | an ended setup task, cancelled or failed at any await, has closed what it dialled unless it made it canonical, and has closed what it displaced |
| ManagerRuns.OutcomesAreFinal | src/paqto/core/manager.py:200-263 | the outcome of an ended setup task never changes |
| ManagerRuns.WaitsEnd | src/paqto/core/manager.py:121-124 | a waiting caller gets the outcome of its own task, or gives up, and touches nothing else |
| ManagerRuns.CallersShareTheOutcome | src/paqto/core/manager.py:97-124 | all callers served by a shared task get the same outcome, whatever happens between them |
| ManagerRuns.GivingUpIsPrivate | src/paqto/core/manager.py:123-124 | noninterference: deleting every cancelled wait from any run leaves a run that ends with the same tables, tasks, closers, closed connections and records of all other callers |
| ManagerRuns.NothingIsLost | src/paqto/core/manager.py:82-263 | at rest every connection ever held is closed, canonical, returned to a caller, or dropped by a cancelled `close_peer` |
| ManagerRuns.ClosePeerClosesUnlessCancelled | src/paqto/core/manager.py:151-169 | `close_peer` closes the connection it took exactly when it is not cancelled before the setup task ends |
| ManagerRuns.OnlyCancelledClosersDrop | src/paqto/core/manager.py:151-169 | no other step drops an open connection |
| ManagerRuns.UncancelledRunsLoseNothing | src/paqto/core/manager.py:82-263 | in a run without a cancelled `close_peer`, at rest every connection ever held is closed, canonical or returned to a caller |
| ManagerRuns.CancelledClosePeerLeaks | src/paqto/core/manager.py:151-169 | a concrete run that leaves an open connection nobody owns |
| ManagerStates.RunsKeepStates | src/paqto/core/manager.py:46-263 | in every run CONNECTING comes with a setup in flight, CLOSING with a close in progress that will reach the peer |
| ManagerStates.OnlyEdgesHappen | src/paqto/core/manager.py:56-62 | no event of any run takes a peer's reported state along anything but the listed transitions |
| ManagerStates.EveryEdgeHappens | src/paqto/core/manager.py:56-62 | each listed transition is made by a run given for it |
| ManagerStates.TransitionsAreExact | src/paqto/core/manager.py:46-263 | a transition of the reported state happens in some run exactly when it is listed |
| ManagerStates.DiagramIsIncomplete | docs/reliability.md:13-25 | every drawn transition happens, and exactly thirteen others happen undrawn |
| SessionTables.LessIsTotal | src/paqto/core/node.py:1095-1099 | the peer-id order that decides duplicates is a strict total order |
| SessionTables.LessIsLexicographic | src/paqto/core/node.py:1095-1099 | one id is below another exactly when it ends, or has the smaller character, where they first differ, whatever their lengths |
| SessionTables.RegisterKeepsBijective | src/paqto/core/node.py:1956-1969 | registering a new connection for a peer without a session keeps sessions and peers one to one |
| SessionTables.DeactivateKeepsBijective | src/paqto/core/node.py:1998-2009 | deactivating keeps sessions and peers one to one and touches no other peer |
| SessionTables.BijectiveSelect | src/paqto/core/node.py:1068-1110 | selection keeps the tables one to one, never fails its direction lookup, returns what the tables hold, and changes only its peer |
| SessionTables.SelectionIsExact | src/paqto/core/node.py:1080-1110 | the whole answer: no session with oneself, a peer without an open session gets the new one, and a new one wins over another exactly when it alone was dialled by the smaller id |
| SessionTables.HistoriesStayBijective | src/paqto/core/node.py:1956-2009 | after any history of READY, end, close and stop events the four tables are one to one |
| SessionTables.EventsTakeEffect | src/paqto/core/node.py:1956-2009 | each event of a history does what it is for: READY leaves an open session, an end and a stop remove it, nothing reopens a connection |
| SessionTables.OneReadyConnectionPerPeer | src/paqto/core/node.py:1934-1954 | two READY connections of one peer are the same, so the ambiguous-reply branch is dead |
| SessionTables.SelectionPicksTheWinner | src/paqto/core/node.py:1084-1110 | over any sequence of open connections the canonical one is the first READY in the preferred direction, else the first, and each other one is loser exactly once |
| SessionTables.FoldOnto | src/paqto/core/node.py:1091-1110 | the same on top of a session already chosen |
| Sessions.NodeSessions.constructor | src/paqto/core/node.py:436-439 | a stopped or new node starts from empty one-to-one tables |
| Sessions.NodeSessions.RegisterSession | src/paqto/core/node.py:1956-1969 | publishes the session in all four dictionaries |
| Sessions.NodeSessions.DeactivateSession | src/paqto/core/node.py:1998-2009 | removes it from all of them, the peer entry only when it is this connection |
| Sessions.NodeSessions.SelectReadyConnection | src/paqto/core/node.py:1068-1110 | the in-place selection equals the specified one and keeps the bijection |
| SimultaneousOpen.RunsKeepInv | src/paqto/core/node.py:1068-1123 | two ends that dial at any time, with READY events, closes and failures in any order, keep the joint invariant |
| SimultaneousOpen.EventsTakeEffect | src/paqto/core/node.py:1068-1145 | each event does what it stands for at its own end and nothing at the other |
| SimultaneousOpen.SmallerSideWins | src/paqto/core/node.py:1094-1110 | where the smaller node redials only after its earlier connections are gone at an end, its open connection never loses at that end and is canonical there from READY on |
| SimultaneousOpen.ExactlyOneSurvives | src/paqto/core/node.py:1068-1123 | when nothing fails and each node redials only once its earlier connections are closed at both ends, two settled nodes of which one has dialled hold one and the same open connection, the smaller node's if it dialled, and every other one is closed at both ends |
| SimultaneousOpen.SmallerSurvives | src/paqto/core/node.py:1094-1110 | a connection of the smaller node that does not fail is never closed by either end and is what settled nodes hold, whatever else fails and however the larger node dials |
| SimultaneousOpen.LoneDiallerSurvives | src/paqto/core/node.py:1084-1110 | the same for the larger node's connection while the smaller node has not dialled |
| SimultaneousOpen.SettledNodesAgree | src/paqto/core/node.py:1068-1123 | at most one, in any run: settled nodes hold the same connection or none, and whatever is still open is what they hold |
| SimultaneousOpen.EarlyRedialsKillEachOther | src/paqto/core/node.py:1106-1110 | for either dialling node a concrete failure-free run of overlapping redials after which both ends hold nothing |
| SimultaneousOpen.PreferredLosesIff | src/paqto/core/node.py:1084-1110 | in a reachable net an event makes a connection of the smaller node lose exactly when it is its own READY, while open, at an end that still holds an earlier one of the smaller node |
| SimultaneousOpen.HalfOpenPredecessorWins | src/paqto/core/node.py:1091-1110 | a concrete run in which the redialled connection of the smaller node loses |
| SessionOwnership.RunsKeepInv | src/paqto/core/node.py:890-970 | registry, manager, setups and adoptions of one node, interleaved at their awaits, keep the joint invariant |
| SessionOwnership.CanonicalIsSessionOrLeaving | src/paqto/core/node.py:930-970 | in every run the manager's canonical connection is the peer's READY session, or closed, or being torn down |
| SessionOwnership.EveryReadyIsSessionOrLeaving | src/paqto/core/node.py:890-970 | in every run each connection that ever became READY is its peer's one session, or closed, or being torn down, so no loser stays open |
| SessionOwnership.OutboundGoesOn | src/paqto/core/node.py:890-928 | a dialled connection that became READY waits for a loser to close, has installed the peer's session, or was refused on a closing peer and is closed |
| SessionOwnership.InboundGoesOn | src/paqto/core/node.py:930-970 | an inbound one waits to be adopted, is what the manager holds, or is closed and no session |
| SessionOwnership.SetupSettles | src/paqto/core/manager.py:227-240 | a resumed setup closes what it dialled exactly on a closing peer, and otherwise installs its selection and closes what that displaced |
| SessionOwnership.AdoptionSettles | src/paqto/core/node.py:959-970 | the check that ends an adoption keeps the connection only as its peer's session; otherwise it is closed and the manager no longer holds it |
| SessionOwnership.TearingSettles | src/paqto/core/node.py:1112-1123 | a torn down connection is closed and forgotten by the manager, which keeps every other connection |
| SessionOwnership.EndingSettles | src/paqto/core/node.py:1125-1145 | an ended session leaves the registry to be torn down; closing a peer blocks it and closes what the manager held |
| SessionOwnership.StaleSetupIff | src/paqto/core/manager.py:227-240 | on an open peer a resumed setup installs the session exactly when its selection is still registered, and closes a healthy session exactly when it is not and the manager holds the successor; on a closing peer it closes what it dialled |
| SessionOwnership.StaleAdoptionIff | src/paqto/core/node.py:949-959 | an adoption resumed after retiring its loser takes down a healthy session exactly when it is no longer registered itself and the manager holds another session, or when the peer is closing and the session is its own |
| SessionOwnership.StaleSetupClosesSession | src/paqto/core/manager.py:227-240 | a concrete run whose resumed setup closes a healthy READY session |
| SessionOwnership.StaleAdoptionTakesSession | src/paqto/core/node.py:949-959 | a concrete run whose resumed adoption takes down a healthy READY session |
| CorrelationTables.ReplyIsExact | src/paqto/core/node.py:1848-1863 | a reply completes a waiting request exactly when id, connection object and peer match, and then removes it |
| CorrelationTables.AckIsExact | src/paqto/core/node.py:1874-1888 | the same for technical ACKs |
| CorrelationTables.FailIsExact | src/paqto/core/node.py:1890-1899 | losing a connection fails and removes exactly the requests on it |
| CorrelationTables.FailIsExactForAcks | src/paqto/core/node.py:1900-1907 | and exactly the ACK waiters on it |
| CorrelationTables.ReleaseIsExact | src/paqto/core/node.py:799-804 | an owner that ends takes out exactly its own request, by id and future, and cancels its future only when unfinished |
| CorrelationTables.ReleaseIsExactForAcks | src/paqto/core/node.py:1840-1846 | the same for an ACK owner |
| CorrelationTables.AddIsExact | src/paqto/core/node.py:758-775 | a request is refused exactly for a pending id or a full table; otherwise that id alone is added, waiting on the new future |
| CorrelationTables.AddIsExactForAcks | src/paqto/core/node.py:1796-1820 | the same for an ACK |
| CorrelationTables.ResolutionIsLocal | src/paqto/core/node.py:1848-1888 | a frame takes out exactly the entry it answers, even one whose owner gave up, and changes no other future |
| CorrelationTables.StopIsExact | src/paqto/core/node.py:1909-1920 | stop empties both tables and fails exactly the waiters that were still pending in them |
| Correlation.PendingTables.SetFutureError | src/paqto/core/node.py:1922-1932 | fails a future unless it is already done |
| Correlation.PendingTables.ResolveReply | src/paqto/core/node.py:1848-1863 | the in-place form, popping before completing |
| Correlation.PendingTables.ResolveAcknowledgement | src/paqto/core/node.py:1874-1888 | the in-place form for ACKs |
| Correlation.PendingTables.FailRequestsOn | src/paqto/core/node.py:1892-1898 | the loop over a copy of the requests removes and fails exactly those of the connection |
| Correlation.PendingTables.FailAcksOn | src/paqto/core/node.py:1899-1907 | the loop over a copy of the ACK waiters |
| Correlation.PendingTables.FailPendingForConnection | src/paqto/core/node.py:1890-1907 | both loops together are the connection cleanup |
| Correlation.PendingTables.FailFutures | src/paqto/core/node.py:1914-1920 | one loop of the stop cleanup fails exactly the unfinished futures it is given |
| Correlation.PendingTables.FailAllPending | src/paqto/core/node.py:1909-1920 | empties both tables and fails every waiter |
| Correlation.PendingTables.ReleaseRequest | src/paqto/core/node.py:799-804 | an owner drops only its own entry and cancels its own unfinished future |
| Correlation.PendingTables.ReleaseAck | src/paqto/core/node.py:1840-1846 | the same for an ACK waiter |
| CorrelationRuns.RunsKeepInv | src/paqto/core/node.py:757-804 | owners, frames, timeouts, cleanups, stops and restarts in any order keep the joint invariant |
| CorrelationRuns.TablesStaySafe | src/paqto/core/node.py:1794-1846 | at every await: limits hold, no entry holds a result or error, none belongs to a cleaned-up connection, a stopped node has no request |
| CorrelationRuns.ResultsAreEarned | src/paqto/core/node.py:1848-1888 | a result only comes from a frame with the own id on the own connection object and peer |
| CorrelationRuns.FramesReachTheirWaiter | src/paqto/core/node.py:1848-1888 | an arriving reply or ACK completes the pending waiter it answers and removes its entry |
| CorrelationRuns.OwnersLeaveNothing | src/paqto/core/node.py:799-804 | in every run an owner that ends leaves its future done and no entry of either table waiting on it |
| CorrelationRuns.RequestIsExact | src/paqto/core/node.py:757-804 | a request becomes pending exactly when the node runs, its id is free, the table has room and its frame is accepted; otherwise both tables are as before |
| CorrelationRuns.SendIsExact | src/paqto/core/node.py:1757-1822 | a send is refused exactly without a session, for another synchronous reason, or when its ACK cannot be registered |
| CorrelationRuns.LifecycleTakesEffect | src/paqto/core/node.py:1890-2009 | READY publishes a session, its end removes it, cleanup also takes every entry off the connection and no other, stop empties everything |
| CorrelationRuns.TrafficLeavesSessions | src/paqto/core/node.py:1824-1846 | a timeout gives up only its own unfinished future, and no message, frame or owner touches the sessions |
| CorrelationRuns.CompletionsAreFinal | src/paqto/core/node.py:1848-1932 | a future is completed at most once |
| CorrelationRuns.StopSilencesTables | src/paqto/core/node.py:377-439 | after stop begins nothing is pending at any later await, as long as no connection becomes READY |
| CorrelationRuns.StoppedNodePendsIff | src/paqto/core/node.py:1757-1822 | exactly which step leaves something pending on a stopped node |
| CorrelationRuns.LateSessionPends | src/paqto/core/node.py:1757-1822 | a concrete run with a pending ACK on a stopped node |
| WriterChannel.RunsKeepInv | src/paqto/core/node.py:1623-1737 | puts, writes, errors, cancellation, stop and drains in any order keep the channel invariant |
| WriterChannel.WriterIsFifo | src/paqto/core/node.py:1651-1689 | frames passed to `send_frame` are a prefix of the admitted ones in order, and each `get` has one `task_done` |
| WriterChannel.SuccessMeansWritten | src/paqto/core/node.py:1661-1681 | a waiter succeeds only after the write of its own frame returned |
| WriterChannel.StopIsExact | src/paqto/core/node.py:1682-1737 | the end of the worker and the stop of the node fail the frame under way and every queued one that is unfinished, and change no other future |
| WriterChannel.WriteGoesOnIff | src/paqto/core/node.py:1659-1681 | after a write its waiter succeeds, and the worker goes on exactly while the node runs and the connection is open |
| WriterChannel.GetTakesOldest | src/paqto/core/node.py:1659-1663 | the frame taken is the oldest queued one |
| WriterChannel.CancelledWorkerFailsEverybody | src/paqto/core/node.py:1682-1689 | a worker cancelled after it started leaves an empty queue and no unfinished frame |
| WriterChannel.NodeStopFailsEverybody | src/paqto/core/node.py:1720-1737 | the stop of the node fails every frame in the channel and asks the worker to end |
| WriterChannel.WorkerEnds | src/paqto/core/node.py:1659-1702 | a failed write closes the connection and ends the worker with its queue drained; a requested cancellation may end it at any await; one that never ran leaves the queue to others |
| WriterChannel.WriteOutcomeReachesWaiter | src/paqto/core/node.py:1662-1681 | the waiter of the frame under way learns how its write ended, and an error closes the connection |
| WriterChannel.StoppedWriterLeavesNoWaiter | src/paqto/core/node.py:1682-1689 | every frame admitted before the worker stopped has its future done |
| WriterChannel.StoppingFinishesEveryFrameIff | src/paqto/core/node.py:1651-1689 | the end of the worker finishes every admitted frame exactly unless it was cancelled before it first ran with somebody waiting in the queue |
| WriterChannel.ClosedChannelLeavesNoWaiter | src/paqto/core/node.py:1691-1702 | so has every frame admitted before the drain that closes the channel |
| WriterChannel.CompletionsAreFinal | src/paqto/core/node.py:1651-1737 | each frame's future is completed at most once |
| Writer.OutboundChannel.PutNoWait | src/paqto/core/node.py:1634-1644 | admits at the end of the queue exactly below the limit |
| Writer.OutboundChannel.FailOutboundQueue | src/paqto/core/node.py:1726-1737 | empties the queue, fails every unfinished waiter, and balances the unfinished counter |
| Writer.OutboundChannel.StopWorker | src/paqto/core/node.py:1682-1689 | fails the current frame and then the queue |
| Reader.HandleFrame | src/paqto/core/node.py:992-1047 | a frame is processed to its end exactly when it is acceptable, the writer takes what it needs and the queue takes the message; a failing one leaves at most its own ACK |
| Reader.ReadConnection | src/paqto/core/node.py:972-1066 | exactly the frames before the first turn that does not pass take effect, in order |
| Reader.ReaderRefinesStream | src/paqto/core/node.py:992-1047 | over any accepted stream the dispatches are its valid non-reply messages in order, and the ACKs its valid messages in order |
| Reader.PongsRefineStream | src/paqto/core/node.py:1003-1012 | pongs are exactly the pings, in order |
| Reader.ResolutionsRefineStream | src/paqto/core/node.py:996-1041 | over any accepted stream exactly its ACK frames resolve ACKs, its PONGs heartbeats and its replies requests, each with its own id, in order |
| Reader.MessagesAreExact | src/paqto/core/node.py:1019-1041 | exactly which frames carry a message: type, id, string headers, the session peer as sender, this node or nobody as recipient, no empty reply id |
| Reader.AcceptableFramesAreExact | src/paqto/core/node.py:992-1041 | exactly which frames do not end the session: such messages, and the negotiated controls |
| Reader.DispatchedIsTrusted | src/paqto/core/node.py:1031-1047 | everything dispatched is from the session peer, to this node or nobody, and no reply |
| Reader.AckComesFirst | src/paqto/core/node.py:1042-1047 | a dispatched message was acknowledged right before |
| Protocol.ControlRoundTrip | src/paqto/core/protocol.py:452-497 | every control object that can be encoded comes back as text carries it, is refused exactly when two of its keys have one text, and comes back unchanged when plain |
| Protocol.ApplicationRoundTrip | src/paqto/core/protocol.py:263-289 | application data survives whenever the sender's limit is within the receiver's |
| Protocol.SessionControlRoundTrip | src/paqto/core/protocol.py:292-354 | ACK, PING and PONG frames decode to what was encoded |
| Protocol.DecodeHello | src/paqto/core/protocol.py:377-440 | only valid offers come out of a hello, and every refusal is a handshake error |
| Protocol.HelloDecoderIsExact | src/paqto/core/protocol.py:377-440 | exactly which frames are the hello of an offer: the typed fields, a version from one, non-empty ids, a positive limit, distinct non-empty capability names |
| Protocol.DecoderIsExact | src/paqto/core/protocol.py:263-354 | exactly which bytes decode to application data, an ACK, a PING or a PONG |
| Protocol.ControlDecoderIsExact | src/paqto/core/protocol.py:477-497 | exactly which control payloads decode: texts within the limit of unambiguous, safe objects |
| Protocol.EncodersAreExact | src/paqto/core/protocol.py:452-472 | exactly what can be encoded, and as which bytes |
| Protocol.HelloEncoderIsExact | src/paqto/core/protocol.py:357-374 | a hello can be sent exactly when its control object can be encoded, and is a handshake error otherwise |
| Protocol.RefusalsAreFrameErrors | src/paqto/core/protocol.py:263-354 | whatever is refused between READY peers is a frame error |
| Protocol.HelloRoundTrip | src/paqto/core/protocol.py:357-440 | every hello that a valid offer can be encoded to decodes to that offer with its metadata as text carries it, is refused exactly when the metadata is ambiguous, and arrives unchanged when plain |
| Protocol.MixedKeysAreRefused | src/paqto/core/protocol.py:357-440 | concrete metadata that one end accepts and encodes and the other refuses |
| Negotiation.NegotiateProtocol | src/paqto/core/protocol.py:154-260 | the connection is closed on every failure and on no success; success is exactly an encodable hello and an accepted arrival; timeout and cancellation have their own errors; the hello is sent exactly when it can be encoded |
| Negotiation.DecisionIsExact | src/paqto/core/protocol.py:197-233 | an offer is accepted exactly when version and serializer agree, the expected and the transport's peer id, if any, are the remote one, and required authentication is there; each error exactly for its own failing check |
| Negotiation.AuthenticatedMeansTransport | src/paqto/core/protocol.py:242-257 | a session's peer id is the expected one if any, and counts as authenticated exactly when the transport authenticated that id |
| Negotiation.ChecksAreSymmetric | src/paqto/core/protocol.py:197-233 | an end succeeds exactly when the other hello decodes, version and serializer agree, and the declared id satisfies its own policy, written out; version and serializer checks of decodable hellos fail at one end exactly when at the other |
| Negotiation.SessionsAgree | src/paqto/core/protocol.py:235-257 | both ends hold the same limit, version, serializer and capability set, and each the other's identity and metadata |
| Negotiation.CommonKeepsOrder | src/paqto/core/protocol.py:237-241 | negotiated capabilities stand in the local order |
| Negotiation.CommonIsDistinct | src/paqto/core/protocol.py:237-241 | and each only once |
| Negotiation.SessionRulesAreExact | src/paqto/core/protocol.py:263-354 | exactly what a session lets through, in and out: data within its limit and the controls it negotiated, with an id |
| Negotiation.SomeCodecCarries | src/paqto/core/protocol.py:452-497 | what is asked of the JSON text codec can be met, so the agreement lemmas are not vacuous |
| Negotiation.EmittedFramesAreAccepted | src/paqto/core/protocol.py:263-354 | no frame one end may emit is refused by the other for size, kind or missing negotiation |
| Negotiation.NodesAlwaysShareHeartbeat | src/paqto/core/node.py:2159-2168 | offers are the configured capabilities plus heartbeat and enabled ACKs, duplicate-free; heartbeats are always negotiated, ACKs whenever both enable them |
| JsonValues.BitLengthBounds | src/paqto/core/protocol.py:519-524 | the bit limit is the magnitude bound it stands for |
| JsonValues.SafeMeans | src/paqto/core/protocol.py:513-534 | control data is safe exactly when its nesting depth is within the limit and every number is finite and within the bit limit |
| JsonValues.PortableMeans | src/paqto/serializers/_json.py:40-96 | payloads are acceptable exactly when their depth is within the limit and every value is a JSON value with short strings and short string keys |
| JsonValues.UnambiguousMeans | src/paqto/core/protocol.py:537-544 | a value is unambiguous exactly when no object anywhere in it repeats a key text |
| JsonValues.PopSafe | src/paqto/core/protocol.py:515-533 | replacing a value by its children keeps the answer of the recursive specification |
| JsonValues.PopPortable | src/paqto/serializers/_json.py:48-96 | the same for payload values |
| JsonValues.PopWeight | src/paqto/core/protocol.py:515-533 | each turn takes exactly one node off the stack, so both validators end |
| JsonLimits.IsSafeJsonValue | src/paqto/core/protocol.py:513-534 | the stack loop accepts exactly finite, bounded, shallow enough values |
| JsonLimits.KeysFit | src/paqto/serializers/_json.py:78-85 | the key loop accepts exactly string keys within the length limit |
| JsonLimits.ItemFits | src/paqto/serializers/_json.py:51-91 | the branches on one value accept exactly what is acceptable at its depth |
| JsonLimits.ReduceOnce | src/paqto/serializers/_json.py:50-96 | one turn on the top of the stack keeps the answer and the item total |
| JsonLimits.ValidateJsonValue | src/paqto/serializers/_json.py:40-96 | accepts exactly the values within depth, length and total item limits |
| JsonLimits.UniqueJsonObject | src/paqto/core/protocol.py:537-544 | a dictionary of all members exactly when no name repeats |
| JsonLimits.LoadStrictly | src/paqto/core/protocol.py:484-488 | the object hook refuses a parsed text exactly when some object in it repeats a name |
| Frames.SizeOfHeader | src/paqto/lan/connection.py:97 | the 4-byte header determines the size |
| Frames.HeaderIsBigEndian | src/paqto/lan/connection.py:97 | the header is the size, most significant byte first |
| Frames.ReceiveIsExact | src/paqto/lan/connection.py:107-135 | an announced size over the limit is refused before any payload is read, a missing rest is a closed connection, and otherwise exactly that many bytes are taken |
| Frames.TruncatedStream | src/paqto/lan/connection.py:107-166 | a stream cut at any byte yields exactly the complete frames and then a closed error |
| Frames.WholeStream | src/paqto/lan/connection.py:87-135 | an uncut stream yields exactly the payloads sent |
| Frames.StreamIsInjective | src/paqto/lan/connection.py:87-105 | equal byte streams come from equal payload lists |
| Frames.StreamAppend | src/paqto/lan/connection.py:96-99 | sending one more payload appends exactly its frame |
| Framing.TcpConnection.ReadExactly | src/paqto/lan/connection.py:153-166 | returns the next bytes whatever the chunking, or closes on a short stream |
| Framing.TcpConnection.ReceiveFrame | src/paqto/lan/connection.py:107-135 | the outcome depends on the remaining bytes only, and every refusal closes the connection |
| Framing.TcpConnection.SendFrame | src/paqto/lan/connection.py:87-105 | hands one whole frame or nothing to the writer, and a writer error closes the connection |
| Framing.TcpConnection.Close | src/paqto/lan/connection.py:137-151 | closed afterwards, however often it is called |
| Framing.ReceiveUntilClosed | src/paqto/core/node.py:978-986 | a reader gets exactly the frames the byte stream holds |
| Framing.SendAndReceive | src/paqto/lan/connection.py:87-135 | every list of legal payloads arrives exactly, for every chunking |
| ListenerTables.HandOffIsOrderly | src/paqto/lan/listener.py:133-255 | queue and unfinished waiters never coexist, the queue is bounded, hand-outs are a duplicate-free prefix of admissions |
| ListenerTables.CloseReachesEveryConnection | src/paqto/lan/listener.py:160-187 | every open admitted connection is owned until close and closed by it |
| ListenerTables.ClosedListenerAdmitsNothing | src/paqto/lan/listener.py:160-202 | after close nothing is admitted or handed out |
| ListenerTables.FirstWaiterIsServed | src/paqto/lan/listener.py:237-247 | an arriving connection goes to the first waiter still waiting |
| ListenerTables.ArrivalIsExact | src/paqto/lan/listener.py:189-255 | an arrival nobody waits for is closed on a closed listener or a full queue and otherwise queued last and owned |
| ListenerTables.AcceptIsExact | src/paqto/lan/listener.py:133-144 | accept fails exactly when closed or not started, else yields the oldest queued connection, else waits last in line |
| ListenerTables.LeaveIsExact | src/paqto/lan/listener.py:147-153 | a waiter that leaves is out of line and no longer pending, and everybody else keeps place and future |
| ListenerTables.CloseIsExact | src/paqto/lan/listener.py:160-187 | close fails exactly the unfinished waiters in line and takes out everything owned, once |
| ListenerTables.EventsTakeEffect | src/paqto/lan/listener.py:104-187 | starting lets `accept` in, a cancelled waiter is no longer pending, and a close in progress closes each connection once |
| Listener.TcpListener.constructor | src/paqto/lan/listener.py:57-96 | a new listener owns nothing |
| Listener.TcpListener.Accept | src/paqto/lan/listener.py:133-144 | fails, pops the oldest queued connection, or queues a waiter |
| Listener.TcpListener.PopWaiter | src/paqto/lan/listener.py:237-239 | drops finished waiters up to the first unfinished one |
| Listener.TcpListener.HandleClient | src/paqto/lan/listener.py:189-255 | hands over, queues or closes the connection on the fields |
| Listener.TcpListener.Close | src/paqto/lan/listener.py:160-187 | fails every waiter and takes out everything owned, once |
| Base64.EncodeIsCanonical | src/paqto/serializers/bytes.py:28-32 | encodings are canonical and decode to the bytes |
| Base64.AlphabetIsStandard | src/paqto/serializers/bytes.py:31 | the alphabet is the standard one, stretch by stretch |
| Base64.GroupsKeepTheirValue | src/paqto/serializers/bytes.py:31 | three bytes and their four symbols are the same 24-bit number; short groups are padded with zero bits and `=` |
| Base64.StandardVectors | src/paqto/serializers/bytes.py:31 | test vectors of section 10 of RFC 4648 |
| Base64.CanonicalIsEncoded | src/paqto/serializers/bytes.py:38-50 | every canonical string is the encoding of its decoding |
| Base64.DecodeEncode | src/paqto/serializers/bytes.py:28-36 | the round trip from bytes, on text |
| Base64.EncodeDecode | src/paqto/serializers/bytes.py:38-50 | the round trip from canonical text |
| Base64.AcceptsExactlyCanonical | src/paqto/serializers/bytes.py:38-50 | whatever else the library decoder tolerates, exactly canonical strings are accepted, with the bytes the standard assigns |
| Base64.PayloadRoundTrip | src/paqto/serializers/bytes.py:28-50 | encoding and accepting are inverse: a bijection |
| Base64.ReferenceDecoderQualifies | src/paqto/serializers/bytes.py:43 | the assumption made about the library decoder can be met |
| Backoff.Bernoulli | src/paqto/core/config.py:90 | the exponential factor outgrows a straight line |
| Backoff.DelayBounds | src/paqto/core/config.py:89-93 | delays lie between the initial and the maximum delay |
| Backoff.DelayGrowsByMultiplier | src/paqto/core/config.py:89-93 | the first delay is the initial one, and each further one is the multiplier times the last, up to the maximum |
| Backoff.PolicyIsRefusedIff | src/paqto/core/config.py:52-72 | exactly which policies are refused |
| Backoff.DelayIsMonotone | src/paqto/core/config.py:89-93 | later attempts never wait less, and a capped delay stays capped |
| Backoff.DelayIsEventuallyMaximal | src/paqto/core/config.py:89-93 | an explicit attempt number from which the delay is the maximum |
| Backoff.JitterStaysWithinItsFactor | src/paqto/core/config.py:87-101 | an accepted call moves the delay within the factors one minus and one plus the jitter, and without jitter any sample is accepted |
| Backoff.JitterSpansItsInterval | src/paqto/core/config.py:94-101 | the delays jitter can produce are exactly the interval between the two factors |
| Backoff.MaximumIsHonouredIff | src/paqto/core/config.py:89-101 | no attempt and sample exceed `maximum_delay` exactly without jitter, or with multiplier one and room for the whole jitter |
| Backoff.FortyExceedsThirty | src/paqto/core/config.py:89-101 | a concrete policy and sample that exceed it below the cap |
| Backoff.JitterMayExceedTheMaximum | src/paqto/core/config.py:93-101 | at the cap exactly the upper half of the samples exceeds it |
| Backoff.ReconnectLoop | src/paqto/core/node.py:1301-1329 | the one turn that ends the loop, why, everything it did and the mark it leaves; under a limit, the bounds on its connects and its sleep |
| Backoff.RunLoop | src/paqto/core/node.py:1304-1329 | the loop itself: trace and exit of the turn that ends it |
| Backoff.ExitsAreExact | src/paqto/core/node.py:1304-1329 | which turn ends the loop and why, in the order of the source's checks |
| Backoff.EndingsAreExact | src/paqto/core/node.py:1304-1329 | the ending turn marks DISCONNECTED at the head, and otherwise marks, sleeps this attempt's delay and connects exactly when the sleep was left undisturbed |
| Backoff.AttemptsFollowPolicy | src/paqto/core/node.py:1312-1329 | each failed attempt is a mark, the sleep the policy gives for that very attempt, and a connect |
| Backoff.ReconnectIsBounded | src/paqto/core/node.py:1304-1329 | with a limit, at most that many connects and at most that many longest delays of sleep |
| Backoff.RefusedLoopSpendsEveryAttempt | src/paqto/core/node.py:1304-1329 | an always refused loop gives up after exactly the limit, and never without one |
| Backoff.OnlyHeadExitsMarkDisconnected | src/paqto/core/node.py:1306-1329 | the loop leaves DISCONNECTED behind exactly when it ends at its head |
| DiscoveryCache.AdmissionIsExact | src/paqto/lan/discovery.py:271-304 | an announced foreign peer is cached with its newest claim exactly when it already was or a slot is free after pruning |
| DiscoveryCache.FreshMeans | src/paqto/core/discovered.py:58-94 | an observation counts until its TTL has passed, that moment included, and for ever without one |
| DiscoveryCache.AnnouncementsLeaveOthers | src/paqto/lan/discovery.py:271-304 | an announcement changes no other entry but that a new id may prune expired ones, and one that is malformed, own or unstarted changes nothing |
| DiscoveryCache.PruneIsExact | src/paqto/lan/discovery.py:306-312 | pruning keeps exactly the entries within their TTL, unchanged |
| DiscoveryCache.EventsTakeEffect | src/paqto/lan/discovery.py:105-304 | starting and stopping set the local peer, stop empties the cache, and a started service caches a foreign claim exactly when it has it already or has room |
| DiscoveryCache.CacheIsBoundedInEveryRun | src/paqto/lan/discovery.py:206-312 | every run keeps the limit and matching keys, and `discover` returns only what is within its TTL |
| DiscoveryCache.FreshPeersAreNotEvicted | src/paqto/lan/discovery.py:271-312 | a cached peer survives any announcements by others until its TTL runs out |
| DiscoveryCache.StalePeersAreDropped | src/paqto/core/discovered.py:58-94 | a peer not heard within its TTL is gone after `discover` |
| Discovery.LanDiscovery.constructor | src/paqto/lan/discovery.py:88-104 | a new service has an empty cache |
| Discovery.LanDiscovery.PruneExpired | src/paqto/lan/discovery.py:306-312 | the loop removes exactly the stale entries and keeps the objects of the others |
| Discovery.LanDiscovery.HandleAnnounce | src/paqto/lan/discovery.py:271-304 | refreshes an entry in place without touching any other, or admits within the limit |
| Discovery.LanDiscovery.Collect | src/paqto/lan/discovery.py:210-211 | returns all live entries, each within its TTL |
| Discovery.LanDiscovery.Stop | src/paqto/lan/discovery.py:176-192 | empties the cache |

## Left out

- CorrelationRuns.TablesStaySafe: a stopped node may keep ACK entries on connections READY since the stop; `CorrelationRuns.StoppedNodePendsIff` says exactly when, and `CorrelationRuns.StopSilencesTables` covers everything else.
- SimultaneousOpen.ExactlyOneSurvives: for runs in which nodes redial only after their earlier connections are gone; `SimultaneousOpen.PreferredLosesIff` says exactly when the smaller node's connection loses otherwise.
- SimultaneousOpen.SettledNodesAgree: the explicit `close_peer` after a missing session (src/paqto/core/node.py:677-678) counts as an outside close.
- SessionOwnership.CanonicalIsSessionOrLeaving: `stop`, `disconnect` and the setup tasks' own bookkeeping are left to the other modules.
- ManagerRuns.NothingIsLost: `close_all` itself is not cancelled (the node shields it), and connections handed back by `adopt` or `connection_lost` are the caller's to close.
- ManagerRuns.TablesAgreeInEveryRun: `close_all` calls are serialised by the node's lifecycle lock.
- WriterChannel.StoppedWriterLeavesNoWaiter: a putter still blocked on a full queue when the writer stops is not an admitted frame; a worker cancelled before it first ran is the exception that `WriterChannel.StoppingFinishesEveryFrameIff` states.
- ListenerTables.HandOffIsOrderly: a connection set on an accept future whose task is cancelled counts as handed out; it stays owned until close.
- Framing.TcpConnection.ReceiveFrame: cancellation between header and payload, which desynchronises the stream, is not a step; nor is the send lock.
- Negotiation.NegotiateProtocol: a closed and a failed transport share one handshake error, and a failed send is the same arrival as a failed receive, recorded after the hello.
- Base64.AcceptsExactlyCanonical: of the library decoder only that it undoes the encoder is assumed; a non-string payload and text that is not ASCII are refused before it.
- Protocol.HelloRoundTrip: JSON text is a codec parameter; of a Python object that is no JSON value, such as a tuple, only that something may come back is known.
- Backoff.DelayIsMonotone: over the reals; rounding and the float overflow branch, which yields the maximum delay, are not modelled.
- Backoff.ReconnectLoop: the at-most-one loop per peer of `_schedule_reconnect`, and errors raised by the state marks themselves.
- DiscoveryCache.FreshPeersAreNotEvicted: timestamps a caller changes by hand on a shared entry.
- Real time: timeouts are events that may fire at any await; clocks are inputs.
- Object-id reuse: connections are keyed by identity, and each negotiates once.
- The four READY tables, the manager, the correlation tables and the writer are separate machines; the order in which `_stop_locked` tears them down, heartbeat supervision, dispatch workers, handlers and event delivery are not modelled.
- Sockets, TLS, certificates, hostname resolution, UDP, logging, serializer envelopes and the compatibility tests are not modelled.
