/** Whole runs of `ConnectionManager`: the critical sections of `ManagerTables` interleaved
    with setup tasks, waiting callers, `close_peer` and `close_all` calls, and an environment
    that may close any physical connection.  One event is the code between two suspensions. */
module ManagerRuns {
  import opened Wrappers
  import opened ManagerTables

  type Conn = nat
  type CallId = nat

  datatype Outcome = Returned(connection: Conn) | Raised

  /** Where a setup task is suspended. */
  datatype Phase =
    | Created
    | AwaitTransport
    | AwaitPrepare
    | AwaitLoserClose(selected: Conn)
    | AwaitPreviousClose(selected: Conn)
    | AwaitCleanupClose
    | Ended(outcome: Outcome)

  /** `dialled`, `installed` and `displaced` record what the task has done so far. */
  datatype Task = Task(peer: PeerId, phase: Phase, cancelled: bool, connects: nat,
                       dialled: Option<Conn>, installed: Option<Conn>, displaced: Option<Conn>)

  /** A `close_peer` call and what it still holds. */
  datatype Closer =
    | AwaitTask(peer: PeerId, task: TaskId, connection: Option<Conn>)
    | AwaitClose(peer: PeerId)
    | CloserDone

  datatype CloseAll =
    | Idle
    | AwaitTasks(peers: set<PeerId>, tasks: set<TaskId>, connections: set<Conn>)
    | AwaitCloses(peers: set<PeerId>, connections: set<Conn>)

  /** A `connect` caller: on the shielded task, or answered at once. */
  datatype Call =
    | Waiting(task: TaskId)
    | Got(task: TaskId, outcome: Outcome)
    | GaveUp(task: TaskId)
    | Reused(connection: Conn)
    | Rejected

  /** `known`: every connection the manager ever held.  `handedBack`: connections returned to
      a caller who must close them.  `dropped`: connections a cancelled `close_peer` let go. */
  datatype Sys = Sys(t: Tables<Conn>, closed: set<Conn>, tasks: map<TaskId, Task>,
                     closers: map<CallId, Closer>, closeAll: CloseAll, calls: map<CallId, Call>,
                     known: set<Conn>, handedBack: set<Conn>, dropped: set<Conn>)

  datatype CallStep = Joins(p: PeerId, reconnecting: bool, newTask: TaskId) | Wakes | GivesUp

  datatype CloserStep = Enters(p: PeerId) | SeesTaskEnd | IsCancelled | CloseDone

  datatype CloseAllStep = Begins | SeesTasksEnd | Closes(c: Conn) | Ends

  /** A setup task resumes: an await returned, or raised (failure, timeout or cancellation). */
  datatype TaskStep =
    | NeverStarts
    | Starts
    | TransportReturns(c: Conn, prepared: bool)
    | PrepareReturns(replacement: Option<Conn>)
    | CloseReturns
    | AwaitRaises

  datatype Event =
    | EnvironmentCloses(c: Conn)
    | Touches(op: Op<Conn>)
    | Adopts(p: PeerId, c: Conn)
    | Loses(p: PeerId, c: Conn)
    | CallDoes(call: CallId, callStep: CallStep)
    | CloserDoes(closer: CallId, closerStep: CloserStep)
    | CloseAllDoes(closeAllStep: CloseAllStep)
    | TaskDoes(task: TaskId, taskStep: TaskStep)

  const Init := Sys(Tables(map[], map[], map[], {}, false), {}, map[], map[], Idle, map[], {}, {}, {})

  // ----- one setup task ------------------------------------------------------------------

  function Put(s: Sys, id: TaskId, task: Task): Sys {
    s.(tasks := s.tasks[id := task])
  }

  /** The last critical section and the end of the task. */
  function Finish(s: Sys, id: TaskId, outcome: Outcome): Sys
    requires id in s.tasks
  {
    Put(s, id, s.tasks[id].(phase := Ended(outcome)))
      .(t := FinishTask(s.t, s.tasks[id].peer, id, outcome.Returned?, s.closed))
  }

  /** The failure path: close what was dialled, then the last critical section. */
  function Fail(s: Sys, id: TaskId): Sys
    requires id in s.tasks
  {
    var task := s.tasks[id];
    if task.dialled.Some? && task.dialled.value !in s.closed then
      Put(s, id, task.(phase := AwaitCleanupClose)).(closed := s.closed + {task.dialled.value})
    else Finish(s, id, Raised)
  }

  function InstallBySetup(s: Sys, id: TaskId, selected: Conn): Sys
    requires id in s.tasks
  {
    var task := s.tasks[id];
    var (t', r) := Install(s.t, task.peer, selected);
    if r.NotInstalled? then Fail(s, id)
    else
      var s' := s.(t := t', known := s.known + {selected});
      var task' := task.(installed := Some(selected), displaced := r.previous);
      if r.previous.Some? then
        Put(s', id, task'.(phase := AwaitPreviousClose(selected))).(closed := s.closed + {r.previous.value})
      else Finish(Put(s', id, task'), id, Returned(selected))
  }

  function Select(s: Sys, id: TaskId, selected: Conn): Sys
    requires id in s.tasks && s.tasks[id].dialled.Some?
  {
    var task := s.tasks[id];
    if selected != task.dialled.value && task.dialled.value !in s.closed then
      Put(s, id, task.(phase := AwaitLoserClose(selected))).(closed := s.closed + {task.dialled.value})
    else InstallBySetup(s, id, selected)
  }

  // ----- events --------------------------------------------------------------------------

  function CancelTasks(tasks: map<TaskId, Task>, ids: set<TaskId>): map<TaskId, Task> {
    map id | id in tasks :: if id in ids then tasks[id].(cancelled := true) else tasks[id]
  }

  predicate TasksEnded(s: Sys, ids: set<TaskId>) {
    forall id | id in ids :: id in s.tasks ==> s.tasks[id].phase.Ended?
  }

  /** Entry of `close_peer`: take the task and connection out, cancel the task at once. */
  function EnterClosePeer(s: Sys, closer: CallId, p: PeerId): Sys {
    var (t', task, connection) := BeginClosePeer(s.t, p);
    var s' := s.(t := t');
    match task
    case Some(id) => s'.(tasks := CancelTasks(s.tasks, {id}), closers := s.closers[closer := AwaitTask(p, id, connection)])
    case None => CloseTaken(s', closer, p, connection)
  }

  /** After the setup task: close the taken connection, or finish when there is none. */
  function CloseTaken(s: Sys, closer: CallId, p: PeerId, connection: Option<Conn>): Sys {
    match connection
    case Some(c) => s.(closed := s.closed + {c}, closers := s.closers[closer := AwaitClose(p)])
    case None => LeaveClosePeer(s, closer, p)
  }

  function LeaveClosePeer(s: Sys, closer: CallId, p: PeerId): Sys {
    s.(t := EndClosePeer(s.t, p), closers := s.closers[closer := CloserDone])
  }

  function Values(o: Option<Conn>): set<Conn> {
    if o.Some? then {o.value} else {}
  }

  predicate CallEnabled(s: Sys, call: CallId, step: CallStep) {
    match step
    case Joins(_, _, newTask) => call !in s.calls && newTask !in s.tasks
    case Wakes => call in s.calls && s.calls[call].Waiting? && s.calls[call].task in s.tasks
                  && s.tasks[s.calls[call].task].phase.Ended?
    case GivesUp => call in s.calls && s.calls[call].Waiting?
  }

  function CallNext(s: Sys, call: CallId, step: CallStep): Sys
    requires CallEnabled(s, call, step)
  {
    match step
    case Joins(p, reconnecting, newTask) =>
      var (t', joined) := Join(s.t, p, reconnecting, newTask, s.closed);
      (match joined
       case Refused => s.(calls := s.calls[call := Rejected])
       case Existing(c) => s.(t := t', calls := s.calls[call := Reused(c)])
       case Waits(id) => s.(t := t', calls := s.calls[call := Waiting(id)])
       case Starts(id) => Put(s, id, Task(p, Created, false, 0, None, None, None))
                            .(t := t', calls := s.calls[call := Waiting(id)]))
    case Wakes =>
      var id := s.calls[call].task;
      s.(calls := s.calls[call := Got(id, s.tasks[id].phase.outcome)])
    case GivesUp => s.(calls := s.calls[call := GaveUp(s.calls[call].task)])
  }

  predicate CloserEnabled(s: Sys, closer: CallId, step: CloserStep) {
    match step
    case Enters(_) => closer !in s.closers
    case SeesTaskEnd => closer in s.closers && s.closers[closer].AwaitTask? && TasksEnded(s, {s.closers[closer].task})
    case IsCancelled => closer in s.closers && s.closers[closer].AwaitTask?
    case CloseDone => closer in s.closers && s.closers[closer].AwaitClose?
  }

  function CloserNext(s: Sys, closer: CallId, step: CloserStep): Sys
    requires CloserEnabled(s, closer, step)
  {
    match step
    case Enters(p) => EnterClosePeer(s, closer, p)
    case SeesTaskEnd => CloseTaken(s, closer, s.closers[closer].peer, s.closers[closer].connection)
    case IsCancelled =>
      LeaveClosePeer(s, closer, s.closers[closer].peer)
        .(dropped := s.dropped + (Values(s.closers[closer].connection) - s.closed))
    case CloseDone => LeaveClosePeer(s, closer, s.closers[closer].peer)
  }

  predicate CloseAllEnabled(s: Sys, step: CloseAllStep) {
    match step
    case Begins => s.closeAll.Idle?
    case SeesTasksEnd => s.closeAll.AwaitTasks? && TasksEnded(s, s.closeAll.tasks)
    case Closes(c) => s.closeAll.AwaitCloses? && c in s.closeAll.connections
    case Ends => s.closeAll.AwaitCloses? && s.closeAll.connections == {}
  }

  function CloseAllNext(s: Sys, step: CloseAllStep): Sys
    requires CloseAllEnabled(s, step)
  {
    match step
    case Begins =>
      s.(t := BeginCloseAll(s.t), tasks := CancelTasks(s.tasks, s.t.inFlight.Values),
         closeAll := AwaitTasks(KnownPeers(s.t), s.t.inFlight.Values, s.t.connections.Values))
    case SeesTasksEnd => s.(closeAll := AwaitCloses(s.closeAll.peers, s.closeAll.connections))
    case Closes(c) => s.(closed := s.closed + {c}, closeAll := s.closeAll.(connections := s.closeAll.connections - {c}))
    case Ends => s.(t := EndCloseAll(s.t, s.closeAll.peers), closeAll := Idle)
  }

  predicate TaskEnabled(s: Sys, id: TaskId, step: TaskStep) {
    && id in s.tasks
    && var phase := s.tasks[id].phase;
       match step
       case NeverStarts => phase.Created? && s.tasks[id].cancelled
       case Starts => phase.Created?
       case TransportReturns(c, _) => phase.AwaitTransport? && c !in s.known
       case PrepareReturns(_) => phase.AwaitPrepare? && s.tasks[id].dialled.Some?
       case CloseReturns => phase.AwaitLoserClose? || phase.AwaitPreviousClose? || phase.AwaitCleanupClose?
       case AwaitRaises => !phase.Created? && !phase.Ended?
  }

  function TaskNext(s: Sys, id: TaskId, step: TaskStep): Sys
    requires TaskEnabled(s, id, step)
  {
    var task := s.tasks[id];
    match step
    case NeverStarts => Put(s, id, task.(phase := Ended(Raised)))
    case Starts => Put(s, id, task.(phase := AwaitTransport, connects := task.connects + 1))
    case TransportReturns(c, prepared) =>
      var s' := Put(s, id, task.(phase := AwaitPrepare, dialled := Some(c))).(known := s.known + {c});
      if prepared then s' else Select(s', id, c)
    case PrepareReturns(replacement) =>
      Select(s, id, if replacement.Some? then replacement.value else task.dialled.value)
    case CloseReturns =>
      (match task.phase
       case AwaitLoserClose(selected) => InstallBySetup(s, id, selected)
       case AwaitPreviousClose(selected) => Finish(s, id, Returned(selected))
       case _ => Finish(s, id, Raised))
    case AwaitRaises => if task.phase.AwaitCleanupClose? then Finish(s, id, Raised) else Fail(s, id)
  }

  predicate Enabled(s: Sys, e: Event) {
    match e
    case EnvironmentCloses(_) => true
    case Touches(op) => op.OpReport? || op.OpMarkReconnecting? || op.OpMarkDisconnected?
    case Adopts(_, _) => true
    case Loses(_, _) => true
    case CallDoes(call, step) => CallEnabled(s, call, step)
    case CloserDoes(closer, step) => CloserEnabled(s, closer, step)
    case CloseAllDoes(step) => CloseAllEnabled(s, step)
    case TaskDoes(id, step) => TaskEnabled(s, id, step)
  }

  function Next(s: Sys, e: Event): Sys
    requires Enabled(s, e)
  {
    match e
    case EnvironmentCloses(c) => s.(closed := s.closed + {c})
    case Touches(op) => s.(t := Apply(s.t, op, s.closed))
    case Adopts(p, c) =>
      var (t', r) := Install(s.t, p, c);
      if r.NotInstalled? then s
      else s.(t := t', known := s.known + {c}, handedBack := s.handedBack + Values(r.previous))
    case Loses(p, c) =>
      var (t', removed) := Lose(s.t, p, c);
      s.(t := t', handedBack := if removed then s.handedBack + {c} else s.handedBack)
    case CallDoes(call, step) => CallNext(s, call, step)
    case CloserDoes(closer, step) => CloserNext(s, closer, step)
    case CloseAllDoes(step) => CloseAllNext(s, step)
    case TaskDoes(id, step) => TaskNext(s, id, step)
  }

  ghost predicate IsRun(s: Sys, es: seq<Event>)
    decreases |es|
  {
    es == [] || (Enabled(s, es[0]) && IsRun(Next(s, es[0]), es[1..]))
  }

  ghost function After(s: Sys, es: seq<Event>): Sys
    requires IsRun(s, es)
    decreases |es|
  {
    if es == [] then s else After(Next(s, es[0]), es[1..])
  }

  // ----- the invariant -------------------------------------------------------------------

  predicate Live(task: Task) {
    !task.cancelled && !task.phase.Ended?
  }

  /** A task is in flight exactly while it is neither cancelled nor ended. */
  ghost predicate FlightsMatch(inFlight: map<PeerId, TaskId>, tasks: map<TaskId, Task>) {
    && (forall p: PeerId | p in inFlight ::
          inFlight[p] in tasks && tasks[inFlight[p]].peer == p && Live(tasks[inFlight[p]]))
    && (forall id: TaskId | id in tasks && Live(tasks[id]) ::
          tasks[id].peer in inFlight && inFlight[tasks[id].peer] == id)
  }

  ghost predicate FlightsMatchTasks(s: Sys) {
    FlightsMatch(s.t.inFlight, s.tasks)
  }

  ghost predicate IsClosed(o: Option<Conn>, closed: set<Conn>) {
    o.Some? ==> o.value in closed
  }

  /** What one task has dialled, installed and displaced agrees with where it is suspended. */
  ghost predicate TaskSound(task: Task, closed: set<Conn>) {
    && IsClosed(task.displaced, closed)
    && match task.phase
       case Created => task.connects == 0 && task.dialled.None? && task.installed.None?
       case AwaitTransport => task.connects == 1 && task.dialled.None? && task.installed.None?
       case AwaitPrepare => task.connects == 1 && task.dialled.Some? && task.installed.None?
       case AwaitLoserClose(selected) =>
         task.connects == 1 && task.dialled.Some? && selected != task.dialled.value && IsClosed(task.dialled, closed)
       case AwaitPreviousClose(selected) =>
         task.connects == 1 && task.dialled.Some? && task.installed == Some(selected)
         && (selected == task.dialled.value || IsClosed(task.dialled, closed))
       case AwaitCleanupClose => task.connects == 1 && IsClosed(task.dialled, closed)
       case Ended(Returned(c)) =>
         task.connects == 1 && task.installed == Some(c) && (task.dialled == Some(c) || IsClosed(task.dialled, closed))
       case Ended(Raised) => task.connects <= 1 && IsClosed(task.dialled, closed)
  }

  ghost predicate CallSound(s: Sys, call: Call) {
    call.Waiting? || call.Got? || call.GaveUp? ==>
      call.task in s.tasks && (call.Got? ==> s.tasks[call.task].phase == Ended(call.outcome))
  }

  ghost predicate TaskHolds(s: Sys, id: TaskId, c: Conn) {
    id in s.tasks && !s.tasks[id].phase.Ended? && s.tasks[id].dialled == Some(c) && s.tasks[id].installed != Some(c)
  }

  ghost predicate CloserHolds(s: Sys, id: CallId, c: Conn) {
    id in s.closers && s.closers[id].AwaitTask? && s.closers[id].connection == Some(c)
  }

  ghost predicate PeerHolds(s: Sys, p: PeerId, c: Conn) {
    p in s.t.connections && s.t.connections[p] == c
  }

  /** Somebody inside the manager is still going to close `c`, or keeps it as canonical. */
  ghost predicate Owned(s: Sys, c: Conn) {
    || (exists id :: TaskHolds(s, id, c))
    || (exists p :: PeerHolds(s, p, c))
    || (exists id :: CloserHolds(s, id, c))
    || (!s.closeAll.Idle? && c in s.closeAll.connections)
  }

  ghost predicate AccountedFor(s: Sys, c: Conn) {
    c in s.closed || Owned(s, c) || c in s.handedBack || c in s.dropped
  }

  ghost predicate TablesSound(s: Sys) {
    Consistent(s.t) && (s.t.closing <==> !s.closeAll.Idle?)
  }

  ghost predicate TasksSound(s: Sys) {
    forall id | id in s.tasks :: TaskSound(s.tasks[id], s.closed)
  }

  ghost predicate CallsSound(s: Sys) {
    forall id | id in s.calls :: CallSound(s, s.calls[id])
  }

  ghost predicate AllAccountedFor(s: Sys) {
    forall c | c in s.known :: AccountedFor(s, c)
  }

  ghost predicate Inv(s: Sys) {
    TablesSound(s) && FlightsMatchTasks(s) && TasksSound(s) && CallsSound(s) && AllAccountedFor(s)
  }

  // ----- every step keeps the invariant --------------------------------------------------

  /** Accounting survives a step when every holder of the old state is accounted for in the new. */
  lemma Transfer(s: Sys, s': Sys)
    requires AllAccountedFor(s)
    requires s.closed <= s'.closed && s.handedBack <= s'.handedBack && s.dropped <= s'.dropped
    requires forall id, c | TaskHolds(s, id, c) :: AccountedFor(s', c)
    requires forall p, c | PeerHolds(s, p, c) :: AccountedFor(s', c)
    requires forall id, c | CloserHolds(s, id, c) :: AccountedFor(s', c)
    requires !s.closeAll.Idle? ==> forall c | c in s.closeAll.connections :: AccountedFor(s', c)
    requires forall c | c in s'.known && c !in s.known :: AccountedFor(s', c)
    ensures AllAccountedFor(s')
  {
    forall c | c in s'.known ensures AccountedFor(s', c) {
      if c in s.known { assert AccountedFor(s, c); }
    }
  }

  lemma LaunchKeepsFlights(inFlight: map<PeerId, TaskId>, tasks: map<TaskId, Task>, p: PeerId, id: TaskId)
    requires FlightsMatch(inFlight, tasks) && p !in inFlight && id !in tasks
    ensures FlightsMatch(inFlight[p := id], tasks[id := Task(p, Created, false, 0, None, None, None)])
  {
  }

  lemma CancelKeepsFlights(inFlight: map<PeerId, TaskId>, tasks: map<TaskId, Task>, ps: set<PeerId>)
    requires FlightsMatch(inFlight, tasks)
    ensures FlightsMatch(inFlight - ps, CancelTasks(tasks, set p | p in inFlight && p in ps :: inFlight[p]))
  {
  }

  lemma CallKeepsFlights(s: Sys, call: CallId, step: CallStep)
    requires FlightsMatchTasks(s) && CallEnabled(s, call, step)
    ensures FlightsMatchTasks(CallNext(s, call, step))
  {
    if step.Joins? {
      JoinFlights(s.t, step.p, step.reconnecting, step.newTask, s.closed);
      if step.p !in s.t.inFlight { LaunchKeepsFlights(s.t.inFlight, s.tasks, step.p, step.newTask); }
    }
  }

  lemma CallKeepsCalls(s: Sys, call: CallId, step: CallStep)
    requires FlightsMatchTasks(s) && CallsSound(s) && CallEnabled(s, call, step)
    ensures CallsSound(CallNext(s, call, step))
  {
    if step.Joins? { JoinFlights(s.t, step.p, step.reconnecting, step.newTask, s.closed); }
  }

  lemma JoinFlights(t: Tables<Conn>, p: PeerId, reconnecting: bool, newTask: TaskId, closed: set<Conn>)
    ensures var (t', r) := Join(t, p, reconnecting, newTask, closed);
            && t'.inFlight == (if r.Starts? then t.inFlight[p := newTask] else t.inFlight)
            && (r.Starts? ==> p !in t.inFlight && r.task == newTask)
            && (r.Waits? ==> p in t.inFlight && r.task == t.inFlight[p])
  {
  }

  lemma CallKeepsTables(s: Sys, call: CallId, step: CallStep)
    requires TablesSound(s) && CallEnabled(s, call, step)
    ensures TablesSound(CallNext(s, call, step))
  {
    if step.Joins? { JoinKeepsConsistent(s.t, step.p, step.reconnecting, step.newTask, s.closed); }
  }

  lemma CallKeepsTasks(s: Sys, call: CallId, step: CallStep)
    requires TasksSound(s) && CallEnabled(s, call, step)
    ensures TasksSound(CallNext(s, call, step))
  {
  }

  lemma CallKeepsAccounts(s: Sys, call: CallId, step: CallStep)
    requires Inv(s) && CallEnabled(s, call, step)
    ensures AllAccountedFor(CallNext(s, call, step))
  {
    var s' := CallNext(s, call, step);
    forall id, c | TaskHolds(s, id, c) ensures AccountedFor(s', c) { assert TaskHolds(s', id, c); }
    forall p, c | PeerHolds(s, p, c) ensures AccountedFor(s', c) { assert PeerHolds(s', p, c) || c in s'.closed; }
    forall id, c | CloserHolds(s, id, c) ensures AccountedFor(s', c) { assert CloserHolds(s', id, c); }
    Transfer(s, s');
  }

  lemma CloserKeepsFlights(s: Sys, closer: CallId, step: CloserStep)
    requires FlightsMatchTasks(s) && CloserEnabled(s, closer, step)
    ensures FlightsMatchTasks(CloserNext(s, closer, step))
  {
    if step.Enters? {
      CancelKeepsFlights(s.t.inFlight, s.tasks, {step.p});
      if step.p in s.t.inFlight {
        assert (set p | p in s.t.inFlight && p in {step.p} :: s.t.inFlight[p]) == {s.t.inFlight[step.p]};
      } else {
        assert s.t.inFlight - {step.p} == s.t.inFlight;
      }
    }
  }

  lemma CloserKeepsRecords(s: Sys, closer: CallId, step: CloserStep)
    requires CallsSound(s) && TasksSound(s) && CloserEnabled(s, closer, step)
    ensures CallsSound(CloserNext(s, closer, step))
    ensures TasksSound(CloserNext(s, closer, step))
  {
  }

  lemma ClosePeerKeepsConsistent(t: Tables<Conn>, p: PeerId)
    requires Consistent(t)
    ensures Consistent(BeginClosePeer(t, p).0) && BeginClosePeer(t, p).0.closing == t.closing
    ensures Consistent(EndClosePeer(t, p)) && EndClosePeer(t, p).closing == t.closing
  {
    ApplyKeepsConsistent(t, OpBeginClosePeer(p), {});
    ApplyKeepsConsistent(t, OpEndClosePeer(p), {});
  }

  lemma CloserKeepsTables(s: Sys, closer: CallId, step: CloserStep)
    requires TablesSound(s) && CloserEnabled(s, closer, step)
    ensures TablesSound(CloserNext(s, closer, step))
  {
    if step.Enters? {
      ClosePeerKeepsConsistent(s.t, step.p);
      ClosePeerKeepsConsistent(BeginClosePeer(s.t, step.p).0, step.p);
    } else {
      ClosePeerKeepsConsistent(s.t, s.closers[closer].peer);
    }
  }

  lemma EntryKeepsAccounts(s: Sys, closer: CallId, p: PeerId)
    requires Inv(s) && closer !in s.closers
    ensures AllAccountedFor(EnterClosePeer(s, closer, p))
  {
    var s' := EnterClosePeer(s, closer, p);
    forall id, c | TaskHolds(s, id, c) ensures AccountedFor(s', c) { assert TaskHolds(s', id, c); }
    forall q, c | PeerHolds(s, q, c) ensures AccountedFor(s', c) {
      assert PeerHolds(s', q, c) || CloserHolds(s', closer, c) || c in s'.closed;
    }
    forall id, c | CloserHolds(s, id, c) ensures AccountedFor(s', c) { assert CloserHolds(s', id, c); }
    Transfer(s, s');
  }

  lemma CloserKeepsAccounts(s: Sys, closer: CallId, step: CloserStep)
    requires Inv(s) && CloserEnabled(s, closer, step)
    ensures AllAccountedFor(CloserNext(s, closer, step))
  {
    if step.Enters? {
      EntryKeepsAccounts(s, closer, step.p);
    } else {
      var s' := CloserNext(s, closer, step);
      forall id, c | TaskHolds(s, id, c) ensures AccountedFor(s', c) { assert TaskHolds(s', id, c); }
      forall p, c | PeerHolds(s, p, c) ensures AccountedFor(s', c) { assert PeerHolds(s', p, c); }
      forall id, c | CloserHolds(s, id, c) ensures AccountedFor(s', c) {
        assert CloserHolds(s', id, c) || c in s'.closed || c in s'.dropped;
      }
      Transfer(s, s');
    }
  }

  lemma CloseAllKeepsInv(s: Sys, step: CloseAllStep)
    requires Inv(s) && CloseAllEnabled(s, step)
    ensures Inv(CloseAllNext(s, step))
  {
    var s' := CloseAllNext(s, step);
    assert AllAccountedFor(s') by {
      forall id, c | TaskHolds(s, id, c) ensures AccountedFor(s', c) { assert TaskHolds(s', id, c); }
      forall id, c | CloserHolds(s, id, c) ensures AccountedFor(s', c) { assert CloserHolds(s', id, c); }
      forall p, c | PeerHolds(s, p, c) ensures AccountedFor(s', c) {
        assert if step.Begins? then c in s'.closeAll.connections else PeerHolds(s', p, c);
      }
      Transfer(s, s');
    }
  }

  /** A task that is about to run to its end has everything in order but its own record. */
  ghost predicate Ready(s: Sys, id: TaskId, task: Task) {
    && id in s.tasks && s.tasks[id] == task && !task.phase.Ended? && task.connects == 1
    && TablesSound(s) && FlightsMatchTasks(s) && CallsSound(s) && AllAccountedFor(s)
    && (forall other | other in s.tasks && other != id :: TaskSound(s.tasks[other], s.closed))
    && IsClosed(task.displaced, s.closed)
  }

  lemma FinishKeepsFlights(s: Sys, id: TaskId, outcome: Outcome)
    requires FlightsMatchTasks(s) && id in s.tasks && !s.tasks[id].phase.Ended?
    ensures FlightsMatchTasks(Finish(s, id, outcome))
  {
    var p := s.tasks[id].peer;
    assert Finish(s, id, outcome).t.inFlight
           == if Lookup(s.t.inFlight, p) == Some(id) then s.t.inFlight - {p} else s.t.inFlight;
  }

  lemma FinishKeepsTables(s: Sys, id: TaskId, outcome: Outcome)
    requires TablesSound(s) && id in s.tasks
    ensures TablesSound(Finish(s, id, outcome))
  {
    FinishKeepsConsistent(s.t, s.tasks[id].peer, id, outcome.Returned?, s.closed);
  }

  lemma FinishKeepsAccounts(s: Sys, id: TaskId, task: Task, outcome: Outcome)
    requires Ready(s, id, task)
    requires TaskSound(task.(phase := Ended(outcome)), s.closed)
    ensures AllAccountedFor(Finish(s, id, outcome))
  {
    var s' := Finish(s, id, outcome);
    forall other, c | TaskHolds(s, other, c) ensures AccountedFor(s', c) {
      assert TaskHolds(s', other, c) || c in s.closed;
    }
    forall p, c | PeerHolds(s, p, c) ensures AccountedFor(s', c) { assert PeerHolds(s', p, c) || c in s.closed; }
    forall other, c | CloserHolds(s, other, c) ensures AccountedFor(s', c) { assert CloserHolds(s', other, c); }
    Transfer(s, s');
  }

  lemma FinishKeepsInv(s: Sys, id: TaskId, task: Task, outcome: Outcome)
    requires Ready(s, id, task)
    requires TaskSound(task.(phase := Ended(outcome)), s.closed)
    ensures Inv(Finish(s, id, outcome))
  {
    FinishKeepsTables(s, id, outcome);
    FinishKeepsFlights(s, id, outcome);
    FinishKeepsAccounts(s, id, task, outcome);
  }

  /** A task may be suspended in any phase its record supports. */
  lemma SuspendKeepsInv(s: Sys, id: TaskId, task: Task, phase: Phase)
    requires Ready(s, id, task) && !phase.Ended?
    requires TaskSound(task.(phase := phase), s.closed)
    ensures Inv(Put(s, id, task.(phase := phase)))
  {
    var s' := Put(s, id, task.(phase := phase));
    assert FlightsMatchTasks(s');
    forall other, c | TaskHolds(s, other, c) ensures AccountedFor(s', c) { assert TaskHolds(s', other, c); }
    forall p, c | PeerHolds(s, p, c) ensures AccountedFor(s', c) { assert PeerHolds(s', p, c); }
    forall other, c | CloserHolds(s, other, c) ensures AccountedFor(s', c) { assert CloserHolds(s', other, c); }
    Transfer(s, s');
  }

  /** Closing the dialled connection is no obstacle to going on. */
  lemma ClosingKeepsReady(s: Sys, id: TaskId, task: Task, d: Conn)
    requires Ready(s, id, task)
    ensures Ready(s.(closed := s.closed + {d}), id, task)
  {
    var s1 := s.(closed := s.closed + {d});
    forall c | c in s1.known ensures AccountedFor(s1, c) {
      assert AccountedFor(s, c);
      CloseKeepsAccount(s, d, c);
    }
  }

  lemma FailKeepsInv(s: Sys, id: TaskId, task: Task)
    requires Ready(s, id, task)
    ensures Inv(Fail(s, id))
  {
    if task.dialled.Some? && task.dialled.value !in s.closed {
      ClosingKeepsReady(s, id, task, task.dialled.value);
      SuspendKeepsInv(s.(closed := s.closed + {task.dialled.value}), id, task, AwaitCleanupClose);
    } else {
      FinishKeepsInv(s, id, task, Raised);
    }
  }

  /** The state right after the tables were updated, before the displaced connection's close suspends. */
  function JustInstalled(s: Sys, id: TaskId, selected: Conn): Sys
    requires id in s.tasks
  {
    var (t', r) := Install(s.t, s.tasks[id].peer, selected);
    if r.NotInstalled? then s
    else Put(s, id, s.tasks[id].(installed := Some(selected), displaced := r.previous))
           .(t := t', known := s.known + {selected}, closed := s.closed + Values(r.previous))
  }

  lemma InstalledIsReady(s: Sys, id: TaskId, task: Task, selected: Conn)
    requires Ready(s, id, task) && !Blocked(s.t, task.peer)
    ensures Ready(JustInstalled(s, id, selected), id, JustInstalled(s, id, selected).tasks[id])
  {
    var s' := JustInstalled(s, id, selected);
    assert FlightsMatchTasks(s');
    assert PeerHolds(s', task.peer, selected);
    forall other, c | TaskHolds(s, other, c) ensures AccountedFor(s', c) {
      assert TaskHolds(s', other, c) || c == selected;
    }
    forall p, c | PeerHolds(s, p, c) ensures AccountedFor(s', c) {
      assert PeerHolds(s', p, c) || c == selected || c in s'.closed;
    }
    forall other, c | CloserHolds(s, other, c) ensures AccountedFor(s', c) { assert CloserHolds(s', other, c); }
    Transfer(s, s');
  }

  lemma InstallSplits(s: Sys, id: TaskId, selected: Conn)
    requires id in s.tasks && !Blocked(s.t, s.tasks[id].peer)
    ensures var s' := JustInstalled(s, id, selected);
            id in s'.tasks && InstallBySetup(s, id, selected) ==
            if s'.tasks[id].displaced.None? then Finish(s', id, Returned(selected))
            else Put(s', id, s'.tasks[id].(phase := AwaitPreviousClose(selected)))
  {
    var s' := JustInstalled(s, id, selected);
    if s'.tasks[id].displaced.None? {
      assert s'.closed == s.closed;
    } else {
      assert Put(s', id, s'.tasks[id].(phase := AwaitPreviousClose(selected))).tasks
             == InstallBySetup(s, id, selected).tasks;
    }
  }

  lemma InstallKeepsInv(s: Sys, id: TaskId, task: Task, selected: Conn)
    requires Ready(s, id, task)
    requires task.dialled.Some? && (selected == task.dialled.value || task.dialled.value in s.closed)
    ensures Inv(InstallBySetup(s, id, selected))
  {
    if Blocked(s.t, task.peer) {
      FailKeepsInv(s, id, task);
    } else {
      InstalledIsReady(s, id, task, selected);
      InstallSplits(s, id, selected);
      var s' := JustInstalled(s, id, selected);
      var task' := s'.tasks[id];
      if task'.displaced.None? {
        FinishKeepsInv(s', id, task', Returned(selected));
      } else {
        SuspendKeepsInv(s', id, task', AwaitPreviousClose(selected));
      }
    }
  }

  lemma SelectKeepsInv(s: Sys, id: TaskId, task: Task, selected: Conn)
    requires Ready(s, id, task) && task.dialled.Some? && task.installed.None?
    ensures Inv(Select(s, id, selected))
  {
    if selected != task.dialled.value && task.dialled.value !in s.closed {
      ClosingKeepsReady(s, id, task, task.dialled.value);
      SuspendKeepsInv(s.(closed := s.closed + {task.dialled.value}), id, task, AwaitLoserClose(selected));
    } else {
      InstallKeepsInv(s, id, task, selected);
    }
  }

  lemma CloseKeepsAccount(s: Sys, d: Conn, c: Conn)
    requires AccountedFor(s, c)
    ensures AccountedFor(s.(closed := s.closed + {d}), c)
  {
    var s' := s.(closed := s.closed + {d});
    if id :| TaskHolds(s, id, c) { assert TaskHolds(s', id, c); }
    else if p :| PeerHolds(s, p, c) { assert PeerHolds(s', p, c); }
    else if id :| CloserHolds(s, id, c) { assert CloserHolds(s', id, c); }
  }

  lemma TransportKeepsInv(s: Sys, id: TaskId, c: Conn, prepared: bool)
    requires Inv(s) && TaskEnabled(s, id, TransportReturns(c, prepared))
    ensures Inv(TaskNext(s, id, TransportReturns(c, prepared)))
  {
    var task' := s.tasks[id].(phase := AwaitPrepare, dialled := Some(c));
    DialKeepsInv(s, id, s.tasks[id], c);
    if !prepared { SelectKeepsInv(Put(s, id, task').(known := s.known + {c}), id, task', c); }
  }

  lemma CloseReturnKeepsInv(s: Sys, id: TaskId)
    requires Inv(s) && TaskEnabled(s, id, CloseReturns)
    ensures Inv(TaskNext(s, id, CloseReturns))
  {
    var task := s.tasks[id];
    assert Ready(s, id, task);
    match task.phase
    case AwaitLoserClose(selected) => InstallKeepsInv(s, id, task, selected);
    case AwaitPreviousClose(selected) => FinishKeepsInv(s, id, task, Returned(selected));
    case AwaitCleanupClose => FinishKeepsInv(s, id, task, Raised);
  }

  lemma PrepareReturnKeepsInv(s: Sys, id: TaskId, replacement: Option<Conn>)
    requires Inv(s) && TaskEnabled(s, id, PrepareReturns(replacement))
    ensures Inv(TaskNext(s, id, PrepareReturns(replacement)))
  {
    var task := s.tasks[id];
    SelectKeepsInv(s, id, task, if replacement.Some? then replacement.value else task.dialled.value);
  }

  lemma RaiseKeepsInv(s: Sys, id: TaskId)
    requires Inv(s) && TaskEnabled(s, id, AwaitRaises)
    ensures Inv(TaskNext(s, id, AwaitRaises))
  {
    var task := s.tasks[id];
    assert Ready(s, id, task);
    if task.phase.AwaitCleanupClose? { FinishKeepsInv(s, id, task, Raised); } else { FailKeepsInv(s, id, task); }
  }

  lemma BirthKeepsInv(s: Sys, id: TaskId, step: TaskStep)
    requires Inv(s) && TaskEnabled(s, id, step) && (step.NeverStarts? || step.Starts?)
    ensures Inv(TaskNext(s, id, step))
  {
    var task := s.tasks[id];
    assert TaskSound(task, s.closed);
    var task' := TaskNext(s, id, step).tasks[id];
    assert TaskSound(task', s.closed) && (task'.phase.Ended? ==> task.cancelled);
    RecordKeepsInv(s, id, task, task');
    assert TaskNext(s, id, step) == Put(s, id, task');
  }

  lemma TaskKeepsInv(s: Sys, id: TaskId, step: TaskStep)
    requires Inv(s) && TaskEnabled(s, id, step)
    ensures Inv(TaskNext(s, id, step))
  {
    match step
    case TransportReturns(c, prepared) => TransportKeepsInv(s, id, c, prepared);
    case PrepareReturns(replacement) => PrepareReturnKeepsInv(s, id, replacement);
    case CloseReturns => CloseReturnKeepsInv(s, id);
    case AwaitRaises => RaiseKeepsInv(s, id);
    case _ => BirthKeepsInv(s, id, step);
  }

  lemma RecordKeepsInv(s: Sys, id: TaskId, task: Task, task': Task)
    requires Inv(s) && id in s.tasks && s.tasks[id] == task && task.phase.Created?
    requires task'.peer == task.peer && task'.cancelled == task.cancelled && TaskSound(task', s.closed)
    requires task'.dialled.None? && (task'.phase.Ended? ==> task.cancelled)
    ensures Inv(Put(s, id, task'))
  {
    var s' := Put(s, id, task');
    forall other, c | TaskHolds(s, other, c) ensures AccountedFor(s', c) { assert TaskHolds(s', other, c); }
    forall p, c | PeerHolds(s, p, c) ensures AccountedFor(s', c) { assert PeerHolds(s', p, c); }
    forall other, c | CloserHolds(s, other, c) ensures AccountedFor(s', c) { assert CloserHolds(s', other, c); }
    Transfer(s, s');
  }

  lemma DialKeepsInv(s: Sys, id: TaskId, task: Task, c: Conn)
    requires Inv(s) && id in s.tasks && s.tasks[id] == task && task.phase.AwaitTransport?
    ensures Inv(Put(s, id, task.(phase := AwaitPrepare, dialled := Some(c))).(known := s.known + {c}))
  {
    var s' := Put(s, id, task.(phase := AwaitPrepare, dialled := Some(c))).(known := s.known + {c});
    assert TaskHolds(s', id, c);
    forall other, d | TaskHolds(s, other, d) ensures AccountedFor(s', d) { assert TaskHolds(s', other, d); }
    forall p, d | PeerHolds(s, p, d) ensures AccountedFor(s', d) { assert PeerHolds(s', p, d); }
    forall other, d | CloserHolds(s, other, d) ensures AccountedFor(s', d) { assert CloserHolds(s', other, d); }
    Transfer(s, s');
  }

  lemma TableOpKeepsInv(s: Sys, e: Event)
    requires Inv(s) && Enabled(s, e) && (e.EnvironmentCloses? || e.Touches? || e.Adopts? || e.Loses?)
    ensures Inv(Next(s, e))
  {
    var s' := Next(s, e);
    match e
    case EnvironmentCloses(d) =>
      forall c | c in s.known ensures AccountedFor(s', c) { assert AccountedFor(s, c); CloseKeepsAccount(s, d, c); }
    case Touches(op) =>
      ApplyKeepsConsistent(s.t, op, s.closed);
      TableOpKeepsAccounts(s, e);
    case Adopts(p, c) =>
      ApplyKeepsConsistent(s.t, OpInstall(p, c), s.closed);
      TableOpKeepsAccounts(s, e);
    case Loses(p, c) =>
      ApplyKeepsConsistent(s.t, OpLose(p, c), s.closed);
      TableOpKeepsAccounts(s, e);
  }

  lemma TableOpKeepsAccounts(s: Sys, e: Event)
    requires AllAccountedFor(s) && Enabled(s, e) && (e.Touches? || e.Adopts? || e.Loses?)
    ensures AllAccountedFor(Next(s, e))
  {
    var s' := Next(s, e);
    if e.Adopts? && !Blocked(s.t, e.p) { assert PeerHolds(s', e.p, e.c); }
    forall id, c | TaskHolds(s, id, c) ensures AccountedFor(s', c) { assert TaskHolds(s', id, c); }
    forall p, c | PeerHolds(s, p, c) ensures AccountedFor(s', c) {
      assert PeerHolds(s', p, c) || c in s.closed || c in s'.handedBack;
    }
    forall id, c | CloserHolds(s, id, c) ensures AccountedFor(s', c) { assert CloserHolds(s', id, c); }
    Transfer(s, s');
  }

  lemma StepKeepsInv(s: Sys, e: Event)
    requires Inv(s) && Enabled(s, e)
    ensures Inv(Next(s, e))
  {
    match e
    case CallDoes(call, step) =>
      CallKeepsTables(s, call, step); CallKeepsTasks(s, call, step); CallKeepsFlights(s, call, step);
      CallKeepsCalls(s, call, step); CallKeepsAccounts(s, call, step);
    case CloserDoes(closer, step) =>
      CloserKeepsTables(s, closer, step); CloserKeepsFlights(s, closer, step);
      CloserKeepsRecords(s, closer, step); CloserKeepsAccounts(s, closer, step);
    case CloseAllDoes(step) => CloseAllKeepsInv(s, step);
    case TaskDoes(id, step) => TaskKeepsInv(s, id, step);
    case _ => TableOpKeepsInv(s, e);
  }

  /** Every state reached by any interleaving satisfies the invariant. */
  lemma {:induction false} RunsKeepInv(s: Sys, es: seq<Event>)
    requires Inv(s) && IsRun(s, es)
    ensures Inv(After(s, es))
    decreases |es|
  {
    if es != [] {
      StepKeepsInv(s, es[0]);
      RunsKeepInv(Next(s, es[0]), es[1..]);
    }
  }

  // ----- what the invariant means --------------------------------------------------------

  /** In every reachable state the canonical connections are exactly those of the peers in
      state Connected, a closing peer has neither connection nor setup task, and during
      `close_all` there are none at all. */
  lemma TablesAgreeInEveryRun(es: seq<Event>, p: PeerId)
    requires IsRun(Init, es)
    ensures var t := After(Init, es).t;
            && (p in t.connections <==> Lookup(t.states, p) == Some(Connected))
            && (t.closing || p in t.closingPeers ==> p !in t.connections && p !in t.inFlight)
            && (t.closing <==> !After(Init, es).closeAll.Idle?)
  {
    RunsKeepInv(Init, es);
  }

  /** Single flight: one uncancelled, unfinished setup task per peer, each dialling at most once. */
  lemma SingleFlight(es: seq<Event>, a: TaskId, b: TaskId)
    requires IsRun(Init, es)
    ensures var s := After(Init, es);
            a in s.tasks && b in s.tasks ==>
              && s.tasks[a].connects <= 1
              && (Live(s.tasks[a]) && Live(s.tasks[b]) && s.tasks[a].peer == s.tasks[b].peer ==> a == b)
  {
    RunsKeepInv(Init, es);
    var s := After(Init, es);
    if a in s.tasks { assert TaskSound(s.tasks[a], s.closed); }
  }

  /** A finished setup task leaks nothing: what it dialled is closed or is the connection it
      made canonical, and what it displaced has been closed. */
  lemma SetupLeaksNothing(es: seq<Event>, id: TaskId)
    requires IsRun(Init, es)
    ensures var s := After(Init, es);
            id in s.tasks && s.tasks[id].phase.Ended? ==>
              var task := s.tasks[id];
              && (task.dialled.Some? ==> task.dialled.value in s.closed
                                         || (task.phase.outcome.Returned? && task.installed == task.dialled))
              && (task.displaced.Some? ==> task.displaced.value in s.closed)
              && (task.phase.outcome.Returned? ==> task.installed == Some(task.phase.outcome.connection))
  {
    RunsKeepInv(Init, es);
    var s := After(Init, es);
    if id in s.tasks { assert TaskSound(s.tasks[id], s.closed); }
  }

  lemma {:induction false} OutcomesAreFinal(s: Sys, es: seq<Event>, id: TaskId)
    requires IsRun(s, es) && id in s.tasks && s.tasks[id].phase.Ended?
    ensures id in After(s, es).tasks && After(s, es).tasks[id].phase == s.tasks[id].phase
    decreases |es|
  {
    if es != [] {
      OutcomeSurvivesStep(s, es[0], id);
      OutcomesAreFinal(Next(s, es[0]), es[1..], id);
    }
  }

  lemma OutcomeSurvivesStep(s: Sys, e: Event, id: TaskId)
    requires Enabled(s, e) && id in s.tasks && s.tasks[id].phase.Ended?
    ensures id in Next(s, e).tasks && Next(s, e).tasks[id].phase == s.tasks[id].phase
  {
    if e.TaskDoes? { TaskStepsAreLocal(s, e.task, e.taskStep); }
  }

  predicate SameElsewhere(s: Sys, s': Sys, id: TaskId) {
    && s'.tasks.Keys == s.tasks.Keys
    && forall other | other in s.tasks && other != id :: s'.tasks[other] == s.tasks[other]
  }

  lemma InstallIsLocal(s: Sys, id: TaskId, selected: Conn)
    requires id in s.tasks
    ensures SameElsewhere(s, InstallBySetup(s, id, selected), id)
  {
  }

  lemma TaskStepsAreLocal(s: Sys, id: TaskId, step: TaskStep)
    requires TaskEnabled(s, id, step)
    ensures SameElsewhere(s, TaskNext(s, id, step), id)
  {
    match step
    case TransportReturns(c, _) =>
      InstallIsLocal(Put(s, id, s.tasks[id].(phase := AwaitPrepare, dialled := Some(c))).(known := s.known + {c}), id, c);
    case PrepareReturns(replacement) =>
      InstallIsLocal(s, id, if replacement.Some? then replacement.value else s.tasks[id].dialled.value);
    case CloseReturns => if s.tasks[id].phase.AwaitLoserClose? { InstallIsLocal(s, id, s.tasks[id].phase.selected); }
    case _ =>
  }

  /** Every caller served by a shared task gets that task's outcome, however many other
      callers gave up before or after, and whatever else happens in between. */
  lemma CallersShareTheOutcome(before: seq<Event>, after: seq<Event>, a: CallId, b: CallId)
    requires IsRun(Init, before) && IsRun(After(Init, before), after)
    ensures var s := After(Init, before); var s' := After(s, after);
            (a in s.calls && b in s'.calls && s.calls[a].Got? && s'.calls[b].Got?
             && s.calls[a].task == s'.calls[b].task) ==> s.calls[a].outcome == s'.calls[b].outcome
  {
    var s := After(Init, before);
    RunsKeepInv(Init, before);
    RunsKeepInv(s, after);
    if a in s.calls && s.calls[a].Got? {
      assert CallSound(s, s.calls[a]);
      OutcomesAreFinal(s, after, s.calls[a].task);
      if b in After(s, after).calls { assert CallSound(After(s, after), After(s, after).calls[b]); }
    }
  }

  /** In every run a `connect` call is answered at once by a rejection exactly while closing and by
      the peer's open connection when there is one; otherwise it waits for the setup under way, and
      only without one it starts its own. */
  lemma ConnectCallsAreAnswered(es: seq<Event>, call: CallId, p: PeerId, reconnecting: bool, newTask: TaskId)
    requires IsRun(Init, es) && Enabled(After(Init, es), CallDoes(call, Joins(p, reconnecting, newTask)))
    ensures var s := After(Init, es); var s' := Next(s, CallDoes(call, Joins(p, reconnecting, newTask)));
            && call in s'.calls && (s'.calls[call].Rejected? <==> s.t.closing || p in s.t.closingPeers)
            && (!s'.calls[call].Rejected? ==>
                  s'.calls[call] == if p in s.t.connections && s.t.connections[p] !in s.closed then Reused(s.t.connections[p])
                                    else Waiting(if p in s.t.inFlight then s.t.inFlight[p] else newTask))
            && (newTask in s'.tasks <==> s'.calls[call] == Waiting(newTask))
  {
    var s := After(Init, es);
    RunsKeepInv(Init, es);
    ConnectAnswers(s.t, p, reconnecting, newTask, s.closed);
  }

  /** An installation that is not refused makes the chosen connection canonical, and the task goes
      on to close the displaced one or returns its choice at once. */
  lemma InstallationUsesChoice(s: Sys, id: TaskId, chosen: Conn)
    requires id in s.tasks && !Blocked(s.t, s.tasks[id].peer)
    ensures var s' := InstallBySetup(s, id, chosen); var p := s.tasks[id].peer;
            && id in s'.tasks && s'.tasks[id].phase in {AwaitPreviousClose(chosen), Ended(Returned(chosen))}
            && p in s'.t.connections && s'.t.connections[p] == chosen && s.closed <= s'.closed
  {
  }

  /** A prepared setup goes on with the connection `prepare` chose, its own by default: it closes
      its own first when another one was chosen, and ends by returning what it installed. */
  lemma PreparedConnectionIsUsed(s: Sys, id: TaskId, replacement: Option<Conn>)
    requires TaskEnabled(s, id, PrepareReturns(replacement)) && !Blocked(s.t, s.tasks[id].peer)
    ensures var task := s.tasks[id]; var s' := TaskNext(s, id, PrepareReturns(replacement));
            var chosen := if replacement.Some? then replacement.value else task.dialled.value;
            && id in s'.tasks && (chosen != task.dialled.value ==> task.dialled.value in s'.closed)
            && (s'.tasks[id].phase == AwaitLoserClose(chosen)
                || (s'.tasks[id].phase in {AwaitPreviousClose(chosen), Ended(Returned(chosen))}
                    && task.peer in s'.t.connections && s'.t.connections[task.peer] == chosen))
  {
    InstallationUsesChoice(s, id, if replacement.Some? then replacement.value else s.tasks[id].dialled.value);
  }

  /** A setup resumed after closing its own connection, and one resumed after closing the displaced
      one, still stand by their choice. */
  lemma ResumedSetupKeepsChoice(s: Sys, id: TaskId)
    requires TaskEnabled(s, id, CloseReturns) && !Blocked(s.t, s.tasks[id].peer)
    ensures var s' := TaskNext(s, id, CloseReturns); var phase := s.tasks[id].phase; var p := s.tasks[id].peer;
            && id in s'.tasks
            && (phase.AwaitLoserClose? ==>
                  && s'.tasks[id].phase in {AwaitPreviousClose(phase.selected), Ended(Returned(phase.selected))}
                  && p in s'.t.connections && s'.t.connections[p] == phase.selected)
            && (phase.AwaitPreviousClose? ==> s'.tasks[id].phase == Ended(Returned(phase.selected)))
            && (phase.AwaitCleanupClose? ==> s'.tasks[id].phase == Ended(Raised))
  {
    if s.tasks[id].phase.AwaitLoserClose? { InstallationUsesChoice(s, id, s.tasks[id].phase.selected); }
  }

  /** The first steps of a setup: one cancelled before it ran just raises, and a dialled connection
      is recorded and waits for `prepare`, or is installed at once without one. */
  lemma SetupBegins(s: Sys, id: TaskId, step: TaskStep)
    requires TaskEnabled(s, id, step) && (step.NeverStarts? || step.Starts? || (step.TransportReturns? && step.prepared))
    ensures var task := s.tasks[id]; var s' := TaskNext(s, id, step);
            && s'.t == s.t && s'.closed == s.closed && id in s'.tasks
            && (step.NeverStarts? ==> s'.tasks[id] == task.(phase := Ended(Raised)))
            && (step.Starts? ==> s'.tasks[id] == task.(phase := AwaitTransport, connects := task.connects + 1))
            && (step.TransportReturns? ==> s'.tasks[id] == task.(phase := AwaitPrepare, dialled := Some(step.c))
                                           && s'.known == s.known + {step.c})
  {
  }

  lemma UnpreparedConnectionIsUsed(s: Sys, id: TaskId, c: Conn)
    requires TaskEnabled(s, id, TransportReturns(c, false)) && !Blocked(s.t, s.tasks[id].peer)
    ensures var s' := TaskNext(s, id, TransportReturns(c, false)); var p := s.tasks[id].peer;
            && id in s'.tasks && s'.tasks[id].phase in {AwaitPreviousClose(c), Ended(Returned(c))}
            && p in s'.t.connections && s'.t.connections[p] == c
  {
    InstallationUsesChoice(Put(s, id, s.tasks[id].(phase := AwaitPrepare, dialled := Some(c))).(known := s.known + {c}), id, c);
  }

  /** A setup whose await raised, or whose peer closed, closes what it dialled, if that is open, and
      then ends by raising. */
  lemma FailedSetupCleansUp(s: Sys, id: TaskId, step: TaskStep)
    requires TaskEnabled(s, id, step) && !step.NeverStarts?
    requires step.AwaitRaises? || (step.CloseReturns? && s.tasks[id].phase.AwaitLoserClose? && Blocked(s.t, s.tasks[id].peer))
    ensures var task := s.tasks[id]; var s' := TaskNext(s, id, step);
            && id in s'.tasks && s'.t.connections.Keys <= s.t.connections.Keys
            && if task.dialled.Some? && task.dialled.value !in s.closed && !task.phase.AwaitCleanupClose?
               then s'.tasks[id].phase.AwaitCleanupClose? && s'.closed == s.closed + {task.dialled.value}
               else s'.tasks[id].phase == Ended(Raised) && s'.closed == s.closed
  {
  }

  /** A waiting caller gets the outcome of its own task, or gives up; neither touches anything else. */
  lemma WaitsEnd(s: Sys, call: CallId, step: CallStep)
    requires CallEnabled(s, call, step) && !step.Joins?
    ensures var s' := CallNext(s, call, step); var id := s.calls[call].task;
            && s' == s.(calls := s'.calls) && s'.calls.Keys == s.calls.Keys
            && (step.Wakes? ==> s'.calls[call].Got? && s'.calls[call].task == id
                                && s.tasks[id].phase == Ended(s'.calls[call].outcome))
            && (step.GivesUp? ==> s'.calls[call] == GaveUp(id))
            && forall other | other in s.calls && other != call :: s'.calls[other] == s.calls[other]
  {
  }

  /** `close_peer` on entry: the peer is blocked and out of both maps, its setup is cancelled and
      waited for, and without a setup its connection is closed at once. */
  lemma EnteringClosePeer(s: Sys, closer: CallId, p: PeerId, id: TaskId)
    requires CloserEnabled(s, closer, Enters(p)) && id in s.tasks
    ensures var s' := CloserNext(s, closer, Enters(p)); var held := Lookup(s.t.connections, p);
            && p !in s'.t.connections && p !in s'.t.inFlight && closer in s'.closers
            && id in s'.tasks
            && s'.tasks[id] == s.tasks[id].(cancelled := s.tasks[id].cancelled || Lookup(s.t.inFlight, p) == Some(id))
            && (p in s.t.inFlight ==>
                  s'.closers[closer] == AwaitTask(p, s.t.inFlight[p], held) && s'.closed == s.closed && p in s'.t.closingPeers)
            && (p !in s.t.inFlight && held.Some? ==>
                  s'.closers[closer] == AwaitClose(p) && s'.closed == s.closed + {held.value} && p in s'.t.closingPeers)
            && (p !in s.t.inFlight && held.None? ==>
                  s'.closers[closer].CloserDone? && s'.closed == s.closed && Lookup(s'.t.states, p) == Some(Closed))
  {
  }

  /** And when it resumes: it closes what it took, or ends and unblocks its peer. */
  lemma LeavingClosePeer(s: Sys, closer: CallId, step: CloserStep)
    requires CloserEnabled(s, closer, step) && !step.Enters?
    ensures var s' := CloserNext(s, closer, step); var was := s.closers[closer];
            && closer in s'.closers && s'.tasks == s.tasks && s'.t.connections == s.t.connections
            && (if step.SeesTaskEnd? && was.connection.Some?
                then s'.closers[closer] == AwaitClose(was.peer) && s'.closed == s.closed + {was.connection.value}
                else s'.closers[closer].CloserDone? && s'.closed == s.closed
                     && s'.t.closingPeers == s.t.closingPeers - {was.peer})
  {
  }

  /** `close_all`, section by section: everything is taken out and every setup cancelled, then the
      taken connections are closed one by one, and the end lowers the flags. */
  lemma ClosingAll(s: Sys, step: CloseAllStep, id: TaskId)
    requires CloseAllEnabled(s, step) && id in s.tasks
    ensures var s' := CloseAllNext(s, step);
            && id in s'.tasks
            && s'.tasks[id] == s.tasks[id].(cancelled := s.tasks[id].cancelled || (step.Begins? && id in s.t.inFlight.Values))
            && (step.Begins? ==>
                  && s'.t.closing && s'.t.connections == map[] && s'.t.inFlight == map[] && s'.closed == s.closed
                  && s'.closeAll == AwaitTasks(KnownPeers(s.t), s.t.inFlight.Values, s.t.connections.Values))
            && (step.SeesTasksEnd? ==>
                  s'.closeAll == AwaitCloses(s.closeAll.peers, s.closeAll.connections) && s'.closed == s.closed)
            && (step.Closes? ==> s'.closed == s.closed + {step.c} && s'.closeAll.AwaitCloses?
                                 && s'.closeAll.connections == s.closeAll.connections - {step.c})
            && (step.Ends? ==> s'.closeAll.Idle? && !s'.t.closing && s'.t.closingPeers == {})
  {
  }

  /** What others do: a physical close is recorded, and a connection the manager lets go of in
      `adopt` or `connection_lost` is handed back to the caller. */
  lemma HandingBack(s: Sys, e: Event)
    requires Enabled(s, e)
    ensures var s' := Next(s, e);
            && (e.EnvironmentCloses? ==> s' == s.(closed := s'.closed) && s'.closed == s.closed + {e.c})
            && (e.Adopts? && !Blocked(s.t, e.p) ==>
                  && Lookup(s'.t.connections, e.p) == Some(e.c) && s'.known == s.known + {e.c}
                  && s'.handedBack == s.handedBack + (Values(Lookup(s.t.connections, e.p)) - {e.c}))
            && (e.Adopts? && Blocked(s.t, e.p) ==> s' == s)
            && (e.Loses? ==> s'.handedBack == s.handedBack + (if Lookup(s.t.connections, e.p) == Some(e.c) then {e.c} else {})
                             && Lookup(s'.t.connections, e.p) != Some(e.c))
  {
  }

  predicate IsGivingUp(e: Event) {
    e.CallDoes? && e.callStep.GivesUp?
  }

  function WithoutGivingUp(es: seq<Event>): seq<Event> {
    if es == [] then []
    else (if IsGivingUp(es[0]) then [] else [es[0]]) + WithoutGivingUp(es[1..])
  }

  /** Equal but for callers that gave up in one and still wait for the same task in the other. */
  ghost predicate SameButGivenUp(s: Sys, other: Sys) {
    && other == s.(calls := other.calls) && other.calls.Keys == s.calls.Keys
    && forall id | id in s.calls ::
         other.calls[id] == s.calls[id] || (s.calls[id].GaveUp? && other.calls[id] == Waiting(s.calls[id].task))
  }

  lemma CallCannotTell(s: Sys, other: Sys, call: CallId, step: CallStep)
    requires SameButGivenUp(s, other) && CallEnabled(s, call, step)
    ensures !step.GivesUp? ==> CallEnabled(other, call, step)
                               && SameButGivenUp(CallNext(s, call, step), CallNext(other, call, step))
    ensures step.GivesUp? ==> SameButGivenUp(CallNext(s, call, step), other)
  {
    assert other.t == s.t && other.tasks == s.tasks && other.closed == s.closed;
  }

  lemma FailIgnoresCalls(s: Sys, calls: map<CallId, Call>, id: TaskId, outcome: Outcome)
    requires id in s.tasks
    ensures Finish(s.(calls := calls), id, outcome) == Finish(s, id, outcome).(calls := calls)
    ensures Fail(s.(calls := calls), id) == Fail(s, id).(calls := calls)
  {
  }

  lemma InstallIgnoresCalls(s: Sys, calls: map<CallId, Call>, id: TaskId, selected: Conn)
    requires id in s.tasks
    ensures InstallBySetup(s.(calls := calls), id, selected) == InstallBySetup(s, id, selected).(calls := calls)
  {
    FailIgnoresCalls(s, calls, id, Raised);
  }

  lemma SelectIgnoresCalls(s: Sys, calls: map<CallId, Call>, id: TaskId, selected: Conn)
    requires id in s.tasks && s.tasks[id].dialled.Some?
    ensures Select(s.(calls := calls), id, selected) == Select(s, id, selected).(calls := calls)
  {
    InstallIgnoresCalls(s, calls, id, selected);
  }

  lemma TaskIgnoresCalls(s: Sys, calls: map<CallId, Call>, id: TaskId, step: TaskStep)
    requires TaskEnabled(s, id, step)
    ensures TaskEnabled(s.(calls := calls), id, step)
    ensures TaskNext(s.(calls := calls), id, step) == TaskNext(s, id, step).(calls := calls)
  {
    match step
    case TransportReturns(c, _) =>
      var dialled := s.tasks[id].(phase := AwaitPrepare, dialled := Some(c));
      SelectIgnoresCalls(Put(s, id, dialled).(known := s.known + {c}), calls, id, c);
    case PrepareReturns(replacement) =>
      SelectIgnoresCalls(s, calls, id, if replacement.Some? then replacement.value else s.tasks[id].dialled.value);
    case CloseReturns =>
      if s.tasks[id].phase.AwaitLoserClose? { InstallIgnoresCalls(s, calls, id, s.tasks[id].phase.selected); }
    case AwaitRaises => FailIgnoresCalls(s, calls, id, Raised);
    case _ =>
  }

  lemma CloserIgnoresCalls(s: Sys, calls: map<CallId, Call>, closer: CallId, step: CloserStep)
    requires CloserEnabled(s, closer, step)
    ensures CloserEnabled(s.(calls := calls), closer, step)
    ensures CloserNext(s.(calls := calls), closer, step) == CloserNext(s, closer, step).(calls := calls)
  {
  }

  lemma StepCannotTell(s: Sys, other: Sys, e: Event)
    requires SameButGivenUp(s, other) && Enabled(s, e)
    ensures !IsGivingUp(e) ==> Enabled(other, e) && SameButGivenUp(Next(s, e), Next(other, e))
    ensures IsGivingUp(e) ==> SameButGivenUp(Next(s, e), other)
  {
    match e
    case CallDoes(call, step) => CallCannotTell(s, other, call, step);
    case TaskDoes(id, step) =>
      TaskIgnoresCalls(s, s.calls, id, step);
      TaskIgnoresCalls(s, other.calls, id, step);
    case CloserDoes(closer, step) =>
      CloserIgnoresCalls(s, s.calls, closer, step);
      CloserIgnoresCalls(s, other.calls, closer, step);
    case _ =>
  }

  lemma {:induction false} RunCannotTell(s: Sys, other: Sys, es: seq<Event>)
    requires SameButGivenUp(s, other) && IsRun(s, es)
    ensures IsRun(other, WithoutGivingUp(es)) && SameButGivenUp(After(s, es), After(other, WithoutGivingUp(es)))
    decreases |es|
  {
    if es != [] {
      StepCannotTell(s, other, es[0]);
      if IsGivingUp(es[0]) {
        RunCannotTell(Next(s, es[0]), other, es[1..]);
        assert WithoutGivingUp(es) == WithoutGivingUp(es[1..]);
      } else {
        RunCannotTell(Next(s, es[0]), Next(other, es[0]), es[1..]);
        assert WithoutGivingUp(es)[1..] == WithoutGivingUp(es[1..]);
      }
    }
  }

  /** Noninterference: had nobody given up, every run would still be possible and would end with
      the same tables, setup tasks, closers, closed connections and records of all other callers. */
  lemma GivingUpIsPrivate(s: Sys, es: seq<Event>)
    requires IsRun(s, es)
    ensures IsRun(s, WithoutGivingUp(es))
    ensures SameButGivenUp(After(s, es), After(s, WithoutGivingUp(es)))
  {
    RunCannotTell(s, s, es);
  }

  /** No connection is lost: once every setup task has ended and no close is in progress, each
      connection the manager ever held is closed, canonical, in the hands of a caller told to
      close it, or was dropped by a cancelled `close_peer`. */
  lemma NothingIsLost(es: seq<Event>, c: Conn)
    requires IsRun(Init, es)
    ensures var s := After(Init, es);
            (c in s.known && s.closeAll.Idle?
             && (forall id | id in s.tasks :: s.tasks[id].phase.Ended?)
             && (forall id | id in s.closers :: !s.closers[id].AwaitTask?))
            ==> c in s.closed || c in s.t.connections.Values || c in s.handedBack || c in s.dropped
  {
    RunsKeepInv(Init, es);
    var s := After(Init, es);
    if c in s.known {
      assert AccountedFor(s, c);
      if p :| PeerHolds(s, p, c) { assert s.t.connections[p] in s.t.connections.Values; }
    }
  }

  /** `close_peer` closes the connection it took out exactly when it is not cancelled while
      awaiting the setup task, unless that connection was closed already. */
  lemma ClosePeerClosesUnlessCancelled(s: Sys, closer: CallId, step: CloserStep, c: Conn)
    requires Enabled(s, CloserDoes(closer, step)) && CloserHolds(s, closer, c)
    ensures c in Next(s, CloserDoes(closer, step)).closed <==> step.SeesTaskEnd? || c in s.closed
    ensures c in Next(s, CloserDoes(closer, step)).dropped - s.dropped
            <==> step.IsCancelled? && c !in s.closed && c !in s.dropped
  {
  }

  lemma TasksDropNothing(s: Sys, id: TaskId, step: TaskStep)
    requires TaskEnabled(s, id, step)
    ensures TaskNext(s, id, step).dropped == s.dropped
  {
  }

  lemma OnlyCancelledClosersDrop(s: Sys, e: Event, c: Conn)
    requires Enabled(s, e) && c in Next(s, e).dropped && c !in s.dropped
    ensures e.CloserDoes? && e.closerStep.IsCancelled? && CloserHolds(s, e.closer, c) && c !in s.closed
  {
    if e.TaskDoes? { TasksDropNothing(s, e.task, e.taskStep); }
  }

  predicate CancelsClose(e: Event) {
    e.CloserDoes? && e.closerStep.IsCancelled?
  }

  lemma StepDropsNothing(s: Sys, e: Event)
    requires Enabled(s, e) && !CancelsClose(e)
    ensures Next(s, e).dropped == s.dropped
  {
    if e.TaskDoes? { TasksDropNothing(s, e.task, e.taskStep); }
  }

  lemma {:induction false} RunsDropNothing(s: Sys, es: seq<Event>)
    requires IsRun(s, es) && forall e | e in es :: !CancelsClose(e)
    ensures After(s, es).dropped == s.dropped
    decreases |es|
  {
    if es != [] {
      assert es[0] in es;
      StepDropsNothing(s, es[0]);
      RunsDropNothing(Next(s, es[0]), es[1..]);
    }
  }

  /** In a run in which no `close_peer` is cancelled before its setup task ends, nothing is lost
      at all: at rest every connection ever held is closed, canonical, or a caller's to close. */
  lemma UncancelledRunsLoseNothing(es: seq<Event>, c: Conn)
    requires IsRun(Init, es) && forall e | e in es :: !CancelsClose(e)
    ensures var s := After(Init, es);
            (c in s.known && s.closeAll.Idle?
             && (forall id | id in s.tasks :: s.tasks[id].phase.Ended?)
             && (forall id | id in s.closers :: !s.closers[id].AwaitTask?))
            ==> c in s.closed || c in s.t.connections.Values || c in s.handedBack
  {
    RunsDropNothing(Init, es);
    NothingIsLost(es, c);
  }

  lemma {:induction false} ExtendRun(s: Sys, es: seq<Event>, e: Event)
    requires IsRun(s, es) && Enabled(After(s, es), e)
    ensures IsRun(s, es + [e]) && After(s, es + [e]) == Next(After(s, es), e)
    decreases |es|
  {
    if es == [] {
      assert es + [e] == [e] && [e][1..] == [];
    } else {
      ExtendRun(Next(s, es[0]), es[1..], e);
      assert (es + [e])[1..] == es[1..] + [e];
    }
  }

  /** The cancelled case is real: an inbound connection adopted while a setup task is in flight
      stays open and unowned when the `close_peer` that removed it is cancelled. */
  lemma CancelledClosePeerLeaks(p: PeerId, c: Conn) returns (es: seq<Event>)
    ensures IsRun(Init, es)
    ensures var s := After(Init, es);
            c in s.known && c !in s.closed && !Owned(s, c) && c !in s.handedBack
            && (forall id | id in s.tasks :: s.tasks[id].phase.Ended?)
  {
    es := ReachAdopted(p, c);
    CloserTakesOut(p, c);
    ExtendRun(Init, es, CloserDoes(0, Enters(p)));
    es := es + [CloserDoes(0, Enters(p))];
    ExtendRun(Init, es, CloserDoes(0, IsCancelled));
    es := es + [CloserDoes(0, IsCancelled)];
    ExtendRun(Init, es, TaskDoes(0, AwaitRaises));
    es := es + [TaskDoes(0, AwaitRaises)];
  }

  /** An inbound connection adopted while a setup is in flight. */
  function Adopted(p: PeerId, c: Conn): Sys {
    Sys(Tables(map[p := c], map[p := 0], map[p := Connected], {}, false), {},
        map[0 := Task(p, AwaitTransport, false, 1, None, None, None)],
        map[], Idle, map[0 := Waiting(0)], {c}, {}, {})
  }

  function TakenOut(p: PeerId, c: Conn): Sys {
    Adopted(p, c).(t := Tables(map[], map[], map[p := Closing], {p}, false),
                   tasks := map[0 := Task(p, AwaitTransport, true, 1, None, None, None)],
                   closers := map[0 := AwaitTask(p, 0, Some(c))])
  }

  /** `close_peer` takes it out and is cancelled before it may close it. */
  lemma CloserTakesOut(p: PeerId, c: Conn)
    ensures Enabled(Adopted(p, c), CloserDoes(0, Enters(p)))
    ensures Next(Adopted(p, c), CloserDoes(0, Enters(p))) == TakenOut(p, c)
    ensures Enabled(TakenOut(p, c), CloserDoes(0, IsCancelled))
    ensures var s := Next(TakenOut(p, c), CloserDoes(0, IsCancelled));
            && s.closers == map[0 := CloserDone] && s.t.connections == map[] && s.dropped == {c}
            && s.tasks == TakenOut(p, c).tasks && s.closed == {} && s.closeAll.Idle? && s.handedBack == {} && s.known == {c}
  {
  }

  lemma ReachAdopted(p: PeerId, c: Conn) returns (es: seq<Event>)
    ensures IsRun(Init, es)
    ensures After(Init, es) == Adopted(p, c)
  {
    var s1 := Next(Init, CallDoes(0, Joins(p, false, 0)));
    ExtendRun(Init, [], CallDoes(0, Joins(p, false, 0)));
    es := [CallDoes(0, Joins(p, false, 0))];
    assert [] + es == es;
    assert s1 == Sys(Tables(map[], map[p := 0], map[p := Connecting], {}, false), {},
                     map[0 := Task(p, Created, false, 0, None, None, None)],
                     map[], Idle, map[0 := Waiting(0)], {}, {}, {});
    ExtendRun(Init, es, TaskDoes(0, TaskStep.Starts));
    es := es + [TaskDoes(0, TaskStep.Starts)];
    ExtendRun(Init, es, Adopts(p, c));
    es := es + [Adopts(p, c)];
  }
}
