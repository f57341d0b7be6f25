/** The logical state a node reports for a peer, over whole runs of `ConnectionManager`: exactly
    which transitions happen, against the diagram in the reliability guide. */
module ManagerStates {
  import opened Wrappers
  import opened ManagerTables
  import opened R = ManagerRuns

  /** `state`: a connection already closed reads as Disconnected. */
  function Reported(t: Tables<Conn>, p: PeerId, closed: set<Conn>): LogicalState {
    Report(t, p, closed).1
  }

  function StateOf(s: Sys, p: PeerId): LogicalState {
    Reported(s.t, p, s.closed)
  }

  /** The transitions that happen. */
  predicate Edge(from: LogicalState, to: LogicalState) {
    match from
    case Disconnected => !to.Disconnected?
    case Connecting => !to.Connecting? && !to.Closed?
    case Reconnecting => !to.Reconnecting?
    case Connected => to.Disconnected? || to.Closing?
    case Closing => to.Disconnected? || to.Closed?
    case Closed => !to.Closed?
  }

  /** The transitions drawn in the diagram. */
  predicate Drawn(from: LogicalState, to: LogicalState) {
    match from
    case Disconnected => to.Connecting? || to.Reconnecting?
    case Connecting => to.Connected? || to.Disconnected?
    case Reconnecting => to.Connected? || to.Disconnected?
    case Connected => to.Disconnected? || to.Closing?
    case Closing => to.Closed?
    case Closed => to.Connecting?
  }

  predicate Moves(from: LogicalState, to: LogicalState) {
    from == to || Edge(from, to)
  }

  // ----- what holds of the states in every run -------------------------------------------

  /** A peer reads Connecting only during a setup, and Closing only while something closes it. */
  ghost predicate StatesSane(t: Tables<Conn>) {
    && (forall p: PeerId | p in t.states && t.states[p].Connecting? :: p in t.inFlight)
    && (forall p: PeerId | p in t.states && t.states[p].Closing? :: Blocked(t, p))
  }

  /** The close in progress will reach every Closing peer. */
  ghost predicate CloseAllReaches(s: Sys) {
    s.t.closing && !s.closeAll.Idle? ==>
      forall p: PeerId | p in s.t.states && s.t.states[p].Closing? :: p in s.closeAll.peers
  }

  /** Once the running setup has installed a connection its peer no longer reads Connecting. */
  ghost predicate InstalledNotConnecting(s: Sys) {
    forall id | id in s.tasks && R.Live(s.tasks[id]) && s.tasks[id].installed.Some? ::
      Lookup(s.t.states, s.tasks[id].peer) != Some(Connecting)
  }

  ghost predicate StateInv(s: Sys) {
    Inv(s) && StatesSane(s.t) && CloseAllReaches(s) && InstalledNotConnecting(s)
  }

  // ----- one critical section ------------------------------------------------------------

  lemma ReapStates(t: Tables<Conn>, p: PeerId, closed: set<Conn>)
    requires Consistent(t) && StatesSane(t)
    ensures var t' := Reap(t, p, closed).0;
            && StatesSane(t') && t'.inFlight == t.inFlight && t'.closing == t.closing && t'.closingPeers == t.closingPeers
            && t'.states.Keys == t.states.Keys
            && (forall q: PeerId | q in t.states :: t'.states[q] == t.states[q] || t'.states[q].Disconnected?)
            && forall q: PeerId :: Reported(t', q, closed) == Reported(t, q, closed)
  {
  }

  /** Writing one state: sane when Connecting comes with a setup and Closing is not written. */
  lemma WriteStates(t: Tables<Conn>, p: PeerId, v: LogicalState)
    requires StatesSane(t) && !v.Closing? && (v.Connecting? ==> p in t.inFlight)
    ensures StatesSane(t.(states := t.states[p := v]))
  {
  }

  lemma MarkReconnectingMoves(t: Tables<Conn>, p: PeerId, closed: set<Conn>, q: PeerId)
    requires Consistent(t) && StatesSane(t)
    ensures StatesSane(MarkReconnecting(t, p, closed))
    ensures Moves(Reported(t, q, closed), Reported(MarkReconnecting(t, p, closed), q, closed))
  {
    ReapStates(t, p, closed);
    WriteStates(Reap(t, p, closed).0, p, Reconnecting);
  }

  lemma MarkDisconnectedMoves(t: Tables<Conn>, p: PeerId, closed: set<Conn>, q: PeerId)
    requires Consistent(t) && StatesSane(t)
    ensures StatesSane(MarkDisconnected(t, p, closed))
    ensures Moves(Reported(t, q, closed), Reported(MarkDisconnected(t, p, closed), q, closed))
  {
    ReapStates(t, p, closed);
    WriteStates(Reap(t, p, closed).0, p, Disconnected);
  }

  lemma MarkMoves(t: Tables<Conn>, p: PeerId, closed: set<Conn>, q: PeerId)
    requires Consistent(t) && StatesSane(t)
    ensures StatesSane(MarkReconnecting(t, p, closed)) && StatesSane(MarkDisconnected(t, p, closed))
    ensures Moves(Reported(t, q, closed), Reported(MarkReconnecting(t, p, closed), q, closed))
    ensures Moves(Reported(t, q, closed), Reported(MarkDisconnected(t, p, closed), q, closed))
  {
    MarkReconnectingMoves(t, p, closed, q);
    MarkDisconnectedMoves(t, p, closed, q);
  }

  lemma JoinMoves(t: Tables<Conn>, p: PeerId, reconnecting: bool, newTask: TaskId, closed: set<Conn>, q: PeerId)
    requires Consistent(t) && StatesSane(t)
    ensures StatesSane(Join(t, p, reconnecting, newTask, closed).0)
    ensures Moves(Reported(t, q, closed), Reported(Join(t, p, reconnecting, newTask, closed).0, q, closed))
  {
    ReapStates(t, p, closed);
  }

  lemma InstallMoves(t: Tables<Conn>, p: PeerId, c: Conn, closed: set<Conn>, q: PeerId)
    requires Consistent(t) && StatesSane(t)
    ensures StatesSane(Install(t, p, c).0)
    ensures Moves(Reported(t, q, closed), Reported(Install(t, p, c).0, q, closed))
  {
  }

  lemma LoseMoves(t: Tables<Conn>, p: PeerId, c: Conn, closed: set<Conn>, q: PeerId)
    requires Consistent(t) && StatesSane(t)
    ensures StatesSane(Lose(t, p, c).0)
    ensures Moves(Reported(t, q, closed), Reported(Lose(t, p, c).0, q, closed))
  {
  }

  lemma BeginCloseMoves(t: Tables<Conn>, p: PeerId, closed: set<Conn>, q: PeerId)
    requires Consistent(t) && StatesSane(t)
    ensures StatesSane(BeginClosePeer(t, p).0)
    ensures Moves(Reported(t, q, closed), Reported(BeginClosePeer(t, p).0, q, closed))
  {
  }

  lemma EndCloseMoves(t: Tables<Conn>, p: PeerId, closed: set<Conn>, q: PeerId)
    requires Consistent(t) && StatesSane(t)
    ensures StatesSane(EndClosePeer(t, p))
    ensures Moves(Reported(t, q, closed), Reported(EndClosePeer(t, p), q, closed))
  {
  }

  lemma CloseAllMoves(t: Tables<Conn>, ps: set<PeerId>, closed: set<Conn>, q: PeerId)
    requires Consistent(t) && StatesSane(t)
    ensures StatesSane(BeginCloseAll(t)) && Moves(Reported(t, q, closed), Reported(BeginCloseAll(t), q, closed))
    ensures t.closing ==> Moves(Reported(t, q, closed), Reported(EndCloseAll(t, ps), q, closed))
    ensures t.closing && (forall p: PeerId | p in t.states && t.states[p].Closing? :: p in ps) ==> StatesSane(EndCloseAll(t, ps))
  {
  }

  lemma FinishMoves(t: Tables<Conn>, p: PeerId, me: TaskId, succeeded: bool, closed: set<Conn>, q: PeerId)
    requires Consistent(t) && StatesSane(t)
    requires succeeded && Lookup(t.inFlight, p) == Some(me) ==> Lookup(t.states, p) != Some(Connecting)
    ensures StatesSane(FinishTask(t, p, me, succeeded, closed))
    ensures Moves(Reported(t, q, closed), Reported(FinishTask(t, p, me, succeeded, closed), q, closed))
  {
  }

  /** A physical close can only turn a connected peer Disconnected, and every state may go there. */
  lemma CloseMoves(t: Tables<Conn>, t': Tables<Conn>, closed: set<Conn>, closed': set<Conn>, p: PeerId)
    requires Consistent(t') && closed <= closed'
    requires Moves(Reported(t, p, closed), Reported(t', p, closed))
    ensures Moves(Reported(t, p, closed), Reported(t', p, closed'))
  {
  }

  // ----- one event -----------------------------------------------------------------------

  /** No peer has newly become Connecting or Closing. */
  ghost predicate NothingBegins(t: Tables<Conn>, t': Tables<Conn>) {
    forall q: PeerId | q in t'.states && (t'.states[q].Connecting? || t'.states[q].Closing?) ::
      q in t.states && t.states[q] == t'.states[q]
  }

  ghost predicate Fine(s: Sys, s': Sys) {
    StatesSane(s'.t) && forall q: PeerId :: Moves(StateOf(s, q), StateOf(s', q))
  }

  /** A step that updates the tables well and may close connections is fine. */
  lemma TablesDecide(s: Sys, s': Sys)
    requires Consistent(s'.t) && StatesSane(s'.t) && s.closed <= s'.closed
    requires forall q: PeerId :: Moves(StateOf(s, q), Reported(s'.t, q, s.closed))
    ensures Fine(s, s')
  {
    forall q: PeerId ensures Moves(StateOf(s, q), StateOf(s', q)) { CloseMoves(s.t, s'.t, s.closed, s'.closed, q); }
  }

  lemma FinishFine(s: Sys, id: TaskId, outcome: Outcome)
    requires Consistent(s.t) && StatesSane(s.t) && id in s.tasks
    requires outcome.Returned? && Lookup(s.t.inFlight, s.tasks[id].peer) == Some(id)
             ==> Lookup(s.t.states, s.tasks[id].peer) != Some(Connecting)
    ensures Fine(s, Finish(s, id, outcome)) && NothingBegins(s.t, Finish(s, id, outcome).t)
  {
    forall q: PeerId ensures Moves(StateOf(s, q), StateOf(Finish(s, id, outcome), q)) {
      FinishMoves(s.t, s.tasks[id].peer, id, outcome.Returned?, s.closed, q);
    }
    FinishMoves(s.t, s.tasks[id].peer, id, outcome.Returned?, s.closed, s.tasks[id].peer);
  }

  lemma FailFine(s: Sys, id: TaskId)
    requires Consistent(s.t) && StatesSane(s.t) && id in s.tasks
    ensures Fine(s, Fail(s, id)) && NothingBegins(s.t, Fail(s, id).t)
  {
    var task := s.tasks[id];
    if task.dialled.Some? && task.dialled.value !in s.closed {
      TablesDecide(s, Fail(s, id));
    } else {
      FinishFine(s, id, Raised);
    }
  }

  /** The successful end of a setup changes no state at all. */
  lemma SuccessIsQuiet(t: Tables<Conn>, p: PeerId, me: TaskId, closed: set<Conn>, q: PeerId)
    ensures FinishTask(t, p, me, true, closed).states == t.states
    ensures Reported(FinishTask(t, p, me, true, closed), q, closed) == Reported(t, q, closed)
  {
  }

  /** What the task has installed anew is its peer's connection now. */
  ghost predicate NewInstallsConnect(s: Sys, s': Sys, id: TaskId)
    requires id in s.tasks
  {
    id in s'.tasks && s'.tasks[id].peer == s.tasks[id].peer &&
    (R.Live(s'.tasks[id]) && s'.tasks[id].installed.Some? && s'.tasks[id].installed != s.tasks[id].installed ==>
       Lookup(s'.t.states, s.tasks[id].peer) == Some(Connected))
  }

  /** What an installation that is not refused makes of the tables. */
  lemma InstalledTables(s: Sys, id: TaskId, selected: Conn)
    requires Consistent(s.t) && StatesSane(s.t) && id in s.tasks && !Blocked(s.t, s.tasks[id].peer)
    ensures var t' := InstallBySetup(s, id, selected).t; var t1 := Install(s.t, s.tasks[id].peer, selected).0;
            && Consistent(t') && StatesSane(t') && NothingBegins(s.t, t')
            && (t' == t1 || t' == FinishTask(t1, s.tasks[id].peer, id, true, s.closed))
            && Lookup(t'.states, s.tasks[id].peer) == Some(Connected)
  {
    var p := s.tasks[id].peer;
    var t1 := Install(s.t, p, selected).0;
    ApplyKeepsConsistent(s.t, OpInstall(p, selected), s.closed);
    FinishKeepsConsistent(t1, p, id, true, s.closed);
    InstallMoves(s.t, p, selected, s.closed, p);
    FinishMoves(t1, p, id, true, s.closed, p);
    SuccessIsQuiet(t1, p, id, s.closed, p);
  }

  lemma InstallFine(s: Sys, id: TaskId, selected: Conn)
    requires Consistent(s.t) && StatesSane(s.t) && id in s.tasks
    ensures Fine(s, InstallBySetup(s, id, selected)) && NothingBegins(s.t, InstallBySetup(s, id, selected).t)
    ensures NewInstallsConnect(s, InstallBySetup(s, id, selected), id)
  {
    var p := s.tasks[id].peer;
    if Blocked(s.t, p) {
      FailFine(s, id);
    } else {
      var s' := InstallBySetup(s, id, selected);
      InstalledTables(s, id, selected);
      forall q: PeerId ensures Moves(StateOf(s, q), Reported(s'.t, q, s.closed)) {
        InstallMoves(s.t, p, selected, s.closed, q);
        SuccessIsQuiet(Install(s.t, p, selected).0, p, id, s.closed, q);
      }
      TablesDecide(s, s');
    }
  }

  lemma SelectFine(s: Sys, id: TaskId, selected: Conn)
    requires Consistent(s.t) && StatesSane(s.t) && id in s.tasks && s.tasks[id].dialled.Some?
    ensures Fine(s, Select(s, id, selected)) && NothingBegins(s.t, Select(s, id, selected).t)
    ensures NewInstallsConnect(s, Select(s, id, selected), id)
  {
    if selected != s.tasks[id].dialled.value && s.tasks[id].dialled.value !in s.closed {
      TablesDecide(s, Select(s, id, selected));
    } else {
      InstallFine(s, id, selected);
    }
  }

  /** A resumed setup that ends well has long connected its peer. */
  lemma ReturningIsNotConnecting(s: Sys, id: TaskId)
    requires StateInv(s) && id in s.tasks && s.tasks[id].phase.AwaitPreviousClose?
    ensures Lookup(s.t.inFlight, s.tasks[id].peer) == Some(id) ==> Lookup(s.t.states, s.tasks[id].peer) != Some(Connecting)
  {
    assert TaskSound(s.tasks[id], s.closed);
  }

  lemma TaskFine(s: Sys, id: TaskId, step: TaskStep)
    requires StateInv(s) && TaskEnabled(s, id, step)
    ensures Fine(s, TaskNext(s, id, step)) && NothingBegins(s.t, TaskNext(s, id, step).t)
    ensures NewInstallsConnect(s, TaskNext(s, id, step), id)
  {
    var task := s.tasks[id];
    match step
    case TransportReturns(c, prepared) =>
      if !prepared {
        SelectFine(Put(s, id, task.(phase := AwaitPrepare, dialled := Some(c))).(known := s.known + {c}), id, c);
      }
    case PrepareReturns(replacement) =>
      SelectFine(s, id, if replacement.Some? then replacement.value else task.dialled.value);
    case CloseReturns =>
      if task.phase.AwaitLoserClose? {
        InstallFine(s, id, task.phase.selected);
      } else if task.phase.AwaitPreviousClose? {
        ReturningIsNotConnecting(s, id);
        FinishFine(s, id, Returned(task.phase.selected));
      } else {
        FinishFine(s, id, Raised);
      }
    case AwaitRaises => if task.phase.AwaitCleanupClose? { FinishFine(s, id, Raised); } else { FailFine(s, id); }
    case _ =>
  }

  lemma InstalledStays(s: Sys, s': Sys, id: TaskId)
    requires InstalledNotConnecting(s) && NothingBegins(s.t, s'.t) && id in s.tasks
    requires SameElsewhere(s, s', id) && NewInstallsConnect(s, s', id)
    requires R.Live(s'.tasks[id]) ==> R.Live(s.tasks[id])
    ensures InstalledNotConnecting(s')
  {
  }

  lemma InitIsSane()
    ensures StateInv(Init)
  {
  }

  lemma TaskKeepsStates(s: Sys, id: TaskId, step: TaskStep)
    requires StateInv(s) && TaskEnabled(s, id, step)
    ensures StateInv(TaskNext(s, id, step)) && Fine(s, TaskNext(s, id, step))
  {
    TaskFine(s, id, step);
    TaskKeepsInv(s, id, step);
    TaskStepsAreLocal(s, id, step);
    TaskFrame(s, id, step);
    InstalledStays(s, TaskNext(s, id, step), id);
  }

  /** What no setup step touches. */
  ghost predicate SameFrame(s: Sys, s': Sys, id: TaskId)
    requires id in s.tasks
  {
    && s'.closeAll == s.closeAll && s'.t.closing == s.t.closing
    && id in s'.tasks && s'.tasks[id].cancelled == s.tasks[id].cancelled
  }

  lemma FailFrame(s: Sys, id: TaskId, outcome: Outcome)
    requires id in s.tasks
    ensures SameFrame(s, Finish(s, id, outcome), id) && SameFrame(s, Fail(s, id), id)
  {
  }

  lemma InstallFrame(s: Sys, id: TaskId, selected: Conn)
    requires id in s.tasks
    ensures SameFrame(s, InstallBySetup(s, id, selected), id)
  {
    FailFrame(s, id, Raised);
  }

  lemma SelectFrame(s: Sys, id: TaskId, selected: Conn)
    requires id in s.tasks && s.tasks[id].dialled.Some?
    ensures SameFrame(s, Select(s, id, selected), id)
  {
    InstallFrame(s, id, selected);
  }

  lemma TaskFrame(s: Sys, id: TaskId, step: TaskStep)
    requires TaskEnabled(s, id, step)
    ensures SameFrame(s, TaskNext(s, id, step), id)
  {
    var task := s.tasks[id];
    match step
    case TransportReturns(c, _) =>
      SelectFrame(Put(s, id, task.(phase := AwaitPrepare, dialled := Some(c))).(known := s.known + {c}), id, c);
    case PrepareReturns(replacement) =>
      SelectFrame(s, id, if replacement.Some? then replacement.value else task.dialled.value);
    case CloseReturns =>
      if task.phase.AwaitLoserClose? { InstallFrame(s, id, task.phase.selected); }
      else if task.phase.AwaitPreviousClose? { FailFrame(s, id, Returned(task.phase.selected)); }
      else { FailFrame(s, id, Raised); }
    case AwaitRaises => FailFrame(s, id, Raised);
    case _ =>
  }

  lemma JoinUpdatesTables(s: Sys, call: CallId, step: CallStep)
    requires CallEnabled(s, call, step) && step.Joins?
    ensures var s' := CallNext(s, call, step);
            && s'.closed == s.closed && s'.closeAll == s.closeAll
            && s'.t == Join(s.t, step.p, step.reconnecting, step.newTask, s.closed).0
            && forall id | id in s'.tasks && id != step.newTask :: id in s.tasks && s'.tasks[id] == s.tasks[id]
    ensures var s' := CallNext(s, call, step);
            step.newTask in s'.tasks ==> s'.tasks[step.newTask].installed.None?
  {
  }

  lemma JoinKeepsStates(s: Sys, call: CallId, step: CallStep)
    requires StateInv(s) && CallEnabled(s, call, step) && step.Joins?
    ensures Fine(s, CallNext(s, call, step)) && CloseAllReaches(CallNext(s, call, step))
  {
    JoinUpdatesTables(s, call, step);
    JoinStates(s.t, step.p, step.reconnecting, step.newTask, s.closed);
    JoinMoves(s.t, step.p, step.reconnecting, step.newTask, s.closed, step.p);
    forall q: PeerId ensures Moves(StateOf(s, q), StateOf(CallNext(s, call, step), q)) {
      JoinMoves(s.t, step.p, step.reconnecting, step.newTask, s.closed, q);
    }
  }

  lemma JoinKeepsInstalled(s: Sys, call: CallId, step: CallStep)
    requires StateInv(s) && CallEnabled(s, call, step) && step.Joins?
    ensures InstalledNotConnecting(CallNext(s, call, step))
  {
    JoinStates(s.t, step.p, step.reconnecting, step.newTask, s.closed);
    var s' := CallNext(s, call, step);
    forall id | id in s'.tasks && R.Live(s'.tasks[id]) && s'.tasks[id].installed.Some?
      ensures Lookup(s'.t.states, s'.tasks[id].peer) != Some(Connecting)
    {
      JoinUpdatesTables(s, call, step);
      assert id in s.tasks && s'.tasks[id] == s.tasks[id];
    }
  }

  lemma CallKeepsStates(s: Sys, call: CallId, step: CallStep)
    requires StateInv(s) && CallEnabled(s, call, step)
    ensures StateInv(CallNext(s, call, step)) && Fine(s, CallNext(s, call, step))
  {
    StepKeepsInv(s, CallDoes(call, step));
    if step.Joins? {
      JoinKeepsStates(s, call, step);
      JoinKeepsInstalled(s, call, step);
    }
  }

  lemma JoinStates(t: Tables<Conn>, p: PeerId, reconnecting: bool, newTask: TaskId, closed: set<Conn>)
    ensures var t' := Join(t, p, reconnecting, newTask, closed).0;
            && t'.closing == t.closing
            && (t.closing ==> t' == t)
            && forall q: PeerId | q in t'.states && t'.states[q].Connecting? ::
                 (q in t.states && t.states[q].Connecting?) || (q == p && p !in t.inFlight)
  {
  }

  lemma IdleCloseMoves(t: Tables<Conn>, p: PeerId, closed: set<Conn>, q: PeerId)
    requires Consistent(t) && StatesSane(t) && p !in t.connections && p !in t.inFlight
    ensures var t' := EndClosePeer(BeginClosePeer(t, p).0, p);
            && StatesSane(t') && NothingBegins(t, t') && t'.closing == t.closing
            && Moves(Reported(t, q, closed), Reported(t', q, closed))
  {
    ClosePeerKeepsConsistent(t, p);
    BeginCloseMoves(t, p, closed, q);
    EndCloseMoves(BeginClosePeer(t, p).0, p, closed, q);
  }

  lemma EnterKeepsStates(s: Sys, closer: CallId, p: PeerId)
    requires StateInv(s) && closer !in s.closers
    ensures var s' := EnterClosePeer(s, closer, p);
            Fine(s, s') && CloseAllReaches(s') && InstalledNotConnecting(s')
  {
    var s' := EnterClosePeer(s, closer, p);
    ClosePeerKeepsConsistent(s.t, p);
    BeginCloseMoves(s.t, p, s.closed, p);
    if p in s.t.inFlight || p in s.t.connections {
      forall q: PeerId ensures Moves(StateOf(s, q), Reported(s'.t, q, s.closed)) { BeginCloseMoves(s.t, p, s.closed, q); }
      TablesDecide(s, s');
    } else {
      IdleCloseMoves(s.t, p, s.closed, p);
      forall q: PeerId ensures Moves(StateOf(s, q), StateOf(s', q)) { IdleCloseMoves(s.t, p, s.closed, q); }
    }
  }

  lemma LeaveKeepsStates(s: Sys, closer: CallId, p: PeerId)
    requires StateInv(s)
    ensures var s' := LeaveClosePeer(s, closer, p);
            Fine(s, s') && CloseAllReaches(s') && InstalledNotConnecting(s')
  {
    var s' := LeaveClosePeer(s, closer, p);
    EndCloseMoves(s.t, p, s.closed, p);
    forall q: PeerId ensures Moves(StateOf(s, q), StateOf(s', q)) { EndCloseMoves(s.t, p, s.closed, q); }
    assert NothingBegins(s.t, s'.t);
  }

  lemma CloserKeepsStates(s: Sys, closer: CallId, step: CloserStep)
    requires StateInv(s) && CloserEnabled(s, closer, step)
    ensures StateInv(CloserNext(s, closer, step)) && Fine(s, CloserNext(s, closer, step))
  {
    var s' := CloserNext(s, closer, step);
    StepKeepsInv(s, CloserDoes(closer, step));
    if step.Enters? {
      EnterKeepsStates(s, closer, step.p);
    } else {
      LeaveKeepsStates(s, closer, s.closers[closer].peer);
      if s'.t == s.t { TablesDecide(s, s'); }
    }
  }

  lemma CloseAllKeepsStates(s: Sys, step: CloseAllStep)
    requires StateInv(s) && CloseAllEnabled(s, step)
    ensures StateInv(CloseAllNext(s, step)) && Fine(s, CloseAllNext(s, step))
  {
    var s' := CloseAllNext(s, step);
    StepKeepsInv(s, CloseAllDoes(step));
    var ps := if step.Ends? then s.closeAll.peers else {};
    CloseAllMoves(s.t, ps, s.closed, "");
    forall q: PeerId ensures Moves(StateOf(s, q), Reported(s'.t, q, s.closed)) { CloseAllMoves(s.t, ps, s.closed, q); }
    TablesDecide(s, s');
  }

  lemma MarksBeginNothing(t: Tables<Conn>, p: PeerId, closed: set<Conn>)
    requires Consistent(t) && StatesSane(t)
    ensures NothingBegins(t, Reap(t, p, closed).0)
    ensures NothingBegins(t, MarkReconnecting(t, p, closed)) && NothingBegins(t, MarkDisconnected(t, p, closed))
  {
    ReapStates(t, p, closed);
  }

  lemma MarkKeepsStates(s: Sys, op: Op<Conn>)
    requires StateInv(s) && Enabled(s, Touches(op))
    ensures Fine(s, Next(s, Touches(op))) && NothingBegins(s.t, Next(s, Touches(op)).t)
  {
    var s' := Next(s, Touches(op));
    MarksBeginNothing(s.t, op.p, s.closed);
    if op.OpReport? {
      assert s'.t == Reap(s.t, op.p, s.closed).0;
      ReapStates(s.t, op.p, s.closed);
    } else {
      MarkMoves(s.t, op.p, s.closed, op.p);
      forall q: PeerId ensures Moves(StateOf(s, q), StateOf(s', q)) { MarkMoves(s.t, op.p, s.closed, q); }
    }
  }

  lemma AdoptKeepsStates(s: Sys, p: PeerId, c: Conn)
    requires StateInv(s)
    ensures Fine(s, Next(s, Adopts(p, c))) && NothingBegins(s.t, Next(s, Adopts(p, c)).t)
  {
    InstallMoves(s.t, p, c, s.closed, p);
    forall q: PeerId ensures Moves(StateOf(s, q), StateOf(Next(s, Adopts(p, c)), q)) { InstallMoves(s.t, p, c, s.closed, q); }
  }

  lemma LoseKeepsStates(s: Sys, p: PeerId, c: Conn)
    requires StateInv(s)
    ensures Fine(s, Next(s, Loses(p, c))) && NothingBegins(s.t, Next(s, Loses(p, c)).t)
  {
    LoseMoves(s.t, p, c, s.closed, p);
    forall q: PeerId ensures Moves(StateOf(s, q), StateOf(Next(s, Loses(p, c)), q)) { LoseMoves(s.t, p, c, s.closed, q); }
  }

  /** A step on the tables alone that begins nothing. */
  lemma QuietKeepsStates(s: Sys, s': Sys)
    requires StateInv(s) && Inv(s') && Fine(s, s') && NothingBegins(s.t, s'.t)
    requires s'.tasks == s.tasks && s'.closeAll == s.closeAll && s'.t.closing == s.t.closing
    ensures StateInv(s')
  {
  }

  lemma TableOpKeepsStates(s: Sys, e: Event)
    requires StateInv(s) && Enabled(s, e) && (e.EnvironmentCloses? || e.Touches? || e.Adopts? || e.Loses?)
    ensures StateInv(Next(s, e)) && Fine(s, Next(s, e))
  {
    StepKeepsInv(s, e);
    match e {
      case EnvironmentCloses(_) => TablesDecide(s, Next(s, e));
      case Touches(op) => MarkKeepsStates(s, op);
      case Adopts(p, c) => AdoptKeepsStates(s, p, c);
      case Loses(p, c) => LoseKeepsStates(s, p, c);
    }
    QuietKeepsStates(s, Next(s, e));
  }

  lemma StepMoves(s: Sys, e: Event)
    requires StateInv(s) && Enabled(s, e)
    ensures StateInv(Next(s, e)) && Fine(s, Next(s, e))
  {
    match e
    case CallDoes(call, step) => CallKeepsStates(s, call, step);
    case CloserDoes(closer, step) => CloserKeepsStates(s, closer, step);
    case CloseAllDoes(step) => CloseAllKeepsStates(s, step);
    case TaskDoes(id, step) => TaskKeepsStates(s, id, step);
    case _ => TableOpKeepsStates(s, e);
  }

  lemma {:induction false} RunsKeepStates(s: Sys, es: seq<Event>)
    requires StateInv(s) && IsRun(s, es)
    ensures StateInv(After(s, es))
    decreases |es|
  {
    if es != [] {
      StepMoves(s, es[0]);
      RunsKeepStates(Next(s, es[0]), es[1..]);
    }
  }

  // ----- exactly the transitions that happen ---------------------------------------------

  /** After the run `es` the event `e` takes the peer `p` from one reported state to another. */
  ghost predicate Takes(es: seq<Event>, e: Event, p: PeerId, from: LogicalState, to: LogicalState) {
    && IsRun(Init, es) && Enabled(After(Init, es), e)
    && StateOf(After(Init, es), p) == from && StateOf(Next(After(Init, es), e), p) == to
  }

  lemma OnlyEdgesHappen(es: seq<Event>, e: Event, p: PeerId, from: LogicalState, to: LogicalState)
    requires from != to && Takes(es, e, p, from, to)
    ensures Edge(from, to)
  {
    InitIsSane();
    RunsKeepStates(Init, es);
    StepMoves(After(Init, es), e);
  }

  const P: PeerId := "p"

  /** A run that leaves the peer `P` in a given state. */
  function RunTo(from: LogicalState): seq<Event> {
    match from
    case Disconnected => [Touches(OpMarkDisconnected(P))]
    case Connecting => [CallDoes(0, Joins(P, false, 0))]
    case Reconnecting => [Touches(OpMarkReconnecting(P))]
    case Connected => [Adopts(P, 0)]
    case Closing => [Touches(OpMarkDisconnected(P)), CloseAllDoes(Begins), CloseAllDoes(SeesTasksEnd)]
    case Closed => [CloserDoes(0, Enters(P))]
  }

  function Arrived(from: LogicalState): Sys {
    var empty: Tables<Conn> := Tables(map[], map[], map[], {}, false);
    match from
    case Disconnected => Init.(t := empty.(states := map[P := from]))
    case Connecting =>
      Init.(t := empty.(states := map[P := from], inFlight := map[P := 0]), calls := map[0 := Waiting(0)],
            tasks := map[0 := Task(P, Created, false, 0, None, None, None)])
    case Reconnecting => Init.(t := empty.(states := map[P := from]))
    case Connected => Init.(t := empty.(states := map[P := from], connections := map[P := 0]), known := {0})
    case Closing => Init.(t := empty.(states := map[P := from], closing := true), closeAll := AwaitCloses({P}, {}))
    case Closed => Init.(t := empty.(states := map[P := from]), closers := map[0 := CloserDone])
  }

  lemma SingleRun(e: Event)
    requires Enabled(Init, e)
    ensures IsRun(Init, [e]) && After(Init, [e]) == Next(Init, e)
  {
    assert [e][1..] == [];
  }

  lemma OneEventArrives(from: LogicalState)
    requires !from.Closing?
    ensures IsRun(Init, RunTo(from)) && After(Init, RunTo(from)) == Arrived(from)
  {
    SingleRun(RunTo(from)[0]);
    assert Next(Init, RunTo(from)[0]) == Arrived(from);
  }

  lemma ClosingArrives()
    ensures IsRun(Init, RunTo(Closing)) && After(Init, RunTo(Closing)) == Arrived(Closing)
  {
    var s1 := Arrived(Disconnected);
    var first := [Touches(OpMarkDisconnected(P))];
    OneEventArrives(Disconnected);
    var s2 := Next(s1, CloseAllDoes(Begins));
    assert KnownPeers(s1.t) == {P} && s1.t.inFlight.Values == {} && s1.t.connections.Values == {};
    assert s2.t.states == map[P := Closing] && s2.tasks == map[];
    ExtendRun(Init, first, CloseAllDoes(Begins));
    ExtendRun(Init, first + [CloseAllDoes(Begins)], CloseAllDoes(SeesTasksEnd));
    assert RunTo(Closing) == first + [CloseAllDoes(Begins)] + [CloseAllDoes(SeesTasksEnd)];
    assert Next(s2, CloseAllDoes(SeesTasksEnd)) == Arrived(Closing);
  }

  lemma RunsArrive(from: LogicalState)
    ensures IsRun(Init, RunTo(from)) && After(Init, RunTo(from)) == Arrived(from)
  {
    if from.Closing? { ClosingArrives(); } else { OneEventArrives(from); }
  }

  /** The event that then moves it. */
  function EventTo(from: LogicalState, to: LogicalState): Event {
    match to
    case Disconnected => if from.Connected? then Loses(P, 0) else Touches(OpMarkDisconnected(P))
    case Connecting => CallDoes(1, Joins(P, false, 1))
    case Reconnecting => Touches(OpMarkReconnecting(P))
    case Connected => Adopts(P, 1)
    case Closing => CloseAllDoes(Begins)
    case Closed => if from.Closing? then CloseAllDoes(Ends) else CloserDoes(1, Enters(P))
  }

  lemma EveryEdgeHappens(from: LogicalState, to: LogicalState)
    requires Edge(from, to)
    ensures Takes(RunTo(from), EventTo(from, to), P, from, to)
  {
    RunsArrive(from);
    EventMoves(from, to);
  }

  lemma EventMoves(from: LogicalState, to: LogicalState)
    requires Edge(from, to)
    ensures Enabled(Arrived(from), EventTo(from, to))
    ensures StateOf(Arrived(from), P) == from && StateOf(Next(Arrived(from), EventTo(from, to)), P) == to
  {
  }

  /** Exactly the transitions that some run makes; the peer and the events are arbitrary. */
  lemma TransitionsAreExact(from: LogicalState, to: LogicalState)
    requires from != to
    ensures (exists es, e, p :: Takes(es, e, p, from, to)) <==> Edge(from, to)
  {
    if es, e, p :| Takes(es, e, p, from, to) { OnlyEdgesHappen(es, e, p, from, to); }
    if Edge(from, to) { EveryEdgeHappens(from, to); }
  }

  /** The transitions that happen and that the diagram lacks. */
  const MISSING: seq<(LogicalState, LogicalState)> := [
    (Disconnected, Connected), (Disconnected, Closing), (Disconnected, Closed),
    (Connecting, Reconnecting), (Connecting, Closing),
    (Reconnecting, Connecting), (Reconnecting, Closing), (Reconnecting, Closed),
    (Closing, Disconnected),
    (Closed, Disconnected), (Closed, Reconnecting), (Closed, Connected), (Closed, Closing)]

  /** Every drawn transition happens, and exactly the thirteen listed ones happen undrawn. */
  lemma DiagramIsIncomplete(from: LogicalState, to: LogicalState)
    requires from != to
    ensures Drawn(from, to) ==> exists es, e, p :: Takes(es, e, p, from, to)
    ensures !Drawn(from, to) ==> ((exists es, e, p :: Takes(es, e, p, from, to)) <==> (from, to) in MISSING)
  {
    TransitionsAreExact(from, to);
    assert Edge(from, to) && !Drawn(from, to) <==> (from, to) in MISSING by { MissingIsTheDifference(from, to); }
  }

  lemma MissingIsTheDifference(from: LogicalState, to: LogicalState)
    requires from != to
    ensures Drawn(from, to) ==> Edge(from, to)
    ensures Edge(from, to) && !Drawn(from, to) <==> (from, to) in MISSING
  {
  }
}
