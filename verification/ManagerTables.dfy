/** The five tables of `ConnectionManager` as a value, one function for each of its
    critical sections.  No section contains an await, so each is one atomic step.
    `closed` is the set of physical connections whose `is_closed` flag is up. */
module ManagerTables {
  import opened Wrappers

  type PeerId = string
  type TaskId = nat

  datatype LogicalState = Disconnected | Connecting | Connected | Reconnecting | Closing | Closed

  datatype Tables<!C(==)> = Tables(
    connections: map<PeerId, C>,
    inFlight: map<PeerId, TaskId>,
    states: map<PeerId, LogicalState>,
    closingPeers: set<PeerId>,
    closing: bool)

  /** What a `connect` call finds under the lock. */
  datatype Joined<+C> = Refused | Existing(connection: C) | Waits(task: TaskId) | Starts(task: TaskId)

  datatype Installed<+C> = NotInstalled | Replaced(previous: Option<C>)

  function Lookup<K, V>(m: map<K, V>, k: K): Option<V> {
    if k in m then Some(m[k]) else None
  }

  /** `get_by_id`: the usable canonical connection, forgetting it when it is already closed. */
  function Reap<C>(t: Tables<C>, p: PeerId, closed: set<C>): (r: (Tables<C>, Option<C>)) {
    if p in t.connections && t.connections[p] in closed then
      var states' := if Lookup(t.states, p) == Some(Connected) then t.states[p := Disconnected] else t.states;
      (t.(connections := t.connections - {p}, states := states'), None)
    else
      (t, Lookup(t.connections, p))
  }

  /** `state`: the logical state reported to callers. */
  function Report<C>(t: Tables<C>, p: PeerId, closed: set<C>): (Tables<C>, LogicalState) {
    var (t', found) := Reap(t, p, closed);
    (t', if found.Some? then Connected else if p in t'.states then t'.states[p] else Disconnected)
  }

  predicate Blocked<C>(t: Tables<C>, p: PeerId) {
    t.closing || p in t.closingPeers
  }

  function MarkReconnecting<C>(t: Tables<C>, p: PeerId, closed: set<C>): Tables<C> {
    if Blocked(t, p) then t
    else
      var (t', found) := Reap(t, p, closed);
      if found.None? then t'.(states := t'.states[p := Reconnecting]) else t'
  }

  function MarkDisconnected<C>(t: Tables<C>, p: PeerId, closed: set<C>): Tables<C> {
    var (t', found) := Reap(t, p, closed);
    if found.None? && p !in t'.closingPeers then t'.(states := t'.states[p := Disconnected]) else t'
  }

  /** `connect` up to the await on the shared task; `newTask` names the task it would create. */
  function Join<C>(t: Tables<C>, p: PeerId, reconnecting: bool, newTask: TaskId, closed: set<C>): (Tables<C>, Joined<C>) {
    if Blocked(t, p) then (t, Refused)
    else
      var (t', found) := Reap(t, p, closed);
      if found.Some? then (t', Existing(found.value))
      else if p in t'.inFlight then (t', Waits(t'.inFlight[p]))
      else (t'.(states := t'.states[p := if reconnecting then Reconnecting else Connecting],
                inFlight := t'.inFlight[p := newTask]),
            Starts(newTask))
  }

  /** The installing block shared by `adopt` and `_open_connection`. */
  function Install<C>(t: Tables<C>, p: PeerId, c: C): (Tables<C>, Installed<C>) {
    if Blocked(t, p) then (t, NotInstalled)
    else
      var previous := Lookup(t.connections, p);
      (t.(connections := t.connections[p := c], states := t.states[p := Connected]),
       Replaced(if previous == Some(c) then None else previous))
  }

  /** `connection_lost`. */
  function Lose<C>(t: Tables<C>, p: PeerId, c: C): (Tables<C>, bool) {
    if Lookup(t.connections, p) != Some(c) then (t, false)
    else (t.(connections := t.connections - {p},
             states := if Blocked(t, p) then t.states else t.states[p := Disconnected]),
          true)
  }

  /** `close_peer` before its first await: the setup task and connection it takes out. */
  function BeginClosePeer<C>(t: Tables<C>, p: PeerId): (Tables<C>, Option<TaskId>, Option<C>) {
    (t.(closingPeers := t.closingPeers + {p}, states := t.states[p := Closing],
        inFlight := t.inFlight - {p}, connections := t.connections - {p}),
     Lookup(t.inFlight, p), Lookup(t.connections, p))
  }

  function EndClosePeer<C>(t: Tables<C>, p: PeerId): Tables<C> {
    var t' := t.(closingPeers := t.closingPeers - {p});
    if p !in t'.connections && p !in t'.inFlight then t'.(states := t'.states[p := Closed]) else t'
  }

  function KnownPeers<C>(t: Tables<C>): set<PeerId> {
    t.states.Keys + t.connections.Keys + t.inFlight.Keys
  }

  function WithStates(states: map<PeerId, LogicalState>, ps: set<PeerId>, v: LogicalState): map<PeerId, LogicalState> {
    map p | p in states.Keys + ps :: if p in ps then v else states[p]
  }

  function BeginCloseAll<C>(t: Tables<C>): Tables<C> {
    Tables(map[], map[], WithStates(t.states, KnownPeers(t), Closing), t.closingPeers, true)
  }

  function EndCloseAll<C>(t: Tables<C>, ps: set<PeerId>): Tables<C> {
    t.(states := WithStates(t.states, ps, Closed), closingPeers := {}, closing := false)
  }

  /** The last section of `_open_connection`, run by task `me` for `p`. */
  function FinishTask<C>(t: Tables<C>, p: PeerId, me: TaskId, succeeded: bool, closed: set<C>): Tables<C> {
    var t1 := if Lookup(t.inFlight, p) == Some(me) then t.(inFlight := t.inFlight - {p}) else t;
    if succeeded then t1
    else
      var (t2, found) := Reap(t1, p, closed);
      if found.Some? then t2
      else t2.(states := t2.states[p := if Blocked(t2, p) then Closed else Disconnected])
  }

  /** What every critical section keeps. */
  ghost predicate Consistent<C>(t: Tables<C>) {
    && (forall p: PeerId :: p in t.connections <==> p in t.states && t.states[p] == Connected)
    && (forall p: PeerId | p in t.closingPeers :: p !in t.connections && p !in t.inFlight)
    && (t.closing ==> t.connections == map[] && t.inFlight == map[])
  }

  /** One call of the manager, as far as the tables are concerned. */
  datatype Op<C(==)> =
    | OpReport(p: PeerId)
    | OpMarkReconnecting(p: PeerId)
    | OpMarkDisconnected(p: PeerId)
    | OpJoin(p: PeerId, reconnecting: bool, newTask: TaskId)
    | OpInstall(p: PeerId, c: C)
    | OpLose(p: PeerId, c: C)
    | OpBeginClosePeer(p: PeerId)
    | OpEndClosePeer(p: PeerId)
    | OpBeginCloseAll
    | OpEndCloseAll(ps: set<PeerId>)
    | OpFinishTask(p: PeerId, me: TaskId, succeeded: bool)

  function Apply<C>(t: Tables<C>, op: Op<C>, closed: set<C>): Tables<C> {
    match op
    case OpReport(p) => Report(t, p, closed).0
    case OpMarkReconnecting(p) => MarkReconnecting(t, p, closed)
    case OpMarkDisconnected(p) => MarkDisconnected(t, p, closed)
    case OpJoin(p, reconnecting, newTask) => Join(t, p, reconnecting, newTask, closed).0
    case OpInstall(p, c) => Install(t, p, c).0
    case OpLose(p, c) => Lose(t, p, c).0
    case OpBeginClosePeer(p) => BeginClosePeer(t, p).0
    case OpEndClosePeer(p) => EndClosePeer(t, p)
    case OpBeginCloseAll => BeginCloseAll(t)
    case OpEndCloseAll(ps) => EndCloseAll(t, ps)
    case OpFinishTask(p, me, succeeded) => FinishTask(t, p, me, succeeded, closed)
  }

  lemma ReapKeepsConsistent<C>(t: Tables<C>, p: PeerId, closed: set<C>)
    requires Consistent(t)
    ensures Consistent(Reap(t, p, closed).0)
    ensures Reap(t, p, closed).1.Some? <==> p in Reap(t, p, closed).0.connections
  {
  }

  /** A peer without a connection may be put in any state but Connected. */
  lemma MarkKeepsConsistent<C>(t: Tables<C>, p: PeerId, v: LogicalState)
    requires Consistent(t) && p !in t.connections && !v.Connected?
    ensures Consistent(t.(states := t.states[p := v]))
  {
  }

  lemma MarksKeepConsistent<C>(t: Tables<C>, p: PeerId, closed: set<C>)
    requires Consistent(t)
    ensures Consistent(MarkReconnecting(t, p, closed)) && Consistent(MarkDisconnected(t, p, closed))
  {
    var t' := Reap(t, p, closed).0;
    ReapKeepsConsistent(t, p, closed);
    if p !in t'.connections {
      MarkKeepsConsistent(t', p, Reconnecting);
      MarkKeepsConsistent(t', p, Disconnected);
    }
  }

  lemma JoinKeepsConsistent<C>(t: Tables<C>, p: PeerId, reconnecting: bool, newTask: TaskId, closed: set<C>)
    requires Consistent(t)
    ensures Consistent(Join(t, p, reconnecting, newTask, closed).0)
  {
    var t' := Reap(t, p, closed).0;
    ReapKeepsConsistent(t, p, closed);
    if p !in t'.connections {
      MarkKeepsConsistent(t', p, if reconnecting then Reconnecting else Connecting);
    }
  }

  lemma FinishKeepsConsistent<C>(t: Tables<C>, p: PeerId, me: TaskId, succeeded: bool, closed: set<C>)
    requires Consistent(t)
    ensures Consistent(FinishTask(t, p, me, succeeded, closed))
  {
    var t1 := if Lookup(t.inFlight, p) == Some(me) then t.(inFlight := t.inFlight - {p}) else t;
    assert Consistent(t1);
    var t2 := Reap(t1, p, closed).0;
    ReapKeepsConsistent(t1, p, closed);
    if p !in t2.connections {
      MarkKeepsConsistent(t2, p, if Blocked(t2, p) then Closed else Disconnected);
    }
  }

  /** Exactly when the end of a `close_all` is harmless: no peer whose state it overwrites has a
      connection at that moment. */
  lemma EndCloseAllConsistentIff<C>(t: Tables<C>, ps: set<PeerId>)
    requires Consistent(t)
    ensures Consistent(EndCloseAll(t, ps)) <==> ps !! t.connections.Keys
  {
    var t' := EndCloseAll(t, ps);
    forall p | p in ps && p in t.connections ensures !Consistent(t') { assert t'.states[p] == Closed; }
  }

  /** Every other critical section keeps the rules on any tables that satisfy them. */
  lemma ApplyKeepsConsistentIff<C>(t: Tables<C>, op: Op<C>, closed: set<C>)
    requires Consistent(t)
    ensures Consistent(Apply(t, op, closed)) <==> (op.OpEndCloseAll? ==> op.ps !! t.connections.Keys)
  {
    match op
    case OpEndCloseAll(ps) => EndCloseAllConsistentIff(t, ps);
    case OpFinishTask(p, me, succeeded) => FinishKeepsConsistent(t, p, me, succeeded, closed);
    case OpJoin(p, reconnecting, newTask) => JoinKeepsConsistent(t, p, reconnecting, newTask, closed);
    case OpReport(p) => ReapKeepsConsistent(t, p, closed);
    case OpMarkReconnecting(p) => MarksKeepConsistent(t, p, closed);
    case OpMarkDisconnected(p) => MarksKeepConsistent(t, p, closed);
    case _ =>
  }

  /** `close_all` calls are serialised by the node's lifecycle lock, so the end of one only
      ever meets the closing flag its own beginning raised. */
  predicate Serialised<C>(t: Tables<C>, op: Op<C>) {
    op.OpEndCloseAll? ==> t.closing
  }

  lemma ApplyKeepsConsistent<C>(t: Tables<C>, op: Op<C>, closed: set<C>)
    requires Consistent(t) && Serialised(t, op)
    ensures Consistent(Apply(t, op, closed))
  {
    ApplyKeepsConsistentIff(t, op, closed);
  }

  /** Two overlapping `close_all` calls do break the tables: the second one to end finds
      the flag already lowered and overwrites the state of a peer connected since. */
  lemma OverlappingCloseAllBreaks(p: PeerId, c: nat)
    ensures var t0: Tables<nat> := Tables(map[], map[], map[p := Disconnected], {}, false);
            var begun := BeginCloseAll(BeginCloseAll(t0));
            var reopened := Install(EndCloseAll(begun, {p}), p, c).0;
            Consistent(t0) && Consistent(reopened) && !Consistent(EndCloseAll(reopened, {p}))
  {
    var t0: Tables<nat> := Tables(map[], map[], map[p := Disconnected], {}, false);
    var reopened := Install(EndCloseAll(BeginCloseAll(BeginCloseAll(t0)), {p}), p, c).0;
    assert p in reopened.connections;
    EndCloseAllConsistentIff(reopened, {p});
  }

  // ----- what callers are told -----------------------------------------------------------

  /** The answer of `connect`, on any tables: refused exactly while the peer or the manager is
      closing, otherwise the open connection, else the setup under way, else a new one. */
  lemma ConnectAnswers<C>(t: Tables<C>, p: PeerId, reconnecting: bool, newTask: TaskId, closed: set<C>)
    ensures var answer := Join(t, p, reconnecting, newTask, closed).1;
            && (answer.Refused? <==> t.closing || p in t.closingPeers)
            && (!answer.Refused? ==>
                  answer == if p in t.connections && t.connections[p] !in closed then Existing(t.connections[p])
                            else if p in t.inFlight then Waits(t.inFlight[p]) else Starts(newTask))
  {
  }

  /** The answer of `adopt`: refused exactly while closing, otherwise the other connection that the
      peer had, closed or not. */
  lemma AdoptAnswers<C>(t: Tables<C>, p: PeerId, c: C)
    ensures var answer := Install(t, p, c).1;
            && (answer.NotInstalled? <==> t.closing || p in t.closingPeers)
            && forall d | answer.Replaced? ::
                 answer.previous == Some(d) <==> p in t.connections && t.connections[p] == d && d != c
  {
  }

  /** The answers of `connection_lost`, `close_peer` and `get_by_id`: the entries that were there. */
  lemma RemovalAnswers<C>(t: Tables<C>, p: PeerId, c: C, closed: set<C>)
    ensures Lose(t, p, c).1 <==> p in t.connections && t.connections[p] == c
    ensures forall id :: BeginClosePeer(t, p).1 == Some(id) <==> p in t.inFlight && t.inFlight[p] == id
    ensures BeginClosePeer(t, p).2 == Some(c) <==> p in t.connections && t.connections[p] == c
    ensures Reap(t, p, closed).1 == Some(c) <==> p in t.connections && t.connections[p] == c && c !in closed
  {
  }

  /** What `state` reports: Connected exactly for an open connection, and on consistent tables the
      stored state, or Disconnected without one. */
  lemma StateAnswers<C>(t: Tables<C>, p: PeerId, closed: set<C>)
    requires Consistent(t)
    ensures Report(t, p, closed).1 == Connected <==> p in t.connections && t.connections[p] !in closed
    ensures p !in t.connections ==> Report(t, p, closed).1 == if p in t.states then t.states[p] else Disconnected
    ensures p in t.connections && t.connections[p] in closed ==> Report(t, p, closed).1 == Disconnected
  {
  }

  // ----- the tables as independent per-peer automata -------------------------------------

  /** Everything the manager knows about one peer. */
  datatype View<+C> = View(connection: Option<C>, task: Option<TaskId>, state: Option<LogicalState>,
                           peerClosing: bool, allClosing: bool)

  function ViewOf<C>(t: Tables<C>, p: PeerId): View<C> {
    View(Lookup(t.connections, p), Lookup(t.inFlight, p), Lookup(t.states, p), p in t.closingPeers, t.closing)
  }

  /** A closed connection is dropped, and a peer that loses it this way is Disconnected. */
  function Settle<C>(v: View<C>, closed: set<C>): View<C> {
    if v.connection.Some? && v.connection.value in closed
    then v.(connection := None, state := Some(Disconnected)) else v
  }

  /** The life of one peer under calls that name it (`aboutMe`) or name all peers. */
  function Live<C>(v: View<C>, op: Op<C>, closed: set<C>, me: PeerId): View<C> {
    var blocked := v.peerClosing || v.allClosing;
    var now := Settle(v, closed);
    match op
    case OpReport(_) => now
    case OpMarkReconnecting(_) =>
      if blocked then v else if now.connection.Some? then now else now.(state := Some(Reconnecting))
    case OpMarkDisconnected(_) =>
      if now.connection.Some? || v.peerClosing then now else now.(state := Some(Disconnected))
    case OpJoin(_, reconnecting, newTask) =>
      if blocked then v
      else if now.connection.Some? || now.task.Some? then now
      else now.(task := Some(newTask), state := Some(if reconnecting then Reconnecting else Connecting))
    case OpInstall(_, c) =>
      if blocked then v else v.(connection := Some(c), state := Some(Connected))
    case OpLose(_, c) =>
      if v.connection == Some(c) then v.(connection := None, state := Some(Disconnected)) else v
    case OpBeginClosePeer(_) => View(None, None, Some(Closing), true, v.allClosing)
    case OpEndClosePeer(_) =>
      if v.connection.None? && v.task.None? then v.(peerClosing := false, state := Some(Closed))
      else v.(peerClosing := false)
    case OpBeginCloseAll =>
      View(None, None, if v.state.None? && v.task.None? then None else Some(Closing), v.peerClosing, true)
    case OpEndCloseAll(ps) =>
      v.(state := if me in ps then Some(Closed) else v.state, peerClosing := false, allClosing := false)
    case OpFinishTask(_, who, succeeded) =>
      var left := if now.task == Some(who) then None else now.task;
      if succeeded then v.(task := left)
      else if now.connection.Some? then now.(task := left)
      else now.(task := left, state := Some(if blocked then Closed else Disconnected))
  }

  predicate Names<C>(op: Op<C>, p: PeerId) {
    op.OpBeginCloseAll? || op.OpEndCloseAll? || op.p == p
  }

  lemma ReapSettles<C>(t: Tables<C>, q: PeerId, closed: set<C>, p: PeerId)
    requires Consistent(t)
    ensures ViewOf(Reap(t, q, closed).0, p) == if p == q then Settle(ViewOf(t, p), closed) else ViewOf(t, p)
    ensures Reap(t, q, closed).1 == Settle(ViewOf(t, q), closed).connection
  {
  }

  lemma FinishRefines<C>(t: Tables<C>, q: PeerId, who: TaskId, succeeded: bool, closed: set<C>, p: PeerId)
    requires Consistent(t)
    ensures ViewOf(FinishTask(t, q, who, succeeded, closed), p) ==
            if p == q then Live(ViewOf(t, p), OpFinishTask(q, who, succeeded), closed, p) else ViewOf(t, p)
  {
    var t1 := if Lookup(t.inFlight, q) == Some(who) then t.(inFlight := t.inFlight - {q}) else t;
    ReapSettles(t1, q, closed, p);
    ReapSettles(t1, q, closed, q);
  }

  lemma CloseAllRefines<C>(t: Tables<C>, ps: set<PeerId>, closed: set<C>, p: PeerId)
    requires Consistent(t)
    ensures ViewOf(BeginCloseAll(t), p) == Live(ViewOf(t, p), OpBeginCloseAll, closed, p)
    ensures ViewOf(EndCloseAll(t, ps), p) == Live(ViewOf(t, p), OpEndCloseAll(ps), closed, p)
  {
  }

  lemma MarkRefines<C>(t: Tables<C>, q: PeerId, closed: set<C>, p: PeerId)
    requires Consistent(t)
    ensures ViewOf(MarkReconnecting(t, q, closed), p) ==
            if p == q then Live(ViewOf(t, p), OpMarkReconnecting(q), closed, p) else ViewOf(t, p)
    ensures ViewOf(MarkDisconnected(t, q, closed), p) ==
            if p == q then Live(ViewOf(t, p), OpMarkDisconnected(q), closed, p) else ViewOf(t, p)
  {
    ReapSettles(t, q, closed, p);
    ReapSettles(t, q, closed, q);
  }

  lemma JoinRefines<C>(t: Tables<C>, q: PeerId, reconnecting: bool, newTask: TaskId, closed: set<C>, p: PeerId)
    requires Consistent(t)
    ensures ViewOf(Join(t, q, reconnecting, newTask, closed).0, p) ==
            if p == q then Live(ViewOf(t, p), OpJoin(q, reconnecting, newTask), closed, p) else ViewOf(t, p)
  {
    ReapSettles(t, q, closed, p);
    ReapSettles(t, q, closed, q);
  }

  /** The shared tables behave as one automaton per peer: a call changes exactly the view of
      the peers it names, each as `Live` says, and no other peer's view. */
  lemma TablesRefineAutomata<C>(t: Tables<C>, op: Op<C>, closed: set<C>, p: PeerId)
    requires Consistent(t)
    ensures ViewOf(Apply(t, op, closed), p) ==
            if Names(op, p) then Live(ViewOf(t, p), op, closed, p) else ViewOf(t, p)
  {
    match op
    case OpEndCloseAll(ps) => CloseAllRefines(t, ps, closed, p);
    case OpBeginCloseAll => CloseAllRefines(t, {}, closed, p);
    case OpFinishTask(q, who, succeeded) => FinishRefines(t, q, who, succeeded, closed, p);
    case OpReport(q) => ReapSettles(t, q, closed, p);
    case OpMarkReconnecting(q) => MarkRefines(t, q, closed, p);
    case OpMarkDisconnected(q) => MarkRefines(t, q, closed, p);
    case OpJoin(q, reconnecting, newTask) => JoinRefines(t, q, reconnecting, newTask, closed, p);
    case OpInstall(q, c) =>
    case OpLose(q, c) =>
    case OpBeginClosePeer(q) =>
    case OpEndClosePeer(q) =>
  }
}
