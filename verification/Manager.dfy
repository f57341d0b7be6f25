/** A physical connection, reduced to its one-way closed flag. */
module Connections {
  class Connection {
    var isClosed: bool

    constructor ()
      ensures !isClosed
    {
      isClosed := false;
    }

    /** `close` raises the flag before it first suspends, even when it later fails. */
    method Close()
      modifies this
      ensures isClosed
    {
      isClosed := true;
    }
  }
}

/** `ConnectionManager`: each method is one critical section, updating the dictionaries in place. */
module Manager {
  import opened Wrappers
  import opened Connections
  import T = ManagerTables

  class ConnectionManager {
    var connections: map<T.PeerId, Connection>
    var inFlight: map<T.PeerId, T.TaskId>
    var states: map<T.PeerId, T.LogicalState>
    var closingPeers: set<T.PeerId>
    var closing: bool

    function Snapshot(): T.Tables<Connection>
      reads this
    {
      T.Tables(connections, inFlight, states, closingPeers, closing)
    }

    ghost function ClosedOnes(): set<Connection>
      reads this, connections.Values
    {
      set c | c in connections.Values && c.isClosed
    }

    constructor ()
      ensures Snapshot() == T.Tables(map[], map[], map[], {}, false)
      ensures T.Consistent(Snapshot())
    {
      connections, inFlight, states, closingPeers, closing := map[], map[], map[], {}, false;
    }

    method GetById(p: T.PeerId) returns (found: Option<Connection>)
      modifies this
      ensures (Snapshot(), found) == old(T.Reap(Snapshot(), p, ClosedOnes()))
      ensures found.Some? ==> !found.value.isClosed
    {
      found := T.Lookup(connections, p);
      if found.Some? && found.value.isClosed {
        connections := connections - {p};
        if T.Lookup(states, p) == Some(T.Connected) {
          states := states[p := T.Disconnected];
        }
        found := None;
      }
    }

    method State(p: T.PeerId) returns (state: T.LogicalState)
      modifies this
      ensures (Snapshot(), state) == old(T.Report(Snapshot(), p, ClosedOnes()))
    {
      var found := GetById(p);
      if found.Some? { return T.Connected; }
      state := if p in states then states[p] else T.Disconnected;
    }

    method MarkReconnecting(p: T.PeerId)
      modifies this
      ensures Snapshot() == old(T.MarkReconnecting(Snapshot(), p, ClosedOnes()))
    {
      if !closing && p !in closingPeers {
        var found := GetById(p);
        if found.None? { states := states[p := T.Reconnecting]; }
      }
    }

    method MarkDisconnected(p: T.PeerId)
      modifies this
      ensures Snapshot() == old(T.MarkDisconnected(Snapshot(), p, ClosedOnes()))
    {
      var found := GetById(p);
      if found.None? && p !in closingPeers { states := states[p := T.Disconnected]; }
    }

    /** `connect` up to the await on the shielded task. */
    method Connect(p: T.PeerId, reconnecting: bool, newTask: T.TaskId) returns (r: T.Joined<Connection>)
      modifies this
      ensures (Snapshot(), r) == old(T.Join(Snapshot(), p, reconnecting, newTask, ClosedOnes()))
      ensures r.Refused? <==> old(closing || p in closingPeers)
      ensures r.Existing? ==> !r.connection.isClosed && old(p in connections && connections[p] == r.connection)
      ensures !r.Refused? && old(p in connections && !connections[p].isClosed) ==> r.Existing?
    {
      if closing || p in closingPeers { return T.Refused; }
      var existing := GetById(p);
      if existing.Some? { return T.Existing(existing.value); }
      if p in inFlight { return T.Waits(inFlight[p]); }
      states := states[p := if reconnecting then T.Reconnecting else T.Connecting];
      inFlight := inFlight[p := newTask];
      r := T.Starts(newTask);
    }

    /** `adopt`, and the installing block of `_open_connection`. */
    method Adopt(p: T.PeerId, c: Connection) returns (r: T.Installed<Connection>)
      modifies this
      ensures (Snapshot(), r) == old(T.Install(Snapshot(), p, c))
    {
      if closing || p in closingPeers { return T.NotInstalled; }
      var previous := T.Lookup(connections, p);
      connections := connections[p := c];
      states := states[p := T.Connected];
      r := T.Replaced(if previous == Some(c) then None else previous);
    }

    method ConnectionLost(p: T.PeerId, c: Connection) returns (removed: bool)
      modifies this
      ensures (Snapshot(), removed) == old(T.Lose(Snapshot(), p, c))
    {
      if T.Lookup(connections, p) != Some(c) { return false; }
      connections := connections - {p};
      if p !in closingPeers && !closing { states := states[p := T.Disconnected]; }
      removed := true;
    }

    method BeginClosePeer(p: T.PeerId) returns (task: Option<T.TaskId>, connection: Option<Connection>)
      modifies this
      ensures (Snapshot(), task, connection) == old(T.BeginClosePeer(Snapshot(), p))
    {
      closingPeers := closingPeers + {p};
      states := states[p := T.Closing];
      task := T.Lookup(inFlight, p);
      inFlight := inFlight - {p};
      connection := T.Lookup(connections, p);
      connections := connections - {p};
    }

    method EndClosePeer(p: T.PeerId)
      modifies this
      ensures Snapshot() == old(T.EndClosePeer(Snapshot(), p))
    {
      closingPeers := closingPeers - {p};
      if p !in connections && p !in inFlight { states := states[p := T.Closed]; }
    }

    method OverwriteStates(ps: set<T.PeerId>, v: T.LogicalState)
      modifies this`states
      ensures states == T.WithStates(old(states), ps, v)
    {
      var left := ps;
      while left != {}
        invariant left <= ps
        invariant states == T.WithStates(old(states), ps - left, v)
        decreases left
      {
        var p :| p in left;
        states := states[p := v];
        left := left - {p};
      }
      assert ps - left == ps;
    }

    method BeginCloseAll() returns (ps: set<T.PeerId>, tasks: set<T.TaskId>, taken: set<Connection>)
      modifies this
      ensures Snapshot() == old(T.BeginCloseAll(Snapshot()))
      ensures ps == old(T.KnownPeers(Snapshot()))
      ensures tasks == old(inFlight.Values) && taken == old(connections.Values)
    {
      closing := true;
      ps := states.Keys + connections.Keys + inFlight.Keys;
      OverwriteStates(ps, T.Closing);
      tasks := inFlight.Values;
      taken := connections.Values;
      inFlight := map[];
      connections := map[];
    }

    method EndCloseAll(ps: set<T.PeerId>)
      modifies this
      ensures Snapshot() == old(T.EndCloseAll(Snapshot(), ps))
    {
      OverwriteStates(ps, T.Closed);
      closingPeers := {};
      closing := false;
    }

    /** The section in the `finally` clause of `_open_connection`. */
    method FinishTask(p: T.PeerId, me: T.TaskId, succeeded: bool)
      modifies this
      ensures Snapshot() == old(T.FinishTask(Snapshot(), p, me, succeeded, ClosedOnes()))
    {
      if T.Lookup(inFlight, p) == Some(me) { inFlight := inFlight - {p}; }
      if !succeeded {
        var found := GetById(p);
        if found.None? {
          states := states[p := if closing || p in closingPeers then T.Closed else T.Disconnected];
        }
      }
    }
  }
}
