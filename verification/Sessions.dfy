/** The READY-session dictionaries of `PaqtoNode`, updated in place. */
module Sessions {
  import opened Wrappers
  import opened Connections
  import S = SessionTables

  class NodeSessions {
    const me: S.PeerId
    var sessions: map<Connection, S.PeerId>
    var sessionConnections: set<Connection>
    var sessionDirections: map<Connection, S.Direction>
    var peerConnections: map<S.PeerId, Connection>

    function Tables(): S.Registry<Connection>
      reads this
    {
      S.Registry(sessions, sessionConnections, sessionDirections, peerConnections)
    }

    ghost function ClosedOnes(): set<Connection>
      reads this, peerConnections.Values
    {
      set c | c in peerConnections.Values && c.isClosed
    }

    constructor (me: S.PeerId)
      ensures this.me == me && Tables() == S.Start<Connection>().registry
      ensures S.Bijective(Tables())
    {
      this.me := me;
      sessions, sessionConnections, sessionDirections, peerConnections := map[], {}, map[], map[];
    }

    method RegisterSession(c: Connection, peer: S.PeerId, d: S.Direction)
      modifies this
      ensures Tables() == old(S.Register(Tables(), c, peer, d))
    {
      sessions := sessions[c := peer];
      sessionConnections := sessionConnections + {c};
      sessionDirections := sessionDirections[c := d];
      peerConnections := peerConnections[peer := c];
    }

    method DeactivateSession(c: Connection)
      modifies this
      ensures Tables() == old(S.Deactivate(Tables(), c))
    {
      if c in sessions {
        var peer := sessions[c];
        if peer in peerConnections && peerConnections[peer] == c {
          peerConnections := peerConnections - {peer};
        }
      }
      sessions := sessions - {c};
      sessionConnections := sessionConnections - {c};
      sessionDirections := sessionDirections - {c};
    }

    /** `_select_ready_connection`; the direction lookup cannot fail on one-to-one tables. */
    method SelectReadyConnection(c: Connection, peer: S.PeerId, d: S.Direction) returns (choice: S.Choice<Connection>)
      requires S.Bijective(Tables()) && (c in sessions ==> sessions[c] == peer)
      modifies this
      ensures (Tables(), choice) == old(S.Select(Tables(), me, c, peer, d, ClosedOnes()))
      ensures S.Bijective(Tables()) && !choice.NoDirection?
      ensures choice.Chosen? ==> peer in peerConnections && peerConnections[peer] == choice.selected
    {
      S.BijectiveSelect(Tables(), me, c, peer, d, ClosedOnes());
      if peer == me { return S.SelfSession; }
      if peer in peerConnections && peerConnections[peer].isClosed {
        DeactivateSession(peerConnections[peer]);
        RegisterSession(c, peer, d);
        return S.Chosen(c, None);
      }
      if peer !in peerConnections {
        RegisterSession(c, peer, d);
        return S.Chosen(c, None);
      }
      var existing := peerConnections[peer];
      if existing == c { return S.Chosen(c, None); }
      var preferred := S.Preferred(me, peer);
      if d == preferred && sessionDirections[existing] != preferred {
        DeactivateSession(existing);
        RegisterSession(c, peer, d);
        return S.Chosen(c, Some(existing));
      }
      choice := S.Chosen(existing, Some(c));
    }
  }
}
