/** Pending request and ACK correlations of `PaqtoNode`.  Futures are numbered; an entry names
    the exact connection and peer that may complete it. */
module CorrelationTables {
  import opened Wrappers

  type Id = string
  type PeerId = string
  type Conn = nat
  type FutureId = nat

  /** What completed a future: the frame's connection, its session peer, the correlation id. */
  datatype Source =
    | FromReply(connection: Conn, peer: PeerId, id: Id)
    | FromAck(connection: Conn, peer: PeerId, id: Id)

  datatype FutureState = Pending | Result(source: Source) | Failed | Cancelled

  datatype Entry = Entry(future: FutureId, connection: Conn, peer: PeerId)

  datatype Tables = Tables(requests: map<Id, Entry>, acks: map<Id, Entry>, futures: map<FutureId, FutureState>)

  /** `set_result` and `_set_future_error` behind their `done()` guards. */
  function Complete(futures: map<FutureId, FutureState>, f: FutureId, v: FutureState): map<FutureId, FutureState> {
    if f in futures && futures[f].Pending? then futures[f := v] else futures
  }

  function FailAll(futures: map<FutureId, FutureState>, fs: set<FutureId>): map<FutureId, FutureState> {
    map f | f in futures :: if f in fs && futures[f].Pending? then Failed else futures[f]
  }

  function Matches(m: map<Id, Entry>, id: Id, c: Conn, peer: PeerId): bool {
    id in m && m[id].connection == c && m[id].peer == peer
  }

  /** `_resolve_reply`. */
  function ResolveReply(t: Tables, c: Conn, peer: PeerId, id: Id): Tables {
    if !Matches(t.requests, id, c, peer) then t
    else t.(requests := t.requests - {id},
            futures := Complete(t.futures, t.requests[id].future, Result(FromReply(c, peer, id))))
  }

  /** `_resolve_acknowledgement`. */
  function ResolveAck(t: Tables, c: Conn, peer: PeerId, id: Id): Tables {
    if !Matches(t.acks, id, c, peer) then t
    else t.(acks := t.acks - {id},
            futures := Complete(t.futures, t.acks[id].future, Result(FromAck(c, peer, id))))
  }

  function IdsOn(m: map<Id, Entry>, c: Conn): set<Id> {
    set id | id in m && m[id].connection == c
  }

  function FuturesOf(m: map<Id, Entry>, ids: set<Id>): set<FutureId> {
    set id | id in ids && id in m :: m[id].future
  }

  lemma OneMoreFuture(m: map<Id, Entry>, ids: set<Id>, id: Id)
    requires id in m
    ensures FuturesOf(m, ids + {id}) == FuturesOf(m, ids) + {m[id].future}
  {
  }

  /** `_fail_pending_for_connection`. */
  function FailConnection(t: Tables, c: Conn): Tables {
    var rs := IdsOn(t.requests, c);
    var acks := IdsOn(t.acks, c);
    Tables(t.requests - rs, t.acks - acks,
           FailAll(t.futures, FuturesOf(t.requests, rs) + FuturesOf(t.acks, acks)))
  }

  /** `_fail_all_pending`. */
  function FailEverything(t: Tables): Tables {
    Tables(map[], map[], FailAll(t.futures, FuturesOf(t.requests, t.requests.Keys) + FuturesOf(t.acks, t.acks.Keys)))
  }

  /** The `finally` clause of an owner: drop its own entry, cancel its future when unfinished. */
  function Release(m: map<Id, Entry>, id: Id, f: FutureId): map<Id, Entry> {
    if id in m && m[id].future == f then m - {id} else m
  }

  function ReleaseRequest(t: Tables, id: Id, f: FutureId): Tables {
    t.(requests := Release(t.requests, id, f), futures := Complete(t.futures, f, Cancelled))
  }

  function ReleaseAck(t: Tables, id: Id, f: FutureId): Tables {
    t.(acks := Release(t.acks, id, f), futures := Complete(t.futures, f, Cancelled))
  }

  /** Registration in `request` and `_send_message`: refused for a duplicate id or a full table. */
  function AddRequest(t: Tables, id: Id, f: FutureId, c: Conn, peer: PeerId, limit: nat): Option<Tables> {
    if id in t.requests || |t.requests| >= limit then None
    else Some(t.(requests := t.requests[id := Entry(f, c, peer)], futures := t.futures[f := Pending]))
  }

  function AddAck(t: Tables, id: Id, f: FutureId, c: Conn, peer: PeerId, limit: nat): Option<Tables> {
    if id in t.acks || |t.acks| >= limit then None
    else Some(t.(acks := t.acks[id := Entry(f, c, peer)], futures := t.futures[f := Pending]))
  }

  /** An owner that ends takes out exactly its own request, by id and future, and cancels its
      future only when that is unfinished. */
  lemma ReleaseIsExact(t: Tables, id: Id, f: FutureId, other: Id, g: FutureId)
    ensures var t' := ReleaseRequest(t, id, f);
            && (other in t'.requests <==> other in t.requests && !(other == id && t.requests[id].future == f))
            && (other in t'.requests ==> t'.requests[other] == t.requests[other])
            && t'.acks == t.acks && t'.futures.Keys == t.futures.Keys
            && (g in t.futures ==> t'.futures[g] == if g == f && t.futures[g].Pending? then Cancelled else t.futures[g])
  {
  }

  lemma ReleaseIsExactForAcks(t: Tables, id: Id, f: FutureId, other: Id, g: FutureId)
    ensures var t' := ReleaseAck(t, id, f);
            && (other in t'.acks <==> other in t.acks && !(other == id && t.acks[id].future == f))
            && (other in t'.acks ==> t'.acks[other] == t.acks[other])
            && t'.requests == t.requests && t'.futures.Keys == t.futures.Keys
            && (g in t.futures ==> t'.futures[g] == if g == f && t.futures[g].Pending? then Cancelled else t.futures[g])
  {
  }

  /** Registration is refused exactly for an id already pending or a full table; otherwise the id
      alone is added, waiting on the new future for its own connection and peer. */
  lemma AddIsExact(t: Tables, id: Id, f: FutureId, c: Conn, peer: PeerId, limit: nat, other: Id, g: FutureId)
    ensures AddRequest(t, id, f, c, peer, limit).None? <==> id in t.requests || limit <= |t.requests|
    ensures AddRequest(t, id, f, c, peer, limit).Some? ==>
              var t' := AddRequest(t, id, f, c, peer, limit).value;
              && (other in t'.requests <==> other in t.requests || other == id) && t'.acks == t.acks
              && (other in t'.requests ==> t'.requests[other] == if other == id then Entry(f, c, peer) else t.requests[other])
              && (g in t'.futures <==> g in t.futures || g == f)
              && (g in t'.futures ==> t'.futures[g] == if g == f then Pending else t.futures[g])
  {
  }

  lemma AddIsExactForAcks(t: Tables, id: Id, f: FutureId, c: Conn, peer: PeerId, limit: nat, other: Id, g: FutureId)
    ensures AddAck(t, id, f, c, peer, limit).None? <==> id in t.acks || limit <= |t.acks|
    ensures AddAck(t, id, f, c, peer, limit).Some? ==>
              var t' := AddAck(t, id, f, c, peer, limit).value;
              && (other in t'.acks <==> other in t.acks || other == id) && t'.requests == t.requests
              && (other in t'.acks ==> t'.acks[other] == if other == id then Entry(f, c, peer) else t.acks[other])
              && (g in t'.futures <==> g in t.futures || g == f)
              && (g in t'.futures ==> t'.futures[g] == if g == f then Pending else t.futures[g])
  {
  }

  /** A frame takes out exactly the entry it answers, even one whose owner has given up, and
      touches no other future. */
  lemma ResolutionIsLocal(t: Tables, c: Conn, peer: PeerId, id: Id, other: Id, g: FutureId)
    ensures var t' := ResolveReply(t, c, peer, id);
            && (other in t'.requests <==>
                  other in t.requests && !(other == id && t.requests[id].connection == c && t.requests[id].peer == peer))
            && (other in t'.requests ==> t'.requests[other] == t.requests[other])
            && (g in t.futures && t'.futures[g] != t.futures[g] ==> id in t.requests && g == t.requests[id].future)
    ensures var t' := ResolveAck(t, c, peer, id);
            && (other in t'.acks <==>
                  other in t.acks && !(other == id && t.acks[id].connection == c && t.acks[id].peer == peer))
            && (other in t'.acks ==> t'.acks[other] == t.acks[other])
            && (g in t.futures && t'.futures[g] != t.futures[g] ==> id in t.acks && g == t.acks[id].future)
  {
  }

  /** Somebody waits in one of the tables on this future. */
  predicate IsAwaited(t: Tables, g: FutureId) {
    (exists id :: id in t.requests && t.requests[id].future == g) || (exists id :: id in t.acks && t.acks[id].future == g)
  }

  /** Stopping empties both tables and fails exactly the waiters that were still pending there. */
  lemma StopIsExact(t: Tables, g: FutureId)
    requires g in t.futures
    ensures var t' := FailEverything(t);
            && t'.requests == map[] && t'.acks == map[] && t'.futures.Keys == t.futures.Keys
            && t'.futures[g] == if IsAwaited(t, g) && t.futures[g].Pending? then Failed else t.futures[g]
  {
  }

  /** Entries are waiting on futures of their own that hold no result and no error. */
  ghost predicate WellFormed(t: Tables) {
    && AllWait(t.requests, t.futures) && AllWait(t.acks, t.futures)
    && (forall i, j | i in t.requests && j in t.requests && i != j :: t.requests[i].future != t.requests[j].future)
    && (forall i, j | i in t.acks && j in t.acks && i != j :: t.acks[i].future != t.acks[j].future)
    && (forall i, j | i in t.requests && j in t.acks :: t.requests[i].future != t.acks[j].future)
  }

  ghost predicate AllWait(m: map<Id, Entry>, futures: map<FutureId, FutureState>) {
    forall id | id in m :: Waits(futures, m[id].future)
  }

  predicate Waits(futures: map<FutureId, FutureState>, f: FutureId) {
    f in futures && (futures[f].Pending? || futures[f].Cancelled?)
  }

  /** A reply completes a waiting request exactly when id, connection and peer all match, and
      then it leaves the table; otherwise nothing changes. */
  lemma ReplyIsExact(t: Tables, c: Conn, peer: PeerId, id: Id, i: Id)
    requires WellFormed(t) && i in t.requests && t.futures[t.requests[i].future].Pending?
    ensures var t' := ResolveReply(t, c, peer, id); var f := t.requests[i].future;
            && (t'.futures[f].Result? <==> i == id && t.requests[i].connection == c && t.requests[i].peer == peer)
            && (i in t'.requests <==> !t'.futures[f].Result?)
            && t'.acks == t.acks
  {
  }

  lemma AckIsExact(t: Tables, c: Conn, peer: PeerId, id: Id, i: Id)
    requires WellFormed(t) && i in t.acks && t.futures[t.acks[i].future].Pending?
    ensures var t' := ResolveAck(t, c, peer, id); var f := t.acks[i].future;
            && (t'.futures[f].Result? <==> i == id && t.acks[i].connection == c && t.acks[i].peer == peer)
            && (i in t'.acks <==> !t'.futures[f].Result?)
            && t'.requests == t.requests
  {
  }

  /** Losing a connection fails every waiter on it and nobody else. */
  lemma FailIsExact(t: Tables, c: Conn, i: Id)
    requires WellFormed(t) && i in t.requests && t.futures[t.requests[i].future].Pending?
    ensures var t' := FailConnection(t, c); var f := t.requests[i].future;
            && (t'.futures[f].Failed? <==> t.requests[i].connection == c)
            && (i in t'.requests <==> t.requests[i].connection != c)
            && (t.requests[i].connection != c ==> t'.futures[f].Pending?)
  {
    var t' := FailConnection(t, c);
    if t.requests[i].connection != c {
      assert t.requests[i].future !in FuturesOf(t.requests, IdsOn(t.requests, c)) + FuturesOf(t.acks, IdsOn(t.acks, c));
    }
  }

  lemma FailIsExactForAcks(t: Tables, c: Conn, i: Id)
    requires WellFormed(t) && i in t.acks && t.futures[t.acks[i].future].Pending?
    ensures var t' := FailConnection(t, c); var f := t.acks[i].future;
            && (t'.futures[f].Failed? <==> t.acks[i].connection == c)
            && (i in t'.acks <==> t.acks[i].connection != c)
            && (t.acks[i].connection != c ==> t'.futures[f].Pending?)
  {
    if t.acks[i].connection != c {
      assert t.acks[i].future !in FuturesOf(t.requests, IdsOn(t.requests, c)) + FuturesOf(t.acks, IdsOn(t.acks, c));
    }
  }
}

/** The same dictionaries updated in place, with the loops of the source. */
module Correlation {
  import opened Wrappers
  import T = CorrelationTables

  class PendingTables {
    var requests: map<T.Id, T.Entry>
    var acks: map<T.Id, T.Entry>
    var futures: map<T.FutureId, T.FutureState>

    function Tables(): T.Tables
      reads this
    {
      T.Tables(requests, acks, futures)
    }

    method SetFutureError(f: T.FutureId)
      modifies this`futures
      ensures futures == T.Complete(old(futures), f, T.Failed)
    {
      if f in futures && futures[f].Pending? { futures := futures[f := T.Failed]; }
    }

    method ResolveReply(c: T.Conn, peer: T.PeerId, id: T.Id)
      modifies this
      ensures Tables() == old(T.ResolveReply(Tables(), c, peer, id))
    {
      if id !in requests { return; }
      var pending := requests[id];
      if pending.connection != c || pending.peer != peer { return; }
      requests := requests - {id};
      if pending.future in futures && futures[pending.future].Pending? {
        futures := futures[pending.future := T.Result(T.FromReply(c, peer, id))];
      }
    }

    method ResolveAcknowledgement(c: T.Conn, peer: T.PeerId, id: T.Id)
      modifies this
      ensures Tables() == old(T.ResolveAck(Tables(), c, peer, id))
    {
      if id !in acks { return; }
      var pending := acks[id];
      if pending.connection != c || pending.peer != peer { return; }
      acks := acks - {id};
      if pending.future in futures && futures[pending.future].Pending? {
        futures := futures[pending.future := T.Result(T.FromAck(c, peer, id))];
      }
    }

    /** The two loops of `_fail_pending_for_connection`, each walking a copy of the items. */
    method FailRequestsOn(c: T.Conn)
      modifies this`requests, this`futures
      ensures requests == old(requests) - T.IdsOn(old(requests), c)
      ensures futures == T.FailAll(old(futures), T.FuturesOf(old(requests), T.IdsOn(old(requests), c)))
    {
      var items := requests;
      var left := items.Keys;
      while left != {}
        invariant left <= items.Keys
        invariant requests == items - (T.IdsOn(items, c) - left)
        invariant futures == T.FailAll(old(futures), T.FuturesOf(items, T.IdsOn(items, c) - left))
        decreases left
      {
        var id :| id in left;
        if items[id].connection == c {
          T.OneMoreFuture(items, T.IdsOn(items, c) - left, id);
          assert T.IdsOn(items, c) - (left - {id}) == (T.IdsOn(items, c) - left) + {id};
          requests := requests - {id};
          SetFutureError(items[id].future);
        } else {
          assert T.IdsOn(items, c) - (left - {id}) == T.IdsOn(items, c) - left;
        }
        left := left - {id};
      }
      assert T.IdsOn(items, c) - left == T.IdsOn(items, c);
    }

    method FailAcksOn(c: T.Conn)
      modifies this`acks, this`futures
      ensures acks == old(acks) - T.IdsOn(old(acks), c)
      ensures futures == T.FailAll(old(futures), T.FuturesOf(old(acks), T.IdsOn(old(acks), c)))
    {
      var items := acks;
      var left := items.Keys;
      while left != {}
        invariant left <= items.Keys
        invariant acks == items - (T.IdsOn(items, c) - left)
        invariant futures == T.FailAll(old(futures), T.FuturesOf(items, T.IdsOn(items, c) - left))
        decreases left
      {
        var id :| id in left;
        if items[id].connection == c {
          T.OneMoreFuture(items, T.IdsOn(items, c) - left, id);
          assert T.IdsOn(items, c) - (left - {id}) == (T.IdsOn(items, c) - left) + {id};
          acks := acks - {id};
          SetFutureError(items[id].future);
        } else {
          assert T.IdsOn(items, c) - (left - {id}) == T.IdsOn(items, c) - left;
        }
        left := left - {id};
      }
      assert T.IdsOn(items, c) - left == T.IdsOn(items, c);
    }

    method FailPendingForConnection(c: T.Conn)
      modifies this
      ensures Tables() == old(T.FailConnection(Tables(), c))
    {
      FailRequestsOn(c);
      FailAcksOn(c);
    }

    method FailFutures(entries: map<T.Id, T.Entry>)
      modifies this`futures
      ensures futures == T.FailAll(old(futures), T.FuturesOf(entries, entries.Keys))
    {
      var left := entries.Keys;
      while left != {}
        invariant left <= entries.Keys
        invariant futures == T.FailAll(old(futures), T.FuturesOf(entries, entries.Keys - left))
        decreases left
      {
        var id :| id in left;
        T.OneMoreFuture(entries, entries.Keys - left, id);
        assert entries.Keys - (left - {id}) == (entries.Keys - left) + {id};
        SetFutureError(entries[id].future);
        left := left - {id};
      }
      assert entries.Keys - left == entries.Keys;
    }

    method FailAllPending()
      modifies this
      ensures Tables() == old(T.FailEverything(Tables()))
    {
      var rs, pendingAcks := requests, acks;
      requests, acks := map[], map[];
      FailFutures(rs);
      FailFutures(pendingAcks);
    }

    method ReleaseRequest(id: T.Id, f: T.FutureId)
      modifies this
      ensures Tables() == old(T.ReleaseRequest(Tables(), id, f))
    {
      if id in requests && requests[id].future == f { requests := requests - {id}; }
      if f in futures && futures[f].Pending? { futures := futures[f := T.Cancelled]; }
    }

    method ReleaseAck(id: T.Id, f: T.FutureId)
      modifies this
      ensures Tables() == old(T.ReleaseAck(Tables(), id, f))
    {
      if id in acks && acks[id].future == f { acks := acks - {id}; }
      if f in futures && futures[f].Pending? { futures := futures[f := T.Cancelled]; }
    }
  }
}
