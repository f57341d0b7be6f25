/** The accept hand-off of `TcpListener`: the deque of waiting futures, the deque of accepted
    connections, and the set of owned connections. */
module ListenerTables {
  import opened Wrappers

  type Conn = nat
  type Waiter = nat

  datatype WaiterState = Pending | Got(c: Conn) | Failed | Cancelled

  /** `admitted` and `handed` record admissions and hand-outs in order; `toClose` what the close
      in progress still has to close; `dead` the physical connections already closed. */
  datatype Listener = Listener(
    accepted: seq<Conn>, waiters: seq<Waiter>, futures: map<Waiter, WaiterState>, owned: set<Conn>,
    started: bool, closed: bool, dead: set<Conn>, toClose: set<Conn>,
    admitted: seq<Conn>, handed: seq<Conn>, seen: set<Conn>)

  const Init := Listener([], [], map[], {}, false, false, {}, {}, [], [], {})

  predicate IsPending(futures: map<Waiter, WaiterState>, w: Waiter) {
    w in futures && futures[w].Pending?
  }

  /** How many finished waiters stand before the first unfinished one. */
  function FinishedPrefix(waiters: seq<Waiter>, futures: map<Waiter, WaiterState>): (k: nat)
    ensures k <= |waiters|
    ensures forall i | 0 <= i < k :: !IsPending(futures, waiters[i])
    ensures k < |waiters| ==> IsPending(futures, waiters[k])
  {
    if waiters == [] || IsPending(futures, waiters[0]) then 0
    else 1 + FinishedPrefix(waiters[1..], futures)
  }

  /** `_handle_client` for an established connection. */
  function Handle(l: Listener, c: Conn, limit: nat): Listener {
    if l.closed then l.(dead := l.dead + {c}, seen := l.seen + {c})
    else
      var k := FinishedPrefix(l.waiters, l.futures);
      if k < |l.waiters| then
        l.(waiters := l.waiters[k + 1..], futures := l.futures[l.waiters[k] := Got(c)], owned := (l.owned - l.dead) + {c},
           admitted := l.admitted + [c], handed := l.handed + [c], seen := l.seen + {c})
      else if |l.accepted| >= limit then l.(waiters := [], dead := l.dead + {c}, seen := l.seen + {c})
      else l.(waiters := [], accepted := l.accepted + [c], owned := (l.owned - l.dead) + {c},
              admitted := l.admitted + [c], seen := l.seen + {c})
  }

  datatype AcceptResult = AcceptFails | Accepts(c: Conn) | AcceptWaits

  /** `accept` up to its await; `w` names the future it would create. */
  function Accept(l: Listener, w: Waiter): (Listener, AcceptResult) {
    if l.closed || !l.started then (l, AcceptFails)
    else if l.accepted != [] then
      (l.(accepted := l.accepted[1..], handed := l.handed + [l.accepted[0]]), Accepts(l.accepted[0]))
    else (l.(waiters := l.waiters + [w], futures := l.futures[w := Pending]), AcceptWaits)
  }

  function Remove(waiters: seq<Waiter>, w: Waiter): (r: seq<Waiter>)
    ensures forall x | x in r :: x in waiters
    ensures forall x | x in waiters && x != w :: x in r
  {
    if waiters == [] then []
    else if waiters[0] == w then waiters[1..]
    else [waiters[0]] + Remove(waiters[1..], w)
  }

  function Finish(futures: map<Waiter, WaiterState>, w: Waiter, v: WaiterState): map<Waiter, WaiterState> {
    if IsPending(futures, w) then futures[w := v] else futures
  }

  /** The `finally` clause of `accept`. */
  function Leave(l: Listener, w: Waiter): Listener {
    l.(futures := Finish(l.futures, w, Cancelled), waiters := Remove(l.waiters, w))
  }

  function FailWaiters(futures: map<Waiter, WaiterState>, waiters: seq<Waiter>): map<Waiter, WaiterState> {
    if waiters == [] then futures else FailWaiters(Finish(futures, waiters[0], Failed), waiters[1..])
  }

  /** `_close` up to its first await. */
  function BeginClose(l: Listener): Listener {
    if l.closed then l
    else l.(closed := true, started := false, futures := FailWaiters(l.futures, l.waiters), waiters := [],
            toClose := l.owned, owned := {}, accepted := [])
  }

  predicate SomebodyWaits(l: Listener) {
    exists i :: 0 <= i < |l.waiters| && IsPending(l.futures, l.waiters[i])
  }

  /** What becomes of an arrival nobody waits for: closed on a closed listener or a full queue,
      otherwise queued last and owned. */
  lemma ArrivalIsExact(l: Listener, c: Conn, limit: nat)
    ensures Handle(l, c, limit).seen == l.seen + {c}
    ensures l.closed ==> var l' := Handle(l, c, limit);
              && c in l'.dead && l'.accepted == l.accepted && l'.owned == l.owned
              && l'.waiters == l.waiters && l'.futures == l.futures
    ensures !l.closed && !SomebodyWaits(l) ==> var l' := Handle(l, c, limit);
              if |l.accepted| < limit
              then l'.accepted == l.accepted + [c] && c in l'.owned && l'.dead == l.dead && l'.futures == l.futures
              else l'.accepted == l.accepted && c in l'.dead && l'.owned == l.owned && l'.futures == l.futures
    ensures !l.closed && SomebodyWaits(l) ==> var l' := Handle(l, c, limit);
              c in l'.owned && l'.dead == l.dead && l'.accepted == l.accepted
  {
    var k := FinishedPrefix(l.waiters, l.futures);
    if k < |l.waiters| { assert IsPending(l.futures, l.waiters[k]); }
  }

  /** What `accept` answers: an error exactly when the listener is closed or not started, otherwise
      the oldest queued connection, and without one it waits last in line. */
  lemma AcceptIsExact(l: Listener, w: Waiter)
    ensures var (l', answer) := Accept(l, w);
            && (answer.AcceptFails? <==> l.closed || !l.started) && (answer.AcceptFails? ==> l' == l)
            && (!answer.AcceptFails? && l.accepted != [] ==>
                  answer == Accepts(l.accepted[0]) && l.accepted == [l.accepted[0]] + l'.accepted && l'.waiters == l.waiters)
            && (!answer.AcceptFails? && l.accepted == [] ==>
                  answer.AcceptWaits? && l'.waiters == l.waiters + [w] && IsPending(l'.futures, w) && l'.accepted == [])
  {
  }

  /** A waiter that leaves is out of the line, unless the line names it twice, and no longer pending;
      everybody else keeps place and future. */
  lemma {:induction false} RemoveIsExact(waiters: seq<Waiter>, w: Waiter)
    ensures multiset(Remove(waiters, w)) == multiset(waiters) - multiset{w}
  {
    if waiters != [] {
      assert waiters == [waiters[0]] + waiters[1..];
      if waiters[0] != w { RemoveIsExact(waiters[1..], w); }
    }
  }

  lemma LeaveIsExact(l: Listener, w: Waiter, other: Waiter)
    requires other in l.futures
    ensures multiset(Leave(l, w).waiters) == multiset(l.waiters) - multiset{w}
    ensures other in Leave(l, w).futures
    ensures Leave(l, w).futures[other] == if other == w && l.futures[other].Pending? then Cancelled else l.futures[other]
  {
    RemoveIsExact(l.waiters, w);
  }

  lemma {:induction false} FailWaitersIsExact(futures: map<Waiter, WaiterState>, waiters: seq<Waiter>, w: Waiter)
    requires w in futures
    ensures w in FailWaiters(futures, waiters)
    ensures FailWaiters(futures, waiters)[w] == if w in waiters && futures[w].Pending? then Failed else futures[w]
    decreases |waiters|
  {
    if waiters != [] {
      assert w in waiters <==> w == waiters[0] || w in waiters[1..];
      FailWaitersIsExact(Finish(futures, waiters[0], Failed), waiters[1..], w);
    }
  }

  /** Closing refuses every waiter in line, takes out everything owned to be closed, queued
      connections included, and happens once. */
  lemma CloseIsExact(l: Listener, w: Waiter)
    requires w in l.futures
    ensures l.closed ==> BeginClose(l) == l
    ensures !l.closed ==> var l' := BeginClose(l);
              && l'.closed && !l'.started && l'.waiters == [] && l'.accepted == [] && l'.owned == {} && l'.toClose == l.owned
              && w in l'.futures && l'.futures[w] == if w in l.waiters && l.futures[w].Pending? then Failed else l.futures[w]
  {
    FailWaitersIsExact(l.futures, l.waiters, w);
  }

  datatype Event =
    | Starts
    | Arrives(c: Conn)
    | AcceptCalled(w: Waiter)
    | WaiterCancelled(w: Waiter)
    | WaiterLeaves(w: Waiter)
    | ConnectionDies(c: Conn)
    | CloseCalled
    | ClosesOne(c: Conn)

  predicate Enabled(l: Listener, e: Event) {
    match e
    case Starts => !l.closed
    case Arrives(c) => c !in l.seen
    case AcceptCalled(w) => w !in l.futures
    case WaiterCancelled(w) => w in l.futures
    case WaiterLeaves(w) => w in l.futures
    case ClosesOne(c) => c in l.toClose
    case _ => true
  }

  function Next(l: Listener, limit: nat, e: Event): Listener
    requires Enabled(l, e)
  {
    match e
    case Starts => l.(started := true)
    case Arrives(c) => Handle(l, c, limit)
    case AcceptCalled(w) => Accept(l, w).0
    case WaiterCancelled(w) => l.(futures := Finish(l.futures, w, Cancelled))
    case WaiterLeaves(w) => Leave(l, w)
    case ConnectionDies(c) => l.(dead := l.dead + {c})
    case CloseCalled => BeginClose(l)
    case ClosesOne(c) => l.(dead := l.dead + {c}, toClose := l.toClose - {c})
  }

  /** What each remaining event is for: starting lets `accept` in, a cancelled waiter is no longer
      pending, a connection that dies or is closed is dead, and a close in progress does each once. */
  lemma EventsTakeEffect(l: Listener, limit: nat, e: Event, w: Waiter)
    requires Enabled(l, e) && w in l.futures
    ensures var l' := Next(l, limit, e);
            && (e.Starts? ==> l'.started && l' == l.(started := l'.started))
            && (e.WaiterCancelled? ==>
                  && w in l'.futures && l'.waiters == l.waiters && l'.accepted == l.accepted
                  && l'.futures[w] == if w == e.w && l.futures[w].Pending? then Cancelled else l.futures[w])
            && (e.ConnectionDies? ==> l'.dead == l.dead + {e.c} && l'.owned == l.owned && l'.accepted == l.accepted)
            && (e.ClosesOne? ==> l'.dead == l.dead + {e.c} && l'.toClose == l.toClose - {e.c} && l'.futures == l.futures)
  {
  }

  ghost predicate IsRun(l: Listener, limit: nat, es: seq<Event>)
    decreases |es|
  {
    es == [] || (Enabled(l, es[0]) && IsRun(Next(l, limit, es[0]), limit, es[1..]))
  }

  ghost function After(l: Listener, limit: nat, es: seq<Event>): Listener
    requires IsRun(l, limit, es)
    decreases |es|
  {
    if es == [] then l else After(Next(l, limit, es[0]), limit, es[1..])
  }

  // ----- invariant -----------------------------------------------------------------------

  ghost predicate QueueOrWaiters(l: Listener) {
    && (l.accepted != [] ==> forall i | 0 <= i < |l.waiters| :: !IsPending(l.futures, l.waiters[i]))
    && (forall w | IsPending(l.futures, w) :: w in l.waiters)
    && (forall i | 0 <= i < |l.waiters| :: l.waiters[i] in l.futures)
  }

  ghost predicate OrderKept(l: Listener, limit: nat) {
    && |l.accepted| <= limit
    && (if l.closed then l.accepted == [] && l.handed <= l.admitted else l.admitted == l.handed + l.accepted)
    && (forall i | 0 <= i < |l.admitted| :: l.admitted[i] in l.seen)
    && (forall i, j | 0 <= i < j < |l.admitted| :: l.admitted[i] != l.admitted[j])
    && (forall w | w in l.futures && l.futures[w].Got? :: l.futures[w].c in l.handed)
  }

  ghost predicate AllOwned(l: Listener) {
    && (forall i | 0 <= i < |l.admitted| :: l.admitted[i] in l.owned + l.toClose + l.dead)
    && (l.closed ==> l.owned == {}) && (!l.closed ==> l.toClose == {})
  }

  ghost predicate Inv(l: Listener, limit: nat) {
    QueueOrWaiters(l) && OrderKept(l, limit) && AllOwned(l)
  }

  lemma {:induction false} FailWaitersFails(futures: map<Waiter, WaiterState>, waiters: seq<Waiter>)
    ensures FailWaiters(futures, waiters).Keys == futures.Keys
    ensures forall w | w in futures ::
              FailWaiters(futures, waiters)[w] == if w in waiters && futures[w].Pending? then Failed else futures[w]
  {
    if waiters != [] {
      FailWaitersFails(Finish(futures, waiters[0], Failed), waiters[1..]);
      assert forall w :: w in waiters <==> w == waiters[0] || w in waiters[1..];
    }
  }

  lemma HandleKeepsQueue(l: Listener, limit: nat, c: Conn)
    requires QueueOrWaiters(l)
    ensures QueueOrWaiters(Handle(l, c, limit))
  {
    var l' := Handle(l, c, limit);
    if !l.closed {
      var k := FinishedPrefix(l.waiters, l.futures);
      forall i | 0 <= i < |l'.waiters| ensures l'.waiters[i] in l'.futures { assert l'.waiters[i] == l.waiters[i + k + 1]; }
      forall w | w in l.waiters && IsPending(l'.futures, w) ensures w in l'.waiters {
        var i :| 0 <= i < |l.waiters| && l.waiters[i] == w;
        assert IsPending(l.futures, l.waiters[i]);
        assert l'.waiters[i - k - 1] == w;
      }
    }
  }

  lemma HandleKeepsOrder(l: Listener, limit: nat, c: Conn)
    requires QueueOrWaiters(l) && OrderKept(l, limit) && c !in l.seen
    ensures OrderKept(Handle(l, c, limit), limit)
  {
    var k := FinishedPrefix(l.waiters, l.futures);
    assert k < |l.waiters| ==> l.accepted == [];
  }

  lemma HandleKeepsOwned(l: Listener, limit: nat, c: Conn)
    requires AllOwned(l)
    ensures AllOwned(Handle(l, c, limit))
  {
  }

  lemma HandleKeepsInv(l: Listener, limit: nat, c: Conn)
    requires Inv(l, limit) && c !in l.seen
    ensures Inv(Handle(l, c, limit), limit)
  {
    HandleKeepsQueue(l, limit, c);
    HandleKeepsOrder(l, limit, c);
    HandleKeepsOwned(l, limit, c);
  }

  lemma CloseKeepsInv(l: Listener, limit: nat)
    requires Inv(l, limit)
    ensures Inv(BeginClose(l), limit)
  {
    FailWaitersFails(l.futures, l.waiters);
  }

  lemma StepKeepsInv(l: Listener, limit: nat, e: Event)
    requires Inv(l, limit) && Enabled(l, e)
    ensures Inv(Next(l, limit, e), limit)
  {
    match e
    case Arrives(c) => HandleKeepsInv(l, limit, c);
    case CloseCalled => CloseKeepsInv(l, limit);
    case AcceptCalled(w) =>
      if !l.closed && l.started {
        assert l.accepted != [] ==> l.admitted == (l.handed + [l.accepted[0]]) + l.accepted[1..];
      }
    case WaiterLeaves(w) => LeaveKeepsInv(l, limit, w);
    case _ =>
  }

  lemma LeaveKeepsInv(l: Listener, limit: nat, w: Waiter)
    requires Inv(l, limit)
    ensures Inv(Leave(l, w), limit)
  {
    var l' := Leave(l, w);
    forall i | 0 <= i < |l'.waiters| ensures l'.waiters[i] in l'.futures {
      assert l'.waiters[i] in l.waiters;
    }
    if l.accepted != [] {
      forall i | 0 <= i < |l'.waiters| ensures !IsPending(l'.futures, l'.waiters[i]) {
        assert l'.waiters[i] in l.waiters;
      }
    }
  }

  lemma {:induction false} RunsKeepInv(l: Listener, limit: nat, es: seq<Event>)
    requires Inv(l, limit) && IsRun(l, limit, es)
    ensures Inv(After(l, limit, es), limit)
    decreases |es|
  {
    if es != [] {
      StepKeepsInv(l, limit, es[0]);
      RunsKeepInv(Next(l, limit, es[0]), limit, es[1..]);
    }
  }

  // ----- what the invariant means --------------------------------------------------------

  /** Queued connections and unfinished waiters never coexist, the queue stays within its limit,
      and hand-outs are a duplicate-free prefix of the admissions, in order. */
  lemma HandOffIsOrderly(limit: nat, es: seq<Event>)
    requires IsRun(Init, limit, es)
    ensures var l := After(Init, limit, es);
            && (l.accepted == [] || forall w | w in l.futures :: !IsPending(l.futures, w))
            && |l.accepted| <= limit && l.handed <= l.admitted
            && (forall i, j | 0 <= i < j < |l.handed| :: l.handed[i] != l.handed[j])
            && (!l.closed ==> l.admitted == l.handed + l.accepted)
            && (forall w | w in l.futures && l.futures[w].Got? :: l.futures[w].c in l.handed)
  {
    RunsKeepInv(Init, limit, es);
    var l := After(Init, limit, es);
    if l.accepted != [] {
      forall w | w in l.futures ensures !IsPending(l.futures, w) {
        if w in l.waiters {
          var i :| 0 <= i < |l.waiters| && l.waiters[i] == w;
          assert !IsPending(l.futures, l.waiters[i]);
        }
      }
    }
    forall i, j | 0 <= i < j < |l.handed| ensures l.handed[i] != l.handed[j] {
      assert l.handed[i] == l.admitted[i] && l.handed[j] == l.admitted[j];
    }
  }

  /** The listener stays responsible for every open connection it admitted: until close it owns
      them all, and once the close has run through all of them are closed. */
  lemma CloseReachesEveryConnection(limit: nat, es: seq<Event>, c: Conn)
    requires IsRun(Init, limit, es)
    ensures var l := After(Init, limit, es);
            c in l.admitted && c !in l.dead ==>
              (if l.closed then c in l.toClose else c in l.owned)
  {
    RunsKeepInv(Init, limit, es);
    var l := After(Init, limit, es);
    if c in l.admitted && c !in l.dead {
      var i :| 0 <= i < |l.admitted| && l.admitted[i] == c;
      assert l.admitted[i] in l.owned + l.toClose + l.dead;
    }
  }

  /** After close nothing is admitted or handed out, and nobody is left waiting. */
  lemma ClosedListenerAdmitsNothing(limit: nat, es: seq<Event>, e: Event)
    requires IsRun(Init, limit, es) && After(Init, limit, es).closed && Enabled(After(Init, limit, es), e)
    ensures var l := After(Init, limit, es); var l' := Next(l, limit, e);
            && l'.closed && l'.admitted == l.admitted && l'.handed == l.handed
            && (forall w | w in l.futures :: l'.futures[w] == l.futures[w] || l'.futures[w].Cancelled?)
            && (e.Arrives? ==> e.c in l'.dead)
  {
    RunsKeepInv(Init, limit, es);
  }

  /** A connection that arrives while somebody waits goes to the first waiter still waiting. */
  lemma FirstWaiterIsServed(l: Listener, limit: nat, c: Conn, i: nat)
    requires !l.closed && i < |l.waiters| && IsPending(l.futures, l.waiters[i])
    requires forall j | 0 <= j < i :: !IsPending(l.futures, l.waiters[j])
    ensures var l' := Handle(l, c, limit);
            l'.futures == l.futures[l.waiters[i] := Got(c)] && l'.accepted == l.accepted && c in l'.owned
  {
    assert FinishedPrefix(l.waiters, l.futures) == i;
  }
}

/** The deques and the set of `TcpListener`, updated in place. */
module Listener {
  import opened Wrappers
  import T = ListenerTables

  class TcpListener {
    const limit: nat
    var accepted: seq<T.Conn>
    var waiters: seq<T.Waiter>
    var futures: map<T.Waiter, T.WaiterState>
    var owned: set<T.Conn>
    var started: bool
    var closed: bool
    var dead: set<T.Conn>

    /** The fields as a listener state whose history is not recorded. */
    function State(toClose: set<T.Conn>): T.Listener
      reads this
    {
      T.Listener(accepted, waiters, futures, owned, started, closed, dead, toClose, [], [], {})
    }

    /** Equality up to the recorded history. */
    predicate Is(l: T.Listener)
      reads this
    {
      State(l.toClose) == l.(admitted := [], handed := [], seen := {})
    }

    constructor (limit: nat)
      ensures this.limit == limit && Is(T.Init)
    {
      this.limit := limit;
      accepted, waiters, futures, owned, started, closed, dead := [], [], map[], {}, false, false, {};
    }

    method Accept(w: T.Waiter) returns (r: T.AcceptResult)
      modifies this
      ensures Is(old(T.Accept(State({}), w).0)) && r == old(T.Accept(State({}), w).1)
    {
      if closed || !started { return T.AcceptFails; }
      if accepted != [] {
        r := T.Accepts(accepted[0]);
        accepted := accepted[1..];
        return;
      }
      waiters := waiters + [w];
      futures := futures[w := T.Pending];
      r := T.AcceptWaits;
    }

    /** Pop waiters until one is still waiting, or none is left. */
    method PopWaiter() returns (w: Option<T.Waiter>)
      modifies this`waiters
      ensures var k := T.FinishedPrefix(old(waiters), futures);
              && w == (if k < |old(waiters)| then Some(old(waiters)[k]) else None)
              && waiters == (if k < |old(waiters)| then old(waiters)[k + 1..] else [])
    {
      ghost var popped := 0;
      while waiters != []
        invariant popped + |waiters| == |old(waiters)| && waiters == old(waiters)[popped..]
        invariant T.FinishedPrefix(old(waiters), futures) == popped + T.FinishedPrefix(waiters, futures)
        decreases |waiters|
      {
        var first := waiters[0];
        waiters := waiters[1..];
        if T.IsPending(futures, first) { return Some(first); }
        popped := popped + 1;
      }
      return None;
    }

    method HandleClient(c: T.Conn)
      modifies this
      ensures Is(old(T.Handle(State({}), c, limit)))
    {
      if closed {
        dead := dead + {c};
        return;
      }
      var w := PopWaiter();
      if w.None? && |accepted| >= limit {
        dead := dead + {c};
        return;
      }
      owned := (set x | x in owned && x !in dead) + {c};
      assert owned == (old(owned) - dead) + {c};
      if w.Some? {
        futures := futures[w.value := T.Got(c)];
      } else {
        accepted := accepted + [c];
      }
    }

    method Close() returns (toClose: set<T.Conn>)
      modifies this
      ensures old(closed) ==> Is(old(State({}))) && toClose == {}
      ensures !old(closed) ==> Is(old(T.BeginClose(State({})))) && toClose == old(owned)
    {
      if closed { return {}; }
      closed := true;
      started := false;
      while waiters != []
        invariant State({}) == old(State({})).(closed := true, started := false, waiters := waiters, futures := futures)
        invariant T.FailWaiters(futures, waiters) == T.FailWaiters(old(futures), old(waiters))
        decreases |waiters|
      {
        var w := waiters[0];
        waiters := waiters[1..];
        if T.IsPending(futures, w) { futures := futures[w := T.Failed]; }
      }
      toClose := owned;
      owned := {};
      accepted := [];
    }
  }
}
