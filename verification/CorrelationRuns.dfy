/** Whole runs over the correlation tables: sessions come and go, owners register, time out and
    finish, frames arrive, connections are cleaned up, the node stops and restarts.  One event
    is the code between two await points. */
module CorrelationRuns {
  import opened Wrappers
  import opened CorrelationTables

  datatype Limits = Limits(requests: nat, acks: nat)

  /** Who registered a future, and for what. */
  datatype Origin = Origin(isRequest: bool, id: Id, connection: Conn, peer: PeerId)

  /** `everReady` keeps the session peer of each connection's reader; `cleaned` are connections
      that went through `_fail_pending_for_connection`; `lateReady` became READY since stop. */
  datatype Sys = Sys(t: Tables, sessions: map<Conn, PeerId>, everReady: map<Conn, PeerId>, cleaned: set<Conn>,
                     running: bool, lateReady: set<Conn>, origins: map<FutureId, Origin>)

  datatype Event =
    | BecomesReady(c: Conn, peer: PeerId)
    | Deactivates(c: Conn)
    | Cleans(c: Conn)
    | Stops
    | Restarts
    | SendsRequest(id: Id, c: Conn, peer: PeerId, f: FutureId, ack: Option<FutureId>, rejected: bool)
    | SendsMessage(id: Id, c: Conn, ack: Option<FutureId>, rejected: bool)
    | ReplyArrives(c: Conn, id: Id)
    | AckArrives(c: Conn, id: Id)
    | TimesOut(f: FutureId)
    | RequestOwnerEnds(id: Id, f: FutureId)
    | AckOwnerEnds(id: Id, f: FutureId)

  const Init := Sys(CorrelationTables.Tables(map[], map[], map[]), map[], map[], {}, true, {}, map[])

  predicate FreshFuture(s: Sys, f: FutureId) {
    f !in s.t.futures && f !in s.origins
  }

  /** A connection negotiates once, and never after it was cleaned up. */
  predicate Enabled(s: Sys, e: Event) {
    match e
    case BecomesReady(c, _) => c !in s.everReady && c !in s.cleaned
    case Stops => s.running
    case Restarts => !s.running
    case SendsRequest(_, _, _, f, ack, _) => FreshFuture(s, f) && (ack.Some? ==> FreshFuture(s, ack.value) && ack.value != f)
    case SendsMessage(_, _, ack, _) => ack.Some? ==> FreshFuture(s, ack.value)
    case ReplyArrives(c, _) => c in s.everReady
    case AckArrives(c, _) => c in s.everReady
    case _ => true
  }

  /** `_send_message` up to its first await; `rejected` stands for every other synchronous refusal. */
  function BeginSend(s: Sys, limits: Limits, id: Id, c: Conn, ack: Option<FutureId>, rejected: bool): Option<Sys> {
    if c !in s.sessions || rejected then None
    else match ack
      case None => Some(s)
      case Some(f) =>
        match AddAck(s.t, id, f, c, s.sessions[c], limits.acks)
        case None => None
        case Some(t') => Some(s.(t := t', origins := s.origins[f := Origin(false, id, c, s.sessions[c])]))
  }

  /** `request` up to its first await after `connect` returned `c`. */
  function BeginRequest(s: Sys, limits: Limits, id: Id, c: Conn, peer: PeerId, f: FutureId,
                        ack: Option<FutureId>, rejected: bool): Sys {
    match AddRequest(s.t, id, f, c, peer, limits.requests)
    case None => s
    case Some(t1) =>
      if !s.running then s
      else
        var s1 := s.(t := t1, origins := s.origins[f := Origin(true, id, c, peer)]);
        match BeginSend(s1, limits, id, c, ack, rejected)
        case Some(s2) => s2
        case None => s1.(t := ReleaseRequest(t1, id, f))
  }

  function Next(s: Sys, limits: Limits, e: Event): Sys
    requires Enabled(s, e)
  {
    match e
    case BecomesReady(c, peer) =>
      s.(sessions := s.sessions[c := peer], everReady := s.everReady[c := peer],
         lateReady := if s.running then s.lateReady else s.lateReady + {c})
    case Deactivates(c) => s.(sessions := s.sessions - {c})
    case Cleans(c) => s.(sessions := s.sessions - {c}, t := FailConnection(s.t, c), cleaned := s.cleaned + {c})
    case Stops => s.(running := false, t := FailEverything(s.t), sessions := map[], lateReady := {})
    case Restarts => s.(running := true)
    case SendsRequest(id, c, peer, f, ack, rejected) => BeginRequest(s, limits, id, c, peer, f, ack, rejected)
    case SendsMessage(id, c, ack, rejected) => BeginSend(s, limits, id, c, ack, rejected).GetOr(s)
    case ReplyArrives(c, id) => s.(t := ResolveReply(s.t, c, s.everReady[c], id))
    case AckArrives(c, id) => s.(t := ResolveAck(s.t, c, s.everReady[c], id))
    case TimesOut(f) => s.(t := s.t.(futures := Complete(s.t.futures, f, Cancelled)))
    case RequestOwnerEnds(id, f) => s.(t := ReleaseRequest(s.t, id, f))
    case AckOwnerEnds(id, f) => s.(t := ReleaseAck(s.t, id, f))
  }

  ghost predicate IsRun(s: Sys, limits: Limits, es: seq<Event>)
    decreases |es|
  {
    es == [] || (Enabled(s, es[0]) && IsRun(Next(s, limits, es[0]), limits, es[1..]))
  }

  ghost function After(s: Sys, limits: Limits, es: seq<Event>): Sys
    requires IsRun(s, limits, es)
    decreases |es|
  {
    if es == [] then s else After(Next(s, limits, es[0]), limits, es[1..])
  }

  // ----- invariant -----------------------------------------------------------------------

  ghost predicate TableTraced(m: map<Id, Entry>, isRequest: bool, origins: map<FutureId, Origin>) {
    forall id | id in m :: m[id].future in origins
      && origins[m[id].future] == Origin(isRequest, id, m[id].connection, m[id].peer)
  }

  /** A future with a result got it from a frame with its id on its own connection and peer. */
  predicate Earned(v: FutureState, o: Origin) {
    v.Result? ==> v.source == if o.isRequest then FromReply(o.connection, o.peer, o.id)
                              else FromAck(o.connection, o.peer, o.id)
  }

  ghost predicate TracedTables(t: Tables, origins: map<FutureId, Origin>) {
    && TableTraced(t.requests, true, origins) && TableTraced(t.acks, false, origins)
    && (forall f | f in t.futures :: f in origins && Earned(t.futures[f], origins[f]))
  }

  ghost predicate Traced(s: Sys) {
    TracedTables(s.t, s.origins)
  }

  ghost predicate SessionsSound(s: Sys) {
    && s.sessions.Keys <= s.everReady.Keys && s.sessions.Keys !! s.cleaned
    && (!s.running ==> s.sessions.Keys <= s.lateReady)
  }

  ghost predicate EntriesSound(s: Sys) {
    && (forall id | id in s.t.requests :: s.running && s.t.requests[id].connection !in s.cleaned)
    && (forall id | id in s.t.acks :: s.t.acks[id].connection !in s.cleaned
                                      && (s.running || s.t.acks[id].connection in s.lateReady))
  }

  ghost predicate TablesSound(t: Tables, limits: Limits) {
    && AllWait(t.requests, t.futures) && AllWait(t.acks, t.futures)
    && |t.requests| <= limits.requests && |t.acks| <= limits.acks
  }

  ghost predicate Inv(s: Sys, limits: Limits) {
    TablesSound(s.t, limits) && Traced(s) && SessionsSound(s) && EntriesSound(s)
  }

  ghost predicate Within(small: map<Id, Entry>, big: map<Id, Entry>) {
    forall id | id in small :: id in big && small[id] == big[id]
  }

  lemma WithinIsSmaller(small: map<Id, Entry>, big: map<Id, Entry>)
    requires Within(small, big)
    ensures |small| <= |big|
  {
    assert small.Keys <= big.Keys;
    assert big.Keys == small.Keys + (big.Keys - small.Keys);
    assert |small.Keys| == |small| && |big.Keys| == |big|;
  }

  /** A step that only removes entries and completes pending futures, each with something it
      earned and none that an entry left behind still waits on. */
  ghost predicate Shrinks(s: Sys, t': Tables) {
    && Within(t'.requests, s.t.requests) && Within(t'.acks, s.t.acks)
    && t'.futures.Keys == s.t.futures.Keys
    && (forall f | f in s.t.futures :: t'.futures[f] == s.t.futures[f]
          || (s.t.futures[f].Pending? && f in s.origins && Earned(t'.futures[f], s.origins[f])))
    && AllWait(t'.requests, t'.futures) && AllWait(t'.acks, t'.futures)
  }

  lemma ShrinkKeepsInv(s: Sys, limits: Limits, t': Tables)
    requires Inv(s, limits) && Shrinks(s, t')
    ensures Inv(s.(t := t'), limits)
  {
    WithinIsSmaller(t'.requests, s.t.requests);
    WithinIsSmaller(t'.acks, s.t.acks);
  }

  lemma FailLeavesOthers(s: Sys, c: Conn, f: FutureId)
    requires Traced(s) && f in s.origins && s.origins[f].connection != c
    ensures f !in FuturesOf(s.t.requests, IdsOn(s.t.requests, c)) + FuturesOf(s.t.acks, IdsOn(s.t.acks, c))
  {
  }

  lemma FailShrinks(s: Sys, limits: Limits, c: Conn)
    requires TablesSound(s.t, limits) && Traced(s)
    ensures Shrinks(s, FailConnection(s.t, c))
  {
    var t' := FailConnection(s.t, c);
    forall id | id in t'.requests ensures Waits(t'.futures, t'.requests[id].future) {
      FailLeavesOthers(s, c, s.t.requests[id].future);
    }
    forall id | id in t'.acks ensures Waits(t'.futures, t'.acks[id].future) {
      FailLeavesOthers(s, c, s.t.acks[id].future);
    }
  }

  lemma ReplyShrinks(s: Sys, limits: Limits, c: Conn, id: Id)
    requires Inv(s, limits) && c in s.everReady
    ensures Shrinks(s, ResolveReply(s.t, c, s.everReady[c], id))
  {
  }

  lemma AckShrinks(s: Sys, limits: Limits, c: Conn, id: Id)
    requires Inv(s, limits) && c in s.everReady
    ensures Shrinks(s, ResolveAck(s.t, c, s.everReady[c], id))
  {
  }

  lemma TimeoutShrinks(s: Sys, limits: Limits, f: FutureId)
    requires Inv(s, limits)
    ensures Shrinks(s, s.t.(futures := Complete(s.t.futures, f, Cancelled)))
  {
  }

  lemma RequestReleaseShrinks(s: Sys, limits: Limits, id: Id, f: FutureId)
    requires Inv(s, limits)
    ensures Shrinks(s, ReleaseRequest(s.t, id, f))
  {
    TimeoutShrinks(s, limits, f);
  }

  lemma AckReleaseShrinks(s: Sys, limits: Limits, id: Id, f: FutureId)
    requires Inv(s, limits)
    ensures Shrinks(s, ReleaseAck(s.t, id, f))
  {
    TimeoutShrinks(s, limits, f);
  }

  lemma StopShrinks(s: Sys, limits: Limits)
    requires Inv(s, limits)
    ensures Shrinks(s, FailEverything(s.t))
  {
  }

  /** A fresh future disturbs neither the entries already there nor their origins. */
  lemma FreshStaysTraced(m: map<Id, Entry>, kind: bool, futures: map<FutureId, FutureState>,
                         origins: map<FutureId, Origin>, f: FutureId, o: Origin)
    requires AllWait(m, futures) && TableTraced(m, kind, origins) && f !in futures
    ensures AllWait(m, futures[f := Pending]) && TableTraced(m, kind, origins[f := o])
  {
    forall id | id in m ensures m[id].future != f { assert Waits(futures, m[id].future); }
  }

  lemma AckAddsSoundly(s: Sys, limits: Limits, id: Id, f: FutureId, c: Conn, peer: PeerId)
    requires Inv(s, limits) && FreshFuture(s, f) && c !in s.cleaned && (s.running || c in s.lateReady)
    ensures var added := AddAck(s.t, id, f, c, peer, limits.acks);
            added.Some? ==> Inv(s.(t := added.value, origins := s.origins[f := Origin(false, id, c, peer)]), limits)
  {
    FreshStaysTraced(s.t.requests, true, s.t.futures, s.origins, f, Origin(false, id, c, peer));
    FreshStaysTraced(s.t.acks, false, s.t.futures, s.origins, f, Origin(false, id, c, peer));
  }

  lemma RequestAddsSoundly(s: Sys, limits: Limits, id: Id, f: FutureId, c: Conn, peer: PeerId)
    requires Inv(s, limits) && FreshFuture(s, f) && c !in s.cleaned && s.running
    ensures var added := AddRequest(s.t, id, f, c, peer, limits.requests);
            added.Some? ==> Inv(s.(t := added.value, origins := s.origins[f := Origin(true, id, c, peer)]), limits)
  {
    FreshStaysTraced(s.t.requests, true, s.t.futures, s.origins, f, Origin(true, id, c, peer));
    FreshStaysTraced(s.t.acks, false, s.t.futures, s.origins, f, Origin(true, id, c, peer));
  }

  lemma SendKeepsInv(s: Sys, limits: Limits, id: Id, c: Conn, ack: Option<FutureId>, rejected: bool)
    requires Inv(s, limits) && (ack.Some? ==> FreshFuture(s, ack.value))
    ensures BeginSend(s, limits, id, c, ack, rejected).Some?
            ==> c in s.sessions && Inv(BeginSend(s, limits, id, c, ack, rejected).value, limits)
  {
    if c in s.sessions && ack.Some? { AckAddsSoundly(s, limits, id, ack.value, c, s.sessions[c]); }
  }

  lemma WithdrawnTables(t: Tables, id: Id, f: FutureId, c: Conn, peer: PeerId)
    requires id !in t.requests
    ensures var t1 := t.(requests := t.requests[id := Entry(f, c, peer)], futures := t.futures[f := Pending]);
            ReleaseRequest(t1, id, f) == t.(futures := t.futures[f := Cancelled])
  {
    var t1 := t.(requests := t.requests[id := Entry(f, c, peer)], futures := t.futures[f := Pending]);
    assert ReleaseRequest(t1, id, f).requests == t.requests;
    assert ReleaseRequest(t1, id, f).futures == t.futures[f := Cancelled];
  }

  lemma CancelledKeepsTraced(m: map<Id, Entry>, kind: bool, futures: map<FutureId, FutureState>,
                             origins: map<FutureId, Origin>, f: FutureId, o: Origin)
    requires AllWait(m, futures) && TableTraced(m, kind, origins) && f !in futures
    ensures AllWait(m, futures[f := Cancelled]) && TableTraced(m, kind, origins[f := o])
  {
    forall id | id in m ensures m[id].future != f { assert Waits(futures, m[id].future); }
  }

  /** A request on a connection without a session registers and withdraws within one step. */
  lemma WithdrawnRequest(s: Sys, limits: Limits, id: Id, f: FutureId, c: Conn, peer: PeerId)
    requires Inv(s, limits) && FreshFuture(s, f) && id !in s.t.requests
    ensures var t1 := s.t.(requests := s.t.requests[id := Entry(f, c, peer)], futures := s.t.futures[f := Pending]);
            Inv(s.(t := ReleaseRequest(t1, id, f), origins := s.origins[f := Origin(true, id, c, peer)]), limits)
  {
    WithdrawnTables(s.t, id, f, c, peer);
    CancelledKeepsTraced(s.t.requests, true, s.t.futures, s.origins, f, Origin(true, id, c, peer));
    CancelledKeepsTraced(s.t.acks, false, s.t.futures, s.origins, f, Origin(true, id, c, peer));
  }

  lemma RequestKeepsInv(s: Sys, limits: Limits, id: Id, c: Conn, peer: PeerId, f: FutureId,
                        ack: Option<FutureId>, rejected: bool)
    requires Inv(s, limits) && FreshFuture(s, f)
    requires ack.Some? ==> FreshFuture(s, ack.value) && ack.value != f
    ensures Inv(BeginRequest(s, limits, id, c, peer, f, ack, rejected), limits)
  {
    var added := AddRequest(s.t, id, f, c, peer, limits.requests);
    if added.Some? && s.running {
      var s1 := s.(t := added.value, origins := s.origins[f := Origin(true, id, c, peer)]);
      WithdrawnRequest(s, limits, id, f, c, peer);
      if c in s.sessions {
        RequestAddsSoundly(s, limits, id, f, c, peer);
        SendKeepsInv(s1, limits, id, c, ack, rejected);
      }
    }
  }

  lemma CleanKeepsInv(s: Sys, limits: Limits, c: Conn)
    requires Inv(s, limits)
    ensures Inv(Next(s, limits, Cleans(c)), limits)
  {
    FailShrinks(s, limits, c);
    ShrinkKeepsInv(s, limits, FailConnection(s.t, c));
  }

  lemma LifecycleKeepsInv(s: Sys, limits: Limits, e: Event)
    requires Inv(s, limits) && Enabled(s, e)
    requires e.BecomesReady? || e.Deactivates? || e.Cleans? || e.Stops? || e.Restarts?
    ensures Inv(Next(s, limits, e), limits)
  {
    match e
    case Cleans(c) => CleanKeepsInv(s, limits, c);
    case Stops =>
      StopShrinks(s, limits);
      ShrinkKeepsInv(s, limits, FailEverything(s.t));
    case _ =>
  }

  lemma CompletionKeepsInv(s: Sys, limits: Limits, e: Event)
    requires Inv(s, limits) && Enabled(s, e)
    requires e.ReplyArrives? || e.AckArrives? || e.TimesOut? || e.RequestOwnerEnds? || e.AckOwnerEnds?
    ensures Inv(Next(s, limits, e), limits)
  {
    match e {
      case ReplyArrives(c, id) => ReplyShrinks(s, limits, c, id);
      case AckArrives(c, id) => AckShrinks(s, limits, c, id);
      case TimesOut(f) => TimeoutShrinks(s, limits, f);
      case RequestOwnerEnds(id, f) => RequestReleaseShrinks(s, limits, id, f);
      case AckOwnerEnds(id, f) => AckReleaseShrinks(s, limits, id, f);
    }
    ShrinkKeepsInv(s, limits, Next(s, limits, e).t);
  }

  lemma StepKeepsInv(s: Sys, limits: Limits, e: Event)
    requires Inv(s, limits) && Enabled(s, e)
    ensures Inv(Next(s, limits, e), limits)
  {
    match e
    case SendsRequest(id, c, peer, f, ack, rejected) => RequestKeepsInv(s, limits, id, c, peer, f, ack, rejected);
    case SendsMessage(id, c, ack, rejected) => SendKeepsInv(s, limits, id, c, ack, rejected);
    case ReplyArrives(_, _) => CompletionKeepsInv(s, limits, e);
    case AckArrives(_, _) => CompletionKeepsInv(s, limits, e);
    case TimesOut(_) => CompletionKeepsInv(s, limits, e);
    case RequestOwnerEnds(_, _) => CompletionKeepsInv(s, limits, e);
    case AckOwnerEnds(_, _) => CompletionKeepsInv(s, limits, e);
    case _ => LifecycleKeepsInv(s, limits, e);
  }

  lemma {:induction false} RunsKeepInv(s: Sys, limits: Limits, es: seq<Event>)
    requires Inv(s, limits) && IsRun(s, limits, es)
    ensures Inv(After(s, limits, es), limits)
    decreases |es|
  {
    if es != [] {
      StepKeepsInv(s, limits, es[0]);
      RunsKeepInv(Next(s, limits, es[0]), limits, es[1..]);
    }
  }

  // ----- what the invariant means --------------------------------------------------------

  /** At every await point both tables are within their limits, no entry holds a result or an
      error, no entry belongs to a connection already cleaned up, and a stopped node has no
      pending request and no pending ACK but on connections READY since it stopped. */
  lemma TablesStaySafe(limits: Limits, es: seq<Event>)
    requires IsRun(Init, limits, es)
    ensures var s := After(Init, limits, es);
            && |s.t.requests| <= limits.requests && |s.t.acks| <= limits.acks && WellFormed(s.t)
            && (forall id | id in s.t.requests :: s.running && s.t.requests[id].connection !in s.cleaned)
            && (forall id | id in s.t.acks :: s.t.acks[id].connection !in s.cleaned
                                              && (s.running || s.t.acks[id].connection in s.lateReady))
  {
    RunsKeepInv(Init, limits, es);
  }

  /** A result only ever comes from a reply or ACK with the future's own id, on the very
      connection object and session peer it was registered for. */
  lemma ResultsAreEarned(limits: Limits, es: seq<Event>, f: FutureId)
    requires IsRun(Init, limits, es)
    ensures var s := After(Init, limits, es);
            f in s.t.futures ==> f in s.origins && Earned(s.t.futures[f], s.origins[f])
  {
    RunsKeepInv(Init, limits, es);
  }

  lemma BeginSendKeepsFinal(s: Sys, limits: Limits, id: Id, c: Conn, ack: Option<FutureId>, rejected: bool, f: FutureId)
    requires f in s.t.futures && (ack.Some? ==> ack.value != f)
    ensures var s' := BeginSend(s, limits, id, c, ack, rejected);
            s'.Some? ==> f in s'.value.t.futures && s'.value.t.futures[f] == s.t.futures[f]
  {
  }

  lemma RequestKeepsFinal(s: Sys, limits: Limits, e: Event, f: FutureId)
    requires e.SendsRequest? && Enabled(s, e) && f in s.t.futures
    ensures f in Next(s, limits, e).t.futures && Next(s, limits, e).t.futures[f] == s.t.futures[f]
  {
    var added := AddRequest(s.t, e.id, e.f, e.c, e.peer, limits.requests);
    if added.Some? && s.running {
      var s1 := s.(t := added.value, origins := s.origins[e.f := Origin(true, e.id, e.c, e.peer)]);
      assert f in s1.t.futures && s1.t.futures[f] == s.t.futures[f];
      BeginSendKeepsFinal(s1, limits, e.id, e.c, e.ack, e.rejected, f);
    }
  }

  lemma StepKeepsFinal(s: Sys, limits: Limits, e: Event, f: FutureId)
    requires Enabled(s, e) && f in s.t.futures && !s.t.futures[f].Pending?
    ensures f in Next(s, limits, e).t.futures && Next(s, limits, e).t.futures[f] == s.t.futures[f]
  {
    match e
    case SendsRequest(_, _, _, _, _, _) => RequestKeepsFinal(s, limits, e, f);
    case SendsMessage(id, c, ack, rejected) => BeginSendKeepsFinal(s, limits, id, c, ack, rejected, f);
    case _ =>
  }

  /** A future is completed at most once: once done it never changes again. */
  lemma {:induction false} CompletionsAreFinal(s: Sys, limits: Limits, es: seq<Event>, f: FutureId)
    requires IsRun(s, limits, es) && f in s.t.futures && !s.t.futures[f].Pending?
    ensures f in After(s, limits, es).t.futures && After(s, limits, es).t.futures[f] == s.t.futures[f]
    decreases |es|
  {
    if es != [] {
      StepKeepsFinal(s, limits, es[0], f);
      CompletionsAreFinal(Next(s, limits, es[0]), limits, es[1..], f);
    }
  }

  // ----- what each step is for -----------------------------------------------------------

  /** Sending is refused exactly without a session, for another synchronous reason, or when its ACK
      cannot be registered; an accepted send registers its ACK on the session's own peer. */
  lemma SendIsExact(s: Sys, limits: Limits, id: Id, c: Conn, ack: Option<FutureId>, rejected: bool)
    ensures BeginSend(s, limits, id, c, ack, rejected).None? <==>
            c !in s.sessions || rejected || (ack.Some? && (id in s.t.acks || limits.acks <= |s.t.acks|))
    ensures BeginSend(s, limits, id, c, ack, rejected).Some? ==>
              var s' := BeginSend(s, limits, id, c, ack, rejected).value;
              && s'.t.requests == s.t.requests && (ack.None? ==> s' == s)
              && (ack.Some? ==> id in s'.t.acks && s'.t.acks[id] == Entry(ack.value, c, s.sessions[c]))
  {
    if c in s.sessions && ack.Some? { AddIsExactForAcks(s.t, id, ack.value, c, s.sessions[c], limits.acks, id, ack.value); }
  }

  /** A request becomes pending exactly when the node runs, its id is free, the table has room and
      its frame is accepted; otherwise it leaves both tables as they were. */
  lemma RequestIsExact(s: Sys, limits: Limits, id: Id, c: Conn, peer: PeerId, f: FutureId, ack: Option<FutureId>, rejected: bool)
    requires FreshFuture(s, f) && (ack.Some? ==> FreshFuture(s, ack.value) && ack.value != f)
    ensures var s' := BeginRequest(s, limits, id, c, peer, f, ack, rejected);
            var accepted := c in s.sessions && !rejected && (ack.Some? ==> id !in s.t.acks && |s.t.acks| < limits.acks);
            if s.running && id !in s.t.requests && |s.t.requests| < limits.requests && accepted
            then s'.t.requests == s.t.requests[id := Entry(f, c, peer)] && f in s'.t.futures && s'.t.futures[f].Pending?
            else s'.t.requests == s.t.requests && s'.t.acks == s.t.acks
  {
    AddIsExact(s.t, id, f, c, peer, limits.requests, id, f);
    var added := AddRequest(s.t, id, f, c, peer, limits.requests);
    if added.Some? && s.running {
      var s1 := s.(t := added.value, origins := s.origins[f := Origin(true, id, c, peer)]);
      SendIsExact(s1, limits, id, c, ack, rejected);
      if BeginSend(s1, limits, id, c, ack, rejected).None? { WithdrawnTables(s.t, id, f, c, peer); }
    }
  }

  /** The waiter of an id, when it is still pending and waits for a frame of this connection. */
  predicate Answers(m: map<Id, Entry>, futures: map<FutureId, FutureState>, id: Id, c: Conn, peer: PeerId) {
    Matches(m, id, c, peer) && m[id].future in futures && futures[m[id].future].Pending?
  }

  /** An arriving reply or ACK completes the waiter it answers and takes its entry out. */
  lemma FramesReachTheirWaiter(s: Sys, limits: Limits, c: Conn, id: Id)
    requires c in s.everReady
    ensures Answers(s.t.requests, s.t.futures, id, c, s.everReady[c]) ==>
              var t' := Next(s, limits, ReplyArrives(c, id)).t; var f := s.t.requests[id].future;
              id !in t'.requests && f in t'.futures && t'.futures[f] == Result(FromReply(c, s.everReady[c], id))
    ensures Answers(s.t.acks, s.t.futures, id, c, s.everReady[c]) ==>
              var t' := Next(s, limits, AckArrives(c, id)).t; var f := s.t.acks[id].future;
              id !in t'.acks && f in t'.futures && t'.futures[f] == Result(FromAck(c, s.everReady[c], id))
  {
  }

  /** What sessions and connections go through: READY publishes the session, its end removes it,
      cleaning up also takes every entry off the connection, stop empties everything. */
  lemma LifecycleTakesEffect(s: Sys, limits: Limits, e: Event, id: Id)
    requires Enabled(s, e)
    ensures var s' := Next(s, limits, e);
            match e
            case BecomesReady(c, peer) =>
              && s'.t == s.t && s'.cleaned == s.cleaned && s'.running == s.running
              && c in s'.sessions && s'.sessions[c] == peer && s'.sessions.Keys == s.sessions.Keys + {c}
              && c in s'.everReady && s'.everReady[c] == peer
              && s'.lateReady == s.lateReady + (if s.running then {} else {c})
            case Deactivates(c) =>
              && s'.sessions.Keys == s.sessions.Keys - {c} && s'.t == s.t && s'.cleaned == s.cleaned
              && s'.running == s.running && s'.lateReady == s.lateReady
            case Cleans(c) =>
              && s'.sessions.Keys == s.sessions.Keys - {c} && s'.cleaned == s.cleaned + {c}
              && s'.running == s.running && s'.lateReady == s.lateReady
              && (id in s'.t.requests <==> id in s.t.requests && s.t.requests[id].connection != c)
              && (id in s'.t.acks <==> id in s.t.acks && s.t.acks[id].connection != c)
            case Stops =>
              !s'.running && s'.sessions.Keys == {} && s'.lateReady == {} && Silent(s') && s'.cleaned == s.cleaned
            case Restarts => s'.running && s'.t == s.t && s'.sessions == s.sessions && s'.cleaned == s.cleaned
            case _ => true
  {
  }

  /** A timeout only gives its own future up, and no message, frame or owner touches the sessions. */
  lemma TrafficLeavesSessions(s: Sys, limits: Limits, e: Event, f: FutureId)
    requires Enabled(s, e) && f in s.t.futures
    requires !(e.BecomesReady? || e.Deactivates? || e.Cleans? || e.Stops? || e.Restarts?)
    ensures var s' := Next(s, limits, e);
            && s'.sessions == s.sessions && s'.everReady == s.everReady && s'.cleaned == s.cleaned
            && s'.running == s.running && s'.lateReady == s.lateReady
            && (e.TimesOut? ==>
                  && s'.t.requests == s.t.requests && s'.t.acks == s.t.acks && f in s'.t.futures
                  && s'.t.futures[f] == if f == e.f && s.t.futures[f].Pending? then Cancelled else s.t.futures[f])
  {
  }

  /** Only the entry of its own origin waits on a future. */
  lemma AwaitedByOrigin(t: Tables, origins: map<FutureId, Origin>, f: FutureId, other: Id)
    requires TracedTables(t, origins) && f in origins
    ensures other in t.requests && t.requests[other].future == f ==> origins[f].isRequest && origins[f].id == other
    ensures other in t.acks && t.acks[other].future == f ==> !origins[f].isRequest && origins[f].id == other
  {
  }

  predicate LeftBehind(t: Tables, f: FutureId, other: Id) {
    (other in t.requests && t.requests[other].future == f) || (other in t.acks && t.acks[other].future == f)
  }

  lemma RequestOwnerLeaves(t: Tables, origins: map<FutureId, Origin>, f: FutureId, other: Id)
    requires TracedTables(t, origins) && f in t.futures && origins[f].isRequest
    ensures var t' := ReleaseRequest(t, origins[f].id, f);
            f in t'.futures && !t'.futures[f].Pending? && !LeftBehind(t', f, other)
  {
    AwaitedByOrigin(t, origins, f, other);
    ReleaseIsExact(t, origins[f].id, f, other, f);
  }

  lemma AckOwnerLeaves(t: Tables, origins: map<FutureId, Origin>, f: FutureId, other: Id)
    requires TracedTables(t, origins) && f in t.futures && !origins[f].isRequest
    ensures var t' := ReleaseAck(t, origins[f].id, f);
            f in t'.futures && !t'.futures[f].Pending? && !LeftBehind(t', f, other)
  {
    AwaitedByOrigin(t, origins, f, other);
    ReleaseIsExactForAcks(t, origins[f].id, f, other, f);
  }

  /** The event in which the owner of a future ends. */
  function OwnerEnds(o: Origin, f: FutureId): Event {
    if o.isRequest then RequestOwnerEnds(o.id, f) else AckOwnerEnds(o.id, f)
  }

  lemma OwnerLeavesNothing(s: Sys, limits: Limits, f: FutureId, other: Id)
    requires Traced(s) && f in s.t.futures
    ensures var t' := Next(s, limits, OwnerEnds(s.origins[f], f)).t;
            f in t'.futures && !t'.futures[f].Pending? && !LeftBehind(t', f, other)
  {
    if s.origins[f].isRequest { RequestOwnerLeaves(s.t, s.origins, f, other); } else { AckOwnerLeaves(s.t, s.origins, f, other); }
  }

  /** In every run an owner that ends leaves nothing behind: its future is done and no entry of
      either table waits on it any more. */
  lemma OwnersLeaveNothing(limits: Limits, es: seq<Event>, f: FutureId, other: Id)
    requires IsRun(Init, limits, es) && f in After(Init, limits, es).t.futures
    ensures f in After(Init, limits, es).origins
    ensures var s := After(Init, limits, es); var t' := Next(s, limits, OwnerEnds(s.origins[f], f)).t;
            f in t'.futures && !t'.futures[f].Pending? && !LeftBehind(t', f, other)
  {
    RunsKeepInv(Init, limits, es);
    OwnerLeavesNothing(After(Init, limits, es), limits, f, other);
  }

  // ----- a stopped node ------------------------------------------------------------------

  ghost predicate Silent(s: Sys) {
    s.t.requests == map[] && s.t.acks == map[]
  }

  /** Once stopped, and until restarted, nothing is pending as long as no connection becomes
      READY: no step of any owner, frame or timeout brings an entry back. */
  lemma {:induction false} StopSilencesTables(s: Sys, limits: Limits, es: seq<Event>)
    requires !s.running && Silent(s) && s.sessions == map[] && IsRun(s, limits, es)
    requires forall e | e in es :: !e.Restarts? && !e.BecomesReady?
    ensures Silent(After(s, limits, es)) && After(s, limits, es).sessions == map[]
    decreases |es|
  {
    if es != [] {
      assert es[0] in es;
      StopSilencesTables(Next(s, limits, es[0]), limits, es[1..]);
    }
  }

  /** Exactly which step leaves something pending on a stopped node: a message sent with an ACK
      on a connection that has a session again, since sending does not ask whether the node runs. */
  lemma StoppedNodePendsIff(s: Sys, limits: Limits, e: Event)
    requires !s.running && Silent(s) && Enabled(s, e)
    ensures !Silent(Next(s, limits, e)) <==>
            e.SendsMessage? && e.ack.Some? && !e.rejected && e.c in s.sessions && limits.acks > 0
  {
    if e.SendsMessage? && e.ack.Some? && !e.rejected && e.c in s.sessions && limits.acks > 0 {
      assert e.id in Next(s, limits, e).t.acks;
    }
  }

  /** The case is real: a connection that becomes READY after the stop admits a pending ACK. */
  lemma LateSessionPends(limits: Limits, id: Id, c: Conn, peer: PeerId, f: FutureId) returns (es: seq<Event>)
    requires limits.acks > 0
    ensures IsRun(Init, limits, es) && !After(Init, limits, es).running && id in After(Init, limits, es).t.acks
  {
    var s1 := Next(Init, limits, Stops);
    var s2 := Next(s1, limits, BecomesReady(c, peer));
    var send := SendsMessage(id, c, Some(f), false);
    assert s2.sessions == map[c := peer] && !s2.running && Silent(s2) && FreshFuture(s2, f);
    var s3 := Next(s2, limits, send);
    assert id in s3.t.acks;
    RunCons(s2, limits, send, []);
    RunCons(s1, limits, BecomesReady(c, peer), [send] + []);
    RunCons(Init, limits, Stops, [BecomesReady(c, peer)] + ([send] + []));
    es := [Stops] + ([BecomesReady(c, peer)] + ([send] + []));
  }

  lemma RunCons(s: Sys, limits: Limits, e: Event, es: seq<Event>)
    requires Enabled(s, e) && IsRun(Next(s, limits, e), limits, es)
    ensures IsRun(s, limits, [e] + es) && After(s, limits, [e] + es) == After(Next(s, limits, e), limits, es)
  {
    assert ([e] + es)[1..] == es;
  }
}
