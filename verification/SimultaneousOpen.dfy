/** Two nodes that dial each other.  Each end runs `SessionTables.Select` on its own READY events,
    closes its losers some time later, learns of closes by the other end some time later, and
    may see any connection fail at any moment. */
module SimultaneousOpen {
  import opened Wrappers
  import opened S = SessionTables

  type Conn = nat

  datatype Side = Left | Right {
    function Other(): Side { if this == Left then Right else Left }
  }

  datatype Names = Names(left: PeerId, right: PeerId) {
    function Of(side: Side): PeerId { if side == Left then left else right }

    /** The side with the smaller id: the one whose outbound connection is to survive. */
    function Smaller(): Side { if Less(left, right) then Left else Right }
  }

  /** One end: its tables, the connections that became READY here, those closed here, the losers
      it still has to close, and the losers that were open when they lost. */
  datatype End = End(registry: Registry<Conn>, ready: set<Conn>, closed: set<Conn>,
                     retiring: set<Conn>, beaten: set<Conn>)

  datatype Net = Net(opener: map<Conn, Side>, left: End, right: End) {
    function At(side: Side): End { if side == Left then left else right }

    function With(side: Side, end: End): Net {
      if side == Left then this.(left := end) else this.(right := end)
    }
  }

  datatype Event =
    | Dials(side: Side, c: Conn)
    | Ready(side: Side, c: Conn)
    | ClosesLoser(side: Side, c: Conn)
    | Fails(side: Side, c: Conn)
    | SeesClose(side: Side, c: Conn)
    | SessionEnds(side: Side, c: Conn)

  const FreshEnd := End(Registry(map[], {}, map[], map[]), {}, {}, {}, {})
  const Init := Net(map[], FreshEnd, FreshEnd)

  function DirectionAt(opener: map<Conn, Side>, side: Side, c: Conn): Direction
    requires c in opener
  {
    if opener[c] == side then Outbound else Inbound
  }

  /** Either node may dial at any time, however many connections it already has. */
  predicate Enabled(n: Net, e: Event) {
    match e
    case Dials(side, c) => c !in n.opener
    case Ready(side, c) => c in n.opener && c !in n.At(side).ready
    case ClosesLoser(side, c) => c in n.At(side).retiring
    case Fails(side, c) => c in n.opener
    case SeesClose(side, c) => c in n.At(side.Other()).closed
    case SessionEnds(side, c) => c in n.At(side).closed
  }

  function BecomeReady(end: End, opener: map<Conn, Side>, names: Names, side: Side, c: Conn): End
    requires c in opener
  {
    var (registry, choice) :=
      Select(end.registry, names.Of(side), c, names.Of(side.Other()), DirectionAt(opener, side, c), end.closed);
    var losers := if choice.Chosen? && choice.loser.Some? then {choice.loser.value} else {};
    end.(registry := registry, ready := end.ready + {c}, retiring := end.retiring + losers,
         beaten := end.beaten + (losers - end.closed))
  }

  function Next(n: Net, names: Names, e: Event): Net
    requires Enabled(n, e)
  {
    match e
    case Dials(side, c) => n.(opener := n.opener[c := side])
    case Ready(side, c) => n.With(side, BecomeReady(n.At(side), n.opener, names, side, c))
    case ClosesLoser(side, c) =>
      var end := n.At(side);
      n.With(side, end.(registry := Deactivate(end.registry, c), closed := end.closed + {c}, retiring := end.retiring - {c}))
    case Fails(side, c) => n.With(side, n.At(side).(closed := n.At(side).closed + {c}))
    case SeesClose(side, c) => n.With(side, n.At(side).(closed := n.At(side).closed + {c}))
    case SessionEnds(side, c) => n.With(side, n.At(side).(registry := Deactivate(n.At(side).registry, c)))
  }

  /** What an event does at its side, and that it leaves the other end alone: a dialled connection
      is known, one that fails, is seen closed or loses is closed, and an ended one is no session. */
  lemma EventsTakeEffect(n: Net, names: Names, e: Event)
    requires Enabled(n, e)
    ensures var n' := Next(n, names, e); var (end, end') := (n.At(e.side), n'.At(e.side));
            && n'.At(e.side.Other()) == n.At(e.side.Other())
            && (if e.Dials? then e.c in n'.opener && n'.opener[e.c] == e.side && n'.opener.Keys == n.opener.Keys + {e.c}
                else n'.opener == n.opener)
            && (if e.Ready? then end'.ready == end.ready + {e.c} && end'.closed == end.closed else end'.ready == end.ready)
            && (e.Fails? || e.SeesClose? || e.ClosesLoser? ==> end'.closed == end.closed + {e.c})
            && (e.Fails? || e.SeesClose? ==> end'.registry == end.registry && end'.retiring == end.retiring)
            && (e.ClosesLoser? ==> end'.retiring == end.retiring - {e.c} && e.c !in end'.registry.live)
            && (e.SessionEnds? ==> end'.closed == end.closed && e.c !in end'.registry.live && e.c !in end'.registry.peers)
  {
  }

  ghost predicate IsRun(n: Net, names: Names, es: seq<Event>)
    decreases |es|
  {
    es == [] || (Enabled(n, es[0]) && IsRun(Next(n, names, es[0]), names, es[1..]))
  }

  ghost function After(n: Net, names: Names, es: seq<Event>): Net
    requires IsRun(n, names, es)
    decreases |es|
  {
    if es == [] then n else After(Next(n, names, es[0]), names, es[1..])
  }

  /** `connection_for_peer`: the usable canonical connection of an end. */
  function Canonical(n: Net, names: Names, side: Side): Option<Conn> {
    var end := n.At(side);
    var peer := names.Of(side.Other());
    if peer in end.registry.byPeer && end.registry.byPeer[peer] !in end.closed
    then Some(end.registry.byPeer[peer]) else None
  }

  // ----- invariant -----------------------------------------------------------------------

  ghost predicate EndSound(end: End, opener: map<Conn, Side>, names: Names, side: Side) {
    && Bijective(end.registry)
    && end.registry.byPeer.Keys <= {names.Of(side.Other())}
    && end.registry.live <= end.ready <= opener.Keys
    && end.retiring <= end.ready && end.beaten <= end.ready
    && (forall c | c in end.registry.live :: end.registry.directions[c] == DirectionAt(opener, side, c))
    && (forall c | c in end.ready && c !in end.closed :: c in end.retiring || c in end.registry.live)
  }

  ghost predicate Inv(n: Net, names: Names) {
    EndSound(n.left, n.opener, names, Left) && EndSound(n.right, n.opener, names, Right)
  }

  lemma PreferredMeansSmaller(opener: map<Conn, Side>, names: Names, side: Side, c: Conn)
    requires names.left != names.right && c in opener
    ensures DirectionAt(opener, side, c) == Preferred(names.Of(side), names.Of(side.Other()))
            <==> opener[c] == names.Smaller()
  {
    LessIsTotal(names.left, names.right);
  }

  lemma OnlySession(r: Registry<Conn>, peer: PeerId)
    requires Bijective(r) && r.byPeer.Keys <= {peer}
    ensures r.live == if peer in r.byPeer then {r.byPeer[peer]} else {}
  {
  }

  /** Everything `Select` does to the tables of an end that has one peer. */
  lemma SelectAtEnd(end: End, opener: map<Conn, Side>, names: Names, side: Side, c: Conn)
    requires names.left != names.right && EndSound(end, opener, names, side) && c in opener && c !in end.ready
    ensures var peer := names.Of(side.Other());
            var (r', choice) := Select(end.registry, names.Of(side), c, peer, DirectionAt(opener, side, c), end.closed);
            && Bijective(r') && r'.byPeer.Keys == {peer} && r'.live == {r'.byPeer[peer]}
            && choice.Chosen? && choice.selected == r'.byPeer[peer]
            && (choice.loser.None? ==> choice.selected == c && end.registry.live <= end.closed)
            && (choice.loser.Some? ==>
                  && peer in end.registry.byPeer
                  && var d := end.registry.byPeer[peer];
                     && end.registry.live == {d} && d in opener && d !in end.closed && d != c
                     && choice == (if opener[c] == names.Smaller() && opener[d] != names.Smaller()
                                   then Chosen(c, Some(d)) else Chosen(d, Some(c))))
            && (forall x | x in r'.live :: r'.directions[x] == DirectionAt(opener, side, x))
  {
    var peer := names.Of(side.Other());
    var r := end.registry;
    BijectiveSelect(r, names.Of(side), c, peer, DirectionAt(opener, side, c), end.closed);
    PreferredMeansSmaller(opener, names, side, c);
    OnlySession(r, peer);
    OnlySession(Select(r, names.Of(side), c, peer, DirectionAt(opener, side, c), end.closed).0, peer);
    if peer in r.byPeer {
      var d := r.byPeer[peer];
      assert d in r.live && d != c;
      PreferredMeansSmaller(opener, names, side, d);
    }
  }

  lemma ReadyKeepsEnd(end: End, opener: map<Conn, Side>, names: Names, side: Side, c: Conn)
    requires names.left != names.right && EndSound(end, opener, names, side) && c in opener && c !in end.ready
    ensures EndSound(BecomeReady(end, opener, names, side, c), opener, names, side)
  {
    SelectAtEnd(end, opener, names, side, c);
  }

  lemma EndKeepsEnd(end: End, opener: map<Conn, Side>, names: Names, side: Side, c: Conn)
    requires EndSound(end, opener, names, side)
    ensures EndSound(end.(closed := end.closed + {c}), opener, names, side)
    ensures c in end.closed ==> EndSound(end.(registry := Deactivate(end.registry, c)), opener, names, side)
    ensures EndSound(end.(registry := Deactivate(end.registry, c), closed := end.closed + {c},
                          retiring := end.retiring - {c}), opener, names, side)
  {
    DeactivateKeepsBijective(end.registry, c);
  }

  lemma DialKeepsEnd(end: End, opener: map<Conn, Side>, names: Names, side: Side, dialler: Side, c: Conn)
    requires EndSound(end, opener, names, side) && c !in opener
    ensures EndSound(end, opener[c := dialler], names, side)
  {
  }

  lemma StepKeepsEnds(n: Net, names: Names, e: Event, side: Side)
    requires names.left != names.right && Inv(n, names) && Enabled(n, e)
    ensures EndSound(Next(n, names, e).At(side), Next(n, names, e).opener, names, side)
  {
    var end := n.At(side);
    match e
    case Dials(dialler, c) => DialKeepsEnd(end, n.opener, names, side, dialler, c);
    case Ready(where, c) => if where == side { ReadyKeepsEnd(end, n.opener, names, side, c); }
    case _ => if e.side == side { EndKeepsEnd(end, n.opener, names, side, e.c); }
  }

  lemma StepKeepsInv(n: Net, names: Names, e: Event)
    requires names.left != names.right && Inv(n, names) && Enabled(n, e)
    ensures Inv(Next(n, names, e), names)
  {
    StepKeepsEnds(n, names, e, Left);
    StepKeepsEnds(n, names, e, Right);
  }

  /** Any order of dials, READY events, closes and failures keeps both ends in order. */
  lemma {:induction false} RunsKeepInv(n: Net, names: Names, es: seq<Event>)
    requires names.left != names.right && Inv(n, names) && IsRun(n, names, es)
    ensures Inv(After(n, names, es), names)
    decreases |es|
  {
    if es != [] {
      StepKeepsInv(n, names, es[0]);
      RunsKeepInv(Next(n, names, es[0]), names, es[1..]);
    }
  }

  // ----- agreement -----------------------------------------------------------------------

  /** Nothing is left to happen: losers are closed, closes are known at both ends, and every
      open connection is READY at both ends. */
  ghost predicate Settled(n: Net) {
    && n.left.retiring == {} == n.right.retiring && n.left.closed == n.right.closed
    && forall c | c in n.opener && c !in n.left.closed :: c in n.left.ready && c in n.right.ready
  }

  /** On settled nodes an end's canonical connection is the open one, and that is known there. */
  lemma OpenMeansCanonical(n: Net, names: Names, side: Side, c: Conn)
    requires names.left != names.right && Inv(n, names) && Settled(n)
    ensures c in n.opener && c !in n.left.closed ==> Canonical(n, names, side) == Some(c)
    ensures Canonical(n, names, side) == Some(c) ==> c in n.opener && c !in n.left.closed
  {
    var end := n.At(side);
    OnlySession(end.registry, names.Of(side.Other()));
    if c in n.opener && c !in n.left.closed { assert c in end.ready; }
    if Canonical(n, names, side) == Some(c) { assert c in end.registry.live; }
  }

  /** At most one: whenever the two nodes have settled they hold the same connection or none, and
      whatever is still open is what they hold.  Whether one survives is the next section. */
  lemma SettledNodesAgree(names: Names, es: seq<Event>)
    requires names.left != names.right && IsRun(Init, names, es) && Settled(After(Init, names, es))
    ensures var n := After(Init, names, es);
            && Canonical(n, names, Left) == Canonical(n, names, Right)
            && forall c | c in n.opener && c !in n.left.closed :: Canonical(n, names, Left) == Some(c)
  {
    RunsKeepInv(Init, names, es);
    var n := After(Init, names, es);
    forall c ensures c in n.opener && c !in n.left.closed ==> Canonical(n, names, Left) == Some(c) {
      OpenMeansCanonical(n, names, Left, c);
    }
    if Canonical(n, names, Left).Some? {
      OpenMeansCanonical(n, names, Left, Canonical(n, names, Left).value);
      OpenMeansCanonical(n, names, Right, Canonical(n, names, Left).value);
    }
    if Canonical(n, names, Right).Some? {
      OpenMeansCanonical(n, names, Left, Canonical(n, names, Right).value);
      OpenMeansCanonical(n, names, Right, Canonical(n, names, Right).value);
    }
  }

  // ----- who wins ------------------------------------------------------------------------

  /** The end holds an open connection that the smaller node dialled. */
  predicate HoldsSmaller(end: End, opener: map<Conn, Side>, names: Names, side: Side) {
    var peer := names.Of(side.Other());
    peer in end.registry.byPeer && end.registry.byPeer[peer] !in end.closed
    && end.registry.byPeer[peer] in opener && opener[end.registry.byPeer[peer]] == names.Smaller()
  }

  /** At an end: which connection of the smaller node a READY event turns into a loser. */
  lemma SmallerLosesAtEnd(end: End, opener: map<Conn, Side>, names: Names, side: Side, c: Conn, x: Conn)
    requires names.left != names.right && EndSound(end, opener, names, side) && c in opener && c !in end.ready
    requires x in opener && opener[x] == names.Smaller() && x !in end.beaten
    ensures x in BecomeReady(end, opener, names, side, c).beaten <==>
            x == c && c !in end.closed && HoldsSmaller(end, opener, names, side)
  {
    SelectAtEnd(end, opener, names, side, c);
    var peer := names.Of(side.Other());
    var choice := Select(end.registry, names.Of(side), c, peer, DirectionAt(opener, side, c), end.closed).1;
    assert BecomeReady(end, opener, names, side, c).beaten
        == end.beaten + ((if choice.loser.Some? then {choice.loser.value} else {}) - end.closed);
    OnlySession(end.registry, peer);
    if choice.loser.None? && peer in end.registry.byPeer { assert end.registry.byPeer[peer] in end.registry.live; }
  }

  /** Exactly when a connection of the smaller node loses at an end of a reachable net: at its own
      READY, while open, when that end still holds an earlier one the smaller node dialled. */
  lemma PreferredLosesIff(names: Names, es: seq<Event>, side: Side, e: Event, c: Conn)
    requires names.left != names.right && IsRun(Init, names, es) && Enabled(After(Init, names, es), e)
    requires c in After(Init, names, es).opener && After(Init, names, es).opener[c] == names.Smaller()
    requires c !in After(Init, names, es).At(side).beaten
    ensures var n := After(Init, names, es); var held := Canonical(n, names, side);
            c in Next(n, names, e).At(side).beaten <==>
            (e == Ready(side, c) && c !in n.At(side).closed
             && held.Some? && held.value in n.opener && n.opener[held.value] == names.Smaller())
  {
    RunsKeepInv(Init, names, es);
    var n := After(Init, names, es);
    if e.Ready? && e.side == side {
      SmallerLosesAtEnd(n.At(side), n.opener, names, side, e.c, c);
    }
  }

  /** The smaller node dials again only when its earlier connections are gone at this end.
      Nothing is asked of the other node, nor of the other end. */
  predicate Careful(n: Net, names: Names, side: Side, e: Event) {
    e.Dials? && e.side == names.Smaller() ==>
      forall d | d in n.opener && n.opener[d] == names.Smaller() :: d in n.At(side).closed
  }

  ghost predicate IsCarefulRun(n: Net, names: Names, side: Side, es: seq<Event>)
    requires IsRun(n, names, es)
    decreases |es|
  {
    es == [] || (Careful(n, names, side, es[0]) && IsCarefulRun(Next(n, names, es[0]), names, side, es[1..]))
  }

  ghost predicate SmallerSafe(end: End, opener: map<Conn, Side>, names: Names) {
    && (forall c, d | c in opener && d in opener && c != d && opener[c] == opener[d] == names.Smaller() ::
          c in end.closed || d in end.closed)
    && (forall c | c in end.retiring && c in opener && c !in end.closed ::
          opener[c] != names.Smaller() && c !in end.registry.live)
    && (forall c | c in end.beaten && c in opener :: opener[c] != names.Smaller())
  }

  /** A loser that the smaller node dialled is closed already. */
  lemma LoserIsLarger(end: End, opener: map<Conn, Side>, names: Names, side: Side, c: Conn)
    requires names.left != names.right && EndSound(end, opener, names, side) && SmallerSafe(end, opener, names)
    requires c in opener && c !in end.ready
    ensures var (r', choice) :=
              Select(end.registry, names.Of(side), c, names.Of(side.Other()), DirectionAt(opener, side, c), end.closed);
            && r'.live <= end.registry.live + {c} && choice.Chosen?
            && (choice.loser.Some? ==> choice.loser.value in opener && choice.loser.value !in r'.live)
            && (choice.loser.Some? && opener[choice.loser.value] == names.Smaller() ==> choice.loser.value in end.closed)
  {
    SelectAtEnd(end, opener, names, side, c);
    var peer := names.Of(side.Other());
    var choice := Select(end.registry, names.Of(side), c, peer, DirectionAt(opener, side, c), end.closed).1;
    if choice.loser.Some? {
      var d := end.registry.byPeer[peer];
      if choice.loser.value == c && opener[c] == names.Smaller() {
        assert opener[d] == opener[c] && c in end.closed;
      }
    }
  }

  lemma ReadyKeepsSmaller(end: End, opener: map<Conn, Side>, names: Names, side: Side, c: Conn)
    requires names.left != names.right && EndSound(end, opener, names, side) && SmallerSafe(end, opener, names)
    requires c in opener && c !in end.ready
    ensures SmallerSafe(BecomeReady(end, opener, names, side, c), opener, names)
  {
    LoserIsLarger(end, opener, names, side, c);
  }

  lemma StepKeepsSmaller(n: Net, names: Names, side: Side, e: Event)
    requires names.left != names.right && Inv(n, names) && Enabled(n, e) && Careful(n, names, side, e)
    requires SmallerSafe(n.At(side), n.opener, names)
    ensures SmallerSafe(Next(n, names, e).At(side), Next(n, names, e).opener, names)
  {
    var end := n.At(side);
    match e
    case Dials(dialler, c) =>
      assert EndSound(end, n.opener, names, side);
    case Ready(where, c) => if where == side { ReadyKeepsSmaller(end, n.opener, names, side, c); }
    case _ => if e.side == side { EndKeepsEnd(end, n.opener, names, side, e.c); }
  }

  lemma {:induction false} CarefulRunsKeepSmaller(n: Net, names: Names, side: Side, es: seq<Event>)
    requires names.left != names.right && Inv(n, names) && SmallerSafe(n.At(side), n.opener, names)
    requires IsRun(n, names, es) && IsCarefulRun(n, names, side, es)
    ensures SmallerSafe(After(n, names, es).At(side), After(n, names, es).opener, names)
    decreases |es|
  {
    if es != [] {
      StepKeepsInv(n, names, es[0]);
      StepKeepsSmaller(n, names, side, es[0]);
      CarefulRunsKeepSmaller(Next(n, names, es[0]), names, side, es[1..]);
    }
  }

  /** An open connection dialled by the smaller node never loses at an end, and from the moment
      it is READY there it is that end's canonical connection while it stays open. */
  lemma SmallerSideWins(names: Names, es: seq<Event>, side: Side, c: Conn)
    requires names.left != names.right && IsRun(Init, names, es) && IsCarefulRun(Init, names, side, es)
    ensures var n := After(Init, names, es);
            c in n.opener && n.opener[c] == names.Smaller() ==>
              && c !in n.At(side).beaten
              && (c in n.At(side).ready - n.At(side).closed ==> Canonical(n, names, side) == Some(c))
  {
    RunsKeepInv(Init, names, es);
    CarefulRunsKeepSmaller(Init, names, side, es);
    var n := After(Init, names, es);
    OnlySession(n.At(side).registry, names.Of(side.Other()));
  }

  lemma RunCons(n: Net, names: Names, e: Event, es: seq<Event>)
    requires Enabled(n, e) && IsRun(Next(n, names, e), names, es)
    ensures IsRun(n, names, [e] + es) && After(n, names, [e] + es) == After(Next(n, names, e), names, es)
  {
    assert ([e] + es)[1..] == es;
  }

  /** The failing case is reached: the smaller node redials while the other end still believes in
      its first connection, and the new one loses there. */
  lemma HalfOpenPredecessorWins(names: Names) returns (es: seq<Event>)
    requires Less(names.left, names.right)
    ensures IsRun(Init, names, es) && 1 in After(Init, names, es).right.beaten
    ensures 1 in After(Init, names, es).opener && After(Init, names, es).opener[1] == names.Smaller()
    ensures 1 !in After(Init, names, es).right.closed
  {
    LessIsTotal(names.left, names.right);
    var n1 := Next(Init, names, Dials(Left, 0));
    var n2 := Next(n1, names, Ready(Right, 0));
    var n3 := Next(n2, names, Dials(Left, 1));
    var n4 := Next(n3, names, Ready(Right, 1));
    assert n2.right.registry.byPeer == map[names.left := 0] && n2.right.registry.directions == map[0 := Inbound];
    assert n4.right.beaten == {1};
    RunCons(n3, names, Ready(Right, 1), []);
    RunCons(n2, names, Dials(Left, 1), [Ready(Right, 1)] + []);
    RunCons(n1, names, Ready(Right, 0), [Dials(Left, 1)] + ([Ready(Right, 1)] + []));
    RunCons(Init, names, Dials(Left, 0), [Ready(Right, 0)] + ([Dials(Left, 1)] + ([Ready(Right, 1)] + [])));
    es := [Dials(Left, 0)] + ([Ready(Right, 0)] + ([Dials(Left, 1)] + ([Ready(Right, 1)] + [])));
  }

  // ----- who survives --------------------------------------------------------------------

  /** The connections an outside failure hits in a run; every other close is the nodes' own. */
  function FailedIn(es: seq<Event>): set<Conn> {
    if es == [] then {} else (if es[0].Fails? then {es[0].c} else {}) + FailedIn(es[1..])
  }

  /** A node dials again only when its earlier connections are closed at both ends. */
  predicate Patient(n: Net, e: Event) {
    e.Dials? ==> forall d | d in n.opener && n.opener[d] == e.side :: d in n.left.closed && d in n.right.closed
  }

  ghost predicate IsPatientRun(n: Net, names: Names, es: seq<Event>)
    requires IsRun(n, names, es)
    decreases |es|
  {
    es == [] || (Patient(n, es[0]) && IsPatientRun(Next(n, names, es[0]), names, es[1..]))
  }

  lemma {:induction false} PatientIsCareful(n: Net, names: Names, es: seq<Event>, side: Side)
    requires IsRun(n, names, es) && IsPatientRun(n, names, es)
    ensures IsCarefulRun(n, names, side, es)
    decreases |es|
  {
    if es != [] { PatientIsCareful(Next(n, names, es[0]), names, es[1..], side); }
  }

  /** Connections an end has closed or is about to close. */
  function Leaving(n: Net, side: Side): set<Conn> {
    n.At(side).closed + n.At(side).retiring
  }

  ghost predicate LeaversDialled(n: Net) {
    Leaving(n, Left) <= n.opener.Keys && Leaving(n, Right) <= n.opener.Keys
  }

  /** No end closes a connection of the smaller node that has not failed. */
  ghost predicate SmallerSpared(n: Net, names: Names, failed: set<Conn>) {
    forall c | c in n.opener && n.opener[c] == names.Smaller() && c in Leaving(n, Left) + Leaving(n, Right) :: c in failed
  }

  ghost predicate SmallerDialled(n: Net, names: Names) {
    exists d :: d in n.opener && n.opener[d] == names.Smaller()
  }

  /** Without a connection of the smaller node, no end closes one that has not failed. */
  ghost predicate LargerSpared(n: Net, names: Names, failed: set<Conn>) {
    !SmallerDialled(n, names) ==> forall c | c in Leaving(n, Left) + Leaving(n, Right) :: c in failed
  }

  /** Of two connections dialled by one node, one is gone at both ends. */
  ghost predicate OnePerOpener(n: Net) {
    forall c, d | c in n.opener && d in n.opener && c != d && n.opener[c] == n.opener[d] ::
      (c in n.left.closed && c in n.right.closed) || (d in n.left.closed && d in n.right.closed)
  }

  /** Closing and learning of closes spreads only what was leaving already; failures add themselves. */
  lemma StepLeavers(n: Net, names: Names, e: Event)
    requires names.left != names.right && Inv(n, names) && Enabled(n, e) && !e.Ready?
    ensures var n' := Next(n, names, e);
            Leaving(n', Left) + Leaving(n', Right) <= Leaving(n, Left) + Leaving(n, Right) + FailedIn([e])
    ensures LeaversDialled(n) ==> LeaversDialled(Next(n, names, e))
  {
    assert [e][1..] == [];
  }

  /** What a READY event makes leave: at most its loser. */
  lemma ReadyLeavers(n: Net, names: Names, side: Side, c: Conn)
    requires names.left != names.right && Inv(n, names) && Enabled(n, Ready(side, c))
    ensures var n' := Next(n, names, Ready(side, c));
            var choice := Select(n.At(side).registry, names.Of(side), c, names.Of(side.Other()),
                                 DirectionAt(n.opener, side, c), n.At(side).closed).1;
            && n'.opener == n.opener && n'.left.closed == n.left.closed && n'.right.closed == n.right.closed
            && choice.Chosen? && (choice.loser.Some? ==> choice.loser.value in n.opener)
            && Leaving(n', Left) + Leaving(n', Right)
               <= Leaving(n, Left) + Leaving(n, Right) + (if choice.loser.Some? then {choice.loser.value} else {})
    ensures LeaversDialled(n) ==> LeaversDialled(Next(n, names, Ready(side, c)))
  {
    SelectAtEnd(n.At(side), n.opener, names, side, c);
  }

  lemma StepSparesSmaller(n: Net, names: Names, e: Event, failed: set<Conn>)
    requires names.left != names.right && Inv(n, names) && Enabled(n, e) && LeaversDialled(n)
    requires SmallerSafe(n.left, n.opener, names) && SmallerSafe(n.right, n.opener, names)
    requires SmallerSpared(n, names, failed)
    ensures SmallerSpared(Next(n, names, e), names, failed + FailedIn([e])) && LeaversDialled(Next(n, names, e))
  {
    match e
    case Ready(side, c) =>
      ReadyLeavers(n, names, side, c);
      LoserIsLarger(n.At(side), n.opener, names, side, c);
    case _ => StepLeavers(n, names, e);
  }

  lemma {:induction false} RunsSpareSmaller(n: Net, names: Names, es: seq<Event>, failed: set<Conn>)
    requires names.left != names.right && IsRun(n, names, es)
    requires IsCarefulRun(n, names, Left, es) && IsCarefulRun(n, names, Right, es)
    requires Inv(n, names) && LeaversDialled(n) && SmallerSpared(n, names, failed)
    requires SmallerSafe(n.left, n.opener, names) && SmallerSafe(n.right, n.opener, names)
    ensures SmallerSpared(After(n, names, es), names, failed + FailedIn(es))
    decreases |es|
  {
    if es != [] {
      var n' := Next(n, names, es[0]);
      StepKeepsInv(n, names, es[0]);
      StepKeepsSmaller(n, names, Left, es[0]);
      StepKeepsSmaller(n, names, Right, es[0]);
      StepSparesSmaller(n, names, es[0], failed);
      RunsSpareSmaller(n', names, es[1..], failed + FailedIn([es[0]]));
      FailedCons(es);
      assert failed + FailedIn([es[0]]) + FailedIn(es[1..]) == failed + FailedIn(es);
    }
  }

  lemma FailedCons(es: seq<Event>)
    requires es != []
    ensures FailedIn(es) == FailedIn([es[0]]) + FailedIn(es[1..])
  {
    assert [es[0]][1..] == [];
  }

  /** A connection of the smaller node that does not fail is never closed by either end, and
      settled nodes both hold it: whatever else fails, and however often the other node dials. */
  lemma SmallerSurvives(names: Names, es: seq<Event>, c: Conn)
    requires names.left != names.right && IsRun(Init, names, es)
    requires IsCarefulRun(Init, names, Left, es) && IsCarefulRun(Init, names, Right, es)
    requires c in After(Init, names, es).opener && After(Init, names, es).opener[c] == names.Smaller()
    requires c !in FailedIn(es)
    ensures var n := After(Init, names, es);
            && c !in n.left.closed && c !in n.right.closed
            && (Settled(n) ==> Canonical(n, names, Left) == Some(c) == Canonical(n, names, Right))
  {
    RunsSpareSmaller(Init, names, es, {});
    RunsKeepInv(Init, names, es);
    var n := After(Init, names, es);
    assert c !in Leaving(n, Left) + Leaving(n, Right);
    if Settled(n) {
      OpenMeansCanonical(n, names, Left, c);
      OpenMeansCanonical(n, names, Right, c);
    }
  }

  lemma PatienceKeepsOnePerOpener(n: Net, names: Names, e: Event)
    requires OnePerOpener(n) && Enabled(n, e) && Patient(n, e)
    ensures OnePerOpener(Next(n, names, e))
  {
    match e
    case Dials(side, c) =>
    case _ =>
      assert Next(n, names, e).opener == n.opener;
      assert n.left.closed <= Next(n, names, e).left.closed && n.right.closed <= Next(n, names, e).right.closed;
  }

  /** Among connections of the larger node alone, the later one loses to one still open. */
  lemma LaterLoses(end: End, opener: map<Conn, Side>, names: Names, side: Side, c: Conn)
    requires names.left != names.right && EndSound(end, opener, names, side) && c in opener && c !in end.ready
    requires opener[c] != names.Smaller()
    ensures var peer := names.Of(side.Other());
            var choice := Select(end.registry, names.Of(side), c, peer, DirectionAt(opener, side, c), end.closed).1;
            choice.Chosen? && (choice.loser.Some? ==>
              choice.loser.value == c && peer in end.registry.byPeer
              && var d := end.registry.byPeer[peer]; d in opener && d != c && d !in end.closed)
  {
    SelectAtEnd(end, opener, names, side, c);
  }

  lemma OtherIsGone(n: Net, side: Side, c: Conn, d: Conn)
    requires OnePerOpener(n) && c in n.opener && d in n.opener && c != d && n.opener[c] == n.opener[d]
    requires d !in n.At(side).closed
    ensures c in n.left.closed && c in n.right.closed
  {
  }

  lemma LoserIsGone(n: Net, names: Names, side: Side, c: Conn)
    requires names.left != names.right && Inv(n, names) && Enabled(n, Ready(side, c))
    requires OnePerOpener(n) && forall d | d in n.opener :: n.opener[d] != names.Smaller()
    ensures var choice := Select(n.At(side).registry, names.Of(side), c, names.Of(side.Other()),
                                 DirectionAt(n.opener, side, c), n.At(side).closed).1;
            choice.Chosen? && (choice.loser.Some? ==> choice.loser.value in n.left.closed)
  {
    LaterLoses(n.At(side), n.opener, names, side, c);
    var peer := names.Of(side.Other());
    var choice := Select(n.At(side).registry, names.Of(side), c, peer, DirectionAt(n.opener, side, c), n.At(side).closed).1;
    if choice.loser.Some? { OtherIsGone(n, side, c, n.At(side).registry.byPeer[peer]); }
  }

  lemma StepSparesLarger(n: Net, names: Names, e: Event, failed: set<Conn>)
    requires names.left != names.right && Inv(n, names) && Enabled(n, e)
    requires OnePerOpener(n) && LeaversDialled(n) && LargerSpared(n, names, failed)
    ensures LargerSpared(Next(n, names, e), names, failed + FailedIn([e])) && LeaversDialled(Next(n, names, e))
  {
    var n' := Next(n, names, e);
    if e.Ready? { ReadyLeavers(n, names, e.side, e.c); } else { StepLeavers(n, names, e); }
    if !SmallerDialled(n', names) {
      forall d | d in n.opener ensures n.opener[d] != names.Smaller() { assert d in n'.opener && n'.opener[d] == n.opener[d]; }
      assert !SmallerDialled(n, names);
      if e.Ready? { LoserIsGone(n, names, e.side, e.c); }
    }
  }

  lemma {:induction false} RunsSpareLarger(n: Net, names: Names, es: seq<Event>, failed: set<Conn>)
    requires names.left != names.right && IsRun(n, names, es) && IsPatientRun(n, names, es)
    requires Inv(n, names) && OnePerOpener(n) && LeaversDialled(n) && LargerSpared(n, names, failed)
    ensures LargerSpared(After(n, names, es), names, failed + FailedIn(es)) && OnePerOpener(After(n, names, es))
    decreases |es|
  {
    if es != [] {
      StepKeepsInv(n, names, es[0]);
      PatienceKeepsOnePerOpener(n, names, es[0]);
      StepSparesLarger(n, names, es[0], failed);
      RunsSpareLarger(Next(n, names, es[0]), names, es[1..], failed + FailedIn([es[0]]));
      FailedCons(es);
      assert failed + FailedIn([es[0]]) + FailedIn(es[1..]) == failed + FailedIn(es);
    }
  }

  /** The same for the larger node's connections while the smaller node has not dialled. */
  lemma LoneDiallerSurvives(names: Names, es: seq<Event>, c: Conn)
    requires names.left != names.right && IsRun(Init, names, es) && IsPatientRun(Init, names, es)
    requires c in After(Init, names, es).opener && !SmallerDialled(After(Init, names, es), names)
    requires c !in FailedIn(es)
    ensures var n := After(Init, names, es);
            && c !in n.left.closed && c !in n.right.closed
            && (Settled(n) ==> Canonical(n, names, Left) == Some(c) == Canonical(n, names, Right))
  {
    RunsSpareLarger(Init, names, es, {});
    RunsKeepInv(Init, names, es);
    var n := After(Init, names, es);
    assert c !in Leaving(n, Left) + Leaving(n, Right);
    if Settled(n) {
      OpenMeansCanonical(n, names, Left, c);
      OpenMeansCanonical(n, names, Right, c);
    }
  }

  /** Exactly one survives: when nothing fails and nobody redials early, two settled nodes of
      which one has dialled hold one and the same connection, the smaller node's if it dialled. */
  lemma ExactlyOneSurvives(names: Names, es: seq<Event>)
    requires names.left != names.right && IsRun(Init, names, es) && IsPatientRun(Init, names, es)
    requires FailedIn(es) == {} && Settled(After(Init, names, es)) && After(Init, names, es).opener != map[]
    ensures var n := After(Init, names, es);
            && Canonical(n, names, Left).Some? && Canonical(n, names, Left) == Canonical(n, names, Right)
            && var c := Canonical(n, names, Left).value;
               && c in n.opener && c !in n.left.closed && c !in n.right.closed
               && (SmallerDialled(n, names) ==> n.opener[c] == names.Smaller())
               && forall d | d in n.opener && d != c :: d in n.left.closed && d in n.right.closed
  {
    var n := After(Init, names, es);
    PatientIsCareful(Init, names, es, Left);
    PatientIsCareful(Init, names, es, Right);
    var c :| c in n.opener && (SmallerDialled(n, names) ==> n.opener[c] == names.Smaller());
    if SmallerDialled(n, names) {
      SmallerSurvives(names, es, c);
    } else {
      LoneDiallerSurvives(names, es, c);
    }
    SettledNodesAgree(names, es);
  }

  lemma {:induction false} ExtendRun(n: Net, names: Names, es: seq<Event>, e: Event)
    requires IsRun(n, names, es) && Enabled(After(n, names, es), e)
    ensures IsRun(n, names, es + [e]) && After(n, names, es + [e]) == Next(After(n, names, es), names, e)
    ensures FailedIn(es + [e]) == FailedIn(es) + FailedIn([e])
    decreases |es|
  {
    if es == [] {
      assert es + [e] == [e] && [e][1..] == [];
    } else {
      ExtendRun(Next(n, names, es[0]), names, es[1..], e);
      assert (es + [e])[1..] == es[1..] + [e];
    }
  }

  function KeptAt(peer: PeerId, c: Conn, other: Conn, d: Direction): End {
    End(Registry(map[c := peer], {c}, map[c := d], map[peer := c]), {c, other}, {}, {other}, {other})
  }

  function DirectionOf(side: Side, who: Side): Direction {
    if who == side then Outbound else Inbound
  }

  lemma KeepsFirst(opener: map<Conn, Side>, names: Names, side: Side, c: Conn, other: Conn)
    requires names.left != names.right && {c, other} == {0, 1}
    requires opener == map[0 := Left, 1 := Left] || opener == map[0 := Right, 1 := Right]
    ensures BecomeReady(BecomeReady(FreshEnd, opener, names, side, c), opener, names, side, other)
            == KeptAt(names.Of(side.Other()), c, other, DirectionAt(opener, side, c))
  {
    var peer := names.Of(side.Other());
    var d := DirectionAt(opener, side, c);
    var first := BecomeReady(FreshEnd, opener, names, side, c);
    assert first == End(Registry(map[c := peer], {c}, map[c := d], map[peer := c]), {c}, {}, {}, {});
  }

  lemma TwoDials(names: Names, who: Side) returns (es: seq<Event>)
    ensures IsRun(Init, names, es) && FailedIn(es) == {}
    ensures After(Init, names, es) == Net(map[0 := who, 1 := who], FreshEnd, FreshEnd)
  {
    es := [];
    ExtendRun(Init, names, es, Dials(who, 0));
    es := es + [Dials(who, 0)];
    ExtendRun(Init, names, es, Dials(who, 1));
    es := es + [Dials(who, 1)];
    assert After(Init, names, es).opener == map[0 := who, 1 := who];
  }

  lemma BothReady(n: Net, names: Names, side: Side, c: Conn, d: Conn, es: seq<Event>) returns (longer: seq<Event>)
    requires IsRun(Init, names, es) && After(Init, names, es) == n && FailedIn(es) == {}
    requires n.At(side) == FreshEnd && c in n.opener && d in n.opener && c != d
    ensures IsRun(Init, names, longer) && FailedIn(longer) == {}
    ensures After(Init, names, longer)
         == n.With(side, BecomeReady(BecomeReady(FreshEnd, n.opener, names, side, c), n.opener, names, side, d))
  {
    ExtendRun(Init, names, es, Ready(side, c));
    ExtendRun(Init, names, es + [Ready(side, c)], Ready(side, d));
    longer := es + [Ready(side, c)] + [Ready(side, d)];
    assert FailedIn([Ready(side, c)]) == {} == FailedIn([Ready(side, d)]) by { OneReadyFailsNothing(side, c, d); }
  }

  lemma OneReadyFailsNothing(side: Side, c: Conn, d: Conn)
    ensures FailedIn([Ready(side, c)]) == {} == FailedIn([Ready(side, d)])
  {
    assert [Ready(side, c)][1..] == [] == [Ready(side, d)][1..];
  }

  lemma EachKeepsItsOwn(names: Names, who: Side) returns (es: seq<Event>)
    requires names.left != names.right
    ensures IsRun(Init, names, es) && FailedIn(es) == {}
    ensures After(Init, names, es)
         == Net(map[0 := who, 1 := who], KeptAt(names.right, 0, 1, DirectionOf(Left, who)),
                KeptAt(names.left, 1, 0, DirectionOf(Right, who)))
  {
    var opener := map[0 := who, 1 := who];
    KeepsFirst(opener, names, Left, 0, 1);
    KeepsFirst(opener, names, Right, 1, 0);
    es := TwoDials(names, who);
    var n := Net(opener, FreshEnd, FreshEnd);
    es := BothReady(n, names, Left, 0, 1, es);
    es := BothReady(n.With(Left, KeptAt(names.right, 0, 1, DirectionOf(Left, who))), names, Right, 1, 0, es);
  }

  lemma Reach(names: Names, es: seq<Event>, e: Event, n: Net)
    requires IsRun(Init, names, es) && FailedIn(es) == {} && Enabled(After(Init, names, es), e) && !e.Fails?
    requires Next(After(Init, names, es), names, e) == n
    ensures IsRun(Init, names, es + [e]) && After(Init, names, es + [e]) == n && FailedIn(es + [e]) == {}
  {
    ExtendRun(Init, names, es, e);
    assert [e][1..] == [];
  }

  /** An end that has closed its loser, and the other one when it has learned of that. */
  function ClosedAt(end: End, closed: set<Conn>, loser: Conn): End {
    end.(registry := Deactivate(end.registry, loser), closed := closed, retiring := end.retiring - {loser})
  }

  /** Early redials may kill every connection: either node has two open at once, each end keeps
      the one it sees first, and both healthy connections are closed. */
  lemma EarlyRedialsKillEachOther(names: Names, who: Side) returns (es: seq<Event>)
    requires names.left != names.right
    ensures IsRun(Init, names, es) && FailedIn(es) == {} && Settled(After(Init, names, es))
    ensures var n := After(Init, names, es);
            n.opener == map[0 := who, 1 := who]
            && Canonical(n, names, Left) == None && Canonical(n, names, Right) == None
  {
    es := EachKeepsItsOwn(names, who);
    var l, r := KeptAt(names.right, 0, 1, DirectionOf(Left, who)), KeptAt(names.left, 1, 0, DirectionOf(Right, who));
    var n0 := Net(map[0 := who, 1 := who], l, r);
    var n1 := n0.With(Left, ClosedAt(l, {1}, 1));
    var n2 := n1.With(Right, ClosedAt(r, {0}, 0));
    var n3 := n2.With(Left, ClosedAt(l, {1}, 1).(closed := {0, 1}));
    var n4 := n3.With(Right, ClosedAt(r, {0}, 0).(closed := {0, 1}));
    Reach(names, es, ClosesLoser(Left, 1), n1);
    es := es + [ClosesLoser(Left, 1)];
    Reach(names, es, ClosesLoser(Right, 0), n2);
    es := es + [ClosesLoser(Right, 0)];
    Reach(names, es, SeesClose(Left, 0), n3);
    es := es + [SeesClose(Left, 0)];
    Reach(names, es, SeesClose(Right, 1), n4);
    es := es + [SeesClose(Right, 1)];
  }
}
