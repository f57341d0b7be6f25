/** The READY registry and the connection manager of one node together.  Selecting a session and
    installing it as the manager's canonical connection are separated by awaits; this is what the
    two hold of each other in every run, and exactly when an installation comes too late. */
module SessionOwnership {
  import opened Wrappers
  import opened S = SessionTables
  import T = ManagerTables

  type Conn = nat
  type TaskId = nat

  /** A setup task between its selection and its installation. */
  datatype Setup = Setup(peer: PeerId, dialled: Conn, selected: Conn)

  datatype Adoption = Adoption(peer: PeerId, loser: Option<Conn>)

  /** `sessions`: the peer of every connection ever registered.  `tearing`: connections being
      retired or ended, with the peer the manager will be told about.  `adoptions`: inbound
      connections on their way to `adopt`; `adopted`: those that check afterwards who won. */
  datatype Joint = Joint(registry: Registry<Conn>, tables: T.Tables<Conn>, closed: set<Conn>,
                         sessions: map<Conn, PeerId>, tearing: map<Conn, Option<PeerId>>,
                         setups: map<TaskId, Setup>, adoptions: map<Conn, Adoption>, adopted: map<Conn, PeerId>)

  datatype Event =
    | OutboundReady(id: TaskId, c: Conn, peer: PeerId)
    | SetupResumes(id: TaskId)
    | InboundReady(c: Conn, peer: PeerId)
    | AdoptionResumes(c: Conn)
    | AdoptionChecks(c: Conn)
    | SessionEnds(c: Conn)
    | TearingEnds(c: Conn)
    | ClosePeerBegins(peer: PeerId)
    | ClosePeerEnds(peer: PeerId)
    | Fails(c: Conn)

  const Init := Joint(Registry(map[], {}, map[], map[]), T.Tables(map[], map[], map[], {}, false), {},
                      map[], map[], map[], map[], map[])

  function AsSet(o: Option<Conn>): set<Conn> {
    if o.Some? then {o.value} else {}
  }

  /** `_retire_replaced_connection` up to its first await. */
  function TearDown(n: Joint, c: Conn): Joint {
    n.(registry := Deactivate(n.registry, c),
       tearing := if c in n.tearing then n.tearing
                  else n.tearing[c := if c in n.registry.peers then Some(n.registry.peers[c]) else None])
  }

  /** The installing section of `_open_connection`; a refusal closes what the task dialled. */
  function InstallSetup(n: Joint, s: Setup): Joint {
    var (t', r) := T.Install(n.tables, s.peer, s.selected);
    if r.NotInstalled? then n.(closed := n.closed + {s.dialled})
    else n.(tables := t', closed := n.closed + AsSet(r.previous))
  }

  /** After `adopt`: a connection that is not its peer's session any more is given up. */
  function CheckAdoption(n: Joint, c: Conn, peer: PeerId): Joint {
    if T.Lookup(n.registry.byPeer, peer) == Some(c) then n
    else n.(tables := T.Lose(n.tables, peer, c).0, registry := Deactivate(n.registry, c), closed := n.closed + {c})
  }

  function Adopt(n: Joint, c: Conn, a: Adoption): Joint {
    var (t', r) := T.Install(n.tables, a.peer, c);
    if r.NotInstalled? then n.(registry := Deactivate(n.registry, c), closed := n.closed + {c})
    else if r.previous.Some? && r.previous != a.loser then
      TearDown(n.(tables := t', adopted := n.adopted[c := a.peer]), r.previous.value)
    else CheckAdoption(n.(tables := t'), c, a.peer)
  }

  function Choose(n: Joint, me: PeerId, c: Conn, peer: PeerId, d: Direction): (Registry<Conn>, Choice<Conn>) {
    Select(n.registry, me, c, peer, d, n.closed)
  }

  /** Who becomes a session, and which loser is torn down. */
  function RegisterReady(n: Joint, me: PeerId, c: Conn, peer: PeerId, d: Direction): Joint {
    var (r', choice) := Choose(n, me, c, peer, d);
    if choice.Chosen? && choice.selected == c then
      n.(registry := r', sessions := n.sessions[c := peer],
         tearing := if choice.loser.Some? && choice.loser.value !in n.tearing
                    then n.tearing[choice.loser.value := None] else n.tearing)
    else n.(registry := r')
  }

  predicate Enabled(n: Joint, me: PeerId, e: Event) {
    match e
    case OutboundReady(id, c, peer) => c !in n.sessions && id !in n.setups && peer != me
    case SetupResumes(id) => id in n.setups
    case InboundReady(c, peer) => c !in n.sessions && peer != me
    case AdoptionResumes(c) => c in n.adoptions
    case AdoptionChecks(c) => c in n.adopted
    case SessionEnds(c) => c in n.sessions
    case TearingEnds(c) => c in n.tearing
    case _ => true
  }

  function RunOutbound(n: Joint, me: PeerId, id: TaskId, c: Conn, peer: PeerId): Joint {
    var choice := Choose(n, me, c, peer, Outbound).1;
    var n1 := RegisterReady(n, me, c, peer, Outbound);
    if !choice.Chosen? then n
    else
      var s := Setup(peer, c, choice.selected);
      if choice.loser.None? || (choice.selected != c && c in n.closed) then InstallSetup(n1, s)
      else if choice.selected == c then n1.(setups := n1.setups[id := s])
      else n1.(setups := n1.setups[id := s], closed := n1.closed + {c})
  }

  function RunInbound(n: Joint, me: PeerId, c: Conn, peer: PeerId): Joint {
    var choice := Choose(n, me, c, peer, Inbound).1;
    var n1 := RegisterReady(n, me, c, peer, Inbound);
    if !choice.Chosen? then n
    else if choice.selected != c then n1.(closed := n1.closed + {c})
    else if choice.loser.None? then Adopt(n1, c, Adoption(peer, None))
    else n1.(adoptions := n1.adoptions[c := Adoption(peer, choice.loser)])
  }

  function Next(n: Joint, me: PeerId, e: Event): Joint
    requires Enabled(n, me, e)
  {
    match e
    case OutboundReady(id, c, peer) => RunOutbound(n, me, id, c, peer)
    case SetupResumes(id) => InstallSetup(n, n.setups[id]).(setups := n.setups - {id})
    case InboundReady(c, peer) => RunInbound(n, me, c, peer)
    case AdoptionResumes(c) => Adopt(n.(adoptions := n.adoptions - {c}), c, n.adoptions[c])
    case AdoptionChecks(c) => CheckAdoption(n.(adopted := n.adopted - {c}), c, n.adopted[c])
    case SessionEnds(c) => n.(registry := Deactivate(n.registry, c), tearing := n.tearing[c := Some(n.sessions[c])])
    case TearingEnds(c) =>
      n.(tables := if n.tearing[c].Some? then T.Lose(n.tables, n.tearing[c].value, c).0 else n.tables,
         tearing := n.tearing - {c}, closed := n.closed + {c})
    case ClosePeerBegins(peer) =>
      var (t', _, taken) := T.BeginClosePeer(n.tables, peer);
      n.(tables := t', closed := n.closed + AsSet(taken))
    case ClosePeerEnds(peer) => n.(tables := T.EndClosePeer(n.tables, peer))
    case Fails(c) => n.(closed := n.closed + {c})
  }

  ghost predicate IsRun(n: Joint, me: PeerId, es: seq<Event>)
    decreases |es|
  {
    es == [] || (Enabled(n, me, es[0]) && IsRun(Next(n, me, es[0]), me, es[1..]))
  }

  ghost function After(n: Joint, me: PeerId, es: seq<Event>): Joint
    requires IsRun(n, me, es)
    decreases |es|
  {
    if es == [] then n else After(Next(n, me, es[0]), me, es[1..])
  }

  // ----- invariant -----------------------------------------------------------------------

  /** Connections closed or on their way out. */
  function Leaving(n: Joint): set<Conn> {
    n.tearing.Keys + n.closed
  }

  /** Sessions and peers are one to one, and a connection that was a session once still is, or is
      leaving. */
  ghost predicate Sound(r: Registry<Conn>, sessions: map<Conn, PeerId>, leaving: set<Conn>) {
    && Bijective(r)
    && (forall c | c in r.peers :: c in sessions && sessions[c] == r.peers[c])
    && (forall c | c in sessions :: c in r.live || c in leaving)
  }

  predicate IsSessionOf(sessions: map<Conn, PeerId>, c: Conn, p: PeerId) {
    c in sessions && sessions[c] == p
  }

  ghost predicate ConnectionsHold(connections: map<PeerId, Conn>, sessions: map<Conn, PeerId>) {
    forall p: PeerId | p in connections :: IsSessionOf(sessions, connections[p], p)
  }

  ghost predicate SetupsHold(setups: map<TaskId, Setup>, sessions: map<Conn, PeerId>) {
    forall id | id in setups :: IsSessionOf(sessions, setups[id].selected, setups[id].peer)
  }

  ghost predicate AdoptionsHold(adoptions: map<Conn, Adoption>, adopted: map<Conn, PeerId>, sessions: map<Conn, PeerId>) {
    && (forall c | c in adoptions :: IsSessionOf(sessions, c, adoptions[c].peer))
    && (forall c | c in adopted :: IsSessionOf(sessions, c, adopted[c]))
  }

  /** Everything installed, or about to be, was a session of its peer. */
  ghost predicate Inv(n: Joint) {
    && Sound(n.registry, n.sessions, Leaving(n))
    && ConnectionsHold(n.tables.connections, n.sessions)
    && SetupsHold(n.setups, n.sessions)
    && AdoptionsHold(n.adoptions, n.adopted, n.sessions)
  }

  lemma MoreLeave(r: Registry<Conn>, sessions: map<Conn, PeerId>, leaving: set<Conn>, more: set<Conn>)
    requires Sound(r, sessions, leaving) && leaving <= more
    ensures Sound(r, sessions, more)
  {
  }

  lemma DeactivateStays(r: Registry<Conn>, sessions: map<Conn, PeerId>, leaving: set<Conn>, more: set<Conn>, c: Conn)
    requires Sound(r, sessions, leaving) && leaving <= more && c in more
    ensures Sound(Deactivate(r, c), sessions, more)
  {
    DeactivateKeepsBijective(r, c);
  }

  lemma TablesHold(t: T.Tables<Conn>, sessions: map<Conn, PeerId>, p: PeerId, c: Conn)
    requires ConnectionsHold(t.connections, sessions)
    ensures ConnectionsHold(T.Lose(t, p, c).0.connections, sessions)
    ensures ConnectionsHold(T.BeginClosePeer(t, p).0.connections, sessions)
    ensures T.EndClosePeer(t, p).connections == t.connections
    ensures IsSessionOf(sessions, c, p) ==> ConnectionsHold(T.Install(t, p, c).0.connections, sessions)
  {
  }

  /** What selecting among the sessions does to the registry. */
  lemma ChoiceFacts(r: Registry<Conn>, me: PeerId, c: Conn, peer: PeerId, d: Direction, closed: set<Conn>)
    requires Bijective(r) && c !in r.peers && peer != me
    ensures var (r', choice) := Select(r, me, c, peer, d, closed);
            && Bijective(r') && choice.Chosen?
            && (choice.selected == c ==> c in r'.live)
            && (choice.selected == c ==>
                  forall x | x in r.live :: x in r'.live || x in closed || choice.loser == Some(x))
            && (choice.selected != c ==> r' == r && choice.loser == Some(c))
            && (choice.selected != c ==> choice.selected in r'.peers && r'.peers[choice.selected] == peer)
            && forall x | x in r'.peers :: if x == c then r'.peers[x] == peer
                                           else x in r.peers && r'.peers[x] == r.peers[x]
  {
    BijectiveSelect(r, me, c, peer, d, closed);
  }

  /** A new session is sound when the one it replaced is leaving. */
  lemma SelectStays(r: Registry<Conn>, sessions: map<Conn, PeerId>, leaving: set<Conn>, more: set<Conn>,
                    me: PeerId, c: Conn, peer: PeerId, d: Direction, closed: set<Conn>)
    requires Sound(r, sessions, leaving) && closed <= leaving <= more && c !in sessions && peer != me
    requires var choice := Select(r, me, c, peer, d, closed).1;
             choice.Chosen? && choice.selected == c && AsSet(choice.loser) <= more
    ensures Sound(Select(r, me, c, peer, d, closed).0, sessions[c := peer], more)
  {
    ChoiceFacts(r, me, c, peer, d, closed);
  }

  lemma SessionsGrow(n: Joint, c: Conn, peer: PeerId)
    requires Inv(n) && c !in n.sessions
    ensures ConnectionsHold(n.tables.connections, n.sessions[c := peer])
    ensures SetupsHold(n.setups, n.sessions[c := peer])
    ensures AdoptionsHold(n.adoptions, n.adopted, n.sessions[c := peer])
  {
  }

  lemma RegisterStays(n: Joint, me: PeerId, c: Conn, peer: PeerId, d: Direction)
    requires Inv(n) && c !in n.sessions && peer != me
    ensures var n' := RegisterReady(n, me, c, peer, d); var choice := Choose(n, me, c, peer, d).1;
            Inv(n') && choice.Chosen? && IsSessionOf(n'.sessions, choice.selected, peer)
  {
    ChoiceFacts(n.registry, me, c, peer, d, n.closed);
    var choice := Choose(n, me, c, peer, d).1;
    var n' := RegisterReady(n, me, c, peer, d);
    if choice.selected == c {
      SelectStays(n.registry, n.sessions, Leaving(n), Leaving(n'), me, c, peer, d, n.closed);
      SessionsGrow(n, c, peer);
    }
  }

  lemma InstallSetupStays(n: Joint, s: Setup)
    requires Inv(n) && IsSessionOf(n.sessions, s.selected, s.peer)
    ensures Inv(InstallSetup(n, s))
  {
    MoreLeave(n.registry, n.sessions, Leaving(n), Leaving(InstallSetup(n, s)));
    TablesHold(n.tables, n.sessions, s.peer, s.selected);
  }

  lemma CheckStays(n: Joint, c: Conn, peer: PeerId)
    requires Inv(n)
    ensures Inv(CheckAdoption(n, c, peer))
  {
    if T.Lookup(n.registry.byPeer, peer) != Some(c) {
      DeactivateStays(n.registry, n.sessions, Leaving(n), Leaving(CheckAdoption(n, c, peer)), c);
      TablesHold(n.tables, n.sessions, peer, c);
    }
  }

  lemma TearDownStays(n: Joint, c: Conn)
    requires Inv(n)
    ensures Inv(TearDown(n, c))
  {
    DeactivateStays(n.registry, n.sessions, Leaving(n), Leaving(TearDown(n, c)), c);
  }

  lemma AdoptStays(n: Joint, c: Conn, a: Adoption)
    requires Inv(n) && IsSessionOf(n.sessions, c, a.peer)
    ensures Inv(Adopt(n, c, a))
  {
    var (t', r) := T.Install(n.tables, a.peer, c);
    TablesHold(n.tables, n.sessions, a.peer, c);
    if r.NotInstalled? {
      DeactivateStays(n.registry, n.sessions, Leaving(n), Leaving(n) + {c}, c);
      assert Leaving(Adopt(n, c, a)) == Leaving(n) + {c};
    } else if r.previous.Some? && r.previous != a.loser {
      TearDownStays(n.(tables := t', adopted := n.adopted[c := a.peer]), r.previous.value);
    } else {
      CheckStays(n.(tables := t'), c, a.peer);
    }
  }

  /** Records of setups and adoptions, and further closes. */
  lemma RecordStays(n: Joint, n': Joint)
    requires Inv(n) && n'.registry == n.registry && n'.sessions == n.sessions && Leaving(n) <= Leaving(n')
    requires ConnectionsHold(n'.tables.connections, n.sessions)
    requires SetupsHold(n'.setups, n.sessions) && AdoptionsHold(n'.adoptions, n'.adopted, n.sessions)
    ensures Inv(n')
  {
    MoreLeave(n.registry, n.sessions, Leaving(n), Leaving(n'));
  }

  lemma OutboundStays(n: Joint, me: PeerId, id: TaskId, c: Conn, peer: PeerId)
    requires Inv(n) && Enabled(n, me, OutboundReady(id, c, peer))
    ensures Inv(RunOutbound(n, me, id, c, peer))
  {
    RegisterStays(n, me, c, peer, Outbound);
    var n1 := RegisterReady(n, me, c, peer, Outbound);
    var choice := Choose(n, me, c, peer, Outbound).1;
    if choice.loser.None? || (choice.selected != c && c in n.closed) {
      InstallSetupStays(n1, Setup(peer, c, choice.selected));
    } else {
      RecordStays(n1, RunOutbound(n, me, id, c, peer));
    }
  }

  lemma InboundStays(n: Joint, me: PeerId, c: Conn, peer: PeerId)
    requires Inv(n) && Enabled(n, me, InboundReady(c, peer))
    ensures Inv(RunInbound(n, me, c, peer))
  {
    RegisterStays(n, me, c, peer, Inbound);
    var n1 := RegisterReady(n, me, c, peer, Inbound);
    var choice := Choose(n, me, c, peer, Inbound).1;
    if choice.selected == c && choice.loser.None? {
      AdoptStays(n1, c, Adoption(peer, None));
    } else {
      RecordStays(n1, RunInbound(n, me, c, peer));
    }
  }

  lemma ResumeStays(n: Joint, me: PeerId, e: Event)
    requires Inv(n) && Enabled(n, me, e) && (e.SetupResumes? || e.AdoptionResumes? || e.AdoptionChecks?)
    ensures Inv(Next(n, me, e))
  {
    match e
    case SetupResumes(id) =>
      InstallSetupStays(n, n.setups[id]);
      RecordStays(InstallSetup(n, n.setups[id]), Next(n, me, e));
    case AdoptionResumes(c) =>
      RecordStays(n, n.(adoptions := n.adoptions - {c}));
      AdoptStays(n.(adoptions := n.adoptions - {c}), c, n.adoptions[c]);
    case AdoptionChecks(c) =>
      RecordStays(n, n.(adopted := n.adopted - {c}));
      CheckStays(n.(adopted := n.adopted - {c}), c, n.adopted[c]);
  }

  lemma EndStays(n: Joint, me: PeerId, e: Event)
    requires Inv(n) && Enabled(n, me, e)
    requires e.SessionEnds? || e.TearingEnds? || e.ClosePeerBegins? || e.ClosePeerEnds? || e.Fails?
    ensures Inv(Next(n, me, e))
  {
    var n' := Next(n, me, e);
    match e {
      case SessionEnds(c) => DeactivateStays(n.registry, n.sessions, Leaving(n), Leaving(n'), c);
      case TearingEnds(c) =>
        if n.tearing[c].Some? { TablesHold(n.tables, n.sessions, n.tearing[c].value, c); }
        RecordStays(n, n');
      case ClosePeerBegins(peer) =>
        TablesHold(n.tables, n.sessions, peer, 0);
        RecordStays(n, n');
      case ClosePeerEnds(peer) =>
        TablesHold(n.tables, n.sessions, peer, 0);
        RecordStays(n, n');
      case Fails(_) => RecordStays(n, n');
    }
  }

  lemma StepKeepsInv(n: Joint, me: PeerId, e: Event)
    requires Inv(n) && Enabled(n, me, e)
    ensures Inv(Next(n, me, e))
  {
    match e
    case OutboundReady(id, c, peer) => OutboundStays(n, me, id, c, peer);
    case InboundReady(c, peer) => InboundStays(n, me, c, peer);
    case SetupResumes(_) => ResumeStays(n, me, e);
    case AdoptionResumes(_) => ResumeStays(n, me, e);
    case AdoptionChecks(_) => ResumeStays(n, me, e);
    case _ => EndStays(n, me, e);
  }

  lemma {:induction false} RunsKeepInv(n: Joint, me: PeerId, es: seq<Event>)
    requires Inv(n) && IsRun(n, me, es)
    ensures Inv(After(n, me, es))
    decreases |es|
  {
    if es != [] {
      StepKeepsInv(n, me, es[0]);
      RunsKeepInv(Next(n, me, es[0]), me, es[1..]);
    }
  }

  // ----- what the two hold of each other -------------------------------------------------

  /** In every run the manager's canonical connection is the peer's READY session, or it is
      closed or being torn down: the two never disagree on two healthy connections. */
  lemma CanonicalIsSessionOrLeaving(me: PeerId, es: seq<Event>, p: PeerId)
    requires IsRun(Init, me, es)
    ensures var n := After(Init, me, es);
            p in n.tables.connections ==>
              var c := n.tables.connections[p];
              T.Lookup(n.registry.byPeer, p) == Some(c) || c in n.tearing || c in n.closed
  {
    RunsKeepInv(Init, me, es);
    var n := After(Init, me, es);
    if p in n.tables.connections { assert IsSessionOf(n.sessions, n.tables.connections[p], p); }
  }

  /** The connections that became READY in a run. */
  ghost function ReadyIn(es: seq<Event>): set<Conn>
    decreases |es|
  {
    if es == [] then {}
    else ReadyIn(es[1..]) + match es[0] {
      case OutboundReady(_, c, _) => {c}
      case InboundReady(c, _) => {c}
      case _ => {}
    }
  }

  /** A READY connection that is its peer's session, or on its way out. */
  ghost predicate Placed(n: Joint, c: Conn) {
    c in n.registry.live || c in Leaving(n)
  }

  ghost predicate Grows(n: Joint, n': Joint) {
    Leaving(n) <= Leaving(n') && n.sessions.Keys <= n'.sessions.Keys
  }

  lemma GrowsOn(n: Joint, n1: Joint, n2: Joint)
    requires Grows(n, n1) && Grows(n1, n2)
    ensures Grows(n, n2)
  {
  }

  lemma RegisterGrows(n: Joint, me: PeerId, c: Conn, peer: PeerId, d: Direction)
    ensures Grows(n, RegisterReady(n, me, c, peer, d))
  {
  }

  lemma AdoptGrows(n: Joint, c: Conn, a: Adoption)
    ensures Grows(n, Adopt(n, c, a)) && Grows(n, CheckAdoption(n, c, a.peer))
  {
  }

  lemma OutboundGrows(n: Joint, me: PeerId, id: TaskId, c: Conn, peer: PeerId)
    ensures Grows(n, RunOutbound(n, me, id, c, peer))
  {
    var n1 := RegisterReady(n, me, c, peer, Outbound);
    RegisterGrows(n, me, c, peer, Outbound);
    if Choose(n, me, c, peer, Outbound).1.Chosen? {
      var s := Setup(peer, c, Choose(n, me, c, peer, Outbound).1.selected);
      assert Grows(n1, InstallSetup(n1, s));
      assert Grows(n1, RunOutbound(n, me, id, c, peer));
      GrowsOn(n, n1, RunOutbound(n, me, id, c, peer));
    }
  }

  lemma InboundGrows(n: Joint, me: PeerId, c: Conn, peer: PeerId)
    ensures Grows(n, RunInbound(n, me, c, peer))
  {
    var n1 := RegisterReady(n, me, c, peer, Inbound);
    RegisterGrows(n, me, c, peer, Inbound);
    if Choose(n, me, c, peer, Inbound).1.Chosen? {
      AdoptGrows(n1, c, Adoption(peer, None));
      assert Grows(n1, RunInbound(n, me, c, peer));
      GrowsOn(n, n1, RunInbound(n, me, c, peer));
    }
  }

  /** No step takes a connection back once it leaves, or forgets that one was a session. */
  lemma StepGrows(n: Joint, me: PeerId, e: Event)
    requires Enabled(n, me, e)
    ensures Grows(n, Next(n, me, e))
  {
    match e
    case OutboundReady(id, c, peer) => OutboundGrows(n, me, id, c, peer);
    case InboundReady(c, peer) => InboundGrows(n, me, c, peer);
    case AdoptionResumes(c) => AdoptGrows(n.(adoptions := n.adoptions - {c}), c, n.adoptions[c]);
    case AdoptionChecks(c) => AdoptGrows(n.(adopted := n.adopted - {c}), c, Adoption(n.adopted[c], None));
    case _ =>
  }

  lemma RegisterPlaces(n: Joint, me: PeerId, c: Conn, peer: PeerId, d: Direction)
    requires Bijective(n.registry) && c !in n.registry.peers && peer != me
    ensures var n' := RegisterReady(n, me, c, peer, d); var choice := Choose(n, me, c, peer, d).1;
            && choice.Chosen? && n'.closed == n.closed
            && (if choice.selected == c then c in n'.sessions else choice.loser == Some(c))
  {
    ChoiceFacts(n.registry, me, c, peer, d, n.closed);
  }

  lemma InstallSetupGrows(n: Joint, s: Setup)
    ensures n.closed <= InstallSetup(n, s).closed && InstallSetup(n, s).sessions == n.sessions
  {
  }

  lemma OutboundIsPlaced(n: Joint, me: PeerId, id: TaskId, c: Conn, peer: PeerId)
    requires Inv(n) && Enabled(n, me, OutboundReady(id, c, peer))
    ensures var n' := RunOutbound(n, me, id, c, peer); c in n'.sessions || c in n'.closed
  {
    RegisterPlaces(n, me, c, peer, Outbound);
    var choice := Choose(n, me, c, peer, Outbound).1;
    InstallSetupGrows(RegisterReady(n, me, c, peer, Outbound), Setup(peer, c, choice.selected));
  }

  lemma InboundIsPlaced(n: Joint, me: PeerId, c: Conn, peer: PeerId)
    requires Inv(n) && Enabled(n, me, InboundReady(c, peer))
    ensures var n' := RunInbound(n, me, c, peer); c in n'.sessions || c in n'.closed
  {
    RegisterPlaces(n, me, c, peer, Inbound);
    AdoptGrows(RegisterReady(n, me, c, peer, Inbound), c, Adoption(peer, None));
  }

  /** A connection that becomes READY is registered or closed at once. */
  lemma ReadyIsPlaced(n: Joint, me: PeerId, e: Event, c: Conn)
    requires Inv(n) && Enabled(n, me, e) && c in ReadyIn([e])
    ensures c in Next(n, me, e).sessions || c in Next(n, me, e).closed
  {
    assert [e][1..] == [];
    match e
    case OutboundReady(id, _, peer) => OutboundIsPlaced(n, me, id, c, peer);
    case InboundReady(_, peer) => InboundIsPlaced(n, me, c, peer);
    case _ => assert false;
  }

  /** Being placed follows from having been a session, and is never undone. */
  lemma PlacedStays(n: Joint, me: PeerId, e: Event, c: Conn)
    requires Inv(n) && Enabled(n, me, e) && (Placed(n, c) || c in ReadyIn([e]))
    ensures Placed(Next(n, me, e), c)
  {
    StepGrows(n, me, e);
    StepKeepsInv(n, me, e);
    if c in ReadyIn([e]) {
      ReadyIsPlaced(n, me, e, c);
    }
  }

  lemma {:induction false} PlacedThroughout(n: Joint, me: PeerId, es: seq<Event>, c: Conn)
    requires Inv(n) && IsRun(n, me, es) && (Placed(n, c) || c in ReadyIn(es))
    ensures Placed(After(n, me, es), c)
    decreases |es|
  {
    if es != [] {
      StepKeepsInv(n, me, es[0]);
      if Placed(n, c) || c in ReadyIn([es[0]]) { PlacedStays(n, me, es[0], c); }
      PlacedThroughout(Next(n, me, es[0]), me, es[1..], c);
    }
  }

  /** In every run each connection that ever became READY is its peer's one session, or is closed
      or being torn down: the loser of a duplicate never stays open beside the winner. */
  lemma EveryReadyIsSessionOrLeaving(me: PeerId, es: seq<Event>, c: Conn)
    requires IsRun(Init, me, es) && c in ReadyIn(es)
    ensures var n := After(Init, me, es);
            || c in n.tearing || c in n.closed
            || (c in n.registry.peers && T.Lookup(n.registry.byPeer, n.registry.peers[c]) == Some(c))
  {
    RunsKeepInv(Init, me, es);
    PlacedThroughout(Init, me, es, c);
  }

  lemma RegisterHolds(n: Joint, me: PeerId, c: Conn, peer: PeerId, d: Direction)
    requires Bijective(n.registry) && c !in n.registry.peers && peer != me
    ensures var n' := RegisterReady(n, me, c, peer, d); var choice := Choose(n, me, c, peer, d).1;
            && choice.Chosen? && T.Lookup(n'.registry.byPeer, peer) == Some(choice.selected)
            && n'.tables == n.tables && n'.closed == n.closed
  {
    BijectiveSelect(n.registry, me, c, peer, d, n.closed);
    ChoiceFacts(n.registry, me, c, peer, d, n.closed);
  }

  lemma InstalledOrClosed(n: Joint, s: Setup)
    ensures var n' := InstallSetup(n, s);
            && n'.registry == n.registry
            && if T.Blocked(n.tables, s.peer) then s.dialled in n'.closed
               else T.Lookup(n'.tables.connections, s.peer) == Some(s.selected)
  {
  }

  /** A dialled connection that became READY is on its way: its setup waits for a loser to close, or
      has installed the peer's session, or was refused on a closing peer and has closed it. */
  lemma OutboundGoesOn(n: Joint, me: PeerId, id: TaskId, c: Conn, peer: PeerId)
    requires Inv(n) && Enabled(n, me, OutboundReady(id, c, peer))
    ensures var n' := RunOutbound(n, me, id, c, peer); var session := T.Lookup(n'.registry.byPeer, peer);
            && session.Some?
            && (|| (id in n'.setups && n'.setups[id] == Setup(peer, c, session.value))
                || (!T.Blocked(n.tables, peer) && T.Lookup(n'.tables.connections, peer) == session)
                || (T.Blocked(n.tables, peer) && c in n'.closed))
  {
    RegisterHolds(n, me, c, peer, Outbound);
    InstalledOrClosed(RegisterReady(n, me, c, peer, Outbound), Setup(peer, c, Choose(n, me, c, peer, Outbound).1.selected));
  }

  /** An inbound one that became its peer's session waits to be adopted, or is what the manager
      holds; one that did not, or that a closing peer refused, is closed and no session. */
  lemma InboundGoesOn(n: Joint, me: PeerId, c: Conn, peer: PeerId)
    requires Inv(n) && Enabled(n, me, InboundReady(c, peer))
    ensures var n' := RunInbound(n, me, c, peer);
            || c in n'.adoptions
            || T.Lookup(n'.tables.connections, peer) == Some(c)
            || (c in n'.closed && c !in n'.registry.live)
  {
    RegisterHolds(n, me, c, peer, Inbound);
    ChoiceFacts(n.registry, me, c, peer, Inbound, n.closed);
    var choice := Choose(n, me, c, peer, Inbound).1;
    if choice.selected == c && choice.loser.None? {
      InstalledOrRefused(RegisterReady(n, me, c, peer, Inbound), c, Adoption(peer, None));
    }
  }

  /** The installing part of an adoption. */
  lemma InstalledOrRefused(n: Joint, c: Conn, a: Adoption)
    requires T.Lookup(n.registry.byPeer, a.peer) == Some(c)
    ensures var n' := Adopt(n, c, a);
            if T.Blocked(n.tables, a.peer) then c in n'.closed && c !in n'.registry.live && n'.tables == n.tables
            else T.Lookup(n'.tables.connections, a.peer) == Some(c)
  {
    if !T.Blocked(n.tables, a.peer) { AdoptionOf(n, c, a); }
  }

  /** What a refused or a completed installation leaves behind. */
  lemma SetupSettles(n: Joint, me: PeerId, id: TaskId)
    requires id in n.setups
    ensures var s := n.setups[id]; var n' := Next(n, me, SetupResumes(id));
            var previous := T.Lookup(n.tables.connections, s.peer);
            && id !in n'.setups && n'.registry == n.registry
            && (T.Blocked(n.tables, s.peer) ==> n'.tables == n.tables && n'.closed == n.closed + {s.dialled})
            && (!T.Blocked(n.tables, s.peer) ==>
                  && T.Lookup(n'.tables.connections, s.peer) == Some(s.selected)
                  && n'.closed == n.closed + (AsSet(previous) - {s.selected}))
  {
    if !T.Blocked(n.tables, n.setups[id].peer) { InstallationOf(n, n.setups[id]); }
  }

  /** The section that ends an adoption: the manager keeps the connection only as its peer's
      session; otherwise the connection is closed and the manager has forgotten it. */
  lemma AdoptionSettles(n: Joint, me: PeerId, c: Conn)
    requires Inv(n) && c in n.adopted
    ensures var p := n.adopted[c]; var n' := Next(n, me, AdoptionChecks(c));
            var isSession := T.Lookup(n.registry.byPeer, p) == Some(c);
            && c !in n'.adopted && n'.registry == n.registry
            && (isSession ==> n'.tables == n.tables && n'.closed == n.closed)
            && (!isSession ==> T.Lookup(n'.tables.connections, p) != Some(c) && n'.closed == n.closed + {c})
  {
    LiveIsSession(n.registry, n.sessions, Leaving(n), c, n.adopted[c]);
    if c !in n.registry.live {
      assert c !in n.registry.peers && Deactivate(n.registry, c) == n.registry;
    }
  }

  /** A connection that has been torn down is closed, and the manager holds it no longer. */
  lemma TearingSettles(n: Joint, me: PeerId, c: Conn)
    requires c in n.tearing
    ensures var n' := Next(n, me, TearingEnds(c));
            && c !in n'.tearing && n'.closed == n.closed + {c} && n'.registry == n.registry
            && (n.tearing[c].Some? ==> T.Lookup(n'.tables.connections, n.tearing[c].value) != Some(c))
            && forall p | p in n.tables.connections && n.tables.connections[p] != c ::
                 T.Lookup(n'.tables.connections, p) == Some(n.tables.connections[p])
  {
  }

  /** An ended session and a closed peer leave nothing open in the two. */
  lemma EndingSettles(n: Joint, me: PeerId, c: Conn, peer: PeerId)
    requires Inv(n)
    ensures c in n.sessions ==>
              var n' := Next(n, me, SessionEnds(c));
              c !in n'.registry.live && T.Lookup(n'.tearing, c) == Some(Some(n.sessions[c]))
    ensures var n' := Next(n, me, ClosePeerBegins(peer));
            && peer !in n'.tables.connections && T.Blocked(n'.tables, peer)
            && n'.closed == n.closed + AsSet(T.Lookup(n.tables.connections, peer))
    ensures var n' := Next(n, me, ClosePeerEnds(peer));
            (T.Blocked(n'.tables, peer) <==> n.tables.closing) && n'.tables.connections == n.tables.connections
  {
  }

  /** A step that takes down a healthy READY session. */
  predicate HarmsSession(n: Joint, n': Joint, c: Conn) {
    c in n.registry.live && c !in n.closed && !(c in n'.registry.live && c !in n'.closed)
  }

  /** The peer's session, when a connection that once was its session still is. */
  lemma LiveIsSession(r: Registry<Conn>, sessions: map<Conn, PeerId>, leaving: set<Conn>, c: Conn, p: PeerId)
    requires Sound(r, sessions, leaving) && IsSessionOf(sessions, c, p)
    ensures c in r.live <==> T.Lookup(r.byPeer, p) == Some(c)
    ensures c !in r.live ==> c in leaving
  {
  }

  lemma InstallationOf(n: Joint, s: Setup)
    requires !T.Blocked(n.tables, s.peer)
    ensures var n' := InstallSetup(n, s); var previous := T.Lookup(n.tables.connections, s.peer);
            && n'.registry == n.registry && T.Lookup(n'.tables.connections, s.peer) == Some(s.selected)
            && n'.closed == n.closed + (if previous == Some(s.selected) then {} else AsSet(previous))
  {
  }

  lemma SetupHarms(n: Joint, s: Setup, c: Conn)
    requires Inv(n) && IsSessionOf(n.sessions, s.selected, s.peer)
    ensures var n' := InstallSetup(n, s);
            !T.Blocked(n.tables, s.peer) ==>
              (T.Lookup(n'.tables.connections, s.peer) == T.Lookup(n'.registry.byPeer, s.peer) <==> s.selected in n.registry.live)
    ensures s.selected !in n.registry.live ==> s.selected in n.tearing || s.selected in n.closed
    ensures HarmsSession(n, InstallSetup(n, s), c) <==>
              c in n.registry.live && c !in n.closed
              && if T.Blocked(n.tables, s.peer) then c == s.dialled
                 else s.selected !in n.registry.live && T.Lookup(n.tables.connections, s.peer) == Some(c)
  {
    if !T.Blocked(n.tables, s.peer) { InstallationOf(n, s); }
    LiveIsSession(n.registry, n.sessions, Leaving(n), s.selected, s.peer);
    if T.Lookup(n.tables.connections, s.peer).Some? {
      LiveIsSession(n.registry, n.sessions, Leaving(n), n.tables.connections[s.peer], s.peer);
    }
  }

  /** Exactly when a resumed setup installs something else than the peer's session: its own
      selection has been torn down or closed meanwhile.  Exactly then, and when the manager already
      holds the successor, it closes a healthy session; on a closing peer it closes what it dialled. */
  lemma StaleSetupIff(me: PeerId, es: seq<Event>, id: TaskId, c: Conn)
    requires IsRun(Init, me, es) && id in After(Init, me, es).setups
    ensures var n := After(Init, me, es); var s := n.setups[id]; var n' := Next(n, me, SetupResumes(id));
            !T.Blocked(n.tables, s.peer) ==>
              (T.Lookup(n'.tables.connections, s.peer) == T.Lookup(n'.registry.byPeer, s.peer) <==> s.selected in n.registry.live)
    ensures var n := After(Init, me, es); var s := n.setups[id];
            s.selected !in n.registry.live ==> s.selected in n.tearing || s.selected in n.closed
    ensures var n := After(Init, me, es); var s := n.setups[id]; var n' := Next(n, me, SetupResumes(id));
            HarmsSession(n, n', c) <==>
              c in n.registry.live && c !in n.closed
              && if T.Blocked(n.tables, s.peer) then c == s.dialled
                 else s.selected !in n.registry.live && T.Lookup(n.tables.connections, s.peer) == Some(c)
  {
    RunsKeepInv(Init, me, es);
    SetupHarms(After(Init, me, es), After(Init, me, es).setups[id], c);
  }

  /** The connection an adoption takes the place of. */
  function Displaced(n: Joint, a: Adoption): Option<Conn> {
    T.Lookup(n.tables.connections, a.peer)
  }

  /** Tearing down a connection harms it alone, and only when it is a session. */
  lemma TearDownHarms(n: Joint, d: Conn, c: Conn)
    requires Bijective(n.registry)
    ensures HarmsSession(n, TearDown(n, d), c) <==> c == d && c in n.registry.live && c !in n.closed
  {
  }

  /** Giving up a connection that is not its peer's session harms nobody. */
  lemma CheckHarmsNobody(n: Joint, x: Conn, peer: PeerId, c: Conn)
    requires Inv(n) && IsSessionOf(n.sessions, x, peer)
    ensures !HarmsSession(n, CheckAdoption(n, x, peer), c)
  {
    LiveIsSession(n.registry, n.sessions, Leaving(n), x, peer);
  }

  lemma AdoptionOf(n: Joint, x: Conn, a: Adoption)
    requires !T.Blocked(n.tables, a.peer)
    ensures var installed := n.(tables := T.Install(n.tables, a.peer, x).0); var d := Displaced(n, a);
            Adopt(n, x, a) == if d.Some? && d != Some(x) && d != a.loser
                              then TearDown(installed.(adopted := n.adopted[x := a.peer]), d.value)
                              else CheckAdoption(installed, x, a.peer)
  {
  }

  lemma RefusalHarms(n: Joint, x: Conn, a: Adoption, c: Conn)
    requires T.Blocked(n.tables, a.peer)
    ensures HarmsSession(n, Adopt(n, x, a), c) <==> c == x && c in n.registry.live && c !in n.closed
  {
  }

  /** When an adoption takes down a healthy session: one it displaces although it is no session
      itself, or its own connection on a closing peer. */
  predicate AdoptionTakes(n: Joint, x: Conn, a: Adoption, c: Conn) {
    c in n.registry.live && c !in n.closed
    && if T.Blocked(n.tables, a.peer) then c == x
       else x !in n.registry.live && Displaced(n, a) == Some(c) && Some(c) != a.loser
  }

  lemma AdoptionHarms(n: Joint, x: Conn, a: Adoption, c: Conn)
    requires Inv(n) && IsSessionOf(n.sessions, x, a.peer)
    ensures HarmsSession(n, Adopt(n, x, a), c) <==> AdoptionTakes(n, x, a, c)
  {
    var installed := n.(tables := T.Install(n.tables, a.peer, x).0);
    var d := Displaced(n, a);
    if T.Blocked(n.tables, a.peer) {
      RefusalHarms(n, x, a, c);
    } else {
      AdoptionOf(n, x, a);
      TablesHold(n.tables, n.sessions, a.peer, x);
      LiveIsSession(n.registry, n.sessions, Leaving(n), x, a.peer);
      if d.Some? && d != Some(x) && d != a.loser {
        LiveIsSession(n.registry, n.sessions, Leaving(n), d.value, a.peer);
        TearDownHarms(installed.(adopted := n.adopted[x := a.peer]), d.value, c);
      } else {
        RecordStays(n, installed);
        CheckHarmsNobody(installed, x, a.peer, c);
      }
    }
  }

  lemma ResumedAdoptionHarms(n: Joint, me: PeerId, x: Conn, c: Conn)
    requires Inv(n) && x in n.adoptions
    ensures HarmsSession(n, Next(n, me, AdoptionResumes(x)), c) <==> AdoptionTakes(n, x, n.adoptions[x], c)
  {
    var waiting := n.(adoptions := n.adoptions - {x});
    RecordStays(n, waiting);
    AdoptionHarms(waiting, x, n.adoptions[x], c);
  }

  /** The same for an inbound connection that waited for its loser to be retired. */
  lemma StaleAdoptionIff(me: PeerId, es: seq<Event>, x: Conn, c: Conn)
    requires IsRun(Init, me, es) && x in After(Init, me, es).adoptions
    ensures var n := After(Init, me, es);
            HarmsSession(n, Next(n, me, AdoptionResumes(x)), c) <==> AdoptionTakes(n, x, n.adoptions[x], c)
  {
    RunsKeepInv(Init, me, es);
    ResumedAdoptionHarms(After(Init, me, es), me, x, c);
  }

  lemma {:induction false} ExtendRun(n: Joint, me: PeerId, es: seq<Event>, e: Event)
    requires IsRun(n, me, es) && Enabled(After(n, me, es), me, e)
    ensures IsRun(n, me, es + [e]) && After(n, me, es + [e]) == Next(After(n, me, es), me, e)
    decreases |es|
  {
    if es == [] {
      assert es + [e] == [e] && [e][1..] == [];
    } else {
      ExtendRun(Next(n, me, es[0]), me, es[1..], e);
      assert (es + [e])[1..] == es[1..] + [e];
    }
  }

  const Busy := Joint(Registry(map[0 := "a"], {0}, map[0 := Inbound], map["a" := 0]),
                      T.Tables(map["a" := 0], map[], map["a" := T.Connected], {}, false), {1},
                      map[0 := "a"], map[], map[7 := Setup("a", 1, 0)], map[], map[])

  /** A setup keeps the inbound session 0 over its own connection 1 and waits for 1 to close. */
  lemma SetupWaits() returns (es: seq<Event>)
    ensures IsRun(Init, "b", es) && After(Init, "b", es) == Busy
  {
    var n1 := Next(Init, "b", InboundReady(0, "a"));
    assert n1.registry == Busy.registry && n1.tables == Busy.tables && n1.tearing == map[] && n1.closed == {};
    ExtendRun(Init, "b", [], InboundReady(0, "a"));
    es := [] + [InboundReady(0, "a")];
    assert Less("a", "b") && !Less("b", "a");
    assert Next(n1, "b", OutboundReady(7, 1, "a")) == Busy;
    ExtendRun(Init, "b", es, OutboundReady(7, 1, "a"));
    es := es + [OutboundReady(7, 1, "a")];
  }

  const Vacant := Busy.(registry := Registry(map[], {}, map[], map[]), tearing := map[0 := Some("a")])

  const Taken := Vacant.(registry := Registry(map[2 := "a"], {2}, map[2 := Inbound], map["a" := 2]),
                         sessions := map[0 := "a", 2 := "a"])

  lemma SuccessorRegisters()
    ensures RegisterReady(Vacant, "b", 2, "a", Inbound) == Taken
    ensures Choose(Vacant, "b", 2, "a", Inbound).1 == Chosen(2, None)
  {
    assert "a"[0] != "b"[0];
    var (r, choice) := Choose(Vacant, "b", 2, "a", Inbound);
    assert r.peers == map[2 := "a"] && r.live == {2} && r.directions == map[2 := Inbound] && r.byPeer == map["a" := 2];
  }

  lemma SuccessorTakesOver()
    ensures Enabled(Vacant, "b", InboundReady(2, "a"))
    ensures var n := Next(Vacant, "b", InboundReady(2, "a"));
            && n.registry == Taken.registry && n.tables.connections == map["a" := 2] && !T.Blocked(n.tables, "a")
            && n.setups == Busy.setups && n.closed == {1}
  {
    assert "a"[0] != "b"[0];
    SuccessorRegisters();
    assert Next(Vacant, "b", InboundReady(2, "a")) == Adopt(Taken, 2, Adoption("a", None));
  }

  /** Meanwhile 0 ends and the inbound connection 2 takes over. */
  lemma SuccessorArrives() returns (es: seq<Event>)
    ensures IsRun(Init, "b", es)
    ensures var n := After(Init, "b", es);
            && n.registry == Taken.registry && n.tables.connections == map["a" := 2] && !T.Blocked(n.tables, "a")
            && n.setups == Busy.setups && n.closed == {1}
  {
    es := SetupWaits();
    assert Next(Busy, "b", SessionEnds(0)) == Vacant;
    ExtendRun(Init, "b", es, SessionEnds(0));
    es := es + [SessionEnds(0)];
    SuccessorTakesOver();
    ExtendRun(Init, "b", es, InboundReady(2, "a"));
    es := es + [InboundReady(2, "a")];
  }

  /** The late installation is real: the resumed setup closes the healthy session 2. */
  lemma StaleSetupClosesSession() returns (es: seq<Event>)
    ensures IsRun(Init, "b", es) && 7 in After(Init, "b", es).setups
    ensures HarmsSession(After(Init, "b", es), Next(After(Init, "b", es), "b", SetupResumes(7)), 2)
  {
    es := SuccessorArrives();
    StaleSetupIff("b", es, 7, 2);
  }

  // ----- a late adoption -----------------------------------------------------------------

  /** A setup has installed its connection 0. */
  const Dialled := Joint(Registry(map[0 := "a"], {0}, map[0 := Outbound], map["a" := 0]),
                         T.Tables(map["a" := 0], map[], map["a" := T.Connected], {}, false), {},
                         map[0 := "a"], map[], map[], map[], map[])

  /** The inbound connection 1 wins over it, waits for 0 to be retired, and fails. */
  const Waits := Dialled.(registry := Registry(map[1 := "a"], {1}, map[1 := Inbound], map["a" := 1]),
                          sessions := map[0 := "a", 1 := "a"], tearing := map[0 := None],
                          adoptions := map[1 := Adoption("a", Some(0))])

  const Broken := Waits.(closed := {1})

  /** The inbound connection 2 takes its place. */
  const Replaced := Broken.(registry := Registry(map[2 := "a"], {2}, map[2 := Inbound], map["a" := 2]),
                            sessions := map[0 := "a", 1 := "a", 2 := "a"],
                            tables := T.Tables(map["a" := 2], map[], map["a" := T.Connected], {}, false),
                            adopted := map[2 := "a"])

  lemma DialledFirst()
    ensures Enabled(Init, "b", OutboundReady(7, 0, "a")) && Next(Init, "b", OutboundReady(7, 0, "a")) == Dialled
  {
    assert "a"[0] != "b"[0];
    var (r, choice) := Choose(Init, "b", 0, "a", Outbound);
    assert r.peers == Dialled.registry.peers && r.live == {0} && r.byPeer == Dialled.registry.byPeer;
    assert r == Dialled.registry && choice == Chosen(0, None);
    assert RegisterReady(Init, "b", 0, "a", Outbound) == Init.(registry := r, sessions := map[0 := "a"]);
  }

  lemma InboundWins()
    ensures Enabled(Dialled, "b", InboundReady(1, "a")) && Next(Dialled, "b", InboundReady(1, "a")) == Waits
  {
    assert "a"[0] != "b"[0] && Less("a", "b") && !Less("b", "a");
    var (r, choice) := Choose(Dialled, "b", 1, "a", Inbound);
    assert r.peers == Waits.registry.peers && r.live == {1} && r.byPeer == Waits.registry.byPeer;
    assert r.directions == Waits.registry.directions;
    assert r == Waits.registry && choice == Chosen(1, Some(0));
    assert RegisterReady(Dialled, "b", 1, "a", Inbound)
        == Dialled.(registry := r, sessions := map[0 := "a", 1 := "a"], tearing := map[0 := None]);
  }

  const Registered := Broken.(registry := Replaced.registry, sessions := Replaced.sessions)

  lemma NextInboundRegisters()
    ensures Choose(Broken, "b", 2, "a", Inbound).1 == Chosen(2, None)
    ensures RegisterReady(Broken, "b", 2, "a", Inbound) == Registered
  {
    assert "a"[0] != "b"[0];
    var (r, choice) := Choose(Broken, "b", 2, "a", Inbound);
    assert r.peers == Replaced.registry.peers && r.live == {2} && r.byPeer == Replaced.registry.byPeer;
    assert r.directions == Replaced.registry.directions;
    assert r == Replaced.registry;
  }

  lemma NextInboundAdopts()
    ensures Adopt(Registered, 2, Adoption("a", None)) == Replaced
  {
    assert Deactivate(Replaced.registry, 0) == Replaced.registry;
    assert T.Install(Registered.tables, "a", 2).0 == Replaced.tables;
  }

  lemma NextInboundTakesOver()
    ensures Enabled(Broken, "b", InboundReady(2, "a")) && Next(Broken, "b", InboundReady(2, "a")) == Replaced
  {
    assert "a"[0] != "b"[0];
    NextInboundRegisters();
    NextInboundAdopts();
  }

  lemma AdoptionIsOvertaken() returns (es: seq<Event>)
    ensures IsRun(Init, "b", es) && After(Init, "b", es) == Replaced
  {
    DialledFirst();
    InboundWins();
    NextInboundTakesOver();
    ExtendRun(Init, "b", [], OutboundReady(7, 0, "a"));
    es := [] + [OutboundReady(7, 0, "a")];
    ExtendRun(Init, "b", es, InboundReady(1, "a"));
    es := es + [InboundReady(1, "a")];
    assert Next(Waits, "b", Fails(1)) == Broken;
    ExtendRun(Init, "b", es, Fails(1));
    es := es + [Fails(1)];
    ExtendRun(Init, "b", es, InboundReady(2, "a"));
    es := es + [InboundReady(2, "a")];
  }

  /** The late adoption is real too: connection 1 failed while its loser was being retired, and
      its resumed adoption tears down the healthy session 2. */
  lemma StaleAdoptionTakesSession() returns (es: seq<Event>)
    ensures IsRun(Init, "b", es) && 1 in After(Init, "b", es).adoptions
    ensures HarmsSession(After(Init, "b", es), Next(After(Init, "b", es), "b", AdoptionResumes(1)), 2)
  {
    es := AdoptionIsOvertaken();
    assert AdoptionTakes(Replaced, 1, Replaced.adoptions[1], 2);
    StaleAdoptionIff("b", es, 1, 2);
  }
}
