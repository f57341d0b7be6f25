/** The READY-session dictionaries of `PaqtoNode` as a value, and duplicate-session selection.
    `closed` is the set of physical connections whose closed flag is up. */
module SessionTables {
  import opened Wrappers

  type PeerId = string

  datatype Direction = Inbound | Outbound

  /** `peers` stands for `_sessions` (its peer id), `live` for the keys of `_session_connections`. */
  datatype Registry<!C(==)> = Registry(
    peers: map<C, PeerId>, live: set<C>, directions: map<C, Direction>, byPeer: map<PeerId, C>)

  /** Python compares strings by code point, first difference decides. */
  predicate Less(a: PeerId, b: PeerId) {
    b != [] && (a == [] || a[0] < b[0] || (a[0] == b[0] && Less(a[1..], b[1..])))
  }

  lemma {:induction false} LessIsTotal(a: PeerId, b: PeerId)
    ensures Less(a, b) || Less(b, a) || a == b
    ensures !(Less(a, b) && Less(b, a)) && !Less(a, a)
  {
    if a != [] {
      LessIsTotal(a[1..], a[1..]);
      if b != [] {
        LessIsTotal(a[1..], b[1..]);
        if a[0] == b[0] && a[1..] == b[1..] {
          assert a == [a[0]] + a[1..] && b == [b[0]] + b[1..];
        }
      }
    }
  }

  /** Position `k` is where `a` first differs from `b` and stays below it, by ending or by its
      character. */
  predicate BelowAt(a: PeerId, b: PeerId, k: nat) {
    k <= |a| && k < |b| && a[..k] == b[..k] && (k == |a| || a[k] < b[k])
  }

  /** The order is lexicographic: a proper prefix is less, otherwise the first difference decides,
      whatever the lengths. */
  lemma {:induction false} LessIsLexicographic(a: PeerId, b: PeerId)
    ensures Less(a, b) <==> exists k: nat :: BelowAt(a, b, k)
  {
    if a == [] {
      if b != [] { assert BelowAt(a, b, 0); }
    } else if b != [] {
      LessIsLexicographic(a[1..], b[1..]);
      if Less(a, b) && a[0] == b[0] {
        var k: nat :| BelowAt(a[1..], b[1..], k);
        assert a[..k + 1] == [a[0]] + a[1..][..k] && b[..k + 1] == [b[0]] + b[1..][..k];
        assert BelowAt(a, b, k + 1);
      } else if Less(a, b) {
        assert BelowAt(a, b, 0);
      }
      if k: nat :| BelowAt(a, b, k) {
        if k > 0 {
          assert a[0] == a[..k][0] == b[..k][0] == b[0];
          assert a[1..][..k - 1] == a[..k][1..] && b[1..][..k - 1] == b[..k][1..];
          assert BelowAt(a[1..], b[1..], k - 1);
        }
      }
    }
  }

  /** `_register_session`. */
  function Register<C>(r: Registry<C>, c: C, peer: PeerId, d: Direction): Registry<C> {
    Registry(r.peers[c := peer], r.live + {c}, r.directions[c := d], r.byPeer[peer := c])
  }

  /** `_deactivate_session`. */
  function Deactivate<C>(r: Registry<C>, c: C): Registry<C> {
    Registry(r.peers - {c}, r.live - {c}, r.directions - {c},
             if c in r.peers && r.peers[c] in r.byPeer && r.byPeer[r.peers[c]] == c
             then r.byPeer - {r.peers[c]} else r.byPeer)
  }

  function Preferred(me: PeerId, peer: PeerId): Direction {
    if Less(me, peer) then Outbound else Inbound
  }

  datatype Choice<+C> = SelfSession | NoDirection | Chosen(selected: C, loser: Option<C>)

  /** `_select_ready_connection` on the node named `me`.  `NoDirection` is the failing direction
      lookup, which `BijectiveSelect` shows cannot happen. */
  function Select<C>(r: Registry<C>, me: PeerId, c: C, peer: PeerId, d: Direction, closed: set<C>):
    (Registry<C>, Choice<C>)
  {
    if peer == me then (r, SelfSession)
    else
      var stale := peer in r.byPeer && r.byPeer[peer] in closed;
      var r1 := if stale then Deactivate(r, r.byPeer[peer]) else r;
      if stale || peer !in r.byPeer then (Register(r1, c, peer, d), Chosen(c, None))
      else
        var existing := r.byPeer[peer];
        if existing == c then (r, Chosen(c, None))
        else if existing !in r.directions then (r, NoDirection)
        else if d == Preferred(me, peer) && r.directions[existing] != Preferred(me, peer) then
          (Register(Deactivate(r, existing), c, peer, d), Chosen(c, Some(existing)))
        else (r, Chosen(existing, Some(c)))
  }

  /** READY connections and peers with a session correspond one to one. */
  ghost predicate Bijective<C>(r: Registry<C>) {
    && r.live == r.peers.Keys == r.directions.Keys
    && (forall c | c in r.peers :: r.peers[c] in r.byPeer && r.byPeer[r.peers[c]] == c)
    && (forall p: PeerId | p in r.byPeer :: r.byPeer[p] in r.peers && r.peers[r.byPeer[p]] == p)
  }

  lemma RegisterKeepsBijective<C>(r: Registry<C>, c: C, peer: PeerId, d: Direction)
    requires Bijective(r) && c !in r.peers && peer !in r.byPeer
    ensures Bijective(Register(r, c, peer, d))
  {
    var r' := Register(r, c, peer, d);
    assert forall x | x in r'.peers :: r'.byPeer[r'.peers[x]] == x;
  }

  lemma DeactivateKeepsBijective<C>(r: Registry<C>, c: C)
    requires Bijective(r)
    ensures Bijective(Deactivate(r, c))
    ensures c !in Deactivate(r, c).peers
    ensures forall p: PeerId | p in r.byPeer && r.byPeer[p] != c :: p in Deactivate(r, c).byPeer
                                                             && Deactivate(r, c).byPeer[p] == r.byPeer[p]
    ensures c in r.peers ==> r.peers[c] !in Deactivate(r, c).byPeer
  {
  }

  /** A connection negotiates once, so `c` is new unless it already is this peer's session.
      Selection then keeps the tables one to one, never misses a direction, returns the session
      the tables now hold for the peer, and touches no other peer. */
  lemma BijectiveSelect<C>(r: Registry<C>, me: PeerId, c: C, peer: PeerId, d: Direction, closed: set<C>)
    requires Bijective(r) && (c in r.peers ==> r.peers[c] == peer)
    ensures var (r', choice) := Select(r, me, c, peer, d, closed);
            && Bijective(r') && !choice.NoDirection?
            && (choice.Chosen? ==> peer in r'.byPeer && r'.byPeer[peer] == choice.selected)
            && (forall p: PeerId | p != peer :: (p in r'.byPeer <==> p in r.byPeer)
                                        && (p in r.byPeer ==> r'.byPeer[p] == r.byPeer[p]))
  {
    if peer != me {
      if peer in r.byPeer {
        var existing := r.byPeer[peer];
        DeactivateKeepsBijective(r, existing);
        if existing in closed || existing != c {
          if existing in closed || (d == Preferred(me, peer) && r.directions[existing] != Preferred(me, peer)) {
            RegisterKeepsBijective(Deactivate(r, existing), c, peer, d);
          }
        }
      } else {
        RegisterKeepsBijective(r, c, peer, d);
      }
    }
  }

  /** The open session a peer already has. */
  function Held<C>(r: Registry<C>, peer: PeerId, closed: set<C>): Option<C> {
    if peer in r.byPeer && r.byPeer[peer] !in closed then Some(r.byPeer[peer]) else None
  }

  /** The whole answer of selection: the node refuses itself, a peer without another open session
      gets the new one and nobody loses, and of two the new one wins exactly when it was dialled by
      the node with the smaller id and the other one was not. */
  lemma SelectionIsExact<C>(r: Registry<C>, me: PeerId, c: C, peer: PeerId, d: Direction, closed: set<C>)
    requires Bijective(r) && (c in r.peers ==> r.peers[c] == peer)
    ensures var (r', choice) := Select(r, me, c, peer, d, closed);
            && (choice.SelfSession? <==> peer == me) && (peer == me ==> r' == r)
            && (peer != me && Held(r, peer, closed) in {None, Some(c)} ==> choice == Chosen(c, None))
            && (peer != me && Held(r, peer, closed) !in {None, Some(c)} ==>
                  var other := Held(r, peer, closed).value;
                  var dialledBySmaller := d.Outbound? <==> Less(me, peer);
                  var otherDialledBySmaller := r.directions[other].Outbound? <==> Less(me, peer);
                  choice == if dialledBySmaller && !otherDialledBySmaller then Chosen(c, Some(other)) else Chosen(other, Some(c)))
    ensures var (r', choice) := Select(r, me, c, peer, d, closed);
            choice.Chosen? && choice.selected == c && c !in r.peers ==> c in r'.directions && r'.directions[c] == d
  {
    BijectiveSelect(r, me, c, peer, d, closed);
  }

  /** The `Multiple READY connections` branch of `_connection_for_reply` is dead: two READY
      connections of one peer are the same connection. */
  lemma OneReadyConnectionPerPeer<C>(r: Registry<C>, a: C, b: C)
    requires Bijective(r) && a in r.live && b in r.live && r.peers[a] == r.peers[b]
    ensures a == b
  {
  }

  // ----- whole histories -----------------------------------------------------------------

  datatype Event<C(==)> =
    | BecomesReady(c: C, peer: PeerId, d: Direction)
    | Ends(c: C)
    | ClosesPhysically(c: C)
    | Stops

  datatype Node<!C(==)> = Node(registry: Registry<C>, closed: set<C>, negotiated: set<C>)

  function Start<C>(): Node<C> {
    Node(Registry(map[], {}, map[], map[]), {}, {})
  }

  function Step<C>(n: Node<C>, me: PeerId, e: Event<C>): Node<C> {
    match e
    case BecomesReady(c, peer, d) =>
      if c in n.negotiated then n
      else n.(registry := Select(n.registry, me, c, peer, d, n.closed).0, negotiated := n.negotiated + {c})
    case Ends(c) => n.(registry := Deactivate(n.registry, c))
    case ClosesPhysically(c) => n.(closed := n.closed + {c})
    case Stops => n.(registry := Registry(map[], {}, map[], map[]))
  }

  function History<C>(n: Node<C>, me: PeerId, es: seq<Event<C>>): Node<C>
    decreases |es|
  {
    if es == [] then n else History(Step(n, me, es[0]), me, es[1..])
  }

  ghost predicate NodeSound<C>(n: Node<C>, me: PeerId) {
    Bijective(n.registry) && n.registry.live <= n.negotiated && me !in n.registry.byPeer
  }

  lemma StepKeepsNodeSound<C>(n: Node<C>, me: PeerId, e: Event<C>)
    requires NodeSound(n, me)
    ensures NodeSound(Step(n, me, e), me)
  {
    match e
    case BecomesReady(c, peer, d) => if c !in n.negotiated { BijectiveSelect(n.registry, me, c, peer, d, n.closed); }
    case Ends(c) => DeactivateKeepsBijective(n.registry, c);
    case _ =>
  }

  /** What each event is for: a new READY connection leaves its peer with an open session, an ended
      one leaves the tables, a physical close stays recorded, and stop empties the tables. */
  lemma EventsTakeEffect<C>(n: Node<C>, me: PeerId, e: Event<C>)
    requires NodeSound(n, me)
    ensures var n' := Step(n, me, e);
            && n.closed <= n'.closed && n.negotiated <= n'.negotiated
            && (e.BecomesReady? ==> e.c in n'.negotiated && n'.closed == n.closed)
            && (e.BecomesReady? && e.c !in n.negotiated && e.peer != me ==>
                  e.peer in n'.registry.byPeer
                  && (n'.registry.byPeer[e.peer] == e.c
                      || Held(n.registry, e.peer, n.closed) == Some(n'.registry.byPeer[e.peer])))
            && (e.Ends? ==> e.c !in n'.registry.live && n'.negotiated == n.negotiated)
            && (e.ClosesPhysically? ==> n'.closed == n.closed + {e.c} && n'.registry == n.registry)
            && (e.Stops? ==> n'.registry.live == {} && n'.registry.byPeer == map[] && n'.closed == n.closed)
  {
    StepKeepsNodeSound(n, me, e);
    if e.Ends? { DeactivateKeepsBijective(n.registry, e.c); }
  }

  /** After any history the tables are one to one and the node has no session with itself. */
  lemma {:induction false} HistoriesStayBijective<C>(n: Node<C>, me: PeerId, es: seq<Event<C>>)
    requires NodeSound(n, me)
    ensures NodeSound(History(n, me, es), me)
    decreases |es|
  {
    if es != [] {
      StepKeepsNodeSound(n, me, es[0]);
      HistoriesStayBijective(Step(n, me, es[0]), me, es[1..]);
    }
  }

  // ----- selection as a fold -------------------------------------------------------------

  datatype Offer<C> = Offer(c: C, d: Direction)

  /** READY events of open connections to one peer, one after the other: the final tables and
      the losers in the order they were returned. */
  function Fold<C>(r: Registry<C>, me: PeerId, peer: PeerId, offers: seq<Offer<C>>): (Registry<C>, seq<C>)
    decreases |offers|
  {
    if offers == [] then (r, [])
    else
      var (r1, choice) := Select(r, me, offers[0].c, peer, offers[0].d, {});
      var (r2, losers) := Fold(r1, me, peer, offers[1..]);
      (r2, (if choice.Chosen? && choice.loser.Some? then [choice.loser.value] else []) + losers)
  }

  function FirstIn<C>(offers: seq<Offer<C>>, d: Direction): Option<C> {
    if offers == [] then None
    else if offers[0].d == d then Some(offers[0].c)
    else FirstIn(offers[1..], d)
  }

  /** The documented winner: the first READY one in the preferred direction, else the first. */
  function Winner<C>(offers: seq<Offer<C>>, preferred: Direction): C
    requires offers != []
  {
    match FirstIn(offers, preferred)
    case Some(c) => c
    case None => offers[0].c
  }

  function Connections<C>(offers: seq<Offer<C>>): (cs: seq<C>)
    ensures |cs| == |offers| && forall i | 0 <= i < |cs| :: cs[i] == offers[i].c
  {
    seq(|offers|, i requires 0 <= i < |offers| => offers[i].c)
  }

  ghost predicate Distinct<C>(offers: seq<Offer<C>>) {
    forall i, j | 0 <= i < j < |offers| :: offers[i].c != offers[j].c
  }

  function Keep<C>(first: Offer<C>, o: Offer<C>, pref: Direction): Offer<C> {
    if o.d == pref && first.d != pref then o else first
  }

  function Drop<C>(first: Offer<C>, o: Offer<C>, pref: Direction): Offer<C> {
    if o.d == pref && first.d != pref then first else o
  }

  /** One more READY connection: the better of the two stays, the other is the loser. */
  lemma SelectKeepsBetter<C>(r: Registry<C>, me: PeerId, peer: PeerId, first: Offer<C>, o: Offer<C>)
    requires peer != me && Bijective(r) && o.c !in r.peers
    requires peer in r.byPeer && r.byPeer[peer] == first.c && r.directions[first.c] == first.d
    ensures var (r1, choice) := Select(r, me, o.c, peer, o.d, {});
            var pref := Preferred(me, peer);
            var keep := Keep(first, o, pref);
            && choice == Chosen(keep.c, Some(Drop(first, o, pref).c))
            && Bijective(r1) && peer in r1.byPeer && r1.byPeer[peer] == keep.c
            && keep.c in r1.directions && r1.directions[keep.c] == keep.d
            && r1.peers.Keys <= r.peers.Keys + {o.c}
  {
    BijectiveSelect(r, me, o.c, peer, o.d, {});
  }

  lemma DistinctKeep<C>(first: Offer<C>, o: Offer<C>, rest: seq<Offer<C>>, pref: Direction)
    requires Distinct([first] + ([o] + rest))
    ensures Distinct([Keep(first, o, pref)] + rest)
    ensures forall i | 0 <= i < |rest| :: rest[i].c != o.c
  {
    var all := [first] + ([o] + rest);
    forall i | 0 <= i < |rest| ensures rest[i].c != o.c && rest[i].c != first.c {
      assert all[i + 2] == rest[i] && all[1] == o && all[0] == first;
    }
    var kept := [Keep(first, o, pref)] + rest;
    forall i, j | 0 <= i < j < |kept| ensures kept[i].c != kept[j].c {
      assert kept[j] == rest[j - 1];
      if i > 0 { assert all[i + 1] == kept[i] && all[j + 1] == kept[j]; }
    }
  }

  lemma ConnectionsCons<C>(o: Offer<C>, rest: seq<Offer<C>>)
    ensures Connections([o] + rest) == [o.c] + Connections(rest)
  {
  }

  lemma CountLosers<C>(keep: C, drop: C, first: C, o: C, losers: seq<C>, cs: seq<C>, w: C)
    requires (keep == first && drop == o) || (keep == o && drop == first)
    requires multiset(losers) + multiset{w} == multiset([keep] + cs)
    ensures multiset([drop] + losers) + multiset{w} == multiset([first] + ([o] + cs))
  {
    assert multiset([keep] + cs) == multiset{keep} + multiset(cs);
    assert multiset([drop] + losers) == multiset{drop} + multiset(losers);
    assert multiset([o] + cs) == multiset{o} + multiset(cs);
    assert multiset([first] + ([o] + cs)) == multiset{first} + multiset([o] + cs);
    calc {
      multiset([drop] + losers) + multiset{w};
      multiset{drop} + (multiset(losers) + multiset{w});
      multiset{drop} + (multiset{keep} + multiset(cs));
      multiset{first} + (multiset{o} + multiset(cs));
    }
  }

  /** Folding on top of a session already chosen. */
  lemma {:induction false} FoldOnto<C>(r: Registry<C>, me: PeerId, peer: PeerId, first: Offer<C>, offers: seq<Offer<C>>)
    requires peer != me && Bijective(r) && Distinct([first] + offers)
    requires peer in r.byPeer && r.byPeer[peer] == first.c && r.directions[first.c] == first.d
    requires forall i | 0 <= i < |offers| :: offers[i].c !in r.peers
    ensures var (r', losers) := Fold(r, me, peer, offers);
            var w := Winner([first] + offers, Preferred(me, peer));
            && peer in r'.byPeer && r'.byPeer[peer] == w
            && multiset(losers) + multiset{w} == multiset(Connections([first] + offers))
    decreases |offers|
  {
    var pref := Preferred(me, peer);
    if offers == [] {
      assert Connections([first] + offers) == [first.c];
      FirstInCons(first, offers, pref);
    } else {
      var (o, rest) := (offers[0], offers[1..]);
      assert [o] + rest == offers;
      var keep := Keep(first, o, pref);
      SelectKeepsBetter(r, me, peer, first, o);
      DistinctKeep(first, o, rest, pref);
      var r1 := Select(r, me, o.c, peer, o.d, {}).0;
      forall i | 0 <= i < |rest| ensures rest[i].c !in r1.peers { assert rest[i] == offers[i + 1]; }
      FoldOnto(r1, me, peer, keep, rest);
      WinnerDropsOne(first, o, rest, pref);
      var losers := Fold(r1, me, peer, rest).1;
      var drop := Drop(first, o, pref);
      assert Fold(r, me, peer, offers) == (Fold(r1, me, peer, rest).0, [drop.c] + losers);
      ConnectionsCons(first, offers);
      ConnectionsCons(o, rest);
      ConnectionsCons(keep, rest);
      CountLosers(keep.c, drop.c, first.c, o.c, losers, Connections(rest), Winner([keep] + rest, pref));
    }
  }

  lemma WinnerDropsOne<C>(first: Offer<C>, o: Offer<C>, rest: seq<Offer<C>>, pref: Direction)
    ensures Winner([first] + ([o] + rest), pref)
            == Winner([Keep(first, o, pref)] + rest, pref)
  {
    FirstInCons(first, [o] + rest, pref);
    FirstInCons(o, rest, pref);
    FirstInCons(Keep(first, o, pref), rest, pref);
  }

  lemma FirstInCons<C>(o: Offer<C>, rest: seq<Offer<C>>, d: Direction)
    ensures FirstIn([o] + rest, d) == if o.d == d then Some(o.c) else FirstIn(rest, d)
  {
    assert ([o] + rest)[1..] == rest;
  }

  /** Selection is a fold with a closed form: the canonical connection is the documented winner,
      and every other connection is returned as loser exactly once. */
  lemma SelectionPicksTheWinner<C>(me: PeerId, peer: PeerId, offers: seq<Offer<C>>)
    requires peer != me && offers != [] && Distinct(offers)
    ensures var (r', losers) := Fold(Start<C>().registry, me, peer, offers);
            var w := Winner(offers, Preferred(me, peer));
            && peer in r'.byPeer && r'.byPeer[peer] == w
            && multiset(losers) + multiset{w} == multiset(Connections(offers))
  {
    var r1 := Register(Start<C>().registry, offers[0].c, peer, offers[0].d);
    RegisterKeepsBijective(Start<C>().registry, offers[0].c, peer, offers[0].d);
    assert [offers[0]] + offers[1..] == offers;
    FoldOnto(r1, me, peer, offers[0], offers[1..]);
  }
}
