/** The bounded cache of untrusted announcements: its steps and its runs. */
module DiscoveryCache {
  import opened Wrappers

  type PeerId = string

  /** A well-formed announcement: the declared peer, its routes and its metadata. */
  datatype Claim = Claim(id: PeerId, endpoints: seq<string>, details: string)
  datatype Entry = Entry(claim: Claim, observedAt: real)
  type Cache = map<PeerId, Entry>

  /** `is_fresh` on the monotonic clock; no TTL means no expiry, a future time counts as age 0. */
  predicate IsFresh(observedAt: real, ttl: Option<real>, now: real) {
    ttl.Some? ==> (if now <= observedAt then 0.0 else now - observedAt) <= ttl.value
  }

  /** Freshness in numbers: an observation counts until its TTL has passed, that moment included. */
  lemma FreshMeans(observedAt: real, ttl: real, now: real)
    requires 0.0 < ttl
    ensures IsFresh(observedAt, Some(ttl), now) <==> now <= observedAt + ttl
    ensures IsFresh(observedAt, None, now)
  {
  }

  function Prune(cache: Cache, ttl: Option<real>, now: real): Cache {
    map id | id in cache && IsFresh(cache[id].observedAt, ttl, now) :: cache[id]
  }

  /** `_handle_announce`: `me` is the started local peer, `claim` what parsing left. */
  function Announce(cache: Cache, limit: nat, ttl: Option<real>, me: Option<PeerId>, claim: Option<Claim>, now: real): Cache {
    if me.None? || claim.None? || claim.value.id == me.value then cache
    else
      var id := claim.value.id;
      if id in cache then cache[id := Entry(claim.value, now)]
      else
        var kept := Prune(cache, ttl, now);
        if |kept| >= limit then kept else kept[id := Entry(claim.value, now)]
  }

  /** The exact admission rule: a foreign claim ends up cached, with its newest content and age,
      unless its id is new and the cache is full of entries within their TTL. */
  lemma AdmissionIsExact(cache: Cache, limit: nat, ttl: Option<real>, me: PeerId, claim: Claim, now: real)
    requires claim.id != me
    ensures var next := Announce(cache, limit, ttl, Some(me), Some(claim), now);
            && ((claim.id in next && next[claim.id] == Entry(claim, now)) <==>
                claim.id in cache || |Prune(cache, ttl, now)| < limit)
            && (claim.id in next <==> claim.id in cache || |Prune(cache, ttl, now)| < limit)
  {
  }

  /** What an announcement does to everybody else: nothing, but that a new id may prune entries
      past their TTL; and an announcement that is malformed, one's own, or made while stopped does
      nothing at all. */
  lemma AnnouncementsLeaveOthers(cache: Cache, limit: nat, ttl: Option<real>, me: Option<PeerId>, claim: Option<Claim>,
                                 now: real, other: PeerId)
    ensures var next := Announce(cache, limit, ttl, me, claim, now);
            && (me.None? || claim.None? || claim.value.id == me.value ==> next == cache)
            && (claim.None? || other != claim.value.id ==>
                  && (other in next ==> other in cache && next[other] == cache[other])
                  && (other in cache && other !in next ==>
                        claim.Some? && claim.value.id !in cache && !IsFresh(cache[other].observedAt, ttl, now)))
  {
  }

  /** What pruning keeps: the entries within their TTL, unchanged. */
  lemma PruneIsExact(cache: Cache, ttl: real, now: real, id: PeerId)
    requires 0.0 < ttl
    ensures id in Prune(cache, Some(ttl), now) <==> id in cache && now <= cache[id].observedAt + ttl
    ensures id in Prune(cache, Some(ttl), now) ==> Prune(cache, Some(ttl), now)[id] == cache[id]
    ensures Prune(cache, None, now) == cache
  {
  }

  /* ---- Runs ---- */

  /** `Collect` is the prune that ends `discover`; `StartFails` clears the local state only. */
  datatype Event = Start(me: PeerId) | StartFails | Stop | Receive(claim: Option<Claim>) | Collect

  datatype State = State(cache: Cache, me: Option<PeerId>, clock: real)

  const Init := State(map[], None, 0.0)

  function Step(s: State, limit: nat, ttl: Option<real>, e: Event, now: real): State {
    match e
    case Start(me) => s.(me := Some(me), clock := now)
    case StartFails => s.(me := None, clock := now)
    case Stop => State(map[], None, now)
    case Receive(claim) => s.(cache := Announce(s.cache, limit, ttl, s.me, claim, now), clock := now)
    case Collect => s.(cache := Prune(s.cache, ttl, now), clock := now)
  }

  /** What each event is for: starting and stopping set the local peer, `stop` alone also empties the
      cache, and a started service caches a foreign claim exactly when it has it already or has room. */
  lemma EventsTakeEffect(s: State, limit: nat, ttl: Option<real>, e: Event, now: real)
    ensures var s' := Step(s, limit, ttl, e, now);
            && s'.clock == now
            && (e.Start? ==> s'.me == Some(e.me) && s'.cache == s.cache)
            && (e.StartFails? ==> s'.me == None && s'.cache == s.cache)
            && (e.Stop? ==> s'.me == None && s'.cache == map[])
            && (e.Receive? || e.Collect? ==> s'.me == s.me)
            && (e.Receive? && e.claim.Some? && s.me.Some? && s.me.value != e.claim.value.id ==>
                  (e.claim.value.id in s'.cache && s'.cache[e.claim.value.id] == Entry(e.claim.value, now) <==>
                   e.claim.value.id in s.cache || |Prune(s.cache, ttl, now)| < limit))
            && (e.Collect? ==> forall id :: id in s'.cache <==> id in s.cache && IsFresh(s.cache[id].observedAt, ttl, now))
  {
    if e.Receive? && e.claim.Some? && s.me.Some? && s.me.value != e.claim.value.id {
      AdmissionIsExact(s.cache, limit, ttl, s.me.value, e.claim.value, now);
    }
  }

  /** Events with the clock they happen at, which never runs backwards. */
  predicate ClockIsMonotone(run: seq<(Event, real)>, from: real) {
    forall i | 0 <= i < |run| :: from <= run[i].1 && (i > 0 ==> run[i - 1].1 <= run[i].1)
  }

  function Run(s: State, limit: nat, ttl: Option<real>, run: seq<(Event, real)>): State {
    if run == [] then s
    else
      var last := run[|run| - 1];
      Step(Run(s, limit, ttl, run[..|run| - 1]), limit, ttl, last.0, last.1)
  }

  predicate Inv(s: State, limit: nat) {
    && |s.cache| <= limit
    && (forall id | id in s.cache :: s.cache[id].claim.id == id)
    && (forall id | id in s.cache :: s.cache[id].observedAt <= s.clock)
  }

  lemma PruneShrinks(cache: Cache, ttl: Option<real>, now: real)
    ensures |Prune(cache, ttl, now)| <= |cache|
  {
    Fewer(Prune(cache, ttl, now).Keys, cache.Keys);
  }

  lemma Fewer(a: set<PeerId>, b: set<PeerId>)
    requires a <= b
    ensures |a| <= |b|
  {
    assert b == a + (b - a);
  }

  lemma StepKeepsInv(s: State, limit: nat, ttl: Option<real>, e: Event, now: real)
    requires Inv(s, limit) && s.clock <= now
    ensures Inv(Step(s, limit, ttl, e, now), limit)
  {
    PruneShrinks(s.cache, ttl, now);
    if e.Receive? && e.claim.Some? && e.claim.value.id in s.cache {
      var next := s.cache[e.claim.value.id := Entry(e.claim.value, now)];
      assert next.Keys == s.cache.Keys;
      assert |next| == |next.Keys| && |s.cache| == |s.cache.Keys|;
    }
  }

  lemma {:induction false} RunKeepsInv(s: State, limit: nat, ttl: Option<real>, run: seq<(Event, real)>)
    requires Inv(s, limit) && ClockIsMonotone(run, s.clock)
    ensures Inv(Run(s, limit, ttl, run), limit)
    ensures Run(s, limit, ttl, run).clock == if run == [] then s.clock else run[|run| - 1].1
  {
    if run != [] {
      var front := run[..|run| - 1];
      RunKeepsInv(s, limit, ttl, front);
      StepKeepsInv(Run(s, limit, ttl, front), limit, ttl, run[|run| - 1].0, run[|run| - 1].1);
    }
  }

  /** In every run the cache stays within its limit under matching keys, and what the prune of
      `discover` leaves is within its TTL. */
  lemma CacheIsBoundedInEveryRun(limit: nat, ttl: Option<real>, run: seq<(Event, real)>)
    requires ClockIsMonotone(run, 0.0)
    ensures var s := Run(Init, limit, ttl, run);
            && |s.cache| <= limit
            && (forall id | id in s.cache :: s.cache[id].claim.id == id)
            && (run != [] && run[|run| - 1].0.Collect? ==>
                  forall id | id in s.cache :: IsFresh(s.cache[id].observedAt, ttl, s.clock))
            && (run != [] && run[|run| - 1].0.Collect? && ttl.Some? && 0.0 < ttl.value ==>
                  forall id | id in s.cache :: s.clock <= s.cache[id].observedAt + ttl.value)
  {
    RunKeepsInv(Init, limit, ttl, run);
  }

  /** A cached peer survives any announcements, prunes and failed starts by others until its TTL
      runs out: only `stop` or age evicts, never a full cache. */
  lemma {:induction false} FreshPeersAreNotEvicted(
      s: State, limit: nat, ttl: Option<real>, run: seq<(Event, real)>, id: PeerId)
    requires Inv(s, limit) && id in s.cache && ClockIsMonotone(run, s.clock)
    requires forall x | x in run :: !x.0.Stop?
    requires run != [] ==> IsFresh(s.cache[id].observedAt, ttl, run[|run| - 1].1)
    ensures id in Run(s, limit, ttl, run).cache
    ensures s.cache[id].observedAt <= Run(s, limit, ttl, run).cache[id].observedAt
  {
    if run != [] {
      var front, last := run[..|run| - 1], run[|run| - 1];
      FreshPeersAreNotEvicted(s, limit, ttl, front, id);
      RunKeepsInv(s, limit, ttl, front);
      assert !last.0.Stop?;
      var before := Run(s, limit, ttl, front);
      assert before.clock <= last.1;
      assert IsFresh(before.cache[id].observedAt, ttl, last.1);
      assert id in Prune(before.cache, ttl, last.1);
    }
  }

  /** Conversely, a peer that has not been heard within its TTL is gone after `discover`. */
  lemma StalePeersAreDropped(s: State, limit: nat, ttl: real, now: real, id: PeerId)
    requires Inv(s, limit) && s.clock <= now && 0.0 < ttl
    requires id in s.cache && s.cache[id].observedAt + ttl < now
    ensures id !in Step(s, limit, Some(ttl), Collect, now).cache
  {
  }
}

/** `LanDiscovery`: entries are objects refreshed in place and shared with callers. */
module Discovery {
  import opened Wrappers
  import D = DiscoveryCache

  class DiscoveredPeer {
    var claim: D.Claim
    var observedAt: real

    constructor (claim: D.Claim, now: real)
      ensures this.claim == claim && observedAt == now
    {
      this.claim, observedAt := claim, now;
    }

    method Touch(now: real)
      modifies this`observedAt
      ensures observedAt == now
    {
      observedAt := now;
    }
  }

  class LanDiscovery {
    const limit: nat
    const ttl: Option<real>
    var localPeer: Option<D.PeerId>
    var discovered: map<D.PeerId, DiscoveredPeer>

    /** No two ids share an entry object, so refreshing one leaves the others alone. */
    ghost predicate Valid()
      reads this
    {
      forall i, j | i in discovered && j in discovered && i != j :: discovered[i] != discovered[j]
    }

    ghost function Contents(): D.Cache
      reads this, discovered.Values
    {
      map id | id in discovered :: D.Entry(discovered[id].claim, discovered[id].observedAt)
    }

    constructor (limit: nat, ttl: Option<real>)
      ensures this.limit == limit && this.ttl == ttl && localPeer.None?
      ensures Valid() && Contents() == map[]
    {
      this.limit, this.ttl, localPeer, discovered := limit, ttl, None, map[];
    }

    method PruneExpired(now: real)
      requires Valid()
      modifies this`discovered
      ensures Valid() && Contents() == old(D.Prune(Contents(), ttl, now))
      ensures forall id | id in discovered :: id in old(discovered) && discovered[id] == old(discovered)[id]
    {
      if ttl.None? {
        assert Contents() == D.Prune(Contents(), ttl, now);
        return;
      }
      var items := discovered.Keys;
      while items != {}
        invariant items <= old(discovered).Keys
        invariant forall id | id in discovered :: id in old(discovered) && discovered[id] == old(discovered)[id]
        invariant forall id | id in old(discovered) :: (id in discovered <==>
            id in items || D.IsFresh(old(discovered)[id].observedAt, ttl, now))
        decreases |items|
      {
        var id :| id in items;
        items := items - {id};
        if !D.IsFresh(discovered[id].observedAt, ttl, now) {
          discovered := discovered - {id};
        }
      }
    }

    /** `_handle_announce` on a parsed announcement. */
    method HandleAnnounce(claim: Option<D.Claim>, now: real)
      requires Valid()
      modifies this`discovered, discovered.Values
      ensures Valid()
      ensures Contents() == old(D.Announce(Contents(), limit, ttl, localPeer, claim, now))
    {
      if localPeer.None? || claim.None? || claim.value.id == localPeer.value { return; }
      var id := claim.value.id;
      if id !in discovered {
        PruneExpired(now);
        assert |discovered| == |Contents()| by { assert discovered.Keys == Contents().Keys; }
        if |discovered| >= limit { return; }
        var entry := new DiscoveredPeer(claim.value, now);
        discovered := discovered[id := entry];
        return;
      }
      var entry := discovered[id];
      entry.claim := claim.value;
      entry.Touch(now);
      assert forall other | other in discovered && other != id :: discovered[other] != entry;
    }

    /** The end of `discover`: prune, then hand out the live entry objects. */
    method Collect(now: real) returns (found: set<DiscoveredPeer>)
      requires Valid()
      modifies this`discovered
      ensures Valid() && Contents() == old(D.Prune(Contents(), ttl, now))
      ensures found == discovered.Values
      ensures forall peer | peer in found :: D.IsFresh(peer.observedAt, ttl, now)
    {
      PruneExpired(now);
      assert forall id | id in discovered :: id in Contents() && Contents()[id].observedAt == discovered[id].observedAt;
      found := discovered.Values;
    }

    method Stop()
      modifies this`localPeer, this`discovered
      ensures Valid() && Contents() == map[] && localPeer.None?
    {
      localPeer, discovered := None, map[];
    }
  }
}
