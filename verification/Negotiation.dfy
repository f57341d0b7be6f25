/** `negotiate_protocol`: what one end decides from its own offer and the remote hello, and what
    two ends that negotiate with each other therefore agree on. */
module Negotiation {
  import opened Wrappers
  import opened Bytes
  import opened P = Protocol
  import opened JsonValues

  datatype Security = Security(authenticated: bool, peerId: Option<string>)

  datatype Session = Session(peerId: string, version: int, serializerId: string, capabilities: seq<string>,
                             maxMessageSize: nat, peerIdAuthenticated: bool, metadata: seq<Member>)

  /** The policy of one end: the expected peer, and whether an authenticated id is required. */
  datatype Policy = Policy(security: Security, expected: Option<string>, requireAuthenticated: bool)

  function Common(mine: seq<string>, theirs: seq<string>): (cs: seq<string>)
    ensures forall c | c in cs :: c in mine && c in theirs
    ensures forall c | c in mine && c in theirs :: c in cs
  {
    if mine == [] then []
    else (if mine[0] in theirs then [mine[0]] else []) + Common(mine[1..], theirs)
  }

  /** Whether this end accepts the identity the remote hello declares. */
  function CheckIdentity(remotePeer: string, policy: Policy): Option<Error> {
    if policy.expected.Some? && remotePeer != policy.expected.value then Some(IdentityMismatch)
    else if policy.security.peerId.Some? && policy.security.peerId.value != remotePeer then Some(IdentityMismatch)
    else if policy.requireAuthenticated && (!policy.security.authenticated || policy.security.peerId.None?)
    then Some(AuthenticationError)
    else None
  }

  function Decide(mine: Offer, remote: Offer, policy: Policy): Result<Session, Error>
    requires ValidOffer(mine) && ValidOffer(remote)
  {
    if remote.version != mine.version then Err(VersionError)
    else if remote.serializerId != mine.serializerId then Err(HandshakeError)
    else match CheckIdentity(remote.peerId, policy)
      case Some(e) => Err(e)
      case None =>
        Ok(Session(remote.peerId, remote.version, remote.serializerId, Common(mine.capabilities, remote.capabilities),
                   if mine.maxMessageSize <= remote.maxMessageSize then mine.maxMessageSize else remote.maxMessageSize,
                   policy.security.authenticated && policy.security.peerId == Some(remote.peerId), remote.metadata))
  }

  function Negotiate(codec: Codec, mine: Offer, frame: Payload, policy: Policy): Result<Session, Error>
    requires ValidOffer(mine)
  {
    match DecodeHello(codec, frame)
    case Err(e) => Err(e)
    case Ok(remote) => Decide(mine, remote, policy)
  }

  /** The remote id satisfies the policy: it is the expected one if any, the transport's own if it
      has one, and authenticated when that is required. */
  predicate IdentityHolds(remotePeer: string, policy: Policy) {
    && (policy.expected.Some? ==> remotePeer == policy.expected.value)
    && (policy.security.peerId.Some? ==> remotePeer == policy.security.peerId.value)
    && (policy.requireAuthenticated ==> policy.security.authenticated && policy.security.peerId.Some?)
  }

  /** Exactly when an end accepts the remote offer, and which refusal it reports otherwise: version
      first, then serializer, then identity, then authentication. */
  lemma DecisionIsExact(mine: Offer, remote: Offer, policy: Policy)
    requires ValidOffer(mine) && ValidOffer(remote)
    ensures Decide(mine, remote, policy).Ok? <==>
            mine.version == remote.version && mine.serializerId == remote.serializerId && IdentityHolds(remote.peerId, policy)
    ensures Decide(mine, remote, policy) == Err(VersionError) <==> mine.version != remote.version
    ensures Decide(mine, remote, policy) == Err(HandshakeError) <==>
            mine.version == remote.version && mine.serializerId != remote.serializerId
    ensures Decide(mine, remote, policy) == Err(IdentityMismatch) <==>
            mine.version == remote.version && mine.serializerId == remote.serializerId
            && (policy.expected !in {None, Some(remote.peerId)} || policy.security.peerId !in {None, Some(remote.peerId)})
    ensures Decide(mine, remote, policy) == Err(AuthenticationError) <==>
            mine.version == remote.version && mine.serializerId == remote.serializerId
            && policy.expected in {None, Some(remote.peerId)} && policy.security.peerId in {None, Some(remote.peerId)}
            && policy.requireAuthenticated && !(policy.security.authenticated && policy.security.peerId.Some?)
  {
  }

  /** A session whose peer id counts as authenticated carries the transport's own id. */
  lemma AuthenticatedMeansTransport(mine: Offer, remote: Offer, policy: Policy)
    requires ValidOffer(mine) && ValidOffer(remote) && Decide(mine, remote, policy).Ok?
    ensures var s := Decide(mine, remote, policy).value;
            && s.peerId == remote.peerId
            && (s.peerIdAuthenticated <==> policy.security.authenticated && policy.security.peerId == Some(s.peerId))
            && (policy.requireAuthenticated ==> s.peerIdAuthenticated)
            && (policy.expected.Some? ==> s.peerId == policy.expected.value)
  {
  }

  /** The first `n` negotiated capabilities are the common ones among a first part of the local ones. */
  lemma CommonOfPrefix(mine: seq<string>, theirs: seq<string>, n: nat)
    requires n <= |mine|
    ensures Common(mine, theirs) == Common(mine[..n], theirs) + Common(mine[n..], theirs)
    decreases |mine|
  {
    if n > 0 {
      CommonOfPrefix(mine[1..], theirs, n - 1);
      assert mine[..n][1..] == mine[1..][..n - 1] && mine[n..] == mine[1..][n - 1..];
    } else {
      assert mine[..0] == [] && mine[0..] == mine;
    }
  }

  /** The negotiated capabilities stand in the local order: two common ones are found in theirs. */
  lemma CommonKeepsOrder(mine: seq<string>, theirs: seq<string>, i: nat, j: nat) returns (a: nat, b: nat)
    requires i < j < |mine| && mine[i] in theirs && mine[j] in theirs
    ensures a < b < |Common(mine, theirs)| && Common(mine, theirs)[a] == mine[i] && Common(mine, theirs)[b] == mine[j]
  {
    CommonOfPrefix(mine, theirs, j);
    var head, tail := Common(mine[..j], theirs), Common(mine[j..], theirs);
    assert mine[i] == mine[..j][i] && mine[j] == mine[j..][0];
    a :| a < |head| && head[a] == mine[i];
    var k: nat :| k < |tail| && tail[k] == mine[j];
    b := |head| + k;
  }

  lemma {:induction false} CommonIsDistinct(mine: seq<string>, theirs: seq<string>)
    requires DistinctNames(mine)
    ensures DistinctNames(Common(mine, theirs))
  {
    if mine != [] {
      assert DistinctNames(mine[1..]);
      CommonIsDistinct(mine[1..], theirs);
      assert mine[0] !in mine[1..];
    }
  }

  // ----- the imperative exchange ---------------------------------------------------------

  /** What the wait for the remote hello brings. */
  datatype Arrival = Arrived(frame: Payload) | TimedOut | ClosedByPeer | TransportFailed | WasCancelled

  class Link {
    var isClosed: bool
    var sent: seq<Payload>

    method Send(frame: Payload)
      modifies this
      ensures isClosed == old(isClosed) && sent == old(sent) + [frame]
    {
      sent := sent + [frame];
    }

    method Close()
      modifies this
      ensures isClosed && sent == old(sent)
    {
      isClosed := true;
    }
  }

  /** The connection is closed on every unsuccessful handshake, cancellation included, and on
      no other; a hello is sent exactly when the local offer can be encoded. */
  method NegotiateProtocol(link: Link, codec: Codec, mine: Offer, arrival: Arrival, policy: Policy)
    returns (r: Result<Session, Error>)
    requires ValidOffer(mine)
    modifies link
    ensures r.Err? ==> link.isClosed
    ensures r.Ok? ==> link.isClosed == old(link.isClosed) && arrival.Arrived?
    ensures EncodeHello(codec, mine).Err? || arrival.ClosedByPeer? || arrival.TransportFailed? ==> r == Err(HandshakeError)
    ensures EncodeHello(codec, mine).Ok? ==> (r == Err(HandshakeTimeout) <==> arrival.TimedOut?)
                                             && (r == Err(HandshakeCancelled) <==> arrival.WasCancelled?)
    ensures EncodeHello(codec, mine).Ok? && arrival.Arrived? ==> r == Negotiate(codec, mine, arrival.frame, policy)
    ensures var hello := EncodeHello(codec, mine);
            && link.sent == old(link.sent) + (if hello.Ok? then [hello.value] else [])
            && (r.Ok? <==> hello.Ok? && arrival.Arrived? && Negotiate(codec, mine, arrival.frame, policy).Ok?)
  {
    var hello := EncodeHello(codec, mine);
    if hello.Err? {
      link.Close();
      return Err(hello.error);
    }
    link.Send(hello.value);
    if !arrival.Arrived? {
      link.Close();
      return Err(match arrival
                 case TimedOut => HandshakeTimeout
                 case WasCancelled => HandshakeCancelled
                 case _ => HandshakeError);
    }
    r := Negotiate(codec, mine, arrival.frame, policy);
    if r.Err? { link.Close(); }
  }

  // ----- two ends ------------------------------------------------------------------------

  /** An end succeeds exactly when the other's hello decodes, version and serializer agree and the
      declared identity satisfies its own policy.  Between decodable hellos the version and
      serializer checks fail at one end exactly when they fail at the other. */
  lemma ChecksAreSymmetric(codec: Codec, a: Offer, b: Offer, pa: Policy, pb: Policy)
    requires Faithful(codec) && ValidOffer(a) && ValidOffer(b)
    requires EncodeHello(codec, a).Ok? && EncodeHello(codec, b).Ok?
    ensures var atA := Negotiate(codec, a, EncodeHello(codec, b).value, pa);
            var atB := Negotiate(codec, b, EncodeHello(codec, a).value, pb);
            var readA := DecodeHello(codec, EncodeHello(codec, a).value).Ok?;
            var readB := DecodeHello(codec, EncodeHello(codec, b).value).Ok?;
            var compatible := a.version == b.version && a.serializerId == b.serializerId;
            && (atA.Ok? <==> readB && compatible && IdentityHolds(b.peerId, pa))
            && (atB.Ok? <==> readA && compatible && IdentityHolds(a.peerId, pb))
            && (readA && readB ==> (atA == Err(VersionError) <==> atB == Err(VersionError))
                                   && (atA == Err(HandshakeError) <==> atB == Err(HandshakeError)))
  {
    HelloRoundTrip(codec, a);
    HelloRoundTrip(codec, b);
  }

  /** When both ends succeed they hold the same limit, version, serializer and capability set,
      and each holds the other's declared identity and what text carries of its metadata. */
  lemma SessionsAgree(codec: Codec, a: Offer, b: Offer, pa: Policy, pb: Policy)
    requires Faithful(codec) && ValidOffer(a) && ValidOffer(b)
    requires EncodeHello(codec, a).Ok? && EncodeHello(codec, b).Ok?
    requires Negotiate(codec, a, EncodeHello(codec, b).value, pa).Ok?
    requires Negotiate(codec, b, EncodeHello(codec, a).value, pb).Ok?
    ensures var sa := Negotiate(codec, a, EncodeHello(codec, b).value, pa).value;
            var sb := Negotiate(codec, b, EncodeHello(codec, a).value, pb).value;
            && sa.maxMessageSize == sb.maxMessageSize <= a.maxMessageSize && sb.maxMessageSize <= b.maxMessageSize
            && (sa.maxMessageSize == a.maxMessageSize || sa.maxMessageSize == b.maxMessageSize)
            && sa.version == sb.version && sa.serializerId == sb.serializerId
            && (forall c :: c in sa.capabilities <==> c in sb.capabilities)
            && (forall c :: c in sa.capabilities <==> c in a.capabilities && c in b.capabilities)
            && sa.peerId == b.peerId && sb.peerId == a.peerId
            && (sa.peerIdAuthenticated <==> pa.security.authenticated && pa.security.peerId.Some?)
    ensures var sa := Negotiate(codec, a, EncodeHello(codec, b).value, pa).value;
            && Survives(Object(b.metadata), Object(sa.metadata))
            && (Plain(Object(b.metadata)) ==> sa.metadata == b.metadata)
  {
    HelloRoundTrip(codec, a);
    HelloRoundTrip(codec, b);
  }

  /** What is left of a value after text: the value with its keys replaced by their text. */
  function Image(v: Json): Json
    decreases v
  {
    match v
    case List(items) => List(seq(|items|, i requires 0 <= i < |items| => Image(items[i])))
    case Object(members) =>
      Object(seq(|members|, i requires 0 <= i < |members| => Member(Name(Label(members[i].key)), Image(members[i].value))))
    case _ => v
  }

  lemma {:induction false} ImageSurvives(v: Json)
    ensures Survives(v, Image(v))
    decreases v
  {
    match v
    case List(items) => forall i | 0 <= i < |items| ensures Survives(items[i], Image(items[i])) { ImageSurvives(items[i]); }
    case Object(members) =>
      forall i | 0 <= i < |members| ensures Survives(members[i].value, Image(members[i].value)) {
        ImageSurvives(members[i].value);
      }
    case _ =>
  }

  /** What the two-end lemmas ask of the text codec can be met for any two safe hellos. */
  lemma SomeCodecCarries(a: Offer, b: Offer) returns (codec: Codec)
    requires IsSafe(HelloValue(a)) && IsSafe(HelloValue(b))
    ensures Faithful(codec) && EncodeHello(codec, a).Ok? && EncodeHello(codec, b).Ok?
  {
    var (va, vb) := (HelloValue(a), HelloValue(b));
    var ta: Payload := [0];
    var tb: Payload := [1];
    codec := Codec(v => if v == va then Some(ta) else if v == vb then Some(tb) else None,
                   text => Some(Image(if text == ta then va else vb)));
    ImageSurvives(va);
    ImageSurvives(vb);
    forall v: Json, text: Payload | codec.dumps(v) == Some(text) ensures ParsesBack(codec, v, text) {
      assert ta != tb;
      assert v == va || v == vb;
    }
  }

  /** What one end does with a decoded frame: refused when its capability was not negotiated. */
  function Accept(codec: Codec, s: Session, frame: Payload): Result<SessionFrame, Error> {
    match DecodeSession(codec, frame, s.maxMessageSize)
    case Err(e) => Err(e)
    case Ok(f) =>
      if f.Acknowledgement? && TECHNICAL_ACK_CAPABILITY !in s.capabilities then Err(FrameError)
      else if (f.Ping? || f.Pong?) && HEARTBEAT_CAPABILITY !in s.capabilities then Err(FrameError)
      else Ok(f)
  }

  /** What one end may put on the wire: messages within its session limit, and the controls its
      own session negotiated. */
  function Emit(codec: Codec, s: Session, f: SessionFrame): Result<Payload, Error> {
    match f
    case Application(data) => EncodeApplication(data, s.maxMessageSize)
    case Acknowledgement(_) =>
      if TECHNICAL_ACK_CAPABILITY in s.capabilities then EncodeSessionControl(codec, f) else Err(FrameError)
    case _ =>
      if HEARTBEAT_CAPABILITY in s.capabilities then EncodeSessionControl(codec, f) else Err(FrameError)
  }

  /** Exactly what a session lets through, in and out: application data within its limit, and the
      controls it negotiated, with a non-empty id. */
  lemma SessionRulesAreExact(codec: Codec, s: Session, frame: Payload, f: SessionFrame)
    ensures Accept(codec, s, frame) == Ok(f) <==>
            DecodeSession(codec, frame, s.maxMessageSize) == Ok(f)
            && (f.Acknowledgement? ==> TECHNICAL_ACK_CAPABILITY in s.capabilities)
            && (f.Ping? || f.Pong? ==> HEARTBEAT_CAPABILITY in s.capabilities)
    ensures Accept(codec, s, frame).Err? ==> Accept(codec, s, frame).error == FrameError
    ensures Emit(codec, s, f).Err? ==> Emit(codec, s, f).error == FrameError
    ensures f.Application? ==> (Emit(codec, s, f).Ok? <==> |f.data| <= s.maxMessageSize)
    ensures f.Acknowledgement? ==> (Emit(codec, s, f).Ok? <==>
              TECHNICAL_ACK_CAPABILITY in s.capabilities && f.messageId != ""
              && EncodeControl(codec, ControlValue("ack", "message_id", f.messageId)).Ok?)
    ensures f.Ping? ==> (Emit(codec, s, f).Ok? <==>
              HEARTBEAT_CAPABILITY in s.capabilities && f.pingId != ""
              && EncodeControl(codec, ControlValue("ping", "ping_id", f.pingId)).Ok?)
    ensures f.Pong? ==> (Emit(codec, s, f).Ok? <==>
              HEARTBEAT_CAPABILITY in s.capabilities && f.pingId != ""
              && EncodeControl(codec, ControlValue("pong", "ping_id", f.pingId)).Ok?)
  {
  }

  /** No frame one end's session allows is refused by the other end, for size, kind or missing
      negotiation, and it arrives as it was. */
  lemma EmittedFramesAreAccepted(codec: Codec, a: Offer, b: Offer, pa: Policy, pb: Policy, f: SessionFrame)
    requires Faithful(codec) && ValidOffer(a) && ValidOffer(b)
    requires EncodeHello(codec, a).Ok? && EncodeHello(codec, b).Ok?
    requires Negotiate(codec, a, EncodeHello(codec, b).value, pa).Ok?
    requires Negotiate(codec, b, EncodeHello(codec, a).value, pb).Ok?
    ensures var sa := Negotiate(codec, a, EncodeHello(codec, b).value, pa).value;
            var sb := Negotiate(codec, b, EncodeHello(codec, a).value, pb).value;
            Emit(codec, sa, f).Ok? ==> Accept(codec, sb, Emit(codec, sa, f).value) == Ok(f)
  {
    SessionsAgree(codec, a, b, pa, pb);
    var sa := Negotiate(codec, a, EncodeHello(codec, b).value, pa).value;
    var sb := Negotiate(codec, b, EncodeHello(codec, a).value, pb).value;
    if Emit(codec, sa, f).Ok? {
      if f.Application? {
        ApplicationRoundTrip(codec, f.data, sa.maxMessageSize, sb.maxMessageSize);
      } else {
        SessionControlRoundTrip(codec, f, sb.maxMessageSize);
      }
    }
  }

  // ----- what a node offers --------------------------------------------------------------

  function OfferedCapabilities(configured: seq<string>, acknowledgements: bool): seq<string> {
    var withAck := if acknowledgements && TECHNICAL_ACK_CAPABILITY !in configured
                   then configured + [TECHNICAL_ACK_CAPABILITY] else configured;
    if HEARTBEAT_CAPABILITY !in withAck then withAck + [HEARTBEAT_CAPABILITY] else withAck
  }

  /** Offers stay free of duplicates; every session between two nodes negotiates the heartbeat,
      and ACKs when both enable them. */
  lemma NodesAlwaysShareHeartbeat(ca: seq<string>, cb: seq<string>, ackA: bool, ackB: bool)
    requires DistinctNames(ca) && DistinctNames(cb)
    ensures var oa := OfferedCapabilities(ca, ackA); var ob := OfferedCapabilities(cb, ackB);
            && DistinctNames(oa) && HEARTBEAT_CAPABILITY in Common(oa, ob)
            && (ackA && ackB ==> TECHNICAL_ACK_CAPABILITY in Common(oa, ob))
            && (forall c | c in ca && c in cb :: c in Common(oa, ob))
            && ca <= oa && (forall c | c in oa :: c in ca || c == HEARTBEAT_CAPABILITY || (ackA && c == TECHNICAL_ACK_CAPABILITY))
            && (TECHNICAL_ACK_CAPABILITY in oa <==> ackA || TECHNICAL_ACK_CAPABILITY in ca)
  {
  }
}
