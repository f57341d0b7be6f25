/** The reader loop of one READY session: what it does with each frame, and what therefore
    comes out of it over a whole stream of frames. */
module Reader {
  import opened Wrappers
  import opened Bytes
  import opened P = Protocol
  import opened N = Negotiation

  datatype Message = Message(id: string, kind: string, sender: Option<string>, recipient: Option<string>,
                             replyTo: Option<string>, headersAreStrings: bool)

  type Deserializer = Payload -> Option<Message>

  /** The receiving end: its name, its session, and how it reads bytes. */
  datatype Receiver = Receiver(me: string, session: Session, codec: Codec, deserialize: Deserializer)

  predicate NonEmptyOrNone(s: Option<string>) {
    s.Some? ==> s.value != ""
  }

  /** `_validate_incoming_message` and the identity checks that follow it. */
  predicate Valid(r: Receiver, m: Message) {
    && m.kind != "" && m.headersAreStrings && NonEmptyOrNone(m.sender) && NonEmptyOrNone(m.recipient)
    && m.id != "" && NonEmptyOrNone(m.replyTo)
    && m.sender == Some(r.session.peerId)
    && (m.recipient.None? || m.recipient == Some(r.me))
  }

  datatype Effect =
    | AckSent(id: string)
    | PongSent(id: string)
    | AckResolved(id: string)
    | PongResolved(id: string)
    | ReplyResolved(m: Message)
    | Dispatched(m: Message)

  predicate Acks(r: Receiver) {
    TECHNICAL_ACK_CAPABILITY in r.session.capabilities
  }

  /** The message in a frame, when the frame is a valid application message for this end. */
  function MessageIn(r: Receiver, frame: Payload): Option<Message> {
    match Accept(r.codec, r.session, frame)
    case Ok(Application(data)) =>
      (match r.deserialize(data)
       case Some(m) => if Valid(r, m) then Some(m) else None
       case None => None)
    case _ => None
  }

  /** All effects of a frame that is processed to its end; None for a frame that ends the session. */
  function EffectsOf(r: Receiver, frame: Payload): Option<seq<Effect>> {
    match Accept(r.codec, r.session, frame)
    case Err(_) => None
    case Ok(Acknowledgement(id)) => Some([AckResolved(id)])
    case Ok(Ping(id)) => Some([PongSent(id)])
    case Ok(Pong(id)) => Some([PongResolved(id)])
    case Ok(Application(data)) =>
      match MessageIn(r, frame)
      case None => None
      case Some(m) =>
        Some((if Acks(r) then [AckSent(m.id)] else []) + [if m.replyTo.Some? then ReplyResolved(m) else Dispatched(m)])
  }

  function Flatten(r: Receiver, frames: seq<Payload>): seq<Effect> {
    if frames == [] then []
    else Flatten(r, frames[..|frames| - 1]) + EffectsOf(r, frames[|frames| - 1]).GetOr([])
  }

  /** One turn of the loop: whether the node runs and the connection is open, the frame that
      arrives (None: idle timeout, closed or failed), whether the writer completes an ACK or
      PONG, and whether the dispatch queue takes the message. */
  datatype Turn = Turn(open: bool, arrival: Option<Payload>, written: bool, admitted: bool)

  /** The first `n` frames of a stream of turns, all of which have arrived. */
  function FramesOf(turns: seq<Turn>, n: nat): (fs: seq<Payload>)
    requires n <= |turns|
    ensures |fs| == n
  {
    seq(n, i requires 0 <= i < n => turns[i].arrival.GetOr([]))
  }

  lemma OneMoreFrame(r: Receiver, turns: seq<Turn>, n: nat)
    requires n < |turns| && turns[n].arrival.Some?
    ensures FramesOf(turns, n + 1) == FramesOf(turns, n) + [turns[n].arrival.value]
    ensures Flatten(r, FramesOf(turns, n + 1))
            == Flatten(r, FramesOf(turns, n)) + EffectsOf(r, turns[n].arrival.value).GetOr([])
  {
    assert FramesOf(turns, n + 1)[..n] == FramesOf(turns, n);
  }

  /** The frame is answered through the writer: a ping, or a message to acknowledge. */
  predicate NeedsWriting(r: Receiver, frame: Payload) {
    var f := Accept(r.codec, r.session, frame);
    (f.Ok? && f.value.Ping?) || (Acks(r) && MessageIn(r, frame).Some?)
  }

  /** The frame is an ordinary message for the dispatch queue. */
  predicate NeedsAdmission(r: Receiver, frame: Payload) {
    MessageIn(r, frame).Some? && MessageIn(r, frame).value.replyTo.None?
  }

  /** Whether a frame that has arrived is processed to its end. */
  predicate Completes(r: Receiver, frame: Payload, written: bool, admitted: bool) {
    EffectsOf(r, frame).Some? && (NeedsWriting(r, frame) ==> written) && (NeedsAdmission(r, frame) ==> admitted)
  }

  /** What a frame that ends the session leaves behind: the ACK of an ordinary message that the
      dispatch queue then refused, or nothing. */
  function LeftBy(r: Receiver, frame: Payload, written: bool, admitted: bool): seq<Effect> {
    if NeedsAdmission(r, frame) && Acks(r) && written && !admitted then [AckSent(MessageIn(r, frame).value.id)] else []
  }

  /** One frame that has arrived: processed to its end exactly when it is acceptable, the writer
      takes what it needs and the queue takes the message. */
  method HandleFrame(r: Receiver, frame: Payload, written: bool, admitted: bool) returns (ok: bool, effects: seq<Effect>)
    ensures ok <==> Completes(r, frame, written, admitted)
    ensures ok ==> EffectsOf(r, frame) == Some(effects)
    ensures !ok ==> effects == LeftBy(r, frame, written, admitted)
  {
    var decoded := Accept(r.codec, r.session, frame);
    if decoded.Err? { return false, []; }
    match decoded.value {
      case Acknowledgement(id) => return true, [AckResolved(id)];
      case Ping(id) => return written, if written then [PongSent(id)] else [];
      case Pong(id) => return true, [PongResolved(id)];
      case Application(data) =>
        var message := r.deserialize(data);
        if message.None? || !Valid(r, message.value) { return false, []; }
        var m := message.value;
        effects := [];
        if Acks(r) {
          if !written { return false, []; }
          effects := [AckSent(m.id)];
        }
        if m.replyTo.Some? { return true, effects + [ReplyResolved(m)]; }
        if !admitted { return false, effects; }
        return true, effects + [Dispatched(m)];
    }
  }

  /** Whether the loop gets through a turn. */
  predicate Passes(r: Receiver, turn: Turn) {
    turn.open && turn.arrival.Some? && Completes(r, turn.arrival.value, turn.written, turn.admitted)
  }

  function LeftByTurn(r: Receiver, turn: Turn): seq<Effect> {
    if turn.open && turn.arrival.Some? then LeftBy(r, turn.arrival.value, turn.written, turn.admitted) else []
  }

  /** The frames of turns that passed are all acceptable. */
  lemma PassedFramesAreAccepted(r: Receiver, turns: seq<Turn>, n: nat)
    requires n <= |turns| && forall i | 0 <= i < n :: Passes(r, turns[i])
    ensures forall i | 0 <= i < n :: EffectsOf(r, FramesOf(turns, n)[i]).Some?
  {
    forall i | 0 <= i < n ensures EffectsOf(r, FramesOf(turns, n)[i]).Some? { assert Passes(r, turns[i]); }
  }

  /** `_read_connection`: exactly the frames before the first turn that fails have their effects, in
      order; the failing frame contributes at most the ACK of a message that was then refused. */
  method ReadConnection(r: Receiver, turns: seq<Turn>) returns (trace: seq<Effect>, done: nat, partial: seq<Effect>)
    ensures done <= |turns| && forall i | 0 <= i < done :: Passes(r, turns[i])
    ensures done < |turns| ==> !Passes(r, turns[done])
    ensures trace == Flatten(r, FramesOf(turns, done)) + partial
    ensures partial == if done < |turns| then LeftByTurn(r, turns[done]) else []
  {
    trace, done, partial := [], 0, [];
    while done < |turns| && turns[done].open && turns[done].arrival.Some?
      invariant done <= |turns| && forall i | 0 <= i < done :: Passes(r, turns[i])
      invariant trace == Flatten(r, FramesOf(turns, done)) && partial == []
      decreases |turns| - done
    {
      var frame := turns[done].arrival.value;
      var ok, effects := HandleFrame(r, frame, turns[done].written, turns[done].admitted);
      trace := trace + effects;
      if !ok {
        partial := effects;
        return;
      }
      OneMoreFrame(r, turns, done);
      done := done + 1;
    }
  }

  // ----- what the trace says -------------------------------------------------------------

  function Dispatches(trace: seq<Effect>): seq<Message> {
    if trace == [] then []
    else Dispatches(trace[..|trace| - 1]) + if trace[|trace| - 1].Dispatched? then [trace[|trace| - 1].m] else []
  }

  function AckIds(trace: seq<Effect>): seq<string> {
    if trace == [] then []
    else AckIds(trace[..|trace| - 1]) + if trace[|trace| - 1].AckSent? then [trace[|trace| - 1].id] else []
  }

  function PongIds(trace: seq<Effect>): seq<string> {
    if trace == [] then []
    else PongIds(trace[..|trace| - 1]) + if trace[|trace| - 1].PongSent? then [trace[|trace| - 1].id] else []
  }

  /** What a stream of frames is to deliver: its valid messages, the ordinary ones among them,
      and its pings. */
  function ValidMessages(r: Receiver, frames: seq<Payload>): seq<Message> {
    if frames == [] then []
    else
      var m := MessageIn(r, frames[|frames| - 1]);
      ValidMessages(r, frames[..|frames| - 1]) + if m.Some? then [m.value] else []
  }

  function Ordinary(ms: seq<Message>): seq<Message> {
    if ms == [] then []
    else Ordinary(ms[..|ms| - 1]) + if ms[|ms| - 1].replyTo.None? then [ms[|ms| - 1]] else []
  }

  function Ids(ms: seq<Message>): (ids: seq<string>)
    ensures |ids| == |ms| && forall i | 0 <= i < |ms| :: ids[i] == ms[i].id
  {
    seq(|ms|, i requires 0 <= i < |ms| => ms[i].id)
  }

  function PingIds(r: Receiver, frames: seq<Payload>): seq<string> {
    if frames == [] then []
    else
      var f := Accept(r.codec, r.session, frames[|frames| - 1]);
      PingIds(r, frames[..|frames| - 1]) + if f.Ok? && f.value.Ping? then [f.value.pingId] else []
  }

  lemma {:induction false} DispatchesAppend(a: seq<Effect>, b: seq<Effect>)
    ensures Dispatches(a + b) == Dispatches(a) + Dispatches(b)
    decreases |b|
  {
    if b == [] {
      assert a + b == a;
    } else {
      DispatchesAppend(a, b[..|b| - 1]);
      assert (a + b)[..|a + b| - 1] == a + b[..|b| - 1];
    }
  }

  lemma {:induction false} AckIdsAppend(a: seq<Effect>, b: seq<Effect>)
    ensures AckIds(a + b) == AckIds(a) + AckIds(b)
    decreases |b|
  {
    if b == [] {
      assert a + b == a;
    } else {
      AckIdsAppend(a, b[..|b| - 1]);
      assert (a + b)[..|a + b| - 1] == a + b[..|b| - 1];
    }
  }

  lemma {:induction false} PongIdsAppend(a: seq<Effect>, b: seq<Effect>)
    ensures PongIds(a + b) == PongIds(a) + PongIds(b)
    decreases |b|
  {
    if b == [] {
      assert a + b == a;
    } else {
      PongIdsAppend(a, b[..|b| - 1]);
      assert (a + b)[..|a + b| - 1] == a + b[..|b| - 1];
    }
  }

  lemma ProjectOne(e: Effect)
    ensures Dispatches([e]) == if e.Dispatched? then [e.m] else []
    ensures AckIds([e]) == if e.AckSent? then [e.id] else []
    ensures PongIds([e]) == if e.PongSent? then [e.id] else []
  {
    assert [e][..0] == [];
  }

  lemma ProjectTwo(e: Effect, f: Effect)
    ensures Dispatches([e, f]) == Dispatches([e]) + Dispatches([f])
    ensures AckIds([e, f]) == AckIds([e]) + AckIds([f])
    ensures PongIds([e, f]) == PongIds([e]) + PongIds([f])
  {
    assert [e, f] == [e] + [f];
    DispatchesAppend([e], [f]);
    AckIdsAppend([e], [f]);
    PongIdsAppend([e], [f]);
  }

  lemma MessageEffects(r: Receiver, frame: Payload)
    requires EffectsOf(r, frame).Some? && MessageIn(r, frame).Some?
    ensures var m := MessageIn(r, frame).value; var f := Accept(r.codec, r.session, frame);
            var last := if m.replyTo.Some? then ReplyResolved(m) else Dispatched(m);
            EffectsOf(r, frame).value == (if Acks(r) then [AckSent(m.id), last] else [last]) && f.Ok? && !f.value.Ping?
  {
  }

  lemma ControlEffects(r: Receiver, frame: Payload)
    requires EffectsOf(r, frame).Some? && MessageIn(r, frame).None?
    ensures var f := Accept(r.codec, r.session, frame); var es := EffectsOf(r, frame).value;
            f.Ok? && |es| == 1 && !es[0].Dispatched? && !es[0].AckSent?
            && (es[0].PongSent? <==> f.value.Ping?) && (f.value.Ping? ==> es[0].id == f.value.pingId)
  {
  }

  lemma MessageProjections(r: Receiver, frame: Payload)
    requires EffectsOf(r, frame).Some? && MessageIn(r, frame).Some?
    ensures var es := EffectsOf(r, frame).value; var m := MessageIn(r, frame).value;
            && Dispatches(es) == (if m.replyTo.None? then [m] else [])
            && AckIds(es) == (if Acks(r) then [m.id] else [])
            && PongIds(es) == []
  {
    var m := MessageIn(r, frame).value;
    var last := if m.replyTo.Some? then ReplyResolved(m) else Dispatched(m);
    MessageEffects(r, frame);
    ProjectOne(last);
    if Acks(r) {
      ProjectOne(AckSent(m.id));
      ProjectTwo(AckSent(m.id), last);
    }
  }

  lemma ControlProjections(r: Receiver, frame: Payload)
    requires EffectsOf(r, frame).Some? && MessageIn(r, frame).None?
    ensures var es := EffectsOf(r, frame).value;
            Dispatches(es) == [] && AckIds(es) == [] && PongIds(es) == PingIds(r, [frame])
  {
    var es := EffectsOf(r, frame).value;
    ControlEffects(r, frame);
    ProjectOne(es[0]);
    assert es == [es[0]] && PingIds(r, [frame][..0]) == [];
  }

  lemma FrameProjections(r: Receiver, frame: Payload)
    requires EffectsOf(r, frame).Some?
    ensures var es := EffectsOf(r, frame).value; var m := MessageIn(r, frame);
            && Dispatches(es) == (if m.Some? && m.value.replyTo.None? then [m.value] else [])
            && AckIds(es) == (if m.Some? && Acks(r) then [m.value.id] else [])
            && PongIds(es) == PingIds(r, [frame])
  {
    if MessageIn(r, frame).Some? {
      MessageEffects(r, frame);
      MessageProjections(r, frame);
      assert PingIds(r, [frame][..0]) == [];
    } else {
      ControlProjections(r, frame);
    }
  }

  function AsSeq(m: Option<Message>): seq<Message> {
    if m.Some? then [m.value] else []
  }

  lemma OneMoreMessage(ms: seq<Message>, m: Message)
    ensures Ordinary(ms + [m]) == Ordinary(ms) + if m.replyTo.None? then [m] else []
    ensures Ids(ms + [m]) == Ids(ms) + [m.id]
  {
    assert (ms + [m])[..|ms|] == ms;
  }

  lemma StepProjections(trace: seq<Effect>, es: seq<Effect>, ms: seq<Message>, m: Option<Message>, acks: bool)
    requires Dispatches(trace) == Ordinary(ms) && AckIds(trace) == if acks then Ids(ms) else []
    requires Dispatches(es) == if m.Some? && m.value.replyTo.None? then [m.value] else []
    requires AckIds(es) == if m.Some? && acks then [m.value.id] else []
    ensures Dispatches(trace + es) == Ordinary(ms + AsSeq(m))
    ensures AckIds(trace + es) == if acks then Ids(ms + AsSeq(m)) else []
  {
    DispatchesAppend(trace, es);
    AckIdsAppend(trace, es);
    if m.Some? {
      OneMoreMessage(ms, m.value);
    } else {
      assert ms + [] == ms;
    }
  }

  lemma UnfoldStream(r: Receiver, frames: seq<Payload>)
    requires frames != []
    ensures var init := frames[..|frames| - 1]; var frame := frames[|frames| - 1];
            && Flatten(r, frames) == Flatten(r, init) + EffectsOf(r, frame).GetOr([])
            && ValidMessages(r, frames) == ValidMessages(r, init) + AsSeq(MessageIn(r, frame))
  {
  }

  /** Refinement: over any accepted stream the dispatched messages are exactly its valid
      non-reply messages in order, and when ACKs were negotiated the ACKs are exactly its valid
      messages in order. */
  lemma {:induction false} ReaderRefinesStream(r: Receiver, frames: seq<Payload>)
    requires forall i | 0 <= i < |frames| :: EffectsOf(r, frames[i]).Some?
    ensures Dispatches(Flatten(r, frames)) == Ordinary(ValidMessages(r, frames))
    ensures AckIds(Flatten(r, frames)) == if Acks(r) then Ids(ValidMessages(r, frames)) else []
    decreases |frames|
  {
    if frames != [] {
      var init := frames[..|frames| - 1];
      var frame := frames[|frames| - 1];
      ReaderRefinesStream(r, init);
      FrameProjections(r, frame);
      UnfoldStream(r, frames);
      StepProjections(Flatten(r, init), EffectsOf(r, frame).value, ValidMessages(r, init), MessageIn(r, frame), Acks(r));
    }
  }

  /** The pongs are exactly the pings of the stream, in order. */
  lemma {:induction false} PongsRefineStream(r: Receiver, frames: seq<Payload>)
    requires forall i | 0 <= i < |frames| :: EffectsOf(r, frames[i]).Some?
    ensures PongIds(Flatten(r, frames)) == PingIds(r, frames)
    decreases |frames|
  {
    if frames != [] {
      var init := frames[..|frames| - 1];
      var frame := frames[|frames| - 1];
      PongsRefineStream(r, init);
      PongIdsAppend(Flatten(r, init), EffectsOf(r, frame).value);
      FrameProjections(r, frame);
      assert PingIds(r, [frame][..0]) == [];
    }
  }

  /** What one frame means for somebody waiting at this end, read off the decoded frame. */
  function ResolutionsOf(r: Receiver, frame: Payload): seq<Effect> {
    match DecodeSession(r.codec, frame, r.session.maxMessageSize)
    case Ok(Acknowledgement(messageId)) => [AckResolved(messageId)]
    case Ok(Pong(pingId)) => [PongResolved(pingId)]
    case Ok(Application(_)) =>
      var m := MessageIn(r, frame);
      if m.Some? && m.value.replyTo.Some? then [ReplyResolved(m.value)] else []
    case _ => []
  }

  function ResolutionsIn(r: Receiver, frames: seq<Payload>): seq<Effect> {
    if frames == [] then []
    else ResolutionsIn(r, frames[..|frames| - 1]) + ResolutionsOf(r, frames[|frames| - 1])
  }

  predicate Resolves(e: Effect) {
    e.AckResolved? || e.PongResolved? || e.ReplyResolved?
  }

  function Resolutions(trace: seq<Effect>): seq<Effect> {
    if trace == [] then []
    else Resolutions(trace[..|trace| - 1]) + if Resolves(trace[|trace| - 1]) then [trace[|trace| - 1]] else []
  }

  lemma {:induction false} ResolutionsAppend(a: seq<Effect>, b: seq<Effect>)
    ensures Resolutions(a + b) == Resolutions(a) + Resolutions(b)
    decreases |b|
  {
    if b == [] {
      assert a + b == a;
    } else {
      ResolutionsAppend(a, b[..|b| - 1]);
      assert (a + b)[..|a + b| - 1] == a + b[..|b| - 1];
    }
  }

  /** A frame resolves exactly what it is: an ACK frame the ACK of its message, a PONG the heartbeat
      of its id, a reply the request it answers. */
  lemma FrameResolutions(r: Receiver, frame: Payload)
    requires EffectsOf(r, frame).Some?
    ensures Resolutions(EffectsOf(r, frame).value) == ResolutionsOf(r, frame)
  {
    var es := EffectsOf(r, frame).value;
    var last := es[|es| - 1];
    ResolutionsAppend(es[..|es| - 1], [last]);
    assert es == es[..|es| - 1] + [last] && [last][..0] == [];
    if |es| == 2 { assert es[..1][..0] == [] && es[..1] == [es[0]]; }
  }

  /** Over any accepted stream, what is resolved is exactly what its ACKs, PONGs and replies mean,
      in order. */
  lemma {:induction false} ResolutionsRefineStream(r: Receiver, frames: seq<Payload>)
    requires forall i | 0 <= i < |frames| :: EffectsOf(r, frames[i]).Some?
    ensures Resolutions(Flatten(r, frames)) == ResolutionsIn(r, frames)
    decreases |frames|
  {
    if frames != [] {
      var init := frames[..|frames| - 1];
      var frame := frames[|frames| - 1];
      ResolutionsRefineStream(r, init);
      ResolutionsAppend(Flatten(r, init), EffectsOf(r, frame).value);
      FrameResolutions(r, frame);
    }
  }

  /** Exactly which frames carry a message: application data within the limit that deserializes to
      an envelope with a type, an id, string headers, the session peer as sender, this node or
      nobody as recipient, and a reply id that is a non-empty string or absent. */
  lemma MessagesAreExact(r: Receiver, frame: Payload, m: Message)
    requires r.session.peerId != "" && r.me != ""
    ensures MessageIn(r, frame) == Some(m) <==>
            && frame != [] && frame[0] == APPLICATION_FRAME && |frame| - 1 <= r.session.maxMessageSize
            && r.deserialize(frame[1..]) == Some(m)
            && m.kind != "" && m.id != "" && m.headersAreStrings && m.sender == Some(r.session.peerId)
            && m.recipient in {None, Some(r.me)} && m.replyTo != Some("")
  {
  }

  /** Exactly which frames the loop accepts: messages as above, and the controls that decode and
      were negotiated. */
  lemma AcceptableFramesAreExact(r: Receiver, frame: Payload)
    ensures EffectsOf(r, frame).Some? <==>
            var f := DecodeSession(r.codec, frame, r.session.maxMessageSize);
            f.Ok? && match f.value
                     case Application(_) => MessageIn(r, frame).Some?
                     case Acknowledgement(_) => TECHNICAL_ACK_CAPABILITY in r.session.capabilities
                     case _ => HEARTBEAT_CAPABILITY in r.session.capabilities
  {
  }

  /** Every dispatched message comes from the session peer, is addressed to this node or nobody,
      and is no reply. */
  lemma {:induction false} DispatchedIsTrusted(r: Receiver, frames: seq<Payload>, k: nat)
    requires forall i | 0 <= i < |frames| :: EffectsOf(r, frames[i]).Some?
    requires k < |Flatten(r, frames)| && Flatten(r, frames)[k].Dispatched?
    ensures var m := Flatten(r, frames)[k].m;
            m.sender == Some(r.session.peerId) && (m.recipient.None? || m.recipient == Some(r.me)) && m.replyTo.None?
    decreases |frames|
  {
    var init := frames[..|frames| - 1];
    if k < |Flatten(r, init)| { DispatchedIsTrusted(r, init, k); }
  }

  /** A message is acknowledged before it is dispatched: its ACK is the effect right before it. */
  lemma {:induction false} AckComesFirst(r: Receiver, frames: seq<Payload>, k: nat)
    requires Acks(r) && forall i | 0 <= i < |frames| :: EffectsOf(r, frames[i]).Some?
    requires k < |Flatten(r, frames)| && Flatten(r, frames)[k].Dispatched?
    ensures k > 0 && Flatten(r, frames)[k - 1] == AckSent(Flatten(r, frames)[k].m.id)
    decreases |frames|
  {
    var init := frames[..|frames| - 1];
    if k < |Flatten(r, init)| { AckComesFirst(r, init, k); }
  }
}
