/** Paqto frames, the hello exchange and the session both ends derive from it.  The JSON text
    layer is a parameter: `dumps` may refuse a value, `parse` may refuse a text. */
module Protocol {
  import opened Wrappers
  import opened Bytes
  import opened JsonValues

  const PROTOCOL_MAGIC := "PAQTO"
  const TECHNICAL_ACK_CAPABILITY := "paqto.ack.v1"
  const HEARTBEAT_CAPABILITY := "paqto.heartbeat.v1"
  const CONTROL_FRAME: Byte := 0
  const APPLICATION_FRAME: Byte := 1
  const MAX_CONTROL_PAYLOAD_SIZE := 65536
  const MAX_JSON_NESTING := 32
  const MAX_JSON_INTEGER_BITS := 4096

  type Payload = seq<Byte>

  /** `parse` keeps every member of an object, repeated names included. */
  datatype Codec = Codec(dumps: Json -> Option<Payload>, parse: Payload -> Option<Json>)

  // ----- what JSON text does to a value --------------------------------------------------

  predicate NoAlien(v: Json)
    decreases v
  {
    !v.Alien? && var cs := Children(v); forall i | 0 <= i < |cs| :: NoAlien(cs[i])
  }

  /** A value JSON text carries unchanged. */
  predicate Plain(v: Json) {
    NoAlien(v) && NamedKeys(v) && Unambiguous(v)
  }

  /** What comes back for a value: keys have become their text, and an alien may have become
      anything (a tuple becomes a list). */
  predicate Survives(v: Json, w: Json)
    decreases v
  {
    match v
    case Alien => true
    case List(items) =>
      w.List? && |w.items| == |items| && forall i | 0 <= i < |items| :: Survives(items[i], w.items[i])
    case Object(members) =>
      && w.Object? && |w.members| == |members|
      && (forall i | 0 <= i < |members| :: w.members[i].key == Name(Label(members[i].key)))
      && forall i | 0 <= i < |members| :: Survives(members[i].value, w.members[i].value)
    case _ => w == v
  }

  /** All the model needs of JSON text: what is parsed is what was dumped, as far as text can
      carry it, and the text of a safe value parses. */
  ghost predicate Faithful(codec: Codec) {
    forall v: Json, text: Payload | codec.dumps(v) == Some(text) :: ParsesBack(codec, v, text)
  }

  ghost predicate ParsesBack(codec: Codec, v: Json, text: Payload) {
    && (codec.parse(text).Some? ==> Survives(v, codec.parse(text).value))
    && (NoAlien(v) && IsSafe(v) ==> codec.parse(text).Some?)
  }

  /** `json.loads` with the duplicate test as its object hook. */
  function Loads(codec: Codec, text: Payload): Option<Json> {
    match codec.parse(text)
    case None => None
    case Some(w) => if Unambiguous(w) then Some(w) else None
  }

  /** Text neither hides nor creates a clash of keys: two keys of one text end up as one name. */
  lemma {:induction false} SurvivesAmbiguity(v: Json, w: Json)
    requires NoAlien(v) && Survives(v, w)
    ensures Unambiguous(v) <==> Unambiguous(w)
    decreases v
  {
    var (cs, ds) := (Children(v), Children(w));
    if v.List? || v.Object? {
      forall i | 0 <= i < |cs| ensures Unambiguous(cs[i]) <==> Unambiguous(ds[i]) { SurvivesAmbiguity(cs[i], ds[i]); }
      if v.Object? {
        assert forall i | 0 <= i < |v.members| :: Label(w.members[i].key) == Label(v.members[i].key);
      }
    }
  }

  lemma {:induction false} SurvivesUnchanged(v: Json, w: Json)
    requires NoAlien(v) && NamedKeys(v) && Survives(v, w)
    ensures w == v
    decreases v
  {
    match v
    case List(items) =>
      forall i | 0 <= i < |items| ensures w.items[i] == items[i] {
        assert Children(v)[i] == items[i];
        SurvivesUnchanged(items[i], w.items[i]);
      }
    case Object(members) =>
      forall i | 0 <= i < |members| ensures w.members[i] == members[i] {
        assert Children(v)[i] == members[i].value;
        SurvivesUnchanged(members[i].value, w.members[i].value);
      }
    case _ =>
  }

  lemma {:induction false} SurvivesSafely(v: Json, w: Json, depth: nat)
    requires NoAlien(v) && Survives(v, w)
    ensures Safe(v, depth, MAX_JSON_NESTING, MAX_JSON_INTEGER_BITS)
            <==> Safe(w, depth, MAX_JSON_NESTING, MAX_JSON_INTEGER_BITS)
    decreases v
  {
    var (cs, ds) := (Children(v), Children(w));
    if v.List? || v.Object? {
      assert |cs| == |ds|;
      forall i | 0 <= i < |cs|
        ensures Safe(cs[i], depth + 1, MAX_JSON_NESTING, MAX_JSON_INTEGER_BITS)
                <==> Safe(ds[i], depth + 1, MAX_JSON_NESTING, MAX_JSON_INTEGER_BITS)
      {
        SurvivesSafely(cs[i], ds[i], depth + 1);
      }
    }
  }

  datatype Error =
    | FrameError
    | HandshakeError
    | HandshakeTimeout
    | HandshakeCancelled
    | VersionError
    | IdentityMismatch
    | AuthenticationError

  function Get(members: seq<Member>, key: string): Option<Json> {
    if members == [] then None
    else if members[0].key == Name(key) then Some(members[0].value)
    else Get(members[1..], key)
  }

  function Field(key: string, value: Json): Member {
    Member(Name(key), value)
  }

  function IsSafe(v: Json): bool {
    Safe(v, 0, MAX_JSON_NESTING, MAX_JSON_INTEGER_BITS)
  }

  function EncodeControl(codec: Codec, v: Json): Result<Payload, Error> {
    if !IsSafe(v) then Err(FrameError)
    else match codec.dumps(v)
      case None => Err(FrameError)
      case Some(text) => if |text| > MAX_CONTROL_PAYLOAD_SIZE then Err(FrameError) else Ok([CONTROL_FRAME] + text)
  }

  function DecodeControl(codec: Codec, payload: Payload): Result<seq<Member>, Error> {
    if |payload| > MAX_CONTROL_PAYLOAD_SIZE then Err(FrameError)
    else match Loads(codec, payload)
      case None => Err(FrameError)
      case Some(v) => if v.Object? && IsSafe(v) then Ok(v.members) else Err(FrameError)
  }

  /** Every control object that can be encoded comes back as text carries it, is refused at the
      other end exactly when it is ambiguous, and comes back unchanged when it is plain. */
  lemma ControlRoundTrip(codec: Codec, v: Json)
    requires Faithful(codec) && v.Object? && EncodeControl(codec, v).Ok?
    ensures var frame := EncodeControl(codec, v).value;
            frame != [] && frame[0] == CONTROL_FRAME && |frame[1..]| <= MAX_CONTROL_PAYLOAD_SIZE
    ensures var r := DecodeControl(codec, EncodeControl(codec, v).value[1..]);
            && (r.Ok? ==> Survives(v, Object(r.value)))
            && (NoAlien(v) ==> (r.Ok? <==> Unambiguous(v)))
            && (Plain(v) ==> r == Ok(v.members))
  {
    var text := codec.dumps(v).value;
    assert EncodeControl(codec, v).value[1..] == text;
    assert ParsesBack(codec, v, text);
    if codec.parse(text).Some? {
      var w := codec.parse(text).value;
      assert w == Object(w.members);
      if NoAlien(v) {
        SurvivesSafely(v, w, 0);
        SurvivesAmbiguity(v, w);
        if NamedKeys(v) { SurvivesUnchanged(v, w); }
      }
    }
  }

  // ----- READY-session frames ------------------------------------------------------------

  datatype SessionFrame =
    | Application(data: Payload)
    | Acknowledgement(messageId: string)
    | Ping(pingId: string)
    | Pong(pingId: string)

  function EncodeApplication(data: Payload, maxMessageSize: nat): Result<Payload, Error> {
    if |data| > maxMessageSize then Err(FrameError) else Ok([APPLICATION_FRAME] + data)
  }

  function ControlValue(kind: string, idField: string, id: string): Json {
    Object([Field("magic", Text(PROTOCOL_MAGIC)), Field("type", Text(kind)), Field(idField, Text(id))])
  }

  /** The three control encoders; an empty id is refused by the frame classes. */
  function EncodeSessionControl(codec: Codec, frame: SessionFrame): Result<Payload, Error>
    requires !frame.Application?
  {
    match frame
    case Acknowledgement(id) => if id == "" then Err(FrameError) else EncodeControl(codec, ControlValue("ack", "message_id", id))
    case Ping(id) => if id == "" then Err(FrameError) else EncodeControl(codec, ControlValue("ping", "ping_id", id))
    case Pong(id) => if id == "" then Err(FrameError) else EncodeControl(codec, ControlValue("pong", "ping_id", id))
  }

  function IdIn(members: seq<Member>, key: string): Option<string> {
    match Get(members, key)
    case Some(Text(id)) => if id == "" then None else Some(id)
    case _ => None
  }

  function DecodeSession(codec: Codec, frame: Payload, maxMessageSize: nat): Result<SessionFrame, Error> {
    if frame == [] then Err(FrameError)
    else if frame[0] == APPLICATION_FRAME then
      if |frame[1..]| > maxMessageSize then Err(FrameError) else Ok(Application(frame[1..]))
    else if frame[0] != CONTROL_FRAME then Err(FrameError)
    else match DecodeControl(codec, frame[1..])
      case Err(e) => Err(e)
      case Ok(raw) =>
        if Get(raw, "magic") != Some(Text(PROTOCOL_MAGIC)) then Err(FrameError)
        else
          match Get(raw, "type")
          case Some(Text(kind)) =>
            if kind == "ack" then
              match IdIn(raw, "message_id")
              case Some(id) => Ok(Acknowledgement(id))
              case None => Err(FrameError)
            else if kind == "ping" || kind == "pong" then
              match IdIn(raw, "ping_id")
              case Some(id) => Ok(if kind == "ping" then Ping(id) else Pong(id))
              case None => Err(FrameError)
            else Err(FrameError)
          case _ => Err(FrameError)
  }

  lemma ApplicationRoundTrip(codec: Codec, data: Payload, senderLimit: nat, receiverLimit: nat)
    requires EncodeApplication(data, senderLimit).Ok? && senderLimit <= receiverLimit
    ensures DecodeSession(codec, EncodeApplication(data, senderLimit).value, receiverLimit) == Ok(Application(data))
  {
    assert ([APPLICATION_FRAME] + data)[1..] == data;
  }

  lemma {:induction false} GetAt(members: seq<Member>, key: string, i: nat)
    requires i < |members| && members[i].key == Name(key)
    requires forall j | 0 <= j < i :: members[j].key != Name(key)
    ensures Get(members, key) == Some(members[i].value)
    decreases i
  {
    if i > 0 { GetAt(members[1..], key, i - 1); }
  }

  lemma ControlValueFields(kind: string, idField: string, id: string)
    requires idField != "magic" && idField != "type"
    ensures var members := ControlValue(kind, idField, id).members;
            && Get(members, "magic") == Some(Text(PROTOCOL_MAGIC)) && Get(members, "type") == Some(Text(kind))
            && Get(members, idField) == Some(Text(id)) && Plain(ControlValue(kind, idField, id))
  {
    var members := ControlValue(kind, idField, id).members;
    GetAt(members, "magic", 0);
    GetAt(members, "type", 1);
    GetAt(members, idField, 2);
  }

  lemma SessionControlRoundTrip(codec: Codec, frame: SessionFrame, maxMessageSize: nat)
    requires Faithful(codec) && !frame.Application? && EncodeSessionControl(codec, frame).Ok?
    ensures DecodeSession(codec, EncodeSessionControl(codec, frame).value, maxMessageSize) == Ok(frame)
  {
    var idField := if frame.Acknowledgement? then "message_id" else "ping_id";
    var kind := if frame.Acknowledgement? then "ack" else if frame.Ping? then "ping" else "pong";
    var id := if frame.Acknowledgement? then frame.messageId else frame.pingId;
    ControlValueFields(kind, idField, id);
    ControlRoundTrip(codec, ControlValue(kind, idField, id));
  }

  /** Looking a key up finds the value stored under exactly that name. */
  lemma {:induction false} GetIsLookup(members: seq<Member>, key: string, v: Json)
    requires DistinctKeys(members) && forall i | 0 <= i < |members| :: members[i].key.Name?
    ensures Get(members, key) == Some(v) <==> Member(Name(key), v) in members
    decreases |members|
  {
    if members != [] {
      assert members == [members[0]] + members[1..];
      GetIsLookup(members[1..], key, v);
      if members[0].key == Name(key) {
        forall i | 1 <= i < |members| ensures members[i].key != Name(key) {
          assert Label(members[0].key) != Label(members[i].key);
        }
      }
    }
  }

  /** Exactly what can be sent: application data within the limit, and safe control values whose
      text exists and fits. */
  lemma EncodersAreExact(codec: Codec, data: Payload, limit: nat, v: Json, frame: Payload)
    ensures EncodeApplication(data, limit) == Ok(frame) <==> |data| <= limit && frame == [1] + data
    ensures EncodeControl(codec, v) == Ok(frame) <==>
            && Safe(v, 0, 32, 4096) && codec.dumps(v).Some? && |codec.dumps(v).value| <= 65536
            && frame == [0] + codec.dumps(v).value
  {
  }

  /** Exactly which bytes an end takes as an application frame or as a control of each kind. */
  lemma DecoderIsExact(codec: Codec, frame: Payload, limit: nat, data: Payload, id: string)
    ensures DecodeSession(codec, frame, limit) == Ok(Application(data)) <==> frame == [1] + data && |data| <= limit
    ensures DecodeSession(codec, frame, limit) == Ok(Acknowledgement(id)) <==>
            CarriesControl(codec, frame, "ack", "message_id", id)
    ensures DecodeSession(codec, frame, limit) == Ok(Ping(id)) <==> CarriesControl(codec, frame, "ping", "ping_id", id)
    ensures DecodeSession(codec, frame, limit) == Ok(Pong(id)) <==> CarriesControl(codec, frame, "pong", "ping_id", id)
  {
    if frame != [] && frame[0] == 1 {
      assert frame == [1] + frame[1..] && ([1] + data)[1..] == data;
    } else {
      assert ([1] + data)[0] == 1;
      ControlFrameIsExact(codec, frame, limit, id);
    }
  }

  lemma ControlFrameIsExact(codec: Codec, frame: Payload, limit: nat, id: string)
    requires frame == [] || frame[0] != 1
    ensures var r := DecodeSession(codec, frame, limit);
            && (r.Ok? ==> !r.value.Application?)
            && (r == Ok(Acknowledgement(id)) <==> CarriesControl(codec, frame, "ack", "message_id", id))
            && (r == Ok(Ping(id)) <==> CarriesControl(codec, frame, "ping", "ping_id", id))
            && (r == Ok(Pong(id)) <==> CarriesControl(codec, frame, "pong", "ping_id", id))
  {
    assert |"ack"| == 3 && |"ping"| == |"pong"| == 4 && "ping"[1] != "pong"[1];
  }

  /** A control frame with the protocol's magic, a type, and a non-empty id in its own field. */
  predicate CarriesControl(codec: Codec, frame: Payload, kind: string, idField: string, id: string) {
    frame != [] && frame[0] == 0 && DecodeControl(codec, frame[1..]).Ok?
    && var raw := DecodeControl(codec, frame[1..]).value;
       && Get(raw, "magic") == Some(Text("PAQTO")) && Get(raw, "type") == Some(Text(kind))
       && Get(raw, idField) == Some(Text(id)) && id != ""
  }

  /** Exactly which control payloads decode: bounded texts of unambiguous, safe objects. */
  lemma ControlDecoderIsExact(codec: Codec, payload: Payload, raw: seq<Member>)
    ensures DecodeControl(codec, payload) == Ok(raw) <==>
            && |payload| <= 65536 && codec.parse(payload) == Some(Object(raw))
            && Unambiguous(Object(raw)) && Safe(Object(raw), 0, 32, 4096)
  {
  }

  /** Whatever is refused between READY peers is refused as a frame error. */
  lemma RefusalsAreFrameErrors(codec: Codec, v: Json, payload: Payload, limit: nat, f: SessionFrame)
    ensures EncodeControl(codec, v).Err? ==> EncodeControl(codec, v).error == FrameError
    ensures EncodeApplication(payload, limit).Err? ==> EncodeApplication(payload, limit).error == FrameError
    ensures !f.Application? && EncodeSessionControl(codec, f).Err? ==> EncodeSessionControl(codec, f).error == FrameError
    ensures DecodeControl(codec, payload).Err? ==> DecodeControl(codec, payload).error == FrameError
    ensures DecodeSession(codec, payload, limit).Err? ==> DecodeSession(codec, payload, limit).error == FrameError
  {
  }

  // ----- hello ---------------------------------------------------------------------------

  datatype Offer = Offer(peerId: string, serializerId: string, version: int, capabilities: seq<string>,
                         maxMessageSize: int, metadata: seq<Member>)

  predicate DistinctNames(names: seq<string>) {
    forall i, j | 0 <= i < j < |names| :: names[i] != names[j]
  }

  /** What `HandshakeOffer` enforces on construction. */
  predicate ValidOffer(o: Offer) {
    && o.peerId != "" && o.serializerId != "" && o.version >= 1 && o.maxMessageSize > 0
    && (forall i | 0 <= i < |o.capabilities| :: o.capabilities[i] != "") && DistinctNames(o.capabilities)
  }

  function HelloValue(o: Offer): Json {
    Object([
      Field("magic", Text(PROTOCOL_MAGIC)),
      Field("type", Text("hello")),
      Field("version", Integer(o.version)),
      Field("peer_id", Text(o.peerId)),
      Field("capabilities", List(seq(|o.capabilities|, i requires 0 <= i < |o.capabilities| => Text(o.capabilities[i])))),
      Field("serializer", Text(o.serializerId)),
      Field("max_message_size", Integer(o.maxMessageSize)),
      Field("metadata", Object(o.metadata))
    ])
  }

  function EncodeHello(codec: Codec, o: Offer): Result<Payload, Error> {
    match EncodeControl(codec, HelloValue(o))
    case Ok(frame) => Ok(frame)
    case Err(_) => Err(HandshakeError)
  }

  /** A hello can be sent exactly when its control object can be encoded; anything else is a failed
      handshake. */
  lemma HelloEncoderIsExact(codec: Codec, o: Offer, frame: Payload)
    ensures EncodeHello(codec, o) == Ok(frame) <==> EncodeControl(codec, HelloValue(o)) == Ok(frame)
    ensures EncodeHello(codec, o).Err? ==> EncodeHello(codec, o).error == HandshakeError
  {
  }

  /** The strings of a list, or None when an item is not a non-empty string. */
  function Names(items: seq<Json>): Option<seq<string>> {
    if forall i | 0 <= i < |items| :: items[i].Text? && items[i].s != ""
    then Some(seq(|items|, i requires 0 <= i < |items| => if items[i].Text? then items[i].s else ""))
    else None
  }

  function OfferFrom(raw: seq<Member>): Option<Offer> {
    match (Get(raw, "version"), Get(raw, "peer_id"), Get(raw, "serializer"), Get(raw, "capabilities"),
           Get(raw, "max_message_size"), Get(raw, "metadata"))
    case (Some(Integer(version)), Some(Text(peerId)), Some(Text(serializerId)), Some(List(items)),
          Some(Integer(maxMessageSize)), Some(Object(metadata))) =>
      (match Names(items)
       case Some(capabilities) =>
         var o := Offer(peerId, serializerId, version, capabilities, maxMessageSize, metadata);
         if ValidOffer(o) then Some(o) else None
       case None => None)
    case _ => None
  }

  function DecodeHello(codec: Codec, frame: Payload): (r: Result<Offer, Error>)
    ensures r.Ok? ==> ValidOffer(r.value)
    ensures r.Err? ==> r.error == HandshakeError
  {
    if frame == [] || frame[0] != CONTROL_FRAME || |frame[1..]| > MAX_CONTROL_PAYLOAD_SIZE then Err(HandshakeError)
    else match DecodeControl(codec, frame[1..])
      case Err(_) => Err(HandshakeError)
      case Ok(raw) =>
        if Get(raw, "magic") != Some(Text(PROTOCOL_MAGIC)) || Get(raw, "type") != Some(Text("hello")) then Err(HandshakeError)
        else match OfferFrom(raw)
          case Some(o) => Ok(o)
          case None => Err(HandshakeError)
  }

  lemma NamesAreExact(items: seq<Json>, names: seq<string>)
    ensures Names(items) == Some(names) <==>
            |items| == |names| && forall i | 0 <= i < |items| :: items[i] == Text(names[i]) && names[i] != ""
  {
    if Names(items).Some? && |items| == |names| && forall i | 0 <= i < |items| :: items[i] == Text(names[i]) {
      assert Names(items).value == names;
    }
    if |items| == |names| && forall i | 0 <= i < |items| :: items[i] == Text(names[i]) && names[i] != "" {
      assert Names(items).Some? && Names(items).value == names;
    }
  }

  /** Exactly which frames are the hello of an offer: the six fields with their types, a version
      from one, non-empty ids, a positive limit, and distinct non-empty capability names. */
  lemma HelloDecoderIsExact(codec: Codec, frame: Payload, o: Offer)
    ensures DecodeHello(codec, frame) == Ok(o) <==>
            && frame != [] && frame[0] == 0 && DecodeControl(codec, frame[1..]).Ok?
            && IsHelloOf(DecodeControl(codec, frame[1..]).value, o)
  {
    if frame != [] && frame[0] == 0 && DecodeControl(codec, frame[1..]).Ok? {
      var raw := DecodeControl(codec, frame[1..]).value;
      if Get(raw, "capabilities").Some? && Get(raw, "capabilities").value.List? {
        NamesAreExact(Get(raw, "capabilities").value.items, o.capabilities);
        var caps := Names(Get(raw, "capabilities").value.items);
        if caps.Some? { NamesAreExact(Get(raw, "capabilities").value.items, caps.value); }
      }
    }
  }

  predicate IsHelloOf(raw: seq<Member>, o: Offer) {
    && Get(raw, "magic") == Some(Text("PAQTO")) && Get(raw, "type") == Some(Text("hello"))
    && Get(raw, "version") == Some(Integer(o.version)) && o.version >= 1
    && Get(raw, "peer_id") == Some(Text(o.peerId)) && o.peerId != ""
    && Get(raw, "serializer") == Some(Text(o.serializerId)) && o.serializerId != ""
    && Get(raw, "max_message_size") == Some(Integer(o.maxMessageSize)) && o.maxMessageSize > 0
    && Get(raw, "metadata") == Some(Object(o.metadata))
    && Get(raw, "capabilities").Some? && Get(raw, "capabilities").value.List?
    && var items := Get(raw, "capabilities").value.items;
       && |items| == |o.capabilities|
       && (forall i | 0 <= i < |items| :: items[i] == Text(o.capabilities[i]) && o.capabilities[i] != "")
       && forall i, j | 0 <= i < j < |items| :: o.capabilities[i] != o.capabilities[j]
  }

  lemma HelloKeysDiffer(o: Offer)
    ensures var members := HelloValue(o).members;
            forall i, j | 0 <= i < j < |members| :: Label(members[i].key) != Label(members[j].key)
  {
  }

  /** Whatever is special about a hello is special about its metadata. */
  lemma HelloIsItsMetadata(o: Offer)
    ensures NoAlien(HelloValue(o)) <==> NoAlien(Object(o.metadata))
    ensures NamedKeys(HelloValue(o)) <==> NamedKeys(Object(o.metadata))
    ensures Unambiguous(HelloValue(o)) <==> Unambiguous(Object(o.metadata))
  {
    var v := HelloValue(o);
    var cs := Children(v);
    HelloKeysDiffer(o);
    HelloListIsPlain(o);
    assert cs[7] == Object(o.metadata);
    forall i | 0 <= i < |cs| && i != 7 ensures NoAlien(cs[i]) && NamedKeys(cs[i]) && Unambiguous(cs[i]) {
      assert cs[i] == v.members[i].value;
      assert i == 4 || cs[i].Text? || cs[i].Integer?;
    }
    assert forall i | 0 <= i < |v.members| :: v.members[i].key.Name?;
  }

  lemma HelloListIsPlain(o: Offer)
    ensures var list := HelloValue(o).members[4].value; NoAlien(list) && NamedKeys(list) && Unambiguous(list)
  {
    var cs := Children(HelloValue(o).members[4].value);
    assert forall i | 0 <= i < |cs| :: cs[i].Text?;
  }

  lemma MembersSurvive(members: seq<Member>, raw: seq<Member>, i: nat)
    requires Survives(Object(members), Object(raw)) && i < |members|
    ensures |raw| == |members| && raw[i].key == Name(Label(members[i].key))
    ensures Survives(members[i].value, raw[i].value)
  {
  }

  lemma HelloMembersSurvive(o: Offer, raw: seq<Member>)
    requires Survives(HelloValue(o), Object(raw))
    ensures |raw| == 8 && raw[0].key == Name("magic") && raw[1].key == Name("type") && raw[2].key == Name("version")
    ensures raw[3].key == Name("peer_id") && raw[4].key == Name("capabilities") && raw[5].key == Name("serializer")
    ensures raw[6].key == Name("max_message_size") && raw[7].key == Name("metadata")
    ensures forall i | 0 <= i < 8 :: Survives(HelloValue(o).members[i].value, raw[i].value)
  {
    var members := HelloValue(o).members;
    forall i: nat | i < 8
      ensures |raw| == 8 && raw[i].key == Name(Label(members[i].key)) && Survives(members[i].value, raw[i].value)
    {
      MembersSurvive(members, raw, i);
    }
    MembersSurvive(members, raw, 0);
  }

  /** The fields of anything a hello survives as: all of the offer but the metadata. */
  lemma HelloFields(o: Offer, raw: seq<Member>)
    requires Survives(HelloValue(o), Object(raw))
    ensures |raw| == 8 && Survives(Object(o.metadata), raw[7].value)
    ensures Get(raw, "magic") == Some(Text(PROTOCOL_MAGIC)) && Get(raw, "type") == Some(Text("hello"))
    ensures Get(raw, "version") == Some(Integer(o.version)) && Get(raw, "peer_id") == Some(Text(o.peerId))
    ensures Get(raw, "capabilities") == Some(HelloValue(o).members[4].value)
    ensures Get(raw, "serializer") == Some(Text(o.serializerId))
    ensures Get(raw, "max_message_size") == Some(Integer(o.maxMessageSize))
    ensures Get(raw, "metadata") == Some(raw[7].value)
  {
    HelloMembersSurvive(o, raw);
    ScalarFields(raw);
    HelloListIsPlain(o);
    SurvivesUnchanged(HelloValue(o).members[4].value, raw[4].value);
  }

  /** Looking the eight hello keys up in their order. */
  lemma ScalarFields(raw: seq<Member>)
    requires |raw| == 8 && raw[0].key == Name("magic") && raw[1].key == Name("type") && raw[2].key == Name("version")
    requires raw[3].key == Name("peer_id") && raw[4].key == Name("capabilities") && raw[5].key == Name("serializer")
    requires raw[6].key == Name("max_message_size") && raw[7].key == Name("metadata")
    ensures Get(raw, "magic") == Some(raw[0].value) && Get(raw, "type") == Some(raw[1].value)
    ensures Get(raw, "version") == Some(raw[2].value) && Get(raw, "peer_id") == Some(raw[3].value)
    ensures Get(raw, "capabilities") == Some(raw[4].value) && Get(raw, "serializer") == Some(raw[5].value)
    ensures Get(raw, "max_message_size") == Some(raw[6].value) && Get(raw, "metadata") == Some(raw[7].value)
  {
    GetAt(raw, "magic", 0);
    GetAt(raw, "type", 1);
    GetAt(raw, "version", 2);
    GetAt(raw, "peer_id", 3);
    GetAt(raw, "capabilities", 4);
    GetAt(raw, "serializer", 5);
    GetAt(raw, "max_message_size", 6);
    GetAt(raw, "metadata", 7);
  }

  lemma SurvivingHelloIsOffer(o: Offer, raw: seq<Member>)
    requires ValidOffer(o) && Survives(HelloValue(o), Object(raw))
    ensures |raw| == 8 && raw[7].value.Object? && OfferFrom(raw) == Some(o.(metadata := raw[7].value.members))
  {
    HelloFields(o, raw);
    var items := HelloValue(o).members[4].value.items;
    assert Names(items).Some? && Names(items).value == o.capabilities;
  }

  /** A hello whose control object survives in any form is decoded as the offer it carries. */
  lemma SurvivingHelloDecodes(codec: Codec, o: Offer, frame: Payload)
    requires ValidOffer(o) && frame != [] && frame[0] == CONTROL_FRAME && |frame[1..]| <= MAX_CONTROL_PAYLOAD_SIZE
    requires DecodeControl(codec, frame[1..]).Ok? ==> Survives(HelloValue(o), Object(DecodeControl(codec, frame[1..]).value))
    ensures DecodeHello(codec, frame).Ok? <==> DecodeControl(codec, frame[1..]).Ok?
    ensures var r := DecodeHello(codec, frame);
            r.Ok? ==> r.value == o.(metadata := r.value.metadata) && Survives(Object(o.metadata), Object(r.value.metadata))
  {
    var decoded := DecodeControl(codec, frame[1..]);
    if decoded.Ok? {
      HelloFields(o, decoded.value);
      SurvivingHelloIsOffer(o, decoded.value);
    }
  }

  /** Every hello that a valid offer can be encoded to: what the other end decodes is the offer,
      with its metadata as text carries it.  It is refused exactly when the metadata is ambiguous,
      and plain metadata arrives unchanged. */
  lemma HelloRoundTrip(codec: Codec, o: Offer)
    requires Faithful(codec) && ValidOffer(o) && EncodeHello(codec, o).Ok?
    ensures var r := DecodeHello(codec, EncodeHello(codec, o).value);
            && (r.Ok? ==> r.value == o.(metadata := r.value.metadata)
                          && Survives(Object(o.metadata), Object(r.value.metadata)))
            && (NoAlien(Object(o.metadata)) ==> (r.Ok? <==> Unambiguous(Object(o.metadata))))
            && (Plain(Object(o.metadata)) ==> r == Ok(o))
  {
    var frame := EncodeHello(codec, o).value;
    ControlRoundTrip(codec, HelloValue(o));
    HelloIsItsMetadata(o);
    SurvivingHelloDecodes(codec, o, frame);
    var r := DecodeHello(codec, frame);
    if r.Ok? && Plain(Object(o.metadata)) { SurvivesUnchanged(Object(o.metadata), Object(r.value.metadata)); }
  }

  /** Metadata the node accepts and encodes, and every peer refuses. */
  lemma MixedKeysAreRefused(codec: Codec, o: Offer, v: Json, w: Json)
    requires Faithful(codec) && ValidOffer(o) && EncodeHello(codec, o).Ok? && NoAlien(v) && NoAlien(w)
    requires o.metadata == [Member(Other("1"), v), Member(Name("1"), w)]
    ensures DecodeHello(codec, EncodeHello(codec, o).value) == Err(HandshakeError)
  {
    var metadata := Object(o.metadata);
    assert Children(metadata) == [v, w];
    assert Label(metadata.members[0].key) == Label(metadata.members[1].key);
    HelloRoundTrip(codec, o);
  }
}
