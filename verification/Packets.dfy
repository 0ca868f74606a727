/**
 PUBLISH and the four acknowledgement packets, in the MQTT 3.1.1 and MQTT 5.0 dialects, between
 their fields and their frames.
 */
module Packets {
  import opened Wrappers
  import opened Bytes
  import opened Wire
  import opened Properties
  import opened PropertyCodec
  import Topic

  datatype Version = V311 | V50 | Unsupported(level: byte)

  const TOPIC_ALIAS: byte := 0x23

  datatype PublishPacket = PublishPacket(
    version: Version,
    topic: bytes,
    payload: bytes,
    qos: byte,
    retain: bool,
    dup: bool,
    id: uint16,
    props: Option<Properties>)

  datatype AckPacket = AckPacket(version: Version, kind: nat, id: uint16, reason: byte, props: Option<Properties>)

  // ---------------------------------------------------------------- PUBLISH

  function PublishHeader(p: PublishPacket): byte
    requires p.qos <= 2
  {
    PUBLISH * 0x10 + (if p.dup then 8 else 0) + 2 * p.qos as int + (if p.retain then 1 else 0)
  }

  function IdBytes(p: PublishPacket): bytes {
    if p.qos > 0 then U16(p.id) else []
  }

  /** The property block of a dialect: MQTT 3.1.1 has none. */
  function EncodeBlock(v: Version, props: Option<Properties>, ctx: Context): Result<bytes, WireError> {
    if v == V50 then Encode(props, ctx) else Ok([])
  }

  function EncodePublish(p: PublishPacket): Result<Frame, WireError> {
    if p.version.Unsupported? then Err(ProtocolViolation)
    else if p.qos > 2 then Err(ProtocolViolation)
    else if p.qos > 0 && p.id == 0 then Err(ProtocolViolation)
    else if p.qos == 0 && p.dup then Err(ProtocolViolation)
    else
      var topic :- EncodeString(p.topic);
      var block :- EncodeBlock(p.version, p.props, Publish);
      var body := topic + IdBytes(p) + block + p.payload;
      if |body| > MAX_VARINT then Err(FrameTooLarge) else Ok(Frame(PublishHeader(p), body))
  }

  function ReadId(qos: nat, s: bytes): Read<uint16> {
    if qos == 0 then Ok((0, s))
    else match ReadU16(s)
      case Err(e) => Err(e)
      case Ok((id, rest)) => if id == 0 then Err(Malformed) else Ok((id, rest))
  }

  function ReadBlock(v: Version, s: bytes): Read<Option<Properties>> {
    match v
    case V311 => Ok((None, s))
    case V50 => Decode(s, Publish)
    case Unsupported(_) => Err(ProtocolViolation)
  }

  function Qos(header: byte): nat {
    header % 0x10 / 2 % 4
  }

  predicate Dup(header: byte) {
    header % 0x10 / 8 == 1
  }

  predicate Retain(header: byte) {
    header % 2 == 1
  }

  /** An empty topic has to be resolved by a topic alias. */
  predicate Aliased(v: Version, props: Option<Properties>) {
    v == V50 && props.Some? && TOPIC_ALIAS in props.value.nums
  }

  function DecodePublish(v: Version, header: byte, body: bytes): Result<PublishPacket, WireError> {
    if Qos(header) == 3 then Err(Malformed)
    else if Qos(header) == 0 && Dup(header) then Err(Malformed)
    else match ReadString(body)
      case Err(e) => Err(e)
      case Ok((topic, s1)) =>
        if Topic.Wild(topic) then Err(Malformed)
        else match ReadId(Qos(header), s1)
          case Err(e) => Err(e)
          case Ok((id, s2)) =>
            match ReadBlock(v, s2)
            case Err(e) => Err(e)
            case Ok((props, payload)) =>
              if topic == [] && !Aliased(v, props) then Err(Malformed)
              else Ok(PublishPacket(v, topic, payload, Qos(header), Retain(header), Dup(header), id, props))
  }

  /** What a reader of PUBLISH demands of the topic beyond what its writer does. */
  predicate Readable(p: PublishPacket) {
    !Topic.Wild(p.topic) && (p.topic == [] ==> Aliased(p.version, p.props))
  }

  /** The same packet, up to what its dialect or QoS 0 does not carry. */
  ghost predicate SamePublish(p: PublishPacket, q: PublishPacket) {
    && q == p.(id := q.id, props := q.props)
    && q.id == (if p.qos > 0 then p.id else 0)
    && Normal(q.props) == (if p.version == V50 then Normal(p.props) else NONE)
  }

  lemma HeaderRoundTrip(p: PublishPacket)
    requires p.qos <= 2
    ensures var h := PublishHeader(p);
      h / 0x10 == PUBLISH && Qos(h) == p.qos && Dup(h) == p.dup && Retain(h) == p.retain
  {
  }

  lemma BlockRoundTrip(v: Version, props: Option<Properties>, rest: bytes)
    requires !v.Unsupported? && Typed(Normal(props)) && EncodeBlock(v, props, Publish).Ok?
    ensures var r := ReadBlock(v, EncodeBlock(v, props, Publish).value + rest);
      r.Ok? && r.value.1 == rest && Normal(r.value.0) == (if v == V50 then Normal(props) else NONE)
  {
    if v == V311 {
      assert [] + rest == rest;
    } else {
      EncodeAbsent(props, Publish);
      hide Encode, Decode;
      EncodedIsDecoded(Normal(props), Publish, rest);
    }
  }

  /** No property set and an empty one are written alike. */
  lemma EncodeAbsent(props: Option<Properties>, ctx: Context)
    ensures Encode(props, ctx) == Encode(Some(Normal(props)), ctx)
  {
    NoneEncodes(IDS, ctx);
    hide EncodeIds;
    assert EncodeVarint(0) + [] == [0];
  }

  lemma IdRoundTrip(p: PublishPacket, rest: bytes)
    requires p.qos > 0 ==> p.id != 0
    ensures ReadId(p.qos, IdBytes(p) + rest) == Ok((if p.qos > 0 then p.id else 0, rest))
  {
    U16RoundTrip(p.id, rest);
    assert [] + rest == rest;
  }

  /** The parts of a written body, one after the other. */
  lemma PublishReads(p: PublishPacket) returns (s1: bytes, s2: bytes, props: Option<Properties>)
    requires Typed(Normal(p.props)) && EncodePublish(p).Ok?
    ensures ReadString(EncodePublish(p).value.body) == Ok((p.topic, s1))
    ensures ReadId(p.qos, s1) == Ok((if p.qos > 0 then p.id else 0, s2))
    ensures ReadBlock(p.version, s2) == Ok((props, p.payload))
    ensures Normal(props) == if p.version == V50 then Normal(p.props) else NONE
  {
    var topic, block := EncodeString(p.topic).value, EncodeBlock(p.version, p.props, Publish).value;
    s2 := block + p.payload;
    s1 := IdBytes(p) + s2;
    StringRoundTrip(p.topic, [], s1);
    IdRoundTrip(p, s2);
    BlockRoundTrip(p.version, p.props, p.payload);
    props := ReadBlock(p.version, s2).value.0;
    hide EncodeString, EncodeBlock, ReadString, ReadId, ReadBlock, IdBytes;
    Assoc(topic + IdBytes(p), block, p.payload);
    Assoc(topic, IdBytes(p), s2);
  }

  /** A PUBLISH that can be written passes the flag check, and is read back exactly when its topic is readable. */
  lemma PublishRoundTrip(p: PublishPacket)
    requires Typed(Normal(p.props)) && EncodePublish(p).Ok?
    ensures var f := EncodePublish(p).value; var r := DecodePublish(p.version, f.header, f.body);
      && f.Kind() == PUBLISH && ValidFlags(f) && (r.Ok? <==> Readable(p))
      && (r.Ok? ==> SamePublish(p, r.value)) && (r.Err? ==> r == Err(Malformed))
  {
    var s1, s2, props := PublishReads(p);
    HeaderRoundTrip(p);
    var f := EncodePublish(p).value;
    assert f.header == PublishHeader(p) && p.qos <= 2 && (p.qos == 0 ==> !p.dup);
    hide EncodePublish, ReadString, ReadId, ReadBlock, PublishHeader;
    assert Aliased(p.version, props) <==> Aliased(p.version, p.props);
  }

  lemma BlockReencoded(v: Version, s: bytes)
    requires ReadBlock(v, s).Ok?
    ensures var (props, rest) := ReadBlock(v, s).value; var e := EncodeBlock(v, props, Publish);
      e.Ok? && |e.value| + |rest| <= |s| && Typed(Normal(props))
  {
    if v == V50 {
      BlockShrinks(s, Publish);
      EncodeAbsent(Decode(s, Publish).value.0, Publish);
    }
  }

  lemma HeaderCanonical(h: byte)
    requires h / 0x10 == PUBLISH && Qos(h) <= 2
    ensures h == 0x30 + (if Dup(h) then 8 else 0) + 2 * Qos(h) + (if Retain(h) then 1 else 0)
  {
  }

  /** A PUBLISH that is accepted can be written again: same header, body no longer, read as the same packet. */
  lemma PublishReencodes(v: Version, f: Frame)
    requires f.Kind() == PUBLISH && |f.body| <= MAX_VARINT && DecodePublish(v, f.header, f.body).Ok?
    ensures var p := DecodePublish(v, f.header, f.body).value; var e := EncodePublish(p);
      && Typed(Normal(p.props)) && Readable(p)
      && e.Ok? && e.value.header == f.header && |e.value.body| <= |f.body|
      && var again := DecodePublish(v, e.value.header, e.value.body); again.Ok? && SamePublish(p, again.value)
  {
    var p := DecodePublish(v, f.header, f.body).value;
    var (_, s1) := ReadString(f.body).value;
    var (_, s2) := ReadId(Qos(f.header), s1).value;
    StringRoundTrip(p.topic, f.body, s1);
    BlockReencoded(v, s2);
    HeaderCanonical(f.header);
    hide EncodeString, ReadString, ReadBlock, EncodeBlock, Qos, Dup, Retain;
    PublishRoundTrip(p);
  }

  // ---------------------------------------------------------------- acknowledgements

  /** The property context of an acknowledgement type, if it is one. */
  function AckContext(kind: nat): Option<Context> {
    if kind == PUBACK then Some(Puback)
    else if kind == PUBREC then Some(Pubrec)
    else if kind == PUBREL then Some(Pubrel)
    else if kind == PUBCOMP then Some(Pubcomp)
    else None
  }

  function AckHeader(kind: nat): byte
    requires AckContext(kind).Some?
  {
    kind * 0x10 + if kind == PUBREL then 2 else 0
  }

  /** Reason code and properties: left out when they say nothing, and in MQTT 3.1.1. */
  function EncodeTail(p: AckPacket, ctx: Context): Result<bytes, WireError> {
    if p.version != V50 || (p.reason == 0 && p.props.None?) then Ok([])
    else if p.props.None? then Ok([p.reason])
    else
      var block :- Encode(p.props, ctx);
      Ok([p.reason] + block)
  }

  function EncodeAck(p: AckPacket): Result<Frame, WireError> {
    if p.version.Unsupported? then Err(ProtocolViolation)
    else if AckContext(p.kind).None? then Err(ProtocolViolation)
    else if p.id == 0 then Err(ProtocolViolation)
    else
      var tail :- EncodeTail(p, AckContext(p.kind).value);
      if |U16(p.id) + tail| > MAX_VARINT then Err(FrameTooLarge) else Ok(Frame(AckHeader(p.kind), U16(p.id) + tail))
  }

  /** What follows the identifier, which has to be the rest of the packet. */
  function DecodeTail(v: Version, s: bytes, ctx: Context): Result<(byte, Option<Properties>), WireError> {
    match v
    case V311 => if s == [] then Ok((0, None)) else Err(Malformed)
    case V50 =>
      if s == [] then Ok((0, None))
      else if |s| == 1 then Ok((s[0], None))
      else
        (match Decode(s[1..], ctx)
         case Err(e) => Err(e)
         case Ok((props, rest)) => if rest == [] then Ok((s[0], props)) else Err(Malformed))
    case Unsupported(_) => Err(ProtocolViolation)
  }

  function DecodeAck(v: Version, kind: nat, body: bytes): Result<AckPacket, WireError> {
    if AckContext(kind).None? then Err(Malformed)
    else match ReadU16(body)
      case Err(e) => Err(e)
      case Ok((id, s)) =>
        if id == 0 then Err(Malformed)
        else
          var (reason, props) :- DecodeTail(v, s, AckContext(kind).value);
          Ok(AckPacket(v, kind, id, reason, props))
  }

  ghost predicate SameAck(p: AckPacket, q: AckPacket) {
    && q == p.(reason := q.reason, props := q.props)
    && q.reason == (if p.version == V50 then p.reason else 0)
    && Normal(q.props) == (if p.version == V50 then Normal(p.props) else NONE)
  }

  lemma TailRoundTrip(p: AckPacket, ctx: Context)
    requires !p.version.Unsupported? && Typed(Normal(p.props)) && EncodeTail(p, ctx).Ok?
    ensures var r := DecodeTail(p.version, EncodeTail(p, ctx).value, ctx);
      && r.Ok? && r.value.0 == (if p.version == V50 then p.reason else 0)
      && Normal(r.value.1) == (if p.version == V50 then Normal(p.props) else NONE)
  {
    if p.version == V50 && p.props.Some? {
      var block := Encode(p.props, ctx).value;
      EncodedIsDecoded(p.props.value, ctx, []);
      assert |block| > 0;
      hide Encode, Decode, Typed;
      assert block + [] == block && ([p.reason] + block)[1..] == block;
    }
  }

  /** Every acknowledgement that can be written passes the flag check and is read back. */
  lemma AckRoundTrip(p: AckPacket)
    requires Typed(Normal(p.props)) && EncodeAck(p).Ok?
    ensures var f := EncodeAck(p).value; var r := DecodeAck(p.version, f.Kind(), f.body);
      f.Kind() == p.kind && ValidFlags(f) && r.Ok? && SameAck(p, r.value)
  {
    var ctx := AckContext(p.kind).value;
    TailRoundTrip(p, ctx);
    U16RoundTrip(p.id, EncodeTail(p, ctx).value);
    hide EncodeTail, DecodeTail, ReadU16, U16, Typed;
  }

  lemma TailReencodes(p: AckPacket, s: bytes, ctx: Context)
    requires DecodeTail(p.version, s, ctx) == Ok((p.reason, p.props))
    ensures Typed(Normal(p.props)) && EncodeTail(p, ctx).Ok? && |EncodeTail(p, ctx).value| <= |s|
  {
    if p.version == V50 && |s| > 1 {
      BlockShrinks(s[1..], ctx);
      EncodeAbsent(p.props, ctx);
      hide Encode, Decode, Typed;
    }
  }

  /** An acknowledgement that is accepted can be written again, in a body no longer. */
  lemma AckReencodes(v: Version, kind: nat, body: bytes)
    requires |body| <= MAX_VARINT && DecodeAck(v, kind, body).Ok?
    ensures var p := DecodeAck(v, kind, body).value; var e := EncodeAck(p);
      && Typed(Normal(p.props)) && e.Ok? && |e.value.body| <= |body|
      && var again := DecodeAck(v, kind, e.value.body); again.Ok? && SameAck(p, again.value)
  {
    var p := DecodeAck(v, kind, body).value;
    TailReencodes(p, ReadU16(body).value.1, AckContext(kind).value);
    hide EncodeTail, DecodeTail;
    AckRoundTrip(p);
  }

  // ---------------------------------------------------------------- a stream of packets

  datatype Packet = PublishOf(publish: PublishPacket) | AckOf(ack: AckPacket)

  function EncodePacket(k: Packet): Result<Frame, WireError> {
    match k
    case PublishOf(p) => EncodePublish(p)
    case AckOf(p) => EncodeAck(p)
  }

  /** Only the packet types of this module; a link's other packets are a protocol error here. */
  function DecodePacket(v: Version, f: Frame): Result<Packet, WireError> {
    if !ValidFlags(f) then Err(Malformed)
    else if f.Kind() == PUBLISH then
      var p :- DecodePublish(v, f.header, f.body);
      Ok(PublishOf(p))
    else if AckContext(f.Kind()).Some? then
      var p :- DecodeAck(v, f.Kind(), f.body);
      Ok(AckOf(p))
    else Err(ProtocolViolation)
  }

  /** What a writer of version `v` may put on a link whose reader caps packets at `cap` bytes. */
  ghost predicate Sendable(k: Packet, v: Version, cap: nat) {
    && EncodePacket(k).Ok? && |OnWire(EncodePacket(k).value)| <= cap
    && match k {
      case PublishOf(p) => p.version == v && Typed(Normal(p.props)) && Readable(p)
      case AckOf(p) => p.version == v && Typed(Normal(p.props))
    }
  }

  ghost predicate Same(a: Packet, b: Packet) {
    match a
    case PublishOf(p) => b.PublishOf? && SamePublish(p, b.publish)
    case AckOf(p) => b.AckOf? && SameAck(p, b.ack)
  }

  function Sent(ks: seq<Packet>): bytes
    requires forall k | k in ks :: EncodePacket(k).Ok?
  {
    if ks == [] then [] else OnWire(EncodePacket(ks[0]).value) + Sent(ks[1..])
  }

  /** Reads `n` packets off a stream. */
  function ReadPackets(v: Version, s: bytes, n: nat, cap: nat): Read<seq<Packet>>
    decreases n
  {
    if n == 0 then Ok(([], s))
    else match ReadFrame(s, cap)
      case Err(e) => Err(e)
      case Ok((f, rest)) =>
        match DecodePacket(v, f)
        case Err(e) => Err(e)
        case Ok(k) =>
          match ReadPackets(v, rest, n - 1, cap)
          case Err(e) => Err(e)
          case Ok((ks, rest')) => Ok(([k] + ks, rest'))
  }

  lemma PacketRoundTrip(k: Packet, v: Version, cap: nat)
    requires Sendable(k, v, cap)
    ensures |EncodePacket(k).value.body| <= MAX_VARINT
    ensures var r := DecodePacket(v, EncodePacket(k).value); r.Ok? && Same(k, r.value)
  {
    match k
    case PublishOf(p) =>
      PublishRoundTrip(p);
    case AckOf(p) =>
      AckRoundTrip(p);
  }

  lemma PacketOnStream(k: Packet, v: Version, rest: bytes, cap: nat)
    requires Sendable(k, v, cap)
    ensures ReadFrame(OnWire(EncodePacket(k).value) + rest, cap) == Ok((EncodePacket(k).value, rest))
    ensures var r := DecodePacket(v, EncodePacket(k).value); r.Ok? && Same(k, r.value)
  {
    PacketRoundTrip(k, v, cap);
    FrameRoundTrip(EncodePacket(k).value, rest, cap);
  }

  /** Any concatenation of sendable packets is read back as the same sequence of packets. */
  lemma {:induction false} StreamRoundTrip(ks: seq<Packet>, v: Version, rest: bytes, cap: nat)
    requires forall k | k in ks :: EncodePacket(k).Ok? && Sendable(k, v, cap)
    ensures var r := ReadPackets(v, Sent(ks) + rest, |ks|, cap);
      && r.Ok? && r.value.1 == rest && |r.value.0| == |ks|
      && forall i | 0 <= i < |ks| :: Same(ks[i], r.value.0[i])
  {
    hide OnWire, EncodePacket, DecodePacket, ReadFrame, Same;
    if ks == [] {
      assert Sent(ks) + rest == rest;
    } else {
      PacketOnStream(ks[0], v, Sent(ks[1..]) + rest, cap);
      StreamRoundTrip(ks[1..], v, rest, cap);
      Assoc(OnWire(EncodePacket(ks[0]).value), Sent(ks[1..]), rest);
    }
  }

  // ---------------------------------------------------------------- the codec as it runs

  /** Builds the packet in a buffer and hands its bytes to the writer. */
  method WritePacket(header: byte, body: bytes) returns (r: Result<bytes, WireError>)
    ensures r == if |body| > MAX_VARINT then Err(FrameTooLarge) else Ok(OnWire(Frame(header, body)))
  {
    if |body| > MAX_VARINT {
      return Err(FrameTooLarge);
    }
    var head := AppendVarint([header], |body|);
    r := Ok(head + body);
  }

  /** The bytes of an encoded frame, or the error that kept it from being encoded. */
  function Written(f: Result<Frame, WireError>): Result<bytes, WireError> {
    match f
    case Ok(frame) => Ok(OnWire(frame))
    case Err(e) => Err(e)
  }

  method WritePublish(p: PublishPacket) returns (r: Result<bytes, WireError>)
    ensures r == Written(EncodePublish(p))
  {
    hide EncodeString, Encode, OnWire;
    if p.version.Unsupported? || p.qos > 2 || (p.qos > 0 && p.id == 0) || (p.qos == 0 && p.dup) {
      return Err(ProtocolViolation);
    }
    var header := PUBLISH * 0x10;
    if p.dup {
      header := header + 8;
    }
    header := header + 2 * p.qos as int;
    if p.retain {
      header := header + 1;
    }
    var body := AppendString([], p.topic);
    if body.Err? {
      return body;
    }
    assert body.value == EncodeString(p.topic).value;
    if p.qos > 0 {
      body := Ok(body.value + U16(p.id));
    }
    assert body.value == EncodeString(p.topic).value + IdBytes(p);
    if p.version == V50 {
      body := AppendProperties(body.value, p.props, Publish);
      if body.Err? {
        return body;
      }
    }
    assert body.value == EncodeString(p.topic).value + IdBytes(p) + EncodeBlock(p.version, p.props, Publish).value;
    r := WritePacket(header, body.value + p.payload);
  }

  method ParsePublish(v: Version, header: byte, body: bytes) returns (r: Result<PublishPacket, WireError>)
    ensures r == DecodePublish(v, header, body)
  {
    hide ReadString, ReadU16, Decode;
    var qos := header % 0x10 / 2 % 4;
    if qos == 3 {
      return Err(Malformed);
    }
    if qos == 0 && Dup(header) {
      return Err(Malformed);
    }
    var c := new Cursor(body);
    var topic := c.NextString();
    if topic.Err? {
      return Err(topic.error);
    }
    if Topic.Wild(topic.value) {
      return Err(Malformed);
    }
    var id: uint16 := 0;
    if qos > 0 {
      var read := c.NextU16();
      if read.Err? {
        return Err(read.error);
      }
      if read.value == 0 {
        return Err(Malformed);
      }
      id := read.value;
    }
    var props := None;
    match v {
      case V311 =>
      case V50 =>
        var block := NextProperties(c, Publish);
        if block.Err? {
          return Err(block.error);
        }
        props := block.value;
      case Unsupported(_) =>
        return Err(ProtocolViolation);
    }
    if topic.value == [] && !Aliased(v, props) {
      return Err(Malformed);
    }
    var payload := c.NextRest();
    r := Ok(PublishPacket(v, topic.value, payload, qos, Retain(header), Dup(header), id, props));
  }

  method WriteAck(p: AckPacket) returns (r: Result<bytes, WireError>)
    ensures r == Written(EncodeAck(p))
  {
    hide Encode, OnWire;
    if p.version.Unsupported? || AckContext(p.kind).None? || p.id == 0 {
      return Err(ProtocolViolation);
    }
    var header := p.kind * 0x10;
    if p.kind == PUBREL {
      header := header + 2;
    }
    var body := U16(p.id);
    ghost var tail: bytes := [];
    assert body == U16(p.id) + tail;
    if p.version == V50 && (p.reason != 0 || p.props.Some?) {
      body := body + [p.reason];
      tail := [p.reason];
      if p.props.Some? {
        var full := AppendProperties(body, p.props, AckContext(p.kind).value);
        if full.Err? {
          return full;
        }
        tail := [p.reason] + Encode(p.props, AckContext(p.kind).value).value;
        body := full.value;
        assert body == U16(p.id) + tail;
      }
    }
    r := WritePacket(header, body);
  }

  method ParseAck(v: Version, kind: nat, body: bytes) returns (r: Result<AckPacket, WireError>)
    ensures r == DecodeAck(v, kind, body)
  {
    hide ReadU16, Decode;
    var ctx := AckContext(kind);
    if ctx.None? {
      return Err(Malformed);
    }
    var c := new Cursor(body);
    var id := c.NextU16();
    if id.Err? {
      return Err(id.error);
    }
    if id.value == 0 {
      return Err(Malformed);
    }
    match v {
      case V311 =>
        if c.pos != |c.buf| {
          return Err(Malformed);
        }
        r := Ok(AckPacket(v, kind, id.value, 0, None));
      case V50 =>
        if c.pos == |c.buf| {
          return Ok(AckPacket(v, kind, id.value, 0, None));
        }
        var reason := c.NextByte();
        if c.pos == |c.buf| {
          return Ok(AckPacket(v, kind, id.value, reason.value, None));
        }
        var props := NextProperties(c, ctx.value);
        if props.Err? {
          return Err(props.error);
        }
        if c.pos != |c.buf| {
          return Err(Malformed);
        }
        r := Ok(AckPacket(v, kind, id.value, reason.value, props.value));
      case Unsupported(_) =>
        r := Err(ProtocolViolation);
    }
  }
}
