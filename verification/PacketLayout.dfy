/** Which packets are written and read, and where each field stands in them. */
module PacketLayout {
  import opened Wrappers
  import opened Bytes
  import opened Wire
  import opened WireLayout
  import opened Properties
  import opened PropertyGrammar
  import opened Packets

  // ---------------------------------------------------------------- PUBLISH

  /** QoS, DUP and RETAIN of each fixed header a PUBLISH may have. */
  function Meaning(h: byte): Option<(nat, bool, bool)> {
    if h == 0x30 then Some((0, false, false)) else if h == 0x31 then Some((0, false, true))
    else if h == 0x32 then Some((1, false, false)) else if h == 0x33 then Some((1, false, true))
    else if h == 0x34 then Some((2, false, false)) else if h == 0x35 then Some((2, false, true))
    else if h == 0x3A then Some((1, true, false)) else if h == 0x3B then Some((1, true, true))
    else if h == 0x3C then Some((2, true, false)) else if h == 0x3D then Some((2, true, true))
    else None
  }

  lemma HeaderMeans(h: byte)
    requires h / 0x10 == 3
    ensures Meaning(h) == if Qos(h) == 3 || (Qos(h) == 0 && Dup(h)) then None else Some((Qos(h), Dup(h), Retain(h)))
  {
  }

  lemma HeaderWritten(p: PublishPacket)
    requires p.qos <= 2 && (p.qos == 0 ==> !p.dup)
    ensures Meaning(PublishHeader(p)) == Some((p.qos as nat, p.dup, p.retain))
  {
    HeaderRoundTrip(p);
    HeaderMeans(PublishHeader(p));
  }

  /** The fields of a body one after the other: topic, identifier above QoS 0, properties, payload. */
  predicate IsBody(p: PublishPacket, body: bytes, t: bytes, i: bytes, b: bytes) {
    && body == t + i + b + p.payload
    && IsString(t, p.topic)
    && (if p.qos > 0 then |i| == 2 && BigEndian(i) == p.id else i == [])
    && (p.version == V311 ==> b == [])
  }

  /** A PUBLISH is written exactly when its fields are legal and it is not too long. */
  lemma PublishWritten(p: PublishPacket)
    ensures EncodePublish(p).Ok? <==>
      && !p.version.Unsupported? && p.qos <= 2 && (p.qos > 0 ==> p.id > 0) && !(p.qos == 0 && p.dup)
      && Encodable(p.topic) && (p.version == V50 ==> Encode(p.props, Publish).Ok?)
      && 2 + |p.topic| + (if p.qos > 0 then 2 else 0) + |p.payload|
         + (if p.version == V50 then |Encode(p.props, Publish).value| else 0) <= 268_435_455
  {
    StringLayout(p.topic);
    hide EncodeString, Encode, Encodable;
  }

  /** What is written: the header of its flags, and the fields in their places. */
  lemma PublishLayout(p: PublishPacket)
    requires EncodePublish(p).Ok?
    ensures var f := EncodePublish(p).value; var t := EncodeString(p.topic).value;
      && Meaning(f.header) == Some((p.qos as nat, p.dup, p.retain))
      && IsBody(p, f.body, f.body[..2 + |p.topic|], IdBytes(p), EncodeBlock(p.version, p.props, Publish).value)
  {
    HeaderWritten(p);
    StringLayout(p.topic);
    U16Layout(p.id);
    var t, b := EncodeString(p.topic).value, EncodeBlock(p.version, p.props, Publish).value;
    hide EncodeString, EncodeBlock, PublishHeader, U16;
    assert EncodePublish(p).value.body == t + IdBytes(p) + b + p.payload;
    assert (t + IdBytes(p) + b + p.payload)[..|t|] == t;
  }

  /** How a body reads, given the header it came with. */
  ghost predicate Reads(v: Version, h: byte, body: bytes, p: PublishPacket, t: bytes, i: bytes, b: bytes) {
    && p.version == v && !v.Unsupported? && Meaning(h) == Some((p.qos as nat, p.dup, p.retain))
    && IsBody(p, body, t, i, b)
    && Utf8(p.topic) && 0 !in p.topic && Ascii('+') !in p.topic && Ascii('#') !in p.topic
    && (if p.qos > 0 then p.id > 0 else p.id == 0)
    && (if v == V50 then Decode(b + p.payload, Publish) == Ok((p.props, p.payload)) else p.props == None)
    && (p.topic == [] ==> v == V50 && p.props.Some? && 0x23 in p.props.value.nums)
  }

  /** What is left after each field of a body. */
  ghost predicate Steps(v: Version, h: byte, body: bytes, p: PublishPacket, s1: bytes, s2: bytes) {
    && ReadString(body) == Ok((p.topic, s1)) && ReadId(p.qos, s1) == Ok((p.id, s2)) && ReadBlock(v, s2) == Ok((p.props, p.payload))
    && Ascii('+') !in p.topic && Ascii('#') !in p.topic && (p.topic == [] ==> Aliased(v, p.props))
    && p.version == v && Meaning(h) == Some((p.qos as nat, p.dup, p.retain))
  }

  lemma StepsExactly(v: Version, h: byte, body: bytes, p: PublishPacket)
    requires h / 0x10 == 3
    ensures DecodePublish(v, h, body) == Ok(p) <==> exists s1, s2 :: Steps(v, h, body, p, s1, s2)
  {
    HeaderMeans(h);
    hide ReadString, ReadId, ReadBlock, Meaning, Qos, Dup, Retain, Aliased;
    if DecodePublish(v, h, body) == Ok(p) {
      var s1 := ReadString(body).value.1;
      assert Steps(v, h, body, p, s1, ReadId(p.qos, s1).value.1);
    }
  }

  lemma IdRead(p: PublishPacket, i: bytes, s: bytes)
    ensures ReadId(p.qos, i + s) == Ok((p.id, s)) <==>
      if p.qos > 0 then |i| == 2 && BigEndian(i) == p.id && p.id > 0 else i == [] && p.id == 0
  {
    ReadU16Exactly(i + s);
    assert i == [] ==> i + s == s;
    assert |i| == 2 ==> (i + s)[..2] == i && (i + s)[2..] == s;
    if p.qos > 0 && ReadId(p.qos, i + s) == Ok((p.id, s)) {
      assert |i + s| == 2 + |s|;
    }
    if p.qos == 0 && ReadId(p.qos, i + s) == Ok((p.id, s)) {
      assert |i + s| == |s|;
    }
  }

  lemma PublishRead(v: Version, h: byte, body: bytes, p: PublishPacket, t: bytes, i: bytes, b: bytes)
    requires h / 0x10 == 3 && Reads(v, h, body, p, t, i, b)
    ensures DecodePublish(v, h, body) == Ok(p)
  {
    var s1, s2 := i + (b + p.payload), b + p.payload;
    Assoc(t + i, b, p.payload);
    Assoc(t, i, s2);
    StringRead(t, p.topic, s1);
    IdRead(p, i, s2);
    assert v == V311 ==> s2 == p.payload;
    hide ReadBinary, ReadId, Decode, Meaning, IsString, BigEndian, DecodePublish;
    assert Steps(v, h, body, p, s1, s2);
    StepsExactly(v, h, body, p);
  }

  lemma Assembled(v: Version, h: byte, body: bytes, p: PublishPacket, t: bytes, i: bytes, b: bytes, s1: bytes, s2: bytes)
    requires Steps(v, h, body, p, s1, s2) && body == t + s1 && s1 == i + s2 && s2 == b + p.payload
    requires IsString(t, p.topic) && (v == V311 ==> b == [])
    ensures Reads(v, h, body, p, t, i, b)
  {
    IdRead(p, i, s2);
    Assoc(t + i, b, p.payload);
    Assoc(t, i, s2);
    hide ReadBinary, ReadId, Decode, Meaning, IsString, BigEndian;
  }

  /** The parts of an accepted body. */
  lemma ReadPublish(v: Version, h: byte, body: bytes) returns (t: bytes, i: bytes, b: bytes)
    requires h / 0x10 == 3 && DecodePublish(v, h, body).Ok?
    ensures Reads(v, h, body, DecodePublish(v, h, body).value, t, i, b)
  {
    var p := DecodePublish(v, h, body).value;
    StepsExactly(v, h, body, p);
    var s1, s2 :| Steps(v, h, body, p, s1, s2);
    StringTaken(body, p.topic, s1);
    IdSuffix(p.qos, s1);
    BlockSuffix(v, s2);
    hide DecodePublish, Reads, ReadBinary, ReadId, Decode, IsString;
    t, i, b := body[..2 + |p.topic|], s1[..|s1| - |s2|], s2[..|s2| - |p.payload|];
    Assembled(v, h, body, p, t, i, b, s1, s2);
  }

  lemma IdSuffix(qos: nat, s: bytes)
    requires ReadId(qos, s).Ok?
    ensures var rest := ReadId(qos, s).value.1; |rest| <= |s| && s == s[..|s| - |rest|] + rest
  {
  }

  lemma BlockSuffix(v: Version, s: bytes)
    requires ReadBlock(v, s).Ok?
    ensures var rest := ReadBlock(v, s).value.1; |rest| <= |s| && s == s[..|s| - |rest|] + rest
  {
    if v == V50 {
      var n, body := AcceptedBlock(s, Publish);
      var rest := Decode(s, Publish).value.1;
      assert s == n + body + rest;
    }
  }

  /** A PUBLISH is accepted exactly when header and fields are legal and in their places, and reads as what they say. */
  lemma PublishExactly(v: Version, h: byte, body: bytes, p: PublishPacket)
    requires h / 0x10 == 3
    ensures DecodePublish(v, h, body) == Ok(p) <==> exists t, i, b :: Reads(v, h, body, p, t, i, b)
  {
    if DecodePublish(v, h, body) == Ok(p) {
      var t, i, b := ReadPublish(v, h, body);
    }
    if t, i, b :| Reads(v, h, body, p, t, i, b) {
      PublishRead(v, h, body, p, t, i, b);
    }
  }

  // ---------------------------------------------------------------- acknowledgements

  /** PUBACK, PUBREC, PUBREL and PUBCOMP with their headers and property contexts. */
  function AckKind(kind: nat): Option<(byte, Context)> {
    if kind == 4 then Some((0x40, Puback)) else if kind == 5 then Some((0x50, Pubrec))
    else if kind == 6 then Some((0x62, Pubrel)) else if kind == 7 then Some((0x70, Pubcomp)) else None
  }

  lemma AckKinds(kind: nat)
    ensures AckContext(kind).Some? <==> AckKind(kind).Some?
    ensures AckKind(kind).Some? ==> AckKind(kind).value == (AckHeader(kind), AckContext(kind).value)
  {
  }

  /** The three forms of a body. */
  ghost predicate IsAck(p: AckPacket, body: bytes, ctx: Context) {
    && |body| >= 2 && BigEndian(body[..2]) == p.id && p.id > 0
    && if |body| == 2 then p.reason == 0 && p.props == None
       else
         && p.version == V50 && p.reason == body[2]
         && if |body| == 3 then p.props == None else Decode(body[3..], ctx) == Ok((p.props, []))
  }

  /** An acknowledgement is accepted exactly in these forms. */
  lemma AckExactly(v: Version, kind: nat, body: bytes, p: AckPacket)
    ensures DecodeAck(v, kind, body) == Ok(p) <==>
      p.version == v && p.kind == kind && !v.Unsupported? && AckKind(kind).Some? && IsAck(p, body, AckKind(kind).value.1)
  {
    AckKinds(kind);
    ReadU16Exactly(body);
    if |body| >= 3 {
      assert body[2..][0] == body[2] && body[2..][1..] == body[3..];
    }
    hide ReadU16, Decode, BigEndian;
  }

  /** An acknowledgement is written exactly when it is one, with an identifier and writable properties. */
  lemma AckWritten(p: AckPacket)
    ensures EncodeAck(p).Ok? <==>
      && !p.version.Unsupported? && AckKind(p.kind).Some? && p.id > 0
      && (p.version == V50 && p.props.Some? ==>
            Encode(p.props, AckKind(p.kind).value.1).Ok? && 3 + |Encode(p.props, AckKind(p.kind).value.1).value| <= 268_435_455)
  {
    AckKinds(p.kind);
    hide Encode;
  }

  /** The shortest form that says it all, under the header of its type. */
  lemma AckLayout(p: AckPacket)
    requires EncodeAck(p).Ok?
    ensures var f := EncodeAck(p).value;
      && AckKind(p.kind).Some? && f.header == AckKind(p.kind).value.0
      && |f.body| >= 2 && BigEndian(f.body[..2]) == p.id
      && (p.version == V311 || (p.reason == 0 && p.props.None?) ==> |f.body| == 2)
      && (p.version == V50 && p.reason != 0 && p.props.None? ==> |f.body| == 3 && f.body[2] == p.reason)
      && (p.version == V50 && p.props.Some? ==>
            |f.body| > 3 && f.body[2] == p.reason && Encode(p.props, AckKind(p.kind).value.1) == Ok(f.body[3..]))
  {
    AckKinds(p.kind);
    U16Layout(p.id);
    var body := EncodeAck(p).value.body;
    assert body[..2] == U16(p.id);
    if p.version == V50 && p.props.Some? {
      var block := Encode(p.props, AckContext(p.kind).value).value;
      assert |block| > 0;
      hide Encode, U16;
      assert body == U16(p.id) + ([p.reason] + block);
      assert body[3..] == block;
    }
  }
}
