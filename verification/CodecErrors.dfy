/**
 Which error a reader reports. On the stream, running out of bytes is told apart from everything
 that no further byte can mend; inside a packet every defect is a malformed packet.
 */
module CodecErrors {
  import opened Wrappers
  import opened Bytes
  import opened Wire
  import opened Properties
  import opened Packets
  import opened WireLayout

  // ---------------------------------------------------------------- frames on a stream

  /** The same result with more bytes behind it. */
  function Longer<T>(r: Read<T>, more: bytes): Read<T> {
    match r
    case Err(e) => Err(e)
    case Ok((v, rest)) => Ok((v, rest + more))
  }

  lemma {:induction false} MoreDigits(s: bytes, more: bytes, left: nat, first: bool)
    requires Digits(s, left, first, EndOfStream) != Err(EndOfStream)
    ensures Digits(s + more, left, first, EndOfStream) == Longer(Digits(s, left, first, EndOfStream), more)
  {
    if left > 0 {
      assert s + more == [s[0]] + (s[1..] + more);
      if s[0] >= 0x80 {
        MoreDigits(s[1..], more, left - 1, false);
      }
    }
  }

  /** Whatever was decided about a stream stays decided when more bytes arrive. */
  lemma MoreBytes(s: bytes, more: bytes, cap: nat)
    requires ReadFrame(s, cap) != Err(EndOfStream)
    ensures ReadFrame(s + more, cap) == Longer(ReadFrame(s, cap), more)
  {
    assert s + more == [s[0]] + (s[1..] + more);
    MoreDigits(s[1..], more, 4, true);
    var v := ReadVarintFrom(s[1..]);
    if v.Ok? && v.value.0 <= |v.value.1| {
      var (n, rest) := v.value;
      assert (rest + more)[..n] == rest[..n] && (rest + more)[n..] == rest[n..] + more;
    }
  }

  lemma {:induction false} DigitsFollow(s: bytes, left: nat, first: bool) returns (more: bytes)
    requires left > 0 && Digits(s, left, first, EndOfStream) == Err(EndOfStream)
    ensures Digits(s + more, left, first, EndOfStream).Ok?
  {
    if s == [] {
      more := [1];
      assert s + more == [1];
    } else {
      more := DigitsFollow(s[1..], left - 1, false);
      assert s + more == [s[0]] + (s[1..] + more);
    }
  }

  /** A frame is complete, or its length says that it is too large. */
  ghost predicate Decided(s: bytes, cap: nat) {
    ReadFrame(s, cap).Ok? || ReadFrame(s, cap) == Err(FrameTooLarge)
  }

  lemma BodyFollows(s: bytes, cap: nat) returns (more: bytes)
    requires s != [] && ReadVarintFrom(s[1..]).Ok?
    ensures Decided(s + more, cap)
  {
    var (n, rest) := ReadVarintFrom(s[1..]).value;
    more := seq(n, _ => 0);
    MoreDigits(s[1..], more, 4, true);
    assert s + more == [s[0]] + (s[1..] + more);
  }

  lemma RestFollows(s: bytes, cap: nat) returns (more: bytes)
    requires s != [] && (ReadVarintFrom(s[1..]).Err? ==> ReadVarintFrom(s[1..]) == Err(EndOfStream))
    ensures Decided(s + more, cap)
  {
    hide ReadFrame, Decided, Digits;
    if ReadVarintFrom(s[1..]).Err? {
      var digits := DigitsFollow(s[1..], 4, true);
      assert (s + digits)[1..] == s[1..] + digits;
      var body := BodyFollows(s + digits, cap);
      more := digits + body;
      assert s + more == s + digits + body;
    } else {
      more := BodyFollows(s, cap);
    }
  }

  /** A stream that has merely ended can go on so that a frame is read or found too large. */
  lemma EndIsUndecided(s: bytes, cap: nat) returns (more: bytes)
    requires ReadFrame(s, cap) == Err(EndOfStream)
    ensures Decided(s + more, cap)
  {
    if s == [] {
      var rest := RestFollows([0x30], cap);
      more := [0x30] + rest;
      assert s + more == [0x30] + rest;
    } else {
      more := RestFollows(s, cap);
    }
  }

  /** So a stream is malformed exactly when it has not merely ended and no continuation can save it. */
  lemma MalformedExactly(s: bytes, cap: nat)
    ensures ReadFrame(s, cap) == Err(Malformed) <==> forall more: bytes :: !Decided(s + more, cap)
  {
    if ReadFrame(s, cap) == Err(Malformed) {
      forall more: bytes
        ensures !Decided(s + more, cap)
      {
        MoreBytes(s, more, cap);
      }
    } else if ReadFrame(s, cap) == Err(EndOfStream) {
      var more := EndIsUndecided(s, cap);
      assert Decided(s + more, cap);
    } else {
      FrameErrors(s, cap);
      MoreBytes(s, [], cap);
      assert Decided(s + [], cap);
    }
  }

  lemma {:induction false} DigitsErrors(s: bytes, left: nat, first: bool, short: WireError)
    ensures Digits(s, left, first, short).Err? ==> Digits(s, left, first, short).error in {Malformed, short}
  {
    if left > 0 && s != [] && s[0] >= 0x80 {
      DigitsErrors(s[1..], left - 1, false, short);
    }
  }

  lemma FrameErrors(s: bytes, cap: nat)
    ensures ReadFrame(s, cap).Err? ==> ReadFrame(s, cap).error in {Malformed, EndOfStream, FrameTooLarge}
  {
    if s != [] {
      DigitsErrors(s[1..], 4, true, EndOfStream);
    }
  }

  // ---------------------------------------------------------------- inside a packet

  predicate OkOrMalformed<T>(r: Result<T, WireError>) {
    r.Ok? || r.error == Malformed
  }

  lemma TextErrors(s: bytes)
    ensures OkOrMalformed(ReadString(s)) && OkOrMalformed(ReadBinary(s))
  {
    ReadStringExactly(s);
    ReadBinaryExactly(s);
  }

  lemma PairErrors(s: bytes)
    ensures OkOrMalformed(ReadPair(s))
  {
    hide ReadString;
    TextErrors(s);
    if ReadString(s).Ok? {
      TextErrors(ReadString(s).value.1);
    }
  }

  lemma ValueErrors(id: byte, s: bytes)
    ensures OkOrMalformed(ReadValue(id, s))
  {
    hide Digits, ReadString, ReadBinary, ReadPair, ShapeOf, BadValue;
    DigitsErrors(s, 4, true, Malformed);
    TextErrors(s);
    PairErrors(s);
  }

  lemma {:induction false} BodyErrors(s: bytes, ctx: Context, seen: set<byte>, p: Properties)
    ensures OkOrMalformed(DecodeBody(s, ctx, seen, p))
    decreases |s|
  {
    if s != [] {
      var id := s[0];
      ValueErrors(id, s[1..]);
      if ReadValue(id, s[1..]).Ok? {
        ReadShortens(id, s[1..]);
        var (v, rest) := ReadValue(id, s[1..]).value;
        BodyErrors(rest, ctx, Marked(seen, id, ctx), Put(p, id, v));
      }
    }
  }

  lemma BlockErrors(s: bytes, ctx: Context)
    ensures OkOrMalformed(Decode(s, ctx))
  {
    DigitsErrors(s, 4, true, Malformed);
    if ReadVarint(s).Ok? && ReadVarint(s).value.0 <= |ReadVarint(s).value.1| {
      BodyErrors(ReadVarint(s).value.1[..ReadVarint(s).value.0], ctx, {}, NONE);
    }
  }

  /** In either dialect, whatever the bytes, a PUBLISH or an acknowledgement that is not accepted is malformed. */
  lemma PacketErrors(v: Version, header: byte, kind: nat, body: bytes)
    requires v == V311 || v == V50
    ensures OkOrMalformed(DecodePublish(v, header, body))
    ensures OkOrMalformed(DecodeAck(v, kind, body))
  {
    ReadStringExactly(body);
    forall s
      ensures OkOrMalformed(ReadId(Qos(header), s)) && OkOrMalformed(ReadBlock(v, s))
    {
      BlockErrors(s, Publish);
    }
    forall s, ctx
      ensures OkOrMalformed(Decode(s, ctx))
    {
      BlockErrors(s, ctx);
    }
  }
}
