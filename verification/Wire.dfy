/**
 The MQTT wire primitives: variable byte integers, two- and four-byte integers, strings, binary
 data and frames. A reader takes the unread bytes and gives back the value and what follows it.
 */
module Wire {
  import opened Wrappers
  import opened Bytes

  datatype WireError = Malformed | ProtocolViolation | StringTooLong | FrameTooLarge | EndOfStream

  type Read<T> = Result<(T, bytes), WireError>

  newtype uint32 = n: int | 0 <= n < 0x1_0000_0000

  const MAX_VARINT: nat := 0x0FFF_FFFF
  const MAX_STRING_LEN: nat := 0xFFFF

  // ---------------------------------------------------------------- variable byte integers

  /** Base 128, least significant digit first, the high bit marking that another digit follows. */
  function EncodeVarint(v: nat): bytes {
    if v < 0x80 then [v] else [v % 0x80 + 0x80] + EncodeVarint(v / 0x80)
  }

  function VarintLen(v: nat): nat {
    if v < 0x80 then 1 else if v < 0x4000 then 2 else if v < 0x20_0000 then 3 else 4
  }

  /** Reads at most `left` digits; `short` is the error of running out of bytes. */
  function Digits(s: bytes, left: nat, first: bool, short: WireError): Read<nat> {
    if left == 0 then Err(Malformed)
    else if s == [] then Err(short)
    else if s[0] < 0x80 then
      if !first && s[0] == 0 then Err(Malformed) else Ok((s[0], s[1..]))
    else
      match Digits(s[1..], left - 1, false, short)
      case Err(e) => Err(e)
      case Ok((v, rest)) => Ok((s[0] - 0x80 + 0x80 * v, rest))
  }

  function ReadVarint(s: bytes): Read<nat> {
    Digits(s, 4, true, Malformed)
  }

  function ReadVarintFrom(s: bytes): Read<nat> {
    Digits(s, 4, true, EndOfStream)
  }

  method AppendVarint(buf: bytes, v: nat) returns (out: bytes)
    ensures out == buf + EncodeVarint(v)
  {
    out := buf;
    var rest := v;
    while true
      invariant buf + EncodeVarint(v) == out + EncodeVarint(rest)
      decreases rest
    {
      var digit := rest % 0x80;
      ghost var whole := rest;
      rest := rest / 0x80;
      if rest > 0 {
        digit := digit + 0x80;
      }
      assert EncodeVarint(whole) == [digit] + (if rest > 0 then EncodeVarint(rest) else []);
      out := out + [digit];
      if rest == 0 {
        return;
      }
    }
  }

  /** The weight of the digit at index `i`. */
  function Weight(i: nat): nat {
    if i == 0 then 1 else if i == 1 then 0x80 else if i == 2 then 0x4000 else 0x20_0000
  }

  /** One more than the largest value of `left` digits. */
  function Bound(left: nat): nat {
    if left == 0 then 1 else if left == 1 then 0x80 else if left == 2 then 0x4000 else if left == 3 then 0x20_0000
    else 0x1000_0000
  }

  /** What reading the digits from index `i` on adds to the value accumulated before them. */
  function Continued(value: nat, i: nat, r: Read<nat>): Read<nat> {
    match r
    case Err(e) => Err(e)
    case Ok((v, rest)) => Ok((value + Weight(i) * v, rest))
  }

  /** Going on past a digit that another one follows. */
  lemma ContinuedStep(value: nat, i: nat, s: bytes, short: WireError)
    requires i < 4 && s != [] && s[0] >= 0x80
    ensures Continued(value, i, Digits(s, 4 - i, i == 0, short))
         == Continued(value + Weight(i) * (s[0] % 0x80), i + 1, Digits(s[1..], 3 - i, false, short))
  {
  }

  lemma ContinuedEnd(value: nat, i: nat, s: bytes, short: WireError)
    requires i < 4 && (s == [] || s[0] < 0x80)
    ensures Continued(value, i, Digits(s, 4 - i, i == 0, short)) ==
      if s == [] then Err(short)
      else if i > 0 && s[0] == 0 then Err(Malformed)
      else Ok((value + Weight(i) * (s[0] % 0x80), s[1..]))
  {
  }

  /** Both readers' loop: the digits are shifted into place one after the other. */
  method ReadDigits(s: bytes, short: WireError) returns (r: Read<nat>)
    ensures r == Digits(s, 4, true, short)
  {
    var value: nat := 0;
    var rest := s;
    for i := 0 to 4
      invariant Digits(s, 4, true, short) == Continued(value, i, Digits(rest, 4 - i, i == 0, short))
    {
      hide Digits;
      if rest == [] {
        ContinuedEnd(value, i, rest, short);
        return Err(short);
      }
      var b := rest[0];
      if b < 0x80 {
        ContinuedEnd(value, i, rest, short);
        if i > 0 && b == 0 {
          return Err(Malformed);
        }
        return Ok((value + Weight(i) * (b % 0x80), rest[1..]));
      }
      ContinuedStep(value, i, rest, short);
      value := value + Weight(i) * (b % 0x80);
      rest := rest[1..];
    }
    r := Err(Malformed);
  }

  lemma {:induction false} EncodeVarintLen(v: nat)
    requires v <= MAX_VARINT
    ensures |EncodeVarint(v)| == VarintLen(v)
  {
    if v >= 0x80 {
      assert EncodeVarint(v) == [v % 0x80 + 0x80] + EncodeVarint(v / 0x80);
      if v / 0x80 >= 0x80 {
        assert EncodeVarint(v / 0x80) == [v / 0x80 % 0x80 + 0x80] + EncodeVarint(v / 0x80 / 0x80);
        assert v / 0x80 / 0x80 == v / 0x4000;
        if v / 0x4000 >= 0x80 {
          assert EncodeVarint(v / 0x4000) == [v / 0x4000 % 0x80 + 0x80] + EncodeVarint(v / 0x4000 / 0x80);
        }
      }
    }
  }

  /** The digits a value below 128^left needs are read back, whatever follows them. */
  lemma {:induction false} DigitsUndoEncode(v: nat, left: nat, first: bool, short: WireError, rest: bytes)
    requires 1 <= left <= 4 && v < Bound(left) && (first || v > 0)
    ensures Digits(EncodeVarint(v) + rest, left, first, short) == Ok((v, rest))
  {
    var s := EncodeVarint(v) + rest;
    if v < 0x80 {
      assert s[1..] == rest;
    } else {
      assert s[1..] == EncodeVarint(v / 0x80) + rest;
      DigitsUndoEncode(v / 0x80, left - 1, false, short, rest);
    }
  }

  lemma EncodeDigit(b: byte, v: nat)
    requires b >= 0x80 && v > 0
    ensures EncodeVarint(b - 0x80 + 0x80 * v) == [b] + EncodeVarint(v)
  {
    var w := b - 0x80 + 0x80 * v;
    assert w / 0x80 == v && w % 0x80 == b - 0x80;
  }

  /** Accepted digits are the encoding of the value they stand for. */
  lemma {:induction false} DigitsAreEncoding(s: bytes, left: nat, first: bool, short: WireError)
    requires left <= 4 && Digits(s, left, first, short).Ok?
    ensures var (v, rest) := Digits(s, left, first, short).value;
      s == EncodeVarint(v) + rest && left > 0 && v < Bound(left) && (first || v > 0)
  {
    if s[0] >= 0x80 {
      DigitsAreEncoding(s[1..], left - 1, false, short);
      var (v', rest) := Digits(s[1..], left - 1, false, short).value;
      EncodeDigit(s[0], v');
      assert s == [s[0]] + s[1..];
    } else {
      assert s == [s[0]] + s[1..];
    }
  }

  /**
   Variable byte integers are a bijection: a value up to the maximum is read back from its
   encoding, and an accepted value encodes to the very bytes read.
   */
  lemma VarintBijection(v: nat, s: bytes, rest: bytes)
    ensures v <= MAX_VARINT ==> ReadVarint(EncodeVarint(v) + rest) == Ok((v, rest))
    ensures ReadVarint(s) == Ok((v, rest)) ==> v <= MAX_VARINT && s == EncodeVarint(v) + rest
  {
    if v <= MAX_VARINT {
      DigitsUndoEncode(v, 4, true, Malformed, rest);
    }
    if ReadVarint(s).Ok? {
      DigitsAreEncoding(s, 4, true, Malformed);
    }
  }

  /** The stream reader and the cursor reader accept the same bytes as the same value. */
  lemma {:induction false} ReadersAgree(s: bytes, left: nat, first: bool)
    ensures Digits(s, left, first, EndOfStream).Ok? == Digits(s, left, first, Malformed).Ok?
    ensures Digits(s, left, first, EndOfStream).Ok? ==> Digits(s, left, first, EndOfStream) == Digits(s, left, first, Malformed)
  {
    if left > 0 && s != [] && s[0] >= 0x80 {
      ReadersAgree(s[1..], left - 1, false);
    }
  }

  // ---------------------------------------------------------------- integers, strings and binary data

  type uint16 = n: nat | n < 0x1_0000

  function U16(v: uint16): bytes {
    [v / 0x100, v % 0x100]
  }

  function U32(v: nat): bytes
    requires v < 0x1_0000_0000
  {
    U16(v / 0x1_0000) + U16(v % 0x1_0000)
  }

  function Join16(hi: byte, lo: byte): uint16 {
    hi as int * 0x100 + lo
  }

  function Join32(a: byte, b: byte, c: byte, d: byte): nat {
    Join16(a, b) as int * 0x1_0000 + Join16(c, d)
  }

  function ReadByte(s: bytes): Read<byte> {
    if |s| < 1 then Err(Malformed) else Ok((s[0], s[1..]))
  }

  function ReadU16(s: bytes): Read<uint16> {
    if |s| < 2 then Err(Malformed) else Ok((Join16(s[0], s[1]), s[2..]))
  }

  function ReadU32(s: bytes): Read<nat> {
    if |s| < 4 then Err(Malformed)
    else Ok((Join32(s[0], s[1], s[2], s[3]), s[4..]))
  }

  /** Well-formed UTF-8 without U+0000. */
  predicate Text(s: bytes) {
    Utf8(s) && 0 !in s
  }

  function EncodeString(s: bytes): Result<bytes, WireError> {
    if |s| > MAX_STRING_LEN then Err(StringTooLong)
    else if !Utf8(s) then Err(ProtocolViolation)
    else if 0 in s then Err(ProtocolViolation)
    else Ok(U16(|s|) + s)
  }

  function EncodeBinary(b: bytes): Result<bytes, WireError> {
    if |b| > MAX_STRING_LEN then Err(StringTooLong) else Ok(U16(|b|) + b)
  }

  function ReadBinary(s: bytes): Read<bytes> {
    match ReadU16(s)
    case Err(e) => Err(e)
    case Ok((n, rest)) => if |rest| < n then Err(Malformed) else Ok((rest[..n], rest[n..]))
  }

  function ReadString(s: bytes): Read<bytes> {
    match ReadBinary(s)
    case Err(e) => Err(e)
    case Ok((t, rest)) => if Text(t) then Ok((t, rest)) else Err(Malformed)
  }

  lemma U16RoundTrip(v: uint16, rest: bytes)
    ensures ReadU16(U16(v) + rest) == Ok((v, rest))
  {
    assert (U16(v) + rest)[2..] == rest;
  }

  lemma U16Canonical(s: bytes)
    requires ReadU16(s).Ok?
    ensures s == U16(ReadU16(s).value.0) + ReadU16(s).value.1
  {
  }

  lemma U32RoundTrip(v: nat, rest: bytes)
    requires v < 0x1_0000_0000
    ensures ReadU32(U32(v) + rest) == Ok((v, rest))
  {
    assert (U32(v) + rest)[4..] == rest;
  }

  lemma U32Canonical(s: bytes)
    requires ReadU32(s).Ok?
    ensures ReadU32(s).value.0 < 0x1_0000_0000
    ensures s == U32(ReadU32(s).value.0) + ReadU32(s).value.1
  {
    var v, hi, lo := ReadU32(s).value.0, Join16(s[0], s[1]), Join16(s[2], s[3]);
    assert v / 0x1_0000 == hi && v % 0x1_0000 == lo;
  }

  lemma BinaryRoundTrip(b: bytes, rest: bytes)
    requires |b| <= MAX_STRING_LEN
    ensures ReadBinary(U16(|b|) + b + rest) == Ok((b, rest))
  {
    assert U16(|b|) + b + rest == U16(|b|) + (b + rest);
    U16RoundTrip(|b|, b + rest);
  }

  lemma BinaryCanonical(s: bytes)
    requires ReadBinary(s).Ok?
    ensures var (b, rest) := ReadBinary(s).value;
      |b| <= MAX_STRING_LEN && s == U16(|b|) + b + rest
  {
    U16Canonical(s);
  }

  /** An encodable string is read back; an accepted string encodes to the bytes read. */
  lemma StringRoundTrip(t: bytes, s: bytes, rest: bytes)
    ensures EncodeString(t).Ok? ==> ReadString(EncodeString(t).value + rest) == Ok((t, rest))
    ensures ReadString(s) == Ok((t, rest)) ==> EncodeString(t).Ok? && s == EncodeString(t).value + rest
  {
    if EncodeString(t).Ok? {
      BinaryRoundTrip(t, rest);
    }
    if ReadString(s) == Ok((t, rest)) {
      BinaryCanonical(s);
    }
  }

  // ---------------------------------------------------------------- the cursor

  /** What a cursor method returns and leaves, against the reader on the bytes it had left. */
  predicate Follows<T(==)>(r: Result<T, WireError>, spec: Read<T>, left: bytes) {
    match spec
    case Ok((v, rest)) => r == Ok(v) && left == rest
    case Err(e) => r == Err(e)
  }

  class Cursor {
    const buf: bytes
    var pos: nat

    constructor (b: bytes)
      ensures buf == b && pos == 0 && Valid() && Left() == b
    {
      buf, pos := b, 0;
    }

    ghost predicate Valid()
      reads this
    {
      pos <= |buf|
    }

    ghost function Left(): bytes
      requires Valid()
      reads this
    {
      buf[pos..]
    }

    method NextByte() returns (r: Result<byte, WireError>)
      requires Valid()
      modifies this
      ensures Valid() && Follows(r, ReadByte(old(Left())), Left())
    {
      if |buf| - pos < 1 {
        return Err(Malformed);
      }
      r := Ok(buf[pos]);
      pos := pos + 1;
    }

    method NextU16() returns (r: Result<uint16, WireError>)
      requires Valid()
      modifies this
      ensures Valid() && Follows(r, ReadU16(old(Left())), Left())
      ensures r.Ok? ==> pos == old(pos) + 2 && r.value == 0x100 * buf[pos - 2] as int + buf[pos - 1] as int
    {
      if |buf| - pos < 2 {
        return Err(Malformed);
      }
      r := Ok(Join16(buf[pos], buf[pos + 1]));
      pos := pos + 2;
    }

    method NextU32() returns (r: Result<nat, WireError>)
      requires Valid()
      modifies this
      ensures Valid() && Follows(r, ReadU32(old(Left())), Left())
      ensures r.Ok? ==> pos == old(pos) + 4
      ensures r.Ok? ==>
        r.value == 0x100_0000 * buf[pos - 4] as int + 0x1_0000 * buf[pos - 3] as int + 0x100 * buf[pos - 2] as int + buf[pos - 1] as int
    {
      if |buf| - pos < 4 {
        return Err(Malformed);
      }
      r := Ok(Join32(buf[pos], buf[pos + 1], buf[pos + 2], buf[pos + 3]));
      pos := pos + 4;
    }

    method NextVarint() returns (r: Result<nat, WireError>)
      requires Valid()
      modifies this
      ensures Valid() && Follows(r, ReadVarint(old(Left())), Left())
    {
      var v := ReadDigits(buf[pos..], Malformed);
      if v.Err? {
        return Err(v.error);
      }
      VarintBijection(v.value.0, buf[pos..], v.value.1);
      pos := |buf| - |v.value.1|;
      r := Ok(v.value.0);
    }

    method NextBinary() returns (r: Result<bytes, WireError>)
      requires Valid()
      modifies this
      ensures Valid() && Follows(r, ReadBinary(old(Left())), Left())
    {
      var n := NextU16();
      if n.Err? {
        return Err(n.error);
      }
      if |buf| - pos < n.value {
        return Err(Malformed);
      }
      assert Left()[..n.value] == buf[pos..pos + n.value];
      r := Ok(buf[pos..pos + n.value]);
      pos := pos + n.value;
    }

    method NextString() returns (r: Result<bytes, WireError>)
      requires Valid()
      modifies this
      ensures Valid() && Follows(r, ReadString(old(Left())), Left())
    {
      var b := NextBinary();
      if b.Err? {
        return Err(b.error);
      }
      if !Utf8(b.value) || 0 in b.value {
        return Err(Malformed);
      }
      r := b;
    }

    method NextRest() returns (r: bytes)
      requires Valid()
      modifies this
      ensures Valid() && r == old(Left()) && Left() == []
    {
      r := buf[pos..];
      pos := |buf|;
    }
  }

  // ---------------------------------------------------------------- frames

  datatype Frame = Frame(header: byte, body: bytes) {
    function Kind(): nat {
      header / 0x10
    }
  }

  const PUBLISH: nat := 3
  const PUBACK: nat := 4
  const PUBREC: nat := 5
  const PUBREL: nat := 6
  const PUBCOMP: nat := 7
  const SUBSCRIBE: nat := 8
  const UNSUBSCRIBE: nat := 10

  /** The reserved flag bits of each packet type; PUBLISH excludes QoS 3 and DUP at QoS 0. */
  predicate ValidFlags(f: Frame) {
    var flags := f.header % 0x10;
    if f.Kind() == PUBLISH then flags / 2 % 4 != 3 && (flags / 2 % 4 == 0 ==> flags / 8 == 0)
    else if f.Kind() in {PUBREL, SUBSCRIBE, UNSUBSCRIBE} then flags == 2
    else f.Kind() != 0 && flags == 0
  }

  /** The bytes of a packet on the wire. */
  function OnWire(f: Frame): bytes {
    [f.header] + EncodeVarint(|f.body|) + f.body
  }

  /** Reads one packet whose total size is at most `cap`. */
  function ReadFrame(s: bytes, cap: nat): Read<Frame> {
    if s == [] then Err(EndOfStream)
    else match ReadVarintFrom(s[1..])
      case Err(e) => Err(e)
      case Ok((n, rest)) =>
        if 1 + VarintLen(n) + n > cap then Err(FrameTooLarge)
        else if |rest| < n then Err(EndOfStream)
        else Ok((Frame(s[0], rest[..n]), rest[n..]))
  }

  /** The size check in 32-bit arithmetic, subtracting from the cap so that nothing can wrap. */
  method NextFrame(s: bytes, cap: uint32) returns (r: Read<Frame>)
    ensures r == ReadFrame(s, cap as nat)
  {
    if s == [] {
      return Err(EndOfStream);
    }
    var v := ReadDigits(s[1..], EndOfStream);
    if v.Err? {
      return Err(v.error);
    }
    DigitsAreEncoding(s[1..], 4, true, EndOfStream);
    var length := v.value.0 as uint32;
    var overhead := 1 + VarintLen(v.value.0) as uint32;
    if cap < overhead || length > cap - overhead {
      return Err(FrameTooLarge);
    }
    var n, rest := length as nat, v.value.1;
    if |rest| < n {
      return Err(EndOfStream);
    }
    r := Ok((Frame(s[0], rest[..n]), rest[n..]));
  }

  /** A frame is read back from its bytes exactly when its whole size is within the cap. */
  lemma FrameRoundTrip(f: Frame, rest: bytes, cap: nat)
    requires |f.body| <= MAX_VARINT
    ensures |OnWire(f)| == 1 + VarintLen(|f.body|) + |f.body|
    ensures ReadFrame(OnWire(f) + rest, cap) == if |OnWire(f)| <= cap then Ok((f, rest)) else Err(FrameTooLarge)
  {
    var s := OnWire(f) + rest;
    EncodeVarintLen(|f.body|);
    assert s[1..] == EncodeVarint(|f.body|) + (f.body + rest);
    DigitsUndoEncode(|f.body|, 4, true, EndOfStream, f.body + rest);
  }

  lemma FrameBytes(s: bytes, f: Frame, rest: bytes, cap: nat)
    requires ReadFrame(s, cap) == Ok((f, rest))
    requires ReadVarintFrom(s[1..]).Ok?
    requires s[1..] == EncodeVarint(ReadVarintFrom(s[1..]).value.0) + ReadVarintFrom(s[1..]).value.1
    ensures s == OnWire(f) + rest
  {
    assert ReadVarintFrom(s[1..]).value.1 == f.body + rest;
    assert s == [s[0]] + s[1..];
  }

  /** What is accepted is one frame's bytes, of total size within the cap, and what follows. */
  lemma FrameAcceptance(s: bytes, f: Frame, rest: bytes, cap: nat)
    ensures ReadFrame(s, cap) == Ok((f, rest)) <==>
      |f.body| <= MAX_VARINT && |OnWire(f)| <= cap && s == OnWire(f) + rest
  {
    if ReadFrame(s, cap) == Ok((f, rest)) {
      DigitsAreEncoding(s[1..], 4, true, EndOfStream);
      FrameBytes(s, f, rest, cap);
      FrameRoundTrip(f, rest, cap);
    } else if |f.body| <= MAX_VARINT && |OnWire(f)| <= cap && s == OnWire(f) + rest {
      FrameRoundTrip(f, rest, cap);
    }
  }
}
