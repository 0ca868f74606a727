/**
 Where the bytes are: the wire primitives against positional values, so that integers are
 big-endian, variable byte integers have their 7-bit weights and strings follow their length.
 */
module WireLayout {
  import opened Wrappers
  import opened Bytes
  import opened Wire

  /** The value of a byte string, most significant byte first. */
  function BigEndian(s: bytes): nat {
    if s == [] then 0 else 0x100 * BigEndian(s[..|s| - 1]) + s[|s| - 1]
  }

  lemma TwoBytes(s: bytes)
    requires |s| == 2
    ensures BigEndian(s) == 0x100 * s[0] as int + s[1]
  {
    assert s[..1][..0] == [] && BigEndian(s[..1]) == s[0];
  }

  lemma FourBytes(s: bytes)
    requires |s| == 4
    ensures BigEndian(s) == 0x1_0000 * BigEndian(s[..2]) + BigEndian(s[2..])
  {
    assert s[..3][..2] == s[..2] && s[..3][2] == s[2] && s[2..][0] == s[2] && s[2..][1] == s[3];
    TwoBytes(s[2..]);
    assert BigEndian(s[..3]) == 0x100 * BigEndian(s[..2]) + s[2];
  }

  /** Two bytes are accepted as their big-endian value; fewer are malformed. */
  lemma ReadU16Exactly(s: bytes)
    ensures ReadU16(s) == if |s| < 2 then Err(Malformed) else Ok((BigEndian(s[..2]), s[2..]))
  {
    if |s| >= 2 {
      TwoBytes(s[..2]);
    }
  }

  lemma ReadU32Exactly(s: bytes)
    ensures ReadU32(s) == if |s| < 4 then Err(Malformed) else Ok((BigEndian(s[..4]), s[4..]))
  {
    if |s| >= 4 {
      FourBytes(s[..4]);
      assert s[..4][..2] == s[..2] && s[..4][2..] == s[2..4];
      TwoBytes(s[..2]);
      TwoBytes(s[2..4]);
    }
  }

  lemma U16Layout(v: uint16)
    ensures |U16(v)| == 2 && BigEndian(U16(v)) == v
  {
    TwoBytes(U16(v));
  }

  lemma U32Layout(v: nat)
    requires v < 0x1_0000_0000
    ensures |U32(v)| == 4 && BigEndian(U32(v)) == v
  {
    FourBytes(U32(v));
    assert U32(v)[..2] == U16(v / 0x1_0000) && U32(v)[2..] == U16(v % 0x1_0000);
    U16Layout(v / 0x1_0000);
    U16Layout(v % 0x1_0000);
  }

  // ---------------------------------------------------------------- variable byte integers

  /** Seven bits a byte, least significant first. */
  function Base128(s: bytes): nat {
    if s == [] then 0 else s[0] % 0x80 + 0x80 * Base128(s[1..])
  }

  /** The high bit set on all bytes but the last, which is not a superfluous zero. */
  predicate IsVarint(s: bytes) {
    && 1 <= |s| <= 4
    && (forall i | 0 <= i < |s| - 1 :: s[i] >= 0x80)
    && s[|s| - 1] < 0x80 && (|s| > 1 ==> s[|s| - 1] != 0)
  }

  /** The same for the bytes from some position on. */
  predicate IsTail(s: bytes, left: nat, first: bool) {
    && 1 <= |s| <= left
    && (forall i | 0 <= i < |s| - 1 :: s[i] >= 0x80)
    && s[|s| - 1] < 0x80 && (s[|s| - 1] == 0 ==> first && |s| == 1)
  }

  lemma {:induction false} TailRead(p: bytes, rest: bytes, left: nat, first: bool, short: WireError)
    requires IsTail(p, left, first)
    ensures Digits(p + rest, left, first, short) == Ok((Base128(p), rest))
  {
    var s := p + rest;
    assert s[1..] == p[1..] + rest;
    if |p| == 1 {
      assert p[1..] + rest == rest && Base128(p[1..]) == 0;
    } else {
      TailRead(p[1..], rest, left - 1, false, short);
    }
  }

  lemma {:induction false} ReadTail(s: bytes, left: nat, first: bool, short: WireError) returns (p: bytes)
    requires Digits(s, left, first, short).Ok?
    ensures var (v, rest) := Digits(s, left, first, short).value;
      IsTail(p, left, first) && s == p + rest && Base128(p) == v
  {
    if s[0] < 0x80 {
      p := [s[0]];
      assert p[1..] == [] && s == p + s[1..];
    } else {
      var q := ReadTail(s[1..], left - 1, false, short);
      p := [s[0]] + q;
      assert p[1..] == q && s == [s[0]] + s[1..];
    }
  }

  /** A reader accepts exactly the minimal strings of one to four digits, as their positional value. */
  lemma VarintExactly(s: bytes, v: nat, rest: bytes)
    ensures ReadVarint(s) == Ok((v, rest)) <==> exists p :: IsVarint(p) && Base128(p) == v && s == p + rest
  {
    if ReadVarint(s) == Ok((v, rest)) {
      var p := ReadTail(s, 4, true, Malformed);
      assert IsVarint(p);
    }
    if p :| IsVarint(p) && Base128(p) == v && s == p + rest {
      TailRead(p, rest, 4, true, Malformed);
    }
  }

  /** What is written is the one such string of that value. */
  lemma VarintLayout(v: nat)
    requires v <= MAX_VARINT
    ensures MAX_VARINT == 268_435_455 && IsVarint(EncodeVarint(v)) && Base128(EncodeVarint(v)) == v
  {
    VarintBijection(v, EncodeVarint(v), []);
    assert EncodeVarint(v) + [] == EncodeVarint(v);
    var p := ReadTail(EncodeVarint(v), 4, true, Malformed);
    assert p + [] == p;
  }

  // ---------------------------------------------------------------- strings

  predicate Encodable(t: bytes) {
    |t| <= 65535 && Utf8(t) && 0 !in t
  }

  /** Two bytes of length, then the bytes; anything well-formed, short enough and without U+0000 is written. */
  lemma StringLayout(t: bytes)
    ensures EncodeString(t).Ok? <==> Encodable(t)
    ensures EncodeString(t).Err? ==> EncodeString(t).error == if |t| > 65535 then StringTooLong else ProtocolViolation
    ensures EncodeString(t).Ok? ==> var b := EncodeString(t).value;
      |b| == 2 + |t| && BigEndian(b[..2]) == |t| && b[2..] == t
  {
    if Encodable(t) {
      U16Layout(|t|);
      assert (U16(|t|) + t)[..2] == U16(|t|);
    }
  }

  lemma BinaryLayout(t: bytes)
    ensures EncodeBinary(t) == Err(StringTooLong) <==> |t| > 65535
    ensures |t| <= 65535 ==> EncodeBinary(t).Ok? && var b := EncodeBinary(t).value;
      |b| == 2 + |t| && BigEndian(b[..2]) == |t| && b[2..] == t
  {
    if |t| <= 65535 {
      U16Layout(|t|);
      assert (U16(|t|) + t)[..2] == U16(|t|);
    }
  }

  /** What follows a length that the bytes left can satisfy is accepted. */
  lemma ReadBinaryExactly(s: bytes)
    ensures ReadBinary(s) ==
      if |s| < 2 || BigEndian(s[..2]) > |s| - 2 then Err(Malformed)
      else Ok((s[2..2 + BigEndian(s[..2])], s[2 + BigEndian(s[..2])..]))
  {
    ReadU16Exactly(s);
    if |s| >= 2 && BigEndian(s[..2]) <= |s| - 2 {
      assert s[2..][..BigEndian(s[..2])] == s[2..2 + BigEndian(s[..2])];
      assert s[2..][BigEndian(s[..2])..] == s[2 + BigEndian(s[..2])..];
    }
  }

  lemma ReadStringExactly(s: bytes)
    ensures ReadString(s) ==
      if |s| < 2 || BigEndian(s[..2]) > |s| - 2 || !Encodable(s[2..2 + BigEndian(s[..2])]) then Err(Malformed)
      else Ok((s[2..2 + BigEndian(s[..2])], s[2 + BigEndian(s[..2])..]))
  {
    ReadBinaryExactly(s);
    if |s| >= 2 {
      TwoBytes(s[..2]);
    }
  }

  // ---------------------------------------------------------------- fixed headers

  /** The fixed-header bytes that are not malformed, one by one. */
  const HEADERS: set<byte> := {
    0x10, 0x20, 0x30, 0x31, 0x32, 0x33, 0x34, 0x35, 0x3A, 0x3B, 0x3C, 0x3D, 0x40, 0x50, 0x62, 0x70,
    0x82, 0x90, 0xA2, 0xB0, 0xC0, 0xD0, 0xE0, 0xF0}

  lemma FlagsExactly(f: Frame)
    ensures ValidFlags(f) <==> f.header in HEADERS
  {
    var k, flags := f.header / 0x10, f.header % 0x10;
    assert f.header == 0x10 * k + flags;
  }
}
