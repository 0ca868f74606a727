/** Well-formed UTF-8 is exactly what encoding Unicode scalar values gives (RFC 3629, section 3). */
module Utf8 {
  import opened Bytes

  predicate Scalar(c: nat) {
    c <= 0x10FFFF && !(0xD800 <= c <= 0xDFFF)
  }

  function EncodeRune(c: nat): bytes
    requires Scalar(c)
  {
    if c < 0x80 then [c]
    else if c < 0x800 then [0xC0 + c / 0x40, 0x80 + c % 0x40]
    else if c < 0x1_0000 then [0xE0 + c / 0x1000, 0x80 + c / 0x40 % 0x40, 0x80 + c % 0x40]
    else [0xF0 + c / 0x4_0000, 0x80 + c / 0x1000 % 0x40, 0x80 + c / 0x40 % 0x40, 0x80 + c % 0x40]
  }

  function Encode(cs: seq<nat>): bytes
    requires forall c | c in cs :: Scalar(c)
  {
    if cs == [] then [] else EncodeRune(cs[0]) + Encode(cs[1..])
  }

  lemma RuneAccepted(c: nat, rest: bytes)
    requires Scalar(c)
    ensures RuneLen(EncodeRune(c) + rest) == |EncodeRune(c)|
  {
  }

  /** The six-bit digits of a number. */
  lemma SixBits(a: nat, b: nat, d: nat, e: nat)
    requires b < 0x40 && d < 0x40 && e < 0x40
    ensures var c := ((a * 0x40 + b) * 0x40 + d) * 0x40 + e;
      c % 0x40 == e && c / 0x40 % 0x40 == d && c / 0x1000 % 0x40 == b && c / 0x4_0000 == a && c / 0x1000 == a * 0x40 + b
  {
    var c := ((a * 0x40 + b) * 0x40 + d) * 0x40 + e;
    assert c / 0x40 == (a * 0x40 + b) * 0x40 + d;
    assert c / 0x1000 == c / 0x40 / 0x40;
    assert c / 0x4_0000 == c / 0x1000 / 0x40;
  }

  /** The scalar value of an accepted sequence. */
  lemma AcceptedRune(s: bytes) returns (c: nat)
    requires RuneLen(s) > 0
    ensures RuneLen(s) <= |s| && Scalar(c) && s[..RuneLen(s)] == EncodeRune(c)
  {
    var n := RuneLen(s);
    if n == 1 {
      c := s[0];
    } else if n == 2 {
      c := TwoBytes(s[..2]);
    } else if n == 3 {
      c := ThreeBytes(s[..3]);
    } else {
      c := FourBytes(s[..4]);
    }
  }

  lemma TwoBytes(s: bytes) returns (c: nat)
    requires |s| == 2 && 0xC2 <= s[0] <= 0xDF && Cont(s[1])
    ensures Scalar(c) && s == EncodeRune(c)
  {
    SixBits(0, 0, s[0] - 0xC0, s[1] - 0x80);
    c := (s[0] - 0xC0) as int * 0x40 + (s[1] - 0x80);
  }

  lemma ThreeBytes(s: bytes) returns (c: nat)
    requires |s| == 3 && 0xE0 <= s[0] <= 0xEF && Cont(s[1]) && Cont(s[2])
    requires (s[0] == 0xE0 ==> s[1] >= 0xA0) && (s[0] == 0xED ==> s[1] <= 0x9F)
    ensures Scalar(c) && s == EncodeRune(c)
  {
    SixBits(0, s[0] - 0xE0, s[1] - 0x80, s[2] - 0x80);
    c := ((s[0] - 0xE0) as int * 0x40 + (s[1] - 0x80)) * 0x40 + (s[2] - 0x80);
  }

  lemma FourBytes(s: bytes) returns (c: nat)
    requires |s| == 4 && 0xF0 <= s[0] <= 0xF4 && Cont(s[1]) && Cont(s[2]) && Cont(s[3])
    requires (s[0] == 0xF0 ==> s[1] >= 0x90) && (s[0] == 0xF4 ==> s[1] <= 0x8F)
    ensures Scalar(c) && s == EncodeRune(c)
  {
    SixBits(s[0] - 0xF0, s[1] - 0x80, s[2] - 0x80, s[3] - 0x80);
    c := (((s[0] - 0xF0) as int * 0x40 + (s[1] - 0x80)) * 0x40 + (s[2] - 0x80)) * 0x40 + (s[3] - 0x80);
  }

  lemma {:induction false} EncodedIsUtf8(cs: seq<nat>)
    requires forall c | c in cs :: Scalar(c)
    ensures Bytes.Utf8(Encode(cs))
  {
    if cs != [] {
      EncodedIsUtf8(cs[1..]);
      RuneAccepted(cs[0], Encode(cs[1..]));
      assert Encode(cs)[|EncodeRune(cs[0])|..] == Encode(cs[1..]);
    }
  }

  lemma EncodeCons(c: nat, more: seq<nat>)
    requires Scalar(c) && forall x | x in more :: Scalar(x)
    ensures (forall x | x in [c] + more :: Scalar(x)) && Encode([c] + more) == EncodeRune(c) + Encode(more)
  {
    assert ([c] + more)[1..] == more;
  }

  lemma FirstRune(s: bytes) returns (c: nat, n: nat)
    requires Bytes.Utf8(s) && s != []
    ensures 0 < n <= |s| && Bytes.Utf8(s[n..]) && Scalar(c) && s[..n] == EncodeRune(c)
  {
    n := RuneLen(s);
    c := AcceptedRune(s);
  }

  lemma {:induction false} Utf8IsEncoded(s: bytes) returns (cs: seq<nat>)
    requires Bytes.Utf8(s)
    ensures (forall c | c in cs :: Scalar(c)) && s == Encode(cs)
    decreases |s|
  {
    if s == [] {
      cs := [];
    } else {
      hide *;
      var c, n := FirstRune(s);
      var more := Utf8IsEncoded(s[n..]);
      cs := [c] + more;
      EncodeCons(c, more);
      assert s == s[..n] + s[n..];
    }
  }

  /** A byte string is well-formed exactly when it encodes some scalar values. */
  lemma Utf8Exactly(s: bytes)
    ensures Bytes.Utf8(s) <==> exists cs: seq<nat> :: (forall c | c in cs :: Scalar(c)) && s == Encode(cs)
  {
    if Bytes.Utf8(s) {
      var cs := Utf8IsEncoded(s);
    }
    if cs: seq<nat> :| (forall c | c in cs :: Scalar(c)) && s == Encode(cs) {
      EncodedIsUtf8(cs);
    }
  }
}
