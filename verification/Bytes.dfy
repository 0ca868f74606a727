/** Byte strings, and the well-formedness of UTF-8. */
module Bytes {

  type byte = n: nat | n < 0x100

  type bytes = seq<byte>

  /** The byte of an ASCII character. */
  function Ascii(c: char): byte
    requires c as int < 0x80
  {
    c as int
  }

  function AsciiText(t: string): bytes
    requires forall i | 0 <= i < |t| :: t[i] as int < 0x80
  {
    seq(|t|, i requires 0 <= i < |t| => Ascii(t[i]))
  }

  /** The first position of `b`, or the length. */
  function IndexOf(s: bytes, b: byte): nat {
    if s == [] then 0 else if s[0] == b then 0 else 1 + IndexOf(s[1..], b)
  }

  lemma {:induction false} IndexOfSpec(s: bytes, b: byte)
    ensures IndexOf(s, b) <= |s|
    ensures IndexOf(s, b) < |s| <==> b in s
    ensures IndexOf(s, b) < |s| ==> s[IndexOf(s, b)] == b
    ensures b !in s[..IndexOf(s, b)]
  {
    if s != [] && s[0] != b {
      IndexOfSpec(s[1..], b);
      var i := IndexOf(s[1..], b);
      assert s[..1 + i] == [s[0]] + s[1..][..i];
      assert s == [s[0]] + s[1..];
    }
  }

  predicate Cont(b: byte) {
    0x80 <= b <= 0xBF
  }

  /** The length of the well-formed UTF-8 sequence at the start of `s`, or 0 (RFC 3629, section 4). */
  function RuneLen(s: bytes): nat {
    if s == [] then 0
    else if s[0] < 0x80 then 1
    else if 0xC2 <= s[0] <= 0xDF then (if |s| >= 2 && Cont(s[1]) then 2 else 0)
    else if 0xE0 <= s[0] <= 0xEF then
      (if |s| >= 3 && Cont(s[1]) && Cont(s[2])
          && (s[0] == 0xE0 ==> s[1] >= 0xA0) && (s[0] == 0xED ==> s[1] <= 0x9F) then 3 else 0)
    else if 0xF0 <= s[0] <= 0xF4 then
      (if |s| >= 4 && Cont(s[1]) && Cont(s[2]) && Cont(s[3])
          && (s[0] == 0xF0 ==> s[1] >= 0x90) && (s[0] == 0xF4 ==> s[1] <= 0x8F) then 4 else 0)
    else 0
  }

  predicate Utf8(s: bytes) {
    s == [] || (0 < RuneLen(s) <= |s| && Utf8(s[RuneLen(s)..]))
  }
}
