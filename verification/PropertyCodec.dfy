/**
 The property encoder and decoder as they run: a growing buffer in one direction, a cursor and a
 64-bit mask of the identifiers already met in the other.
 */
module PropertyCodec {
  import opened Wrappers
  import opened Bits
  import opened Bytes
  import opened Wire
  import opened Properties

  // ---------------------------------------------------------------- encoding

  /** What has been written, followed by what an encoder still gives. */
  function Prepend(done: bytes, r: Result<bytes, WireError>): Result<bytes, WireError> {
    match r
    case Ok(b) => Ok(done + b)
    case Err(e) => Err(e)
  }

  lemma PrependTwice(a: bytes, b: bytes, r: Result<bytes, WireError>)
    ensures Prepend(a, Prepend(b, r)) == Prepend(a + b, r)
  {
    if r.Ok? {
      Assoc(a, b, r.value);
    }
  }

  lemma PrependNothing(r: Result<bytes, WireError>)
    ensures Prepend([], r) == r
  {
    if r.Ok? {
      assert [] + r.value == r.value;
    }
  }

  method AppendString(buf: bytes, t: bytes) returns (r: Result<bytes, WireError>)
    ensures r == Prepend(buf, EncodeString(t))
  {
    if |t| > MAX_STRING_LEN {
      return Err(StringTooLong);
    }
    if !Utf8(t) || 0 in t {
      return Err(ProtocolViolation);
    }
    Assoc(buf, U16(|t|), t);
    r := Ok(buf + U16(|t|) + t);
  }

  method AppendBinary(buf: bytes, t: bytes) returns (r: Result<bytes, WireError>)
    ensures r == Prepend(buf, EncodeBinary(t))
  {
    if |t| > MAX_STRING_LEN {
      return Err(StringTooLong);
    }
    Assoc(buf, U16(|t|), t);
    r := Ok(buf + U16(|t|) + t);
  }

  lemma SubIdsStep(l: seq<nat>, i: nat)
    requires i < |l|
    ensures EncodeSubIds(l[i..]) ==
      if l[i] == 0 || l[i] > MAX_VARINT then Err(ProtocolViolation)
      else Prepend([SUB_ID] + EncodeVarint(l[i]), EncodeSubIds(l[i + 1..]))
  {
    hide EncodeVarint;
    assert l[i..][1..] == l[i + 1..];
  }

  method AppendSubIds(buf: bytes, l: seq<nat>) returns (r: Result<bytes, WireError>)
    ensures r == Prepend(buf, EncodeSubIds(l))
  {
    var out := buf;
    assert l[0..] == l;
    for i := 0 to |l|
      invariant Prepend(buf, EncodeSubIds(l)) == Prepend(out, EncodeSubIds(l[i..]))
    {
      SubIdsStep(l, i);
      if l[i] == 0 || l[i] > MAX_VARINT {
        return Err(ProtocolViolation);
      }
      PrependTwice(out, [SUB_ID] + EncodeVarint(l[i]), EncodeSubIds(l[i + 1..]));
      Assoc(out, [SUB_ID], EncodeVarint(l[i]));
      out := AppendVarint(out + [SUB_ID], l[i]);
    }
    assert out + [] == out;
    r := Ok(out);
  }

  lemma UsersStep(l: seq<(bytes, bytes)>, i: nat)
    requires i < |l|
    ensures EncodeString(l[i].0).Err? ==> EncodeUsers(l[i..]) == Err(EncodeString(l[i].0).error)
    ensures EncodeString(l[i].0).Ok? && EncodeString(l[i].1).Err? ==>
      EncodeUsers(l[i..]) == Err(EncodeString(l[i].1).error)
    ensures EncodeString(l[i].0).Ok? && EncodeString(l[i].1).Ok? ==>
      EncodeUsers(l[i..]) == Prepend(UserBytes(l[i].0, l[i].1), EncodeUsers(l[i + 1..]))
  {
    hide EncodeString;
    assert l[i..][1..] == l[i + 1..];
  }

  method AppendUsers(buf: bytes, l: seq<(bytes, bytes)>) returns (r: Result<bytes, WireError>)
    ensures r == Prepend(buf, EncodeUsers(l))
  {
    hide EncodeString, EncodeUsers;
    var out := buf;
    assert l[0..] == l;
    for i := 0 to |l|
      invariant Prepend(buf, EncodeUsers(l)) == Prepend(out, EncodeUsers(l[i..]))
    {
      UsersStep(l, i);
      ghost var k, v := EncodeString(l[i].0), EncodeString(l[i].1);
      var withKey := AppendString(out + [USER], l[i].0);
      if withKey.Err? {
        return withKey;
      }
      var withValue := AppendString(withKey.value, l[i].1);
      if withValue.Err? {
        return withValue;
      }
      PrependTwice(out, UserBytes(l[i].0, l[i].1), EncodeUsers(l[i + 1..]));
      Assoc(out, [USER], k.value);
      Assoc(out, [USER] + k.value, v.value);
      out := withValue.value;
    }
    assert l[|l|..] == [];
    NoUsers(out);
    r := Ok(out);
  }

  lemma NoUsers(out: bytes)
    ensures Prepend(out, EncodeUsers([])) == Ok(out)
  {
    assert out + [] == out;
  }

  /** Appends the properties of one identifier. */
  method AppendOne(buf: bytes, p: Properties, id: byte, ctx: Context) returns (r: Result<bytes, WireError>)
    ensures r == Prepend(buf, EncodeOne(p, id, ctx))
  {
    hide EncodeString, EncodeBinary, EncodeSubIds, EncodeUsers;
    if !Present(p, id) {
      assert buf + [] == buf;
      return Ok(buf);
    }
    if ctx !in Allowed(id) {
      return Err(ProtocolViolation);
    }
    match ShapeOf(id) {
      case SubId =>
        if ctx == Subscribe && |p.subIds| > 1 {
          return Err(ProtocolViolation);
        }
        r := AppendSubIds(buf, p.subIds);
      case Pair =>
        r := AppendUsers(buf, p.users);
      case Str =>
        r := AppendString(buf + [id], p.texts[id]);
        AfterId(buf, id, EncodeString(p.texts[id]));
      case Bin =>
        r := AppendBinary(buf + [id], p.texts[id]);
        AfterId(buf, id, EncodeBinary(p.texts[id]));
      case sh =>
        if p.nums[id] >= Limit(sh) || BadValue(id, p.nums[id]) {
          return Err(ProtocolViolation);
        }
        r := Ok(buf + [id] + NumBytes(sh, p.nums[id]));
        Assoc(buf, [id], NumBytes(sh, p.nums[id]));
    }
  }

  lemma AfterId(buf: bytes, id: byte, r: Result<bytes, WireError>)
    ensures Prepend(buf + [id], r) == Prepend(buf, Prepend([id], r))
  {
    PrependTwice(buf, [id], r);
  }

  lemma IdsStep(p: Properties, ids: bytes, i: nat, ctx: Context)
    requires i < |ids|
    ensures EncodeIds(p, ids[i..], ctx) ==
      match EncodeOne(p, ids[i], ctx) { case Err(e) => Err(e) case Ok(b) => Prepend(b, EncodeIds(p, ids[i + 1..], ctx)) }
  {
    hide EncodeOne;
    assert ids[i..][1..] == ids[i + 1..];
  }

  method AppendIds(p: Properties, ids: bytes, ctx: Context) returns (r: Result<bytes, WireError>)
    ensures r == EncodeIds(p, ids, ctx)
  {
    hide EncodeOne;
    var body: bytes := [];
    PrependNothing(EncodeIds(p, ids, ctx));
    assert ids[0..] == ids;
    for i := 0 to |ids|
      invariant EncodeIds(p, ids, ctx) == Prepend(body, EncodeIds(p, ids[i..], ctx))
    {
      IdsStep(p, ids, i, ctx);
      var one := AppendOne(body, p, ids[i], ctx);
      if one.Err? {
        return one;
      }
      PrependTwice(body, EncodeOne(p, ids[i], ctx).value, EncodeIds(p, ids[i + 1..], ctx));
      body := one.value;
    }
    assert body + [] == body;
    r := Ok(body);
  }

  /** Nothing is appended to the caller's buffer unless the whole set can be written. */
  method AppendProperties(buf: bytes, p: Option<Properties>, ctx: Context) returns (r: Result<bytes, WireError>)
    ensures r == Prepend(buf, Encode(p, ctx))
  {
    hide EncodeIds;
    if p.None? {
      return Ok(buf + [0]);
    }
    var body := AppendIds(p.value, IDS, ctx);
    if body.Err? {
      return body;
    }
    if |body.value| > MAX_VARINT {
      return Err(FrameTooLarge);
    }
    var out := AppendVarint(buf, |body.value|);
    Assoc(buf, EncodeVarint(|body.value|), body.value);
    r := Ok(out + body.value);
  }

  // ---------------------------------------------------------------- decoding

  /** The mask has exactly the bits of the identifiers in the set. */
  ghost predicate Masks(mask: bv64, seen: set<byte>) {
    forall k: nat :: k < 64 ==> (HasBit(mask, k) <==> k in seen)
  }

  lemma MasksNothing()
    ensures Masks(0, {})
  {
  }

  lemma MaskMarks(mask: bv64, seen: set<byte>, id: byte)
    requires Masks(mask, seen) && id < 64
    ensures Masks(WithBit(mask, id), seen + {id})
  {
    forall k: nat | k < 64
      ensures HasBit(WithBit(mask, id), k) <==> k in seen + {id}
    {
      WithBitHas(mask, id, k);
    }
  }

  lemma KnownFits(id: byte)
    requires Known(id)
    ensures id < 64
  {
  }

  method NextNum(c: Cursor, sh: Shape) returns (r: Result<nat, WireError>)
    requires c.Valid() && sh in {Num8, Num16, Num32}
    modifies c
    ensures c.Valid() && Follows(r, ReadNum(sh, old(c.Left())), c.Left())
  {
    match sh {
      case Num8 =>
        var v := c.NextByte();
        r := if v.Err? then Err(v.error) else Ok(v.value);
      case Num16 =>
        var v := c.NextU16();
        r := if v.Err? then Err(v.error) else Ok(v.value);
      case Num32 =>
        r := c.NextU32();
    }
  }

  method NextPair(c: Cursor) returns (r: Result<Value, WireError>)
    requires c.Valid()
    modifies c
    ensures c.Valid() && Follows(r, ReadPair(old(c.Left())), c.Left())
  {
    var k := c.NextString();
    if k.Err? {
      return Err(k.error);
    }
    var v := c.NextString();
    if v.Err? {
      return Err(v.error);
    }
    r := Ok(PairValue(k.value, v.value));
  }

  /** Reads the value of the property `id`. */
  method NextValue(c: Cursor, id: byte) returns (r: Result<Value, WireError>)
    requires c.Valid()
    modifies c
    ensures c.Valid() && Follows(r, ReadValue(id, old(c.Left())), c.Left())
  {
    match ShapeOf(id) {
      case SubId =>
        var v := c.NextVarint();
        r := if v.Err? then Err(v.error) else if v.value == 0 then Err(Malformed) else Ok(SubIdValue(v.value));
      case Pair =>
        r := NextPair(c);
      case Str =>
        var v := c.NextString();
        r := if v.Err? then Err(v.error) else Ok(TextValue(v.value));
      case Bin =>
        var v := c.NextBinary();
        r := if v.Err? then Err(v.error) else Ok(TextValue(v.value));
      case sh =>
        var v := NextNum(c, sh);
        r := if v.Err? then Err(v.error) else if BadValue(id, v.value) then Err(Malformed) else Ok(NumValue(v.value));
    }
  }

  /** Decodes a block's bytes, one bit of the mask standing for each single-shot property met. */
  method DecodeLoop(body: bytes, ctx: Context) returns (r: Result<Properties, WireError>)
    ensures r == DecodeBody(body, ctx, {}, NONE)
  {
    hide ReadValue, Put, Allowed, Known, Repeatable, HasBit, WithBit;
    var sub := new Cursor(body);
    var p := NONE;
    var mask: bv64 := 0;
    ghost var seen: set<byte> := {};
    MasksNothing();
    while sub.pos < |sub.buf|
      invariant sub.Valid() && Masks(mask, seen)
      invariant DecodeBody(body, ctx, {}, NONE) == DecodeBody(sub.Left(), ctx, seen, p)
      decreases |sub.buf| - sub.pos
    {
      ghost var s := sub.Left();
      var first := sub.NextByte();
      var id := first.value;
      if !Known(id) {
        return Err(Malformed);
      }
      if ctx !in Allowed(id) {
        return Err(Malformed);
      }
      KnownFits(id);
      if !Repeatable(id, ctx) {
        if HasBit(mask, id) {
          return Err(Malformed);
        }
        MaskMarks(mask, seen, id);
        mask := WithBit(mask, id);
      }
      var v := NextValue(sub, id);
      if v.Err? {
        return Err(v.error);
      }
      ReadShortens(id, s[1..]);
      p := Put(p, id, v.value);
      seen := Marked(seen, id, ctx);
    }
    r := Ok(p);
  }

  /** Reads a property block, advancing the cursor past it. */
  method NextProperties(c: Cursor, ctx: Context) returns (r: Result<Option<Properties>, WireError>)
    requires c.Valid()
    modifies c
    ensures c.Valid() && Follows(r, Decode(old(c.Left()), ctx), c.Left())
  {
    hide DecodeBody;
    var n := c.NextVarint();
    if n.Err? {
      return Err(n.error);
    }
    if n.value > |c.buf| - c.pos {
      return Err(Malformed);
    }
    var body := c.buf[c.pos..c.pos + n.value];
    assert body == c.Left()[..n.value] && c.buf[c.pos + n.value..] == c.Left()[n.value..];
    c.pos := c.pos + n.value;
    if n.value == 0 {
      return Ok(None);
    }
    var p := DecodeLoop(body, ctx);
    r := if p.Err? then Err(p.error) else Ok(Some(p.value));
  }
}
