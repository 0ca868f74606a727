/**
 Which property blocks are accepted and which sets are written, stated by the bytes: the type and
 range of each property, and a block as any sequence of properties in any order.
 */
module PropertyGrammar {
  import opened Wrappers
  import opened Bytes
  import opened Wire
  import opened WireLayout
  import opened Properties

  // ---------------------------------------------------------------- types and ranges

  /** The identifiers of each type, as section 2.2.2.2 of MQTT 5.0 lists them. */
  function IdsOf(sh: Shape): set<byte> {
    match sh
    case Num8 => {0x01, 0x17, 0x19, 0x24, 0x25, 0x28, 0x29, 0x2A}
    case Num16 => {0x13, 0x21, 0x22, 0x23}
    case Num32 => {0x02, 0x11, 0x18, 0x27}
    case Str => {0x03, 0x08, 0x12, 0x15, 0x1A, 0x1C, 0x1F}
    case Bin => {0x09, 0x16}
    case SubId => {0x0B}
    case Pair => {0x26}
  }

  lemma TypesExactly(id: byte, sh: Shape)
    requires Known(id)
    ensures ShapeOf(id) == sh <==> id in IdsOf(sh)
  {
  }

  /** The numbers a property may have. */
  predicate LegalNumber(id: byte, v: nat) {
    || (id in IdsOf(Num8) && v <= 1)
    || (id in {0x13, 0x22} && v <= 0xFFFF)
    || (id in {0x21, 0x23} && 1 <= v <= 0xFFFF)
    || (id in {0x02, 0x11, 0x18} && v <= 0xFFFF_FFFF)
    || (id == 0x27 && 1 <= v <= 0xFFFF_FFFF)
  }

  predicate Numeric(id: byte) {
    id in IdsOf(Num8) + IdsOf(Num16) + IdsOf(Num32)
  }

  lemma NumbersExactly(id: byte, v: nat)
    requires Known(id)
    ensures Numeric(id) <==> ShapeOf(id) in {Num8, Num16, Num32}
    ensures Numeric(id) ==> (LegalNumber(id, v) <==> v < Limit(ShapeOf(id)) && !BadValue(id, v))
  {
    TypesExactly(id, ShapeOf(id));
  }

  // ---------------------------------------------------------------- the bytes of one property

  function Width(id: byte): nat {
    if id in IdsOf(Num8) then 1 else if id in IdsOf(Num16) then 2 else 4
  }

  /** A string as it stands on the wire. */
  predicate IsString(s: bytes, t: bytes) {
    |s| == 2 + |t| && BigEndian(s[..2]) == |t| && s[2..] == t
  }

  /** The bytes after the identifier. */
  predicate IsValue(s: bytes, id: byte, v: Value) {
    match v
    case NumValue(n) => Numeric(id) && |s| == Width(id) && BigEndian(s) == n && LegalNumber(id, n)
    case TextValue(t) => IsString(s, t) && (id in IdsOf(Bin) || (id in IdsOf(Str) && Utf8(t) && 0 !in t))
    case SubIdValue(x) => id == 0x0B && IsVarint(s) && Base128(s) == x && x > 0
    case PairValue(k, x) =>
      && id == 0x26 && 2 + |k| <= |s| && IsString(s[..2 + |k|], k) && IsString(s[2 + |k|..], x)
      && Utf8(k) && 0 !in k && Utf8(x) && 0 !in x
  }

  lemma StringRead(s: bytes, t: bytes, rest: bytes)
    ensures ReadBinary(s + rest) == Ok((t, rest)) <==> IsString(s, t)
  {
    var all := s + rest;
    ReadBinaryExactly(all);
    if IsString(s, t) {
      assert all[..2] == s[..2] && all[2..2 + |t|] == t && all[2 + |t|..] == rest;
    }
    if ReadBinary(all) == Ok((t, rest)) {
      assert |all| == 2 + |t| + |rest|;
      assert all[..2] == s[..2] && all[2..2 + |t|] == s[2..];
    }
  }

  lemma NumRead(s: bytes, id: byte, n: nat, rest: bytes)
    requires Known(id) && Numeric(id)
    ensures ReadNum(ShapeOf(id), s + rest) == Ok((n, rest)) <==> |s| == Width(id) && BigEndian(s) == n
  {
    NumbersExactly(id, n);
    TypesExactly(id, Num8);
    TypesExactly(id, Num16);
    TypesExactly(id, Num32);
    var all := s + rest;
    var w := Width(id);
    ReadU16Exactly(all);
    ReadU32Exactly(all);
    assert |s| == w ==> all[..w] == s && all[w..] == rest;
    if w == 1 && |s| == 1 {
      assert s[..0] == [];
      assert BigEndian(s) == s[0];
    }
    if ReadNum(ShapeOf(id), all) == Ok((n, rest)) {
      assert all[w..] == rest;
      assert |s| == w;
    }
  }

  lemma SubIdRead(s: bytes, x: nat, rest: bytes)
    ensures ReadVarint(s + rest) == Ok((x, rest)) <==> IsVarint(s) && Base128(s) == x
  {
    VarintExactly(s + rest, x, rest);
    if ReadVarint(s + rest) == Ok((x, rest)) {
      var p :| IsVarint(p) && Base128(p) == x && s + rest == p + rest;
      assert |p| == |s| && s == (s + rest)[..|s|] && p == (p + rest)[..|p|];
    }
  }

  lemma PairAccepted(s: bytes, k: bytes, x: bytes, rest: bytes)
    requires IsValue(s, USER, PairValue(k, x))
    ensures ReadPair(s + rest) == Ok((PairValue(k, x), rest))
  {
    var a, b := s[..2 + |k|], s[2 + |k|..];
    assert s + rest == a + (b + rest);
    StringRead(a, k, b + rest);
    StringRead(b, x, rest);
    hide ReadBinary, IsString;
  }

  lemma StringTaken(all: bytes, t: bytes, rest: bytes)
    requires ReadBinary(all) == Ok((t, rest))
    ensures 2 + |t| <= |all| && IsString(all[..2 + |t|], t) && all == all[..2 + |t|] + rest
  {
    ReadBinaryExactly(all);
    assert all[..2 + |t|][..2] == all[..2];
  }

  lemma AcceptedPair(s: bytes, k: bytes, x: bytes, rest: bytes)
    requires ReadPair(s + rest) == Ok((PairValue(k, x), rest))
    ensures IsValue(s, USER, PairValue(k, x))
  {
    var all, mid := s + rest, ReadString(s + rest).value.1;
    StringTaken(all, k, mid);
    StringTaken(mid, x, rest);
    hide ReadBinary, IsString;
    var a, b := all[..2 + |k|], mid[..2 + |x|];
    assert |s| == |a| + |b|;
    Assoc(a, b, rest);
    assert s == (s + rest)[..|s|] == (a + b + rest)[..|s|] == a + b;
  }

  lemma PairRead(s: bytes, k: bytes, x: bytes, rest: bytes)
    ensures ReadPair(s + rest) == Ok((PairValue(k, x), rest)) <==> IsValue(s, USER, PairValue(k, x))
  {
    if IsValue(s, USER, PairValue(k, x)) {
      PairAccepted(s, k, x, rest);
    }
    if ReadPair(s + rest) == Ok((PairValue(k, x), rest)) {
      AcceptedPair(s, k, x, rest);
    }
  }

  lemma TextRead(s: bytes, id: byte, t: bytes, rest: bytes)
    requires Known(id) && ShapeOf(id) in {Str, Bin}
    ensures ReadValue(id, s + rest) == Ok((TextValue(t), rest)) <==> IsValue(s, id, TextValue(t))
  {
    TypesExactly(id, Str);
    TypesExactly(id, Bin);
    StringRead(s, t, rest);
    hide IdsOf, ReadBinary, IsString, Known;
  }

  /** A value is read from exactly the bytes that are one of its type and range. */
  lemma ValueExactly(id: byte, s: bytes, v: Value, rest: bytes)
    requires Known(id)
    ensures ReadValue(id, s + rest) == Ok((v, rest)) <==> IsValue(s, id, v)
  {
    TypesExactly(id, ShapeOf(id));
    TypesExactly(id, Str);
    TypesExactly(id, Bin);
    NumbersExactly(id, if v.NumValue? then v.n else 0);
    hide IdsOf, Known, ReadNum, ReadPair, ReadVarint, ReadString, ReadBinary, BadValue, LegalNumber, IsString, IsVarint, Width;
    match ShapeOf(id)
    case SubId =>
      if v.SubIdValue? {
        SubIdRead(s, v.v, rest);
      }
    case Pair =>
      if v.PairValue? {
        PairRead(s, v.key, v.value, rest);
      }
    case Str =>
      if v.TextValue? {
        TextRead(s, id, v.t, rest);
      }
    case Bin =>
      if v.TextValue? {
        TextRead(s, id, v.t, rest);
      }
    case _ =>
      if v.NumValue? {
        NumRead(s, id, v.n, rest);
      }
  }

  // ---------------------------------------------------------------- blocks

  datatype Item = Item(id: byte, value: Value)

  /** The first property of a block is this one, in these bytes. */
  predicate IsHead(b: bytes, ctx: Context, it: Item) {
    it.id in MayCarry(ctx) && IsValue(b, it.id, it.value)
  }

  /** The properties of a block one after the other, each legal in the packet. */
  ghost predicate IsBody(s: bytes, ctx: Context, items: seq<Item>)
    decreases |items|
  {
    if items == [] then s == []
    else exists b, rest :: s == [items[0].id] + b + rest && IsHead(b, ctx, items[0]) && IsBody(rest, ctx, items[1..])
  }

  /** User properties, and subscription identifiers on a PUBLISH, may come more than once. */
  predicate Many(id: byte, ctx: Context) {
    id == 0x26 || (id == 0x0B && ctx == Publish)
  }

  ghost predicate NoRepeats(items: seq<Item>, ctx: Context) {
    forall i, j | 0 <= i < j < |items| && items[i].id == items[j].id :: Many(items[i].id, ctx)
  }

  /** None of the single-shot properties was met before. */
  ghost predicate Unmet(items: seq<Item>, ctx: Context, seen: set<byte>) {
    forall i | 0 <= i < |items| :: Many(items[i].id, ctx) || items[i].id !in seen
  }

  function Folded(p: Properties, items: seq<Item>): Properties
    decreases |items|
  {
    if items == [] then p else Folded(Put(p, items[0].id, items[0].value), items[1..])
  }

  lemma HeadKnown(id: byte, ctx: Context)
    ensures id in MayCarry(ctx) <==> Known(id) && ctx in Allowed(id)
  {
    AllowedPerPacket(id, ctx);
    KnownIsTabled(id);
    hide MayCarry, Known;
  }

  lemma UnmetTail(items: seq<Item>, ctx: Context, seen: set<byte>)
    requires items != []
    ensures NoRepeats(items, ctx) && Unmet(items, ctx, seen) <==>
      && (Many(items[0].id, ctx) || items[0].id !in seen)
      && NoRepeats(items[1..], ctx) && Unmet(items[1..], ctx, Marked(seen, items[0].id, ctx))
  {
    var id, tail := items[0].id, items[1..];
    assert forall i | 0 <= i < |tail| :: tail[i] == items[i + 1];
    if NoRepeats(tail, ctx) && Unmet(tail, ctx, Marked(seen, id, ctx)) && (Many(id, ctx) || id !in seen) {
      forall i | 0 <= i < |items|
        ensures Many(items[i].id, ctx) || items[i].id !in seen
        ensures i > 0 && items[i].id == id ==> Many(id, ctx)
      {
        assert i > 0 ==> tail[i - 1] == items[i];
      }
      forall i, j | 0 <= i < j < |items| && items[i].id == items[j].id
        ensures Many(items[i].id, ctx)
      {
        assert i > 0 ==> tail[i - 1] == items[i] && tail[j - 1] == items[j];
      }
    }
  }

  lemma {:induction false} BodyAccepted(s: bytes, ctx: Context, items: seq<Item>, seen: set<byte>, q: Properties)
    requires IsBody(s, ctx, items) && NoRepeats(items, ctx) && Unmet(items, ctx, seen)
    ensures DecodeBody(s, ctx, seen, q) == Ok(Folded(q, items))
    decreases |items|
  {
    if items != [] {
      var it := items[0];
      var b, rest :| s == [it.id] + b + rest && IsHead(b, ctx, it) && IsBody(rest, ctx, items[1..]);
      HeadKnown(it.id, ctx);
      ValueExactly(it.id, b, it.value, rest);
      UnmetTail(items, ctx, seen);
      hide Known, Allowed, MayCarry, IsValue, ReadValue, NoRepeats, Unmet, DecodeBody, IsBody, Put;
      HeadStep(it.id, b, it.value, rest, ctx, seen, q);
      BodyAccepted(rest, ctx, items[1..], Marked(seen, it.id, ctx), Put(q, it.id, it.value));
    }
  }

  /** The first property of an accepted block. */
  lemma FirstItem(s: bytes, ctx: Context, seen: set<byte>, q: Properties) returns (it: Item, b: bytes, rest: bytes)
    requires s != [] && DecodeBody(s, ctx, seen, q).Ok?
    ensures s == [it.id] + b + rest && |rest| < |s| && IsHead(b, ctx, it) && (Many(it.id, ctx) || it.id !in seen)
    ensures DecodeBody(s, ctx, seen, q) == DecodeBody(rest, ctx, Marked(seen, it.id, ctx), Put(q, it.id, it.value))
  {
    var id := s[0];
    var (v, r) := ReadValue(id, s[1..]).value;
    hide Known, Allowed, MayCarry, IsValue, Put;
    HeadKnown(id, ctx);
    ReadSuffix(id, s[1..]);
    it, b, rest := Item(id, v), s[1..][..|s| - 1 - |r|], r;
    assert s[1..] == b + rest && s == [id] + s[1..];
    ValueExactly(id, b, v, rest);
  }

  /** What a reader leaves is the end of what it was given. */
  lemma ReadSuffix(id: byte, s: bytes)
    requires ReadValue(id, s).Ok?
    ensures var rest := ReadValue(id, s).value.1; |rest| < |s| && s == s[..|s| - |rest|] + rest
  {
    ReadShortens(id, s);
    if ShapeOf(id) == SubId {
      var (v, rest) := ReadVarint(s).value;
      VarintBijection(v, s, rest);
    }
  }

  lemma {:induction false} AcceptedBody(s: bytes, ctx: Context, seen: set<byte>, q: Properties) returns (items: seq<Item>)
    requires DecodeBody(s, ctx, seen, q).Ok?
    ensures IsBody(s, ctx, items) && NoRepeats(items, ctx) && Unmet(items, ctx, seen)
    ensures DecodeBody(s, ctx, seen, q) == Ok(Folded(q, items))
    decreases |s|
  {
    if s == [] {
      items := [];
    } else {
      var it, b, rest := FirstItem(s, ctx, seen, q);
      hide DecodeBody, IsHead, Put, NoRepeats, Unmet;
      var more := AcceptedBody(rest, ctx, Marked(seen, it.id, ctx), Put(q, it.id, it.value));
      items := [it] + more;
      assert items[1..] == more;
      UnmetTail(items, ctx, seen);
    }
  }

  /**
   A block's bytes are accepted exactly when they are properties one after the other, in any order,
   each of them legal in the packet and of its type and range, and none but the repeatable ones
   twice; what is read is what they say.
   */
  lemma BlockExactly(s: bytes, ctx: Context, p: Properties)
    ensures DecodeBody(s, ctx, {}, NONE) == Ok(p) <==>
      exists items :: IsBody(s, ctx, items) && NoRepeats(items, ctx) && p == Folded(NONE, items)
  {
    if DecodeBody(s, ctx, {}, NONE) == Ok(p) {
      var items := AcceptedBody(s, ctx, {}, NONE);
    }
    if items :| IsBody(s, ctx, items) && NoRepeats(items, ctx) && p == Folded(NONE, items) {
      BodyAccepted(s, ctx, items, {}, NONE);
    }
  }

  /** A length, that many bytes, and what they hold; an empty block holds no set. */
  ghost predicate IsBlock(s: bytes, ctx: Context, r: Option<Properties>, rest: bytes, n: bytes, body: bytes) {
    && IsVarint(n) && Base128(n) == |body| && s == n + (body + rest)
    && if body == [] then r == None else r.Some? && DecodeBody(body, ctx, {}, NONE) == Ok(r.value)
  }

  lemma BlockAccepted(s: bytes, ctx: Context, r: Option<Properties>, rest: bytes, n: bytes, body: bytes)
    requires IsBlock(s, ctx, r, rest, n, body)
    ensures Decode(s, ctx) == Ok((r, rest))
  {
    VarintExactly(s, |body|, body + rest);
    hide DecodeBody, ReadVarint, IsVarint;
    assert (body + rest)[..|body|] == body && (body + rest)[|body|..] == rest;
  }

  lemma AcceptedBlock(s: bytes, ctx: Context) returns (n: bytes, body: bytes)
    requires Decode(s, ctx).Ok?
    ensures IsBlock(s, ctx, Decode(s, ctx).value.0, Decode(s, ctx).value.1, n, body)
  {
    var (v, tail) := ReadVarint(s).value;
    VarintExactly(s, v, tail);
    n :| IsVarint(n) && Base128(n) == v && s == n + tail;
    body := tail[..v];
    hide DecodeBody, ReadVarint, IsVarint, Base128;
    assert tail == tail[..v] + tail[v..];
  }

  /** A block is read exactly when it is a minimal length, that many bytes of properties, and what follows. */
  lemma LengthExactly(s: bytes, ctx: Context, r: Option<Properties>, rest: bytes)
    ensures Decode(s, ctx) == Ok((r, rest)) <==> exists n, body :: IsBlock(s, ctx, r, rest, n, body)
  {
    if Decode(s, ctx) == Ok((r, rest)) {
      var n, body := AcceptedBlock(s, ctx);
    }
    if n, body :| IsBlock(s, ctx, r, rest, n, body) {
      BlockAccepted(s, ctx, r, rest, n, body);
    }
  }

  // ---------------------------------------------------------------- what is written

  /** A property is set. */
  predicate Has(p: Properties, id: byte) {
    id in p.nums || id in p.texts || (id == 0x0B && p.subIds != []) || (id == 0x26 && p.users != [])
  }

  /** A property that is set is one the packet may carry, of a legal value. */
  ghost predicate Writable(p: Properties, id: byte, ctx: Context) {
    && id in MayCarry(ctx)
    && (id in p.nums ==> LegalNumber(id, p.nums[id]))
    && (id in p.texts ==> if id in IdsOf(Bin) then |p.texts[id]| <= 65535 else Encodable(p.texts[id]))
    && (id == 0x0B ==> (ctx == Subscribe ==> |p.subIds| <= 1) && forall x | x in p.subIds :: 1 <= x <= 268_435_455)
    && (id == 0x26 ==> forall u | u in p.users :: Encodable(u.0) && Encodable(u.1))
  }

  lemma {:induction false} SubIdsWritten(l: seq<nat>)
    ensures EncodeSubIds(l).Ok? <==> forall x | x in l :: 1 <= x <= 268_435_455
  {
    if l != [] {
      SubIdsWritten(l[1..]);
      assert l[0] in l && forall x | x in l[1..] :: x in l;
      if EncodeSubIds(l).Ok? {
        forall x | x in l
          ensures 1 <= x <= 268_435_455
        {
          assert x == l[0] || x in l[1..];
        }
      }
    }
  }

  lemma {:induction false} UsersWritten(l: seq<(bytes, bytes)>)
    ensures EncodeUsers(l).Ok? <==> forall u | u in l :: Encodable(u.0) && Encodable(u.1)
  {
    if l != [] {
      StringLayout(l[0].0);
      StringLayout(l[0].1);
      hide EncodeString, Encodable;
      UsersWritten(l[1..]);
      assert l == [l[0]] + l[1..];
    }
  }

  lemma Lists(p: Properties, id: byte)
    requires Typed(p) && Known(id)
    ensures Present(p, id) <==> Has(p, id)
    ensures id in p.nums ==> Numeric(id) && id !in p.texts && id != 0x0B && id != 0x26
    ensures id in p.texts ==> id in IdsOf(Str) + IdsOf(Bin) && id != 0x0B && id != 0x26
    ensures id in IdsOf(Bin) <==> ShapeOf(id) == Bin
  {
    TypesExactly(id, ShapeOf(id));
    TypesExactly(id, Bin);
  }

  lemma OneWritten(p: Properties, id: byte, ctx: Context)
    requires Typed(p) && Known(id)
    ensures EncodeOne(p, id, ctx).Ok? <==> (Has(p, id) ==> Writable(p, id, ctx))
  {
    Lists(p, id);
    AllowedPerPacket(id, ctx);
    NumbersExactly(id, if id in p.nums then p.nums[id] else 0);
    SubIdsWritten(p.subIds);
    UsersWritten(p.users);
    if id in p.texts {
      StringLayout(p.texts[id]);
      BinaryLayout(p.texts[id]);
    }
    hide IdsOf, Known, Allowed, MayCarry, EncodeString, EncodeBinary, EncodeSubIds, EncodeUsers, Encodable, LegalNumber, BadValue;
  }

  lemma {:induction false} IdsWritten(p: Properties, ids: bytes, ctx: Context)
    ensures EncodeIds(p, ids, ctx).Ok? <==> forall id | id in ids :: EncodeOne(p, id, ctx).Ok?
    decreases |ids|
  {
    hide EncodeOne;
    if ids != [] {
      IdsWritten(p, ids[1..], ctx);
      assert ids == [ids[0]] + ids[1..];
    }
  }

  /** A set is written exactly when each property in it is writable in the packet and the block is not too long. */
  lemma SetWritten(p: Properties, ctx: Context)
    requires Typed(p)
    ensures EncodeIds(p, IDS, ctx).Ok? <==> forall id | Known(id) && Has(p, id) :: Writable(p, id, ctx)
    ensures Encode(Some(p), ctx).Ok? <==>
      EncodeIds(p, IDS, ctx).Ok? && |EncodeIds(p, IDS, ctx).value| <= 268_435_455
  {
    IdsWritten(p, IDS, ctx);
    forall id | Known(id)
      ensures EncodeOne(p, id, ctx).Ok? <==> (Has(p, id) ==> Writable(p, id, ctx))
    {
      OneWritten(p, id, ctx);
    }
    assert forall id :: id in IDS <==> Known(id);
    hide EncodeOne, EncodeIds, Has, Writable, Known;
  }
}
