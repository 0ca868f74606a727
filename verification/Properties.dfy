/**
 MQTT 5.0 property blocks. A property set maps each identifier that is present to its value;
 repeatable properties keep their order. An empty text or binary value means absence.
 */
module Properties {
  import opened Wrappers
  import opened Bytes
  import opened Wire

  datatype Context =
    | Connect | Connack | Publish | Puback | Pubrec | Pubrel | Pubcomp
    | Subscribe | Suback | Unsubscribe | Unsuback | Disconnect | Auth | Will

  datatype Shape = Num8 | Num16 | Num32 | Str | Bin | SubId | Pair

  const SUB_ID: byte := 0x0B
  const USER: byte := 0x26

  datatype Properties = Properties(
    nums: map<byte, nat>,
    texts: map<byte, bytes>,
    subIds: seq<nat>,
    users: seq<(bytes, bytes)>)

  const NONE := Properties(map[], map[], [], [])

  /** The identifiers in the order they are written. */
  const IDS: seq<byte> := [
    0x01, 0x02, 0x03, 0x08, 0x09, 0x0B, 0x11, 0x12, 0x13, 0x15, 0x16, 0x17, 0x18, 0x19,
    0x1A, 0x1C, 0x1F, 0x21, 0x22, 0x23, 0x24, 0x25, 0x26, 0x27, 0x28, 0x29, 0x2A]

  function ShapeOf(id: byte): Shape {
    if id == SUB_ID then SubId
    else if id == USER then Pair
    else if id in {0x09, 0x16} then Bin
    else if id in {0x03, 0x08, 0x12, 0x15, 0x1A, 0x1C, 0x1F} then Str
    else if id in {0x02, 0x11, 0x18, 0x27} then Num32
    else if id in {0x13, 0x21, 0x22, 0x23} then Num16
    else Num8
  }

  /** Where each property may appear. */
  function Allowed(id: byte): set<Context> {
    if id in {0x01, 0x02, 0x03, 0x08, 0x09} then {Publish, Will}
    else if id == 0x0B then {Publish, Subscribe}
    else if id == 0x11 then {Connect, Connack, Disconnect}
    else if id in {0x12, 0x13, 0x1A, 0x24, 0x25, 0x28, 0x29, 0x2A} then {Connack}
    else if id in {0x15, 0x16} then {Connect, Connack, Auth}
    else if id in {0x17, 0x19} then {Connect}
    else if id == 0x18 then {Will}
    else if id == 0x1C then {Connack, Disconnect}
    else if id == 0x1F then {Connack, Puback, Pubrec, Pubrel, Pubcomp, Suback, Unsuback, Disconnect, Auth}
    else if id in {0x21, 0x22, 0x27} then {Connect, Connack}
    else if id == 0x23 then {Publish}
    else if id == 0x26 then
      {Connect, Connack, Publish, Will, Puback, Pubrec, Pubrel, Pubcomp,
       Subscribe, Suback, Unsubscribe, Unsuback, Disconnect, Auth}
    else {}
  }

  /** The same table read the other way: the properties each packet may carry. */
  function MayCarry(ctx: Context): set<byte> {
    match ctx
    case Connect => {0x11, 0x15, 0x16, 0x17, 0x19, 0x21, 0x22, 0x26, 0x27}
    case Connack =>
      {0x11, 0x12, 0x13, 0x15, 0x16, 0x1A, 0x1C, 0x1F, 0x21, 0x22, 0x24, 0x25, 0x26, 0x27, 0x28, 0x29, 0x2A}
    case Publish => {0x01, 0x02, 0x03, 0x08, 0x09, 0x0B, 0x23, 0x26}
    case Will => {0x01, 0x02, 0x03, 0x08, 0x09, 0x18, 0x26}
    case Subscribe => {0x0B, 0x26}
    case Unsubscribe => {0x26}
    case Disconnect => {0x11, 0x1C, 0x1F, 0x26}
    case Auth => {0x15, 0x16, 0x1F, 0x26}
    case _ => {0x1F, 0x26}
  }

  lemma AllowedPerPacket(id: byte, ctx: Context)
    ensures ctx in Allowed(id) <==> id in MayCarry(ctx)
  {
    match ctx
    case Connack =>
    case Connect =>
    case Publish =>
    case Will =>
    case _ =>
  }

  /** The identifiers the encoder writes are exactly those the table knows. */
  lemma KnownIsTabled(id: byte)
    ensures Known(id) <==> Allowed(id) != {}
  {
    if Allowed(id) != {} {
      var i := if id <= 0x03 then id - 1 else if id <= 0x09 then id - 5 else if id == 0x0B then 5
        else if id <= 0x13 then id - 11 else if id <= 0x1A then id - 12 else if id == 0x1C then 15
        else if id == 0x1F then 16 else id - 16;
      assert IDS[i] == id;
    } else {
      assert Publish !in Allowed(id) && Connack !in Allowed(id) && Connect !in Allowed(id) && Will !in Allowed(id);
    }
  }

  /** Value ranges that are a protocol error in either direction. */
  predicate BadValue(id: byte, v: nat) {
    (id in {0x01, 0x17, 0x19, 0x24, 0x25, 0x28, 0x29, 0x2A} && v > 1) || (id in {0x21, 0x23, 0x27} && v == 0)
  }

  predicate Known(id: byte) {
    id in IDS
  }

  predicate Repeatable(id: byte, ctx: Context) {
    id == USER || (id == SUB_ID && ctx == Publish)
  }

  // ---------------------------------------------------------------- encoding

  function Limit(sh: Shape): nat {
    match sh
    case Num8 => 0x100
    case Num16 => 0x1_0000
    case _ => 0x1_0000_0000
  }

  function NumBytes(sh: Shape, v: nat): bytes
    requires sh in {Num8, Num16, Num32} && v < Limit(sh)
  {
    match sh
    case Num8 => [v]
    case Num16 => U16(v)
    case Num32 => U32(v)
  }

  function EncodeSubIds(l: seq<nat>): Result<bytes, WireError> {
    if l == [] then Ok([])
    else if l[0] == 0 || l[0] > MAX_VARINT then Err(ProtocolViolation)
    else match EncodeSubIds(l[1..])
      case Err(e) => Err(e)
      case Ok(tail) => Ok([SUB_ID] + EncodeVarint(l[0]) + tail)
  }

  function EncodeUsers(l: seq<(bytes, bytes)>): Result<bytes, WireError> {
    if l == [] then Ok([])
    else
      var k :- EncodeString(l[0].0);
      var v :- EncodeString(l[0].1);
      match EncodeUsers(l[1..])
      case Err(e) => Err(e)
      case Ok(tail) => Ok([USER] + k + v + tail)
  }

  /** The Go types of the fields: widths of numbers, and no empty value among those present. */
  ghost predicate Typed(p: Properties) {
    && (forall id | id in p.nums :: ShapeOf(id) in {Num8, Num16, Num32} && p.nums[id] < Limit(ShapeOf(id)))
    && (forall id | id in p.texts :: ShapeOf(id) in {Str, Bin} && p.texts[id] != [])
    && (forall id | id in p.nums.Keys + p.texts.Keys :: Known(id))
  }

  predicate Present(p: Properties, id: byte) {
    match ShapeOf(id)
    case SubId => p.subIds != []
    case Pair => p.users != []
    case Str => id in p.texts
    case Bin => id in p.texts
    case _ => id in p.nums
  }

  /** The bytes of one identifier's properties, or the reason they cannot be written. */
  function EncodeOne(p: Properties, id: byte, ctx: Context): Result<bytes, WireError> {
    if !Present(p, id) then Ok([])
    else if ctx !in Allowed(id) then Err(ProtocolViolation)
    else match ShapeOf(id)
      case SubId =>
        if ctx == Subscribe && |p.subIds| > 1 then Err(ProtocolViolation) else EncodeSubIds(p.subIds)
      case Pair => EncodeUsers(p.users)
      case Str => (var s :- EncodeString(p.texts[id]); Ok([id] + s))
      case Bin => (var s :- EncodeBinary(p.texts[id]); Ok([id] + s))
      case sh =>
        if p.nums[id] >= Limit(sh) || BadValue(id, p.nums[id]) then Err(ProtocolViolation)
        else Ok([id] + NumBytes(sh, p.nums[id]))
  }

  function EncodeIds(p: Properties, ids: seq<byte>, ctx: Context): Result<bytes, WireError> {
    if ids == [] then Ok([])
    else
      var one :- EncodeOne(p, ids[0], ctx);
      match EncodeIds(p, ids[1..], ctx)
      case Err(e) => Err(e)
      case Ok(tail) => Ok(one + tail)
  }

  /** The length-prefixed block; an absent set is the empty block. */
  function Encode(p: Option<Properties>, ctx: Context): Result<bytes, WireError> {
    if p.None? then Ok([0])
    else
      var body :- EncodeIds(p.value, IDS, ctx);
      if |body| > MAX_VARINT then Err(FrameTooLarge) else Ok(EncodeVarint(|body|) + body)
  }

  // ---------------------------------------------------------------- decoding

  datatype Value = NumValue(n: nat) | TextValue(t: bytes) | SubIdValue(v: nat) | PairValue(key: bytes, value: bytes)

  function ReadNum(sh: Shape, s: bytes): Read<nat> {
    match sh
    case Num8 => (match ReadByte(s) case Err(e) => Err(e) case Ok((v, rest)) => Ok((v, rest)))
    case Num16 => (match ReadU16(s) case Err(e) => Err(e) case Ok((v, rest)) => Ok((v, rest)))
    case _ => ReadU32(s)
  }

  function ReadPair(s: bytes): Read<Value> {
    match ReadString(s)
    case Err(e) => Err(e)
    case Ok((k, rest)) =>
      match ReadString(rest)
      case Err(e) => Err(e)
      case Ok((v, rest')) => Ok((PairValue(k, v), rest'))
  }

  /** Reads the value of one property. */
  function ReadValue(id: byte, s: bytes): Read<Value> {
    match ShapeOf(id)
    case SubId =>
      (match ReadVarint(s)
       case Err(e) => Err(e)
       case Ok((v, rest)) => if v == 0 then Err(Malformed) else Ok((SubIdValue(v), rest)))
    case Pair => ReadPair(s)
    case Str => (match ReadString(s) case Err(e) => Err(e) case Ok((t, rest)) => Ok((TextValue(t), rest)))
    case Bin => (match ReadBinary(s) case Err(e) => Err(e) case Ok((t, rest)) => Ok((TextValue(t), rest)))
    case sh =>
      match ReadNum(sh, s)
      case Err(e) => Err(e)
      case Ok((v, rest)) => if BadValue(id, v) then Err(Malformed) else Ok((NumValue(v), rest))
  }

  /** Stores a value; an empty text is the same as none. */
  function Put(p: Properties, id: byte, v: Value): Properties {
    match v
    case NumValue(n) => p.(nums := p.nums[id := n])
    case TextValue(t) => p.(texts := if t == [] then p.texts - {id} else p.texts[id := t])
    case SubIdValue(x) => p.(subIds := p.subIds + [x])
    case PairValue(k, x) => p.(users := p.users + [(k, x)])
  }

  lemma ReadShortens(id: byte, s: bytes)
    requires ReadValue(id, s).Ok?
    ensures |ReadValue(id, s).value.1| < |s|
  {
    if ShapeOf(id) == SubId {
      VarintBijection(ReadVarint(s).value.0, s, ReadVarint(s).value.1);
    }
  }

  function Marked(seen: set<byte>, id: byte, ctx: Context): set<byte> {
    if Repeatable(id, ctx) then seen else seen + {id}
  }

  /** Decodes the properties of a block, `seen` being the single-shot identifiers met so far. */
  function DecodeBody(s: bytes, ctx: Context, seen: set<byte>, p: Properties): Result<Properties, WireError>
    decreases |s|
  {
    if s == [] then Ok(p)
    else
      var id := s[0];
      if !Known(id) || ctx !in Allowed(id) then Err(Malformed)
      else if !Repeatable(id, ctx) && id in seen then Err(Malformed)
      else match ReadValue(id, s[1..])
        case Err(e) => Err(e)
        case Ok((v, rest)) =>
          ReadShortens(id, s[1..]);
          DecodeBody(rest, ctx, Marked(seen, id, ctx), Put(p, id, v))
  }

  function Decode(s: bytes, ctx: Context): Read<Option<Properties>> {
    match ReadVarint(s)
    case Err(e) => Err(e)
    case Ok((n, rest)) =>
      if n > |rest| then Err(Malformed)
      else if n == 0 then Ok((None, rest))
      else match DecodeBody(rest[..n], ctx, {}, NONE)
        case Err(e) => Err(e)
        case Ok(p) => Ok((Some(p), rest[n..]))
  }

  /** A missing set and an empty one are the same. */
  function Normal(p: Option<Properties>): Properties {
    if p.None? then NONE else p.value
  }

  // ---------------------------------------------------------------- what is written is read back

  lemma IdsDistinct()
    ensures Distinct(IDS)
  {
    assert forall i :: 0 <= i < |IDS| - 1 ==> IDS[i] < IDS[i + 1];
    forall i, j | 0 <= i < j < |IDS|
      ensures IDS[i] < IDS[j]
    {
      Ascends(IDS, i, j);
    }
  }

  lemma {:induction false} Ascends(s: bytes, i: nat, j: nat)
    requires i < j < |s| && forall k :: 0 <= k < |s| - 1 ==> s[k] < s[k + 1]
    ensures s[i] < s[j]
  {
    if i + 1 < j {
      Ascends(s, i, j - 1);
    }
    assert s[j - 1] < s[j];
  }

  /** One property at the head of a block. */
  lemma HeadStep(id: byte, val: bytes, v: Value, tail: bytes, ctx: Context, seen: set<byte>, q: Properties)
    requires Known(id) && ctx in Allowed(id) && (Repeatable(id, ctx) || id !in seen)
    requires ReadValue(id, val + tail) == Ok((v, tail))
    ensures DecodeBody([id] + val + tail, ctx, seen, q)
         == DecodeBody(tail, ctx, Marked(seen, id, ctx), Put(q, id, v))
  {
    hide Known, Allowed, Repeatable, Marked, ReadValue, Put;
    var s := [id] + val + tail;
    assert s[0] == id && s[1..] == val + tail;
  }

  /** The value of a property that is not a list. */
  function ValueOf(p: Properties, id: byte): Value
    requires Present(p, id) && ShapeOf(id) !in {SubId, Pair}
  {
    if ShapeOf(id) in {Str, Bin} then TextValue(p.texts[id]) else NumValue(p.nums[id])
  }

  lemma NumRoundTrip(sh: Shape, v: nat, tail: bytes)
    requires sh in {Num8, Num16, Num32} && v < Limit(sh)
    ensures ReadNum(sh, NumBytes(sh, v) + tail) == Ok((v, tail))
  {
    if sh == Num16 {
      U16RoundTrip(v, tail);
    } else if sh == Num32 {
      U32RoundTrip(v, tail);
    }
  }

  lemma ValueRoundTrip(p: Properties, id: byte, ctx: Context, tail: bytes)
    requires Present(p, id) && ShapeOf(id) !in {SubId, Pair} && EncodeOne(p, id, ctx).Ok?
    ensures EncodeOne(p, id, ctx).value != [] && EncodeOne(p, id, ctx).value[0] == id
    ensures ReadValue(id, EncodeOne(p, id, ctx).value[1..] + tail) == Ok((ValueOf(p, id), tail))
  {
    if ShapeOf(id) == Str {
      StringRoundTrip(p.texts[id], [], tail);
    } else if ShapeOf(id) == Bin {
      BinaryRoundTrip(p.texts[id], tail);
    } else {
      NumRoundTrip(ShapeOf(id), p.nums[id], tail);
    }
  }

  lemma ListsKnown()
    ensures Known(SUB_ID) && Known(USER)
  {
    assert IDS[5] == SUB_ID && IDS[22] == USER;
  }

  lemma SubIdHead(v: nat, tail: bytes, ctx: Context, seen: set<byte>, q: Properties)
    requires 0 < v <= MAX_VARINT && ctx in Allowed(SUB_ID) && (ctx == Publish || SUB_ID !in seen)
    ensures DecodeBody([SUB_ID] + EncodeVarint(v) + tail, ctx, seen, q)
         == DecodeBody(tail, ctx, Marked(seen, SUB_ID, ctx), q.(subIds := q.subIds + [v]))
  {
    VarintBijection(v, [], tail);
    ListsKnown();
    HeadStep(SUB_ID, EncodeVarint(v), SubIdValue(v), tail, ctx, seen, q);
  }

  lemma {:induction false} SubIdsDecode(l: seq<nat>, tail: bytes, ctx: Context, seen: set<byte>, q: Properties)
    requires EncodeSubIds(l).Ok? && ctx in Allowed(SUB_ID)
    requires ctx == Publish || l == [] || (|l| == 1 && SUB_ID !in seen)
    ensures DecodeBody(EncodeSubIds(l).value + tail, ctx, seen, q)
         == DecodeBody(tail, ctx, if l == [] then seen else Marked(seen, SUB_ID, ctx), q.(subIds := q.subIds + l))
  {
    hide DecodeBody, Allowed, EncodeVarint;
    if l == [] {
      assert EncodeSubIds(l).value + tail == tail && q.subIds + l == q.subIds;
    } else {
      var x, more := l[0], EncodeSubIds(l[1..]).value;
      SubIdHead(x, more + tail, ctx, seen, q);
      Assoc([SUB_ID] + EncodeVarint(x), more, tail);
      SubIdsDecode(l[1..], tail, ctx, Marked(seen, SUB_ID, ctx), q.(subIds := q.subIds + [x]));
      Assoc(q.subIds, [x], l[1..]);
      assert l == [x] + l[1..];
    }
  }

  lemma PairRoundTrip(k: bytes, v: bytes, tail: bytes)
    requires EncodeString(k).Ok? && EncodeString(v).Ok?
    ensures ReadValue(USER, EncodeString(k).value + EncodeString(v).value + tail) == Ok((PairValue(k, v), tail))
  {
    StringRoundTrip(k, [], EncodeString(v).value + tail);
    StringRoundTrip(v, [], tail);
    Assoc(EncodeString(k).value, EncodeString(v).value, tail);
    hide EncodeString, ReadString;
  }

  lemma UserHead(k: bytes, v: bytes, tail: bytes, ctx: Context, seen: set<byte>, q: Properties)
    requires EncodeString(k).Ok? && EncodeString(v).Ok? && ctx in Allowed(USER)
    ensures DecodeBody([USER] + EncodeString(k).value + EncodeString(v).value + tail, ctx, seen, q)
         == DecodeBody(tail, ctx, seen, q.(users := q.users + [(k, v)]))
  {
    hide EncodeString, ReadValue, DecodeBody, Allowed;
    ListsKnown();
    PairRoundTrip(k, v, tail);
    HeadStep(USER, EncodeString(k).value + EncodeString(v).value, PairValue(k, v), tail, ctx, seen, q);
    Assoc([USER], EncodeString(k).value, EncodeString(v).value);
  }

  lemma {:induction false} UsersDecode(l: seq<(bytes, bytes)>, tail: bytes, ctx: Context, seen: set<byte>, q: Properties)
    requires EncodeUsers(l).Ok? && ctx in Allowed(USER)
    ensures DecodeBody(EncodeUsers(l).value + tail, ctx, seen, q)
         == DecodeBody(tail, ctx, seen, q.(users := q.users + l))
  {
    hide DecodeBody, Allowed, EncodeString;
    if l == [] {
      assert EncodeUsers(l).value + tail == tail && q.users + l == q.users;
    } else {
      var more := EncodeUsers(l[1..]).value;
      UserHead(l[0].0, l[0].1, more + tail, ctx, seen, q);
      Assoc([USER] + EncodeString(l[0].0).value + EncodeString(l[0].1).value, more, tail);
      UsersDecode(l[1..], tail, ctx, seen, q.(users := q.users + [l[0]]));
      Assoc(q.users, [l[0]], l[1..]);
      assert l == [l[0]] + l[1..];
    }
  }

  /** The part of a set that some identifiers hold. */
  ghost function Only(p: Properties, done: seq<byte>): Properties {
    Properties(
      map id | id in p.nums && id in done :: p.nums[id],
      map id | id in p.texts && id in done :: p.texts[id],
      if SUB_ID in done then p.subIds else [],
      if USER in done then p.users else [])
  }

  lemma OnlyAll(p: Properties, done: seq<byte>)
    requires Typed(p) && forall id | Known(id) :: id in done
    ensures Only(p, done) == p
  {
  }

  lemma OnlyExtends(p: Properties, done: seq<byte>, id: byte)
    requires Typed(p) && id !in done
    ensures !Present(p, id) ==> Only(p, done + [id]) == Only(p, done)
    ensures Present(p, id) && ShapeOf(id) !in {SubId, Pair} ==> Only(p, done + [id]) == Put(Only(p, done), id, ValueOf(p, id))
    ensures id == SUB_ID ==> Only(p, done + [id]) == Only(p, done).(subIds := Only(p, done).subIds + p.subIds)
    ensures id == USER ==> Only(p, done + [id]) == Only(p, done).(users := Only(p, done).users + p.users)
  {
    var a, b := Only(p, done), Only(p, done + [id]);
    assert forall x :: x in done + [id] <==> x in done || x == id;
    assert id !in p.nums ==> a.nums == b.nums;
    assert id !in p.texts ==> a.texts == b.texts;
    assert id in p.nums ==> b.nums == a.nums[id := p.nums[id]];
    assert id in p.texts ==> b.texts == a.texts[id := p.texts[id]];
  }

  lemma SingleDecode(p: Properties, done: seq<byte>, id: byte, tail: bytes, ctx: Context, seen: set<byte>)
    requires Typed(p) && Known(id) && id !in done && id !in seen && EncodeOne(p, id, ctx).Ok?
    requires Present(p, id) && ShapeOf(id) !in {SubId, Pair}
    ensures DecodeBody(EncodeOne(p, id, ctx).value + tail, ctx, seen, Only(p, done))
         == DecodeBody(tail, ctx, Marked(seen, id, ctx), Only(p, done + [id]))
  {
    var b := EncodeOne(p, id, ctx).value;
    OnlyExtends(p, done, id);
    ValueRoundTrip(p, id, ctx, tail);
    hide Only, DecodeBody, Known, ReadValue, ShapeOf;
    HeadStep(id, b[1..], ValueOf(p, id), tail, ctx, seen, Only(p, done));
    assert b == [id] + b[1..];
  }

  /** The properties of one identifier are decoded to the same values, whatever follows. */
  lemma OneDecode(p: Properties, done: seq<byte>, id: byte, tail: bytes, ctx: Context, seen: set<byte>) returns (seen': set<byte>)
    requires Typed(p) && Known(id) && id !in done && id !in seen && EncodeOne(p, id, ctx).Ok?
    ensures DecodeBody(EncodeOne(p, id, ctx).value + tail, ctx, seen, Only(p, done))
         == DecodeBody(tail, ctx, seen', Only(p, done + [id]))
    ensures seen' <= seen + {id}
  {
    hide Only, DecodeBody, Known, ReadValue;
    seen' := Marked(seen, id, ctx);
    if !Present(p, id) {
      OnlyExtends(p, done, id);
      assert EncodeOne(p, id, ctx).value + tail == tail;
      seen' := seen;
    } else if id == SUB_ID {
      OnlyExtends(p, done, id);
      SubIdsDecode(p.subIds, tail, ctx, seen, Only(p, done));
    } else if id == USER {
      OnlyExtends(p, done, id);
      UsersDecode(p.users, tail, ctx, seen, Only(p, done));
    } else {
      SingleDecode(p, done, id, tail, ctx, seen);
    }
  }

  predicate Distinct(s: bytes) {
    forall i, j :: 0 <= i < j < |s| ==> s[i] != s[j]
  }

  lemma {:induction false} IdsDecode(p: Properties, done: bytes, todo: bytes, ctx: Context, seen: set<byte>)
    requires Typed(p) && EncodeIds(p, todo, ctx).Ok?
    requires Distinct(done + todo) && forall id :: Known(id) <==> id in done + todo
    requires forall id | id in todo :: id !in seen
    ensures DecodeBody(EncodeIds(p, todo, ctx).value, ctx, seen, Only(p, done)) == Ok(p)
    decreases |todo|
  {
    hide Known, Only, EncodeOne;
    if todo == [] {
      assert done + todo == done;
      OnlyAll(p, done);
    } else {
      var id, more := todo[0], todo[1..];
      hide DecodeBody;
      assert (done + todo)[|done|] == id;
      assert forall i :: 0 <= i < |done| ==> (done + todo)[i] == done[i];
      assert forall i :: 0 <= i < |more| ==> (done + todo)[|done| + 1 + i] == more[i];
      var seen' := OneDecode(p, done, id, EncodeIds(p, more, ctx).value, ctx, seen);
      assert done + [id] + more == done + todo;
      IdsDecode(p, done + [id], more, ctx, seen');
    }
  }

  /** A property set that can be written is read back as itself, and exactly its block is consumed. */
  lemma EncodedIsDecoded(p: Properties, ctx: Context, rest: bytes)
    requires Typed(p) && Encode(Some(p), ctx).Ok?
    ensures var r := Decode(Encode(Some(p), ctx).value + rest, ctx);
      r.Ok? && Normal(r.value.0) == p && r.value.1 == rest
  {
    var body := EncodeIds(p, IDS, ctx).value;
    var s := Encode(Some(p), ctx).value + rest;
    assert s == EncodeVarint(|body|) + (body + rest);
    VarintBijection(|body|, s, body + rest);
    IdsDistinct();
    assert Only(p, []) == NONE && [] + IDS == IDS;
    IdsDecode(p, [], IDS, ctx, {});
    assert (body + rest)[..|body|] == body && (body + rest)[|body|..] == rest;
  }

  // ---------------------------------------------------------------- what is read can be written

  lemma {:induction false} SubIdsAppend(l: seq<nat>, x: nat)
    requires EncodeSubIds(l).Ok? && 0 < x <= MAX_VARINT
    ensures EncodeSubIds(l + [x]) == Ok(EncodeSubIds(l).value + ([SUB_ID] + EncodeVarint(x)))
  {
    hide EncodeVarint;
    if l == [] {
      assert l + [x] == [x] && EncodeSubIds([x][1..]) == Ok([]);
      assert [SUB_ID] + EncodeVarint(x) + [] == [] + ([SUB_ID] + EncodeVarint(x));
    } else {
      assert (l + [x])[1..] == l[1..] + [x];
      SubIdsAppend(l[1..], x);
      Assoc([SUB_ID] + EncodeVarint(l[0]), EncodeSubIds(l[1..]).value, [SUB_ID] + EncodeVarint(x));
    }
  }

  function UserBytes(k: bytes, v: bytes): bytes
    requires EncodeString(k).Ok? && EncodeString(v).Ok?
  {
    [USER] + EncodeString(k).value + EncodeString(v).value
  }

  lemma {:induction false} UsersAppend(l: seq<(bytes, bytes)>, k: bytes, v: bytes)
    requires EncodeUsers(l).Ok? && EncodeString(k).Ok? && EncodeString(v).Ok?
    ensures EncodeUsers(l + [(k, v)]) == Ok(EncodeUsers(l).value + UserBytes(k, v))
  {
    hide EncodeString;
    if l == [] {
      assert l + [(k, v)] == [(k, v)] && EncodeUsers([(k, v)][1..]) == Ok([]);
      assert UserBytes(k, v) + [] == [] + UserBytes(k, v);
    } else {
      assert (l + [(k, v)])[1..] == l[1..] + [(k, v)];
      UsersAppend(l[1..], k, v);
      Assoc(UserBytes(l[0].0, l[0].1), EncodeUsers(l[1..]).value, UserBytes(k, v));
    }
  }

  predicate Fits(id: byte, v: Value) {
    match v
    case SubIdValue(_) => id == SUB_ID
    case PairValue(_, _) => id == USER
    case TextValue(_) => ShapeOf(id) in {Str, Bin}
    case NumValue(n) => ShapeOf(id) in {Num8, Num16, Num32} && n < Limit(ShapeOf(id))
  }

  lemma ReadFits(id: byte, s: bytes)
    requires ReadValue(id, s).Ok?
    ensures Fits(id, ReadValue(id, s).value.0)
  {
  }

  /** A value that was read can be written again, in no more bytes than it was read from. */
  lemma SubIdGrows(q: Properties, ctx: Context, s: bytes)
    requires ReadValue(SUB_ID, s).Ok? && ctx in Allowed(SUB_ID) && EncodeOne(q, SUB_ID, ctx).Ok?
    requires Repeatable(SUB_ID, ctx) || !Present(q, SUB_ID)
    ensures var (v, rest) := ReadValue(SUB_ID, s).value; var e := EncodeOne(Put(q, SUB_ID, v), SUB_ID, ctx);
      e.Ok? && |e.value| == |EncodeOne(q, SUB_ID, ctx).value| + 1 + |s| - |rest|
  {
    var (v, rest) := ReadValue(SUB_ID, s).value;
    VarintBijection(v.v, s, rest);
    SubIdsAppend(q.subIds, v.v);
  }

  lemma UserGrows(q: Properties, ctx: Context, s: bytes)
    requires ReadValue(USER, s).Ok? && ctx in Allowed(USER) && EncodeOne(q, USER, ctx).Ok?
    ensures var (v, rest) := ReadValue(USER, s).value; var e := EncodeOne(Put(q, USER, v), USER, ctx);
      e.Ok? && |e.value| == |EncodeOne(q, USER, ctx).value| + 1 + |s| - |rest|
  {
    var (v, rest) := ReadValue(USER, s).value;
    var (k, mid) := ReadString(s).value;
    StringRoundTrip(k, s, mid);
    StringRoundTrip(v.value, mid, rest);
    UsersAppend(q.users, v.key, v.value);
  }

  lemma SingleGrows(q: Properties, id: byte, ctx: Context, s: bytes)
    requires ReadValue(id, s).Ok? && ctx in Allowed(id) && ShapeOf(id) !in {SubId, Pair} && !Present(q, id)
    ensures var (v, rest) := ReadValue(id, s).value; var e := EncodeOne(Put(q, id, v), id, ctx);
      e.Ok? && |e.value| <= 1 + |s| - |rest|
  {
    var (v, rest) := ReadValue(id, s).value;
    if ShapeOf(id) == Str {
      StringRoundTrip(v.t, s, rest);
    } else if ShapeOf(id) == Bin {
      BinaryCanonical(s);
    } else if ShapeOf(id) == Num32 {
      U32Canonical(s);
    }
  }

  lemma PutGrows(q: Properties, id: byte, ctx: Context, s: bytes)
    requires ReadValue(id, s).Ok? && ctx in Allowed(id) && EncodeOne(q, id, ctx).Ok?
    requires Repeatable(id, ctx) || !Present(q, id)
    ensures var (v, rest) := ReadValue(id, s).value; var e := EncodeOne(Put(q, id, v), id, ctx);
      e.Ok? && |e.value| <= |EncodeOne(q, id, ctx).value| + 1 + |s| - |rest|
  {
    if id == SUB_ID {
      SubIdGrows(q, ctx, s);
    } else if id == USER {
      UserGrows(q, ctx, s);
    } else {
      SingleGrows(q, id, ctx, s);
    }
  }

  lemma PutElsewhere(q: Properties, id: byte, v: Value, other: byte, ctx: Context)
    requires Fits(id, v) && other != id
    ensures EncodeOne(Put(q, id, v), other, ctx) == EncodeOne(q, other, ctx)
    ensures Present(Put(q, id, v), other) == Present(q, other)
  {
    hide EncodeString, EncodeBinary, EncodeSubIds, EncodeUsers, Allowed;
  }

  /** Changing what one identifier writes changes the whole by as much. */
  lemma {:induction false} IdsUpdate(q: Properties, q': Properties, ids: bytes, id: byte, ctx: Context, grow: nat)
    requires Distinct(ids) && EncodeIds(q, ids, ctx).Ok? && EncodeOne(q, id, ctx).Ok? && EncodeOne(q', id, ctx).Ok?
    requires |EncodeOne(q', id, ctx).value| <= |EncodeOne(q, id, ctx).value| + grow
    requires forall other | other != id :: EncodeOne(q', other, ctx) == EncodeOne(q, other, ctx)
    ensures EncodeIds(q', ids, ctx).Ok? && |EncodeIds(q', ids, ctx).value| <= |EncodeIds(q, ids, ctx).value| + grow
    ensures id !in ids ==> EncodeIds(q', ids, ctx) == EncodeIds(q, ids, ctx)
    decreases |ids|
  {
    hide EncodeOne;
    if ids != [] {
      assert forall i :: 0 <= i < |ids| - 1 ==> ids[1..][i] == ids[i + 1];
      IdsUpdate(q, q', ids[1..], id, ctx, grow);
    }
  }

  lemma {:induction false} EachOk(q: Properties, ids: bytes, id: byte, ctx: Context)
    requires EncodeIds(q, ids, ctx).Ok? && id in ids
    ensures EncodeOne(q, id, ctx).Ok?
    decreases |ids|
  {
    if id != ids[0] {
      EachOk(q, ids[1..], id, ctx);
    }
  }

  /** A single-shot property that was not met is not present. */
  ghost predicate Unmet(q: Properties, seen: set<byte>, ctx: Context) {
    forall id | Known(id) && !Repeatable(id, ctx) && id !in seen :: !Present(q, id)
  }

  lemma PutKeeps(q: Properties, id: byte, v: Value, seen: set<byte>, ctx: Context)
    requires Known(id) && Typed(q) && Unmet(q, seen, ctx) && Fits(id, v)
    ensures Typed(Put(q, id, v)) && Unmet(Put(q, id, v), Marked(seen, id, ctx), ctx)
  {
    hide Known, EncodeOne;
    forall other | Known(other) && !Repeatable(other, ctx) && other !in Marked(seen, id, ctx)
      ensures !Present(Put(q, id, v), other)
    {
      PutElsewhere(q, id, v, other, ctx);
    }
  }

  /** Storing one more value that was read lengthens the encoding by no more than what was read. */
  lemma PutEncodes(q: Properties, id: byte, s: bytes, ctx: Context)
    requires Known(id) && ctx in Allowed(id) && ReadValue(id, s).Ok? && EncodeIds(q, IDS, ctx).Ok?
    requires Repeatable(id, ctx) || !Present(q, id)
    ensures var (v, rest) := ReadValue(id, s).value; var e := EncodeIds(Put(q, id, v), IDS, ctx);
      e.Ok? && |e.value| <= |EncodeIds(q, IDS, ctx).value| + 1 + |s| - |rest|
  {
    var (v, rest) := ReadValue(id, s).value;
    ReadFits(id, s);
    ReadShortens(id, s);
    IdsDistinct();
    EachOk(q, IDS, id, ctx);
    PutGrows(q, id, ctx, s);
    hide Distinct, EncodeIds, EncodeOne, ReadValue, Put, Fits, Allowed, Present;
    forall other | other != id
      ensures EncodeOne(Put(q, id, v), other, ctx) == EncodeOne(q, other, ctx)
    {
      PutElsewhere(q, id, v, other, ctx);
    }
    IdsUpdate(q, Put(q, id, v), IDS, id, ctx, 1 + |s| - |rest|);
  }

  lemma {:induction false} BodyReencodes(s: bytes, ctx: Context, seen: set<byte>, q: Properties)
    requires DecodeBody(s, ctx, seen, q).Ok?
    requires Typed(q) && Unmet(q, seen, ctx) && EncodeIds(q, IDS, ctx).Ok?
    ensures var p := DecodeBody(s, ctx, seen, q).value; var e := EncodeIds(p, IDS, ctx);
      Typed(p) && e.Ok? && |e.value| <= |EncodeIds(q, IDS, ctx).value| + |s|
    decreases |s|
  {
    hide EncodeIds, ReadValue, Put, Typed, Allowed, Known, Marked;
    if s != [] {
      var id := s[0];
      var (v, rest) := ReadValue(id, s[1..]).value;
      ReadFits(id, s[1..]);
      ReadShortens(id, s[1..]);
      PutKeeps(q, id, v, seen, ctx);
      PutEncodes(q, id, s[1..], ctx);
      BodyReencodes(rest, ctx, Marked(seen, id, ctx), Put(q, id, v));
    }
  }

  lemma {:induction false} NoneEncodes(ids: bytes, ctx: Context)
    ensures EncodeIds(NONE, ids, ctx) == Ok([])
    decreases |ids|
  {
    if ids != [] {
      NoneEncodes(ids[1..], ctx);
      assert EncodeOne(NONE, ids[0], ctx).value + [] == [];
    }
  }

  /** The properties of an accepted block encode to no more bytes than the block's length says. */
  lemma BlockReencodes(s: bytes, ctx: Context)
    requires Decode(s, ctx).Ok?
    ensures var n := ReadVarint(s).value.0; var p := Normal(Decode(s, ctx).value.0); var e := EncodeIds(p, IDS, ctx);
      Typed(p) && e.Ok? && |e.value| <= n
  {
    NoneEncodes(IDS, ctx);
    hide EncodeIds, ReadVarint, DecodeBody;
    var (n, tail) := ReadVarint(s).value;
    if n > 0 {
      BodyReencodes(tail[..n], ctx, {}, NONE);
    }
  }

  /** A block that is accepted encodes again, no longer than it was. */
  lemma BlockShrinks(s: bytes, ctx: Context)
    requires Decode(s, ctx).Ok?
    ensures var (r, rest) := Decode(s, ctx).value; var e := Encode(Some(Normal(r)), ctx);
      Typed(Normal(r)) && e.Ok? && |e.value| + |rest| <= |s|
  {
    BlockReencodes(s, ctx);
    var (n, tail) := ReadVarint(s).value;
    VarintBijection(n, s, tail);
    EncodeVarintLen(n);
    EncodeVarintLen(|EncodeIds(Normal(Decode(s, ctx).value.0), IDS, ctx).value|);
    hide EncodeIds, ReadVarint, DecodeBody, EncodeVarint, Typed;
  }

  /** A block that is accepted encodes again, no longer than it was, to a block read as the same set. */
  lemma DecodedIsEncoded(s: bytes, ctx: Context)
    requires Decode(s, ctx).Ok?
    ensures var (r, rest) := Decode(s, ctx).value; var e := Encode(Some(Normal(r)), ctx);
      e.Ok? && |e.value| + |rest| <= |s| &&
      var again := Decode(e.value + rest, ctx);
      again.Ok? && Normal(again.value.0) == Normal(r) && again.value.1 == rest
  {
    BlockShrinks(s, ctx);
    hide Decode, Encode;
    EncodedIsDecoded(Normal(Decode(s, ctx).value.0), ctx, Decode(s, ctx).value.1);
  }

  /** What an accepted block holds is legal: each property may appear in the packet, and no value is forbidden. */
  lemma DecodedIsLegal(s: bytes, ctx: Context, id: byte)
    requires Decode(s, ctx).Ok? && Known(id) && Present(Normal(Decode(s, ctx).value.0), id)
    ensures id in MayCarry(ctx)
    ensures ShapeOf(id) in {Num8, Num16, Num32} ==> !BadValue(id, Normal(Decode(s, ctx).value.0).nums[id])
  {
    BlockReencodes(s, ctx);
    EachOk(Normal(Decode(s, ctx).value.0), IDS, id, ctx);
    AllowedPerPacket(id, ctx);
    hide Decode, Allowed, MayCarry, EncodeIds, ShapeOf, BadValue;
  }
}
