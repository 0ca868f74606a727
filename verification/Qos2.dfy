/**
 Sender and receiver of this client composed over two FIFO channels that are emptied by every
 drop and resumed by every reconnect.
 */
module Qos2 {
  import opened Wrappers
  import opened IdAllocator
  import opened Store
  import opened Session

  /**
   The two stores, the link and the packets on it; then, as history, the message of each stored
   exchange, what was published above QoS 0, dispatched and completed, whether a replay ever skipped
   a PUBLISH because it was too large for the new connection, and the messages below QoS 2 taken off
   the link.
   */
  datatype System = System(
    sender: Contents,
    receiver: Contents,
    up: bool,
    toR: seq<Frame>,
    toS: seq<Frame>,
    tokens: nat,
    exchange: map<PacketId, Message>,
    published: seq<Message>,
    dispatched: seq<Message>,
    completed: set<Message>,
    skipped: bool,
    taken: seq<Message>)

  const INIT := System(EMPTY, EMPTY, false, [], [], 0, map[], [], [], {}, false, [])

  datatype Step =
    | Send(id: PacketId, qos: nat, written: bool)
    | ToReceiver
    | ToSender
    | Cut
    | Resume(tooLarge: set<PacketId>)

  function Down(s: System): System {
    s.(up := false, toR := [], toS := [])
  }

  // ---------------------------------------------------------------- replay

  /** The packet that replays one entry; an oversized PUBLISH is refused before it is written. */
  function ResentOne(e: StoredMessage, tooLarge: set<PacketId>): seq<Frame> {
    match e.kind
    case StoredPublish => if e.publish.Some? && e.id !in tooLarge then [Publish(e.id, e.publish.value, true)] else []
    case StoredPubrel => [Pubrel(e.id, SUCCESS)]
    case StoredInboundID => []
  }

  function Resent(l: seq<StoredMessage>, tooLarge: set<PacketId>): seq<Frame> {
    if l == [] then [] else Resent(l[..|l| - 1], tooLarge) + ResentOne(l[|l| - 1], tooLarge)
  }

  /** A replay leaves out a QoS 2 PUBLISH that the receiver has not recorded. */
  ghost predicate Skips(s: System, tooLarge: set<PacketId>) {
    exists k :: k in s.sender.msgs && k.kind == StoredPublish && k.id in tooLarge
      && s.sender.msgs[k].publish.Some? && s.sender.msgs[k].publish.value.qos == 2 && !Recorded(s, k.id)
  }

  // ---------------------------------------------------------------- steps

  ghost predicate Next(s: System, step: Step, t: System) {
    match step
    case Send(id, qos, written) =>
      && s.up && qos <= 2
      && if qos == 0 then id == 0 && t == Fired(s, Message(s.tokens, 0), written)
         else id != 0 && id !in OutboundIds(s.sender) && t == Sent(s, id, Message(s.tokens, qos), written)
    case ToReceiver => s.up && s.toR != [] && t == AtReceiver(s)
    case ToSender => s.up && s.toS != [] && t == AtSender(s)
    case Cut => s.up && t == Down(s)
    case Resume(tooLarge) =>
      && !s.up
      && t == s.(up := true, toR := Resent(InOrder(s.sender), tooLarge), skipped := s.skipped || Skips(s, tooLarge))
  }

  /** A publish that reaches the wire, or one whose failing write takes the link down with it. */
  function Sent(s: System, id: PacketId, msg: Message, written: bool): System {
    var saved := Saved(s.sender, PublishEntry(id, msg));
    if written then
      s.(sender := saved, toR := s.toR + [Publish(id, msg, false)], tokens := s.tokens + 1,
         exchange := s.exchange[id := msg], published := s.published + [msg])
    else
      Down(s).(sender := Deleted(saved, id, StoredPublish), tokens := s.tokens + 1)
  }

  /** A QoS 0 publish is written without an identifier and stored nowhere. */
  function Fired(s: System, msg: Message, written: bool): System {
    (if written then s.(toR := s.toR + [Publish(0, msg, false)]) else Down(s)).(tokens := s.tokens + 1)
  }

  /** The message of a packet that no record holds back: QoS 0 and QoS 1. */
  function Unguarded(f: Frame): seq<Message> {
    if f.Publish? && f.msg.qos < 2 then [f.msg] else []
  }

  function AtReceiver(s: System): System
    requires s.toR != []
  {
    var r := Handle(s.receiver, s.toR[0]);
    s.(receiver := r.store, toR := s.toR[1..], toS := s.toS + r.replies,
       dispatched := s.dispatched + r.dispatched, taken := s.taken + Unguarded(s.toR[0]))
  }

  function AtSender(s: System): System
    requires s.toS != []
  {
    var f := s.toS[0];
    var r := Handle(s.sender, f);
    var t := s.(sender := r.store, toS := s.toS[1..], toR := s.toR + r.replies);
    if r.ended && f.id in s.exchange then
      t.(completed := s.completed + {s.exchange[f.id]}, exchange := s.exchange - {f.id})
    else
      t
  }

  ghost predicate Run(states: seq<System>, steps: seq<Step>) {
    && |states| == |steps| + 1
    && states[0] == INIT
    && forall i | 0 <= i < |steps| :: Next(states[i], steps[i], states[i + 1])
  }

  // ---------------------------------------------------------------- packets of one exchange

  /** The packets of identifier `id` on a channel. */
  function Only(l: seq<Frame>, id: PacketId): seq<Frame> {
    if l == [] then [] else (if l[0].id == id then [l[0]] else []) + Only(l[1..], id)
  }

  lemma {:induction false} OnlyConcat(a: seq<Frame>, b: seq<Frame>, id: PacketId)
    ensures Only(a + b, id) == Only(a, id) + Only(b, id)
  {
    if a == [] {
      assert a + b == b;
    } else {
      assert (a + b)[1..] == a[1..] + b;
      OnlyConcat(a[1..], b, id);
      Assoc(if a[0].id == id then [a[0]] else [], Only(a[1..], id), Only(b, id));
    }
  }

  /** The packets of `id` on their way, in both directions. */
  function Transit(s: System, id: PacketId): seq<Frame> {
    Only(s.toR, id) + Only(s.toS, id)
  }

  predicate Recorded(s: System, id: PacketId) {
    Stored(s.receiver, id, StoredInboundID)
  }

  // ---------------------------------------------------------------- invariant

  /** The stores and the history agree on which message each identifier carries. */
  ghost predicate Shape(s: System) {
    && Sound(s.sender) && Valid(s.receiver)
    && s.exchange.Keys == OutboundIds(s.sender) && 0 !in s.exchange
    && (forall id | Stored(s.sender, id, StoredPublish) ::
          id in s.exchange && s.sender.msgs[Key(id, StoredPublish)].publish == Some(s.exchange[id]))
    && (forall id | id in s.exchange :: 1 <= s.exchange[id].qos <= 2 && s.exchange[id].token < s.tokens)
    && (forall id, id' | id in s.exchange && id' in s.exchange && s.exchange[id] == s.exchange[id'] :: id == id')
    && (!s.up ==> s.toR == [] && s.toS == [])
  }

  /** All that matters of one identifier: its packets on the way, its message and how far both sides are. */
  datatype View = View(transit: seq<Frame>, msg: Option<Message>, released: bool, recorded: bool, dispatched: bool)

  function Look(s: System, id: PacketId): View {
    View(Transit(s, id),
         if id in s.exchange then Some(s.exchange[id]) else None,
         Stored(s.sender, id, StoredPubrel),
         Recorded(s, id),
         id in s.exchange && s.exchange[id] in s.dispatched)
  }

  /** The states an exchange can be in: which packet may be on its way, given what both sides have stored. */
  predicate Standing(v: View) {
    if v.msg.None? then
      v.transit == [] && !v.recorded
    else
      var m := v.msg.value;
      if v.released then
        && m.qos == 2 && v.dispatched
        && (v.transit == [] || (|v.transit| == 1 && (v.transit[0].Pubrel? || (v.transit[0].Pubcomp? && !v.recorded))))
      else if m.qos == 2 then
        && v.dispatched == v.recorded
        && (v.transit == []
            || (|v.transit| == 1 && v.transit[0].Publish? && v.transit[0].msg == m)
            || (|v.transit| == 1 && v.transit[0].Pubrec? && v.transit[0].code == SUCCESS && v.recorded))
      else
        && !v.recorded
        && (v.transit == []
            || (|v.transit| == 1 && v.transit[0].Publish? && v.transit[0].msg == m)
            || (|v.transit| == 1 && v.transit[0].Puback? && v.dispatched))
  }

  ghost predicate Phases(s: System) {
    forall id: PacketId | id != 0 :: Standing(Look(s, id))
  }

  ghost predicate Directed(s: System) {
    && (forall f | f in s.toR :: f.Publish? || f.Pubrel?)
    && (forall f | f in s.toR && f.id == 0 :: f.Publish? && f.msg.qos == 0 && f.msg.token < s.tokens)
    && (forall f | f in s.toS :: f.id != 0 && (f.Puback? || f.Pubrec? || f.Pubcomp?))
  }

  /** At most once, at least once when completed, and nothing published is forgotten. */
  ghost predicate Delivered(s: System) {
    && (forall i, j | 0 <= i < j < |s.dispatched| && s.dispatched[i] == s.dispatched[j] :: s.dispatched[i].qos != 2)
    && (forall m | m in s.dispatched :: m.token < s.tokens)
    && (forall m | m in s.completed :: m in s.dispatched)
    && (forall m | m in s.published :: m in s.completed || exists id :: id in s.exchange && s.exchange[id] == m)
  }

  ghost predicate Inv(s: System) {
    && Shape(s)
    && Directed(s)
    && Phases(s)
    && Delivered(s)
  }

  // ---------------------------------------------------------------- a packet reaches the receiver

  /** The packet at the head of a channel is the only one of its exchange on its way. */
  lemma HeadAlone(s: System, f: Frame)
    requires Phases(s)
    requires f.id != 0 && ((s.toR != [] && f == s.toR[0]) || (s.toS != [] && f == s.toS[0]))
    ensures f.id in s.exchange && Transit(s, f.id) == [f] && Standing(Look(s, f.id))
    ensures s.toR != [] && f == s.toR[0] ==> Only(s.toR[1..], f.id) == [] && Only(s.toS, f.id) == []
    ensures s.toS != [] && f == s.toS[0] ==> Only(s.toS[1..], f.id) == [] && Only(s.toR, f.id) == []
  {
    assert Standing(Look(s, f.id));
    if s.toR != [] && f == s.toR[0] {
      assert Only(s.toR, f.id) == [f] + Only(s.toR[1..], f.id);
    } else {
      assert Only(s.toS, f.id) == [f] + Only(s.toS[1..], f.id);
    }
  }

  /** What the receiver does with the packet at the head, given where its exchange stands. */
  lemma ReceiverReacts(s: System)
    requires Inv(s) && s.toR != [] && s.toR[0].id != 0
    ensures var f := s.toR[0];
      var r := Handle(s.receiver, f);
      && f.id in s.exchange && Transit(s, f.id) == [f] && (f.Publish? || f.Pubrel?)
      && (f.Publish? ==> f.msg == s.exchange[f.id] && !Stored(s.sender, f.id, StoredPubrel))
      && (f.Pubrel? ==> Stored(s.sender, f.id, StoredPubrel))
      && Valid(r.store)
      && |r.replies| == 1 && r.replies[0].id == f.id
      && (r.replies[0].Puback? || r.replies[0].Pubrec? || r.replies[0].Pubcomp?)
      && (forall id | id != f.id :: Stored(r.store, id, StoredInboundID) == Recorded(s, id))
      && (r.dispatched == [] || r.dispatched == [s.exchange[f.id]])
      && (r.dispatched != [] && s.exchange[f.id].qos == 2 ==> s.exchange[f.id] !in s.dispatched)
  {
    var f := s.toR[0];
    HeadAlone(s, f);
    assert f in s.toR;
    SavedValid(s.receiver, InboundEntry(f.id));
    DeletedValid(s.receiver, f.id, StoredInboundID);
  }

  lemma OnlySingle(f: Frame, id: PacketId)
    ensures Only([f], id) == if f.id == id then [f] else []
  {
    assert [f][1..] == [];
  }

  /** Taking a packet off one channel and answering on the other moves only its own identifier's packets. */
  lemma Moved(a: seq<Frame>, b: seq<Frame>, replies: seq<Frame>, id: PacketId)
    requires a != [] && |replies| <= 1 && (replies != [] ==> replies[0].id == a[0].id)
    ensures id != a[0].id ==> Only(a[1..], id) == Only(a, id) && Only(b + replies, id) == Only(b, id)
    ensures id == a[0].id ==> Only(b + replies, id) == Only(b, id) + replies
  {
    OnlyConcat(b, replies, id);
    if replies != [] {
      assert replies == [replies[0]];
      OnlySingle(replies[0], id);
    }
  }

  lemma ReceiverOther(s: System, id: PacketId)
    requires s.toR != [] && id != s.toR[0].id
    requires var r := Handle(s.receiver, s.toR[0]);
      && |r.replies| == 1 && r.replies[0].id == s.toR[0].id
      && Stored(r.store, id, StoredInboundID) == Recorded(s, id)
      && (id in s.exchange ==> s.exchange[id] !in r.dispatched)
    ensures Look(AtReceiver(s), id) == Look(s, id)
  {
    Moved(s.toR, s.toS, Handle(s.receiver, s.toR[0]).replies, id);
  }

  lemma ReceiverOwn(s: System)
    requires Inv(s) && s.toR != [] && s.toR[0].id != 0
    ensures Standing(Look(AtReceiver(s), s.toR[0].id))
  {
    ReceiverReacts(s);
    HeadAlone(s, s.toR[0]);
    Moved(s.toR, s.toS, Handle(s.receiver, s.toR[0]).replies, s.toR[0].id);
  }

  lemma ReceiverDelivers(s: System)
    requires Inv(s) && s.toR != [] && s.toR[0].id != 0
    ensures Delivered(AtReceiver(s))
  {
    var f := s.toR[0];
    ReceiverReacts(s);
    assert s.exchange[f.id].token < s.tokens;
    var r := Handle(s.receiver, f);
    assert r.dispatched == [] || r.dispatched == [s.exchange[f.id]];
  }

  // ---------------------------------------------------------------- a packet reaches the sender

  lemma SenderReacts(s: System)
    requires Inv(s) && s.toS != []
    ensures var f := s.toS[0];
      var r := Handle(s.sender, f);
      && f.id in s.exchange && Transit(s, f.id) == [f]
      && Sound(r.store)
      && (f.Puback? || f.Pubcomp? ==> r.ended && r.replies == [])
      && (f.Pubrec? ==> !r.ended && r.replies == [Pubrel(f.id, SUCCESS)] && Stored(r.store, f.id, StoredPubrel))
      && (f.Puback? || f.Pubcomp? || f.Pubrec?)
      && (r.ended ==> s.exchange[f.id] in s.dispatched && !Recorded(s, f.id))
      && OutboundIds(r.store) == OutboundIds(s.sender) - (if r.ended then {f.id} else {})
      && (forall id, kind | id != f.id :: Stored(r.store, id, kind) == Stored(s.sender, id, kind))
      && (forall id | Stored(r.store, id, StoredPublish) ::
            Stored(s.sender, id, StoredPublish)
            && r.store.msgs[Key(id, StoredPublish)] == s.sender.msgs[Key(id, StoredPublish)])
  {
    var f := s.toS[0];
    HeadAlone(s, f);
    assert f in s.toS;
    HandleBalanced(s.sender, f);
  }

  lemma SenderOther(s: System, id: PacketId)
    requires s.toS != [] && id != s.toS[0].id
    requires var r := Handle(s.sender, s.toS[0]);
      && |r.replies| <= 1 && (r.replies != [] ==> r.replies[0].id == s.toS[0].id)
      && Stored(r.store, id, StoredPubrel) == Stored(s.sender, id, StoredPubrel)
    ensures Look(AtSender(s), id) == Look(s, id)
  {
    Moved(s.toS, s.toR, Handle(s.sender, s.toS[0]).replies, id);
  }

  lemma SenderOwn(s: System)
    requires Inv(s) && s.toS != []
    ensures Standing(Look(AtSender(s), s.toS[0].id))
  {
    SenderReacts(s);
    HeadAlone(s, s.toS[0]);
    Moved(s.toS, s.toR, Handle(s.sender, s.toS[0]).replies, s.toS[0].id);
  }

  lemma SenderShape(s: System)
    requires Inv(s) && s.toS != []
    ensures Shape(AtSender(s)) && Directed(AtSender(s))
  {
    SenderReacts(s);
  }

  lemma SenderDelivers(s: System)
    requires Inv(s) && s.toS != []
    ensures Delivered(AtSender(s))
  {
    SenderReacts(s);
    var t := AtSender(s);
    forall m | m in t.published
      ensures m in t.completed || exists id :: id in t.exchange && t.exchange[id] == m
    {
      if m !in s.completed {
        var id :| id in s.exchange && s.exchange[id] == m;
        if id in t.exchange {
          assert t.exchange[id] == m;
        }
      }
    }
  }

  // ---------------------------------------------------------------- publishing and losing the link

  lemma SendShape(s: System, id: PacketId, qos: nat)
    requires Shape(s) && Directed(s) && s.up && id != 0 && id !in OutboundIds(s.sender) && 1 <= qos <= 2
    ensures Shape(Sent(s, id, Message(s.tokens, qos), true))
    ensures Directed(Sent(s, id, Message(s.tokens, qos), true))
  {
    var e := PublishEntry(id, Message(s.tokens, qos));
    SavedValid(s.sender, e);
    SavedKeys(s.sender, e);
    LegsWith(s.sender.msgs.Keys, e.Slot());
  }

  lemma SendPhase(s: System, id: PacketId, qos: nat, x: PacketId)
    requires Inv(s) && s.up && id != 0 && x != 0 && id !in OutboundIds(s.sender) && 1 <= qos <= 2
    ensures Standing(Look(Sent(s, id, Message(s.tokens, qos), true), x))
  {
    var msg := Message(s.tokens, qos);
    var t := Sent(s, id, msg, true);
    assert Standing(Look(s, x));
    assert msg !in s.dispatched;
    assert id !in s.exchange;
    SavedKeys(s.sender, PublishEntry(id, msg));
    OnlyConcat(s.toR, [Publish(id, msg, false)], x);
    OnlySingle(Publish(id, msg, false), x);
    if x != id {
      assert Look(t, x) == Look(s, x);
    } else {
      assert Transit(t, x) == [Publish(id, msg, false)];
    }
  }

  lemma SendDelivers(s: System, id: PacketId, qos: nat, written: bool)
    requires Inv(s) && s.up && id !in OutboundIds(s.sender) && 1 <= qos <= 2
    ensures Delivered(Sent(s, id, Message(s.tokens, qos), written))
  {
    var t := Sent(s, id, Message(s.tokens, qos), written);
    forall m | m in t.published
      ensures m in t.completed || exists x :: x in t.exchange && t.exchange[x] == m
    {
      if m in s.published && m !in s.completed {
        var x :| x in s.exchange && s.exchange[x] == m;
        assert t.exchange[x] == m;
      } else if m !in s.published {
        assert t.exchange[id] == m;
      }
    }
  }

  lemma DownKeeps(s: System)
    requires Inv(s)
    ensures Inv(Down(s))
  {
    forall id: PacketId | id != 0
      ensures Standing(Look(Down(s), id))
    {
      assert Standing(Look(s, id));
      assert Transit(Down(s), id) == [];
    }
  }

  /** A failed write leaves the sender as it was, apart from the counters. */
  lemma UnsentShape(s: System, id: PacketId, qos: nat)
    requires Shape(s) && id !in OutboundIds(s.sender)
    ensures var t := Sent(s, id, Message(s.tokens, qos), false);
      Shape(t) && t.sender.msgs == s.sender.msgs
  {
    var t := Sent(s, id, Message(s.tokens, qos), false);
    SavedValid(s.sender, PublishEntry(id, Message(s.tokens, qos)));
    DeletedValid(Saved(s.sender, PublishEntry(id, Message(s.tokens, qos))), id, StoredPublish);
    assert Key(id, StoredPublish) !in s.sender.msgs;
    assert t.sender.msgs == s.sender.msgs;
  }

  lemma UnsentKeeps(s: System, id: PacketId, qos: nat)
    requires Inv(s) && s.up && id != 0 && id !in OutboundIds(s.sender) && 1 <= qos <= 2
    ensures Inv(Sent(s, id, Message(s.tokens, qos), false))
  {
    var t := Sent(s, id, Message(s.tokens, qos), false);
    SendDelivers(s, id, qos, false);
    DownKeeps(s);
    UnsentShape(s, id, qos);
    forall x: PacketId | x != 0
      ensures Standing(Look(t, x))
    {
      assert Look(t, x) == Look(Down(s), x);
    }
  }

  // ---------------------------------------------------------------- resuming

  /** `l` is what the entries up to sequence number `n` replay for `id`: at most one packet. */
  ghost predicate ReplayOf(s: Contents, n: nat, id: PacketId, l: seq<Frame>) {
    || l == []
    || (&& |l| == 1 && l[0].Publish? && Stored(s, id, StoredPublish)
        && s.msgs[Key(id, StoredPublish)].publish == Some(l[0].msg) && s.msgs[Key(id, StoredPublish)].seqNo <= n)
    || (&& |l| == 1 && l[0].Pubrel? && Stored(s, id, StoredPubrel) && s.msgs[Key(id, StoredPubrel)].seqNo <= n)
  }

  lemma {:induction false} OnlyResent(s: Contents, n: nat, tooLarge: set<PacketId>, id: PacketId)
    requires Sound(s)
    ensures ReplayOf(s, n, id, Only(Resent(Upto(s, n), tooLarge), id))
  {
    if n > 0 {
      OnlyResent(s, n - 1, tooLarge, id);
      EntryAtSlot(s, n);
      ResentStep(s, n, tooLarge, id);
      hide ReplayOf, Resent, Only, EntryAt;
      ReplayExtends(s, n, tooLarge, id, Only(Resent(Upto(s, n - 1), tooLarge), id));
    }
  }

  lemma ReplayExtends(s: Contents, n: nat, tooLarge: set<PacketId>, id: PacketId, l: seq<Frame>)
    requires Sound(s) && n > 0 && ReplayOf(s, n - 1, id, l)
    ensures |EntryAt(s, n)| <= 1
    ensures ReplayOf(s, n, id, l
      + (if EntryAt(s, n) != [] && EntryAt(s, n)[0].id == id then ResentOne(EntryAt(s, n)[0], tooLarge) else []))
  {
  }

  lemma ResentConcat(l: seq<StoredMessage>, e: StoredMessage, tooLarge: set<PacketId>)
    ensures Resent(l + [e], tooLarge) == Resent(l, tooLarge) + ResentOne(e, tooLarge)
  {
    assert (l + [e])[..|l|] == l;
  }

  lemma OnlyResentOne(e: StoredMessage, tooLarge: set<PacketId>, id: PacketId)
    ensures Only(ResentOne(e, tooLarge), id) == if e.id == id then ResentOne(e, tooLarge) else []
  {
    var one := ResentOne(e, tooLarge);
    if one != [] {
      OnlySingle(one[0], id);
      assert one == [one[0]];
    }
  }

  lemma ResentStep(s: Contents, n: nat, tooLarge: set<PacketId>, id: PacketId)
    requires n > 0 && |EntryAt(s, n)| <= 1
    ensures Only(Resent(Upto(s, n), tooLarge), id) == Only(Resent(Upto(s, n - 1), tooLarge), id)
      + (if EntryAt(s, n) != [] && EntryAt(s, n)[0].id == id then ResentOne(EntryAt(s, n)[0], tooLarge) else [])
  {
    var a, b := Upto(s, n - 1), EntryAt(s, n);
    if b == [] {
      assert a + b == a;
    } else {
      assert b == [b[0]];
      ResentConcat(a, b[0], tooLarge);
      OnlyConcat(Resent(a, tooLarge), ResentOne(b[0], tooLarge), id);
      OnlyResentOne(b[0], tooLarge, id);
      hide Resent, ResentOne, Only, EntryAt;
    }
  }

  lemma {:induction false} ResentDirected(l: seq<StoredMessage>, tooLarge: set<PacketId>)
    requires forall e | e in l && e.kind != StoredInboundID :: e.id != 0
    ensures forall f | f in Resent(l, tooLarge) :: (f.Publish? || f.Pubrel?) && f.id != 0
  {
    if l != [] {
      assert l[|l| - 1] in l;
      ResentDirected(l[..|l| - 1], tooLarge);
    }
  }

  lemma StoredIdsNotZero(s: System)
    requires Shape(s)
    ensures forall e | e in InOrder(s.sender) && e.kind != StoredInboundID :: e.id != 0
  {
    AllIsSnapshot(s.sender);
    forall e | e in InOrder(s.sender) && e.kind != StoredInboundID
      ensures e.id != 0
    {
      assert e.Slot() in s.sender.msgs;
      assert e.id in OutboundIds(s.sender);
    }
  }

  lemma ResumeKeeps(s: System, tooLarge: set<PacketId>, t: System)
    requires Inv(s) && Next(s, Resume(tooLarge), t)
    ensures Inv(t)
  {
    StoredIdsNotZero(s);
    ResentDirected(InOrder(s.sender), tooLarge);
    forall id: PacketId | id != 0
      ensures Standing(Look(t, id))
    {
      assert Standing(Look(s, id));
      OnlyResent(s.sender, s.sender.seqNo, tooLarge, id);
      assert Transit(t, id) == Only(t.toR, id);
    }
  }

  /** A QoS 0 packet is dispatched and leaves everything else as it was. */
  lemma ZeroReacts(s: System)
    requires Inv(s) && s.toR != [] && s.toR[0].id == 0
    ensures s.toR[0].Publish? && s.toR[0].msg.qos == 0
    ensures var m := s.toR[0].msg;
      AtReceiver(s) == s.(toR := s.toR[1..], dispatched := s.dispatched + [m], taken := s.taken + [m])
    ensures forall x: PacketId | x != 0 :: Transit(AtReceiver(s), x) == Transit(s, x)
  {
    assert s.toR[0] in s.toR && s.toS + [] == s.toS;
  }

  lemma ZeroKeeps(s: System)
    requires Inv(s) && s.toR != [] && s.toR[0].id == 0
    ensures Inv(AtReceiver(s))
  {
    ZeroReacts(s);
    forall x: PacketId | x != 0
      ensures Standing(Look(AtReceiver(s), x))
    {
      assert Standing(Look(s, x));
      assert Look(AtReceiver(s), x) == Look(s, x);
    }
  }

  lemma ReceiverKeeps(s: System)
    requires Inv(s) && s.toR != [] && s.toR[0].id != 0
    ensures s.up ==> Inv(AtReceiver(s))
  {
    var t := AtReceiver(s);
    ReceiverReacts(s);
    ReceiverDelivers(s);
    forall x: PacketId | x != 0
      ensures Standing(Look(t, x))
    {
      if x == s.toR[0].id {
        ReceiverOwn(s);
      } else {
        ReceiverOther(s, x);
      }
    }
  }

  lemma FiredKeeps(s: System, written: bool)
    requires Inv(s) && s.up
    ensures Inv(Fired(s, Message(s.tokens, 0), written))
  {
    var t := Fired(s, Message(s.tokens, 0), written);
    DownKeeps(s);
    forall x: PacketId | x != 0
      ensures Standing(Look(t, x))
    {
      assert Standing(Look(s, x)) && Standing(Look(Down(s), x));
      OnlyConcat(s.toR, [Publish(0, Message(s.tokens, 0), false)], x);
      OnlySingle(Publish(0, Message(s.tokens, 0), false), x);
      assert Look(t, x) == if written then Look(s, x) else Look(Down(s), x);
    }
  }

  lemma SenderKeeps(s: System)
    requires Inv(s) && s.toS != []
    ensures Inv(AtSender(s))
  {
    var t := AtSender(s);
    SenderShape(s);
    SenderDelivers(s);
    SenderReacts(s);
    forall x: PacketId | x != 0
      ensures Standing(Look(t, x))
    {
      if x == s.toS[0].id {
        SenderOwn(s);
      } else {
        SenderOther(s, x);
      }
    }
  }

  lemma NextKeeps(s: System, step: Step, t: System)
    requires Inv(s) && Next(s, step, t)
    ensures Inv(t)
  {
    match step
    case Send(id, qos, written) =>
      if qos == 0 {
        FiredKeeps(s, written);
      } else if written {
        SendShape(s, id, qos);
        SendDelivers(s, id, qos, true);
        forall x: PacketId | x != 0 ensures Standing(Look(t, x)) { SendPhase(s, id, qos, x); }
      } else {
        UnsentKeeps(s, id, qos);
      }
    case ToReceiver =>
      if s.toR[0].id == 0 {
        ZeroKeeps(s);
      } else {
        ReceiverKeeps(s);
      }
    case ToSender => SenderKeeps(s);
    case Cut => DownKeeps(s);
    case Resume(tooLarge) => ResumeKeeps(s, tooLarge, t);
  }
}
