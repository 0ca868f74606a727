/** Exactly-once delivery in publish order: what the composed runs of Qos2 promise. */
module Qos2Order {
  import opened Wrappers
  import opened IdAllocator
  import opened Store
  import opened Session
  import opened Qos2

  function Two(l: seq<Message>): seq<Message> {
    if l == [] then [] else Two(l[..|l| - 1]) + (if l[|l| - 1].qos == 2 then [l[|l| - 1]] else [])
  }

  /** The message of an entry the receiver has not recorded. */
  function UnseenOne(e: StoredMessage, receiver: Contents): seq<Message> {
    if e.kind == StoredPublish && e.publish.Some? && e.publish.value.qos == 2 && !Stored(receiver, e.id, StoredInboundID)
    then [e.publish.value] else []
  }

  function Unseen(l: seq<StoredMessage>, receiver: Contents): seq<Message> {
    if l == [] then [] else Unseen(l[..|l| - 1], receiver) + UnseenOne(l[|l| - 1], receiver)
  }

  function UnseenFrame(f: Frame, receiver: Contents): seq<Message> {
    if f.Publish? && f.msg.qos == 2 && !Stored(receiver, f.id, StoredInboundID) then [f.msg] else []
  }

  function UnseenFrames(l: seq<Frame>, receiver: Contents): seq<Message> {
    if l == [] then [] else UnseenFrame(l[0], receiver) + UnseenFrames(l[1..], receiver)
  }

  /** The QoS 2 messages in flight that the receiver has not seen, in replay order. */
  ghost function Pending(s: System): seq<Message> {
    Unseen(InOrder(s.sender), s.receiver)
  }

  ghost predicate Rising(l: seq<Message>, below: nat) {
    && (forall i, j | 0 <= i < j < |l| :: l[i].token < l[j].token)
    && (forall m | m in l :: m.token < below)
  }

  /**
   What was published is what was dispatched followed by what is pending, and on a live link the
   pending messages are on the wire in that order.
   */
  ghost predicate Order(s: System) {
    && Rising(s.published, s.tokens)
    && (!s.skipped ==>
          && Two(s.published) == Two(s.dispatched) + Pending(s)
          && (s.up ==> UnseenFrames(s.toR, s.receiver) == Pending(s)))
  }

  // ---------------------------------------------------------------- lists

  lemma TwoSnoc(l: seq<Message>, m: Message)
    ensures Two(l + [m]) == Two(l) + (if m.qos == 2 then [m] else [])
  {
    assert (l + [m])[..|l|] == l;
  }

  lemma {:induction false} TwoMembers(l: seq<Message>)
    ensures forall m | m in Two(l) :: m in l && m.qos == 2
  {
    if l != [] {
      TwoMembers(l[..|l| - 1]);
    }
  }

  lemma RisingSnoc(l: seq<Message>, m: Message)
    requires Rising(l, m.token)
    ensures Rising(l + [m], m.token + 1)
  {
  }

  /** Filtering keeps tokens rising. */
  lemma {:induction false} TwoRising(l: seq<Message>, below: nat)
    requires Rising(l, below)
    ensures Rising(Two(l), below)
  {
    if l != [] {
      var l', m := l[..|l| - 1], l[|l| - 1];
      TwoRising(l', m.token);
      TwoMembers(l');
    }
  }

  lemma UnseenSnoc(l: seq<StoredMessage>, e: StoredMessage, receiver: Contents)
    ensures Unseen(l + [e], receiver) == Unseen(l, receiver) + UnseenOne(e, receiver)
  {
    assert (l + [e])[..|l|] == l;
  }

  lemma {:induction false} UnseenFramesConcat(a: seq<Frame>, b: seq<Frame>, receiver: Contents)
    ensures UnseenFrames(a + b, receiver) == UnseenFrames(a, receiver) + UnseenFrames(b, receiver)
  {
    if a == [] {
      assert a + b == b;
    } else {
      assert (a + b)[1..] == a[1..] + b;
      UnseenFramesConcat(a[1..], b, receiver);
    }
  }

  lemma UnseenSingle(f: Frame, receiver: Contents)
    ensures UnseenFrames([f], receiver) == UnseenFrame(f, receiver)
  {
    assert [f][1..] == [];
  }

  /** A replay that leaves out nothing unseen puts the pending messages on the wire in order. */
  lemma {:induction false} ResentUnseen(l: seq<StoredMessage>, tooLarge: set<PacketId>, receiver: Contents)
    requires forall e | e in l && e.id in tooLarge :: UnseenOne(e, receiver) == []
    ensures UnseenFrames(Resent(l, tooLarge), receiver) == Unseen(l, receiver)
  {
    if l != [] {
      var l', e := l[..|l| - 1], l[|l| - 1];
      ResentUnseen(l', tooLarge, receiver);
      UnseenFramesConcat(Resent(l', tooLarge), ResentOne(e, tooLarge), receiver);
      assert e in l;
      assert UnseenFrames(ResentOne(e, tooLarge), receiver) == UnseenOne(e, receiver);
    }
  }

  ghost predicate AgreeExcept(a: Contents, b: Contents, id: PacketId) {
    forall x | x != id :: Stored(a, x, StoredInboundID) == Stored(b, x, StoredInboundID)
  }

  lemma {:induction false} UnseenFramesAgree(l: seq<Frame>, a: Contents, b: Contents, id: PacketId)
    requires AgreeExcept(a, b, id) && Only(l, id) == []
    ensures UnseenFrames(l, a) == UnseenFrames(l, b)
  {
    if l != [] {
      assert l[0].id != id;
      UnseenFramesAgree(l[1..], a, b, id);
    }
  }

  lemma {:induction false} UnseenAgree(l: seq<StoredMessage>, a: Contents, b: Contents, id: PacketId)
    requires AgreeExcept(a, b, id)
    requires forall e | e in l :: e.id != id || e.kind != StoredPublish
    ensures Unseen(l, a) == Unseen(l, b)
  {
    if l != [] {
      UnseenAgree(l[..|l| - 1], a, b, id);
    }
  }

  // ---------------------------------------------------------------- the store in replay order

  lemma {:induction false} UptoSameMsgs(s: Contents, t: Contents, n: nat)
    requires Valid(s) && Valid(t) && s.msgs == t.msgs
    ensures Upto(s, n) == Upto(t, n)
  {
    if n > 0 {
      UptoSameMsgs(s, t, n - 1);
      if HasSeq(s, n) {
        var k :| k in s.msgs && s.msgs[k].seqNo == n;
        EntryAtIs(s, k);
        EntryAtIs(t, k);
      }
    }
  }

  lemma UnseenSaved(s: Contents, m: StoredMessage, receiver: Contents)
    requires Valid(s) && m.Slot() !in s.msgs
    ensures Unseen(InOrder(Saved(s, m)), receiver) == Unseen(InOrder(s), receiver) + UnseenOne(m, receiver)
  {
    var e := m.(seqNo := s.seqNo + 1);
    UptoSavedNew(s, m, s.seqNo);
    EntryAtSaved(s, m, s.seqNo + 1);
    UnseenSnoc(InOrder(s), e, receiver);
  }

  lemma {:induction false} UnseenDeleted(s: Contents, id: PacketId, kind: Kind, receiver: Contents, n: nat)
    requires Valid(s)
    requires Stored(s, id, kind) ==> UnseenOne(s.msgs[Key(id, kind)], receiver) == []
    ensures Unseen(Upto(Deleted(s, id, kind), n), receiver) == Unseen(Upto(s, n), receiver)
  {
    if n > 0 {
      UnseenDeleted(s, id, kind, receiver, n - 1);
      EntryAtDeleted(s, id, kind, n);
      EntryAtSlot(s, n);
      UnseenUpto(s, receiver, n);
      DeletedValid(s, id, kind);
      EntryAtSlot(Deleted(s, id, kind), n);
      UnseenUpto(Deleted(s, id, kind), receiver, n);
    }
  }

  lemma UnseenUpto(s: Contents, receiver: Contents, n: nat)
    requires n > 0 && |EntryAt(s, n)| <= 1
    ensures Unseen(Upto(s, n), receiver) ==
      Unseen(Upto(s, n - 1), receiver) + (if EntryAt(s, n) == [] then [] else UnseenOne(EntryAt(s, n)[0], receiver))
  {
    var a, b := Upto(s, n - 1), EntryAt(s, n);
    if b == [] {
      assert a + b == a;
    } else {
      assert b == [b[0]];
      UnseenSnoc(a, b[0], receiver);
    }
  }

  function Minus(l: seq<Message>, m: Message): seq<Message> {
    if l == [] then [] else Minus(l[..|l| - 1], m) + (if l[|l| - 1] == m then [] else [l[|l| - 1]])
  }

  lemma {:induction false} MinusHead(m: Message, l: seq<Message>)
    requires m !in l
    ensures Minus([m] + l, m) == l
  {
    if l == [] {
      assert ([m] + l)[..0] == [];
    } else {
      var l', x := l[..|l| - 1], l[|l| - 1];
      assert ([m] + l)[..|l|] == [m] + l';
      MinusHead(m, l');
    }
  }

  /** Recording the identifier of one message takes exactly that message out of the pending ones. */
  lemma {:induction false} UnseenRecorded(l: seq<StoredMessage>, a: Contents, b: Contents, id: PacketId, m: Message)
    requires AgreeExcept(a, b, id) && Stored(b, id, StoredInboundID)
    requires forall e | e in l && e.kind == StoredPublish && e.publish.Some? :: e.publish.value == m <==> e.id == id
    ensures Unseen(l, b) == Minus(Unseen(l, a), m)
  {
    if l != [] {
      var l', e := l[..|l| - 1], l[|l| - 1];
      UnseenRecorded(l', a, b, id, m);
      var u, v := Unseen(l', a), UnseenOne(e, a);
      if v != [] {
        assert (u + v)[..|u|] == u;
      } else {
        assert u + v == u;
      }
    }
  }

  // ---------------------------------------------------------------- steps

  lemma FreshUnrecorded(s: System, id: PacketId)
    requires Inv(s) && id != 0 && id !in OutboundIds(s.sender)
    ensures Valid(s.sender) && Key(id, StoredPublish) !in s.sender.msgs && !Recorded(s, id)
  {
    assert Standing(Look(s, id));
  }

  lemma SendOrder(s: System, id: PacketId, qos: nat)
    requires Order(s) && s.up && 1 <= qos <= 2
    requires Valid(s.sender) && Key(id, StoredPublish) !in s.sender.msgs && !Recorded(s, id)
    ensures Order(Sent(s, id, Message(s.tokens, qos), true))
  {
    var msg := Message(s.tokens, qos);
    var f := Publish(id, msg, false);
    UnseenSaved(s.sender, PublishEntry(id, msg), s.receiver);
    TwoSnoc(s.published, msg);
    UnseenFramesConcat(s.toR, [f], s.receiver);
    UnseenSingle(f, s.receiver);
    RisingSnoc(s.published, msg);
    var added := UnseenFrame(f, s.receiver);
    Assoc(Two(s.dispatched), Pending(s), added);
  }

  lemma InOrderUnsent(s: Contents, id: PacketId, msg: Message)
    requires Valid(s) && Key(id, StoredPublish) !in s.msgs
    ensures InOrder(Deleted(Saved(s, PublishEntry(id, msg)), id, StoredPublish)) == InOrder(s)
  {
    var e := PublishEntry(id, msg);
    var t := Deleted(Saved(s, e), id, StoredPublish);
    SavedValid(s, e);
    DeletedValid(Saved(s, e), id, StoredPublish);
    assert t.msgs == s.msgs;
    UptoSameMsgs(s, t, s.seqNo);
    assert EntryAt(t, s.seqNo + 1) == [];
  }

  /** A first delivery takes the head of the pending messages. */
  lemma FirstDelivery(s: System, m: Message)
    requires Inv(s) && Order(s) && !s.skipped && s.up && s.toR != []
    requires s.toR[0].Publish? && m == s.toR[0].msg && m.qos == 2 && !Recorded(s, s.toR[0].id)
    ensures Pending(s) == [m] + UnseenFrames(s.toR[1..], s.receiver)
    ensures Pending(AtReceiver(s)) == UnseenFrames(s.toR[1..], s.receiver)
  {
    var id := s.toR[0].id;
    var t := AtReceiver(s);
    var rest := UnseenFrames(s.toR[1..], s.receiver);
    assert s.toR[0] in s.toR;
    ReceiverReacts(s);
    AllIsSnapshot(s.sender);
    UnseenRecorded(InOrder(s.sender), s.receiver, t.receiver, id, m);
    assert m !in rest by {
      TwoRising(s.published, s.tokens);
      assert Two(s.published) == Two(s.dispatched) + ([m] + rest);
      RisingOnce(Two(s.dispatched), m, rest, s.tokens);
    }
    MinusHead(m, rest);
  }

  lemma RisingOnce(a: seq<Message>, m: Message, b: seq<Message>, below: nat)
    requires Rising(a + ([m] + b), below)
    ensures m !in b
  {
    var l := a + ([m] + b);
    forall i | 0 <= i < |b|
      ensures b[i] != m
    {
      assert l[|a|] == m && l[|a| + 1 + i] == b[i];
    }
  }

  lemma FirstDeliveryOrder(s: System)
    requires Inv(s) && Order(s) && !s.skipped && s.up && s.toR != []
    requires s.toR[0].Publish? && s.toR[0].msg.qos == 2 && !Recorded(s, s.toR[0].id)
    ensures Order(AtReceiver(s))
  {
    var f := s.toR[0];
    assert f in s.toR;
    HeadAlone(s, f);
    ReceiverReacts(s);
    UnseenFramesAgree(s.toR[1..], s.receiver, AtReceiver(s).receiver, f.id);
    FirstDelivery(s, f.msg);
    TwoSnoc(s.dispatched, f.msg);
    Assoc(Two(s.dispatched), [f.msg], UnseenFrames(s.toR[1..], s.receiver));
  }

  /** A step at the receiver that shows it nothing new keeps the order. */
  lemma NothingNew(s: System, t: System, seen: seq<Message>)
    requires Order(s) && !s.skipped && s.up && s.toR != [] && UnseenFrame(s.toR[0], s.receiver) == []
    requires t.published == s.published && t.tokens == s.tokens && t.dispatched == s.dispatched + seen
    requires t.toR == s.toR[1..] && Pending(t) == Pending(s)
    requires UnseenFrames(t.toR, t.receiver) == UnseenFrames(t.toR, s.receiver)
    requires seen == [] || (|seen| == 1 && seen[0].qos != 2)
    ensures Order(t)
  {
    if seen == [] {
      assert s.dispatched + [] == s.dispatched;
    } else {
      assert seen == [seen[0]];
      TwoSnoc(s.dispatched, seen[0]);
    }
  }

  lemma LaterDeliveryOrder(s: System)
    requires Inv(s) && Order(s) && !s.skipped && s.up && s.toR != [] && s.toR[0].id != 0
    requires !(s.toR[0].Publish? && s.toR[0].msg.qos == 2 && !Recorded(s, s.toR[0].id))
    ensures Order(AtReceiver(s))
  {
    var f := s.toR[0];
    HeadAlone(s, f);
    ReceiverReacts(s);
    UnseenFramesAgree(s.toR[1..], s.receiver, AtReceiver(s).receiver, f.id);
    PendingKept(s);
    NothingNew(s, AtReceiver(s), Handle(s.receiver, f).dispatched);
  }

  lemma ZeroDeliveryOrder(s: System)
    requires Inv(s) && Order(s) && !s.skipped && s.up && s.toR != [] && s.toR[0].id == 0
    ensures Order(AtReceiver(s))
  {
    ZeroReacts(s);
    NothingNew(s, AtReceiver(s), [s.toR[0].msg]);
  }

  lemma ReceiverOrder(s: System)
    requires Inv(s) && Order(s) && s.up && s.toR != []
    ensures Order(AtReceiver(s))
  {
    if s.skipped {
    } else if s.toR[0].id == 0 {
      ZeroDeliveryOrder(s);
    } else if s.toR[0].Publish? && s.toR[0].msg.qos == 2 && !Recorded(s, s.toR[0].id) {
      FirstDeliveryOrder(s);
    } else {
      LaterDeliveryOrder(s);
    }
  }

  /** A QoS 0 publish is neither recorded as published nor pending. */
  lemma FiredOrder(s: System, written: bool)
    requires Order(s) && s.up
    ensures Order(Fired(s, Message(s.tokens, 0), written))
  {
    var f := Publish(0, Message(s.tokens, 0), false);
    UnseenFramesConcat(s.toR, [f], s.receiver);
    UnseenSingle(f, s.receiver);
    assert UnseenFrames(s.toR, s.receiver) + [] == UnseenFrames(s.toR, s.receiver);
  }

  lemma SendingOrder(s: System, id: PacketId, qos: nat, written: bool)
    requires Inv(s) && Order(s) && s.up && id != 0 && id !in OutboundIds(s.sender) && 1 <= qos <= 2
    ensures Order(Sent(s, id, Message(s.tokens, qos), written))
  {
    FreshUnrecorded(s, id);
    if written {
      SendOrder(s, id, qos);
    } else {
      InOrderUnsent(s.sender, id, Message(s.tokens, qos));
    }
  }

  lemma PendingKept(s: System)
    requires Inv(s) && s.toR != [] && s.toR[0].id != 0
    requires !(s.toR[0].Publish? && s.toR[0].msg.qos == 2 && !Recorded(s, s.toR[0].id))
    ensures Pending(AtReceiver(s)) == Pending(s)
  {
    var f := s.toR[0];
    ReceiverReacts(s);
    assert f in s.toR;
    if f.Pubrel? {
      AllIsSnapshot(s.sender);
      UnseenAgree(InOrder(s.sender), s.receiver, AtReceiver(s).receiver, f.id);
    }
  }

  /** Ending an exchange the receiver no longer waits for leaves the pending messages alone. */
  lemma TerminalPending(s: Contents, receiver: Contents, id: PacketId, kind: Kind)
    requires Valid(s) && Stored(s, id, kind) && UnseenOne(s.msgs[Key(id, kind)], receiver) == []
    ensures Unseen(InOrder(OnTerminal(s, id, kind).store), receiver) == Unseen(InOrder(s), receiver)
  {
    UnseenDeleted(s, id, kind, receiver, s.seqNo);
  }

  /** So does moving a recorded exchange to its PUBREL leg. */
  lemma PubrecPending(s: Contents, receiver: Contents, id: PacketId)
    requires Sound(s) && Stored(s, id, StoredPublish) && Stored(receiver, id, StoredInboundID)
    ensures Unseen(InOrder(OnPubrec(s, id, SUCCESS).store), receiver) == Unseen(InOrder(s), receiver)
  {
    var mid := Saved(s, PubrelEntry(id));
    SavedValid(s, PubrelEntry(id));
    UnseenSaved(s, PubrelEntry(id), receiver);
    assert mid.msgs[Key(id, StoredPublish)].Slot() == Key(id, StoredPublish);
    UnseenDeleted(mid, id, StoredPublish, receiver, mid.seqNo);
    assert Unseen(InOrder(s), receiver) + [] == Unseen(InOrder(s), receiver);
  }

  /** What the head of the return channel says about the entry it acknowledges. */
  lemma AckedEntry(s: System)
    requires Inv(s) && s.toS != []
    ensures Sound(s.sender)
    ensures var f := s.toS[0];
      && (f.Puback? || f.Pubrec? || f.Pubcomp?)
      && (f.Puback? ==> Stored(s.sender, f.id, StoredPublish)
                        && UnseenOne(s.sender.msgs[Key(f.id, StoredPublish)], s.receiver) == [])
      && (f.Pubrec? ==> f.code == SUCCESS && Stored(s.sender, f.id, StoredPublish) && Recorded(s, f.id))
      && (f.Pubcomp? ==> Stored(s.sender, f.id, StoredPubrel))
  {
    var f := s.toS[0];
    HeadAlone(s, f);
    assert Standing(Look(s, f.id));
    assert f in s.toS;
  }

  lemma SenderPending(s: System)
    requires Inv(s) && s.toS != []
    ensures Pending(AtSender(s)) == Pending(s)
  {
    var f := s.toS[0];
    AckedEntry(s);
    match f
    case Puback(id, _) => TerminalPending(s.sender, s.receiver, id, StoredPublish);
    case Pubcomp(id, _) =>
      assert s.sender.msgs[Key(id, StoredPubrel)].Slot() == Key(id, StoredPubrel);
      TerminalPending(s.sender, s.receiver, id, StoredPubrel);
    case Pubrec(id, _) => PubrecPending(s.sender, s.receiver, id);
  }

  lemma SenderOrder(s: System)
    requires Inv(s) && Order(s) && s.up && s.toS != []
    ensures Order(AtSender(s))
  {
    SenderReacts(s);
    SenderPending(s);
    var r := Handle(s.sender, s.toS[0]);
    UnseenFramesConcat(s.toR, r.replies, s.receiver);
    assert UnseenFrames(r.replies, s.receiver) == [];
  }

  lemma NothingUnseenSkipped(s: System, tooLarge: set<PacketId>)
    requires Valid(s.sender) && !Skips(s, tooLarge)
    ensures forall e | e in InOrder(s.sender) && e.id in tooLarge :: UnseenOne(e, s.receiver) == []
  {
    AllIsSnapshot(s.sender);
    forall e | e in InOrder(s.sender) && e.id in tooLarge
      ensures UnseenOne(e, s.receiver) == []
    {
      assert e.Slot() in s.sender.msgs && s.sender.msgs[e.Slot()] == e;
    }
  }

  lemma NextOrder(s: System, step: Step, t: System)
    requires Inv(s) && Order(s) && Next(s, step, t)
    ensures Order(t)
  {
    match step
    case Send(id, qos, written) =>
      if qos == 0 {
        FiredOrder(s, written);
      } else {
        SendingOrder(s, id, qos, written);
      }
    case ToReceiver => ReceiverOrder(s);
    case ToSender => SenderOrder(s);
    case Cut =>
    case Resume(tooLarge) =>
      if !Skips(s, tooLarge) {
        NothingUnseenSkipped(s, tooLarge);
        ResentUnseen(InOrder(s.sender), tooLarge, s.receiver);
      }
  }

  lemma {:induction false} RunsKeep(states: seq<System>, steps: seq<Step>, i: nat)
    requires Run(states, steps) && i <= |steps|
    ensures Inv(states[i]) && Order(states[i])
  {
    if i > 0 {
      RunsKeep(states, steps, i - 1);
      assert Next(states[i - 1], steps[i - 1], states[i - 1 + 1]);
      NextKeeps(states[i - 1], steps[i - 1], states[i]);
      NextOrder(states[i - 1], steps[i - 1], states[i]);
    }
  }

  /** The sender has the message stored, or the PUBREL of its exchange. */
  ghost predicate Carries(s: System, id: PacketId, m: Message) {
    || (Stored(s.sender, id, StoredPublish) && s.sender.msgs[Key(id, StoredPublish)].publish == Some(m))
    || (Stored(s.sender, id, StoredPubrel) && id in s.exchange && s.exchange[id] == m)
  }

  /**
   In every run, whatever drops and resumes it contains and however identifiers are reused: a
   QoS 2 message is dispatched at most once; a message completed at the sender has been
   dispatched; and a published message is completed or still stored.
   */
  lemma ExactlyOnce(states: seq<System>, steps: seq<Step>, i: nat)
    requires Run(states, steps) && i <= |steps|
    ensures var s := states[i];
      && (forall j, k | 0 <= j < k < |s.dispatched| && s.dispatched[j].qos == 2 :: s.dispatched[j] != s.dispatched[k])
      && (forall m | m in s.completed :: m in s.dispatched)
      && (forall m | m in s.published && m !in s.completed :: exists id :: Carries(s, id, m))
  {
    RunsKeep(states, steps, i);
    var s := states[i];
    forall m | m in s.published && m !in s.completed
      ensures exists id :: Carries(s, id, m)
    {
      var id :| id in s.exchange && s.exchange[id] == m;
      assert id in OutboundIds(s.sender);
      assert Carries(s, id, m);
    }
  }

  /** As long as no replay leaves out an unseen one, QoS 2 messages are dispatched in the order they were published. */
  lemma InPublishOrder(states: seq<System>, steps: seq<Step>, i: nat)
    requires Run(states, steps) && i <= |steps| && !states[i].skipped
    ensures Two(states[i].dispatched) <= Two(states[i].published)
  {
    RunsKeep(states, steps, i);
  }

  /** A run goes on by any step its last state allows. */
  lemma Extended(states: seq<System>, steps: seq<Step>, step: Step, t: System)
    returns (states': seq<System>, steps': seq<Step>)
    requires Run(states, steps) && Next(states[|steps|], step, t)
    ensures Run(states', steps') && |steps'| == |steps| + 1 && states'[|steps'|] == t
  {
    states', steps' := states + [t], steps + [step];
  }

  lemma OnlyEntry(id: PacketId, m: Message)
    ensures InOrder(Saved(EMPTY, PublishEntry(id, m))) == [PublishEntry(id, m).(seqNo := 1)]
  {
    var s := Saved(EMPTY, PublishEntry(id, m));
    SavedValid(EMPTY, PublishEntry(id, m));
    EntryAtIs(s, Key(id, StoredPublish));
    assert Store.Upto(s, 0) == [];
    assert Store.Upto(s, 1) == [] + EntryAt(s, 1);
  }

  /** The one stored PUBLISH is refused as too large, so the replay is empty. */
  lemma NothingResent(id: PacketId, m: Message)
    ensures Resent(InOrder(Saved(EMPTY, PublishEntry(id, m))), {id}) == []
  {
    OnlyEntry(id, m);
    var e := PublishEntry(id, m).(seqNo := 1);
    assert [e][..0] == [];
    assert Resent([e], {id}) == Resent([], {id}) + ResentOne(e, {id});
  }

  /** One message sent, the link cut, and the session resumed without it. */
  lemma ResumedWithout(m: Message, s2: System, s4: System) returns (states: seq<System>, steps: seq<Step>)
    requires m == Message(0, 2) && s2 == Sent(INIT.(up := true), 1, m, true)
    requires s4 == Down(s2).(up := true, skipped := true)
    ensures Run(states, steps) && states[|steps|] == s4
  {
    assert OutboundIds(EMPTY) == {} && InOrder(EMPTY) == [];
    NothingResent(1, m);
    assert Key(1, StoredPublish) in s2.sender.msgs;
    states, steps := Extended([INIT], [], Resume({}), INIT.(up := true));
    states, steps := Extended(states, steps, Send(1, 2, true), s2);
    states, steps := Extended(states, steps, Cut, Down(s2));
    states, steps := Extended(states, steps, Resume({1}), s4);
  }

  lemma TwoOfTwo(m: Message, n: Message)
    requires m.qos == 2 && n.qos == 2
    ensures Two([n]) == [n] && Two([m, n]) == [m, n]
  {
  }

  lemma Overtaken(m: Message, n: Message, s: System, t: System)
    requires m.qos == 2 && n == Message(1, 2)
    requires s == Down(Sent(INIT.(up := true), 1, m, true)).(up := true, skipped := true, tokens := 1)
    requires t == Sent(s, 2, n, true)
    ensures Next(s, Send(2, 2, true), t) && Next(t, ToReceiver, AtReceiver(t))
    ensures AtReceiver(t).dispatched == [n] && AtReceiver(t).published == [m, n] && AtReceiver(t).skipped
  {
  }

  /** The new connection refuses the stored PUBLISH as too large: a later message overtakes it. */
  lemma SkippedReplayOvertakes() returns (states: seq<System>, steps: seq<Step>)
    ensures Run(states, steps) && states[|steps|].skipped
    ensures !(Two(states[|steps|].dispatched) <= Two(states[|steps|].published))
  {
    var m, n := Message(0, 2), Message(1, 2);
    var s2 := Sent(INIT.(up := true), 1, m, true);
    var s4 := Down(s2).(up := true, skipped := true);
    var s5 := Sent(s4, 2, n, true);
    states, steps := ResumedWithout(m, s2, s4);
    Overtaken(m, n, s4, s5);
    hide *;
    states, steps := Extended(states, steps, Send(2, 2, true), s5);
    states, steps := Extended(states, steps, ToReceiver, AtReceiver(s5));
    TwoOfTwo(m, n);
  }
}
