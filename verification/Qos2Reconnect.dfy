/**
 What one reconnect does to the order of delivery: from any reachable state in order, order is
 kept for the life of the new connection exactly when its replay leaves out nothing unseen.
 */
module Qos2Reconnect {
  import opened IdAllocator
  import opened Store
  import opened Session
  import opened Qos2
  import opened Qos2Order

  /** The QoS 2 messages dispatched are the first ones published, in order. */
  ghost predicate Ordered(s: System) {
    Two(s.dispatched) <= Two(s.published)
  }

  // ---------------------------------------------------------------- order in the sender's store

  /** Open exchanges carry published messages, stored in the order of publication. */
  ghost predicate Chronological(s: System) {
    && (forall id | id in s.exchange :: s.exchange[id] in s.published)
    && (forall a, b | Stored(s.sender, a, StoredPublish) && Stored(s.sender, b, StoredPublish) && Earlier(s.sender, a, b) ::
          a in s.exchange && b in s.exchange && s.exchange[a].token < s.exchange[b].token)
  }

  predicate Earlier(c: Contents, a: PacketId, b: PacketId)
    requires Stored(c, a, StoredPublish) && Stored(c, b, StoredPublish)
  {
    c.msgs[Key(a, StoredPublish)].seqNo < c.msgs[Key(b, StoredPublish)].seqNo
  }

  lemma SendChronological(s: System, id: PacketId, msg: Message)
    requires Shape(s) && Chronological(s) && id !in OutboundIds(s.sender) && msg.token == s.tokens
    ensures Chronological(Sent(s, id, msg, true))
  {
    var t := Sent(s, id, msg, true);
    forall a, b | Stored(t.sender, a, StoredPublish) && Stored(t.sender, b, StoredPublish) && Earlier(t.sender, a, b)
      ensures a in t.exchange && b in t.exchange && t.exchange[a].token < t.exchange[b].token
    {
      if a != id && b != id {
        assert Earlier(s.sender, a, b);
      } else if b == id {
        assert Stored(s.sender, a, StoredPublish);
      }
    }
  }

  lemma UnsentChronological(s: System, id: PacketId, msg: Message)
    requires Shape(s) && Chronological(s) && id !in OutboundIds(s.sender)
    ensures Chronological(Sent(s, id, msg, false))
  {
    SavedThenGone(s.sender, id, msg);
    var t := Sent(s, id, msg, false);
    assert t.sender.msgs == s.sender.msgs;
    forall a, b | Stored(t.sender, a, StoredPublish) && Stored(t.sender, b, StoredPublish) && Earlier(t.sender, a, b)
      ensures a in t.exchange && b in t.exchange && t.exchange[a].token < t.exchange[b].token
    {
      assert Earlier(s.sender, a, b);
    }
  }

  lemma SavedThenGone(c: Contents, id: PacketId, msg: Message)
    requires id !in OutboundIds(c)
    ensures Deleted(Saved(c, PublishEntry(id, msg)), id, StoredPublish).msgs == c.msgs
  {
    assert Key(id, StoredPublish) !in c.msgs;
  }

  lemma SenderChronological(s: System)
    requires Inv(s) && Chronological(s) && s.toS != []
    ensures Chronological(AtSender(s))
  {
    SenderReacts(s);
    var t := AtSender(s);
    forall a, b | Stored(t.sender, a, StoredPublish) && Stored(t.sender, b, StoredPublish) && Earlier(t.sender, a, b)
      ensures a in t.exchange && b in t.exchange && t.exchange[a].token < t.exchange[b].token
    {
      assert Earlier(s.sender, a, b);
      SenderShape(s);
    }
  }

  lemma NextChronological(s: System, step: Step, t: System)
    requires Inv(s) && Chronological(s) && Next(s, step, t)
    ensures Chronological(t)
  {
    hide Chronological;
    match step
    case Send(id, qos, written) =>
      if qos == 0 {
        SameChronological(s, t);
      } else if written {
        SendChronological(s, id, Message(s.tokens, qos));
      } else {
        UnsentChronological(s, id, Message(s.tokens, qos));
      }
    case ToSender => SenderChronological(s);
    case _ => SameChronological(s, t);
  }

  lemma SameChronological(s: System, t: System)
    requires Chronological(s) && t.sender == s.sender && t.exchange == s.exchange && t.published == s.published
    ensures Chronological(t)
  {
  }

  lemma InitChronological()
    ensures Chronological(INIT)
  {
  }

  lemma RunAt(states: seq<System>, steps: seq<Step>, i: nat)
    requires Run(states, steps) && i <= |steps|
    ensures |states| == |steps| + 1 && states[0] == INIT
    ensures i > 0 ==> Next(states[i - 1], steps[i - 1], states[i])
  {
    assert i > 0 ==> Next(states[i - 1], steps[i - 1], states[i - 1 + 1]);
  }

  lemma {:induction false} RunsChronological(states: seq<System>, steps: seq<Step>, i: nat)
    requires Run(states, steps) && i <= |steps|
    ensures Chronological(states[i]) && Inv(states[i]) && Order(states[i])
  {
    hide *;
    Qos2Order.RunsKeep(states, steps, i);
    RunAt(states, steps, i);
    if i == 0 {
      InitChronological();
    } else {
      RunsChronological(states, steps, i - 1);
      NextChronological(states[i - 1], steps[i - 1], states[i]);
    }
  }

  // ---------------------------------------------------------------- in order means in step

  /** What was published is what was dispatched followed by what is pending. */
  ghost predicate InStep(s: System) {
    Two(s.published) == Two(s.dispatched) + Pending(s)
  }

  lemma {:induction false} UnseenHas(l: seq<StoredMessage>, receiver: Contents, m: Message)
    ensures m in Unseen(l, receiver) <==> exists e :: e in l && UnseenOne(e, receiver) == [m]
  {
    if l != [] {
      UnseenHas(l[..|l| - 1], receiver, m);
      assert l == l[..|l| - 1] + [l[|l| - 1]];
    }
  }

  lemma {:induction false} UnseenRises(l: seq<StoredMessage>, receiver: Contents, below: nat)
    requires forall i, j | 0 <= i < j < |l| && UnseenOne(l[i], receiver) != [] && UnseenOne(l[j], receiver) != [] ::
      UnseenOne(l[i], receiver)[0].token < UnseenOne(l[j], receiver)[0].token
    requires forall i | 0 <= i < |l| && UnseenOne(l[i], receiver) != [] :: UnseenOne(l[i], receiver)[0].token < below
    ensures Rising(Unseen(l, receiver), below)
  {
    if l != [] {
      var u := UnseenOne(l[|l| - 1], receiver);
      UnseenRises(l[..|l| - 1], receiver, if u == [] then below else u[0].token);
    }
  }

  ghost predicate Waits(s: System, id: PacketId, m: Message) {
    Stored(s.sender, id, StoredPublish) && id in s.exchange && s.exchange[id] == m && m.qos == 2 && !Recorded(s, id)
  }

  lemma UnseenEntry(s: System, e: StoredMessage)
    requires Shape(s) && e in InOrder(s.sender) && UnseenOne(e, s.receiver) != []
    ensures Waits(s, e.id, UnseenOne(e, s.receiver)[0]) && s.sender.msgs[Key(e.id, StoredPublish)] == e
  {
    AllIsSnapshot(s.sender);
  }

  lemma WaitingEntry(s: System, id: PacketId, m: Message)
    requires Shape(s) && Waits(s, id, m)
    ensures s.sender.msgs[Key(id, StoredPublish)] in InOrder(s.sender)
    ensures UnseenOne(s.sender.msgs[Key(id, StoredPublish)], s.receiver) == [m]
  {
    AllIsSnapshot(s.sender);
  }

  lemma PendingHas(s: System, m: Message)
    requires Shape(s)
    ensures m in Pending(s) <==> exists id :: Waits(s, id, m)
  {
    UnseenHas(InOrder(s.sender), s.receiver, m);
    if e :| e in InOrder(s.sender) && UnseenOne(e, s.receiver) == [m] {
      UnseenEntry(s, e);
    }
    if id :| Waits(s, id, m) {
      WaitingEntry(s, id, m);
    }
  }

  lemma PendingRises(s: System)
    requires Shape(s) && Chronological(s)
    ensures Rising(Pending(s), s.tokens)
  {
    var l := InOrder(s.sender);
    AllIsSnapshot(s.sender);
    assert Ascending(l);
    hide InOrder, IsSnapshot;
    forall i | 0 <= i < |l| && UnseenOne(l[i], s.receiver) != []
      ensures UnseenOne(l[i], s.receiver)[0].token < s.tokens
    {
      UnseenEntry(s, l[i]);
    }
    forall i, j | 0 <= i < j < |l| && UnseenOne(l[i], s.receiver) != [] && UnseenOne(l[j], s.receiver) != []
      ensures UnseenOne(l[i], s.receiver)[0].token < UnseenOne(l[j], s.receiver)[0].token
    {
      UnseenEntry(s, l[i]);
      UnseenEntry(s, l[j]);
      assert Earlier(s.sender, l[i].id, l[j].id);
    }
    UnseenRises(l, s.receiver, s.tokens);
  }

  /** A QoS 2 message is undispatched exactly when it waits in the sender's store, unrecorded. */
  lemma UndispatchedWaits(s: System, m: Message)
    requires Inv(s) && Chronological(s)
    ensures m in s.published && m.qos == 2 && m !in s.dispatched <==> exists id :: Waits(s, id, m)
  {
    if m in s.published && m.qos == 2 && m !in s.dispatched {
      var id :| id in s.exchange && s.exchange[id] == m;
      assert Standing(Look(s, id));
      assert Waits(s, id, m);
    }
    if id :| Waits(s, id, m) {
      assert Standing(Look(s, id));
    }
  }

  lemma EmptyOrNot(l: seq<Message>)
    ensures l == [] || exists m :: m in l
  {
    if l != [] {
      assert l[0] in l;
    }
  }

  lemma {:induction false} RisingSame(a: seq<Message>, b: seq<Message>, below: nat)
    requires Rising(a, below) && Rising(b, below) && forall m :: m in a <==> m in b
    ensures a == b
  {
    if a == [] {
      EmptyOrNot(b);
    } else if b == [] {
      EmptyOrNot(a);
    } else {
      var a', x := a[..|a| - 1], a[|a| - 1];
      var b', y := b[..|b| - 1], b[|b| - 1];
      assert x in b && y in a;
      assert x == y;
      forall m
        ensures m in a' <==> m in b'
      {
        assert m in a <==> m in a' || m == x;
        assert m in b <==> m in b' || m == y;
      }
      RisingSame(a', b', below);
    }
  }

  lemma {:induction false} TwoHas(l: seq<Message>, m: Message)
    ensures m in Two(l) <==> m in l && m.qos == 2
  {
    if l != [] {
      TwoHas(l[..|l| - 1], m);
      assert l == l[..|l| - 1] + [l[|l| - 1]];
    }
  }

  /** A prefix of a rising list and the rest of it. */
  lemma RestOf(p: seq<Message>, l: seq<Message>, below: nat, m: Message)
    requires Rising(l, below) && p <= l
    ensures Rising(l[|p|..], below) && (m in l[|p|..] <==> m in l && m !in p)
  {
    if m in l && m !in p {
      var i :| 0 <= i < |l| && l[i] == m;
      assert p == l[..|p|];
      assert l[|p|..][i - |p|] == m;
    }
  }

  lemma RestIsPending(s: System, m: Message)
    requires Inv(s) && Chronological(s) && Rising(s.published, s.tokens) && Ordered(s)
    ensures m in Two(s.published)[|Two(s.dispatched)|..] <==> m in Pending(s)
  {
    TwoRising(s.published, s.tokens);
    RestOf(Two(s.dispatched), Two(s.published), s.tokens, m);
    TwoHas(s.dispatched, m);
    TwoHas(s.published, m);
    UndispatchedWaits(s, m);
    PendingHas(s, m);
  }

  lemma OrderedRest(s: System)
    requires Inv(s) && Chronological(s) && Rising(s.published, s.tokens) && Ordered(s)
    ensures |Two(s.dispatched)| <= |Two(s.published)| && Two(s.published)[|Two(s.dispatched)|..] == Pending(s)
  {
    var d, p := Two(s.dispatched), Two(s.published);
    assert d <= p && Shape(s);
    hide Inv, Shape, Chronological, Ordered, Pending, Two, Rising;
    TwoRising(s.published, s.tokens);
    PendingRises(s);
    RestOf(d, p, s.tokens, Message(0, 0));
    forall m
      ensures m in p[|d|..] <==> m in Pending(s)
    {
      RestIsPending(s, m);
    }
    RisingSame(p[|d|..], Pending(s), s.tokens);
  }

  lemma OrderedIsInStep(s: System)
    requires Inv(s) && Chronological(s) && Rising(s.published, s.tokens)
    ensures Ordered(s) <==> InStep(s)
  {
    hide Inv, Chronological, Pending, Two, Rising;
    var d, p := Two(s.dispatched), Two(s.published);
    if Ordered(s) {
      OrderedRest(s);
      assert p == d + p[|d|..];
    }
  }

  // ---------------------------------------------------------------- the life of one connection

  /** A continuation of `s` that resumes with these packets refused and does not resume again. */
  ghost predicate Continues(s: System, tooLarge: set<PacketId>, states: seq<System>, steps: seq<Step>) {
    && |states| == |steps| + 1 && states[0] == s
    && steps != [] && steps[0] == Resume(tooLarge)
    && (forall i | 0 <= i < |steps| :: Next(states[i], steps[i], states[i + 1]))
    && (forall i | 1 <= i < |steps| :: !steps[i].Resume?)
  }

  /** Whatever happens on the new connection, dispatching stays in publish order. */
  ghost predicate StaysOrdered(s: System, tooLarge: set<PacketId>) {
    forall states, steps | Continues(s, tooLarge, states, steps) :: Ordered(states[|steps|])
  }

  /** The same state with the record of earlier replays wiped. */
  function Clean(s: System): System {
    s.(skipped := false)
  }

  lemma CleanNext(s: System, step: Step, t: System)
    requires Next(s, step, t) && (step.Resume? ==> !Skips(s, step.tooLarge))
    ensures Next(Clean(s), step, Clean(t))
  {
    if step.Resume? {
      CleanSkips(s, step.tooLarge);
    }
  }

  lemma CleanSkips(s: System, tooLarge: set<PacketId>)
    ensures Skips(Clean(s), tooLarge) <==> Skips(s, tooLarge)
  {
    if Skips(s, tooLarge) {
      var k :| k in s.sender.msgs && k.kind == StoredPublish && k.id in tooLarge
        && s.sender.msgs[k].publish.Some? && s.sender.msgs[k].publish.value.qos == 2 && !Recorded(s, k.id);
      assert k in Clean(s).sender.msgs && !Recorded(Clean(s), k.id);
    }
    if Skips(Clean(s), tooLarge) {
      var k :| k in s.sender.msgs && k.kind == StoredPublish && k.id in tooLarge
        && s.sender.msgs[k].publish.Some? && s.sender.msgs[k].publish.value.qos == 2 && !Recorded(Clean(s), k.id);
      assert !Recorded(s, k.id);
    }
  }

  lemma CleanInv(s: System)
    requires Inv(s)
    ensures Inv(Clean(s))
  {
    forall id: PacketId | id != 0
      ensures Standing(Look(Clean(s), id))
    {
      assert Standing(Look(s, id));
      assert Look(Clean(s), id) == Look(s, id);
    }
  }

  lemma KeptByStep(s: System, step: Step, t: System)
    requires Inv(Clean(s)) && Order(Clean(s)) && Next(s, step, t) && (step.Resume? ==> !Skips(s, step.tooLarge))
    ensures Inv(Clean(t)) && Order(Clean(t))
  {
    CleanNext(s, step, t);
    hide Inv, Order, Next;
    NextKeeps(Clean(s), step, Clean(t));
    NextOrder(Clean(s), step, Clean(t));
  }

  lemma ContinuesAt(s: System, tooLarge: set<PacketId>, states: seq<System>, steps: seq<Step>, i: nat)
    requires Continues(s, tooLarge, states, steps) && i < |steps| && !Skips(s, tooLarge)
    ensures |states| == |steps| + 1 && Next(states[i], steps[i], states[i + 1])
    ensures steps[i].Resume? ==> !Skips(states[i], steps[i].tooLarge)
  {
  }

  lemma {:induction false} KeptAlong(s: System, tooLarge: set<PacketId>, states: seq<System>, steps: seq<Step>, i: nat)
    requires Continues(s, tooLarge, states, steps) && i <= |steps| && !Skips(s, tooLarge)
    requires Inv(Clean(s)) && Order(Clean(s))
    ensures Inv(Clean(states[i])) && Order(Clean(states[i]))
  {
    hide Inv, Order, Next, Skips;
    if i > 0 {
      KeptAlong(s, tooLarge, states, steps, i - 1);
      ContinuesAt(s, tooLarge, states, steps, i - 1);
      KeptByStep(states[i - 1], steps[i - 1], states[i]);
    }
  }

  lemma OrderKept(s: System, tooLarge: set<PacketId>)
    requires Inv(s) && Chronological(s) && Rising(s.published, s.tokens) && !s.up && Ordered(s)
    requires !Skips(s, tooLarge)
    ensures StaysOrdered(s, tooLarge)
  {
    OrderedIsInStep(s);
    CleanInv(s);
    assert Pending(Clean(s)) == Pending(s);
    assert Order(Clean(s));
    forall states, steps | Continues(s, tooLarge, states, steps)
      ensures Ordered(states[|steps|])
    {
      KeptAlong(s, tooLarge, states, steps, |steps|);
    }
  }

  // ---------------------------------------------------------------- overtaking what was left out

  /** An exchange left out of the replay: nothing of it is on the link and its message is undispatched. */
  ghost predicate LeftOut(s: System, id: PacketId, m: Message) {
    id in s.exchange && s.exchange[id] == m && Transit(s, id) == [] && m !in s.dispatched
  }

  /** A message at the end of the channel to the receiver, or delivered already. */
  ghost predicate Coming(s: System, id: PacketId, m: Message) {
    && m.qos == 2 && id in s.exchange && s.exchange[id] == m
    && ((s.toR != [] && s.toR[|s.toR| - 1] == Publish(id, m, false)) || m in s.dispatched)
  }

  lemma DeliveryLeavesOut(s: System, id: PacketId, m: Message)
    requires Inv(s) && s.toR != [] && LeftOut(s, id, m)
    ensures LeftOut(AtReceiver(s), id, m)
  {
    var f := s.toR[0];
    if f.id == 0 {
      ZeroReacts(s);
    } else {
      ReceiverReacts(s);
      assert f.id != id;
      Moved(s.toR, s.toS, Handle(s.receiver, f).replies, id);
    }
  }

  lemma DeliveryComes(s: System, id: PacketId, m: Message)
    requires Inv(s) && s.toR != [] && Coming(s, id, m)
    ensures Coming(AtReceiver(s), id, m)
  {
    if m !in s.dispatched && |s.toR| == 1 {
      ReceiverReacts(s);
      assert Standing(Look(s, id));
    }
  }

  lemma ContinuesOn(s: System, tooLarge: set<PacketId>, states: seq<System>, steps: seq<Step>, step: Step, t: System)
    requires Continues(s, tooLarge, states, steps) && Next(states[|steps|], step, t) && !step.Resume?
    ensures Continues(s, tooLarge, states + [t], steps + [step])
  {
  }

  lemma DeliverOne(s: System, tooLarge: set<PacketId>, states: seq<System>, steps: seq<Step>,
    past: PacketId, m: Message, late: PacketId, n: Message) returns (t: System)
    requires Continues(s, tooLarge, states, steps)
    requires var u := states[|steps|];
      Inv(u) && u.up && LeftOut(u, past, m) && Coming(u, late, n) && n !in u.dispatched
    ensures Continues(s, tooLarge, states + [t], steps + [ToReceiver])
    ensures Inv(t) && t.up && LeftOut(t, past, m) && Coming(t, late, n)
    ensures t.published == states[|steps|].published && |t.toR| < |states[|steps|].toR|
  {
    var u := states[|steps|];
    t := AtReceiver(u);
    NextKeeps(u, ToReceiver, t);
    DeliveryLeavesOut(u, past, m);
    DeliveryComes(u, late, n);
    hide Inv, LeftOut;
    ContinuesOn(s, tooLarge, states, steps, ToReceiver, t);
  }

  lemma {:induction false} DeliverBehind(s: System, tooLarge: set<PacketId>, states: seq<System>, steps: seq<Step>,
    past: PacketId, m: Message, late: PacketId, n: Message) returns (states': seq<System>, steps': seq<Step>)
    requires Continues(s, tooLarge, states, steps)
    requires var u := states[|steps|]; Inv(u) && u.up && LeftOut(u, past, m) && Coming(u, late, n)
    ensures Continues(s, tooLarge, states', steps') && steps <= steps' && |states'| == |steps'| + 1
    ensures forall i | |steps| <= i < |steps'| :: steps'[i].ToReceiver?
    ensures var v := states'[|steps'|]; v.published == states[|steps|].published && m !in v.dispatched && n in v.dispatched
    decreases |states[|steps|].toR|
  {
    var u := states[|steps|];
    assert |states| == |steps| + 1 && m !in u.dispatched;
    hide Inv, Continues, LeftOut, Coming;
    if n in u.dispatched {
      states', steps' := states, steps;
    } else {
      var t := DeliverOne(s, tooLarge, states, steps, past, m, late, n);
      states', steps' := DeliverBehind(s, tooLarge, states + [t], steps + [ToReceiver], past, m, late, n);
    }
  }

  lemma NotInOrder(s: System, published: seq<Message>, m: Message, n: Message)
    requires s.published == published + [n] && m.qos == 2 && n.qos == 2 && m in published && n !in published
    requires m !in s.dispatched && n in s.dispatched
    ensures !Ordered(s)
  {
    TwoSnoc(published, n);
    TwoHas(published, m);
    TwoHas(published, n);
    TwoHas(s.dispatched, m);
    TwoHas(s.dispatched, n);
    if Ordered(s) {
      WholePrefix(Two(s.dispatched), Two(published), n);
    }
  }

  lemma WholePrefix(d: seq<Message>, p: seq<Message>, n: Message)
    requires d <= p + [n] && n in d && n !in p
    ensures d == p + [n]
  {
    var i :| 0 <= i < |d| && d[i] == n;
    assert (p + [n])[i] == n;
  }

  lemma {:induction false} NotResent(l: seq<StoredMessage>, tooLarge: set<PacketId>, id: PacketId)
    requires forall e | e in l && e.id == id :: ResentOne(e, tooLarge) == []
    ensures Only(Resent(l, tooLarge), id) == []
  {
    if l != [] {
      var l', e := l[..|l| - 1], l[|l| - 1];
      NotResent(l', tooLarge, id);
      OnlyConcat(Resent(l', tooLarge), ResentOne(e, tooLarge), id);
      assert e in l;
      if ResentOne(e, tooLarge) != [] {
        OnlySingle(ResentOne(e, tooLarge)[0], id);
        assert ResentOne(e, tooLarge) == [ResentOne(e, tooLarge)[0]];
      }
    }
  }

  /** The replay leaves out the exchange that is refused. */
  lemma SkippedIsLeftOut(s: System, tooLarge: set<PacketId>, t: System) returns (id: PacketId, m: Message)
    requires Inv(s) && Chronological(s) && Next(s, Resume(tooLarge), t) && Skips(s, tooLarge)
    ensures LeftOut(t, id, m) && m.qos == 2 && m in s.published
  {
    var k :| k in s.sender.msgs && k.kind == StoredPublish && k.id in tooLarge
      && s.sender.msgs[k].publish.Some? && s.sender.msgs[k].publish.value.qos == 2 && !Recorded(s, k.id);
    id := k.id;
    assert Stored(s.sender, id, StoredPublish);
    m := s.exchange[id];
    assert Standing(Look(s, id));
    TooLargeNotResent(s.sender, tooLarge, id);
  }

  lemma TooLargeNotResent(s: Contents, tooLarge: set<PacketId>, id: PacketId)
    requires Sound(s) && Stored(s, id, StoredPublish) && id in tooLarge
    ensures Only(Resent(InOrder(s), tooLarge), id) == []
  {
    AllIsSnapshot(s);
    forall e | e in InOrder(s) && e.id == id
      ensures ResentOne(e, tooLarge) == []
    {
      assert e.Slot() in s.msgs;
    }
    NotResent(InOrder(s), tooLarge, id);
  }

  lemma SendBehind(s: System, id: PacketId, past: PacketId, m: Message)
    requires Inv(s) && s.up && id != 0 && id !in OutboundIds(s.sender) && LeftOut(s, past, m)
    ensures var n := Message(s.tokens, 2); var t := Sent(s, id, n, true);
      Next(s, Send(id, 2, true), t) && LeftOut(t, past, m) && Coming(t, id, n)
  {
    var n := Message(s.tokens, 2);
    OnlyConcat(s.toR, [Publish(id, n, false)], past);
    OnlySingle(Publish(id, n, false), past);
    assert past != id;
  }

  lemma TwoSteps(s: System, tooLarge: set<PacketId>, t: System, step: Step, u: System)
    requires Next(s, Resume(tooLarge), t) && Next(t, step, u) && !step.Resume?
    ensures Continues(s, tooLarge, [s, t, u], [Resume(tooLarge), step])
  {
  }

  /** The first two steps of the continuation: the replay, and a new message behind it. */
  lemma ResumedAndSent(s: System, tooLarge: set<PacketId>, free: PacketId)
    returns (t: System, u: System, past: PacketId, m: Message)
    requires Inv(s) && Chronological(s) && !s.up && Skips(s, tooLarge)
    requires free != 0 && free !in OutboundIds(s.sender)
    ensures Next(s, Resume(tooLarge), t) && Next(t, Send(free, 2, true), u)
    ensures Inv(u) && u.up && LeftOut(u, past, m) && Coming(u, free, Message(s.tokens, 2))
    ensures u.published == s.published + [Message(s.tokens, 2)] && m.qos == 2 && m in s.published
  {
    t := s.(up := true, toR := Resent(InOrder(s.sender), tooLarge), skipped := true);
    past, m := SkippedIsLeftOut(s, tooLarge, t);
    NextKeeps(s, Resume(tooLarge), t);
    u := Sent(t, free, Message(s.tokens, 2), true);
    hide Inv, LeftOut, Coming, Chronological;
    SendBehind(t, free, past, m);
    NextKeeps(t, Send(free, 2, true), u);
  }

  /**
   A replay that leaves out an unseen message lets a new one overtake it: one more publish and
   deliveries on the same connection put dispatching out of order.
   */
  lemma OrderLost(s: System, tooLarge: set<PacketId>, free: PacketId) returns (states: seq<System>, steps: seq<Step>)
    requires Inv(s) && Chronological(s) && Rising(s.published, s.tokens) && !s.up && Skips(s, tooLarge)
    requires free != 0 && free !in OutboundIds(s.sender)
    ensures Continues(s, tooLarge, states, steps) && !Ordered(states[|steps|])
    ensures |steps| >= 2 && steps[1] == Send(free, 2, true) && forall i | 2 <= i < |steps| :: steps[i].ToReceiver?
  {
    var t, u, past, m := ResumedAndSent(s, tooLarge, free);
    states, steps := [s, t, u], [Resume(tooLarge), Send(free, 2, true)];
    TwoSteps(s, tooLarge, t, steps[1], u);
    hide Inv, Chronological, LeftOut, Coming, Skips, Ordered, Continues;
    states, steps := DeliverBehind(s, tooLarge, states, steps, past, m, free, Message(s.tokens, 2));
    NotInOrder(states[|steps|], s.published, m, Message(s.tokens, 2));
  }

  /**
   From every reachable state that is in order, with an identifier to spare: order is kept for the
   whole life of the next connection if and only if its replay leaves out no QoS 2 PUBLISH that
   the receiver has not recorded.
   */
  lemma OrderPerReconnect(states: seq<System>, steps: seq<Step>, tooLarge: set<PacketId>, free: PacketId)
    requires Run(states, steps)
    requires var s := states[|steps|]; !s.up && Ordered(s) && free != 0 && free !in OutboundIds(s.sender)
    ensures StaysOrdered(states[|steps|], tooLarge) <==> !Skips(states[|steps|], tooLarge)
  {
    var s := states[|steps|];
    RunsChronological(states, steps, |steps|);
    if Skips(s, tooLarge) {
      var states', steps' := OrderLost(s, tooLarge, free);
      assert Continues(s, tooLarge, states', steps');
    } else {
      OrderKept(s, tooLarge);
    }
  }
}
