/**
 Progress of the composed runs of Qos2: on a link whose replay left nothing out, every open
 exchange has a packet on its way, every delivery uses up some of a finite weight, and so when
 the channels are empty everything that was published is completed.
 */
module Qos2Progress {
  import opened IdAllocator
  import opened Store
  import opened Session
  import opened Qos2
  import Order = Qos2Order

  // ---------------------------------------------------------------- deliveries run out

  /** How many deliveries a packet can still cause, itself included. */
  function Weigh(f: Frame): nat {
    match f
    case Publish(_, msg, _) => if msg.qos == 2 then 4 else 2
    case Pubrec(_, _) => 3
    case Pubrel(_, _) => 2
    case _ => 1
  }

  function Load(l: seq<Frame>): nat {
    if l == [] then 0 else Weigh(l[0]) + Load(l[1..])
  }

  function Weight(s: System): nat {
    Load(s.toR) + Load(s.toS)
  }

  lemma {:induction false} LoadConcat(a: seq<Frame>, b: seq<Frame>)
    ensures Load(a + b) == Load(a) + Load(b)
  {
    if a == [] {
      assert a + b == b;
    } else {
      assert (a + b)[1..] == a[1..] + b;
      LoadConcat(a[1..], b);
    }
  }

  /** Whatever either side has stored, its answer to a packet weighs less than the packet. */
  lemma RepliesWeighLess(s: Contents, f: Frame)
    ensures Load(Handle(s, f).replies) < Weigh(f)
  {
    var replies := Handle(s, f).replies;
    if replies != [] {
      assert replies[1..] == [];
      assert Load(replies) == Weigh(replies[0]) + Load([]);
    }
  }

  predicate Delivery(step: Step) {
    step.ToReceiver? || step.ToSender?
  }

  lemma DeliveryShrinks(s: System, step: Step, t: System)
    requires Delivery(step) && Next(s, step, t)
    ensures Weight(t) < Weight(s)
  {
    if step.ToReceiver? {
      RepliesWeighLess(s.receiver, s.toR[0]);
      LoadConcat(s.toS, Handle(s.receiver, s.toR[0]).replies);
    } else {
      RepliesWeighLess(s.sender, s.toS[0]);
      LoadConcat(s.toR, Handle(s.sender, s.toS[0]).replies);
    }
  }

  // ---------------------------------------------------------------- open exchanges keep moving

  /** A replay that leaves out a stored PUBLISH. */
  ghost predicate Refuses(s: System, tooLarge: set<PacketId>) {
    exists id :: id in tooLarge && Stored(s.sender, id, StoredPublish)
  }

  /** Every open exchange has a packet on its way. */
  ghost predicate Moving(s: System) {
    forall id | id in s.exchange :: Transit(s, id) != []
  }

  lemma SendMoves(s: System, id: PacketId, msg: Message)
    requires Moving(s)
    ensures Moving(Sent(s, id, msg, true))
  {
    var t := Sent(s, id, msg, true);
    forall x | x in t.exchange
      ensures Transit(t, x) != []
    {
      OnlyConcat(s.toR, [Publish(id, msg, false)], x);
      OnlySingle(Publish(id, msg, false), x);
      assert x != id ==> x in s.exchange;
    }
  }

  lemma ReceiverMoves(s: System)
    requires Inv(s) && Moving(s) && s.toR != [] && s.toR[0].id != 0
    ensures Moving(AtReceiver(s))
  {
    var t, r := AtReceiver(s), Handle(s.receiver, s.toR[0]);
    ReceiverReacts(s);
    forall x | x in t.exchange
      ensures Transit(t, x) != []
    {
      Moved(s.toR, s.toS, r.replies, x);
      assert Transit(s, x) != [];
    }
  }

  lemma ZeroMoves(s: System)
    requires Inv(s) && Moving(s) && s.toR != [] && s.toR[0].id == 0
    ensures Moving(AtReceiver(s))
  {
    ZeroReacts(s);
  }

  lemma FiredMoves(s: System, msg: Message)
    requires Inv(s) && Moving(s)
    ensures Moving(Fired(s, msg, true))
  {
    forall x | x in s.exchange
      ensures Transit(Fired(s, msg, true), x) != []
    {
      OnlyConcat(s.toR, [Publish(0, msg, false)], x);
      assert Transit(s, x) != [];
    }
  }

  lemma SenderMoves(s: System)
    requires Inv(s) && Moving(s) && s.toS != []
    ensures Moving(AtSender(s))
  {
    var t, r := AtSender(s), Handle(s.sender, s.toS[0]);
    SenderReacts(s);
    forall x | x in t.exchange
      ensures Transit(t, x) != []
    {
      Moved(s.toS, s.toR, r.replies, x);
      assert Transit(s, x) != [];
    }
  }

  lemma {:induction false} Resends(l: seq<StoredMessage>, tooLarge: set<PacketId>, e: StoredMessage)
    requires e in l && ResentOne(e, tooLarge) != []
    ensures Only(Resent(l, tooLarge), e.id) != []
  {
    var l', last := l[..|l| - 1], l[|l| - 1];
    OnlyConcat(Resent(l', tooLarge), ResentOne(last, tooLarge), e.id);
    if e == last {
      OnlySingle(ResentOne(e, tooLarge)[0], e.id);
      assert ResentOne(e, tooLarge) == [ResentOne(e, tooLarge)[0]];
    } else {
      assert l == l' + [last];
      Resends(l', tooLarge, e);
    }
  }

  /** A replay that refuses nothing puts a packet of every open exchange on its way. */
  lemma ResumeMoves(s: System, tooLarge: set<PacketId>, t: System)
    requires Inv(s) && Next(s, Resume(tooLarge), t) && !Refuses(s, tooLarge)
    ensures Moving(t)
  {
    AllIsSnapshot(s.sender);
    forall id | id in t.exchange
      ensures Transit(t, id) != []
    {
      assert id in OutboundIds(s.sender);
      var k := if Stored(s.sender, id, StoredPublish) then Key(id, StoredPublish) else Key(id, StoredPubrel);
      var e := s.sender.msgs[k];
      assert e in InOrder(s.sender) && e.Slot() == k;
      Resends(InOrder(s.sender), tooLarge, e);
    }
  }

  /** Between a resume that refuses nothing and the next loss of the link. */
  ghost predicate Connection(states: seq<System>, steps: seq<Step>, i: nat, j: nat) {
    && Run(states, steps) && i < j <= |steps|
    && steps[i].Resume? && !Refuses(states[i], steps[i].tooLarge)
    && forall k | i < k <= j :: states[k].up
  }

  lemma NextMoves(s: System, step: Step, t: System)
    requires Inv(s) && Moving(s) && s.up && Next(s, step, t) && t.up
    ensures Moving(t)
  {
    hide Inv, Moving;
    match step
    case Send(id, qos, _) =>
      if qos == 0 {
        FiredMoves(s, Message(s.tokens, 0));
      } else {
        SendMoves(s, id, Message(s.tokens, qos));
      }
    case ToReceiver =>
      if s.toR[0].id == 0 {
        ZeroMoves(s);
      } else {
        ReceiverMoves(s);
      }
    case ToSender => SenderMoves(s);
  }

  lemma {:induction false} KeepsMoving(states: seq<System>, steps: seq<Step>, i: nat, j: nat)
    requires Connection(states, steps, i, j)
    ensures Moving(states[j])
    decreases j
  {
    assert Next(states[j - 1], steps[j - 1], states[j - 1 + 1]);
    Order.RunsKeep(states, steps, j - 1);
    hide Inv, Order.Order, Next, Moving;
    if j == i + 1 {
      ResumeMoves(states[i], steps[i].tooLarge, states[j]);
    } else {
      KeepsMoving(states, steps, i, j - 1);
      assert states[j - 1].up && states[j].up;
      NextMoves(states[j - 1], steps[j - 1], states[j]);
    }
  }

  // ---------------------------------------------------------------- nothing is left behind

  /** Everything published has been completed and dispatched. */
  ghost predicate Settled(s: System) {
    && (forall m | m in s.published :: m in s.completed && m in s.dispatched)
    && OutboundIds(s.sender) == {}
  }

  /**
   In every run: once a link whose replay refused nothing has delivered all its packets, every
   message published so far is completed at the sender and dispatched at the receiver.
   */
  lemma QuietLinkIsSettled(states: seq<System>, steps: seq<Step>, i: nat, j: nat)
    requires Connection(states, steps, i, j)
    requires states[j].toR == [] && states[j].toS == []
    ensures Settled(states[j])
  {
    KeepsMoving(states, steps, i, j);
    Order.RunsKeep(states, steps, j);
    var s := states[j];
    forall id: PacketId
      ensures id !in s.exchange
    {
      assert Transit(s, id) == [];
    }
  }

  /** Deliveries in a row, in any order, are at most as many as the weight of what is on the channels. */
  lemma {:induction false} DeliveriesRunOut(states: seq<System>, steps: seq<Step>, i: nat, j: nat)
    requires Run(states, steps) && i <= j <= |steps|
    requires forall k | i <= k < j :: Delivery(steps[k])
    ensures j - i + Weight(states[j]) <= Weight(states[i])
    decreases j
  {
    if i < j {
      DeliveriesRunOut(states, steps, i, j - 1);
      assert Next(states[j - 1], steps[j - 1], states[j - 1 + 1]);
      assert Delivery(steps[j - 1]);
      DeliveryShrinks(states[j - 1], steps[j - 1], states[j]);
    }
  }

  /** While a packet is on a live link, a delivery is possible. */
  lemma CanDeliver(s: System) returns (step: Step, t: System)
    requires s.up && (s.toR != [] || s.toS != [])
    ensures Delivery(step) && Next(s, step, t) && t.up
  {
    step := if s.toR != [] then ToReceiver else ToSender;
    t := if s.toR != [] then AtReceiver(s) else AtSender(s);
  }

  lemma {:induction false} DeliverAll(states: seq<System>, steps: seq<Step>, i: nat)
    returns (states': seq<System>, steps': seq<Step>)
    requires Connection(states, steps, i, |steps|)
    ensures Run(states', steps') && states <= states' && steps <= steps' && Settled(states'[|steps'|])
    ensures forall k | |steps| <= k < |steps'| :: Delivery(steps'[k])
    decreases Weight(states[|steps|])
  {
    var s := states[|steps|];
    if s.toR == [] && s.toS == [] {
      QuietLinkIsSettled(states, steps, i, |steps|);
      states', steps' := states, steps;
    } else {
      var step, t := CanDeliver(s);
      DeliveryShrinks(s, step, t);
      states', steps' := DeliverAll(states + [t], steps + [step], i);
    }
  }

  /**
   From every reachable state, one reconnect that refuses nothing and then deliveries alone settle
   everything.
   */
  lemma AlwaysCanSettle(states: seq<System>, steps: seq<Step>)
    returns (states': seq<System>, steps': seq<Step>)
    requires Run(states, steps)
    ensures Run(states', steps') && states <= states' && steps <= steps' && Settled(states'[|steps'|])
    ensures var r := if states[|steps|].up then |steps| + 1 else |steps|;
      && r < |steps'| && steps'[r] == Resume({}) && (states[|steps|].up ==> steps'[|steps|] == Cut)
      && forall k | r < k < |steps'| :: Delivery(steps'[k])
  {
    var s := states[|steps|];
    states', steps' := states, steps;
    if s.up {
      states', steps' := states + [Down(s)], steps + [Cut];
    }
    var d := states'[|steps'|];
    var t := d.(up := true, toR := Resent(InOrder(d.sender), {}), skipped := d.skipped || Skips(d, {}));
    var n := |steps'|;
    states', steps' := states' + [t], steps' + [Resume({})];
    assert Next(states'[n], steps'[n], states'[n + 1]);
    states', steps' := DeliverAll(states', steps', n);
  }
}
