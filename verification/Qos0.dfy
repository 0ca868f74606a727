/**
 Messages below QoS 2 in the composed runs of Qos2: each packet taken off the link is dispatched
 there and then; a QoS 0 message leaves no trace besides, and only a cut can lose it.
 */
module Qos0 {
  import opened Wrappers
  import opened IdAllocator
  import opened Store
  import opened Session
  import opened Qos2
  import Order = Qos2Order

  function Below2(l: seq<Message>): seq<Message> {
    if l == [] then [] else Below2(l[..|l| - 1]) + (if l[|l| - 1].qos < 2 then [l[|l| - 1]] else [])
  }

  function Zero(l: seq<Message>): seq<Message> {
    if l == [] then [] else Zero(l[..|l| - 1]) + (if l[|l| - 1].qos == 0 then [l[|l| - 1]] else [])
  }

  function ZeroOf(f: Frame): seq<Message> {
    if f.Publish? && f.msg.qos == 0 then [f.msg] else []
  }

  /** The QoS 0 messages on a channel. */
  function ZeroSent(l: seq<Frame>): seq<Message> {
    if l == [] then [] else ZeroOf(l[0]) + ZeroSent(l[1..])
  }

  /** Dispatched as taken off the link; QoS 0 messages taken and still on the link in the order sent. */
  ghost predicate AsTaken(s: System) {
    && Below2(s.dispatched) == s.taken
    && Order.Rising(Zero(s.taken) + ZeroSent(s.toR), s.tokens)
  }

  // ---------------------------------------------------------------- lists

  lemma Below2Snoc(l: seq<Message>, m: Message)
    ensures Below2(l + [m]) == Below2(l) + (if m.qos < 2 then [m] else [])
  {
    assert (l + [m])[..|l|] == l;
  }

  lemma ZeroSnoc(l: seq<Message>, m: Message)
    ensures Zero(l + [m]) == Zero(l) + (if m.qos == 0 then [m] else [])
  {
    assert (l + [m])[..|l|] == l;
  }

  lemma {:induction false} ZeroOfBelow2(l: seq<Message>)
    ensures Zero(Below2(l)) == Zero(l)
  {
    if l != [] {
      var l', m := l[..|l| - 1], l[|l| - 1];
      ZeroOfBelow2(l');
      if m.qos < 2 {
        ZeroSnoc(Below2(l'), m);
      } else {
        assert Below2(l') + [] == Below2(l');
      }
    }
  }

  lemma {:induction false} ZeroSentConcat(a: seq<Frame>, b: seq<Frame>)
    ensures ZeroSent(a + b) == ZeroSent(a) + ZeroSent(b)
  {
    if a == [] {
      assert a + b == b;
    } else {
      assert (a + b)[1..] == a[1..] + b;
      ZeroSentConcat(a[1..], b);
    }
  }

  lemma {:induction false} NoneSent(l: seq<Frame>)
    requires forall f | f in l :: ZeroOf(f) == []
    ensures ZeroSent(l) == []
  {
    if l != [] {
      assert l[0] in l;
      NoneSent(l[1..]);
    }
  }

  lemma RisingPrefix(a: seq<Message>, b: seq<Message>, below: nat)
    requires Order.Rising(a + b, below)
    ensures Order.Rising(a, below)
  {
    forall i, j | 0 <= i < j < |a|
      ensures a[i].token < a[j].token
    {
      assert (a + b)[i] == a[i] && (a + b)[j] == a[j];
    }
  }

  // ---------------------------------------------------------------- steps

  /** Whatever the store, a packet below QoS 2 adds its message to what is dispatched below QoS 2, and no other does. */
  lemma DispatchesUnguarded(c: Contents, f: Frame, l: seq<Message>)
    ensures Below2(l + Handle(c, f).dispatched) == Below2(l) + Unguarded(f)
  {
    var d := Handle(c, f).dispatched;
    if d == [] {
      assert l + d == l && Unguarded(f) == [];
    } else {
      assert d == [f.msg];
      Below2Snoc(l, f.msg);
    }
  }

  lemma ZeroUnguarded(f: Frame, l: seq<Message>)
    ensures Zero(l + Unguarded(f)) == Zero(l) + ZeroOf(f)
  {
    if Unguarded(f) == [] {
      assert l + Unguarded(f) == l;
    } else {
      ZeroSnoc(l, f.msg);
    }
  }

  lemma TakenAtReceiver(s: System)
    requires AsTaken(s) && s.toR != []
    ensures AsTaken(AtReceiver(s))
  {
    var f, t := s.toR[0], AtReceiver(s);
    DispatchesUnguarded(s.receiver, f, s.dispatched);
    ZeroUnguarded(f, s.taken);
    Assoc(Zero(s.taken), ZeroOf(f), ZeroSent(t.toR));
    assert Zero(t.taken) + ZeroSent(t.toR) == Zero(s.taken) + ZeroSent(s.toR);
    hide Handle, Below2, Zero, ZeroSent, Unguarded, ZeroOf, Order.Rising;
  }

  lemma NoneReplied(c: Contents, f: Frame)
    ensures ZeroSent(Handle(c, f).replies) == []
  {
    var replies := Handle(c, f).replies;
    assert replies != [] ==> replies == [replies[0]] && !replies[0].Publish?;
    NoneSent(replies);
  }

  lemma TakenAtSender(s: System)
    requires AsTaken(s) && s.toS != []
    ensures AsTaken(AtSender(s))
  {
    var replies := Handle(s.sender, s.toS[0]).replies;
    NoneReplied(s.sender, s.toS[0]);
    ZeroSentConcat(s.toR, replies);
    assert ZeroSent(s.toR) + [] == ZeroSent(s.toR);
    hide Handle, ZeroSent, Zero, Below2, Order.Rising;
  }

  lemma RisingSent(l: seq<Message>, f: Frame)
    requires f.Publish? && Order.Rising(l, f.msg.token)
    ensures Order.Rising(l + ZeroOf(f), f.msg.token + 1)
  {
    if f.msg.qos == 0 {
      Order.RisingSnoc(l, f.msg);
    } else {
      assert l + ZeroOf(f) == l;
    }
  }

  lemma TakenSent(s: System, f: Frame, t: System)
    requires AsTaken(s) && f.Publish? && f.msg.token == s.tokens
    requires t.dispatched == s.dispatched && t.taken == s.taken && t.tokens == s.tokens + 1 && t.toR == s.toR + [f]
    ensures AsTaken(t)
  {
    ZeroSentConcat(s.toR, [f]);
    assert [f][1..] == [];
    assert ZeroSent([f]) == ZeroOf(f);
    Assoc(Zero(s.taken), ZeroSent(s.toR), ZeroOf(f));
    RisingSent(Zero(s.taken) + ZeroSent(s.toR), f);
  }

  lemma TakenDown(s: System, t: System)
    requires AsTaken(s) && t.dispatched == s.dispatched && t.taken == s.taken && t.tokens >= s.tokens
    requires ZeroSent(t.toR) == []
    ensures AsTaken(t)
  {
    RisingPrefix(Zero(s.taken), ZeroSent(s.toR), s.tokens);
    assert Zero(s.taken) + [] == Zero(s.taken);
  }

  lemma {:induction false} ReplayHasNone(l: seq<StoredMessage>, tooLarge: set<PacketId>)
    requires forall e | e in l && e.kind == StoredPublish && e.publish.Some? :: e.publish.value.qos != 0
    ensures ZeroSent(Resent(l, tooLarge)) == []
  {
    if l != [] {
      var l', e := l[..|l| - 1], l[|l| - 1];
      assert e in l;
      ReplayHasNone(l', tooLarge);
      ZeroSentConcat(Resent(l', tooLarge), ResentOne(e, tooLarge));
      NoneSent(ResentOne(e, tooLarge));
    }
  }

  /** Nothing of QoS 0 is ever stored, so no replay holds any. */
  lemma TakenResumed(s: System, tooLarge: set<PacketId>, t: System)
    requires Inv(s) && AsTaken(s) && Next(s, Resume(tooLarge), t)
    ensures AsTaken(t)
  {
    AllIsSnapshot(s.sender);
    forall e | e in InOrder(s.sender) && e.kind == StoredPublish && e.publish.Some?
      ensures e.publish.value.qos != 0
    {
      assert e.Slot() in s.sender.msgs && Stored(s.sender, e.id, StoredPublish);
    }
    ReplayHasNone(InOrder(s.sender), tooLarge);
    TakenDown(s, t);
  }

  lemma NextTaken(s: System, step: Step, t: System)
    requires Inv(s) && AsTaken(s) && Next(s, step, t)
    ensures AsTaken(t)
  {
    hide AsTaken, Inv;
    match step
    case Send(id, qos, written) =>
      if written {
        TakenSent(s, Publish(id, Message(s.tokens, qos), false), t);
      } else {
        TakenDown(s, t);
      }
    case ToReceiver => TakenAtReceiver(s);
    case ToSender => TakenAtSender(s);
    case Cut => TakenDown(s, t);
    case Resume(tooLarge) => TakenResumed(s, tooLarge, t);
  }

  lemma {:induction false} RunsTaken(states: seq<System>, steps: seq<Step>, i: nat)
    requires Run(states, steps) && i <= |steps|
    ensures Inv(states[i]) && AsTaken(states[i])
  {
    Order.RunsKeep(states, steps, i);
    if i > 0 {
      RunsTaken(states, steps, i - 1);
      assert Next(states[i - 1], steps[i - 1], states[i - 1 + 1]);
      NextTaken(states[i - 1], steps[i - 1], states[i]);
    }
  }

  // ---------------------------------------------------------------- what every run promises

  /**
   In every run the messages below QoS 2 that were dispatched are those taken off the link, one
   for one and in that order; and each QoS 0 message is dispatched at most once, in the order sent.
   */
  lemma DispatchedAsTaken(states: seq<System>, steps: seq<Step>, i: nat)
    requires Run(states, steps) && i <= |steps|
    ensures Below2(states[i].dispatched) == states[i].taken
    ensures Order.Rising(Zero(states[i].dispatched), states[i].tokens)
  {
    RunsTaken(states, steps, i);
    var s := states[i];
    ZeroOfBelow2(s.dispatched);
    RisingPrefix(Zero(s.taken), ZeroSent(s.toR), s.tokens);
  }

  /** A QoS 0 packet taken off the link is dispatched, answered by nothing and leaves both stores as they were. */
  lemma ZeroLeavesNoTrace(states: seq<System>, steps: seq<Step>, i: nat)
    requires Run(states, steps) && i < |steps| && steps[i] == ToReceiver
    requires states[i].toR != [] && states[i].toR[0].Publish? && states[i].toR[0].msg.qos == 0
    ensures var s, t := states[i], states[i + 1];
      && t.dispatched == s.dispatched + [s.toR[0].msg]
      && t.toS == s.toS && t.sender == s.sender && t.receiver == s.receiver
  {
    assert Next(states[i], steps[i], states[i + 1]);
    assert states[i].toS + [] == states[i].toS;
  }

  /** On the channel to the receiver, or dispatched. */
  predicate Reached(s: System, m: Message) {
    Publish(0, m, false) in s.toR || m in s.dispatched
  }

  lemma NextReaches(s: System, step: Step, t: System, m: Message)
    requires Inv(s) && s.up && t.up && Next(s, step, t) && Reached(s, m)
    ensures Reached(t, m)
  {
    if step.ToReceiver? && m !in s.dispatched {
      var f := Publish(0, m, false);
      assert s.toR == [s.toR[0]] + s.toR[1..];
      if s.toR[0] == f {
        ZeroReacts(s);
      } else {
        assert f in s.toR[1..];
      }
    }
  }

  lemma RunReaches(states: seq<System>, steps: seq<Step>, i: nat, m: Message)
    requires Run(states, steps) && i < |steps| && Reached(states[i], m) && states[i].up && states[i + 1].up
    ensures Reached(states[i + 1], m)
  {
    assert Next(states[i], steps[i], states[i + 1]);
    Order.RunsKeep(states, steps, i);
    NextReaches(states[i], steps[i], states[i + 1], m);
  }

  lemma {:induction false} KeepsReaching(states: seq<System>, steps: seq<Step>, i: nat, j: nat, m: Message)
    requires Run(states, steps) && i <= j <= |steps| && Reached(states[i], m)
    requires forall k | i <= k <= j :: states[k].up
    ensures Reached(states[j], m)
    decreases j
  {
    assert |states| == |steps| + 1;
    hide *;
    if i < j {
      KeepsReaching(states, steps, i, j - 1, m);
      RunReaches(states, steps, j - 1, m);
    }
  }

  /** A QoS 0 message that was written is dispatched once the channel has drained, unless the link went down first. */
  lemma OnlyCutsLose(states: seq<System>, steps: seq<Step>, i: nat, j: nat)
    requires Run(states, steps) && i < j <= |steps| && steps[i] == Send(0, 0, true)
    requires (forall k | i < k <= j :: states[k].up) && states[j].toR == []
    ensures Message(states[i].tokens, 0) in states[j].dispatched
  {
    var m := Message(states[i].tokens, 0);
    assert Next(states[i], steps[i], states[i + 1]);
    assert Reached(states[i + 1], m) by {
      assert states[i + 1].toR[|states[i].toR|] == Publish(0, m, false);
    }
    KeepsReaching(states, steps, i + 1, j, m);
  }
}
