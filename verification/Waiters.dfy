/**
 The acknowledgement waiters: a table from packet identifier to a one-slot result channel and
 the acknowledgement class that may fill it.
 */
module Waiters {
  import opened Wrappers
  import opened IdAllocator

  datatype Class = PublishAck | Suback | Unsuback

  /** A reason code delivered by an acknowledgement, or the loss of the connection. */
  datatype AckResult = Ack(code: nat) | ConnectionLost

  datatype Waiter = Waiter(ch: nat, want: Class)

  /** `slots[ch]` is the buffered result of channel `ch`; channels are numbered as they are made. */
  datatype Table = Table(waiters: map<PacketId, Waiter>, slots: seq<Option<AckResult>>)

  const NO_WAITERS := Table(map[], [])

  function Registered(t: Table, id: PacketId, want: Class): Table {
    Table(t.waiters[id := Waiter(|t.slots|, want)], t.slots + [None])
  }

  function Removed(t: Table, id: PacketId, ch: nat): Table {
    if id in t.waiters && t.waiters[id].ch == ch then t.(waiters := t.waiters - {id}) else t
  }

  /** A non-blocking send on a channel of capacity one. */
  function Sent(slots: seq<Option<AckResult>>, ch: nat, r: AckResult): seq<Option<AckResult>> {
    if ch < |slots| && slots[ch].None? then slots[ch := Some(r)] else slots
  }

  predicate Hits(t: Table, id: PacketId, got: Class) {
    id in t.waiters && t.waiters[id].want == got
  }

  function Signalled(t: Table, id: PacketId, got: Class, r: AckResult): Table {
    if Hits(t, id, got) then Table(t.waiters - {id}, Sent(t.slots, t.waiters[id].ch, r)) else t
  }

  ghost predicate Waiting(t: Table, ch: nat) {
    exists id :: id in t.waiters && t.waiters[id].ch == ch
  }

  /** Every registered channel is sent the loss, and the table is emptied. */
  ghost function AllFailed(t: Table): Table {
    Table(map[], seq(|t.slots|, i requires 0 <= i < |t.slots| =>
      if t.slots[i].None? && Waiting(t, i) then Some(ConnectionLost) else t.slots[i]))
  }

  /** Failing one waiter now or with the rest comes to the same. */
  lemma FailOne(t: Table, id: PacketId)
    requires id in t.waiters
    ensures AllFailed(Table(t.waiters - {id}, Sent(t.slots, t.waiters[id].ch, ConnectionLost))) == AllFailed(t)
  {
    var t' := Table(t.waiters - {id}, Sent(t.slots, t.waiters[id].ch, ConnectionLost));
    forall i: nat | i != t.waiters[id].ch
      ensures Waiting(t', i) <==> Waiting(t, i)
    {
      if Waiting(t, i) {
        var j :| j in t.waiters && t.waiters[j].ch == i;
        assert j in t'.waiters;
      }
    }
    assert AllFailed(t').slots == AllFailed(t).slots;
  }

  /** The waiting goroutine takes its result out of the channel. */
  function Received(t: Table, ch: nat): Table
    requires ch < |t.slots|
  {
    t.(slots := t.slots[ch := None])
  }

  class WaiterTable {
    var waiters: map<PacketId, Waiter>
    var slots: seq<Option<AckResult>>

    ghost function View(): Table
      reads this
    {
      Table(waiters, slots)
    }

    constructor ()
      ensures View() == NO_WAITERS
    {
      waiters := map[];
      slots := [];
    }

    method Register(id: PacketId, want: Class) returns (ch: nat)
      modifies this
      ensures View() == Registered(old(View()), id, want) && ch == |old(slots)|
    {
      ch := |slots|;
      slots := slots + [None];
      waiters := waiters[id := Waiter(ch, want)];
    }

    method Remove(id: PacketId, ch: nat)
      modifies this`waiters
      ensures View() == Removed(old(View()), id, ch)
    {
      if id in waiters && waiters[id].ch == ch {
        waiters := waiters - {id};
      }
    }

    method Send(ch: nat, r: AckResult)
      modifies this`slots
      ensures slots == Sent(old(slots), ch, r)
    {
      if ch < |slots| && slots[ch].None? {
        slots := slots[ch := Some(r)];
      }
    }

    /** Delivers `r` to the waiter of `id` when it expects this class; false when there is none. */
    method Signal(id: PacketId, got: Class, r: AckResult) returns (known: bool)
      modifies this
      ensures View() == Signalled(old(View()), id, got, r) && known == (id in old(waiters))
    {
      if id !in waiters {
        return false;
      }
      var w := waiters[id];
      if w.want == got {
        waiters := waiters - {id};
        Send(w.ch, r);
      }
      known := true;
    }

    method FailAll()
      modifies this
      ensures View() == AllFailed(old(View()))
    {
      while waiters != map[]
        invariant AllFailed(View()) == AllFailed(old(View()))
        decreases |waiters|
      {
        var id :| id in waiters;
        FailOne(View(), id);
        Send(waiters[id].ch, ConnectionLost);
        waiters := waiters - {id};
      }
      assert View().slots == AllFailed(View()).slots;
    }
  }

  // ---------------------------------------------------------------- every interleaving

  datatype Cause = ByAck(got: Class, code: nat) | ByDrop

  /** One result put into a channel. */
  datatype Delivery = Delivery(ch: nat, cause: Cause)

  /** The table, the class and identifier each channel was made for, and every delivery so far. */
  datatype System = System(t: Table, wants: seq<Class>, ids: seq<PacketId>, log: seq<Delivery>)

  datatype Step =
    | Register(id: PacketId, want: Class)
    | Remove(id: PacketId, ch: nat)
    | Signal(id: PacketId, got: Class, code: nat)
    | Drop
    | Receive(ch: nat)

  /** The deliveries a step makes: a send that finds the slot taken delivers nothing. */
  ghost predicate Delivers(s: System, step: Step, ds: seq<Delivery>) {
    match step
    case Signal(id, got, code) =>
      ds == if Hits(s.t, id, got) && s.t.waiters[id].ch < |s.t.slots| && s.t.slots[s.t.waiters[id].ch].None?
            then [Delivery(s.t.waiters[id].ch, ByAck(got, code))]
            else []
    case Drop =>
      && (forall i, j | 0 <= i < j < |ds| :: ds[i].ch != ds[j].ch)
      && (forall i | 0 <= i < |ds| :: ds[i].cause == ByDrop && Waiting(s.t, ds[i].ch))
      && (forall ch: nat | ch < |s.t.slots| && Waiting(s.t, ch) && s.t.slots[ch].None? :: Delivery(ch, ByDrop) in ds)
    case _ => ds == []
  }

  ghost function TableAfter(t: Table, step: Step): Table {
    match step
    case Register(id, want) => Registered(t, id, want)
    case Remove(id, ch) => Removed(t, id, ch)
    case Signal(id, got, code) => Signalled(t, id, got, Ack(code))
    case Drop => AllFailed(t)
    case Receive(ch) => if ch < |t.slots| then Received(t, ch) else t
  }

  ghost predicate Next(s: System, step: Step, s': System) {
    && s'.t == TableAfter(s.t, step)
    && s'.wants == (if step.Register? then s.wants + [step.want] else s.wants)
    && s'.ids == (if step.Register? then s.ids + [step.id] else s.ids)
    && s.log <= s'.log
    && Delivers(s, step, s'.log[|s.log|..])
  }

  ghost predicate Run(states: seq<System>, steps: seq<Step>) {
    && |states| == |steps| + 1
    && states[0] == System(NO_WAITERS, [], [], [])
    && forall i | 0 <= i < |steps| :: Next(states[i], steps[i], states[i + 1])
  }

  ghost predicate TableSound(s: System) {
    && |s.wants| == |s.ids| == |s.t.slots|
    && (forall id | id in s.t.waiters ::
          var w := s.t.waiters[id];
          w.ch < |s.t.slots| && w.want == s.wants[w.ch] && id == s.ids[w.ch] && s.t.slots[w.ch].None?)
  }

  ghost predicate LogSound(s: System) {
    && (forall i | 0 <= i < |s.log| :: s.log[i].ch < |s.wants| && !Waiting(s.t, s.log[i].ch))
    && (forall i, j | 0 <= i < j < |s.log| :: s.log[i].ch != s.log[j].ch)
    && (forall i | 0 <= i < |s.log| :: s.log[i].cause.ByDrop? || s.log[i].cause.got == s.wants[s.log[i].ch])
  }

  lemma NextKeepsTable(s: System, step: Step, s': System)
    requires TableSound(s) && Next(s, step, s')
    ensures TableSound(s')
  {
  }

  lemma NextKeepsLog(s: System, step: Step, s': System)
    requires TableSound(s) && LogSound(s) && Next(s, step, s')
    ensures LogSound(s')
  {
    var ds := s'.log[|s.log|..];
    assert s'.log == s.log + ds;
    if step.Register? {
      assert forall ch | Waiting(s'.t, ch) :: Waiting(s.t, ch) || ch == |s.t.slots|;
    } else {
      assert forall ch | Waiting(s'.t, ch) :: Waiting(s.t, ch);
    }
  }

  /**
   In every run a channel is sent at most one result, and that result comes from an
   acknowledgement of the class its waiter asked for, or from a drop.
   */
  lemma {:induction false} AtMostOneResult(states: seq<System>, steps: seq<Step>)
    requires Run(states, steps)
    ensures TableSound(states[|steps|]) && LogSound(states[|steps|])
    decreases |steps|
  {
    if steps != [] {
      var n := |steps| - 1;
      AtMostOneResult(states[..|steps|], steps[..n]);
      assert Next(states[n], steps[n], states[n + 1]);
      NextKeepsTable(states[n], steps[n], states[n + 1]);
      NextKeepsLog(states[n], steps[n], states[n + 1]);
    }
  }

  /** The steps that can take the waiter `w` of `id` out of the table. */
  predicate Ends(step: Step, id: PacketId, w: Waiter) {
    || step.Drop?
    || (step.Register? && step.id == id)
    || (step.Remove? && step.id == id && step.ch == w.ch)
    || (step.Signal? && step.id == id && step.got == w.want)
  }

  /**
   A waiter stays registered until a drop, a signal of its own class, its own removal or a new
   registration of its identifier. A late removal by an earlier owner of the identifier names
   another channel, so it is none of these.
   */
  lemma {:induction false} WaiterStays(states: seq<System>, steps: seq<Step>, i: nat, j: nat, id: PacketId, w: Waiter)
    requires Run(states, steps) && i <= j <= |steps|
    requires id in states[i].t.waiters && states[i].t.waiters[id] == w
    requires forall k | i <= k < j :: !Ends(steps[k], id, w)
    ensures id in states[j].t.waiters && states[j].t.waiters[id] == w
    decreases j
  {
    if i < j {
      WaiterStays(states, steps, i, j - 1, id, w);
      assert !Ends(steps[j - 1], id, w);
      assert Next(states[j - 1], steps[j - 1], states[j - 1 + 1]);
    }
  }

  /** While its identifier is not registered again, a channel is the only one its signals can reach. */
  lemma {:induction false} SignalReachesOwner(states: seq<System>, steps: seq<Step>, i: nat, j: nat, id: PacketId)
    requires Run(states, steps) && i < j <= |steps|
    requires steps[i].Register? && steps[i].id == id
    requires forall k | i < k < j :: !(steps[k].Register? && steps[k].id == id)
    ensures id in states[j].t.waiters ==> states[j].t.waiters[id] == Waiter(|states[i].t.slots|, steps[i].want)
    decreases j
  {
    assert Next(states[j - 1], steps[j - 1], states[j - 1 + 1]);
    if i < j - 1 {
      SignalReachesOwner(states, steps, i, j - 1, id);
    }
  }

  lemma {:induction false} RunsSound(states: seq<System>, steps: seq<Step>, n: nat)
    requires Run(states, steps) && n <= |steps|
    ensures TableSound(states[n])
  {
    if n > 0 {
      RunsSound(states, steps, n - 1);
      assert Next(states[n - 1], steps[n - 1], states[n - 1 + 1]);
      NextKeepsTable(states[n - 1], steps[n - 1], states[n]);
    }
  }

  /** One step: a waiter leaves the table exactly by one of the steps that end it. */
  lemma LeavesExactly(states: seq<System>, steps: seq<Step>, n: nat, id: PacketId, w: Waiter)
    requires Run(states, steps) && n < |steps| && id in states[n].t.waiters && states[n].t.waiters[id] == w
    ensures (id in states[n + 1].t.waiters && states[n + 1].t.waiters[id] == w) <==> !Ends(steps[n], id, w)
  {
    RunsSound(states, steps, n);
    assert Next(states[n], steps[n], states[n + 1]);
  }

  /** What a waiting call finds in its channel after a step: the loss, the code meant for it, or nothing yet. */
  function ToldBy(step: Step, id: PacketId, w: Waiter): Option<AckResult> {
    if step.Drop? then Some(ConnectionLost)
    else if step.Signal? && step.id == id && step.got == w.want then Some(Ack(step.code))
    else None
  }

  /**
   In every run a step tells each waiting call exactly what is meant for it: a drop tells all of
   them, a signal the one waiter of its identifier and class, anything else nobody. No other
   channel changes, unless its call takes the result out.
   */
  lemma ToldExactly(states: seq<System>, steps: seq<Step>, n: nat)
    requires Run(states, steps) && n < |steps|
    ensures |states[n].t.slots| <= |states[n + 1].t.slots|
    ensures forall id | id in states[n].t.waiters ::
      var w := states[n].t.waiters[id];
      w.ch < |states[n].t.slots| && states[n + 1].t.slots[w.ch] == ToldBy(steps[n], id, w)
    ensures forall ch: nat | ch < |states[n].t.slots| && !Waiting(states[n].t, ch) ::
      states[n + 1].t.slots[ch] == if steps[n] == Receive(ch) then None else states[n].t.slots[ch]
  {
    RunsSound(states, steps, n);
    var s, step, t := states[n], steps[n], states[n + 1];
    assert Next(s, step, t);
    forall id | id in s.t.waiters
      ensures var w := s.t.waiters[id];
        w.ch < |s.t.slots| && t.t.slots[w.ch] == ToldBy(step, id, w)
    {
      assert Waiting(s.t, s.t.waiters[id].ch);
    }
  }

  /** A call that registers gets a channel of its own, still empty, and replaces whoever waited before. */
  lemma RegistersExactly(states: seq<System>, steps: seq<Step>, n: nat)
    requires Run(states, steps) && n < |steps| && steps[n].Register?
    ensures var s, t, id := states[n].t, states[n + 1].t, steps[n].id;
      && id in t.waiters && t.waiters[id].want == steps[n].want && !Waiting(s, t.waiters[id].ch)
      && t.waiters[id].ch < |t.slots| && t.slots[t.waiters[id].ch].None?
      && (forall x: PacketId | x != id :: (x in t.waiters <==> x in s.waiters) && (x in s.waiters ==> t.waiters[x] == s.waiters[x]))
  {
    RunsSound(states, steps, n);
    assert Next(states[n], steps[n], states[n + 1]);
  }
}
