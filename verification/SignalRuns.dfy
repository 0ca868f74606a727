/**
 Session runs with their waiters. A terminal acknowledgement deletes the entry at once; freeing the
 identifier, returning the permit and signalling the waiter follow in that order, each of them
 possibly much later. A signal names an identifier, so it can come too late for its own call.
 */
module SignalRuns {
  import opened Wrappers
  import opened IdAllocator
  import opened Store
  import opened Session
  import R = SessionRuns
  import W = Waiters

  datatype Stage = Owing | IdFreed | PermitFreed

  /** The rest of a terminal acknowledgement: `ch` is the channel of the exchange that it ended. */
  datatype Tail = Tail(id: PacketId, at: R.Stamp, code: nat, ch: nat, stage: Stage)

  /** `own` remembers the channel that the last publish under each identifier registered. */
  datatype System = System(session: R.State, table: W.Table, own: map<PacketId, nat>, tails: set<Tail>)

  const INIT := System(R.INIT, W.NO_WAITERS, map[], {})

  datatype Step =
    | Client(step: R.Step)
    | Ask(r: Result<PacketId, IdError>, want: W.Class)
    | FreeId(t: Tail)
    | FreePermit(t: Tail)
    | Signal(t: Tail)
    | Answer(id: PacketId, got: W.Class, code: nat)
    | Abandon(id: PacketId, ch: nat)
    | Take(ch: nat)

  /** A publish that reaches the wire. */
  predicate Publishes(step: Step, id: PacketId) {
    step.Client? && step.step.PublishAttempt? && step.step.outcome.Written? && step.step.r == Ok(id)
  }

  /** What the client's own step does to the waiters. */
  ghost function TableAfter(t: W.Table, step: R.Step): W.Table {
    match step
    case PublishAttempt(_, outcome, Ok(id)) =>
      var reg := W.Registered(t, id, W.PublishAck);
      (match outcome
       case Written => reg
       case SaveFailed => t
       case NotSent => W.Removed(reg, id, |t.slots|)
       case WriteFailed => W.Removed(W.AllFailed(reg), id, |t.slots|))
    case Drop => W.AllFailed(t)
    case _ => t
  }

  function OwnAfter(s: System, step: R.Step): map<PacketId, nat> {
    match step
    case PublishAttempt(_, Written, Ok(id)) => s.own[id := |s.table.slots|]
    case _ => s.own
  }

  function TailsAfter(s: System, step: R.Step): set<Tail> {
    match step
    case Receive(f) =>
      if s.session.link.Some? && Handle(s.session.store, f).ended && f.id in s.own
      then s.tails + {Tail(f.id, s.session.link.value, CodeOf(f), s.own[f.id], Owing)}
      else s.tails
    case _ => s.tails
  }

  ghost predicate Next(s: System, step: Step, t: System) {
    match step
    case Client(c) =>
      && !c.ReleaseId? && !c.ReleasePermit? && !c.Request?
      && R.Next(s.session, c, t.session)
      && t == System(t.session, TableAfter(s.table, c), OwnAfter(s, c), TailsAfter(s, c))
    case Ask(r, want) =>
      && want != W.PublishAck && R.Next(s.session, R.Request(r), t.session)
      && t == s.(session := t.session, table := if r.Ok? then W.Registered(s.table, r.value, want) else s.table)
    case FreeId(x) =>
      && x in s.tails && x.stage == Owing
      && R.Next(s.session, R.ReleaseId(R.Hold(x.id, x.at.id)), t.session)
      && t == s.(session := t.session, tails := s.tails - {x} + {x.(stage := IdFreed)})
    case FreePermit(x) =>
      && x in s.tails && x.stage == IdFreed
      && R.Next(s.session, R.ReleasePermit(x.at.quota), t.session)
      && t == s.(session := t.session, tails := s.tails - {x} + {x.(stage := PermitFreed)})
    case Signal(x) =>
      && x in s.tails && x.stage == PermitFreed
      && t == s.(table := W.Signalled(s.table, x.id, W.PublishAck, W.Ack(x.code)), tails := s.tails - {x})
    case Answer(id, got, code) =>
      got != W.PublishAck && t == s.(table := W.Signalled(s.table, id, got, W.Ack(code)))
    case Abandon(id, ch) => t == s.(table := W.Removed(s.table, id, ch))
    case Take(ch) => ch < |s.table.slots| && t == s.(table := W.Received(s.table, ch))
  }

  ghost predicate Run(states: seq<System>, steps: seq<Step>) {
    && |states| == |steps| + 1
    && states[0] == INIT
    && forall i | 0 <= i < |steps| :: Next(states[i], steps[i], states[i + 1])
  }

  // ---------------------------------------------------------------- what every run keeps

  /** A registered channel is empty, and a publish waits on the channel its own call registered. */
  ghost predicate TableSound(t: W.Table, own: map<PacketId, nat>) {
    && (forall id | id in t.waiters :: t.waiters[id].ch < |t.slots| && t.slots[t.waiters[id].ch].None?)
    && (forall id | id in t.waiters && t.waiters[id].want == W.PublishAck :: id in own && own[id] == t.waiters[id].ch)
    && (forall a, b | a in t.waiters && b in t.waiters && t.waiters[a].ch == t.waiters[b].ch :: a == b)
  }

  ghost predicate OwnSound(own: map<PacketId, nat>, open: set<PacketId>, n: nat) {
    && open <= own.Keys
    && (forall id | id in own :: own[id] < n)
    && (forall a, b | a in own && b in own && own[a] == own[b] :: a == b)
  }

  /** One tail per ended exchange; until it frees its identifier, nobody else has it. */
  ghost predicate TailsSound(tails: set<Tail>, own: map<PacketId, nat>, open: set<PacketId>, gen: nat) {
    && (forall x | x in tails :: x.id in own && x.ch <= own[x.id])
    && (forall x, y | x in tails && y in tails && x.ch == y.ch :: x == y)
    && (forall x, id | x in tails && id in open && id in own :: x.ch != own[id])
    && (forall x | x in tails && x.stage == Owing && x.at.id == gen :: x.id in own && x.ch == own[x.id])
  }

  function HoldOf(x: Tail): R.Hold {
    R.Hold(x.id, x.at.id)
  }

  /** What the tails still have to give back is what the session is owed. */
  ghost predicate DebtsSound(tails: set<Tail>, ids: set<R.Hold>, permits: multiset<nat>) {
    && (forall x | x in tails && x.stage == Owing :: HoldOf(x) in ids)
    && (forall x, y | x in tails && y in tails && x.stage == Owing && y.stage == Owing && HoldOf(x) == HoldOf(y) :: x == y)
    && (forall g: nat :: |Unpaid(tails, g)| == permits[g])
  }

  function Unpaid(tails: set<Tail>, g: nat): set<Tail> {
    set x | x in tails && x.stage != PermitFreed && x.at.quota == g
  }

  ghost predicate Inv(s: System) {
    && R.Inv(s.session)
    && TableSound(s.table, s.own)
    && OwnSound(s.own, OutboundIds(s.session.store), |s.table.slots|)
    && TailsSound(s.tails, s.own, OutboundIds(s.session.store), s.session.ids.gen)
    && DebtsSound(s.tails, s.session.owedIds, s.session.owedPermits)
  }

  // ---------------------------------------------------------------- the rest of an acknowledgement

  lemma UnpaidWith(tails: set<Tail>, x: Tail, g: nat)
    requires x !in tails && x.stage != PermitFreed
    ensures |Unpaid(tails + {x}, g)| == |Unpaid(tails, g)| + if x.at.quota == g then 1 else 0
  {
    assert Unpaid(tails + {x}, g) == Unpaid(tails, g) + if x.at.quota == g then {x} else {};
  }

  lemma UnpaidAfterId(tails: set<Tail>, x: Tail, g: nat)
    requires x in tails && x.stage == Owing && x.(stage := IdFreed) !in tails
    ensures |Unpaid(tails - {x} + {x.(stage := IdFreed)}, g)| == |Unpaid(tails, g)|
  {
    var y := x.(stage := IdFreed);
    if x.at.quota == g {
      assert Unpaid(tails - {x} + {y}, g) == Unpaid(tails, g) - {x} + {y};
    } else {
      assert Unpaid(tails - {x} + {y}, g) == Unpaid(tails, g);
    }
  }

  lemma UnpaidAfterPermit(tails: set<Tail>, x: Tail, g: nat)
    requires x in tails && x.stage == IdFreed
    ensures |Unpaid(tails - {x} + {x.(stage := PermitFreed)}, g)| == |Unpaid(tails, g)| - if x.at.quota == g then 1 else 0
  {
    var t := tails - {x} + {x.(stage := PermitFreed)};
    assert Unpaid(t, g) == Unpaid(tails, g) - {x};
    assert x in Unpaid(tails, g) <==> x.at.quota == g;
  }

  lemma DebtsAdded(tails: set<Tail>, ids: set<R.Hold>, permits: multiset<nat>, x: Tail)
    requires DebtsSound(tails, ids, permits) && x.stage == Owing && HoldOf(x) !in ids
    ensures DebtsSound(tails + {x}, ids + {HoldOf(x)}, permits + multiset{x.at.quota})
  {
    forall g: nat
      ensures |Unpaid(tails + {x}, g)| == (permits + multiset{x.at.quota})[g]
    {
      UnpaidWith(tails, x, g);
    }
  }

  lemma IdPaid(tails: set<Tail>, ids: set<R.Hold>, permits: multiset<nat>, x: Tail)
    requires DebtsSound(tails, ids, permits) && x in tails && x.stage == Owing && x.(stage := IdFreed) !in tails
    ensures DebtsSound(tails - {x} + {x.(stage := IdFreed)}, ids - {HoldOf(x)}, permits)
  {
    forall g: nat
      ensures |Unpaid(tails - {x} + {x.(stage := IdFreed)}, g)| == permits[g]
    {
      UnpaidAfterId(tails, x, g);
    }
  }

  lemma PermitPaid(tails: set<Tail>, ids: set<R.Hold>, permits: multiset<nat>, x: Tail)
    requires DebtsSound(tails, ids, permits) && x in tails && x.stage == IdFreed
    ensures x.at.quota in permits
    ensures DebtsSound(tails - {x} + {x.(stage := PermitFreed)}, ids, permits - multiset{x.at.quota})
  {
    assert x in Unpaid(tails, x.at.quota);
    assert |Unpaid(tails, x.at.quota)| == permits[x.at.quota];
    forall g: nat
      ensures |Unpaid(tails - {x} + {x.(stage := PermitFreed)}, g)| == (permits - multiset{x.at.quota})[g]
    {
      UnpaidAfterPermit(tails, x, g);
    }
  }

  lemma DebtsSettled(tails: set<Tail>, ids: set<R.Hold>, permits: multiset<nat>, x: Tail)
    requires DebtsSound(tails, ids, permits) && x in tails && x.stage == PermitFreed
    ensures DebtsSound(tails - {x}, ids, permits)
  {
    forall g: nat
      ensures |Unpaid(tails - {x}, g)| == permits[g]
    {
      assert Unpaid(tails - {x}, g) == Unpaid(tails, g);
    }
  }

  /** A tail moves on to its next stage. */
  lemma TailMoves(tails: set<Tail>, own: map<PacketId, nat>, open: set<PacketId>, gen: nat, x: Tail, stage: Stage)
    requires TailsSound(tails, own, open, gen) && x in tails && stage != Owing && stage != x.stage
    ensures TailsSound(tails - {x} + {x.(stage := stage)}, own, open, gen)
    ensures x.(stage := stage) !in tails
  {
    var y := x.(stage := stage);
    assert y.ch == x.ch && y != x;
  }

  lemma FreeIdKeeps(s: System, x: Tail, t: System)
    requires Inv(s) && Next(s, FreeId(x), t)
    ensures Inv(t)
  {
    R.NextKeeps(s.session, R.ReleaseId(HoldOf(x)), t.session);
    hide R.Inv, OwnSound, TableSound, TailsSound, DebtsSound;
    TailMoves(s.tails, s.own, OutboundIds(s.session.store), s.session.ids.gen, x, IdFreed);
    IdPaid(s.tails, s.session.owedIds, s.session.owedPermits, x);
  }

  lemma FreePermitKeeps(s: System, x: Tail, t: System)
    requires Inv(s) && Next(s, FreePermit(x), t)
    ensures Inv(t)
  {
    R.NextKeeps(s.session, R.ReleasePermit(x.at.quota), t.session);
    hide R.Inv, OwnSound, TableSound, TailsSound, DebtsSound;
    TailMoves(s.tails, s.own, OutboundIds(s.session.store), s.session.ids.gen, x, PermitFreed);
    PermitPaid(s.tails, s.session.owedIds, s.session.owedPermits, x);
  }

  lemma SignalKeeps(s: System, x: Tail, t: System)
    requires Inv(s) && Next(s, Signal(x), t)
    ensures Inv(t)
  {
    hide R.Inv, OwnSound, TableSound, DebtsSound;
    SignalledSound(s.table, s.own, x.id, W.PublishAck, W.Ack(x.code));
    DebtsSettled(s.tails, s.session.owedIds, s.session.owedPermits, x);
  }

  // ---------------------------------------------------------------- the waiter table

  /** A send to a waiter takes it out of the table, so the other registered channels stay empty. */
  lemma SignalledSound(t: W.Table, own: map<PacketId, nat>, id: PacketId, got: W.Class, r: W.AckResult)
    requires TableSound(t, own)
    ensures TableSound(W.Signalled(t, id, got, r), own)
    ensures |W.Signalled(t, id, got, r).slots| == |t.slots|
  {
  }

  lemma RegisteredSound(t: W.Table, own: map<PacketId, nat>, id: PacketId, want: W.Class)
    requires TableSound(t, own)
    ensures want == W.PublishAck ==> TableSound(W.Registered(t, id, want), own[id := |t.slots|])
    ensures want != W.PublishAck ==> TableSound(W.Registered(t, id, want), own)
    ensures TableSound(W.Removed(W.Registered(t, id, want), id, |t.slots|), own)
  {
  }

  lemma ClientTableSound(t: W.Table, own: map<PacketId, nat>, step: R.Step)
    requires TableSound(t, own)
    ensures TableSound(TableAfter(t, step),
      if step.PublishAttempt? && step.outcome.Written? && step.r.Ok? then own[step.r.value := |t.slots|] else own)
    ensures |t.slots| <= |TableAfter(t, step).slots|
    ensures step.PublishAttempt? && step.outcome.Written? && step.r.Ok? ==> |TableAfter(t, step).slots| == |t.slots| + 1
  {
    if step.PublishAttempt? && step.r.Ok? {
      RegisteredSound(t, own, step.r.value, W.PublishAck);
    }
  }

  // ---------------------------------------------------------------- the client's steps

  lemma PublishedFacts(s: R.State, step: R.Step, t: R.State)
    requires R.Inv(s) && step.PublishAttempt? && step.outcome.Written? && step.r.Ok? && R.Next(s, step, t)
    ensures var id := step.r.value;
      && OutboundIds(t.store) == OutboundIds(s.store) + {id} && id !in OutboundIds(s.store)
      && R.Hold(id, s.ids.gen) !in s.owedIds
      && t.ids.gen == s.ids.gen && t.owedIds == s.owedIds && t.owedPermits == s.owedPermits
  {
    var id, e := step.r.value, PublishEntry(step.r.value, step.msg);
    assert id !in s.ids.used;
    assert id !in OutboundIds(s.store);
    assert id !in R.HeldIds(s.owedIds, s.ids.gen);
    SavedKeys(s.store, e);
    LegsWith(s.store.msgs.Keys, e.Slot());
  }

  lemma UnpublishedFacts(s: R.State, step: R.Step, t: R.State)
    requires R.Inv(s) && step.PublishAttempt? && !(step.outcome.Written? && step.r.Ok?) && R.Next(s, step, t)
    ensures OutboundIds(t.store) == OutboundIds(s.store)
    ensures t.ids.gen == s.ids.gen && t.owedIds == s.owedIds && t.owedPermits == s.owedPermits
  {
    if step.r.Ok? {
      assert step.r.value !in OutboundIds(s.store);
      R.SavedThenDeleted(s.store, step.r.value, step.msg);
    }
  }

  lemma PublishedKeeps(s: System, c: R.Step, t: System)
    requires Inv(s) && Next(s, Client(c), t) && c.PublishAttempt? && c.outcome.Written? && c.r.Ok?
    ensures Inv(t)
  {
    PublishedFacts(s.session, c, t.session);
    R.NextKeeps(s.session, c, t.session);
    ClientTableSound(s.table, s.own, c);
    hide R.Inv, R.Next, TableSound, TableAfter;
    var n := |s.table.slots|;
    FreshOwner(s.tails, s.own, OutboundIds(s.session.store), s.session.ids.gen, c.r.value, n, s.session.owedIds, s.session.owedPermits);
  }

  /** A new owner of a free identifier leaves the tails of earlier exchanges as they are. */
  lemma FreshOwner(tails: set<Tail>, own: map<PacketId, nat>, open: set<PacketId>, gen: nat, id: PacketId, n: nat,
    ids: set<R.Hold>, permits: multiset<nat>)
    requires OwnSound(own, open, n) && TailsSound(tails, own, open, gen) && DebtsSound(tails, ids, permits)
    requires R.Hold(id, gen) !in ids
    ensures OwnSound(own[id := n], open + {id}, n + 1) && TailsSound(tails, own[id := n], open + {id}, gen)
  {
    forall x | x in tails && x.stage == Owing && x.at.id == gen
      ensures x.id != id
    {
      assert HoldOf(x) in ids;
    }
  }

  lemma UnpublishedKeeps(s: System, c: R.Step, t: System)
    requires Inv(s) && Next(s, Client(c), t) && c.PublishAttempt? && !(c.outcome.Written? && c.r.Ok?)
    ensures Inv(t)
  {
    UnpublishedFacts(s.session, c, t.session);
    R.NextKeeps(s.session, c, t.session);
    ClientTableSound(s.table, s.own, c);
    hide R.Inv, R.Next, TableSound, TailsSound, DebtsSound, TableAfter;
  }

  lemma ReceiveFacts(s: R.State, f: Frame, t: R.State)
    requires R.Inv(s) && R.Next(s, R.Receive(f), t)
    ensures var r := Handle(s.store, f);
      && OutboundIds(t.store) == OutboundIds(s.store) - (if r.ended then {f.id} else {})
      && (r.ended ==> f.id in OutboundIds(s.store) && R.Hold(f.id, s.link.value.id) !in s.owedIds)
      && s.link.value.id == s.ids.gen == t.ids.gen
  {
    HandleBalanced(s.store, f);
    assert f.id in R.HeldIds(s.owedIds, s.ids.gen) <==> R.Hold(f.id, s.ids.gen) in s.owedIds;
  }

  /** The exchange that ends hands its channel to its tail. */
  lemma EndedTail(tails: set<Tail>, own: map<PacketId, nat>, open: set<PacketId>, gen: nat, x: Tail, n: nat)
    requires OwnSound(own, open, n) && TailsSound(tails, own, open, gen)
    requires x.id in open && x.id in own && x.ch == own[x.id]
    ensures OwnSound(own, open - {x.id}, n) && TailsSound(tails + {x}, own, open - {x.id}, gen)
  {
  }

  lemma ReceiveKeeps(s: System, f: Frame, t: System)
    requires Inv(s) && Next(s, Client(R.Receive(f)), t)
    ensures Inv(t)
  {
    ReceiveFacts(s.session, f, t.session);
    R.NextKeeps(s.session, R.Receive(f), t.session);
    var open, at := OutboundIds(s.session.store), s.session.link.value;
    if Handle(s.session.store, f).ended {
      assert f.id in s.own;
      var x := Tail(f.id, at, CodeOf(f), s.own[f.id], Owing);
      EndedTail(s.tails, s.own, open, s.session.ids.gen, x, |s.table.slots|);
      DebtsAdded(s.tails, s.session.owedIds, s.session.owedPermits, x);
    }
    hide R.Inv, OwnSound, TableSound, TailsSound, DebtsSound, Handle;
  }

  lemma OtherFacts(s: R.State, c: R.Step, t: R.State)
    requires R.Inv(s) && R.Next(s, c, t) && (c.RequestDone? || c.Drop? || c.Connect? || c.Request?)
    ensures t.owedIds == s.owedIds && t.owedPermits == s.owedPermits
    ensures forall h | h in s.owedIds :: h.gen <= s.ids.gen
    ensures if c.Connect? && c.discard then OutboundIds(t.store) == {} && t.ids.gen == s.ids.gen + 1
            else OutboundIds(t.store) == OutboundIds(s.store) && t.ids.gen == s.ids.gen
  {
    assert OutboundIds(EMPTY) == {};
  }

  /** A discarded session leaves only tails of generations that are over. */
  lemma Discarded(tails: set<Tail>, own: map<PacketId, nat>, open: set<PacketId>, gen: nat, n: nat,
    ids: set<R.Hold>, permits: multiset<nat>)
    requires OwnSound(own, open, n) && TailsSound(tails, own, open, gen) && DebtsSound(tails, ids, permits)
    requires forall h | h in ids :: h.gen <= gen
    ensures OwnSound(own, {}, n) && TailsSound(tails, own, {}, gen + 1)
  {
    forall x | x in tails && x.stage == Owing
      ensures x.at.id <= gen
    {
      assert HoldOf(x) in ids;
    }
  }

  lemma DiscardKeeps(s: System, c: R.Step, t: System)
    requires Inv(s) && Next(s, Client(c), t) && c.Connect? && c.discard
    ensures Inv(t)
  {
    hide R.Inv, TableSound, TailsSound, DebtsSound, OwnSound;
    R.NextKeeps(s.session, c, t.session);
    OtherFacts(s.session, c, t.session);
    Discarded(s.tails, s.own, OutboundIds(s.session.store), s.session.ids.gen, |s.table.slots|,
      s.session.owedIds, s.session.owedPermits);
  }

  lemma OtherKeeps(s: System, c: R.Step, t: System)
    requires Inv(s) && Next(s, Client(c), t) && (c.RequestDone? || c.Drop? || (c.Connect? && !c.discard))
    ensures Inv(t)
  {
    hide R.Inv, TableSound, TailsSound, DebtsSound, OwnSound;
    ClientTableSound(s.table, s.own, c);
    R.NextKeeps(s.session, c, t.session);
    OtherFacts(s.session, c, t.session);
    hide R.Next, TableAfter;
    OwnGrows(s.own, OutboundIds(t.session.store), |s.table.slots|, |t.table.slots|);
  }

  lemma OwnGrows(own: map<PacketId, nat>, open: set<PacketId>, n: nat, m: nat)
    requires n <= m
    ensures OwnSound(own, open, n) ==> OwnSound(own, open, m)
  {
  }

  lemma NextKeeps(s: System, step: Step, t: System)
    requires Inv(s) && Next(s, step, t)
    ensures Inv(t)
  {
    match step
    case Client(c) =>
      if c.PublishAttempt? {
        if c.outcome.Written? && c.r.Ok? {
          PublishedKeeps(s, c, t);
        } else {
          UnpublishedKeeps(s, c, t);
        }
      } else if c.Receive? {
        ReceiveKeeps(s, c.f, t);
      } else if c.Connect? && c.discard {
        DiscardKeeps(s, c, t);
      } else {
        OtherKeeps(s, c, t);
      }
    case FreeId(x) => FreeIdKeeps(s, x, t);
    case FreePermit(x) => FreePermitKeeps(s, x, t);
    case Signal(x) => SignalKeeps(s, x, t);
    case Ask(r, want) => AskKeeps(s, r, want, t);
    case _ => WaitersKeep(s, step, t);
  }

  lemma AskKeeps(s: System, r: Result<PacketId, IdError>, want: W.Class, t: System)
    requires Inv(s) && Next(s, Ask(r, want), t)
    ensures Inv(t)
  {
    OtherFacts(s.session, R.Request(r), t.session);
    R.NextKeeps(s.session, R.Request(r), t.session);
    if r.Ok? {
      RegisteredSound(s.table, s.own, r.value, want);
    }
    OwnGrows(s.own, OutboundIds(t.session.store), |s.table.slots|, |t.table.slots|);
    hide R.Inv, R.Next, TableSound, TailsSound, DebtsSound, OwnSound;
  }

  lemma WaitersKeep(s: System, step: Step, t: System)
    requires Inv(s) && Next(s, step, t) && (step.Answer? || step.Abandon? || step.Take?)
    ensures Inv(t)
  {
    hide R.Inv, R.Next, TailsSound, DebtsSound, OwnSound;
    if step.Answer? {
      SignalledSound(s.table, s.own, step.id, step.got, W.Ack(step.code));
    }
  }

  lemma {:induction false} RunsKeep(states: seq<System>, steps: seq<Step>, i: nat)
    requires Run(states, steps) && i <= |steps|
    ensures Inv(states[i])
  {
    if i == 0 {
      R.RunsKeep([R.INIT], [], 0);
      assert OutboundIds(EMPTY) == {};
      assert forall g: nat :: Unpaid({}, g) == {};
    } else {
      RunsKeep(states, steps, i - 1);
      assert Next(states[i - 1], steps[i - 1], states[i - 1 + 1]);
      NextKeeps(states[i - 1], steps[i - 1], states[i]);
    }
  }

  // ---------------------------------------------------------------- where a signal goes

  /** What is left of an acknowledgement can always go on. */
  lemma TailsGoOn(states: seq<System>, steps: seq<Step>, n: nat, x: Tail) returns (step: Step, t: System)
    requires Run(states, steps) && n <= |steps| && x in states[n].tails
    ensures step in {FreeId(x), FreePermit(x), Signal(x)} && Next(states[n], step, t)
  {
    RunsKeep(states, steps, n);
    var s := states[n];
    match x.stage
    case Owing =>
      var session := s.session.(ids := Released(s.session.ids, x.id, x.at.id), owedIds := s.session.owedIds - {HoldOf(x)});
      step, t := FreeId(x), s.(session := session, tails := s.tails - {x} + {x.(stage := IdFreed)});
    case IdFreed =>
      PermitPaid(s.tails, s.session.owedIds, s.session.owedPermits, x);
      var session := s.session.(quota := R.Q.Returned(s.session.quota, x.at.quota),
                                owedPermits := s.session.owedPermits - multiset{x.at.quota});
      step, t := FreePermit(x), s.(session := session, tails := s.tails - {x} + {x.(stage := PermitFreed)});
    case PermitFreed =>
      step := Signal(x);
      t := s.(table := W.Signalled(s.table, x.id, W.PublishAck, W.Ack(x.code)), tails := s.tails - {x});
  }

  /** Step `i` published under `id` and registered channel `ch`. */
  predicate Registers(states: seq<System>, steps: seq<Step>, i: nat, id: PacketId, ch: nat) {
    i < |steps| && i < |states| && Publishes(steps[i], id) && |states[i].table.slots| == ch
  }

  lemma {:induction false} SlotsGrow(states: seq<System>, steps: seq<Step>, i: nat, j: nat)
    requires Run(states, steps) && i <= j <= |steps|
    ensures |states[i].table.slots| <= |states[j].table.slots|
    decreases j
  {
    if i < j {
      SlotsGrow(states, steps, i, j - 1);
      assert Next(states[j - 1], steps[j - 1], states[j - 1 + 1]);
    }
  }

  lemma {:induction false} OwnComesFrom(states: seq<System>, steps: seq<Step>, n: nat, id: PacketId) returns (i: nat)
    requires Run(states, steps) && n <= |steps| && id in states[n].own
    ensures i < n && Registers(states, steps, i, id, states[n].own[id])
  {
    assert Next(states[n - 1], steps[n - 1], states[n - 1 + 1]);
    if Publishes(steps[n - 1], id) {
      i := n - 1;
    } else {
      i := OwnComesFrom(states, steps, n - 1, id);
    }
  }

  /** The acknowledgement at step `j` ended the exchange that waited on the tail's channel. */
  ghost predicate Ends(states: seq<System>, steps: seq<Step>, j: nat, x: Tail) {
    && j < |steps| && j < |states| && steps[j].Client? && steps[j].step.Receive?
    && var f := steps[j].step.f;
       && f.id == x.id && CodeOf(f) == x.code && Handle(states[j].session.store, f).ended
       && x.id in states[j].own && states[j].own[x.id] == x.ch
  }

  lemma {:induction false} EndedBy(states: seq<System>, steps: seq<Step>, n: nat, x: Tail) returns (j: nat)
    requires Run(states, steps) && n <= |steps| && x in states[n].tails
    ensures j < n && Ends(states, steps, j, x)
    decreases n
  {
    assert Next(states[n - 1], steps[n - 1], states[n - 1 + 1]);
    if x in states[n - 1].tails {
      j := EndedBy(states, steps, n - 1, x);
    } else if steps[n - 1].Client? {
      j := n - 1;
    } else {
      j := EndedBy(states, steps, n - 1, steps[n - 1].t);
    }
  }

  /** A tail belongs to one publish and to the acknowledgement that ended it. */
  lemma TailComesFrom(states: seq<System>, steps: seq<Step>, n: nat, x: Tail) returns (i: nat, j: nat)
    requires Run(states, steps) && n <= |steps| && x in states[n].tails
    ensures i < j < n && Registers(states, steps, i, x.id, x.ch) && Ends(states, steps, j, x)
  {
    j := EndedBy(states, steps, n, x);
    i := OwnComesFrom(states, steps, j, x.id);
  }

  /** The send filled channel `c`. */
  predicate Fills(t: W.Table, t': W.Table, c: nat, r: W.AckResult) {
    c < |t.slots| && t.slots[c].None? && c < |t'.slots| && t'.slots[c] == Some(r)
  }

  /** The step at `n` hands the tail's reason code to channel `c`. */
  predicate Reaches(states: seq<System>, n: nat, x: Tail, c: nat)
    requires n + 1 < |states|
  {
    Fills(states[n].table, states[n + 1].table, c, W.Ack(x.code))
  }

  lemma WhereSignalGoes(s: System, x: Tail, t: System, c: nat)
    requires Inv(s) && Next(s, Signal(x), t)
    ensures Fills(s.table, t.table, c, W.Ack(x.code)) <==>
      x.id in s.table.waiters && s.table.waiters[x.id] == W.Waiter(c, W.PublishAck)
  {
    hide R.Inv, OwnSound, TailsSound, DebtsSound;
  }

  /** The call that published under `id` at step `k` still waits on the channel it registered. */
  predicate WaitsSince(states: seq<System>, steps: seq<Step>, k: nat, n: nat, id: PacketId)
    requires k <= n < |states| && k < |steps|
  {
    && Publishes(steps[k], id) && id in states[n].table.waiters
    && states[n].table.waiters[id] == W.Waiter(|states[k].table.slots|, W.PublishAck)
  }

  /**
   A late signal of the exchange published at step `i` fills a channel other than its own exactly
   when a publish that registered later under the same identifier is still waiting.
   */
  lemma MisdirectedExactly(states: seq<System>, steps: seq<Step>, i: nat, n: nat, x: Tail)
    requires Run(states, steps) && n < |steps| && steps[n] == Signal(x)
    requires i < n && Registers(states, steps, i, x.id, x.ch)
    ensures (exists c: nat :: c != x.ch && Reaches(states, n, x, c)) <==>
      (exists k: nat :: i < k < n && WaitsSince(states, steps, k, n, x.id))
  {
    RunsKeep(states, steps, n);
    var s, t := states[n], states[n + 1];
    assert Next(states[n], steps[n], states[n + 1]);
    if c: nat :| c != x.ch && Reaches(states, n, x, c) {
      WhereSignalGoes(s, x, t, c);
      var k := OwnComesFrom(states, steps, n, x.id);
      if k <= i {
        SlotsGrow(states, steps, k, i);
      }
      assert WaitsSince(states, steps, k, n, x.id);
    }
    if k: nat :| i < k < n && WaitsSince(states, steps, k, n, x.id) {
      assert Next(states[i], steps[i], states[i + 1]);
      SlotsGrow(states, steps, i + 1, k);
      WhereSignalGoes(s, x, t, |states[k].table.slots|);
      assert Reaches(states, n, x, |states[k].table.slots|);
    }
  }

  /**
   While an exchange's identifier has not been freed and its session not been discarded, nobody
   else waits under the identifier: a signal sent then would reach its own call or none.
   */
  lemma OwnCallBeforeFreeing(states: seq<System>, steps: seq<Step>, n: nat, x: Tail)
    requires Run(states, steps) && n <= |steps| && x in states[n].tails
    requires x.stage == Owing && x.at.id == states[n].session.ids.gen
    ensures W.Hits(states[n].table, x.id, W.PublishAck) ==> states[n].table.waiters[x.id].ch == x.ch
  {
    RunsKeep(states, steps, n);
  }

  // ---------------------------------------------------------------- a run that misdirects

  lemma Extended(states: seq<System>, steps: seq<Step>, step: Step, t: System)
    returns (states': seq<System>, steps': seq<Step>)
    requires Run(states, steps) && Next(states[|steps|], step, t)
    ensures Run(states', steps') && steps' == steps + [step] && states' == states + [t]
  {
    states', steps' := states + [t], steps + [step];
  }

  lemma FirstId(gen: nat)
    ensures AcquireStep(Ids({}, 0, gen), Ids({1}, 2, gen), Ok(1))
  {
    assert At(0, 0) == 0 && At(0, 1) == 1;
  }

  /** A new session and one publish on it, under identifier 1. */
  lemma FreshPublish(states: seq<System>, steps: seq<Step>, m: Message) returns (states': seq<System>, steps': seq<Step>)
    requires Run(states, steps) && states[|steps|].session.link.None?
    ensures Run(states', steps') && |steps'| == |steps| + 2 && steps <= steps' && states <= states' && |states'| == |steps'| + 1
    ensures Publishes(steps'[|steps| + 1], 1) && steps'[|steps|] == Client(R.Connect(true, 1, true))
    ensures var s, t := states[|steps|], states'[|steps'|]; var gen := s.session.ids.gen + 1;
      && t.session.link == Some(R.Stamp(t.session.quota.gen, gen)) && t.session.ids == Ids({1}, 2, gen)
      && t.session.store == Saved(EMPTY, PublishEntry(1, m))
      && t.table == W.Registered(s.table, 1, W.PublishAck)
      && t.own == s.own[1 := |s.table.slots|] && t.tails == s.tails
      && t.session.owedIds == s.session.owedIds && t.session.owedPermits == s.session.owedPermits
      && |states'[|steps| + 1].table.slots| == |s.table.slots|
  {
    var s := states[|steps|];
    var u := s.(session := R.Connected(s.session, true, 1));
    assert Legs(EMPTY.msgs.Keys) == {};
    FirstId(u.session.ids.gen);
    var t := System(R.Prepared(u.session, Ids({1}, 2, u.session.ids.gen), 1, m), W.Registered(u.table, 1, W.PublishAck),
      u.own[1 := |u.table.slots|], u.tails);
    states', steps' := Extended(states, steps, Client(R.Connect(true, 1, true)), u);
    states', steps' := Extended(states', steps', Client(R.PublishAttempt(m, R.Written, Ok(1))), t);
  }

  lemma AckThenDrop(states: seq<System>, steps: seq<Step>, m: Message, code: nat, x: Tail)
    returns (states': seq<System>, steps': seq<Step>)
    requires Run(states, steps)
    requires var s := states[|steps|];
      && s.session.link.Some? && s.session.store == Saved(EMPTY, PublishEntry(1, m)) && 1 in s.own
      && s.tails == {} && s.session.owedIds == {} && s.session.owedPermits == multiset{}
      && x == Tail(1, s.session.link.value, code, s.own[1], Owing)
    ensures Run(states', steps') && |steps'| == |steps| + 2 && steps <= steps' && states <= states' && |states'| == |steps'| + 1
    ensures steps'[|steps|] == Client(R.Receive(Puback(1, code))) && steps'[|steps| + 1] == Client(R.Drop)
    ensures var s, t := states[|steps|], states'[|steps'|];
      && t.session.link.None? && t.session.ids == s.session.ids && t.tails == {x} && t.own == s.own
      && t.session.owedIds == {HoldOf(x)} && t.session.owedPermits == multiset{x.at.quota}
      && t.table.waiters == map[] && |t.table.slots| == |s.table.slots|
  {
    var s := states[|steps|];
    var f := Puback(1, code);
    var r := Handle(s.session.store, f);
    assert r.ended;
    var u := s.(session := s.session.(store := r.store, owedIds := {HoldOf(x)}, owedPermits := multiset{x.at.quota}),
                tails := {x});
    var t := u.(session := R.TornDown(u.session), table := W.AllFailed(u.table));
    states', steps' := Extended(states, steps, Client(R.Receive(f)), u);
    states', steps' := Extended(states', steps', Client(R.Drop), t);
  }

  lemma FinishTail(states: seq<System>, steps: seq<Step>, x: Tail) returns (states': seq<System>, steps': seq<Step>)
    requires Run(states, steps)
    requires var s := states[|steps|];
      s.tails == {x} && x.stage == Owing && s.session.owedIds == {HoldOf(x)} && s.session.owedPermits == multiset{x.at.quota}
    ensures Run(states', steps') && |steps'| == |steps| + 3 && steps <= steps' && states <= states' && |states'| == |steps'| + 1
    ensures steps'[|steps|].FreeId? && steps'[|steps| + 1].FreePermit? && steps'[|steps| + 2] == Signal(x.(stage := PermitFreed))
    ensures states'[|steps'| - 1].table == states[|steps|].table
    ensures states'[|steps'|].table == W.Signalled(states[|steps|].table, x.id, W.PublishAck, W.Ack(x.code))
    ensures states'[|steps'|].session.store == states[|steps|].session.store
  {
    var s := states[|steps|];
    var y, z := x.(stage := IdFreed), x.(stage := PermitFreed);
    var a := s.(session := s.session.(ids := Released(s.session.ids, x.id, x.at.id), owedIds := {}), tails := {y});
    assert {HoldOf(x)} - {HoldOf(x)} == {} && {x} - {x} + {y} == {y} && {y} - {y} + {z} == {z};
    assert multiset{x.at.quota} - multiset{x.at.quota} == multiset{};
    var b := a.(session := a.session.(quota := R.Q.Returned(a.session.quota, x.at.quota), owedPermits := multiset{}), tails := {z});
    var c := b.(table := W.Signalled(b.table, x.id, W.PublishAck, W.Ack(x.code)), tails := {z} - {z});
    states', steps' := Extended(states, steps, FreeId(x), a);
    states', steps' := Extended(states', steps', FreePermit(y), b);
    states', steps' := Extended(states', steps', Signal(z), c);
  }

  /** The first exchange is acknowledged and dropped before it finishes; the second takes its identifier. */
  lemma SecondOwner(m: Message, n: Message, code: nat) returns (states: seq<System>, steps: seq<Step>, x: Tail)
    ensures Run(states, steps) && |steps| == 6 && |states| == 7
    ensures Registers(states, steps, 1, 1, 0) && Registers(states, steps, 5, 1, 1)
    ensures steps[2] == Client(R.Receive(Puback(1, code)))
    ensures steps[3] == Client(R.Drop) && steps[4].Client? && steps[4].step.Connect?
    ensures var s := states[6];
      && x.id == 1 && x.code == code && x.ch == 0 && x.stage == Owing && s.tails == {x}
      && s.session.owedIds == {HoldOf(x)} && s.session.owedPermits == multiset{x.at.quota}
      && 1 in s.table.waiters && s.table.waiters[1] == W.Waiter(1, W.PublishAck)
      && |s.table.slots| == 2 && s.table.slots[1].None?
      && s.session.store == Saved(EMPTY, PublishEntry(1, n))
  {
    states, steps := FreshPublish([INIT], [], m);
    x := Tail(1, states[2].session.link.value, code, 0, Owing);
    hide Run;
    states, steps := AckThenDrop(states, steps, m, code, x);
    states, steps := FreshPublish(states, steps, n);
  }

  /**
   Publish, acknowledgement, drop, a discarded session and a second publish under the same
   identifier; then the first acknowledgement finishes. The second call is handed the first one's
   reason code while its own message is still stored and unacknowledged.
   */
  lemma LateSignalReachesNewOwner(m: Message, n: Message, code: nat) returns (states: seq<System>, steps: seq<Step>, x: Tail)
    ensures Run(states, steps) && |steps| == 9 && |states| == 10
    ensures Registers(states, steps, 1, 1, 0) && Registers(states, steps, 5, 1, 1)
    ensures steps[2] == Client(R.Receive(Puback(1, code)))
    ensures forall k | 3 <= k < 9 :: !(steps[k].Client? && steps[k].step.Receive?)
    ensures steps[8] == Signal(x) && x.ch == 0 && Reaches(states, 8, x, 1)
    ensures Stored(states[9].session.store, 1, StoredPublish)
      && states[9].session.store.msgs[Key(1, StoredPublish)].publish == Some(n)
  {
    states, steps, x := SecondOwner(m, n, code);
    hide Run;
    states, steps := FinishTail(states, steps, x);
    x := x.(stage := PermitFreed);
  }
}
