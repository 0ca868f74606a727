/**
 Runs of the client session: whole publish attempts, handled packets, SUBSCRIBE and UNSUBSCRIBE
 requests, late releases, drops and reconnects, in any order. What every run keeps is the send
 quota's conservation law and the ownership of packet identifiers.
 */
module SessionRuns {
  import opened Wrappers
  import opened IdAllocator
  import opened Store
  import opened Session
  import Q = Quota

  /** The generations a link was established under, or a publish acquired under. */
  datatype Stamp = Stamp(quota: nat, id: nat)

  /** An identifier held by a goroutine, with the allocator generation it came from. */
  datatype Hold = Hold(id: PacketId, gen: nat)

  /**
   `requests` are the identifiers of SUBSCRIBE and UNSUBSCRIBE calls, `owedIds` and `owedPermits`
   the releases of exchanges whose entry is already deleted. `ceiling` and `resumed` remember the
   limit and the replay set of the last quota reset.
   */
  datatype State = State(
    store: Contents,
    ids: Ids,
    quota: Q.Permits,
    link: Option<Stamp>,
    requests: set<Hold>,
    owedIds: set<Hold>,
    owedPermits: multiset<nat>,
    ceiling: nat,
    resumed: nat)

  datatype Outcome = Written | SaveFailed | NotSent | WriteFailed

  datatype Step =
    | PublishAttempt(msg: Message, outcome: Outcome, r: Result<PacketId, IdError>)
    | Receive(f: Frame)
    | ReleaseId(h: Hold)
    | ReleasePermit(gen: nat)
    | Request(r: Result<PacketId, IdError>)
    | RequestDone(h: Hold)
    | Drop
    | Connect(discard: bool, ceiling: nat, replayed: bool)

  const INIT := State(EMPTY, Ids({}, 0, 0), Q.Seeded(0), None, {}, {}, multiset{}, 0, 0)

  function Max(a: int, b: int): int {
    if a < b then b else a
  }

  // ---------------------------------------------------------------- one attempt to publish

  /** The session after a permit and an identifier were taken and the entry saved. */
  function Prepared(s: State, ids: Ids, id: PacketId, msg: Message): State {
    s.(store := Saved(s.store, PublishEntry(id, msg)), ids := ids, quota := Q.Attempted(s.quota).0)
  }

  function TornDown(s: State): State {
    s.(quota := Q.Failed(s.quota), link := None)
  }

  /** Entry, identifier and permit given back together. */
  function Undone(s: State, id: PacketId, at: Stamp): State {
    s.(store := Deleted(s.store, id, StoredPublish),
       ids := Released(s.ids, id, at.id),
       quota := Q.Returned(s.quota, at.quota))
  }

  /** What is left of an attempt that got identifier `id`, `p` being the prepared session. */
  function Attempt(s: State, p: State, id: PacketId, outcome: Outcome): State {
    var at := Stamp(s.quota.gen, s.ids.gen);
    match outcome
    case Written => p
    case SaveFailed => Undone(p, id, at).(store := s.store)
    case NotSent => Undone(p, id, at)
    case WriteFailed => Undone(TornDown(p), id, at)
  }

  /** The whole attempt, `ids` being the allocator after it was asked for an identifier. */
  function AfterAttempt(s: State, ids: Ids, step: Step): State
    requires step.PublishAttempt?
  {
    match step.r
    case Ok(id) => Attempt(s, Prepared(s, ids, id, step.msg), id, step.outcome)
    case Err(_) => s.(quota := Q.Returned(Q.Attempted(s.quota).0, s.quota.gen))
  }

  ghost predicate PublishNext(s: State, step: Step, t: State)
    requires step.PublishAttempt?
  {
    && s.link.Some? && Q.Attempted(s.quota).1.Granted?
    && exists ids :: AcquireStep(s.ids, ids, step.r) && t == AfterAttempt(s, ids, step)
  }

  // ---------------------------------------------------------------- connecting

  /** The session after `applySession`: kept or discarded, and the quota seeded with what is free. */
  function Applied(s: State, discard: bool, ceiling: nat): State {
    var store := if discard then EMPTY else s.store;
    s.(store := store,
       ids := if discard then Fresh(s.ids) else s.ids,
       quota := Q.Reseeded(s.quota, Max(ceiling - InFlight(store), 0)),
       ceiling := ceiling,
       resumed := InFlight(store))
  }

  ghost predicate Next(s: State, step: Step, t: State) {
    match step
    case PublishAttempt(_, _, _) => PublishNext(s, step, t)
    case Receive(f) =>
      && s.link.Some?
      && var r := Handle(s.store, f);
         t == if r.ended
              then s.(store := r.store,
                      owedIds := s.owedIds + {Hold(f.id, s.link.value.id)},
                      owedPermits := s.owedPermits + multiset{s.link.value.quota})
              else s.(store := r.store)
    case ReleaseId(h) =>
      h in s.owedIds && t == s.(ids := Released(s.ids, h.id, h.gen), owedIds := s.owedIds - {h})
    case ReleasePermit(gen) =>
      gen in s.owedPermits && t == s.(quota := Q.Returned(s.quota, gen), owedPermits := s.owedPermits - multiset{gen})
    case Request(r) =>
      exists ids :: AcquireStep(s.ids, ids, r)
        && t == s.(ids := ids, requests := s.requests + (if r.Ok? then {Hold(r.value, s.ids.gen)} else {}))
    case RequestDone(h) =>
      h in s.requests && t == s.(ids := Released(s.ids, h.id, h.gen), requests := s.requests - {h})
    case Drop => s.link.Some? && t == TornDown(s)
    case Connect(discard, ceiling, replayed) =>
      && s.link.None?
      && var a := Applied(s, discard, ceiling);
         t == if replayed then a.(link := Some(Stamp(a.quota.gen, a.ids.gen))) else a
  }

  ghost predicate Run(states: seq<State>, steps: seq<Step>) {
    && |states| == |steps| + 1
    && states[0] == INIT
    && forall i | 0 <= i < |steps| :: Next(states[i], steps[i], states[i + 1])
  }

  // ---------------------------------------------------------------- what every run keeps

  function HeldIds(hs: set<Hold>, gen: nat): set<PacketId> {
    set id: PacketId | 0 <= id < PACKET_ID_SPACE && Hold(id, gen) in hs
  }

  /** Identifiers in use are those of stored exchanges, of pending requests and of owed releases. */
  ghost predicate Ownership(s: State) {
    var stored := OutboundIds(s.store);
    var pending := HeldIds(s.requests, s.ids.gen);
    var owed := HeldIds(s.owedIds, s.ids.gen);
    && s.ids.used == stored + pending + owed
    && stored !! pending && stored !! owed && pending !! owed
    && 0 !in s.ids.used
    && (forall h | h in s.requests + s.owedIds :: h.gen <= s.ids.gen)
  }

  /** Permits free, in flight and owed add up to what the last reset handed out. */
  ghost predicate Conservation(s: State) {
    && s.quota.avail >= 0
    && s.quota.avail + InFlight(s.store) + s.owedPermits[s.quota.gen] == Max(s.ceiling, s.resumed)
    && (forall g | g in s.owedPermits :: g <= s.quota.gen)
  }

  ghost predicate Inv(s: State) {
    && Sound(s.store)
    && Ownership(s)
    && Conservation(s)
    && (s.link.Some? ==> s.link.value == Stamp(s.quota.gen, s.ids.gen) && !s.quota.failed)
  }

  lemma WrittenKeeps(s: State, ids: Ids, id: PacketId, msg: Message)
    requires Inv(s) && s.link.Some? && Q.Attempted(s.quota).1.Granted?
    requires AcquireStep(s.ids, ids, Ok(id))
    ensures Inv(Prepared(s, ids, id, msg))
  {
    var e := PublishEntry(id, msg);
    assert id !in OutboundIds(s.store);
    SavedValid(s.store, e);
    SavedKeys(s.store, e);
    LegsWith(s.store.msgs.Keys, e.Slot());
  }

  /** Taking the fresh entry out again leaves the keys as they were. */
  lemma SavedThenDeleted(s: Contents, id: PacketId, msg: Message)
    requires Sound(s) && id !in OutboundIds(s)
    ensures Sound(Deleted(Saved(s, PublishEntry(id, msg)), id, StoredPublish))
    ensures Deleted(Saved(s, PublishEntry(id, msg)), id, StoredPublish).msgs == s.msgs
  {
  }

  lemma AttemptKeeps(s: State, ids: Ids, id: PacketId, msg: Message, outcome: Outcome)
    requires Inv(s) && s.link.Some? && Q.Attempted(s.quota).1.Granted?
    requires AcquireStep(s.ids, ids, Ok(id))
    ensures Inv(Attempt(s, Prepared(s, ids, id, msg), id, outcome))
  {
    if outcome == Written {
      WrittenKeeps(s, ids, id, msg);
    } else {
      SavedThenDeleted(s.store, id, msg);
      var t := Attempt(s, Prepared(s, ids, id, msg), id, outcome);
      assert t.store.msgs == s.store.msgs;
      assert t.ids.used == s.ids.used + {id} - {id} == s.ids.used;
    }
  }

  lemma ReceiveKeeps(s: State, f: Frame, t: State)
    requires Inv(s) && Next(s, Receive(f), t)
    ensures Inv(t)
  {
    HandleBalanced(s.store, f);
    var g := s.ids.gen;
    if Handle(s.store, f).ended {
      assert HeldIds(t.owedIds, g) == HeldIds(s.owedIds, g) + {f.id};
    }
  }

  /** A release of the current generation frees an identifier nobody else holds; an older one frees nothing. */
  lemma ReleaseKeeps(s: State, step: Step, t: State)
    requires Inv(s) && (step.ReleaseId? || step.RequestDone?) && Next(s, step, t)
    ensures Inv(t)
    ensures step.h.gen != s.ids.gen ==> t.ids == s.ids
    ensures step.h.gen == s.ids.gen ==> step.h.id in s.ids.used && t.ids.used == s.ids.used - {step.h.id}
  {
  }

  lemma RequestKeeps(s: State, r: Result<PacketId, IdError>, t: State)
    requires Inv(s) && Next(s, Request(r), t)
    ensures Inv(t)
  {
    if r.Ok? {
      assert HeldIds(t.requests, s.ids.gen) == HeldIds(s.requests, s.ids.gen) + {r.value};
    }
  }

  lemma ConnectKeeps(s: State, discard: bool, ceiling: nat)
    requires Inv(s)
    ensures Inv(Applied(s, discard, ceiling).(link := None))
  {
  }

  lemma NextKeeps(s: State, step: Step, t: State)
    requires Inv(s) && Next(s, step, t)
    ensures Inv(t)
  {
    match step
    case PublishAttempt(msg, outcome, r) =>
      var ids :| AcquireStep(s.ids, ids, r) && t == AfterAttempt(s, ids, step);
      if r.Ok? {
        AttemptKeeps(s, ids, r.value, msg, outcome);
      }
    case Receive(f) => ReceiveKeeps(s, f, t);
    case ReleaseId(_) => ReleaseKeeps(s, step, t);
    case RequestDone(_) => ReleaseKeeps(s, step, t);
    case ReleasePermit(_) =>
    case Request(r) => RequestKeeps(s, r, t);
    case Drop =>
    case Connect(discard, ceiling, _) => ConnectKeeps(s, discard, ceiling);
  }

  /** Every state of every run conserves permits and keeps identifiers exclusively owned. */
  lemma {:induction false} RunsKeep(states: seq<State>, steps: seq<Step>, i: nat)
    requires Run(states, steps) && i <= |steps|
    ensures Inv(states[i])
  {
    if i == 0 {
      assert Legs(EMPTY.msgs.Keys) == {};
    } else {
      RunsKeep(states, steps, i - 1);
      assert Next(states[i - 1], steps[i - 1], states[i - 1 + 1]);
      NextKeeps(states[i - 1], steps[i - 1], states[i]);
    }
  }

  // ---------------------------------------------------------------- identifiers

  /**
   In every run the identifiers in use are the disjoint union of those of stored exchanges, those
   of requests of this generation and those whose release is still owed; none is 0, and none has
   both a PUBLISH and a PUBREL entry.
   */
  lemma IdentifiersExclusive(states: seq<State>, steps: seq<Step>, i: nat, id: PacketId)
    requires Run(states, steps) && i <= |steps|
    ensures var s := states[i];
      && (id in s.ids.used <==> Stored(s.store, id, StoredPublish) || Stored(s.store, id, StoredPubrel)
                                || Hold(id, s.ids.gen) in s.requests || Hold(id, s.ids.gen) in s.owedIds)
      && !(Stored(s.store, id, StoredPublish) && Stored(s.store, id, StoredPubrel))
      && !(id in OutboundIds(s.store) && Hold(id, s.ids.gen) in s.requests + s.owedIds)
      && !(Hold(id, s.ids.gen) in s.requests && Hold(id, s.ids.gen) in s.owedIds)
      && 0 !in s.ids.used
  {
    RunsKeep(states, steps, i);
    var s := states[i];
    assert id in HeldIds(s.requests, s.ids.gen) <==> Hold(id, s.ids.gen) in s.requests;
    assert id in HeldIds(s.owedIds, s.ids.gen) <==> Hold(id, s.ids.gen) in s.owedIds;
  }

  /** A release from before a discarded session changes nothing; one of this session frees its own identifier. */
  lemma StaleReleaseIgnored(states: seq<State>, steps: seq<Step>, i: nat)
    requires Run(states, steps) && i < |steps|
    requires steps[i].ReleaseId? || steps[i].RequestDone?
    ensures steps[i].h.gen < states[i].ids.gen ==> states[i + 1].ids == states[i].ids
    ensures steps[i].h.gen == states[i].ids.gen ==>
      steps[i].h.id in states[i].ids.used && states[i + 1].ids.used == states[i].ids.used - {steps[i].h.id}
  {
    RunsKeep(states, steps, i);
    assert Next(states[i], steps[i], states[i + 1]);
    ReleaseKeeps(states[i], steps[i], states[i + 1]);
  }

  // ---------------------------------------------------------------- flow control

  lemma {:induction false} LimitsStand(states: seq<State>, steps: seq<Step>, i: nat, j: nat)
    requires Run(states, steps) && i <= j <= |steps|
    requires forall k | i <= k < j :: !steps[k].Connect?
    ensures states[j].ceiling == states[i].ceiling && states[j].resumed == states[i].resumed
    ensures states[j].quota.gen == states[i].quota.gen
    decreases j
  {
    if i < j {
      LimitsStand(states, steps, i, j - 1);
      assert !steps[j - 1].Connect?;
      assert Next(states[j - 1], steps[j - 1], states[j - 1 + 1]);
    }
  }

  /**
   From one quota reset to the next, permits free, exchanges in flight and releases owed under
   this generation add up to the larger of the negotiated ceiling and the replay set.
   */
  lemma PermitsConserved(states: seq<State>, steps: seq<Step>, i: nat, j: nat)
    requires Run(states, steps) && i < j <= |steps|
    requires steps[i].Connect? && forall k | i < k < j :: !steps[k].Connect?
    ensures var s := states[j];
      s.quota.avail + InFlight(s.store) + s.owedPermits[s.quota.gen]
        == Max(steps[i].ceiling, InFlight(states[i + 1].store))
    ensures states[j].quota.avail >= 0
  {
    LimitsStand(states, steps, i + 1, j);
    RunsKeep(states, steps, j);
    assert Next(states[i], steps[i], states[i + 1]);
  }

  /** A release owed under an earlier generation leaves the quota alone. */
  lemma StalePermitIgnored(states: seq<State>, steps: seq<Step>, i: nat)
    requires Run(states, steps) && i < |steps| && steps[i].ReleasePermit?
    ensures steps[i].gen < states[i].quota.gen ==> states[i + 1].quota == states[i].quota
    ensures steps[i].gen <= states[i].quota.gen
  {
    RunsKeep(states, steps, i);
    assert Next(states[i], steps[i], states[i + 1]);
  }

  /**
   Unacknowledged sends stay within the negotiated limit for the whole life of a connection
   exactly when the replay set of that connection fits into it.
   */
  lemma UnackedWithinLimit(states: seq<State>, steps: seq<Step>, i: nat, n: nat)
    requires Run(states, steps) && i < n <= |steps|
    requires steps[i].Connect? && forall k | i < k < n :: !steps[k].Connect?
    ensures (forall j | i < j <= n :: InFlight(states[j].store) <= steps[i].ceiling)
      <==> InFlight(states[i + 1].store) <= steps[i].ceiling
  {
    if InFlight(states[i + 1].store) <= steps[i].ceiling {
      forall j | i < j <= n
        ensures InFlight(states[j].store) <= steps[i].ceiling
      {
        PermitsConserved(states, steps, i, j);
      }
    }
  }

  function Connected(s: State, discard: bool, ceiling: nat): State {
    var a := Applied(s, discard, ceiling);
    a.(link := Some(Stamp(a.quota.gen, a.ids.gen)))
  }

  lemma FirstTwoIds()
    ensures AcquireStep(Ids({}, 0, 1), Ids({1}, 2, 1), Ok(1))
    ensures AcquireStep(Ids({1}, 2, 1), Ids({1, 2}, 3, 1), Ok(2))
  {
    assert At(0, 0) == 0 && At(0, 1) == 1 && At(2, 0) == 2;
  }

  lemma SendTwo(s1: State, m1: Message, m2: Message) returns (s2: State, s3: State)
    requires s1 == Connected(INIT, true, 2)
    ensures Next(s1, PublishAttempt(m1, Written, Ok(1)), s2) && Next(s2, PublishAttempt(m2, Written, Ok(2)), s3)
    ensures s3.link.Some? && s3.store.msgs.Keys == {Key(1, StoredPublish), Key(2, StoredPublish)}
  {
    assert Legs(EMPTY.msgs.Keys) == {};
    FirstTwoIds();
    s2 := Prepared(s1, Ids({1}, 2, 1), 1, m1);
    s3 := Prepared(s2, Ids({1, 2}, 3, 1), 2, m2);
    SavedKeys(s1.store, PublishEntry(1, m1));
    SavedKeys(s2.store, PublishEntry(2, m2));
  }

  /** A run goes on by any step its last state allows. */
  lemma Extended(states: seq<State>, steps: seq<Step>, step: Step, t: State)
    returns (states': seq<State>, steps': seq<Step>)
    requires Run(states, steps) && Next(states[|steps|], step, t)
    ensures Run(states', steps') && |steps'| == |steps| + 1 && states'[|steps'|] == t
  {
    states', steps' := states + [t], steps + [step];
  }

  /** Two unacknowledged sends, then a resumed connection that allows one: the limit is exceeded. */
  lemma ReplaySetCanExceedLimit() returns (states: seq<State>, steps: seq<Step>)
    ensures Run(states, steps)
    ensures InFlight(states[|steps|].store) == 2 && states[|steps|].ceiling == 1 && states[|steps|].link.Some?
  {
    var m1, m2 := Message(0, 1), Message(1, 1);
    var s1 := Connected(INIT, true, 2);
    var s2, s3 := SendTwo(s1, m1, m2);
    var s4 := TornDown(s3);
    var s5 := Connected(s4, false, 1);
    assert Legs(s5.store.msgs.Keys) == {Key(1, StoredPublish), Key(2, StoredPublish)};
    states, steps := Extended([INIT], [], Connect(true, 2, true), s1);
    states, steps := Extended(states, steps, PublishAttempt(m1, Written, Ok(1)), s2);
    states, steps := Extended(states, steps, PublishAttempt(m2, Written, Ok(2)), s3);
    states, steps := Extended(states, steps, Drop, s4);
    states, steps := Extended(states, steps, Connect(false, 1, true), s5);
  }
}
