/**
 Tearing a link down while another connection is being made: the individual steps of
 `teardownLink`, `Connect` and the publish path, interleaved in every way the locks allow.
 */
module Teardown {
  import opened Wrappers

  type LinkId = nat
  type Caller = nat

  /** How far the once-only teardown of a link has come. */
  datatype Stage = Live | Stopped | SocketClosed | Current | WaitersFailed | QuotaFailed | Cleared | Done

  datatype Link = Link(stage: Stage, published: bool, graceful: bool)

  /** Where the one Connect that can hold the connection lock stands. */
  datatype Connecting =
    | Idle
    | Checked
    | Dialled(l: LinkId)
    | Applied(l: LinkId)
    | Replayed(l: LinkId)
    | Storing(l: LinkId)

  /** A Publish, Subscribe or Unsubscribe call on the link it loaded. */
  datatype Call = Loaded(l: LinkId) | Registered(l: LinkId) | Waiting(l: LinkId) | Returned

  /** `waiters` are the calls in the waiter table, `resolved` those whose channel holds a result. */
  datatype State = State(
    pointer: Option<LinkId>,
    links: seq<Link>,
    connect: Connecting,
    quotaFailed: bool,
    calls: map<Caller, Call>,
    waiters: set<Caller>,
    resolved: set<Caller>,
    signalled: set<LinkId>)

  const INIT := State(None, [], Idle, false, map[], {}, {}, {})

  datatype Step =
    | ConnectCheck
    | ConnectDial(ok: bool)
    | ConnectApply
    | ConnectReplay
    | ConnectStopCheck
    | ConnectStore
    | Begin(l: LinkId, graceful: bool)
    | CloseSocket(l: LinkId)
    | ReadPointer(l: LinkId)
    | FailWaiters(l: LinkId)
    | FailQuota(l: LinkId)
    | ClearPointer(l: LinkId)
    | SignalLost(l: LinkId)
    | Load(p: Caller)
    | Register(p: Caller)
    | WriteOk(p: Caller)
    | WriteFailed(p: Caller)
    | Acked(p: Caller)
    | Return(p: Caller)
    | GiveUp(p: Caller)

  predicate At(s: State, l: LinkId, stage: Stage) {
    l < |s.links| && s.links[l].stage == stage
  }

  function Staged(s: State, l: LinkId, stage: Stage): State
    requires l < |s.links|
  {
    s.(links := s.links[l := s.links[l].(stage := stage)])
  }

  predicate SocketOpen(s: State, l: LinkId) {
    At(s, l, Live) || At(s, l, Stopped)
  }

  ghost predicate ConnectNext(s: State, step: Step, t: State) {
    match step
    case ConnectCheck => s.connect == Idle && s.pointer.None? && t == s.(connect := Checked)
    case ConnectDial(ok) =>
      && s.connect == Checked
      && t == if ok then s.(links := s.links + [Link(Live, false, false)], connect := Dialled(|s.links|))
              else s.(connect := Idle)
    case ConnectApply => s.connect.Dialled? && t == s.(quotaFailed := false, connect := Applied(s.connect.l))
    case ConnectReplay =>
      && s.connect.Applied? && (At(s, s.connect.l, Live) || At(s, s.connect.l, Done))
      && t == s.(connect := Replayed(s.connect.l))
    case ConnectStopCheck =>
      && s.connect.Replayed?
      && t == s.(connect := if At(s, s.connect.l, Live) then Storing(s.connect.l) else Idle)
    case ConnectStore =>
      && s.connect.Storing? && s.connect.l < |s.links|
      && t == s.(pointer := Some(s.connect.l), connect := Idle,
                 links := s.links[s.connect.l := s.links[s.connect.l].(published := true)])
    case _ => false
  }

  /** A link is torn down once it is published, or by the Connect whose replay write failed on it. */
  ghost predicate TeardownNext(s: State, step: Step, t: State) {
    match step
    case Begin(l, graceful) =>
      && At(s, l, Live) && (s.links[l].published || s.connect == Applied(l))
      && t == s.(links := s.links[l := s.links[l].(stage := Stopped, graceful := graceful)])
    case CloseSocket(l) => At(s, l, Stopped) && t == Staged(s, l, SocketClosed)
    case ReadPointer(l) =>
      At(s, l, SocketClosed) && t == Staged(s, l, if s.pointer == Some(l) then Current else Done)
    case FailWaiters(l) =>
      && At(s, l, Current)
      && t == Staged(s, l, WaitersFailed).(waiters := {}, resolved := s.resolved + s.waiters)
    case FailQuota(l) => At(s, l, WaitersFailed) && t == Staged(s, l, QuotaFailed).(quotaFailed := true)
    case ClearPointer(l) => At(s, l, QuotaFailed) && t == Staged(s, l, Cleared).(pointer := None)
    case SignalLost(l) =>
      && At(s, l, Cleared)
      && t == Staged(s, l, Done).(signalled := s.signalled + (if s.links[l].graceful then {} else {l}))
    case _ => false
  }

  ghost predicate CallNext(s: State, step: Step, t: State) {
    match step
    case Load(p) =>
      p !in s.calls && s.pointer.Some? && t == s.(calls := s.calls[p := Loaded(s.pointer.value)])
    case Register(p) =>
      && p in s.calls && s.calls[p].Loaded?
      && t == s.(calls := s.calls[p := Registered(s.calls[p].l)], waiters := s.waiters + {p})
    case WriteOk(p) =>
      && p in s.calls && s.calls[p].Registered? && SocketOpen(s, s.calls[p].l)
      && t == s.(calls := s.calls[p := Waiting(s.calls[p].l)])
    case WriteFailed(p) =>
      && p in s.calls && s.calls[p].Registered?
      && t == s.(calls := s.calls[p := Returned], waiters := s.waiters - {p})
    case Acked(p) => p in s.waiters && t == s.(waiters := s.waiters - {p}, resolved := s.resolved + {p})
    case Return(p) =>
      p in s.calls && s.calls[p].Waiting? && p in s.resolved && t == s.(calls := s.calls[p := Returned])
    case GiveUp(p) =>
      && p in s.calls && s.calls[p].Waiting?
      && t == s.(calls := s.calls[p := Returned], waiters := s.waiters - {p})
    case _ => false
  }

  ghost predicate Next(s: State, step: Step, t: State) {
    ConnectNext(s, step, t) || TeardownNext(s, step, t) || CallNext(s, step, t)
  }

  ghost predicate Run(states: seq<State>, steps: seq<Step>) {
    && |states| == |steps| + 1
    && states[0] == INIT
    && forall i | 0 <= i < |steps| :: Next(states[i], steps[i], states[i + 1])
  }

  // ---------------------------------------------------------------- what every interleaving keeps

  /** Published and not yet unpublished by its teardown. */
  predicate Holds(k: Link) {
    k.published && !k.stage.Cleared? && !k.stage.Done?
  }

  /** The link a Connect in progress is building. */
  function Building(c: Connecting): Option<LinkId> {
    match c
    case Idle => None
    case Checked => None
    case Dialled(l) => Some(l)
    case Applied(l) => Some(l)
    case Replayed(l) => Some(l)
    case Storing(l) => Some(l)
  }

  ghost predicate Links(s: State) {
    && (s.pointer.Some? ==> s.pointer.value < |s.links|)
    && (Building(s.connect).Some? ==> Building(s.connect).value < |s.links|)
    && (s.connect != Idle ==> s.pointer.None?)
    && (forall l: nat | l < |s.links| ::
          && (s.pointer == Some(l) <==> Holds(s.links[l]))
          && (s.links[l].stage in {Current, WaitersFailed, QuotaFailed, Cleared} ==> s.links[l].published)
          && (s.links[l].stage.Live? ==> s.links[l].published || Building(s.connect) == Some(l))
          && (Building(s.connect) == Some(l) ==> !s.links[l].published)
          && (Building(s.connect) == Some(l) && !s.connect.Applied? && !s.connect.Replayed? ==> s.links[l].stage.Live?))
  }

  ghost predicate QuotaState(s: State) {
    && (s.pointer.Some? && s.pointer.value < |s.links| && s.quotaFailed ==> At(s, s.pointer.value, QuotaFailed))
    && (s.connect.Applied? || s.connect.Replayed? || s.connect.Storing? ==> !s.quotaFailed)
  }

  ghost predicate Calls(s: State) {
    && (forall p | p in s.calls && !s.calls[p].Returned? :: s.calls[p].l < |s.links| && s.links[s.calls[p].l].published)
    && (forall p | p in s.calls && (s.calls[p].Registered? || s.calls[p].Waiting?) :: p in s.waiters || p in s.resolved)
    && (forall p | p in s.calls && s.calls[p].Waiting? && p in s.waiters ::
          s.links[s.calls[p].l].stage in {Live, Stopped, SocketClosed, Current})
    && (forall p | p in s.waiters :: p in s.calls)
  }

  ghost predicate Signals(s: State) {
    forall l: nat :: l in s.signalled <==> At(s, l, Done) && s.links[l].published && !s.links[l].graceful
  }

  ghost predicate Inv(s: State) {
    Links(s) && QuotaState(s) && Calls(s) && Signals(s)
  }

  lemma ConnectKeepsLinks(s: State, step: Step, t: State)
    requires Links(s) && ConnectNext(s, step, t)
    ensures Links(t)
  {
  }

  lemma ConnectKeepsRest(s: State, step: Step, t: State)
    requires Links(s) && QuotaState(s) && Calls(s) && ConnectNext(s, step, t)
    ensures QuotaState(t) && Calls(t)
  {
  }

  lemma ConnectKeepsSignals(s: State, step: Step, t: State)
    requires Links(s) && QuotaState(s) && Signals(s) && ConnectNext(s, step, t)
    ensures Signals(t)
  {
  }

  /** A stage that changes neither whether the link is published nor whether it holds the pointer. */
  lemma StageKeepsLinks(s: State, t: State, l: LinkId)
    requires Links(s) && l < |s.links| && |t.links| == |s.links| && t.links == s.links[l := t.links[l]]
    requires t.pointer == s.pointer && t.connect == s.connect
    requires t.links[l].published == s.links[l].published && Holds(t.links[l]) == Holds(s.links[l]) && !t.links[l].stage.Live?
    requires t.links[l].stage in {Current, WaitersFailed, QuotaFailed, Cleared} ==> t.links[l].published
    requires Building(s.connect) == Some(l) ==> s.connect.Applied? || s.connect.Replayed?
    ensures Links(t)
  {
  }

  lemma ClearKeepsLinks(s: State, l: LinkId, t: State)
    requires Links(s) && TeardownNext(s, ClearPointer(l), t)
    ensures Links(t)
  {
    assert s.pointer == Some(l);
  }

  lemma TeardownKeepsLinks(s: State, step: Step, t: State)
    requires Links(s) && TeardownNext(s, step, t)
    ensures Links(t)
  {
    if step.ClearPointer? {
      ClearKeepsLinks(s, step.l, t);
    } else {
      StageKeepsLinks(s, t, step.l);
    }
  }

  lemma TeardownKeepsQuota(s: State, step: Step, t: State)
    requires Links(s) && QuotaState(s) && TeardownNext(s, step, t)
    ensures QuotaState(t)
  {
  }

  /** A stage before the waiters are failed, or of a link nobody waits on. */
  lemma StageKeepsCalls(s: State, t: State, l: LinkId)
    requires Calls(s) && l < |s.links| && |t.links| == |s.links| && t.links == s.links[l := t.links[l]]
    requires t.calls == s.calls && t.waiters == s.waiters && t.resolved == s.resolved
    requires t.links[l].published == s.links[l].published
    requires t.links[l].stage in {Stopped, SocketClosed, Current} || !s.links[l].published
      || s.links[l].stage !in {Live, Stopped, SocketClosed, Current}
    ensures Calls(t)
  {
  }

  lemma FailKeepsCalls(s: State, l: LinkId, t: State)
    requires Links(s) && Calls(s) && TeardownNext(s, FailWaiters(l), t)
    ensures Calls(t)
  {
  }

  lemma TeardownKeepsCalls(s: State, step: Step, t: State)
    requires Links(s) && Calls(s) && TeardownNext(s, step, t)
    ensures Calls(t)
  {
    if step.FailWaiters? {
      FailKeepsCalls(s, step.l, t);
    } else {
      StageKeepsCalls(s, t, step.l);
    }
  }

  /** A stage that is not the end of a published link signals nothing. */
  lemma StageKeepsSignals(s: State, t: State, l: LinkId)
    requires Signals(s) && l < |s.links| && |t.links| == |s.links| && t.links == s.links[l := t.links[l]]
    requires t.signalled == s.signalled && t.links[l].published == s.links[l].published
    requires !s.links[l].stage.Done? && (t.links[l].stage.Done? ==> !t.links[l].published)
    ensures Signals(t)
  {
    forall x: nat
      ensures x in t.signalled <==> At(t, x, Done) && t.links[x].published && !t.links[x].graceful
    {
      assert x in s.signalled <==> At(s, x, Done) && s.links[x].published && !s.links[x].graceful;
    }
  }

  lemma LostKeepsSignals(s: State, l: LinkId, t: State)
    requires Links(s) && Signals(s) && TeardownNext(s, SignalLost(l), t)
    ensures Signals(t)
  {
  }

  lemma TeardownKeepsSignals(s: State, step: Step, t: State)
    requires Links(s) && Signals(s) && TeardownNext(s, step, t)
    ensures Signals(t)
  {
    hide Signals;
    if step.SignalLost? {
      LostKeepsSignals(s, step.l, t);
    } else {
      StageKeepsSignals(s, t, step.l);
    }
  }

  lemma CallKeepsCalls(s: State, step: Step, t: State)
    requires Links(s) && Calls(s) && CallNext(s, step, t)
    ensures Calls(t)
  {
  }

  lemma CallKeepsRest(s: State, step: Step, t: State)
    requires Links(s) && QuotaState(s) && Signals(s) && CallNext(s, step, t)
    ensures Links(t) && QuotaState(t) && Signals(t)
  {
  }

  lemma NextKeeps(s: State, step: Step, t: State)
    requires Inv(s) && Next(s, step, t)
    ensures Inv(t)
  {
    if ConnectNext(s, step, t) {
      ConnectKeepsLinks(s, step, t);
      ConnectKeepsRest(s, step, t);
      ConnectKeepsSignals(s, step, t);
    } else if TeardownNext(s, step, t) {
      TeardownKeepsLinks(s, step, t);
      TeardownKeepsQuota(s, step, t);
      TeardownKeepsCalls(s, step, t);
      TeardownKeepsSignals(s, step, t);
    } else {
      CallKeepsCalls(s, step, t);
      CallKeepsRest(s, step, t);
    }
  }

  lemma {:induction false} RunsKeep(states: seq<State>, steps: seq<Step>, i: nat)
    requires Run(states, steps) && i <= |steps|
    ensures Inv(states[i])
  {
    if i > 0 {
      RunsKeep(states, steps, i - 1);
      assert Next(states[i - 1], steps[i - 1], states[i - 1 + 1]);
      NextKeeps(states[i - 1], steps[i - 1], states[i]);
    }
  }

  /** In every interleaving a published link that is not stopping has a working send quota. */
  lemma LiveLinkHasQuota(states: seq<State>, steps: seq<Step>, i: nat, l: LinkId)
    requires Run(states, steps) && i <= |steps|
    requires states[i].pointer == Some(l) && At(states[i], l, Live)
    ensures !states[i].quotaFailed
  {
    RunsKeep(states, steps, i);
  }

  /** There is never more than one link that is not stopping. */
  lemma OneLiveLink(states: seq<State>, steps: seq<Step>, i: nat, l: LinkId, l': LinkId)
    requires Run(states, steps) && i <= |steps|
    requires At(states[i], l, Live) && At(states[i], l', Live)
    ensures l == l'
  {
    RunsKeep(states, steps, i);
    var s := states[i];
    assert s.pointer == Some(l) <==> Holds(s.links[l]);
    assert s.pointer == Some(l') <==> Holds(s.links[l']);
  }

  /** Tearing down a link that was never published touches nothing but that link. */
  lemma UnpublishedTeardownIsQuiet(states: seq<State>, steps: seq<Step>, i: nat, l: LinkId)
    requires Run(states, steps) && i < |steps| && TeardownNext(states[i], steps[i], states[i + 1])
    requires steps[i].l == l && l < |states[i].links| && !states[i].links[l].published
    ensures states[i + 1] == states[i].(links := states[i + 1].links)
    ensures forall k: nat | k < |states[i].links| && k != l :: k < |states[i + 1].links| && states[i + 1].links[k] == states[i].links[k]
  {
    RunsKeep(states, steps, i);
  }

  /** Failing the waiters of a link reaches no call that waits on another link. */
  lemma FailWaitersHitsOwnLink(states: seq<State>, steps: seq<Step>, i: nat, l: LinkId, p: Caller)
    requires Run(states, steps) && i < |steps| && steps[i] == FailWaiters(l)
    requires p in states[i].waiters && p in states[i].calls && states[i].calls[p].Waiting?
    ensures states[i].calls[p] == Waiting(l)
  {
    RunsKeep(states, steps, i);
    assert Next(states[i], steps[i], states[i + 1]);
    var s := states[i];
    var k := s.calls[p].l;
    assert Holds(s.links[k]) && Holds(s.links[l]);
  }

  /** A call whose frame was written holds a result by the time the pointer to its link is cleared. */
  lemma NoCallStranded(states: seq<State>, steps: seq<Step>, i: nat, p: Caller)
    requires Run(states, steps) && i <= |steps|
    requires p in states[i].calls && states[i].calls[p].Waiting?
    requires states[i].pointer != Some(states[i].calls[p].l)
    ensures p in states[i].resolved
  {
    RunsKeep(states, steps, i);
    var s := states[i];
    var l := s.calls[p].l;
    assert s.pointer == Some(l) <==> Holds(s.links[l]);
  }

  /** The loss is signalled for exactly the published links whose teardown was not a caller's. */
  lemma LossSignalled(states: seq<State>, steps: seq<Step>, i: nat, l: LinkId)
    requires Run(states, steps) && i <= |steps|
    ensures var s := states[i];
      l in s.signalled <==> At(s, l, Done) && s.links[l].published && !s.links[l].graceful
  {
    RunsKeep(states, steps, i);
  }
}
