/** Subscribe, its failure and Unsubscribe, interleaved at the registry's critical sections. */
module RegistryRuns {
  import opened Wrappers
  import opened Registry

  datatype Call =
    | Snapped(f: Filter, handler: nat, options: nat, subId: nat, prev: Option<Subscription>)
    | Provisional(f: Filter, prev: Option<Subscription>, token: nat)
    | Unsubscribing(f: Filter, snap: Option<Subscription>)
    | Ended

  /**
   The last registration of a filter. It stands until its own call fails or an Unsubscribe takes
   its snapshot.
   */
  datatype Latest = Latest(call: nat, entry: Subscription, stands: bool)

  /** `made` is the history of registrations: the entry made under token `t` is `made[t - 1]`. */
  datatype State = State(r: Subs, calls: map<nat, Call>, latest: map<Filter, Latest>, made: seq<Subscription>)

  const INIT := State(Subs([], 0), map[], map[], [])

  datatype Step =
    | Snap(c: nat, f: Filter, handler: nat, options: nat, subId: nat)
    | Register(c: nat)
    | Granted(c: nat)
    | Rejected(c: nat)
    | UnsubSnap(c: nat, f: Filter)
    | UnsubRejected(c: nat)
    | Unsubscribed(c: nat)

  function Unsettled(latest: map<Filter, Latest>, f: Filter): map<Filter, Latest> {
    if f in latest then latest[f := latest[f].(stands := false)] else latest
  }

  /** What a call registers under a token. */
  function Entry(k: Call, token: nat): Subscription
    requires k.Snapped?
  {
    Subscription(k.f, k.handler, k.options, token, k.subId)
  }

  ghost predicate Next(s: State, step: Step, t: State) {
    match step
    case Snap(c, f, handler, options, subId) =>
      c !in s.calls && t == s.(calls := s.calls[c := Snapped(f, handler, options, subId, Snapshot(s.r, f))])
    case Register(c) =>
      && c in s.calls && s.calls[c].Snapped?
      && var k := s.calls[c];
         t == State(Added(s.r, k.f, k.options, k.handler, k.subId),
                    s.calls[c := Provisional(k.f, k.prev, s.r.stamp + 1)],
                    s.latest[k.f := Latest(c, Entry(k, s.r.stamp + 1), true)],
                    s.made + [Entry(k, s.r.stamp + 1)])
    case Granted(c) =>
      c in s.calls && s.calls[c].Provisional? && t == s.(calls := s.calls[c := Ended])
    case Rejected(c) =>
      && c in s.calls && s.calls[c].Provisional?
      && var k := s.calls[c];
         t == s.(r := Restored(s.r, k.f, k.prev, k.token),
                 calls := s.calls[c := Ended],
                 latest := if k.f in s.latest && s.latest[k.f].call == c then Unsettled(s.latest, k.f) else s.latest)
    case UnsubSnap(c, f) =>
      && c !in s.calls
      && t == s.(calls := s.calls[c := Unsubscribing(f, Snapshot(s.r, f))], latest := Unsettled(s.latest, f))
    case UnsubRejected(c) =>
      c in s.calls && s.calls[c].Unsubscribing? && t == s.(calls := s.calls[c := Ended])
    case Unsubscribed(c) =>
      && c in s.calls && s.calls[c].Unsubscribing?
      && var k := s.calls[c];
         t == s.(r := if k.snap.Some? then RemovedIfCurrent(s.r, k.f, k.snap.value.token) else s.r,
                 calls := s.calls[c := Ended])
  }

  ghost predicate Run(states: seq<State>, steps: seq<Step>) {
    && |states| == |steps| + 1
    && states[0] == INIT
    && forall i | 0 <= i < |steps| :: Next(states[i], steps[i], states[i + 1])
  }

  /** An entry for `f` that some call registered, up to its subscription identifier. */
  predicate Genuine(made: seq<Subscription>, e: Subscription, f: Filter) {
    && 1 <= e.token <= |made| && e.filter == f
    && e == made[e.token - 1].(subId := e.subId)
  }

  predicate GenuineIfAny(made: seq<Subscription>, e: Option<Subscription>, f: Filter) {
    e.Some? ==> Genuine(made, e.value, f)
  }

  ghost predicate CallSound(s: State, c: nat)
    requires c in s.calls
  {
    match s.calls[c]
    case Snapped(f, _, _, _, prev) => GenuineIfAny(s.made, prev, f)
    case Provisional(f, prev, token) =>
      && GenuineIfAny(s.made, prev, f) && (prev.Some? ==> prev.value.token < token)
      && 1 <= token <= |s.made| && s.made[token - 1].filter == f
      && (f in s.latest && s.latest[f].entry.token == token ==> s.latest[f].call == c)
    case Unsubscribing(f, snap) =>
      && GenuineIfAny(s.made, snap, f)
      && (snap.Some? && f in s.latest && s.latest[f].stands ==> snap.value.token < s.latest[f].entry.token)
    case Ended => true
  }

  /** What calls have in their hands was registered before, and provisional tokens name their own call. */
  ghost predicate CallsSound(s: State) {
    forall c | c in s.calls :: CallSound(s, c)
  }

  ghost predicate LatestSound(s: State) {
    forall f | f in s.latest ::
      && s.latest[f].entry.token <= s.r.stamp && s.latest[f].entry.filter == f
      && (s.latest[f].stands ==> Snapshot(s.r, f) == Some(s.latest[f].entry))
  }

  /** Tokens are issued once: an entry's token tells which registration it came from. */
  ghost predicate ListSound(s: State) {
    && Unique(s.r.list) && |s.made| == s.r.stamp
    && (forall e | e in s.r.list :: Genuine(s.made, e, e.filter))
    && (forall i | 0 <= i < |s.made| :: s.made[i].token == i + 1)
  }

  ghost predicate Inv(s: State) {
    ListSound(s) && CallsSound(s) && LatestSound(s)
  }

  lemma SnapshotGenuine(s: State, f: Filter)
    requires ListSound(s)
    ensures GenuineIfAny(s.made, Snapshot(s.r, f), f)
  {
    if Snapshot(s.r, f).Some? {
      SnapshotMember(s.r, f, Snapshot(s.r, f).value);
    }
  }

  ghost predicate DistinctTokens(list: seq<Subscription>) {
    forall i, j | 0 <= i < j < |list| :: list[i].token != list[j].token
  }

  lemma TokensDistinct(s: State)
    requires ListSound(s)
    ensures DistinctTokens(s.r.list)
  {
    forall i, j | 0 <= i < j < |s.r.list|
      ensures s.r.list[i].token != s.r.list[j].token
    {
      assert s.r.list[i] in s.r.list && s.r.list[j] in s.r.list;
    }
  }

  /** What was registered stays registered history. */
  lemma GenuineGrows(made: seq<Subscription>, e: Subscription, e': Subscription, f: Filter)
    requires Genuine(made, e, f)
    ensures Genuine(made + [e'], e, f)
  {
  }

  lemma RegisterKeepsList(s: State, c: nat, t: State)
    requires ListSound(s) && Next(s, Register(c), t)
    ensures ListSound(t)
  {
    var k := s.calls[c];
    var e := Entry(k, s.r.stamp + 1);
    SnapshotAdded(s.r, k.f, k.options, k.handler, k.subId, k.f);
    forall x | x in t.r.list
      ensures Genuine(t.made, x, x.filter)
    {
      if x != e {
        GenuineGrows(s.made, x, e, x.filter);
      }
    }
  }

  lemma RegisterKeepsCalls(s: State, c: nat, t: State)
    requires Inv(s) && Next(s, Register(c), t)
    ensures CallsSound(t)
  {
    var e := Entry(s.calls[c], s.r.stamp + 1);
    forall d | d in t.calls
      ensures CallSound(t, d)
    {
      assert CallSound(s, d);
    }
  }

  lemma RegisterKeepsLatest(s: State, c: nat, t: State)
    requires Inv(s) && Next(s, Register(c), t)
    ensures LatestSound(t)
  {
    var k := s.calls[c];
    forall g
      ensures Snapshot(t.r, g) == if g == k.f then Some(Entry(k, s.r.stamp + 1)) else Snapshot(s.r, g)
    {
      SnapshotAdded(s.r, k.f, k.options, k.handler, k.subId, g);
    }
  }

  lemma RejectedKeepsList(s: State, c: nat, t: State)
    requires Inv(s) && Next(s, Rejected(c), t)
    ensures ListSound(t)
  {
    var k := s.calls[c];
    assert CallSound(s, c);
    SnapshotRestored(s.r, k.f, k.prev, k.token, k.f);
    FindSpec(s.r.list, k.f);
  }

  lemma RejectedKeepsLatest(s: State, c: nat, t: State)
    requires Inv(s) && Next(s, Rejected(c), t)
    ensures LatestSound(t)
  {
    var k := s.calls[c];
    assert CallSound(s, c);
    forall g
      ensures g in t.latest && t.latest[g].stands ==> Snapshot(t.r, g) == Snapshot(s.r, g)
    {
      SnapshotRestored(s.r, k.f, k.prev, k.token, g);
    }
  }

  /** A step that registers nothing leaves what the other calls hold. */
  lemma CallsKept(s: State, c: nat, t: State)
    requires CallsSound(s) && t.made == s.made && t.calls == s.calls[c := Ended]
    requires forall f :: f in t.latest ==>
      f in s.latest && t.latest[f].(stands := true) == s.latest[f].(stands := true) && (t.latest[f].stands ==> s.latest[f].stands)
    ensures CallsSound(t)
  {
    forall d | d in t.calls
      ensures CallSound(t, d)
    {
      if d != c {
        assert CallSound(s, d);
      }
    }
  }

  lemma UnsubscribedKeeps(s: State, c: nat, t: State)
    requires Inv(s) && Next(s, Unsubscribed(c), t)
    ensures Inv(t)
  {
    var k := s.calls[c];
    if k.snap.Some? {
      SnapshotRemoved(s.r, k.f, k.snap.value.token, k.f);
      forall g
        ensures g in t.latest && t.latest[g].stands ==> Snapshot(t.r, g) == Snapshot(s.r, g)
      {
        SnapshotRemoved(s.r, k.f, k.snap.value.token, g);
      }
    }
  }

  lemma NextKeeps(s: State, step: Step, t: State)
    requires Inv(s) && Next(s, step, t)
    ensures Inv(t)
  {
    match step
    case Snap(_, f, _, _, _) => SnapshotGenuine(s, f);
    case Register(c) =>
      RegisterKeepsList(s, c, t);
      RegisterKeepsCalls(s, c, t);
      RegisterKeepsLatest(s, c, t);
    case Granted(_) =>
    case Rejected(c) =>
      RejectedKeepsList(s, c, t);
      CallsKept(s, c, t);
      RejectedKeepsLatest(s, c, t);
    case UnsubSnap(_, f) => SnapshotGenuine(s, f);
    case UnsubRejected(_) =>
    case Unsubscribed(c) => UnsubscribedKeeps(s, c, t);
  }

  lemma {:induction false} RunsKeep(states: seq<State>, steps: seq<Step>, i: nat)
    requires Run(states, steps) && i <= |steps|
    ensures Inv(states[i]) && DistinctTokens(states[i].r.list)
  {
    if i > 0 {
      RunsKeep(states, steps, i - 1);
      assert Next(states[i - 1], steps[i - 1], states[i - 1 + 1]);
      NextKeeps(states[i - 1], steps[i - 1], states[i]);
    }
    TokensDistinct(states[i]);
  }

  /**
   In every interleaving filters stay unique and tokens within the stamp, and the registration of
   the last Subscribe to start for a filter stays installed while that call has not failed and no
   Unsubscribe has taken its snapshot since.
   */
  lemma LatestStaysInstalled(states: seq<State>, steps: seq<Step>, i: nat, f: Filter)
    requires Run(states, steps) && i <= |steps|
    ensures Unique(states[i].r.list) && Stamped(states[i].r)
    ensures f in states[i].latest && states[i].latest[f].stands ==>
      Snapshot(states[i].r, f) == Some(states[i].latest[f].entry) && states[i].latest[f].entry in states[i].r.list
  {
    RunsKeep(states, steps, i);
    FindSpec(states[i].r.list, f);
  }
}
