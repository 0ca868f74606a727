/**
 What a failed Subscribe leaves behind when other calls interfere: exactly when its filter is as
 it was before, and exactly when the handler of a failed call is installed again.
 */
module RegistryRollback {
  import opened Wrappers
  import opened Registry
  import opened RegistryRuns

  /** The registration with that token is the one installed for the filter. */
  predicate Current(s: State, f: Filter, token: nat) {
    Snapshot(s.r, f).Some? && Snapshot(s.r, f).value.token == token
  }

  function TokenOf(e: Option<Subscription>): Option<nat> {
    match e
    case Some(x) => Some(x.token)
    case None => None
  }

  // ---------------------------------------------------------------- one rejection

  /** The earlier entry comes back with the subscription identifier of the current one. */
  lemma RejectedFilter(s: State, c: nat, t: State)
    requires Inv(s) && Next(s, Rejected(c), t)
    ensures var k := s.calls[c]; var cur := Snapshot(s.r, k.f);
      Snapshot(t.r, k.f) ==
        if !Current(s, k.f, k.token) then cur
        else if k.prev.None? then None
        else Some(k.prev.value.(subId := cur.value.subId))
  {
    var k := s.calls[c];
    assert CallSound(s, c);
    FindSpec(s.r.list, k.f);
    SnapshotRestored(s.r, k.f, k.prev, k.token, k.f);
    if Current(s, k.f, k.token) {
      if k.prev.None? {
        SnapshotCut(s.r, k.f, k.f);
      } else {
        FindSameFilters(s.r.list, t.r.list, k.f);
      }
    }
  }

  /** A filter that a step does not register, roll back or remove keeps its entry. */
  predicate Touches(s: State, step: Step, f: Filter) {
    && (step.Register? || step.Rejected? || step.Unsubscribed?)
    && step.c in s.calls && !s.calls[step.c].Ended? && s.calls[step.c].f == f
  }

  lemma UntouchedFilter(s: State, step: Step, t: State, f: Filter)
    requires Inv(s) && Next(s, step, t) && !Touches(s, step, f)
    ensures Snapshot(t.r, f) == Snapshot(s.r, f)
  {
    match step
    case Register(c) =>
      var k := s.calls[c];
      SnapshotAdded(s.r, k.f, k.options, k.handler, k.subId, f);
    case Rejected(c) =>
      SnapshotRestored(s.r, s.calls[c].f, s.calls[c].prev, s.calls[c].token, f);
    case Unsubscribed(c) =>
      if s.calls[c].snap.Some? {
        SnapshotRemoved(s.r, s.calls[c].f, s.calls[c].snap.value.token, f);
      }
    case _ =>
  }

  // ---------------------------------------------------------------- from registration to rejection

  ghost predicate Failing(states: seq<State>, steps: seq<Step>, i: nat, j: nat, c: nat) {
    Run(states, steps) && i < j < |steps| && steps[i] == Register(c) && steps[j] == Rejected(c)
  }

  lemma {:induction false} CallStays(states: seq<State>, steps: seq<Step>, i: nat, j: nat, c: nat)
    requires Run(states, steps) && i < j <= |steps| && steps[i] == Register(c)
    ensures c in states[i].calls && states[i].calls[c].Snapped? && c in states[j].calls
    ensures states[j].calls[c] == Ended
      || states[j].calls[c] == Provisional(states[i].calls[c].f, states[i].calls[c].prev, states[i].r.stamp + 1)
    decreases j
  {
    assert Next(states[i], steps[i], states[i + 1]);
    if i + 1 < j {
      CallStays(states, steps, i, j - 1, c);
      assert Next(states[j - 1], steps[j - 1], states[j - 1 + 1]);
    }
  }

  /** What a failing call holds from its registration to its rejection. */
  lemma Held(states: seq<State>, steps: seq<Step>, i: nat, j: nat, c: nat)
    requires Failing(states, steps, i, j, c)
    ensures c in states[i].calls && states[i].calls[c].Snapped? && c in states[j].calls
    ensures states[j].calls[c] == Provisional(states[i].calls[c].f, states[i].calls[c].prev, states[i].r.stamp + 1)
  {
    CallStays(states, steps, i, j, c);
    assert Next(states[j], steps[j], states[j + 1]);
  }

  /** A token stands for one registration: equal tokens differ in the subscription identifier at most. */
  lemma SameToken(s: State, a: Subscription, b: Subscription, f: Filter)
    requires Genuine(s.made, a, f) && Genuine(s.made, b, f) && a.token == b.token
    ensures a == b.(subId := a.subId)
  {
  }

  lemma {:induction false} MadeGrows(states: seq<State>, steps: seq<Step>, i: nat, j: nat)
    requires Run(states, steps) && i <= j <= |steps|
    ensures states[i].made <= states[j].made
    decreases j
  {
    if i < j {
      MadeGrows(states, steps, i, j - 1);
      assert Next(states[j - 1], steps[j - 1], states[j - 1 + 1]);
    }
  }

  /**
   A rejected Subscribe leaves its filter as it was before it registered exactly when, at the
   rejection, either its own registration is installed, it took its snapshot of the entry that was
   there when it registered, and the entry's subscription identifier is the same; or another call
   has replaced it, so that the rejection changes nothing, and what is installed is that entry
   already. `UndisturbedRollback` is the case without other calls.
   */
  lemma RollbackExactly(states: seq<State>, steps: seq<Step>, i: nat, j: nat, c: nat)
    requires Failing(states, steps, i, j, c)
    ensures c in states[i].calls && states[i].calls[c].Snapped?
    ensures var k := states[i].calls[c];
      var before, now := Snapshot(states[i].r, k.f), Snapshot(states[j].r, k.f);
      Snapshot(states[j + 1].r, k.f) == before <==>
        if Current(states[j], k.f, states[i].r.stamp + 1)
        then TokenOf(k.prev) == TokenOf(before) && (before.Some? ==> now.value.subId == before.value.subId)
        else now == before
  {
    Held(states, steps, i, j, c);
    RunsKeep(states, steps, i);
    RunsKeep(states, steps, j);
    MadeGrows(states, steps, i, j);
    assert Next(states[j], steps[j], states[j + 1]);
    RejectedFilter(states[j], c, states[j + 1]);
    var k := states[i].calls[c];
    var before := Snapshot(states[i].r, k.f);
    SnapshotGenuine(states[i], k.f);
    assert CallSound(states[i], c);
    if before.Some? && k.prev.Some? && k.prev.value.token == before.value.token {
      SameToken(states[i], k.prev.value, before.value, k.f);
    }
  }

  lemma StepAt(states: seq<State>, steps: seq<Step>, i: nat)
    requires Run(states, steps) && i < |steps|
    ensures Next(states[i], steps[i], states[i + 1]) && Inv(states[i])
  {
    RunsKeep(states, steps, i);
  }

  lemma {:induction false} Undisturbed(states: seq<State>, steps: seq<Step>, i: nat, j: nat, f: Filter)
    requires Run(states, steps) && i <= j <= |steps|
    requires forall m | i <= m < j :: !Touches(states[m], steps[m], f)
    ensures Snapshot(states[j].r, f) == Snapshot(states[i].r, f)
    decreases j
  {
    if i < j {
      assert !Touches(states[j - 1], steps[j - 1], f);
      StepAt(states, steps, j - 1);
      assert |states| == |steps| + 1;
      hide *;
      Undisturbed(states, steps, i, j - 1, f);
      UntouchedFilter(states[j - 1], steps[j - 1], states[j], f);
    }
  }

  lemma {:induction false} SnapStays(states: seq<State>, steps: seq<Step>, q: nat, i: nat, c: nat)
    requires Run(states, steps) && q < i < |steps| && steps[q].Snap? && steps[q].c == c
    requires steps[i] == Register(c)
    ensures c in states[q + 1].calls && c in states[i].calls && states[q + 1].calls[c] == states[i].calls[c]
  {
    SnapKept(states, steps, q, i, c);
    assert Next(states[i], steps[i], states[i + 1]);
  }

  lemma {:induction false} SnapKept(states: seq<State>, steps: seq<Step>, q: nat, i: nat, c: nat)
    requires Run(states, steps) && q < i <= |steps| && steps[q].Snap? && steps[q].c == c
    ensures c in states[q + 1].calls && c in states[i].calls
    ensures states[i].calls[c] == states[q + 1].calls[c] || !states[i].calls[c].Snapped?
    decreases i
  {
    assert Next(states[q], steps[q], states[q + 1]);
    if q + 1 < i {
      SnapKept(states, steps, q, i - 1, c);
      assert Next(states[i - 1], steps[i - 1], states[i - 1 + 1]);
    }
  }

  /**
   A Subscribe whose filter nobody else registers, rolls back or removes between its snapshot and
   its rejection is undone exactly when the filter was new or had the same subscription identifier.
   */
  lemma UndisturbedRollback(states: seq<State>, steps: seq<Step>, q: nat, i: nat, j: nat, c: nat)
    requires Failing(states, steps, i, j, c) && q < i && steps[q].Snap? && steps[q].c == c
    requires forall m | q < m < j && m != i :: !Touches(states[m], steps[m], steps[q].f)
    ensures var f := steps[q].f; var before := Snapshot(states[i].r, f);
      Snapshot(states[j + 1].r, f) == before <==> before.None? || before.value.subId == steps[q].subId
  {
    var f := steps[q].f;
    assert Next(states[q], steps[q], states[q + 1]);
    assert Next(states[i], steps[i], states[i + 1]);
    SnapStays(states, steps, q, i, c);
    Undisturbed(states, steps, q + 1, i, f);
    Undisturbed(states, steps, i + 1, j, f);
    RunsKeep(states, steps, i);
    var k := states[i].calls[c];
    SnapshotAdded(states[i].r, f, k.options, k.handler, k.subId, f);
    RollbackExactly(states, steps, i, j, c);
  }

  /** The steps that leave the registry alone. */
  predicate Quiet(step: Step) {
    !step.Register? && !step.Rejected? && !step.Unsubscribed?
  }

  lemma {:induction false} RegistryStands(states: seq<State>, steps: seq<Step>, i: nat, j: nat)
    requires Run(states, steps) && i <= j <= |steps| && forall m | i <= m < j :: Quiet(steps[m])
    ensures states[j].r == states[i].r
    decreases j
  {
    if i < j {
      RegistryStands(states, steps, i, j - 1);
      assert Next(states[j - 1], steps[j - 1], states[j - 1 + 1]);
      assert Quiet(steps[j - 1]);
    }
  }

  /**
   When no call at all registers, rolls back or removes in between, the whole list is as it was
   before, each entry in its place, exactly under the same condition.
   */
  lemma UndisturbedList(states: seq<State>, steps: seq<Step>, q: nat, i: nat, j: nat, c: nat)
    requires Failing(states, steps, i, j, c) && q < i && steps[q].Snap? && steps[q].c == c
    requires forall m | q < m < j && m != i :: Quiet(steps[m])
    ensures var before := Snapshot(states[i].r, steps[q].f);
      states[j + 1].r.list == states[i].r.list <==> before.None? || before.value.subId == steps[q].subId
  {
    StepAt(states, steps, q);
    StepAt(states, steps, i);
    StepAt(states, steps, j);
    SnapStays(states, steps, q, i, c);
    Held(states, steps, i, j, c);
    RegistryStands(states, steps, q + 1, i);
    RegistryStands(states, steps, i + 1, j);
    hide Run, Inv;
    var k := states[i].calls[c];
    RollbackExact(states[i].r, k.f, k.options, k.handler, k.subId);
  }

  // ---------------------------------------------------------------- handlers of failed calls

  /** The rejection of `d` puts the registration with that token back. */
  predicate Reinstates(s: State, step: Step, f: Filter, token: nat) {
    && step.Rejected? && step.c in s.calls && s.calls[step.c].Provisional?
    && var k := s.calls[step.c];
       k.f == f && TokenOf(k.prev) == Some(token) && Current(s, f, k.token)
  }

  lemma {:induction false} TokenIssued(states: seq<State>, steps: seq<Step>, j: nat, n: nat, c: nat)
    requires Run(states, steps) && j <= n <= |steps|
    requires c in states[j].calls && states[j].calls[c].Provisional?
    ensures 1 <= states[j].calls[c].token <= states[n].r.stamp && states[j].calls[c].token <= |states[n].made|
    ensures states[n].made[states[j].calls[c].token - 1].filter == states[j].calls[c].f
  {
    RunsKeep(states, steps, j);
    RunsKeep(states, steps, n);
    MadeGrows(states, steps, j, n);
    assert CallSound(states[j], c);
  }

  /** One step brings a registration back only by rolling back a call that had replaced it. */
  lemma BackOnlyByRollback(s: State, step: Step, t: State, f: Filter, token: nat)
    requires Inv(s) && Next(s, step, t) && token <= s.r.stamp && !Current(s, f, token)
    ensures Current(t, f, token) <==> Reinstates(s, step, f, token)
  {
    if Touches(s, step, f) {
      var k := s.calls[step.c];
      match step
      case Register(_) => SnapshotAdded(s.r, k.f, k.options, k.handler, k.subId, f);
      case Rejected(_) => RejectedFilter(s, step.c, t);
      case Unsubscribed(_) =>
        if k.snap.Some? {
          RemovedFilter(s.r, f, k.snap.value.token);
        }
    } else {
      UntouchedFilter(s, step, t, f);
    }
  }

  lemma RemovedFilter(r: Subs, f: Filter, token: nat)
    requires Unique(r.list)
    ensures Snapshot(RemovedIfCurrent(r, f, token), f) ==
      if Snapshot(r, f).Some? && Snapshot(r, f).value.token == token then None else Snapshot(r, f)
  {
    FindSpec(r.list, f);
    SnapshotRemoved(r, f, token, f);
    if Find(r.list, f) < |r.list| {
      SnapshotCut(r, f, f);
    }
  }

  /** Its own rejection takes a registration out. */
  lemma GoneWhenRejected(states: seq<State>, steps: seq<Step>, j: nat)
    requires Run(states, steps) && j < |steps| && steps[j].Rejected?
    ensures steps[j].c in states[j].calls && states[j].calls[steps[j].c].Provisional?
    ensures var k := states[j].calls[steps[j].c]; !Current(states[j + 1], k.f, k.token)
  {
    RunsKeep(states, steps, j);
    assert Next(states[j], steps[j], states[j + 1]);
    assert CallSound(states[j], steps[j].c);
    RejectedFilter(states[j], steps[j].c, states[j + 1]);
  }

  /** A new registration of the filter, or an Unsubscribe that had seen the registration with that token. */
  predicate Displaces(s: State, step: Step, f: Filter, token: nat) {
    && (step.Register? || step.Unsubscribed?) && step.c in s.calls
    && match s.calls[step.c] {
      case Snapped(g, _, _, _, _) => step.Register? && g == f
      case Unsubscribing(g, snap) => step.Unsubscribed? && g == f && TokenOf(snap) == Some(token)
      case _ => false
    }
  }

  /** No call can roll back a registration under that token any more. */
  ghost predicate Spent(s: State, token: nat) {
    && token <= s.r.stamp
    && forall c | c in s.calls && s.calls[c].Provisional? :: s.calls[c].token != token
  }

  /** Tokens are issued once, so no two calls hold the same one. */
  ghost predicate OneHolder(s: State) {
    forall c, d | c in s.calls && d in s.calls && s.calls[c].Provisional? && s.calls[d].Provisional?
      && s.calls[c].token == s.calls[d].token :: c == d
  }

  lemma NextOneHolder(s: State, step: Step, t: State)
    requires Inv(s) && OneHolder(s) && Next(s, step, t)
    ensures OneHolder(t)
  {
    if step.Register? {
      forall d | d in s.calls && s.calls[d].Provisional?
        ensures s.calls[d].token <= s.r.stamp
      {
        assert CallSound(s, d);
      }
    }
  }

  lemma {:induction false} RunsOneHolder(states: seq<State>, steps: seq<Step>, i: nat)
    requires Run(states, steps) && i <= |steps|
    ensures OneHolder(states[i])
  {
    if i > 0 {
      RunsOneHolder(states, steps, i - 1);
      StepAt(states, steps, i - 1);
      NextOneHolder(states[i - 1], steps[i - 1], states[i]);
    }
  }

  lemma NextSpent(s: State, step: Step, t: State, token: nat)
    requires Spent(s, token) && Next(s, step, t)
    ensures Spent(t, token)
  {
  }

  /** The rejection of a call spends its token. */
  lemma RejectionSpends(s: State, c: nat, t: State)
    requires Inv(s) && OneHolder(s) && Next(s, Rejected(c), t)
    ensures Spent(t, s.calls[c].token)
  {
    assert CallSound(s, c);
  }

  /** What one step does to a registration whose token is spent. */
  lemma SpentStep(s: State, step: Step, t: State, f: Filter, token: nat)
    requires Inv(s) && Next(s, step, t) && Spent(s, token)
    ensures Current(t, f, token) <==>
      Reinstates(s, step, f, token) || (Current(s, f, token) && !Displaces(s, step, f, token))
  {
    if !Current(s, f, token) {
      BackOnlyByRollback(s, step, t, f, token);
    } else if Touches(s, step, f) {
      var k := s.calls[step.c];
      match step
      case Register(_) => SnapshotAdded(s.r, k.f, k.options, k.handler, k.subId, f);
      case Rejected(_) => RejectedFilter(s, step.c, t);
      case Unsubscribed(_) =>
        if k.snap.Some? {
          RemovedFilter(s.r, f, k.snap.value.token);
        }
    } else {
      UntouchedFilter(s, step, t, f);
    }
  }

  ghost predicate Undisplaced(states: seq<State>, steps: seq<Step>, m: nat, n: nat, f: Filter, token: nat)
    requires |states| == |steps| + 1 && n <= |steps|
  {
    forall l | m < l < n :: !Displaces(states[l], steps[l], f, token)
  }

  /** Put back by some rollback after step `j`, and displaced by no step since. */
  ghost predicate BackSince(states: seq<State>, steps: seq<Step>, j: nat, n: nat, f: Filter, token: nat)
    requires |states| == |steps| + 1 && n <= |steps|
  {
    exists m :: j < m < n && Reinstates(states[m], steps[m], f, token) && Undisplaced(states, steps, m, n, f, token)
  }

  lemma BackUnfolds(states: seq<State>, steps: seq<Step>, j: nat, n: nat, f: Filter, token: nat)
    requires |states| == |steps| + 1 && j < n < |steps|
    ensures BackSince(states, steps, j, n + 1, f, token) <==>
      Reinstates(states[n], steps[n], f, token)
      || (BackSince(states, steps, j, n, f, token) && !Displaces(states[n], steps[n], f, token))
  {
    if Reinstates(states[n], steps[n], f, token) {
      assert Undisplaced(states, steps, n, n + 1, f, token);
    }
    if BackSince(states, steps, j, n + 1, f, token) {
      var m :| j < m < n + 1 && Reinstates(states[m], steps[m], f, token) && Undisplaced(states, steps, m, n + 1, f, token);
      if m < n {
        assert Undisplaced(states, steps, m, n, f, token);
      }
    }
    if BackSince(states, steps, j, n, f, token) && !Displaces(states[n], steps[n], f, token) {
      var m :| j < m < n && Reinstates(states[m], steps[m], f, token) && Undisplaced(states, steps, m, n, f, token);
      assert Undisplaced(states, steps, m, n + 1, f, token);
    }
  }

  lemma SpentAtOnce(states: seq<State>, steps: seq<Step>, j: nat)
    requires Run(states, steps) && j < |steps| && steps[j].Rejected?
    ensures steps[j].c in states[j].calls && states[j].calls[steps[j].c].Provisional?
    ensures Spent(states[j + 1], states[j].calls[steps[j].c].token)
  {
    StepAt(states, steps, j);
    RunsOneHolder(states, steps, j);
    RejectionSpends(states[j], steps[j].c, states[j + 1]);
  }

  lemma {:induction false} SpentSince(states: seq<State>, steps: seq<Step>, j: nat, n: nat, token: nat)
    requires Run(states, steps) && j <= n <= |steps| && Spent(states[j], token)
    ensures Spent(states[n], token)
    decreases n
  {
    if j < n {
      SpentSince(states, steps, j, n - 1, token);
      StepAt(states, steps, n - 1);
      assert |states| == |steps| + 1;
      hide Run, Next, Inv, Spent;
      NextSpent(states[n - 1], steps[n - 1], states[n], token);
    }
  }

  lemma NotBackYet(states: seq<State>, steps: seq<Step>, j: nat)
    requires Run(states, steps) && j < |steps| && steps[j].Rejected?
    ensures steps[j].c in states[j].calls && states[j].calls[steps[j].c].Provisional?
    ensures var k := states[j].calls[steps[j].c];
      !Current(states[j + 1], k.f, k.token) && !BackSince(states, steps, j, j + 1, k.f, k.token)
  {
    GoneWhenRejected(states, steps, j);
  }

  lemma BackByStep(states: seq<State>, steps: seq<Step>, j: nat, n: nat, f: Filter, token: nat)
    requires Run(states, steps) && j < n < |steps| && Spent(states[j + 1], token)
    ensures Current(states[n + 1], f, token) <==>
      Reinstates(states[n], steps[n], f, token)
      || (Current(states[n], f, token) && !Displaces(states[n], steps[n], f, token))
  {
    StepAt(states, steps, n);
    SpentSince(states, steps, j + 1, n, token);
    SpentStep(states[n], steps[n], states[n + 1], f, token);
  }

  lemma {:induction false} BackExactly(states: seq<State>, steps: seq<Step>, j: nat, n: nat, f: Filter, token: nat)
    requires Run(states, steps) && j < n <= |steps| && Spent(states[j + 1], token)
    requires !Current(states[j + 1], f, token) && !BackSince(states, steps, j, j + 1, f, token)
    ensures Current(states[n], f, token) <==> BackSince(states, steps, j, n, f, token)
    decreases n
  {
    assert |states| == |steps| + 1;
    hide *;
    if j + 1 < n {
      var m := n - 1;
      BackExactly(states, steps, j, m, f, token);
      BackByStep(states, steps, j, m, f, token);
      BackUnfolds(states, steps, j, m, f, token);
      assert m + 1 == n;
    }
  }

  /**
   The handler of a failed Subscribe is installed exactly when, after the failure, the rollback of
   a call that had taken it for the earlier entry put it back, and since then no call has registered
   the filter and no Unsubscribe that had seen it has been granted.
   */
  lemma FailedHandlerInstalled(states: seq<State>, steps: seq<Step>, j: nat, n: nat)
    requires Run(states, steps) && j < n <= |steps| && steps[j].Rejected?
    ensures steps[j].c in states[j].calls && states[j].calls[steps[j].c].Provisional?
    ensures var k := states[j].calls[steps[j].c];
      Current(states[n], k.f, k.token) <==> BackSince(states, steps, j, n, k.f, k.token)
  {
    NotBackYet(states, steps, j);
    SpentAtOnce(states, steps, j);
    BackExactly(states, steps, j, n, states[j].calls[steps[j].c].f, states[j].calls[steps[j].c].token);
  }

  /** No Subscribe under way has the registration with that token as its earlier entry. */
  ghost predicate Unheld(s: State, token: nat) {
    forall d | d in s.calls && (s.calls[d].Snapped? || s.calls[d].Provisional?) ::
      TokenOf(s.calls[d].prev) != Some(token)
  }

  lemma NextUnheld(s: State, step: Step, t: State, f: Filter, token: nat)
    requires Inv(s) && Next(s, step, t) && Unheld(s, token)
    requires 1 <= token <= |s.made| && s.made[token - 1].filter == f
    requires step.Snap? && step.f == f ==> !Current(s, f, token)
    ensures Unheld(t, token)
  {
    if step.Snap? {
      SnapshotGenuine(s, step.f);
    }
  }

  lemma JustRegistered(s: State, c: nat, t: State)
    requires Inv(s) && Next(s, Register(c), t)
    ensures Unheld(t, s.r.stamp + 1) && |t.made| == s.r.stamp + 1 && t.made[s.r.stamp].filter == s.calls[c].f
  {
    forall d | d in t.calls && (t.calls[d].Snapped? || t.calls[d].Provisional?)
      ensures TokenOf(t.calls[d].prev) != Some(s.r.stamp + 1)
    {
      assert CallSound(s, d);
    }
  }

  /** What a token was issued for stays on record. */
  lemma OnRecord(states: seq<State>, steps: seq<Step>, i: nat, j: nat, c: nat)
    requires Run(states, steps) && i < j <= |steps| && steps[i] == Register(c)
    requires c in states[i].calls && states[i].calls[c].Snapped?
    ensures states[i].r.stamp + 1 <= |states[j].made|
    ensures states[j].made[states[i].r.stamp].filter == states[i].calls[c].f
  {
    StepAt(states, steps, i);
    MadeGrows(states, steps, i + 1, j);
  }

  /** No Subscribe of the filter takes its snapshot strictly between the two steps. */
  ghost predicate NoSnap(steps: seq<Step>, i: nat, j: nat, f: Filter)
    requires j <= |steps|
  {
    forall q | i < q < j :: !(steps[q].Snap? && steps[q].f == f)
  }

  lemma UnheldStep(states: seq<State>, steps: seq<Step>, i: nat, j: nat, c: nat)
    requires Run(states, steps) && i < j < |steps| && steps[i] == Register(c)
    requires c in states[i].calls && states[i].calls[c].Snapped? && NoSnap(steps, i, j + 1, states[i].calls[c].f)
    requires Unheld(states[j], states[i].r.stamp + 1)
    ensures Unheld(states[j + 1], states[i].r.stamp + 1)
  {
    StepAt(states, steps, j);
    OnRecord(states, steps, i, j, c);
    NextUnheld(states[j], steps[j], states[j + 1], states[i].calls[c].f, states[i].r.stamp + 1);
  }

  lemma {:induction false} UnheldUntilRejected(states: seq<State>, steps: seq<Step>, i: nat, j: nat, c: nat)
    requires Run(states, steps) && i < j <= |steps| && steps[i] == Register(c)
    requires c in states[i].calls && states[i].calls[c].Snapped? && NoSnap(steps, i, j, states[i].calls[c].f)
    ensures Unheld(states[j], states[i].r.stamp + 1)
    decreases j
  {
    if i + 1 == j {
      StepAt(states, steps, i);
      JustRegistered(states[i], c, states[j]);
    } else {
      UnheldUntilRejected(states, steps, i, j - 1, c);
      UnheldStep(states, steps, i, j - 1, c);
    }
  }

  /**
   Without a Subscribe of the same filter that takes its snapshot between the registration and the
   rejection of a call, the handler of the failed call is never installed again.
   */
  lemma {:induction false} OverlapNeeded(states: seq<State>, steps: seq<Step>, i: nat, j: nat, n: nat, c: nat)
    requires Failing(states, steps, i, j, c) && j < n <= |steps|
    requires c in states[i].calls && states[i].calls[c].Snapped? && NoSnap(steps, i, j, states[i].calls[c].f)
    ensures !Current(states[n], states[i].calls[c].f, states[i].r.stamp + 1)
    ensures Unheld(states[n], states[i].r.stamp + 1)
    decreases n
  {
    var f, token := states[i].calls[c].f, states[i].r.stamp + 1;
    Held(states, steps, i, j, c);
    RunsKeep(states, steps, n - 1);
    TokenIssued(states, steps, j, n - 1, c);
    assert Next(states[n - 1], steps[n - 1], states[n - 1 + 1]);
    if j + 1 == n {
      GoneWhenRejected(states, steps, j);
      UnheldUntilRejected(states, steps, i, j, c);
      NextUnheld(states[j], steps[j], states[n], f, token);
    } else {
      OverlapNeeded(states, steps, i, j, n - 1, c);
      NextUnheld(states[n - 1], steps[n - 1], states[n], f, token);
      BackOnlyByRollback(states[n - 1], steps[n - 1], states[n], f, token);
    }
  }

  // ---------------------------------------------------------------- two failures leave a handler

  lemma Extended(states: seq<State>, steps: seq<Step>, step: Step, t: State)
    returns (states': seq<State>, steps': seq<Step>)
    requires Run(states, steps) && Next(states[|steps|], step, t)
    ensures Run(states', steps') && steps' == steps + [step] && states' == states + [t]
  {
    states', steps' := states + [t], steps + [step];
  }

  /** Two overlapping Subscribes of a new filter; the first one's entry and the state when both have registered. */
  lemma TwoRegistered() returns (states: seq<State>, steps: seq<Step>)
    ensures Run(states, steps) && |steps| == 4 && steps[1] == Register(1) && steps[3] == Register(2)
    ensures var s := states[4]; var e := Subscription("f", 1, 0, 1, 0);
      && s.r == Subs([Subscription("f", 2, 0, 2, 0)], 2)
      && 1 in s.calls && s.calls[1] == Provisional("f", None, 1)
      && 2 in s.calls && s.calls[2] == Provisional("f", Some(e), 2)
  {
    var e1, e2 := Subscription("f", 1, 0, 1, 0), Subscription("f", 2, 0, 2, 0);
    var s1 := INIT.(calls := map[1 := Snapped("f", 1, 0, 0, None)]);
    var s2 := State(Subs([e1], 1), map[1 := Provisional("f", None, 1)], map["f" := Latest(1, e1, true)], [e1]);
    var s3 := s2.(calls := s2.calls[2 := Snapped("f", 2, 0, 0, Some(e1))]);
    var s4 := State(Subs([e2], 2), s3.calls[2 := Provisional("f", Some(e1), 2)], map["f" := Latest(2, e2, true)], [e1, e2]);
    assert s2.r == Added(s1.r, "f", 0, 1, 0);
    assert s4.r == Added(s3.r, "f", 0, 2, 0);
    states, steps := Extended([INIT], [], Snap(1, "f", 1, 0, 0), s1);
    states, steps := Extended(states, steps, Register(1), s2);
    states, steps := Extended(states, steps, Snap(2, "f", 2, 0, 0), s3);
    states, steps := Extended(states, steps, Register(2), s4);
  }

  /** Both calls on a new filter fail, with equal subscription identifiers, and the first one's handler is installed. */
  lemma BothFailYetInstalled() returns (states: seq<State>, steps: seq<Step>)
    ensures Run(states, steps) && |steps| == 6
    ensures steps[1] == Register(1) && steps[3] == Register(2) && steps[4] == Rejected(1) && steps[5] == Rejected(2)
    ensures Snapshot(states[1].r, "f") == None
    ensures Snapshot(states[6].r, "f") == Some(Subscription("f", 1, 0, 1, 0))
  {
    states, steps := TwoRegistered();
    var s4 := states[4];
    var e1 := Subscription("f", 1, 0, 1, 0);
    assert Next(states[0], steps[0], states[1]);
    var s5 := s4.(calls := s4.calls[1 := Ended],
                  latest := if "f" in s4.latest && s4.latest["f"].call == 1 then Unsettled(s4.latest, "f") else s4.latest);
    var s6 := s5.(r := Subs([e1], 2), calls := s5.calls[2 := Ended],
                  latest := if "f" in s5.latest && s5.latest["f"].call == 2 then Unsettled(s5.latest, "f") else s5.latest);
    assert Restored(s4.r, "f", None, 1) == s4.r;
    assert Restored(s5.r, "f", Some(e1), 2) == s6.r;
    states, steps := Extended(states, steps, Rejected(1), s5);
    states, steps := Extended(states, steps, Rejected(2), s6);
  }
}
