/** The breaker under any number of concurrent publishes, step by critical section. */
module BreakerRuns {
  import opened Wrappers
  import opened Breaker

  /** What a goroutine does once its drain is over. */
  datatype After = ThenPublish(adm: Admission) | ThenReturn

  datatype Proc =
    | Firing(next: After)
    | Draining(next: After)
    | Calling(ch: Change, next: After)
    | InFlight(adm: Admission)
    | Finished

  /**
   `history` has every transition, `delivered` those whose callback was invoked, `inHand` the one
   taken off the queue and not yet invoked, `drainer` who is draining, `outcomes` what was recorded
   in the current epoch.
   */
  datatype State = State(
    core: Core,
    procs: map<nat, Proc>,
    history: seq<Change>,
    delivered: seq<Change>,
    inHand: seq<Change>,
    drainer: Option<nat>,
    outcomes: seq<Outcome>)

  const INIT := State(FRESH, map[], [], [], [], None, [])

  datatype Step =
    | Enter(p: nat, elapsed: bool)
    | Record(p: nat, o: Outcome)
    | Claim(p: nat)
    | Take(p: nat)
    | Invoke(p: nat)

  function Resumed(a: After): Proc {
    match a
    case ThenPublish(adm) => InFlight(adm)
    case ThenReturn => Finished
  }

  /** The history and the epoch's outcomes after the core moved from `c` to `c'`. */
  function Logged(s: State, c': Core, os: seq<Outcome>): State {
    if c'.epoch == s.core.epoch then s.(core := c', outcomes := s.outcomes + os)
    else s.(core := c', history := s.history + [Change(s.core.state, c'.state)], outcomes := [])
  }

  function Entered(s: State, cfg: Config, p: nat, elapsed: bool): State {
    var (c', adm, fire) := Admitted(s.core, cfg, elapsed);
    var t := Logged(s, c', []);
    match adm
    case None => t.(procs := s.procs[p := Finished])
    case Some(a) => t.(procs := s.procs[p := if fire then Firing(ThenPublish(a)) else InFlight(a)])
  }

  function AfterRecord(s: State, cfg: Config, p: nat, adm: Admission, o: Outcome): State {
    var (c', fire) := Recorded(s.core, cfg, adm, o);
    var t := Logged(s, c', if adm.epoch == s.core.epoch then [o] else []);
    t.(procs := s.procs[p := if fire then Firing(ThenReturn) else Finished])
  }

  ghost predicate Next(s: State, cfg: Config, step: Step, t: State) {
    match step
    case Enter(p, elapsed) => p !in s.procs && t == Entered(s, cfg, p, elapsed)
    case Record(p, o) =>
      p in s.procs && s.procs[p].InFlight? && t == AfterRecord(s, cfg, p, s.procs[p].adm, o)
    case Claim(p) =>
      && p in s.procs && s.procs[p].Firing?
      && var (c, mine) := Claimed(s.core);
         t == if mine
              then s.(core := c, procs := s.procs[p := Draining(s.procs[p].next)], drainer := Some(p))
              else s.(core := c, procs := s.procs[p := Resumed(s.procs[p].next)])
    case Take(p) =>
      && p in s.procs && s.procs[p].Draining?
      && var (c, change) := Taken(s.core);
         t == match change {
           case None => s.(core := c, procs := s.procs[p := Resumed(s.procs[p].next)], drainer := None)
           case Some(ch) => s.(core := c, procs := s.procs[p := Calling(ch, s.procs[p].next)], inHand := [ch])
         }
    case Invoke(p) =>
      && p in s.procs && s.procs[p].Calling?
      && t == s.(procs := s.procs[p := Draining(s.procs[p].next)],
                 delivered := s.delivered + [s.procs[p].ch], inHand := [])
  }

  ghost predicate Run(cfg: Config, states: seq<State>, steps: seq<Step>) {
    && cfg.threshold > 0 && cfg.halfOpenMax > 0
    && |states| == |steps| + 1
    && states[0] == INIT
    && forall i | 0 <= i < |steps| :: Next(states[i], cfg, steps[i], states[i + 1])
  }

  // ---------------------------------------------------------------- callback delivery

  predicate Drains(pr: Proc) {
    pr.Draining? || pr.Calling?
  }

  /** Every transition starts where the one before it ended. */
  ghost predicate Chain(h: seq<Change>, now: Circuit) {
    && (h == [] ==> now == Closed)
    && (h != [] ==> h[0].from == Closed && h[|h| - 1].to == now)
    && (forall i | 0 < i < |h| :: h[i].from == h[i - 1].to)
  }

  ghost predicate Delivery(s: State, cfg: Config) {
    && Chain(s.history, s.core.state)
    && (cfg.notifies ==> s.history == s.delivered + s.inHand + s.core.pending)
    && (!cfg.notifies ==> s.core.pending == [])
  }

  /** The drain flag is up exactly while one goroutine drains, and only that one has a change in hand. */
  ghost predicate OneDrainer(s: State) {
    && (s.core.draining <==> s.drainer.Some?)
    && (s.drainer.Some? ==> s.drainer.value in s.procs && Drains(s.procs[s.drainer.value]))
    && (forall p | p in s.procs && Drains(s.procs[p]) :: s.drainer == Some(p))
    && (forall p | p in s.procs && s.procs[p].Calling? :: s.inHand == [s.procs[p].ch])
    && (s.inHand != [] ==> s.drainer.Some? && s.procs[s.drainer.value].Calling?)
  }

  predicate Fires(s: State, p: nat) {
    p in s.procs && s.procs[p].Firing?
  }

  /** A queued change has someone delivering it, or someone about to. */
  ghost predicate Attended(s: State) {
    s.core.pending != [] ==> s.core.draining || exists p :: Fires(s, p)
  }

  /** A critical section of `admit` or `record`: at most one transition, queued and announced by `fire`. */
  ghost predicate Moves(c: Core, c': Core, cfg: Config, fire: bool) {
    && c'.draining == c.draining
    && (c'.epoch == c.epoch ==> c'.state == c.state && c'.pending == c.pending && !fire)
    && (c'.epoch != c.epoch ==>
          && c'.epoch == c.epoch + 1 && c'.state != c.state && fire == cfg.notifies
          && c'.pending == c.pending + (if cfg.notifies then [Change(c.state, c'.state)] else []))
  }

  lemma AdmittedMoves(c: Core, cfg: Config, elapsed: bool)
    ensures Moves(c, Admitted(c, cfg, elapsed).0, cfg, Admitted(c, cfg, elapsed).2)
    ensures Admitted(c, cfg, elapsed).1.None? ==> !Admitted(c, cfg, elapsed).2
  {
  }

  lemma RecordedMoves(c: Core, cfg: Config, adm: Admission, o: Outcome)
    ensures Moves(c, Recorded(c, cfg, adm, o).0, cfg, Recorded(c, cfg, adm, o).1)
  {
  }

  /** The step of a goroutine that enters or records: it is left firing when it made a transition. */
  ghost predicate Publishes(s: State, t: State, cfg: Config, p: nat, os: seq<Outcome>) {
    && (p in s.procs ==> s.procs[p].InFlight?)
    && p in t.procs && !Drains(t.procs[p])
    && Moves(s.core, t.core, cfg, t.procs[p].Firing?)
    && t == Logged(s, t.core, os).(procs := s.procs[p := t.procs[p]])
  }

  lemma StepPublishes(s: State, cfg: Config, step: Step, t: State) returns (os: seq<Outcome>)
    requires (step.Enter? || step.Record?) && Next(s, cfg, step, t)
    ensures Publishes(s, t, cfg, step.p, os)
  {
    match step
    case Enter(p, elapsed) =>
      AdmittedMoves(s.core, cfg, elapsed);
      os := [];
    case Record(p, o) =>
      RecordedMoves(s.core, cfg, s.procs[p].adm, o);
      os := if s.procs[p].adm.epoch == s.core.epoch then [o] else [];
  }

  lemma PublishKeepsDelivery(s: State, cfg: Config, p: nat, t: State, os: seq<Outcome>)
    requires Delivery(s, cfg) && Publishes(s, t, cfg, p, os)
    ensures Delivery(t, cfg)
  {
  }

  lemma PublishKeepsDrainer(s: State, cfg: Config, p: nat, t: State, os: seq<Outcome>)
    requires OneDrainer(s) && Attended(s) && Publishes(s, t, cfg, p, os)
    ensures OneDrainer(t) && Attended(t)
  {
    if t.core.epoch != s.core.epoch && cfg.notifies {
      assert Fires(t, p);
    } else if s.core.pending != [] && !s.core.draining {
      var q :| Fires(s, q);
      assert Fires(t, q);
    }
  }

  lemma DrainKeepsDelivery(s: State, cfg: Config, step: Step, t: State)
    requires Delivery(s, cfg) && OneDrainer(s) && (step.Claim? || step.Take? || step.Invoke?) && Next(s, cfg, step, t)
    ensures Delivery(t, cfg)
  {
  }

  lemma DrainKeepsDrainer(s: State, cfg: Config, step: Step, t: State)
    requires OneDrainer(s) && Attended(s) && (step.Claim? || step.Take? || step.Invoke?) && Next(s, cfg, step, t)
    ensures OneDrainer(t) && Attended(t)
  {
  }

  // ---------------------------------------------------------------- epochs

  function Carried(pr: Proc): Option<Admission> {
    match pr
    case InFlight(adm) => Some(adm)
    case Finished => None
    case _ => if pr.next.ThenPublish? then Some(pr.next.adm) else None
  }

  /** The goroutines that hold a probe slot of the current epoch. */
  function Holders(procs: map<nat, Proc>, epoch: nat): set<nat> {
    set p | p in procs && Carried(procs[p]) == Some(Admission(epoch, true))
  }

  /** The failures at the end of the recorded outcomes, neutral ones ignored. */
  function Streak(os: seq<Outcome>): nat {
    if os == [] then 0
    else match os[|os| - 1]
      case Success => 0
      case Failure => Streak(os[..|os| - 1]) + 1
      case Neutral => Streak(os[..|os| - 1])
  }

  lemma StreakSnoc(os: seq<Outcome>, o: Outcome)
    ensures Streak(os + [o]) == match o case Success => 0 case Failure => Streak(os) + 1 case Neutral => Streak(os)
  {
    assert (os + [o])[..|os|] == os;
  }

  /** Admissions never come from a later epoch, and those of this one are probes exactly in half-open. */
  ghost predicate Admissions(s: State) {
    forall p | p in s.procs && Carried(s.procs[p]).Some? ::
      var adm := Carried(s.procs[p]).value;
      && adm.epoch <= s.core.epoch
      && (adm.epoch == s.core.epoch ==> s.core.state != Open && (adm.probe <==> s.core.state == HalfOpen))
  }

  ghost predicate Counters(s: State, cfg: Config) {
    && s.core.probes == (if s.core.state == HalfOpen then |Holders(s.procs, s.core.epoch)| else 0)
    && s.core.probes <= cfg.halfOpenMax
    && s.core.failures == (if s.core.state == Closed then Streak(s.outcomes) else 0)
    && s.core.failures < cfg.threshold
  }

  lemma NobodyAhead(s: State)
    requires Admissions(s)
    ensures Holders(s.procs, s.core.epoch + 1) == {}
  {
  }

  lemma HoldersUpdated(procs: map<nat, Proc>, p: nat, pr: Proc, epoch: nat)
    ensures Holders(procs[p := pr], epoch) ==
      if Carried(pr) == Some(Admission(epoch, true)) then Holders(procs, epoch) + {p} else Holders(procs, epoch) - {p}
  {
  }

  lemma EnterKeepsAdmissions(s: State, cfg: Config, p: nat, elapsed: bool, t: State)
    requires Admissions(s) && Next(s, cfg, Enter(p, elapsed), t)
    ensures Admissions(t)
  {
    AdmittedMoves(s.core, cfg, elapsed);
  }

  /** The first probe of a half-open epoch is its only holder. */
  lemma FirstProbe(s: State, cfg: Config, p: nat, t: State)
    requires cfg.halfOpenMax > 0 && s.core.state == Open
    requires Admissions(s) && Counters(s, cfg) && Next(s, cfg, Enter(p, true), t)
    ensures Counters(t, cfg)
  {
    NobodyAhead(s);
    HoldersUpdated(s.procs, p, t.procs[p], s.core.epoch + 1);
    assert Holders(t.procs, t.core.epoch) == {p};
  }

  lemma LaterProbe(s: State, cfg: Config, p: nat, elapsed: bool, t: State)
    requires s.core.state != Open || !elapsed
    requires Counters(s, cfg) && Next(s, cfg, Enter(p, elapsed), t)
    ensures Counters(t, cfg)
  {
    assert s.outcomes + [] == s.outcomes;
    assert p !in Holders(s.procs, s.core.epoch);
    HoldersUpdated(s.procs, p, t.procs[p], s.core.epoch);
  }

  lemma RecordKeepsAdmissions(s: State, cfg: Config, p: nat, o: Outcome, t: State)
    requires Admissions(s) && Next(s, cfg, Record(p, o), t)
    ensures Admissions(t)
  {
    RecordedMoves(s.core, cfg, s.procs[p].adm, o);
    assert Carried(t.procs[p]).None?;
  }

  /** A stale outcome moves no counter. */
  lemma StaleRecordKeepsCounters(s: State, cfg: Config, p: nat, o: Outcome, t: State)
    requires Counters(s, cfg) && Next(s, cfg, Record(p, o), t) && s.procs[p].adm.epoch != s.core.epoch
    ensures Counters(t, cfg)
  {
    assert s.outcomes + [] == s.outcomes;
    HoldersUpdated(s.procs, p, t.procs[p], s.core.epoch);
    assert p !in Holders(s.procs, s.core.epoch);
  }

  /** An outcome of this epoch returns its probe slot or extends its streak, as the state demands. */
  lemma RecordKeepsCounters(s: State, cfg: Config, p: nat, o: Outcome, t: State)
    requires cfg.threshold > 0
    requires Admissions(s) && Counters(s, cfg) && Next(s, cfg, Record(p, o), t)
    requires s.procs[p].adm.epoch == s.core.epoch
    ensures Counters(t, cfg)
  {
    StreakSnoc(s.outcomes, o);
    HoldersUpdated(s.procs, p, t.procs[p], s.core.epoch);
    if s.core.state == HalfOpen {
      assert p in Holders(s.procs, s.core.epoch);
    }
  }

  /** A step of the drain changes neither the circuit nor who carries which admission. */
  lemma DrainIsQuiet(s: State, cfg: Config, step: Step, t: State)
    requires (step.Claim? || step.Take? || step.Invoke?) && Next(s, cfg, step, t)
    ensures t.core.(pending := s.core.pending, draining := s.core.draining) == s.core && t.outcomes == s.outcomes
    ensures step.p in s.procs && step.p in t.procs && t.procs == s.procs[step.p := t.procs[step.p]]
    ensures Carried(t.procs[step.p]) == Carried(s.procs[step.p])
  {
  }

  lemma DrainKeepsEpochs(s: State, cfg: Config, step: Step, t: State)
    requires Admissions(s) && Counters(s, cfg)
    requires (step.Claim? || step.Take? || step.Invoke?) && Next(s, cfg, step, t)
    ensures Admissions(t) && Counters(t, cfg)
  {
    DrainIsQuiet(s, cfg, step, t);
    SameCarriers(s, t, cfg, step.p);
  }

  lemma SameCarriers(s: State, t: State, cfg: Config, p: nat)
    requires Admissions(s) && Counters(s, cfg)
    requires t.core.(pending := s.core.pending, draining := s.core.draining) == s.core && t.outcomes == s.outcomes
    requires p in s.procs && p in t.procs && t.procs == s.procs[p := t.procs[p]]
    requires Carried(t.procs[p]) == Carried(s.procs[p])
    ensures Admissions(t) && Counters(t, cfg)
  {
    assert Holders(t.procs, t.core.epoch) == Holders(s.procs, s.core.epoch);
  }

  ghost predicate Inv(s: State, cfg: Config) {
    Delivery(s, cfg) && OneDrainer(s) && Attended(s) && Admissions(s) && Counters(s, cfg)
  }

  lemma NextKeeps(s: State, cfg: Config, step: Step, t: State)
    requires cfg.threshold > 0 && cfg.halfOpenMax > 0
    requires Inv(s, cfg) && Next(s, cfg, step, t)
    ensures Inv(t, cfg)
  {
    if step.Enter? || step.Record? {
      var os := StepPublishes(s, cfg, step, t);
      PublishKeepsDelivery(s, cfg, step.p, t, os);
      PublishKeepsDrainer(s, cfg, step.p, t, os);
      if step.Enter? {
        EnterKeepsAdmissions(s, cfg, step.p, step.elapsed, t);
        if s.core.state == Open && step.elapsed {
          FirstProbe(s, cfg, step.p, t);
        } else {
          LaterProbe(s, cfg, step.p, step.elapsed, t);
        }
      } else {
        RecordKeepsAdmissions(s, cfg, step.p, step.o, t);
        if s.procs[step.p].adm.epoch == s.core.epoch {
          RecordKeepsCounters(s, cfg, step.p, step.o, t);
        } else {
          StaleRecordKeepsCounters(s, cfg, step.p, step.o, t);
        }
      }
    } else {
      DrainKeepsDelivery(s, cfg, step, t);
      DrainKeepsDrainer(s, cfg, step, t);
      DrainKeepsEpochs(s, cfg, step, t);
    }
  }

  lemma {:induction false} RunsKeep(cfg: Config, states: seq<State>, steps: seq<Step>, i: nat)
    requires Run(cfg, states, steps) && i <= |steps|
    ensures Inv(states[i], cfg)
  {
    if i > 0 {
      RunsKeep(cfg, states, steps, i - 1);
      assert Next(states[i - 1], cfg, steps[i - 1], states[i - 1 + 1]);
      NextKeeps(states[i - 1], cfg, steps[i - 1], states[i]);
    }
  }

  // ---------------------------------------------------------------- results

  /**
   In every interleaving callbacks run in transition order without gaps, by one goroutine at a
   time, and a queued change always has someone delivering it or about to.
   */
  lemma CallbacksInOrder(cfg: Config, states: seq<State>, steps: seq<Step>, i: nat)
    requires Run(cfg, states, steps) && i <= |steps| && cfg.notifies
    ensures var s := states[i];
      && s.delivered <= s.history && Chain(s.history, s.core.state)
      && s.history == s.delivered + s.inHand + s.core.pending
      && (forall p, q | p in s.procs && q in s.procs && Drains(s.procs[p]) && Drains(s.procs[q]) :: p == q)
      && Attended(s)
  {
    RunsKeep(cfg, states, steps, i);
    var s := states[i];
    assert s.history == s.delivered + (s.inHand + s.core.pending);
  }

  /** Once every publish has returned, every transition has been delivered. */
  lemma NothingUndelivered(cfg: Config, states: seq<State>, steps: seq<Step>, i: nat)
    requires Run(cfg, states, steps) && i <= |steps| && cfg.notifies
    requires forall p | p in states[i].procs :: states[i].procs[p] == Finished
    ensures states[i].delivered == states[i].history && states[i].core.pending == []
  {
    RunsKeep(cfg, states, steps, i);
    var s := states[i];
    assert forall p :: !Fires(s, p);
    assert s.drainer.None?;
  }

  /** In half-open the probe counter is the number of outstanding probes of this epoch, within its limit. */
  lemma ProbesCounted(cfg: Config, states: seq<State>, steps: seq<Step>, i: nat)
    requires Run(cfg, states, steps) && i <= |steps| && states[i].core.state == HalfOpen
    ensures states[i].core.probes == |Holders(states[i].procs, states[i].core.epoch)| <= cfg.halfOpenMax
  {
    RunsKeep(cfg, states, steps, i);
  }

  /** The circuit closes only when a probe admitted in this very half-open epoch succeeds. */
  lemma ClosesOnOwnProbe(cfg: Config, states: seq<State>, steps: seq<Step>, i: nat)
    requires Run(cfg, states, steps) && i < |steps|
    ensures var s, t := states[i], states[i + 1];
      (s.core.state != Closed && t.core.state == Closed) <==>
      && s.core.state == HalfOpen && steps[i].Record? && steps[i].o == Success
      && steps[i].p in s.procs && s.procs[steps[i].p] == InFlight(Admission(s.core.epoch, true))
  {
    RunsKeep(cfg, states, steps, i);
    assert Next(states[i], cfg, steps[i], states[i + 1]);
  }

  /** What one record does to a closed circuit. */
  lemma ClosedRecord(s: State, cfg: Config, p: nat, o: Outcome, t: State)
    requires Counters(s, cfg) && s.core.state == Closed && Next(s, cfg, Record(p, o), t)
    ensures t.core.state != HalfOpen
    ensures t.core.state == Open <==>
      s.procs[p].adm.epoch == s.core.epoch && Streak(s.outcomes + [o]) >= cfg.threshold
  {
    StreakSnoc(s.outcomes, o);
  }

  /**
   A closed circuit opens exactly when the outcomes recorded in its epoch, neutral ones ignored,
   end in as many failures as the threshold asks for.
   */
  lemma OpensOnStreak(cfg: Config, states: seq<State>, steps: seq<Step>, i: nat)
    requires Run(cfg, states, steps) && i < |steps| && states[i].core.state == Closed
    ensures var s, t := states[i], states[i + 1];
      t.core.state == Open <==>
      && steps[i].Record? && steps[i].p in s.procs && s.procs[steps[i].p] == InFlight(Admission(s.core.epoch, false))
      && Streak(s.outcomes + [steps[i].o]) >= cfg.threshold
    ensures states[i + 1].core.state != HalfOpen
  {
    RunsKeep(cfg, states, steps, i);
    var s, step, t := states[i], steps[i], states[i + 1];
    assert Next(s, cfg, step, t);
    if step.Record? {
      ClosedRecord(s, cfg, step.p, step.o, t);
    }
  }

  /** A half-open circuit opens again exactly when a probe admitted in this very epoch fails. */
  lemma ReopensOnOwnProbe(cfg: Config, states: seq<State>, steps: seq<Step>, i: nat)
    requires Run(cfg, states, steps) && i < |steps| && states[i].core.state == HalfOpen
    ensures var s, t := states[i], states[i + 1];
      t.core.state == Open <==>
      && steps[i].Record? && steps[i].o == Failure
      && steps[i].p in s.procs && s.procs[steps[i].p] == InFlight(Admission(s.core.epoch, true))
  {
    RunsKeep(cfg, states, steps, i);
    assert Next(states[i], cfg, steps[i], states[i + 1]);
  }

  /** An open circuit is left exactly by a publish that enters after the recovery timeout, as the first probe. */
  lemma LeavesOpenByFirstProbe(cfg: Config, states: seq<State>, steps: seq<Step>, i: nat)
    requires Run(cfg, states, steps) && i < |steps| && states[i].core.state == Open
    ensures var s, t := states[i], states[i + 1];
      && (t.core.state != Open <==> steps[i].Enter? && steps[i].elapsed)
      && (t.core.state != Open ==>
            t.core.state == HalfOpen && steps[i].p in t.procs && Holders(t.procs, t.core.epoch) == {steps[i].p})
  {
    RunsKeep(cfg, states, steps, i);
    var s, step, t := states[i], steps[i], states[i + 1];
    assert Next(s, cfg, step, t);
    if step.Enter? && step.elapsed {
      NobodyAhead(s);
      HoldersUpdated(s.procs, step.p, t.procs[step.p], s.core.epoch + 1);
    }
  }

  /**
   Who is let through: everyone while the circuit is closed, the first to come after the recovery
   timeout while it is open, and while it is half-open as many as there are probe slots left. All
   others are turned away for good.
   */
  lemma AdmitsExactly(cfg: Config, states: seq<State>, steps: seq<Step>, i: nat)
    requires Run(cfg, states, steps) && i < |steps| && steps[i].Enter?
    ensures var s, t, p := states[i], states[i + 1], steps[i].p;
      && p in t.procs
      && Carried(t.procs[p]) == (match s.core.state
           case Closed => Some(Admission(s.core.epoch, false))
           case Open => if steps[i].elapsed then Some(Admission(t.core.epoch, true)) else None
           case HalfOpen =>
             if |Holders(s.procs, s.core.epoch)| < cfg.halfOpenMax then Some(Admission(s.core.epoch, true)) else None)
      && (Carried(t.procs[p]).None? ==> t.procs[p] == Finished && t.core == s.core)
  {
    RunsKeep(cfg, states, steps, i);
    assert Next(states[i], cfg, steps[i], states[i + 1]);
  }

  /** Epochs count transitions. */
  lemma {:induction false} EpochsCountTransitions(cfg: Config, states: seq<State>, steps: seq<Step>, i: nat)
    requires Run(cfg, states, steps) && i <= |steps|
    ensures states[i].core.epoch == |states[i].history|
  {
    if i > 0 {
      EpochsCountTransitions(cfg, states, steps, i - 1);
      var s, step, t := states[i - 1], steps[i - 1], states[i];
      assert Next(s, cfg, step, states[i - 1 + 1]);
      if step.Enter? || step.Record? {
        var _ := StepPublishes(s, cfg, step, t);
      }
    }
  }
}
