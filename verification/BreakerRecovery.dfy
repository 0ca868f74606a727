/**
 Recovery of the breaker: from every reachable state a run of admissions, callbacks and one
 success closes the circuit, so no probe slot taken in a half-open epoch locks it out for good.
 */
module BreakerRecovery {
  import opened Wrappers
  import opened Breaker
  import opened BreakerRuns

  lemma {:induction false} FreshProc(used: set<nat>) returns (p: nat)
    ensures p !in used && forall q | q in used :: q < p
    decreases |used|
  {
    if used == {} {
      p := 0;
    } else {
      var q :| q in used;
      p := FreshProc(used - {q});
      p := if p <= q then q + 1 else p;
      assert forall x | x in used :: x == q || x in used - {q};
    }
  }

  /** A longer run that starts with the given one. */
  ghost predicate Extends(cfg: Config, states: seq<State>, steps: seq<Step>, states': seq<State>, steps': seq<Step>) {
    Run(cfg, states', steps') && states <= states' && steps <= steps'
  }

  lemma Extended(cfg: Config, states: seq<State>, steps: seq<Step>, step: Step, t: State)
    returns (states': seq<State>, steps': seq<Step>)
    requires Run(cfg, states, steps) && Next(states[|steps|], cfg, step, t)
    ensures Extends(cfg, states, steps, states', steps') && steps' == steps + [step] && states' == states + [t]
  {
    states', steps' := states + [t], steps + [step];
  }

  predicate Drain(step: Step) {
    step.Claim? || step.Take? || step.Invoke?
  }

  /** How many more callback steps an admitted goroutine takes before it publishes, left alone. */
  function Left(s: State, pr: Proc): nat {
    match pr
    case Firing(_) => 2 * |s.core.pending| + 2
    case Draining(_) => 2 * |s.core.pending| + 1
    case Calling(_, _) => 2 * |s.core.pending| + 2
    case _ => 0
  }

  /** One more callback step of a goroutine that has been admitted and is not publishing yet. */
  lemma DrainStep(cfg: Config, s: State, p: nat, adm: Admission) returns (step: Step, t: State)
    requires p in s.procs && Carried(s.procs[p]) == Some(adm) && s.procs[p] != InFlight(adm)
    ensures Drain(step) && Next(s, cfg, step, t) && t.core.epoch == s.core.epoch && t.core.state == s.core.state
    ensures p in t.procs && Carried(t.procs[p]) == Some(adm) && Left(t, t.procs[p]) < Left(s, s.procs[p])
  {
    match s.procs[p]
    case Firing(next) =>
      var (c, mine) := Claimed(s.core);
      step := Claim(p);
      t := if mine then s.(core := c, procs := s.procs[p := Draining(next)], drainer := Some(p))
           else s.(core := c, procs := s.procs[p := Resumed(next)]);
    case Draining(next) =>
      var (c, change) := Taken(s.core);
      step := Take(p);
      t := match change
        case None => s.(core := c, procs := s.procs[p := Resumed(next)], drainer := None)
        case Some(ch) => s.(core := c, procs := s.procs[p := Calling(ch, next)], inHand := [ch]);
    case Calling(ch, next) =>
      step := Invoke(p);
      t := s.(procs := s.procs[p := Draining(next)], delivered := s.delivered + [ch], inHand := []);
  }

  /** An admitted goroutine gets to publish, whatever callbacks it has to deliver first. */
  lemma {:induction false} GetsToPublish(cfg: Config, states: seq<State>, steps: seq<Step>, p: nat, adm: Admission)
    returns (states': seq<State>, steps': seq<Step>)
    requires Run(cfg, states, steps)
    requires p in states[|steps|].procs && Carried(states[|steps|].procs[p]) == Some(adm)
    ensures Extends(cfg, states, steps, states', steps') && forall k | |steps| <= k < |steps'| :: Drain(steps'[k])
    ensures var s, t := states[|steps|], states'[|steps'|];
      t.core.epoch == s.core.epoch && t.core.state == s.core.state && p in t.procs && t.procs[p] == InFlight(adm)
    decreases Left(states[|steps|], states[|steps|].procs[p])
  {
    var s := states[|steps|];
    if s.procs[p] == InFlight(adm) {
      states', steps' := states, steps;
    } else {
      var step, t := DrainStep(cfg, s, p, adm);
      states', steps' := Extended(cfg, states, steps, step, t);
      states', steps' := GetsToPublish(cfg, states', steps', p, adm);
    }
  }

  /** A goroutine that holds a probe of the current half-open epoch: one that exists, or a new one. */
  lemma HasProbe(cfg: Config, states: seq<State>, steps: seq<Step>)
    returns (states': seq<State>, steps': seq<Step>, p: nat)
    requires Run(cfg, states, steps) && states[|steps|].core.state != Closed
    ensures Extends(cfg, states, steps, states', steps') && |steps'| <= |steps| + 1
    ensures forall k | |steps| <= k < |steps'| :: steps'[k].Enter?
    ensures var t := states'[|steps'|];
      t.core.state == HalfOpen && p in t.procs && Carried(t.procs[p]) == Some(Admission(t.core.epoch, true))
  {
    var s := states[|steps|];
    RunsKeep(cfg, states, steps, |steps|);
    if s.core.state == HalfOpen && s.core.probes >= cfg.halfOpenMax {
      states', steps' := states, steps;
      p :| p in Holders(s.procs, s.core.epoch);
    } else {
      p := FreshProc(s.procs.Keys);
      states', steps' := Extended(cfg, states, steps, Enter(p, true), Entered(s, cfg, p, true));
    }
  }

  /**
   From every reachable state that is not closed, at most one more admission, the callbacks that
   are due to the goroutine with the probe, and the success of that probe close the circuit.
   */
  lemma AlwaysCanClose(cfg: Config, states: seq<State>, steps: seq<Step>)
    returns (states': seq<State>, steps': seq<Step>)
    requires Run(cfg, states, steps) && states[|steps|].core.state != Closed
    ensures Extends(cfg, states, steps, states', steps') && states'[|steps'|].core.state == Closed
    ensures |steps| < |steps'| && steps'[|steps'| - 1].Record? && steps'[|steps'| - 1].o == Success
    ensures forall k | |steps| <= k < |steps'| - 1 :: Drain(steps'[k]) || (k == |steps| && steps'[k].Enter?)
  {
    var p: nat;
    states', steps', p := HasProbe(cfg, states, steps);
    var adm := Admission(states'[|steps'|].core.epoch, true);
    states', steps' := GetsToPublish(cfg, states', steps', p, adm);
    var s := states'[|steps'|];
    states', steps' := Extended(cfg, states', steps', Record(p, Success), AfterRecord(s, cfg, p, adm, Success));
  }
}
