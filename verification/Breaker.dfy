/**
 The circuit breaker: its critical sections as functions of the guarded fields, and the object
 whose methods run them under the lock.
 */
module Breaker {
  import opened Wrappers

  datatype Circuit = Closed | Open | HalfOpen

  datatype Change = Change(from: Circuit, to: Circuit)

  /** The epoch a publish was let through under, and whether it holds a probe slot. */
  datatype Admission = Admission(epoch: nat, probe: bool)

  datatype Outcome = Success | Failure | Neutral

  datatype Config = Config(threshold: nat, halfOpenMax: nat, notifies: bool)

  /** The fields guarded by the lock. */
  datatype Core = Core(state: Circuit, epoch: nat, failures: nat, probes: nat, pending: seq<Change>, draining: bool)

  const FRESH := Core(Closed, 0, 0, 0, [], false)

  /** Zero or negative limits fall back to their defaults. */
  function Defaulted(threshold: int, halfOpenMax: int, notifies: bool): Config {
    Config(if threshold <= 0 then 5 else threshold, if halfOpenMax <= 0 then 1 else halfOpenMax, notifies)
  }

  /** Switches the state, starts a new epoch and queues the change; true asks for a drain. */
  function Switched(c: Core, cfg: Config, to: Circuit): (Core, bool) {
    if c.state == to then
      (c, false)
    else
      var c' := c.(state := to, epoch := c.epoch + 1);
      if cfg.notifies then (c'.(pending := c.pending + [Change(c.state, to)]), true) else (c', false)
  }

  /** `elapsed` says whether the recovery timeout of an open circuit is over. */
  function Admitted(c: Core, cfg: Config, elapsed: bool): (Core, Option<Admission>, bool) {
    match c.state
    case Closed => (c, Some(Admission(c.epoch, false)), false)
    case Open =>
      if !elapsed then (c, None, false)
      else
        var (c', fire) := Switched(c, cfg, HalfOpen);
        (c'.(probes := 1), Some(Admission(c'.epoch, true)), fire)
    case HalfOpen =>
      if c.probes >= cfg.halfOpenMax then (c, None, false)
      else (c.(probes := c.probes + 1), Some(Admission(c.epoch, true)), false)
  }

  function RecordedNeutral(c: Core, adm: Admission): (Core, bool) {
    if adm.epoch == c.epoch && adm.probe && c.state == HalfOpen && c.probes > 0
    then (c.(probes := c.probes - 1), false) else (c, false)
  }

  function RecordedSuccess(c: Core, cfg: Config, adm: Admission): (Core, bool) {
    if adm.epoch != c.epoch then (c, false)
    else
      var c := c.(failures := 0);
      if c.state == HalfOpen then
        var (c', fire) := Switched(c, cfg, Closed);
        (c'.(probes := 0), fire)
      else (c, false)
  }

  function RecordedFailure(c: Core, cfg: Config, adm: Admission): (Core, bool) {
    if adm.epoch != c.epoch then (c, false)
    else match c.state
      case HalfOpen =>
        var (c', fire) := Switched(c, cfg, Open);
        (c'.(probes := 0, failures := 0), fire)
      case Closed =>
        var c := c.(failures := c.failures + 1);
        if c.failures >= cfg.threshold then
          var (c', fire) := Switched(c, cfg, Open);
          (c'.(failures := 0), fire)
        else (c, false)
      case Open => (c, false)
  }

  function Recorded(c: Core, cfg: Config, adm: Admission, o: Outcome): (Core, bool) {
    match o
    case Success => RecordedSuccess(c, cfg, adm)
    case Failure => RecordedFailure(c, cfg, adm)
    case Neutral => RecordedNeutral(c, adm)
  }

  /** Claims the drain; false when someone else has it. */
  function Claimed(c: Core): (Core, bool) {
    (c.(draining := true), !c.draining)
  }

  /** The oldest queued change, or the end of the drain when there is none. */
  function Taken(c: Core): (Core, Option<Change>) {
    if c.pending == [] then (c.(draining := false), None) else (c.(pending := c.pending[1..]), Some(c.pending[0]))
  }

  class Breaker {
    const cfg: Config
    var state: Circuit
    var epoch: nat
    var failures: nat
    var probes: nat
    var pending: seq<Change>
    var draining: bool

    ghost function View(): Core
      reads this
    {
      Core(state, epoch, failures, probes, pending, draining)
    }

    constructor (threshold: int, halfOpenMax: int, notifies: bool)
      ensures View() == FRESH && cfg == Defaulted(threshold, halfOpenMax, notifies)
      ensures cfg.threshold > 0 && cfg.halfOpenMax > 0 && cfg.notifies == notifies
      ensures cfg.threshold == (if threshold > 0 then threshold else 5)
      ensures cfg.halfOpenMax == (if halfOpenMax > 0 then halfOpenMax else 1)
    {
      cfg := Defaulted(threshold, halfOpenMax, notifies);
      state, epoch, failures, probes, pending, draining := Closed, 0, 0, 0, [], false;
    }

    method Switch(to: Circuit) returns (fire: bool)
      modifies this`state, this`epoch, this`pending
      ensures (View(), fire) == Switched(old(View()), cfg, to)
    {
      var from := state;
      if from == to {
        return false;
      }
      state := to;
      epoch := epoch + 1;
      if !cfg.notifies {
        return false;
      }
      pending := pending + [Change(from, to)];
      fire := true;
    }

    method Admit(elapsed: bool) returns (adm: Option<Admission>, fire: bool)
      modifies this
      ensures (View(), adm, fire) == Admitted(old(View()), cfg, elapsed)
    {
      match state {
        case Closed =>
          return Some(Admission(epoch, false)), false;
        case Open =>
          if !elapsed {
            return None, false;
          }
          fire := Switch(HalfOpen);
          probes := 1;
          adm := Some(Admission(epoch, true));
        case HalfOpen =>
          if probes >= cfg.halfOpenMax {
            return None, false;
          }
          probes := probes + 1;
          return Some(Admission(epoch, true)), false;
      }
    }

    method RecordSuccess(adm: Admission) returns (fire: bool)
      modifies this
      ensures (View(), fire) == RecordedSuccess(old(View()), cfg, adm)
    {
      if adm.epoch != epoch {
        return false;
      }
      failures := 0;
      if state == HalfOpen {
        fire := Switch(Closed);
        probes := 0;
        return;
      }
      fire := false;
    }

    method RecordFailure(adm: Admission) returns (fire: bool)
      modifies this
      ensures (View(), fire) == RecordedFailure(old(View()), cfg, adm)
    {
      if adm.epoch != epoch {
        return false;
      }
      fire := false;
      match state {
        case HalfOpen =>
          fire := Switch(Open);
          probes := 0;
          failures := 0;
        case Closed =>
          failures := failures + 1;
          if failures >= cfg.threshold {
            fire := Switch(Open);
            failures := 0;
          }
        case Open =>
      }
    }

    method Record(adm: Admission, o: Outcome) returns (fire: bool)
      modifies this
      ensures (View(), fire) == Recorded(old(View()), cfg, adm, o)
    {
      match o {
        case Success => fire := RecordSuccess(adm);
        case Failure => fire := RecordFailure(adm);
        case Neutral =>
          fire := false;
          if adm.epoch == epoch && adm.probe && state == HalfOpen && probes > 0 {
            probes := probes - 1;
          }
      }
    }

    /** The first critical section of a drain: claims it unless someone else is draining. */
    method ClaimDrain() returns (mine: bool)
      modifies this`draining
      ensures (View(), mine) == Claimed(old(View()))
    {
      if draining {
        return false;
      }
      draining := true;
      mine := true;
    }

    /** The loop's critical section: the next change, or the end of the drain when there is none. */
    method TakeChange() returns (next: Option<Change>)
      modifies this`draining, this`pending
      ensures (View(), next) == Taken(old(View()))
    {
      if |pending| == 0 {
        draining := false;
        return None;
      }
      next := Some(pending[0]);
      pending := pending[1..];
    }
  }
}
