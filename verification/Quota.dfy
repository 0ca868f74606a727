/**
 The send quota: a counting semaphore with generations, whose waiters park on a wake channel
 that every state change closes and replaces.
 */
module Quota {
  /** Wake channels are numbered; every channel below `wake` has been closed. */
  datatype Permits = Permits(avail: int, gen: nat, failed: bool, wake: nat)

  /** What one turn of the acquire loop finds under the lock. */
  datatype Attempt = Granted(gen: nat) | Lost(gen: nat) | Park(ch: nat)

  function Seeded(n: int): Permits {
    Permits(n, 0, false, 0)
  }

  function Broadcast(q: Permits): Permits {
    q.(wake := q.wake + 1)
  }

  function Attempted(q: Permits): (Permits, Attempt) {
    if q.failed then (q, Lost(q.gen))
    else if q.avail > 0 then (q.(avail := q.avail - 1), Granted(q.gen))
    else (q, Park(q.wake))
  }

  function Returned(q: Permits, gen: nat): Permits {
    if gen == q.gen then Broadcast(q.(avail := q.avail + 1)) else q
  }

  function Reseeded(q: Permits, n: int): Permits {
    Broadcast(q.(avail := n, gen := q.gen + 1, failed := false))
  }

  function Failed(q: Permits): Permits {
    Broadcast(q.(failed := true))
  }

  class Semaphore {
    var wake: nat
    var avail: int
    var gen: nat
    var failed: bool

    ghost function View(): Permits
      reads this
    {
      Permits(avail, gen, failed, wake)
    }

    constructor (n: int)
      ensures View() == Seeded(n)
    {
      wake, avail, gen, failed := 0, n, 0, false;
    }

    /** One critical section of the acquire loop. */
    method TryAcquire() returns (a: Attempt)
      modifies this`avail
      ensures (View(), a) == Attempted(old(View()))
    {
      if failed {
        return Lost(gen);
      }
      if avail > 0 {
        avail := avail - 1;
        return Granted(gen);
      }
      a := Park(wake);
    }

    method ReleaseAt(g: nat)
      modifies this`avail, this`wake
      ensures View() == Returned(old(View()), g)
    {
      if g == gen {
        avail := avail + 1;
        WakeAll();
      }
    }

    method Reset(n: int)
      modifies this
      ensures View() == Reseeded(old(View()), n)
    {
      avail := n;
      gen := gen + 1;
      failed := false;
      WakeAll();
    }

    method Fail()
      modifies this`failed, this`wake
      ensures View() == Failed(old(View()))
    {
      failed := true;
      WakeAll();
    }

    /** Closes the wake channel and installs a fresh one. */
    method WakeAll()
      modifies this`wake
      ensures View() == Broadcast(old(View()))
    {
      wake := wake + 1;
    }
  }

  // ---------------------------------------------------------------- every interleaving

  datatype Acquirer = Running | Parked(ch: nat) | Holding(gen: nat) | Gone

  datatype System = System(q: Permits, procs: map<nat, Acquirer>)

  datatype Step =
    | Start(p: nat)
    | Try(p: nat)
    | Wake(p: nat)
    | Cancel(p: nat)
    | Release(gen: nat)
    | Reset(n: nat)
    | Fail

  predicate Is(s: System, p: nat, a: Acquirer) {
    p in s.procs && s.procs[p] == a
  }

  function AfterAttempt(a: Attempt): Acquirer {
    match a
    case Granted(gen) => Holding(gen)
    case Lost(_) => Gone
    case Park(ch) => Parked(ch)
  }

  ghost predicate Next(s: System, step: Step, t: System) {
    match step
    case Start(p) => p !in s.procs && t == s.(procs := s.procs[p := Running])
    case Try(p) =>
      && Is(s, p, Running)
      && var (q, a) := Attempted(s.q);
         t == System(q, s.procs[p := AfterAttempt(a)])
    case Wake(p) =>
      && p in s.procs && s.procs[p].Parked? && s.procs[p].ch < s.q.wake
      && t == s.(procs := s.procs[p := Running])
    case Cancel(p) =>
      && p in s.procs && s.procs[p].Parked?
      && t == s.(procs := s.procs[p := Gone])
    case Release(gen) => t == s.(q := Returned(s.q, gen))
    case Reset(n) => t == s.(q := Reseeded(s.q, n))
    case Fail => t == s.(q := Failed(s.q))
  }

  ghost predicate Run(states: seq<System>, steps: seq<Step>) {
    && |states| == |steps| + 1
    && (exists n: nat :: states[0] == System(Seeded(n), map[]))
    && forall i | 0 <= i < |steps| :: Next(states[i], steps[i], states[i + 1])
  }

  /** Nothing for a parked acquirer to take, unless its channel is already closed. */
  ghost predicate NoLostWakeup(s: System) {
    && s.q.avail >= 0
    && forall p | p in s.procs && s.procs[p].Parked? ::
         s.procs[p].ch <= s.q.wake && (s.procs[p].ch == s.q.wake ==> s.q.avail == 0 && !s.q.failed)
  }

  lemma NextKeepsWakeups(s: System, step: Step, t: System)
    requires NoLostWakeup(s) && Next(s, step, t)
    ensures NoLostWakeup(t)
  {
  }

  /**
   In every interleaving, permits never go negative, and an acquirer parked on a channel that is
   still open has neither a permit to take nor a failure to report.
   */
  lemma {:induction false} NeverLosesWakeup(states: seq<System>, steps: seq<Step>)
    requires Run(states, steps)
    ensures NoLostWakeup(states[|steps|])
    decreases |steps|
  {
    if steps != [] {
      var n := |steps| - 1;
      NeverLosesWakeup(states[..|steps|], steps[..n]);
      assert Next(states[n], steps[n], states[n + 1]);
      NextKeepsWakeups(states[n], steps[n], states[n + 1]);
    }
  }

  /** So a parked acquirer is always able to run again once there is something for it. */
  lemma ParkedCanProceed(states: seq<System>, steps: seq<Step>, p: nat)
    requires Run(states, steps)
    requires p in states[|steps|].procs && states[|steps|].procs[p].Parked?
    requires states[|steps|].q.avail > 0 || states[|steps|].q.failed
    ensures exists t :: Next(states[|steps|], Wake(p), t)
  {
    NeverLosesWakeup(states, steps);
    var s := states[|steps|];
    assert Next(s, Wake(p), s.(procs := s.procs[p := Running]));
  }

  // ---------------------------------------------------------------- what an attempt finds

  /** A failure was announced and no reset came after it. */
  ghost predicate FailedSince(steps: seq<Step>, n: nat)
    requires n <= |steps|
  {
    exists i: nat :: i < n && steps[i] == Fail && forall j | i < j < n :: !steps[j].Reset?
  }

  /** In every interleaving the quota is failed exactly from a failure to the next reset. */
  lemma {:induction false} FailedExactly(states: seq<System>, steps: seq<Step>, n: nat)
    requires Run(states, steps) && n <= |steps|
    ensures states[n].q.failed <==> FailedSince(steps, n)
  {
    if n > 0 {
      FailedExactly(states, steps, n - 1);
      var step := steps[n - 1];
      assert Next(states[n - 1], step, states[n - 1 + 1]);
      if step == Fail {
        assert steps[n - 1] == Fail;
      } else if !step.Reset? && FailedSince(steps, n - 1) {
        var i: nat :| i < n - 1 && steps[i] == Fail && forall j | i < j < n - 1 :: !steps[j].Reset?;
        assert forall j | i < j < n :: !steps[j].Reset?;
      }
    }
  }

  /** The permits free after each step: an attempt takes one, a release of this generation returns one, a reset sets them. */
  ghost predicate Accounts(s: System, step: Step, t: System) {
    t.q.avail == match step
      case Try(p) => if s.q.failed || s.q.avail == 0 then s.q.avail else s.q.avail - 1
      case Release(gen) => if gen == s.q.gen then s.q.avail + 1 else s.q.avail
      case Reset(n) => n
      case _ => s.q.avail
  }

  /**
   In every interleaving an attempt ends with the link lost exactly after a failure with no reset
   since, parks exactly when nothing is free, on a channel that is still open, and otherwise leaves
   with a permit of the current generation.
   */
  lemma TryExactly(states: seq<System>, steps: seq<Step>, n: nat, p: nat)
    requires Run(states, steps) && n < |steps| && steps[n] == Try(p)
    ensures p in states[n + 1].procs
    ensures var s, a := states[n], states[n + 1].procs[p];
      && (a.Gone? <==> FailedSince(steps, n))
      && (a.Parked? <==> !FailedSince(steps, n) && s.q.avail == 0)
      && (a.Parked? ==> a.ch == s.q.wake)
      && (a.Holding? <==> !FailedSince(steps, n) && s.q.avail > 0)
      && (a.Holding? ==> a.gen == s.q.gen)
  {
    FailedExactly(states, steps, n);
    AvailNeverNegative(states, steps, n);
    assert Next(states[n], steps[n], states[n + 1]);
  }

  lemma {:induction false} AvailNeverNegative(states: seq<System>, steps: seq<Step>, n: nat)
    requires Run(states, steps) && n <= |steps|
    ensures states[n].q.avail >= 0
  {
    if n > 0 {
      AvailNeverNegative(states, steps, n - 1);
      assert Next(states[n - 1], steps[n - 1], states[n - 1 + 1]);
    }
  }

  /** Every step of every interleaving accounts for its permits, and a reset outdates all that were out. */
  lemma PermitsAccounted(states: seq<System>, steps: seq<Step>, n: nat)
    requires Run(states, steps) && n < |steps|
    ensures Accounts(states[n], steps[n], states[n + 1])
    ensures states[n + 1].q.gen == states[n].q.gen + (if steps[n].Reset? then 1 else 0)
  {
    AvailNeverNegative(states, steps, n);
    assert Next(states[n], steps[n], states[n + 1]);
  }
}
