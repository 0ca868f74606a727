/**
 The order of a replay over session runs: a resumed connection re-sends PUBLISHes in the order of
 the attempts that sent them first, and PUBRELs in the order their PUBRECs were handled.
 */
module ReplayOrder {
  import opened Wrappers
  import opened IdAllocator
  import opened Store
  import opened Session
  import opened SessionRuns
  import Qos2

  /** The step that stored the entry which is under `k` in state `n`. */
  ghost function Born(states: seq<State>, n: nat, k: Key): nat
    requires n < |states| && k in states[n].store.msgs
  {
    if n == 0 then 0 else if k in states[n - 1].store.msgs then Born(states, n - 1, k) else n - 1
  }

  /** What makes an entry of each outbound kind. */
  ghost predicate Makes(s: State, step: Step, e: StoredMessage) {
    match e.kind
    case StoredPublish =>
      step.PublishAttempt? && step.outcome.Written? && step.r == Ok(e.id) && e.publish == Some(step.msg)
    case StoredPubrel =>
      step.Receive? && step.f.Pubrec? && step.f.id == e.id && !IsError(step.f.code) && Stored(s.store, e.id, StoredPublish)
    case StoredInboundID => true
  }

  /** Entries that stay are not touched, and a new one comes after all of them. */
  ghost predicate Grows(s: Contents, t: Contents) {
    && s.seqNo <= t.seqNo
    && (forall k | k in s.msgs && k in t.msgs :: t.msgs[k] == s.msgs[k])
    && (forall k | k in t.msgs && k !in s.msgs :: t.msgs[k].seqNo == s.seqNo + 1)
  }

  ghost predicate Storing(s: State, step: Step, t: State) {
    && (Grows(s.store, t.store) || t.store == EMPTY)
    && (forall k | k in t.store.msgs && k !in s.store.msgs :: Makes(s, step, t.store.msgs[k]))
  }

  lemma SavedGrows(s: Contents, m: StoredMessage)
    requires m.Slot() !in s.msgs
    ensures Grows(s, Saved(s, m))
  {
  }

  lemma PubrecStoring(s: Contents, id: PacketId, code: nat)
    requires Sound(s)
    ensures Grows(s, OnPubrec(s, id, code).store)
    ensures forall k | k in OnPubrec(s, id, code).store.msgs && k !in s.msgs ::
      k == Key(id, StoredPubrel) && !IsError(code) && Stored(s, id, StoredPublish)
        && OnPubrec(s, id, code).store.msgs[k].Slot() == k
  {
  }

  lemma PublishStoring(s: State, step: Step, t: State)
    requires Inv(s) && step.PublishAttempt? && Next(s, step, t)
    ensures Storing(s, step, t)
  {
    if step.r.Ok? {
      var id := step.r.value;
      assert id !in OutboundIds(s.store);
      SavedGrows(s.store, PublishEntry(id, step.msg));
      if !step.outcome.Written? {
        SavedThenDeleted(s.store, id, step.msg);
      }
    }
  }

  lemma NextStoring(s: State, step: Step, t: State)
    requires Inv(s) && Next(s, step, t)
    ensures Storing(s, step, t)
  {
    if step.PublishAttempt? {
      PublishStoring(s, step, t);
    } else if step.Receive? && step.f.Pubrec? {
      PubrecStoring(s.store, step.f.id, step.f.code);
    }
  }

  lemma StepStoring(states: seq<State>, steps: seq<Step>, i: nat)
    requires Run(states, steps) && i < |steps|
    ensures Storing(states[i], steps[i], states[i + 1]) && Valid(states[i].store) && Valid(states[i + 1].store)
  {
    RunsKeep(states, steps, i);
    RunsKeep(states, steps, i + 1);
    assert Next(states[i], steps[i], states[i + 1]);
    NextStoring(states[i], steps[i], states[i + 1]);
  }

  lemma EntryStep(states: seq<State>, steps: seq<Step>, n: nat, k: Key)
    requires Run(states, steps) && n <= |steps| && k in states[n].store.msgs
    ensures n > 0 && |states| == |steps| + 1
    ensures if k in states[n - 1].store.msgs then states[n].store.msgs[k] == states[n - 1].store.msgs[k]
            else Makes(states[n - 1], steps[n - 1], states[n].store.msgs[k])
  {
    StepStoring(states, steps, n - 1);
  }

  lemma {:induction false} BornStep(states: seq<State>, steps: seq<Step>, n: nat, k: Key)
    requires Run(states, steps) && n <= |steps| && k in states[n].store.msgs
    ensures Born(states, n, k) < n
    ensures Makes(states[Born(states, n, k)], steps[Born(states, n, k)], states[n].store.msgs[k])
  {
    EntryStep(states, steps, n, k);
    hide Run, Makes;
    if k in states[n - 1].store.msgs {
      BornStep(states, steps, n - 1, k);
    }
  }

  /** Of two entries the one with the smaller number was there already, and before the other. */
  lemma OrderStep(s: Contents, t: Contents, a: Key, b: Key)
    requires Valid(s) && (Grows(s, t) || t == EMPTY) && a in t.msgs && b in t.msgs && t.msgs[a].seqNo < t.msgs[b].seqNo
    ensures a in s.msgs && (b in s.msgs ==> s.msgs[a].seqNo < s.msgs[b].seqNo)
  {
  }

  lemma EarlierStays(states: seq<State>, steps: seq<Step>, n: nat, a: Key, b: Key)
    requires Run(states, steps) && n <= |steps| && a in states[n].store.msgs && b in states[n].store.msgs
    requires states[n].store.msgs[a].seqNo < states[n].store.msgs[b].seqNo
    ensures n > 0 && |states| == |steps| + 1 && a in states[n - 1].store.msgs
    ensures b in states[n - 1].store.msgs ==> states[n - 1].store.msgs[a].seqNo < states[n - 1].store.msgs[b].seqNo
  {
    StepStoring(states, steps, n - 1);
    OrderStep(states[n - 1].store, states[n].store, a, b);
  }

  /** Sequence numbers tell in which order entries were stored. */
  lemma {:induction false} BornInOrder(states: seq<State>, steps: seq<Step>, n: nat, a: Key, b: Key)
    requires Run(states, steps) && n <= |steps| && a in states[n].store.msgs && b in states[n].store.msgs
    requires states[n].store.msgs[a].seqNo < states[n].store.msgs[b].seqNo
    ensures Born(states, n, a) < Born(states, n, b)
  {
    EarlierStays(states, steps, n, a, b);
    hide Run, Makes;
    if b in states[n - 1].store.msgs {
      BornInOrder(states, steps, n - 1, a, b);
    } else {
      BornStep(states, steps, n - 1, a);
    }
  }

  // ---------------------------------------------------------------- the packets of a replay

  function KeyOf(f: Frame): Key {
    if f.Publish? then Key(f.id, StoredPublish) else Key(f.id, StoredPubrel)
  }

  /** A packet that replays an entry of the store. */
  ghost predicate Replays(s: Contents, f: Frame) {
    && (f.Publish? || f.Pubrel?) && KeyOf(f) in s.msgs
    && (f.Publish? ==> s.msgs[KeyOf(f)].publish == Some(f.msg) && f.dup)
    && (f.Pubrel? ==> f.code == 0x00)
  }

  lemma ResentOneReplays(s: Contents, e: StoredMessage, tooLarge: set<PacketId>)
    requires e.Slot() in s.msgs && s.msgs[e.Slot()] == e && Qos2.ResentOne(e, tooLarge) != []
    ensures |Qos2.ResentOne(e, tooLarge)| == 1
    ensures Replays(s, Qos2.ResentOne(e, tooLarge)[0]) && KeyOf(Qos2.ResentOne(e, tooLarge)[0]) == e.Slot()
  {
  }

  /** A packet that replays an entry stored no later than `limit`. */
  ghost predicate ReplaysUpto(s: Contents, f: Frame, limit: int) {
    Replays(s, f) && s.msgs[KeyOf(f)].seqNo <= limit
  }

  ghost predicate ReplaysInOrder(s: Contents, fs: seq<Frame>) {
    && (forall i | 0 <= i < |fs| :: Replays(s, fs[i]))
    && (forall i, j | 0 <= i < j < |fs| :: Replays(s, fs[j]) && ReplaysUpto(s, fs[i], s.msgs[KeyOf(fs[j])].seqNo - 1))
  }

  lemma {:induction false} ResentInOrder(s: Contents, l: seq<StoredMessage>, tooLarge: set<PacketId>)
    requires Valid(s) && Ascending(l) && forall m | m in l :: m.Slot() in s.msgs && s.msgs[m.Slot()] == m
    ensures ReplaysInOrder(s, Qos2.Resent(l, tooLarge))
    ensures forall f | f in Qos2.Resent(l, tooLarge) :: l != [] && ReplaysUpto(s, f, l[|l| - 1].seqNo)
  {
    if l != [] {
      var l', e := l[..|l| - 1], l[|l| - 1];
      assert forall m | m in l' :: m in l;
      ResentInOrder(s, l', tooLarge);
      assert e in l;
      assert l' != [] ==> l'[|l'| - 1].seqNo < e.seqNo;
      var fs', one := Qos2.Resent(l', tooLarge), Qos2.ResentOne(e, tooLarge);
      if one != [] {
        ResentOneReplays(s, e, tooLarge);
        assert forall f | f in fs' :: ReplaysUpto(s, f, e.seqNo - 1);
        OrderSnoc(s, fs', one[0]);
        assert fs' + one == fs' + [one[0]];
      } else {
        assert fs' + one == fs';
      }
    }
  }

  lemma OrderSnoc(s: Contents, fs: seq<Frame>, f: Frame)
    requires Valid(s) && ReplaysInOrder(s, fs) && Replays(s, f)
    requires forall g | g in fs :: ReplaysUpto(s, g, s.msgs[KeyOf(f)].seqNo - 1)
    ensures ReplaysInOrder(s, fs + [f])
  {
    var all := fs + [f];
    forall i, j | 0 <= i < j < |all|
      ensures Replays(s, all[j]) && ReplaysUpto(s, all[i], s.msgs[KeyOf(all[j])].seqNo - 1)
    {
      assert all[i] == fs[i] && fs[i] in fs;
      assert all[j] == if j < |fs| then fs[j] else f;
    }
  }

  /** The step that stored the entry is one that makes such an entry. */
  ghost predicate MadeBy(states: seq<State>, steps: seq<Step>, n: nat, k: Key) {
    && n < |states| && n <= |steps| && k in states[n].store.msgs && Born(states, n, k) < n
    && Makes(states[Born(states, n, k)], steps[Born(states, n, k)], states[n].store.msgs[k])
  }

  lemma Replayed(states: seq<State>, steps: seq<Step>, n: nat, tooLarge: set<PacketId>)
    requires Run(states, steps) && n < |steps|
    ensures Valid(states[n].store) && ReplaysInOrder(states[n].store, Qos2.Resent(InOrder(states[n].store), tooLarge))
  {
    RunsKeep(states, steps, n);
    AllIsSnapshot(states[n].store);
    ResentInOrder(states[n].store, InOrder(states[n].store), tooLarge);
  }

  /**
   A connect that resumes the session re-sends its PUBLISHes, as duplicates with the messages they
   were first sent with, in the order of their publish attempts; and its PUBRELs in the order the
   PUBRECs were handled.
   */
  lemma ReplayInFirstSentOrder(states: seq<State>, steps: seq<Step>, n: nat, tooLarge: set<PacketId>, i: nat, j: nat)
    requires Run(states, steps) && n < |steps| && steps[n].Connect? && !steps[n].discard
    requires i < j < |Qos2.Resent(InOrder(states[n + 1].store), tooLarge)|
    ensures var f, g := Qos2.Resent(InOrder(states[n + 1].store), tooLarge)[i], Qos2.Resent(InOrder(states[n + 1].store), tooLarge)[j];
      && Replays(states[n].store, f) && Replays(states[n].store, g)
      && MadeBy(states, steps, n, KeyOf(f)) && MadeBy(states, steps, n, KeyOf(g))
      && Born(states, n, KeyOf(f)) < Born(states, n, KeyOf(g))
  {
    assert Next(states[n], steps[n], states[n + 1]);
    assert states[n + 1].store == states[n].store;
    Replayed(states, steps, n, tooLarge);
    var fs := Qos2.Resent(InOrder(states[n].store), tooLarge);
    assert |states| == |steps| + 1;
    hide Run, Next, Qos2.Resent, InOrder;
    assert Replays(states[n].store, fs[i]) && ReplaysUpto(states[n].store, fs[i], states[n].store.msgs[KeyOf(fs[j])].seqNo - 1);
    BornStep(states, steps, n, KeyOf(fs[i]));
    BornStep(states, steps, n, KeyOf(fs[j]));
    BornInOrder(states, steps, n, KeyOf(fs[i]), KeyOf(fs[j]));
  }

  lemma {:induction false} ResentHas(l: seq<StoredMessage>, tooLarge: set<PacketId>, f: Frame)
    ensures f in Qos2.Resent(l, tooLarge) <==> exists e :: e in l && Qos2.ResentOne(e, tooLarge) == [f]
  {
    if l != [] {
      var l', e := l[..|l| - 1], l[|l| - 1];
      ResentHas(l', tooLarge, f);
      assert l == l' + [e];
      var one := Qos2.ResentOne(e, tooLarge);
      assert f in one <==> one == [f];
    }
  }

  lemma ResentReplays(s: Contents, l: seq<StoredMessage>, tooLarge: set<PacketId>, f: Frame)
    requires (forall m | m in l :: m.Slot() in s.msgs && s.msgs[m.Slot()] == m) && f in Qos2.Resent(l, tooLarge)
    ensures Replays(s, f) && (f.Publish? ==> f.id !in tooLarge)
  {
    ResentHas(l, tooLarge, f);
    var e :| e in l && Qos2.ResentOne(e, tooLarge) == [f];
    ResentOneReplays(s, e, tooLarge);
  }

  lemma ReplaysResent(s: Contents, l: seq<StoredMessage>, tooLarge: set<PacketId>, f: Frame)
    requires Valid(s) && (forall k | k in s.msgs :: s.msgs[k] in l)
    requires Replays(s, f) && (f.Publish? ==> f.id !in tooLarge)
    ensures f in Qos2.Resent(l, tooLarge)
  {
    ResentHas(l, tooLarge, f);
    var e := s.msgs[KeyOf(f)];
    assert e.Slot() == KeyOf(f);
    assert e in l && Qos2.ResentOne(e, tooLarge) == [f];
  }

  /** A resumed connection sends exactly a packet for each stored PUBREL and each stored PUBLISH that is not too large. */
  lemma ReplayExactly(states: seq<State>, steps: seq<Step>, n: nat, tooLarge: set<PacketId>, f: Frame)
    requires Run(states, steps) && n <= |steps|
    ensures f in Qos2.Resent(InOrder(states[n].store), tooLarge) <==>
            Replays(states[n].store, f) && (f.Publish? ==> f.id !in tooLarge)
  {
    RunsKeep(states, steps, n);
    var s := states[n].store;
    AllIsSnapshot(s);
    hide Run, InOrder, Qos2.Resent, Replays, Ascending;
    if f in Qos2.Resent(InOrder(s), tooLarge) {
      ResentReplays(s, InOrder(s), tooLarge, f);
    }
    if Replays(s, f) && (f.Publish? ==> f.id !in tooLarge) {
      ReplaysResent(s, InOrder(s), tooLarge, f);
    }
  }
}
