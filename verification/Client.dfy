/**
 The client object: the store, the identifier bitmap, the send quota and the waiter table, and the
 operations that change them together. Each operation is a step of the session machine, or a few
 of them in a row, so every object keeps what every run keeps.
 */
module Client {
  import opened Wrappers
  import opened IdAllocator
  import opened Store
  import opened Session
  import W = Waiters
  import Q = Quota
  import R = SessionRuns
  import S = SignalRuns
  import Qos2

  const DEFAULT_RECEIVE_MAXIMUM: nat := 65535

  /** What the configuration and the CONNACK say about the session. */
  datatype Negotiated = Negotiated(
    v5: bool, cleanStart: bool, expiry: nat, present: bool, receiveMaximum: nat, maxInflight: nat)

  predicate Discards(c: Negotiated) {
    c.cleanStart || (c.v5 && c.expiry == 0) || !c.present
  }

  function QuotaSize(c: Negotiated): nat {
    if c.v5 then c.receiveMaximum else if c.maxInflight != 0 then c.maxInflight else DEFAULT_RECEIVE_MAXIMUM
  }

  /** The state after a reaction and, if it ended an exchange, both releases it owes. */
  function Finished(s: R.State, r: Reaction, id: PacketId): R.State
    requires s.link.Some?
  {
    if r.ended then
      s.(store := r.store,
         ids := Released(s.ids, id, s.link.value.id),
         quota := Q.Returned(s.quota, s.link.value.quota))
    else
      s.(store := r.store)
  }

  function AfterFrame(s: R.State, f: Frame): R.State
    requires s.link.Some?
  {
    Finished(s, Handle(s.store, f), f.id)
  }

  /** The waiter of an exchange that ended is told the reason code. */
  function Told(t: W.Table, ended: bool, id: PacketId, code: nat): W.Table {
    if ended then W.Signalled(t, id, W.PublishAck, W.Ack(code)) else t
  }

  /** A packet that ends an exchange gives the call that waits for it the very code it carries, and no other call anything. */
  lemma EndTellsCode(s: Contents, t: W.Table, f: Frame, id: PacketId)
    requires Handle(s, f).ended && id in t.waiters && t.waiters[id].ch < |t.slots| && t.slots[t.waiters[id].ch].None?
    requires forall x | x in t.waiters && t.waiters[x].ch == t.waiters[id].ch :: x == id
    ensures !f.Publish?
    ensures var u, w := Told(t, true, f.id, CodeOf(f)), t.waiters[id];
      if id == f.id && w.want == W.PublishAck
      then id !in u.waiters && u.slots[w.ch] == Some(W.Ack(f.code))
      else id in u.waiters && u.waiters[id] == w && u.slots[w.ch] == None
  {
  }

  /** Handling a packet is receiving it and, when it ends an exchange, making the two releases it owes. */
  lemma FrameIsSteps(s: R.State, f: Frame) returns (a: R.State, b: R.State)
    requires R.Inv(s) && s.link.Some?
    ensures R.Inv(AfterFrame(s, f)) && R.Next(s, R.Receive(f), a)
    ensures !Handle(s.store, f).ended ==> a == AfterFrame(s, f)
    ensures Handle(s.store, f).ended ==>
      && R.Next(a, R.ReleaseId(R.Hold(f.id, s.link.value.id)), b)
      && R.Next(b, R.ReleasePermit(s.link.value.quota), AfterFrame(s, f))
  {
    var r, at := Handle(s.store, f), s.link.value;
    var h := R.Hold(f.id, at.id);
    a, b := AfterFrame(s, f), AfterFrame(s, f);
    if r.ended {
      HandleBalanced(s.store, f);
      a := s.(store := r.store, owedIds := s.owedIds + {h}, owedPermits := s.owedPermits + multiset{at.quota});
      b := a.(ids := Released(s.ids, f.id, h.gen), owedIds := s.owedIds);
      assert f.id in R.HeldIds(s.owedIds, s.ids.gen) <==> h in s.owedIds;
      hide R.Inv, Handle;
      assert a.owedIds - {h} == s.owedIds && a.owedPermits - multiset{at.quota} == s.owedPermits;
      R.NextKeeps(s, R.Receive(f), a);
      R.NextKeeps(a, R.ReleaseId(h), b);
      R.NextKeeps(b, R.ReleasePermit(at.quota), AfterFrame(s, f));
    } else {
      R.NextKeeps(s, R.Receive(f), a);
    }
  }

  // ---------------------------------------------------------------- counting what is in flight

  function Slots(l: seq<StoredMessage>): set<Key> {
    set m | m in l :: m.Slot()
  }

  lemma SlotsSnapshot(s: Contents, l: seq<StoredMessage>)
    requires Valid(s) && IsSnapshot(s, l)
    ensures Slots(l) == s.msgs.Keys
  {
  }

  lemma SlotsSnoc(l: seq<StoredMessage>, i: nat)
    requires i < |l|
    ensures Slots(l[..i + 1]) == Slots(l[..i]) + {l[i].Slot()}
  {
    assert l[..i + 1] == l[..i] + [l[i]];
  }

  /** No two entries of a snapshot share a slot. */
  lemma SlotIsNew(s: Contents, l: seq<StoredMessage>, i: nat)
    requires IsSnapshot(s, l) && i < |l|
    ensures l[i].Slot() !in Slots(l[..i])
  {
  }

  lemma LegsSnoc(ks: set<Key>, k: Key)
    requires k !in ks
    ensures |Legs(ks + {k})| == |Legs(ks)| + if Outbound(k) then 1 else 0
  {
    assert Legs(ks + {k}) == Legs(ks) + if Outbound(k) then {k} else {};
  }

  /** What a socket takes of some packets before it fails. */
  function Taken(fs: seq<Frame>, writable: nat): seq<Frame> {
    if |fs| <= writable then fs else fs[..writable]
  }

  lemma TakenAll(fs: seq<Frame>, writable: nat)
    ensures Taken(fs, writable) == fs <==> |fs| <= writable
    ensures Taken([], writable) == []
  {
  }

  lemma TakenMore(fs: seq<Frame>, more: seq<Frame>, writable: nat)
    requires |more| <= 1
    ensures Taken(fs + more, writable) == Taken(fs, writable) + if |fs| < writable then more else []
  {
  }

  // ---------------------------------------------------------------- what a connection starts with

  /** Nothing stored, so nothing in flight, and every identifier free. */
  ghost predicate Blank(s: R.State) {
    s.store.msgs == map[] && s.ids.used == {} && InFlight(s.store) == 0
  }

  /** Permits free and in flight make up the limit, or the replay set where that is larger. */
  ghost predicate Limited(s: R.State, limit: nat) {
    var n := InFlight(s.store);
    !s.quota.failed && s.quota.avail >= 0 && s.quota.avail + n == if n > limit then n else limit
  }

  /**
   A connection starts blank when the broker kept no session, when none was asked to be kept or
   when the last one expired at its disconnect, and with all of the old session otherwise. The
   limit on sends is the broker's on MQTT 5.0 and the configured one, if any, on MQTT 3.1.1.
   */
  ghost predicate Starts(c: Negotiated, s: R.State, t: R.State) {
    && (!c.present ==> Blank(t))
    && (c.cleanStart ==> Blank(t))
    && (c.v5 && c.expiry == 0 ==> Blank(t))
    && (c.present && !c.cleanStart && (c.v5 ==> c.expiry > 0) ==> t.store == s.store && t.ids == s.ids)
    && (c.v5 ==> Limited(t, c.receiveMaximum))
    && (!c.v5 && c.maxInflight > 0 ==> Limited(t, c.maxInflight))
    && (!c.v5 && c.maxInflight == 0 ==> Limited(t, 65535))
  }

  lemma StartsAs(c: Negotiated, s: R.State, t: R.State)
    requires t.store == R.Applied(s, Discards(c), QuotaSize(c)).store
    requires t.ids == R.Applied(s, Discards(c), QuotaSize(c)).ids
    requires t.quota == R.Applied(s, Discards(c), QuotaSize(c)).quota
    ensures Starts(c, s, t)
  {
    assert Legs(EMPTY.msgs.Keys) == {};
  }

  /** With nothing stored there is nothing to send. */
  lemma BlankSendsNothing(s: Contents, tooLarge: set<PacketId>)
    requires Store.Valid(s) && s.msgs == map[]
    ensures Qos2.Resent(InOrder(s), tooLarge) == []
  {
    SnapshotIsAll(s, []);
  }

  datatype Connecting = AlreadyConnected | ReplayFailed | Connected

  // ---------------------------------------------------------------- the client

  class TCPClient {
    const store: MemStore
    const ids: Allocator
    const quota: Q.Semaphore
    const waiters: W.WaiterTable
    var link: Option<R.Stamp>
    var wire: seq<Frame>
    var delivered: seq<Message>

    // The requests under way and the releases owed belong to goroutines; the last reset is history.
    ghost var requests: set<R.Hold>
    ghost var owedIds: set<R.Hold>
    ghost var owedPermits: multiset<nat>
    ghost var ceiling: nat
    ghost var resumed: nat

    ghost function View(): R.State
      requires ids.Valid()
      reads this, store, ids, ids.used, quota
    {
      R.State(store.View(), ids.View(), quota.View(), link, requests, owedIds, owedPermits, ceiling, resumed)
    }

    /** The client is always in a state that keeps the session machine's invariant. */
    ghost predicate Valid()
      reads this, store, ids, ids.used, quota
    {
      ids.Valid() && R.Inv(View())
    }

    constructor ()
      ensures Valid() && View() == R.INIT && waiters.View() == W.NO_WAITERS && wire == [] && delivered == []
      ensures fresh(store) && fresh(ids) && fresh(ids.used) && fresh(quota) && fresh(waiters)
    {
      store := new MemStore();
      ids := new Allocator();
      quota := new Q.Semaphore(0);
      waiters := new W.WaiterTable();
      link, wire, delivered := None, [], [];
      requests, owedIds, owedPermits, ceiling, resumed := {}, {}, multiset{}, 0, 0;
      new;
      hide R.Inv;
      R.RunsKeep([R.INIT], [], 0);
    }

    /** The membership test for a store without the fast one: the scan finds what the map holds. */
    method ScanStore(id: PacketId, kind: Kind) returns (found: bool)
      requires Store.Valid(store.View())
      ensures found == Stored(store.View(), id, kind)
    {
      var all := store.All();
      AllIsSnapshot(store.View());
      SlotsSnapshot(store.View(), all);
      for i := 0 to |all|
        invariant Key(id, kind) !in Slots(all[..i])
      {
        SlotsSnoc(all, i);
        if all[i].id == id && all[i].kind == kind {
          assert all[i] in all;
          return true;
        }
      }
      assert all[..|all|] == all;
      found := false;
    }

    // -------------------------------------------------------------- writing

    /** Poisons what parked callers share, then gives up the link. */
    method TeardownLink()
      requires ids.Valid() && link.Some?
      modifies this`link, quota, waiters
      ensures ids.Valid() && View() == R.TornDown(old(View())) && waiters.View() == W.AllFailed(old(waiters.View()))
      ensures R.Next(old(View()), R.Drop, View()) && (old(Valid()) ==> Valid())
    {
      ghost var before := View();
      waiters.FailAll();
      quota.Fail();
      link := None;
      if R.Inv(before) {
        R.NextKeeps(before, R.Drop, View());
      }
    }

    /** A packet reaches the wire, is refused before it, or its failing write takes the link down. */
    method WriteFrame(f: Frame, outcome: R.Outcome) returns (ok: bool)
      requires ids.Valid() && link.Some?
      modifies this`link, this`wire, quota, waiters
      ensures ids.Valid() && ok == outcome.Written?
      ensures wire == if ok then old(wire) + [f] else old(wire)
      ensures View() == if outcome.WriteFailed? then R.TornDown(old(View())) else old(View())
      ensures waiters.View() == if outcome.WriteFailed? then W.AllFailed(old(waiters.View())) else old(waiters.View())
    {
      ok := outcome.Written?;
      if ok {
        wire := wire + [f];
      } else if outcome.WriteFailed? {
        TeardownLink();
      }
    }

    // -------------------------------------------------------------- packets from the peer

    /** Everything a reaction of the read loop changes, `outcome` being that of writing its reply. */
    twostate predicate Reacted(r: Reaction, id: PacketId, code: nat, outcome: R.Outcome)
      requires ids.Valid() && old(ids.Valid() && link.Some?)
      reads this, store, ids, ids.used, quota, waiters
    {
      var lost := r.replies != [] && outcome.WriteFailed?;
      var done, told := Finished(old(View()), r, id), Told(old(waiters.View()), r.ended, id, code);
      && View() == (if lost then R.TornDown(done) else done)
      && wire == (if outcome.Written? then old(wire) + r.replies else old(wire))
      && delivered == old(delivered) + r.dispatched
      && waiters.View() == (if lost then W.AllFailed(told) else told)
    }

    /** A PUBLISH that is new is dispatched, recorded and answered; a repeated one is only answered. */
    method HandleInboundQoS2(id: PacketId, msg: Message, outcome: R.Outcome)
      requires ids.Valid() && link.Some?
      modifies this`wire, this`delivered, this`link, store, quota, waiters
      ensures ids.Valid() && Reacted(OnPublish2(old(store.View()), id, msg), id, SUCCESS, outcome)
    {
      hide W.AllFailed;
      var known := store.Contains(id, StoredInboundID);
      if !known {
        delivered := delivered + [msg];
        store.Save(StoredMessage(None, 0, id, StoredInboundID));
      } else {
        assert delivered + [] == delivered;
      }
      var _ := WriteFrame(Pubrec(id, SUCCESS), outcome);
    }

    method HandlePublish(id: PacketId, msg: Message, outcome: R.Outcome)
      requires ids.Valid() && link.Some?
      modifies this`wire, this`delivered, this`link, store, quota, waiters
      ensures ids.Valid() && Reacted(OnPublish(old(store.View()), id, msg), id, SUCCESS, outcome)
      ensures msg.qos <= 1 ==> delivered == old(delivered) + [msg] && store.View() == old(store.View())
      ensures msg.qos == 0 ==> wire == old(wire) && View() == old(View()) && waiters.View() == old(waiters.View())
      ensures msg.qos == 1 && outcome.Written? ==> wire == old(wire) + [Puback(id, 0x00)]
    {
      hide W.AllFailed;
      if msg.qos == 2 {
        HandleInboundQoS2(id, msg, outcome);
        return;
      }
      delivered := delivered + [msg];
      if msg.qos == 1 {
        var _ := WriteFrame(Puback(id, SUCCESS), outcome);
      } else {
        assert wire + [] == wire;
      }
    }

    /** A PUBREL drops the record; one without a record is answered as unknown. */
    method HandleInboundPubrel(id: PacketId, code: nat, outcome: R.Outcome)
      requires ids.Valid() && link.Some?
      modifies this`wire, this`link, store, quota, waiters
      ensures ids.Valid() && Reacted(OnPubrel(old(store.View()), id), id, code, outcome)
    {
      hide W.AllFailed;
      assert delivered + [] == delivered;
      var known := store.Contains(id, StoredInboundID);
      if known {
        store.Delete(id, StoredInboundID);
      }
      var _ := WriteFrame(Pubcomp(id, if known then SUCCESS else PACKET_ID_NOT_FOUND), outcome);
    }

    /** Entry, identifier and permit go together, then the waiter is told. */
    method EndExchange(id: PacketId, kind: Kind, code: nat, ghost outcome: R.Outcome)
      requires ids.Valid() && link.Some?
      modifies store, ids.used, quota, waiters
      ensures ids.Valid() && Reacted(Reaction(Deleted(old(store.View()), id, kind), [], [], true), id, code, outcome)
    {
      assert wire + [] == wire && delivered + [] == delivered;
      store.Delete(id, kind);
      ids.ReleaseAt(id, link.value.id);
      quota.ReleaseAt(link.value.quota);
      var _ := waiters.Signal(id, W.PublishAck, W.Ack(code));
    }

    /** A terminal acknowledgement; one without an entry changes nothing. */
    method CompleteOutbound(id: PacketId, kind: Kind, code: nat, ghost outcome: R.Outcome)
      requires ids.Valid() && link.Some?
      modifies store, ids.used, quota, waiters
      ensures ids.Valid() && Reacted(OnTerminal(old(store.View()), id, kind), id, code, outcome)
    {
      var known := store.Contains(id, kind);
      if !known {
        assert wire + [] == wire && delivered + [] == delivered;
        return;
      }
      EndExchange(id, kind, code, outcome);
    }

    method HandlePubrec(id: PacketId, code: nat, outcome: R.Outcome)
      requires ids.Valid() && link.Some?
      modifies this`wire, this`link, store, ids.used, quota, waiters
      ensures ids.Valid() && Reacted(OnPubrec(old(store.View()), id, code), id, code, outcome)
    {
      hide W.AllFailed;
      var sent := store.Contains(id, StoredPublish);
      if sent && IsError(code) {
        EndExchange(id, StoredPublish, code, outcome);
        return;
      }
      assert delivered + [] == delivered;
      var released := store.Contains(id, StoredPubrel);
      if sent {
        store.Save(StoredMessage(None, 0, id, StoredPubrel));
        store.Delete(id, StoredPublish);
      }
      var _ := WriteFrame(Pubrel(id, if sent || released then SUCCESS else PACKET_ID_NOT_FOUND), outcome);
    }

    /** One turn of the read loop; a reply whose write fails takes the link down with it. */
    method HandleFrame(f: Frame, outcome: R.Outcome)
      requires Valid() && link.Some?
      modifies this`wire, this`delivered, this`link, store, ids.used, quota, waiters
      ensures Valid() && Reacted(Handle(old(store.View()), f), f.id, CodeOf(f), outcome)
    {
      ghost var after := AfterFrame(View(), f);
      var _, _ := FrameIsSteps(View(), f);
      R.NextKeeps(after, R.Drop, R.TornDown(after));
      hide R.Inv, OnPublish, OnPubrec, OnPubrel, OnTerminal, W.AllFailed, R.TornDown;
      match f {
        case Publish(id, msg, _) => HandlePublish(id, msg, outcome);
        case Puback(id, code) => CompleteOutbound(id, StoredPublish, code, outcome);
        case Pubrec(id, code) => HandlePubrec(id, code, outcome);
        case Pubrel(id, code) => HandleInboundPubrel(id, code, outcome);
        case Pubcomp(id, code) => CompleteOutbound(id, StoredPubrel, code, outcome);
      }
    }

    // -------------------------------------------------------------- publishing and requests

    /** Gives entry, identifier and permit back, unless a reconnect has adopted them since. */
    method UndoSend(id: PacketId, at: R.Stamp)
      requires ids.Valid()
      modifies store, ids.used, quota
      ensures ids.Valid() && View() == if old(quota.gen) == at.quota then R.Undone(old(View()), id, at) else old(View())
    {
      if quota.gen == at.quota {
        store.Delete(id, StoredPublish);
        ids.ReleaseAt(id, at.id);
        quota.ReleaseAt(at.quota);
      }
    }

    /** The send of a publish that holds its permit and identifier. */
    method SendPublish(id: PacketId, msg: Message, at: R.Stamp, outcome: R.Outcome) returns (ch: nat)
      requires ids.Valid() && link.Some? && at == R.Stamp(quota.gen, ids.gen) && !outcome.SaveFailed?
      modifies this`link, this`wire, store, ids.used, quota, waiters
      ensures ids.Valid() && ch == |old(waiters.slots)|
      ensures var p := old(View()).(store := Saved(old(store.View()), PublishEntry(id, msg)));
        View() == match outcome {
          case NotSent => R.Undone(p, id, at)
          case WriteFailed => R.Undone(R.TornDown(p), id, at)
          case _ => p
        }
      ensures wire == if outcome.Written? then old(wire) + [Publish(id, msg, false)] else old(wire)
      ensures var t := W.Registered(old(waiters.View()), id, W.PublishAck);
        waiters.View() == match outcome {
          case NotSent => W.Removed(t, id, ch)
          case WriteFailed => W.Removed(W.AllFailed(t), id, ch)
          case _ => t
        }
    {
      hide W.AllFailed;
      store.Save(StoredMessage(Some(msg), 0, id, StoredPublish));
      ch := waiters.Register(id, W.PublishAck);
      var ok := WriteFrame(Publish(id, msg, false), outcome);
      if !ok {
        waiters.Remove(id, ch);
        UndoSend(id, at);
      }
    }

    /** A whole attempt to publish, up to the wait for its acknowledgement. */
    method PublishAcked(msg: Message, outcome: R.Outcome)
      returns (a: Q.Attempt, r: Result<PacketId, IdError>, ch: nat)
      requires Valid() && link.Some?
      modifies this`link, this`wire, store, ids`next, ids.used, quota, waiters
      ensures Valid() && a == Q.Attempted(old(quota.View())).1
      ensures !a.Granted? ==> View() == old(View())
      ensures a.Granted? ==> R.Next(old(View()), R.PublishAttempt(msg, outcome, r), View())
      ensures waiters.View() ==
        if a.Granted? then S.TableAfter(old(waiters.View()), R.PublishAttempt(msg, outcome, r)) else old(waiters.View())
      ensures wire ==
        if a.Granted? && r.Ok? && outcome.Written? then old(wire) + [Publish(r.value, msg, false)] else old(wire)
      ensures a.Granted? && r.Ok? && outcome.Written? ==> ch == |old(waiters.slots)|
    {
      hide W.AllFailed;
      ghost var before := View();
      ch := 0;
      a := quota.TryAcquire();
      if !a.Granted? {
        return a, Err(PacketIdExhausted), ch;
      }
      var id, idGen := ids.Acquire();
      r := id;
      ghost var after := ids.View();
      if id.Err? {
        quota.ReleaseAt(a.gen);
      } else if outcome.SaveFailed? {
        ids.ReleaseAt(id.value, idGen);
        quota.ReleaseAt(a.gen);
      } else {
        ch := SendPublish(id.value, msg, R.Stamp(a.gen, idGen), outcome);
      }
      assert View() == R.AfterAttempt(before, after, R.PublishAttempt(msg, outcome, r));
      AttemptIsStep(before, after, R.PublishAttempt(msg, outcome, r));
    }

    /** Reserves an identifier for a SUBSCRIBE or UNSUBSCRIBE and registers who waits for its answer. */
    method StartRequest(want: W.Class) returns (r: Result<PacketId, IdError>, gen: nat, ch: nat)
      requires Valid()
      modifies this`requests, ids`next, ids.used, waiters
      ensures Valid() && R.Next(old(View()), R.Request(r), View()) && gen == old(ids.gen)
      ensures r.Ok? ==> R.Hold(r.value, gen) in requests && ch == |old(waiters.slots)|
      ensures waiters.View() == if r.Ok? then W.Registered(old(waiters.View()), r.value, want) else old(waiters.View())
    {
      ghost var before := View();
      ch := 0;
      r, gen := ids.Acquire();
      ghost var after := ids.View();
      if r.Ok? {
        ch := waiters.Register(r.value, want);
        requests := requests + {R.Hold(r.value, gen)};
      }
      RequestIsStep(before, after, r);
    }

    /** Ends a request: its own waiter goes before its identifier can have a new owner. */
    method EndRequest(id: PacketId, gen: nat, ch: nat)
      requires Valid() && R.Hold(id, gen) in requests
      modifies this`requests, ids.used, waiters
      ensures Valid() && R.Next(old(View()), R.RequestDone(R.Hold(id, gen)), View())
      ensures waiters.View() == W.Removed(old(waiters.View()), id, ch)
    {
      ghost var before := View();
      waiters.Remove(id, ch);
      ids.ReleaseAt(id, gen);
      requests := requests - {R.Hold(id, gen)};
      R.NextKeeps(before, R.RequestDone(R.Hold(id, gen)), View());
    }

    // -------------------------------------------------------------- connecting

    /** Counts the stored exchanges that hold a permit. */
    method InflightPermits() returns (n: nat)
      requires Store.Valid(store.View())
      ensures n == InFlight(store.View())
    {
      var all := store.All();
      AllIsSnapshot(store.View());
      n := 0;
      for i := 0 to |all|
        invariant n == |Legs(Slots(all[..i]))|
      {
        SlotsSnoc(all, i);
        SlotIsNew(store.View(), all, i);
        LegsSnoc(Slots(all[..i]), all[i].Slot());
        if all[i].kind == StoredPublish || all[i].kind == StoredPubrel {
          n := n + 1;
        }
      }
      assert all[..|all|] == all;
      SlotsSnapshot(store.View(), all);
    }

    /** Keeps or discards the session, and seeds the quota with what the session leaves free. */
    method ApplySession(c: Negotiated)
      requires ids.Valid() && Store.Valid(store.View())
      modifies this`ceiling, this`resumed, store, ids`next, ids`gen, ids.used, quota
      ensures ids.Valid() && Store.Valid(store.View())
      ensures View() == R.Applied(old(View()), Discards(c), QuotaSize(c)) && Starts(c, old(View()), View())
    {
      ghost var before := View();
      hide InFlight, Starts;
      if c.cleanStart || (c.v5 && c.expiry == 0) || !c.present {
        store.Reset();
        ids.Reset();
      }
      var n := InflightPermits();
      var size := QuotaSize(c) - n;
      quota.Reset(if size < 0 then 0 else size);
      ceiling, resumed := QuotaSize(c), n;
      StartsAs(c, before, View());
    }

    /** The `n`th packet of a replay, on a socket that fails after `writable` packets. */
    method Resend(f: Frame, n: nat, writable: nat)
      modifies this`wire
      ensures wire == if n < writable then old(wire) + [f] else old(wire)
    {
      if n < writable {
        wire := wire + [f];
      }
    }

    /** Sends what is stored on a new link, oldest first: PUBLISHes as duplicates, PUBRELs as they are. */
    method ReplaySession(tooLarge: set<PacketId>, writable: nat) returns (ok: bool)
      requires Store.Valid(store.View())
      modifies this`wire
      ensures var resent := Qos2.Resent(InOrder(store.View()), tooLarge);
        wire == Taken(resent, writable) && ok == (wire == resent)
    {
      hide Store.Valid, InOrder, Taken;
      var all := store.All();
      ghost var sent: seq<Frame> := [];
      var n: nat := 0;
      wire := [];
      TakenAll(sent, writable);
      for i := 0 to |all|
        invariant sent == Qos2.Resent(all[..i], tooLarge) && n == |sent|
        invariant wire == Taken(sent, writable)
      {
        var m := all[i];
        assert all[..i + 1][..i] == all[..i];
        ghost var more := Qos2.ResentOne(m, tooLarge);
        TakenMore(sent, more, writable);
        match m.kind {
          case StoredPublish =>
            if m.publish.Some? && m.id !in tooLarge {
              Resend(Publish(m.id, m.publish.value, true), n, writable);
              n := n + 1;
            }
          case StoredPubrel =>
            Resend(Pubrel(m.id, SUCCESS), n, writable);
            n := n + 1;
          case StoredInboundID =>
        }
        sent := sent + more;
      }
      assert all[..|all|] == all;
      TakenAll(sent, writable);
      ok := n <= writable;
    }

    /** Settles the session, replays it and only then publishes the link to anyone. */
    method Establish(c: Negotiated, tooLarge: set<PacketId>, writable: nat) returns (ok: bool)
      requires ids.Valid() && Store.Valid(store.View())
      modifies this`link, this`wire, this`ceiling, this`resumed, store, ids`next, ids`gen, ids.used, quota
      ensures ids.Valid() && View() == Linked(R.Applied(old(View()), Discards(c), QuotaSize(c)), ok)
      ensures var resent := Qos2.Resent(InOrder(store.View()), tooLarge);
        wire == Taken(resent, writable) && ok == (wire == resent)
    {
      hide R.Applied, Qos2.Resent, InOrder, Taken, Store.Valid;
      ApplySession(c);
      var stamp := R.Stamp(quota.gen, ids.gen);
      ok := ReplaySession(tooLarge, writable);
      if ok {
        link := Some(stamp);
      }
    }

    method Connect(c: Negotiated, tooLarge: set<PacketId>, writable: nat) returns (r: Connecting)
      requires Valid()
      modifies this`link, this`wire, this`ceiling, this`resumed, store, ids`next, ids`gen, ids.used, quota
      ensures Valid()
      ensures r.AlreadyConnected? <==> old(link.Some?)
      ensures r.AlreadyConnected? ==> View() == old(View()) && wire == old(wire)
      ensures !r.AlreadyConnected? ==>
        && R.Next(old(View()), R.Connect(Discards(c), QuotaSize(c), r.Connected?), View())
        && wire == Taken(Qos2.Resent(InOrder(store.View()), tooLarge), writable)
        && (r.Connected? <==> wire == Qos2.Resent(InOrder(store.View()), tooLarge))
        && Starts(c, old(View()), View()) && (Blank(View()) ==> wire == [] && r.Connected?)
    {
      hide Starts, Blank;
      if link.Some? {
        return AlreadyConnected;
      }
      ghost var before := View();
      var ok := Establish(c, tooLarge, writable);
      ConnectIsStep(before, Discards(c), QuotaSize(c), ok);
      ConnectBegins(c, before, View(), ok, tooLarge);
      r := if ok then Connected else ReplayFailed;
    }
  }

  lemma AttemptIsStep(s: R.State, ids: Ids, step: R.Step)
    requires R.Inv(s) && s.link.Some? && step.PublishAttempt? && Q.Attempted(s.quota).1.Granted?
    requires AcquireStep(s.ids, ids, step.r)
    ensures R.Next(s, step, R.AfterAttempt(s, ids, step)) && R.Inv(R.AfterAttempt(s, ids, step))
  {
    R.NextKeeps(s, step, R.AfterAttempt(s, ids, step));
  }

  lemma RequestIsStep(s: R.State, ids: Ids, r: Result<PacketId, IdError>)
    requires R.Inv(s) && AcquireStep(s.ids, ids, r)
    ensures var t := s.(ids := ids, requests := s.requests + (if r.Ok? then {R.Hold(r.value, s.ids.gen)} else {}));
      R.Next(s, R.Request(r), t) && R.Inv(t)
  {
    var t := s.(ids := ids, requests := s.requests + (if r.Ok? then {R.Hold(r.value, s.ids.gen)} else {}));
    R.NextKeeps(s, R.Request(r), t);
  }

  /** A link carries the generations of the session it was established under. */
  function Linked(s: R.State, ok: bool): R.State {
    if ok then s.(link := Some(R.Stamp(s.quota.gen, s.ids.gen))) else s
  }

  lemma ConnectIsStep(s: R.State, discard: bool, ceiling: nat, ok: bool)
    requires R.Inv(s) && s.link.None?
    ensures var t := Linked(R.Applied(s, discard, ceiling), ok);
      Store.Valid(t.store) && R.Next(s, R.Connect(discard, ceiling, ok), t) && R.Inv(t)
  {
    R.NextKeeps(s, R.Connect(discard, ceiling, ok), Linked(R.Applied(s, discard, ceiling), ok));
  }

  lemma ConnectBegins(c: Negotiated, s: R.State, t: R.State, ok: bool, tooLarge: set<PacketId>)
    requires t == Linked(R.Applied(s, Discards(c), QuotaSize(c)), ok) && Store.Valid(t.store)
    ensures Starts(c, s, t) && (Blank(t) ==> Qos2.Resent(InOrder(t.store), tooLarge) == [])
  {
    StartsAs(c, s, t);
    if Blank(t) {
      BlankSendsNothing(t.store, tooLarge);
    }
  }
}
