/**
 The subscription registry: one entry per filter, stamped with a monotonic token so that a late
 rollback or removal can tell whether its registration is still the current one.
 */
module Registry {
  import opened Wrappers

  type Filter = string

  datatype Subscription = Subscription(filter: Filter, handler: nat, options: nat, token: nat, subId: nat)

  /** The slice of subscriptions and the registration stamp. */
  datatype Subs = Subs(list: seq<Subscription>, stamp: nat)

  /** The position of the entry for `f`, or the length of the list. */
  function Find(list: seq<Subscription>, f: Filter): nat {
    if list == [] then 0 else if list[0].filter == f then 0 else 1 + Find(list[1..], f)
  }

  lemma {:induction false} FindSpec(list: seq<Subscription>, f: Filter)
    ensures Find(list, f) <= |list|
    ensures Find(list, f) < |list| ==> list[Find(list, f)].filter == f
    ensures forall i | 0 <= i < Find(list, f) :: i < |list| && list[i].filter != f
  {
    if list != [] && list[0].filter != f {
      FindSpec(list[1..], f);
      forall i | 0 <= i < Find(list, f)
        ensures i < |list| && list[i].filter != f
      {
        if i > 0 {
          assert list[1..][i - 1].filter != f;
        }
      }
    }
  }

  function Snapshot(r: Subs, f: Filter): Option<Subscription> {
    var i := Find(r.list, f);
    if i < |r.list| then Some(r.list[i]) else None
  }

  function Added(r: Subs, f: Filter, options: nat, handler: nat, subId: nat): Subs {
    var e := Subscription(f, handler, options, r.stamp + 1, subId);
    var i := Find(r.list, f);
    Subs(if i < |r.list| then r.list[i := e] else r.list + [e], r.stamp + 1)
  }

  function Cut(list: seq<Subscription>, i: nat): seq<Subscription>
    requires i < |list|
  {
    list[..i] + list[i + 1..]
  }

  /** Puts back options, handler and token, but not the subscription identifier. */
  function Restored(r: Subs, f: Filter, prev: Option<Subscription>, token: nat): Subs {
    var i := Find(r.list, f);
    if i >= |r.list| || r.list[i].token != token then r
    else match prev
      case Some(p) => r.(list := r.list[i := r.list[i].(options := p.options, handler := p.handler, token := p.token)])
      case None => r.(list := Cut(r.list, i))
  }

  function RemovedIfCurrent(r: Subs, f: Filter, token: nat): Subs {
    var i := Find(r.list, f);
    if i >= |r.list| || r.list[i].token != token then r else r.(list := Cut(r.list, i))
  }

  // ---------------------------------------------------------------- the registry object

  class SubscriptionRegistry {
    var list: seq<Subscription>
    var stamp: nat

    ghost function View(): Subs
      reads this
    {
      Subs(list, stamp)
    }

    constructor ()
      ensures View() == Subs([], 0)
    {
      list, stamp := [], 0;
    }

    method Search(f: Filter) returns (i: nat)
      ensures i == Find(list, f) && i <= |list|
    {
      i := 0;
      assert list[0..] == list;
      while i < |list| && list[i].filter != f
        invariant i <= |list|
        invariant Find(list, f) == i + Find(list[i..], f)
      {
        i := i + 1;
      }
    }

    method Snap(f: Filter) returns (s: Option<Subscription>)
      ensures s == Snapshot(View(), f)
    {
      var i := Search(f);
      s := if i < |list| then Some(list[i]) else None;
    }

    method Add(f: Filter, options: nat, handler: nat, subId: nat) returns (token: nat)
      modifies this
      ensures View() == Added(old(View()), f, options, handler, subId) && token == stamp
      ensures old(Unique(list)) ==> Unique(list)
    {
      if Unique(list) {
        SnapshotAdded(View(), f, options, handler, subId, f);
      }
      stamp := stamp + 1;
      token := stamp;
      var i := Search(f);
      if i < |list| {
        list := list[i := list[i].(options := options, handler := handler, token := token, subId := subId)];
        FindSpec(old(list), f);
      } else {
        list := list + [Subscription(f, handler, options, token, subId)];
      }
    }

    method Restore(f: Filter, prev: Option<Subscription>, token: nat)
      modifies this`list
      ensures View() == Restored(old(View()), f, prev, token)
    {
      var i := Search(f);
      if i == |list| || list[i].token != token {
        return;
      }
      match prev {
        case Some(p) =>
          list := list[i := list[i].(options := p.options, handler := p.handler, token := p.token)];
        case None =>
          list := list[..i] + list[i + 1..];
      }
    }

    method RemoveIfCurrent(f: Filter, token: nat)
      modifies this`list
      ensures View() == RemovedIfCurrent(old(View()), f, token)
    {
      var i := Search(f);
      if i < |list| && list[i].token == token {
        list := list[..i] + list[i + 1..];
      }
    }
  }

  // ---------------------------------------------------------------- one operation

  ghost predicate Unique(list: seq<Subscription>) {
    forall i, j | 0 <= i < j < |list| :: list[i].filter != list[j].filter
  }

  ghost predicate Stamped(r: Subs) {
    forall e | e in r.list :: e.token <= r.stamp
  }

  lemma FindIs(list: seq<Subscription>, i: nat)
    requires Unique(list) && i < |list|
    ensures Find(list, list[i].filter) == i
  {
    FindSpec(list, list[i].filter);
  }

  lemma {:induction false} FindSameFilters(a: seq<Subscription>, b: seq<Subscription>, f: Filter)
    requires |a| == |b| && forall i | 0 <= i < |a| :: a[i].filter == b[i].filter
    ensures Find(a, f) == Find(b, f)
  {
    if a != [] {
      forall i | 0 <= i < |a[1..]|
        ensures a[1..][i].filter == b[1..][i].filter
      {
        assert a[i + 1].filter == b[i + 1].filter;
      }
      FindSameFilters(a[1..], b[1..], f);
    }
  }

  lemma {:induction false} FindSnoc(a: seq<Subscription>, e: Subscription, f: Filter)
    ensures Find(a + [e], f) == if Find(a, f) < |a| || e.filter == f then Find(a, f) else |a| + 1
  {
    if a == [] {
      assert a + [e] == [e] && [e][1..] == [];
    } else {
      assert (a + [e])[1..] == a[1..] + [e];
      FindSnoc(a[1..], e, f);
      FindSpec(a[1..], f);
    }
  }

  /** What looking a filter up finds after each operation. */
  lemma SnapshotAdded(r: Subs, f: Filter, options: nat, handler: nat, subId: nat, g: Filter)
    requires Unique(r.list)
    ensures Unique(Added(r, f, options, handler, subId).list)
    ensures Snapshot(Added(r, f, options, handler, subId), g) ==
      if g == f then Some(Subscription(f, handler, options, r.stamp + 1, subId)) else Snapshot(r, g)
  {
    var t := Added(r, f, options, handler, subId);
    FindSpec(r.list, f);
    FindSpec(r.list, g);
    if Find(r.list, f) < |r.list| {
      FindSameFilters(r.list, t.list, g);
      if g != f {
        assert Find(r.list, g) != Find(r.list, f);
      }
    } else {
      FindSnoc(r.list, t.list[|r.list|], g);
    }
  }

  lemma CutUnique(list: seq<Subscription>, i: nat)
    requires Unique(list) && i < |list|
    ensures Unique(Cut(list, i))
    ensures forall e :: e in Cut(list, i) <==> e in list && e.filter != list[i].filter
  {
  }

  lemma SnapshotMember(r: Subs, f: Filter, e: Subscription)
    requires Unique(r.list)
    ensures Snapshot(r, f) == Some(e) <==> e in r.list && e.filter == f
  {
    FindSpec(r.list, f);
    if e in r.list && e.filter == f {
      var k :| 0 <= k < |r.list| && r.list[k] == e;
      FindIs(r.list, k);
    }
  }

  lemma SnapshotCut(r: Subs, f: Filter, g: Filter)
    requires Unique(r.list) && Find(r.list, f) < |r.list|
    ensures var t := r.(list := Cut(r.list, Find(r.list, f)));
      Unique(t.list) && Snapshot(t, g) == if g == f then None else Snapshot(r, g)
  {
    var i := Find(r.list, f);
    var t := r.(list := Cut(r.list, i));
    FindSpec(r.list, f);
    CutUnique(r.list, i);
    if Snapshot(t, g).Some? {
      SnapshotMember(t, g, Snapshot(t, g).value);
      SnapshotMember(r, g, Snapshot(t, g).value);
    }
    if Snapshot(r, g).Some? && g != f {
      SnapshotMember(r, g, Snapshot(r, g).value);
      SnapshotMember(t, g, Snapshot(r, g).value);
    }
  }

  lemma SnapshotRestored(r: Subs, f: Filter, prev: Option<Subscription>, token: nat, g: Filter)
    requires Unique(r.list)
    ensures Unique(Restored(r, f, prev, token).list)
    ensures g != f || Snapshot(r, f).None? || Snapshot(r, f).value.token != token ==>
      Snapshot(Restored(r, f, prev, token), g) == Snapshot(r, g)
  {
    var i := Find(r.list, f);
    FindSpec(r.list, f);
    if i < |r.list| && r.list[i].token == token {
      if prev.None? {
        SnapshotCut(r, f, g);
      } else {
        FindSpec(r.list, g);
        FindSameFilters(r.list, Restored(r, f, prev, token).list, g);
      }
    }
  }

  lemma SnapshotRemoved(r: Subs, f: Filter, token: nat, g: Filter)
    requires Unique(r.list)
    ensures Unique(RemovedIfCurrent(r, f, token).list)
    ensures g != f || Snapshot(r, f).None? || Snapshot(r, f).value.token != token ==>
      Snapshot(RemovedIfCurrent(r, f, token), g) == Snapshot(r, g)
  {
    var i := Find(r.list, f);
    FindSpec(r.list, f);
    if i < |r.list| && r.list[i].token == token {
      SnapshotCut(r, f, g);
    }
  }

  /**
   Rolling back a failed SUBSCRIBE that nothing interfered with restores the list exactly when
   there was no earlier entry, or the earlier one carried the same subscription identifier.
   */
  lemma RollbackExact(r: Subs, f: Filter, options: nat, handler: nat, subId: nat)
    requires Unique(r.list)
    ensures var t := Restored(Added(r, f, options, handler, subId), f, Snapshot(r, f), r.stamp + 1);
      t.list == r.list <==> Snapshot(r, f).None? || Snapshot(r, f).value.subId == subId
  {
    var a := Added(r, f, options, handler, subId);
    var t := Restored(a, f, Snapshot(r, f), r.stamp + 1);
    var i := Find(r.list, f);
    FindSpec(r.list, f);
    FindSpec(a.list, f);
    SnapshotAdded(r, f, options, handler, subId, f);
    assert Find(a.list, f) == i;
    if i < |r.list| {
      assert t.list[i] == r.list[i].(subId := subId);
      if r.list[i].subId == subId {
        assert t.list == r.list;
      }
    } else {
      assert t.list == r.list;
    }
  }
}
