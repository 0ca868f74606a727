/**
 The in-memory session store: a map from (packet identifier, kind) to entries that carry a
 store-assigned sequence number. Replay order is ascending sequence number.
 */
module Store {
  import opened Wrappers
  import opened IdAllocator

  datatype Kind = StoredPublish | StoredPubrel | StoredInboundID

  /** An application message; `token` tells two publishes of equal content apart. */
  datatype Message = Message(token: nat, qos: nat)

  datatype Key = Key(id: PacketId, kind: Kind)

  datatype StoredMessage = StoredMessage(publish: Option<Message>, seqNo: nat, id: PacketId, kind: Kind) {
    function Slot(): Key {
      Key(id, kind)
    }
  }

  /** The map and the sequence counter. */
  datatype Contents = Contents(msgs: map<Key, StoredMessage>, seqNo: nat)

  const EMPTY := Contents(map[], 0)

  function Saved(s: Contents, m: StoredMessage): Contents {
    if m.Slot() in s.msgs then
      s.(msgs := s.msgs[m.Slot() := m.(seqNo := s.msgs[m.Slot()].seqNo)])
    else
      Contents(s.msgs[m.Slot() := m.(seqNo := s.seqNo + 1)], s.seqNo + 1)
  }

  function Deleted(s: Contents, id: PacketId, kind: Kind): Contents {
    s.(msgs := s.msgs - {Key(id, kind)})
  }

  predicate Stored(s: Contents, id: PacketId, kind: Kind) {
    Key(id, kind) in s.msgs
  }

  /** Entries sit under their own key, and every sequence number is issued once. */
  ghost predicate Valid(s: Contents) {
    && (forall k | k in s.msgs :: s.msgs[k].Slot() == k && 1 <= s.msgs[k].seqNo <= s.seqNo)
    && (forall k, k' | k in s.msgs && k' in s.msgs && s.msgs[k].seqNo == s.msgs[k'].seqNo :: k == k')
  }

  lemma SavedValid(s: Contents, m: StoredMessage)
    requires Valid(s)
    ensures Valid(Saved(s, m))
  {
  }

  lemma DeletedValid(s: Contents, id: PacketId, kind: Kind)
    requires Valid(s)
    ensures Valid(Deleted(s, id, kind))
  {
  }

  // ---------------------------------------------------------------- replay order

  ghost predicate HasSeq(s: Contents, n: nat) {
    exists k :: k in s.msgs && s.msgs[k].seqNo == n
  }

  /** The entry with sequence number `n`, if it is still stored. */
  ghost function EntryAt(s: Contents, n: nat): seq<StoredMessage> {
    if HasSeq(s, n) then
      var k :| k in s.msgs && s.msgs[k].seqNo == n;
      [s.msgs[k]]
    else
      []
  }

  /** The entries with sequence numbers 1..n, in that order. */
  ghost function Upto(s: Contents, n: nat): seq<StoredMessage> {
    if n == 0 then [] else Upto(s, n - 1) + EntryAt(s, n)
  }

  /** Every entry, ascending. */
  ghost function InOrder(s: Contents): seq<StoredMessage> {
    Upto(s, s.seqNo)
  }

  lemma EntryAtIs(s: Contents, k: Key)
    requires Valid(s) && k in s.msgs
    ensures EntryAt(s, s.msgs[k].seqNo) == [s.msgs[k]]
  {
  }

  lemma EntryAtSlot(s: Contents, n: nat)
    requires Valid(s)
    ensures |EntryAt(s, n)| <= 1
    ensures EntryAt(s, n) != [] ==>
      var m := EntryAt(s, n)[0];
      m.seqNo == n && m.Slot() in s.msgs && s.msgs[m.Slot()] == m
  {
  }

  predicate Ascending(l: seq<StoredMessage>) {
    forall i, j | 0 <= i < j < |l| :: l[i].seqNo < l[j].seqNo
  }

  /** `l` holds exactly the entries of `s`, in ascending order: the contract of `SessionStore.All`. */
  ghost predicate IsSnapshot(s: Contents, l: seq<StoredMessage>) {
    && Ascending(l)
    && (forall m | m in l :: m.Slot() in s.msgs && s.msgs[m.Slot()] == m)
    && (forall k | k in s.msgs :: s.msgs[k] in l)
  }

  lemma AscendingSnoc(l: seq<StoredMessage>, m: StoredMessage)
    requires Ascending(l) && forall x | x in l :: x.seqNo < m.seqNo
    ensures Ascending(l + [m])
  {
    forall i, j | 0 <= i < j < |l + [m]|
      ensures (l + [m])[i].seqNo < (l + [m])[j].seqNo
    {
      assert l[i] in l;
    }
  }

  lemma {:induction false} UptoEntries(s: Contents, n: nat)
    requires Valid(s)
    ensures Ascending(Upto(s, n))
    ensures forall m | m in Upto(s, n) :: m.Slot() in s.msgs && s.msgs[m.Slot()] == m && m.seqNo <= n
    ensures forall k | k in s.msgs && s.msgs[k].seqNo <= n :: s.msgs[k] in Upto(s, n)
  {
    if n > 0 {
      UptoEntries(s, n - 1);
      EntryAtSlot(s, n);
      var l, e := Upto(s, n - 1), EntryAt(s, n);
      if e == [] {
        assert l + e == l;
      } else {
        assert e == [e[0]];
        AscendingSnoc(l, e[0]);
      }
      forall k | k in s.msgs && s.msgs[k].seqNo == n
        ensures s.msgs[k] in e
      {
        EntryAtIs(s, k);
      }
      assert Upto(s, n) == l + e;
      hide Ascending, EntryAt, Upto;
    }
  }

  lemma AllIsSnapshot(s: Contents)
    requires Valid(s)
    ensures IsSnapshot(s, InOrder(s))
  {
    UptoEntries(s, s.seqNo);
  }

  lemma EmptyOrInhabited(l: seq<StoredMessage>)
    ensures l == [] || exists m :: m in l
  {
    if l != [] {
      assert l[0] in l;
    }
  }

  lemma {:induction false} SameElements(a: seq<StoredMessage>, b: seq<StoredMessage>)
    requires Ascending(a) && Ascending(b)
    requires forall m :: m in a <==> m in b
    ensures a == b
  {
    if a == [] {
      EmptyOrInhabited(b);
    } else if b == [] {
      EmptyOrInhabited(a);
    } else {
      var a', x := a[..|a| - 1], a[|a| - 1];
      var b', y := b[..|b| - 1], b[|b| - 1];
      assert x in b && y in a;
      assert x == y;
      forall m
        ensures m in a' <==> m in b'
      {
        assert m in a <==> m in a' || m == x;
        assert m in b <==> m in b' || m == y;
      }
      SameElements(a', b');
    }
  }

  /** A store has only one snapshot, so `All` is determined by the map alone. */
  lemma SnapshotIsAll(s: Contents, l: seq<StoredMessage>)
    requires Valid(s) && IsSnapshot(s, l)
    ensures l == InOrder(s)
  {
    AllIsSnapshot(s);
    forall m
      ensures m in l <==> m in InOrder(s)
    {
    }
    SameElements(l, InOrder(s));
  }

  // ---------------------------------------------------------------- refinement of an ordered list

  /** What replay needs of an entry: the key and the packet, without the sequence number. */
  datatype Item = Item(key: Key, publish: Option<Message>)

  function ToItem(m: StoredMessage): Item {
    Item(m.Slot(), m.publish)
  }

  ghost function Items(l: seq<StoredMessage>): seq<Item> {
    seq(|l|, i requires 0 <= i < |l| => ToItem(l[i]))
  }

  ghost predicate Holds(l: seq<Item>, k: Key) {
    exists i :: 0 <= i < |l| && l[i].key == k
  }

  /** Replaces the item of that key in place. */
  ghost function Replaced(l: seq<Item>, it: Item): seq<Item> {
    seq(|l|, i requires 0 <= i < |l| => if l[i].key == it.key then it else l[i])
  }

  ghost function Without(l: seq<Item>, k: Key): seq<Item> {
    if l == [] then []
    else Without(l[..|l| - 1], k) + (if l[|l| - 1].key == k then [] else [l[|l| - 1]])
  }

  datatype Op = Save(m: StoredMessage) | Delete(id: PacketId, kind: Kind) | Reset

  function Applied(s: Contents, op: Op): Contents {
    match op
    case Save(m) => Saved(s, m)
    case Delete(id, kind) => Deleted(s, id, kind)
    case Reset => EMPTY
  }

  /** The same operation on a plain list kept in order of first save. */
  ghost function AppliedToList(l: seq<Item>, op: Op): seq<Item> {
    match op
    case Save(m) =>
      var it := Item(m.Slot(), m.publish);
      if Holds(l, it.key) then Replaced(l, it) else l + [it]
    case Delete(id, kind) => Without(l, Key(id, kind))
    case Reset => []
  }

  function RunOps(ops: seq<Op>): Contents {
    if ops == [] then EMPTY else Applied(RunOps(ops[..|ops| - 1]), ops[|ops| - 1])
  }

  ghost function RunList(ops: seq<Op>): seq<Item> {
    if ops == [] then [] else AppliedToList(RunList(ops[..|ops| - 1]), ops[|ops| - 1])
  }

  lemma WithoutSnoc(l: seq<Item>, x: Item, k: Key)
    ensures Without(l + [x], k) == Without(l, k) + (if x.key == k then [] else [x])
  {
    assert (l + [x])[..|l|] == l;
  }

  lemma ItemsHold(l: seq<StoredMessage>, k: Key)
    ensures Holds(Items(l), k) <==> exists m :: m in l && m.Slot() == k
  {
    if m :| m in l && m.Slot() == k {
      var i :| 0 <= i < |l| && l[i] == m;
      assert Items(l)[i].key == k;
    }
  }

  lemma AllHolds(s: Contents, k: Key)
    requires Valid(s)
    ensures Holds(Items(InOrder(s)), k) <==> k in s.msgs
  {
    AllIsSnapshot(s);
    ItemsHold(InOrder(s), k);
  }

  /** What `Saved` and `Deleted` do to one sequence number. */
  lemma EntryAtSaved(s: Contents, m: StoredMessage, n: nat)
    requires Valid(s)
    ensures m.Slot() in s.msgs ==>
      EntryAt(Saved(s, m), n) == (if n == s.msgs[m.Slot()].seqNo then [m.(seqNo := n)] else EntryAt(s, n))
    ensures m.Slot() !in s.msgs && n <= s.seqNo ==> EntryAt(Saved(s, m), n) == EntryAt(s, n)
    ensures m.Slot() !in s.msgs && n == s.seqNo + 1 ==> EntryAt(Saved(s, m), n) == [m.(seqNo := n)]
  {
    var t := Saved(s, m);
    SavedValid(s, m);
    EntryAtIs(t, m.Slot());
    if HasSeq(t, n) {
      var k :| k in t.msgs && t.msgs[k].seqNo == n;
      EntryAtIs(t, k);
      if k != m.Slot() {
        EntryAtIs(s, k);
      }
    }
    if HasSeq(s, n) {
      var k :| k in s.msgs && s.msgs[k].seqNo == n;
      EntryAtIs(s, k);
      assert k in t.msgs;
    }
  }

  lemma EntryAtDeleted(s: Contents, id: PacketId, kind: Kind, n: nat)
    requires Valid(s)
    ensures EntryAt(Deleted(s, id, kind), n) ==
      if Key(id, kind) in s.msgs && s.msgs[Key(id, kind)].seqNo == n then [] else EntryAt(s, n)
  {
    var t := Deleted(s, id, kind);
    DeletedValid(s, id, kind);
    if HasSeq(t, n) {
      var k :| k in t.msgs && t.msgs[k].seqNo == n;
      EntryAtIs(t, k);
      EntryAtIs(s, k);
    }
    if HasSeq(s, n) {
      var k :| k in s.msgs && s.msgs[k].seqNo == n;
      EntryAtIs(s, k);
      assert k != Key(id, kind) ==> k in t.msgs;
    }
  }

  lemma {:induction false} UptoSavedNew(s: Contents, m: StoredMessage, n: nat)
    requires Valid(s) && m.Slot() !in s.msgs && n <= s.seqNo
    ensures Upto(Saved(s, m), n) == Upto(s, n)
  {
    if n > 0 {
      UptoSavedNew(s, m, n - 1);
      EntryAtSaved(s, m, n);
    }
  }

  lemma ItemsConcat(a: seq<StoredMessage>, b: seq<StoredMessage>)
    ensures Items(a + b) == Items(a) + Items(b)
  {
  }

  lemma ReplacedConcat(a: seq<Item>, b: seq<Item>, it: Item)
    ensures Replaced(a + b, it) == Replaced(a, it) + Replaced(b, it)
  {
  }

  lemma {:induction false} UptoSavedOld(s: Contents, m: StoredMessage, n: nat)
    requires Valid(s) && m.Slot() in s.msgs
    ensures Items(Upto(Saved(s, m), n)) == Replaced(Items(Upto(s, n)), ToItem(m))
  {
    if n > 0 {
      UptoSavedOld(s, m, n - 1);
      EntryAtSaved(s, m, n);
      EntryAtIs(s, m.Slot());
      EntryAtSlot(s, n);
      var a, b := Upto(s, n - 1), EntryAt(s, n);
      var a', b' := Upto(Saved(s, m), n - 1), EntryAt(Saved(s, m), n);
      assert Items(b') == Replaced(Items(b), ToItem(m));
      ItemsConcat(a, b);
      ItemsConcat(a', b');
      ReplacedConcat(Items(a), Items(b), ToItem(m));
    }
  }

  lemma WithoutStep(a: seq<StoredMessage>, a': seq<StoredMessage>, b: seq<StoredMessage>, b': seq<StoredMessage>, k: Key)
    requires Items(a') == Without(Items(a), k)
    requires |b| <= 1 && b' == (if b != [] && b[0].Slot() == k then [] else b)
    ensures Items(a' + b') == Without(Items(a + b), k)
  {
    ItemsConcat(a, b);
    ItemsConcat(a', b');
    if b == [] {
      assert a + b == a && a' + b' == a';
    } else {
      assert Items(b) == [ToItem(b[0])];
      WithoutSnoc(Items(a), ToItem(b[0]), k);
    }
  }

  lemma {:induction false} UptoDeleted(s: Contents, id: PacketId, kind: Kind, n: nat)
    requires Valid(s)
    ensures Items(Upto(Deleted(s, id, kind), n)) == Without(Items(Upto(s, n)), Key(id, kind))
  {
    if n > 0 {
      UptoDeleted(s, id, kind, n - 1);
      EntryAtDeleted(s, id, kind, n);
      EntryAtSlot(s, n);
      WithoutStep(Upto(s, n - 1), Upto(Deleted(s, id, kind), n - 1), EntryAt(s, n), EntryAt(Deleted(s, id, kind), n),
        Key(id, kind));
    }
  }

  lemma SavedRefines(s: Contents, m: StoredMessage)
    requires Valid(s)
    ensures Items(InOrder(Saved(s, m))) == AppliedToList(Items(InOrder(s)), Save(m))
  {
    AllHolds(s, m.Slot());
    if m.Slot() in s.msgs {
      UptoSavedOld(s, m, s.seqNo);
    } else {
      UptoSavedNew(s, m, s.seqNo);
      EntryAtSaved(s, m, s.seqNo + 1);
      assert InOrder(Saved(s, m)) == InOrder(s) + [m.(seqNo := s.seqNo + 1)];
    }
  }

  /** One operation on the map does to its replay order what the list operation does. */
  lemma AppliedRefines(s: Contents, op: Op)
    requires Valid(s)
    ensures Valid(Applied(s, op))
    ensures Items(InOrder(Applied(s, op))) == AppliedToList(Items(InOrder(s)), op)
  {
    match op
    case Save(m) =>
      SavedValid(s, m);
      SavedRefines(s, m);
    case Delete(id, kind) =>
      UptoDeleted(s, id, kind, s.seqNo);
    case Reset =>
  }

  /**
   After any run of saves, deletes and resets, replay order is the order of first save: the
   sorted map is a list that appends new keys, updates in place and forgets what is deleted.
   */
  lemma {:induction false} ReplayIsSaveOrder(ops: seq<Op>)
    ensures Valid(RunOps(ops)) && IsSnapshot(RunOps(ops), InOrder(RunOps(ops)))
    ensures Items(InOrder(RunOps(ops))) == RunList(ops)
  {
    if ops != [] {
      ReplayIsSaveOrder(ops[..|ops| - 1]);
      AppliedRefines(RunOps(ops[..|ops| - 1]), ops[|ops| - 1]);
    }
    AllIsSnapshot(RunOps(ops));
  }

  // ---------------------------------------------------------------- the store object

  lemma InsertedAscending(l: seq<StoredMessage>, m: StoredMessage, i: nat)
    requires Ascending(l) && i <= |l|
    requires i > 0 ==> l[i - 1].seqNo < m.seqNo
    requires i < |l| ==> m.seqNo < l[i].seqNo
    ensures Ascending(l[..i] + [m] + l[i..])
  {
  }

  lemma InsertedIsSnapshot(s: Contents, l: seq<StoredMessage>, m: StoredMessage, i: nat)
    requires IsSnapshot(s, l) && i <= |l|
    requires m.Slot() !in s.msgs
    requires i > 0 ==> l[i - 1].seqNo < m.seqNo
    requires i < |l| ==> m.seqNo < l[i].seqNo
    ensures IsSnapshot(s.(msgs := s.msgs[m.Slot() := m]), l[..i] + [m] + l[i..])
  {
    InsertedAscending(l, m, i);
    var out := l[..i] + [m] + l[i..];
    assert out[i] == m;
    forall x
      ensures x in out <==> x in l || x == m
    {
      assert l == l[..i] + l[i..];
    }
  }

  class MemStore {
    var msgs: map<Key, StoredMessage>
    var seqNo: nat

    ghost function View(): Contents
      reads this
    {
      Contents(msgs, seqNo)
    }

    constructor ()
      ensures View() == EMPTY
    {
      msgs := map[];
      seqNo := 0;
    }

    method Save(m: StoredMessage)
      modifies this
      ensures View() == Saved(old(View()), m)
    {
      var k := m.Slot();
      var stamped := m;
      if k in msgs {
        stamped := m.(seqNo := msgs[k].seqNo);
      } else {
        seqNo := seqNo + 1;
        stamped := m.(seqNo := seqNo);
      }
      msgs := msgs[k := stamped];
    }

    method Delete(id: PacketId, kind: Kind)
      modifies this
      ensures View() == Deleted(old(View()), id, kind)
    {
      msgs := msgs - {Key(id, kind)};
    }

    method Contains(id: PacketId, kind: Kind) returns (found: bool)
      ensures found == Stored(View(), id, kind)
    {
      found := Key(id, kind) in msgs;
    }

    /** Copies the entries out in map order, each into its place by sequence number. */
    method All() returns (out: seq<StoredMessage>)
      requires Valid(View())
      ensures out == InOrder(View())
    {
      out := [];
      var rest := msgs.Keys;
      while rest != {}
        invariant rest <= msgs.Keys
        invariant IsSnapshot(Contents(msgs - rest, seqNo), out)
        decreases rest
      {
        var k :| k in rest;
        ghost var done := Contents(msgs - rest, seqNo);
        out := Insert(out, msgs[k], done);
        rest := rest - {k};
        assert msgs - rest == done.msgs[k := msgs[k]];
      }
      assert msgs - rest == msgs;
      SnapshotIsAll(View(), out);
    }

    /** Places one entry among those already sorted. */
    static method Insert(l: seq<StoredMessage>, m: StoredMessage, ghost done: Contents) returns (out: seq<StoredMessage>)
      requires IsSnapshot(done, l)
      requires m.Slot() !in done.msgs
      requires forall k | k in done.msgs :: done.msgs[k].seqNo != m.seqNo
      ensures IsSnapshot(done.(msgs := done.msgs[m.Slot() := m]), out)
    {
      var i := |l|;
      while i > 0 && m.seqNo < l[i - 1].seqNo
        invariant 0 <= i <= |l|
        invariant i < |l| ==> m.seqNo < l[i].seqNo
      {
        i := i - 1;
      }
      assert i > 0 ==> l[i - 1] in l;
      out := l[..i] + [m] + l[i..];
      InsertedIsSnapshot(done, l, m, i);
    }

    method Reset()
      modifies this
      ensures View() == EMPTY
    {
      msgs := map[];
      seqNo := 0;
    }
  }
}
