/**
 The reactions of Session seen from outside: what each packet finds, leaves, answers and hands on,
 for any store and any peer; and what the receiving side owes to the packets that came before.
 */
module Reactions {
  import opened Wrappers
  import opened IdAllocator
  import opened Store
  import opened Session

  // ---------------------------------------------------------------- one packet

  /** Every entry but those listed is as it was. */
  ghost predicate OnlyTouches(s: Contents, t: Contents, keys: set<Key>) {
    forall k: Key | k !in keys :: (k in s.msgs <==> k in t.msgs) && (k in s.msgs ==> t.msgs[k] == s.msgs[k])
  }

  /** Below QoS 2 a PUBLISH is always handed on, leaves the store alone and is answered exactly at QoS 1. */
  lemma BelowTwoExactly(s: Contents, id: PacketId, msg: Message, dup: bool)
    requires msg.qos <= 1
    ensures var r := Handle(s, Publish(id, msg, dup));
      && r.dispatched == [msg] && r.store == s && !r.ended
      && (r.replies != [] <==> msg.qos == 1)
      && (msg.qos == 1 ==> r.replies == [Puback(id, 0x00)])
  {
  }

  /** At QoS 2 it is handed on exactly when no record of its identifier is found, and always leaves one. */
  lemma QosTwoExactly(s: Contents, id: PacketId, msg: Message, dup: bool)
    requires msg.qos == 2
    ensures var r, k := Handle(s, Publish(id, msg, dup)), Key(id, StoredInboundID);
      && r.dispatched == (if k in s.msgs then [] else [msg])
      && r.replies == [Pubrec(id, 0x00)] && !r.ended
      && k in r.store.msgs && OnlyTouches(s, r.store, {k})
  {
  }

  /** A PUBREL never leaves a record, and is told whether it found one. */
  lemma ReleaseExactly(s: Contents, id: PacketId, code: nat)
    ensures var r, k := Handle(s, Pubrel(id, code)), Key(id, StoredInboundID);
      && r.replies == [Pubcomp(id, if k in s.msgs then 0x00 else 0x92)] && r.dispatched == [] && !r.ended
      && k !in r.store.msgs && OnlyTouches(s, r.store, {k})
  {
  }

  /** The packets that end an exchange: which entry each must find. */
  ghost predicate EndsAt(f: Frame, k: Key) {
    || (f.Puback? && k == Key(f.id, StoredPublish))
    || (f.Pubrec? && f.code >= 0x80 && k == Key(f.id, StoredPublish))
    || (f.Pubcomp? && k == Key(f.id, StoredPubrel))
  }

  /**
   An exchange ends exactly when a packet that ends it finds its entry: a PUBACK or PUBCOMP with
   any code, a PUBREC with any code from 0x80 up. That entry is then gone and nothing is answered.
   */
  lemma EndedExactly(s: Contents, f: Frame)
    ensures Handle(s, f).ended <==> exists k :: k in s.msgs && EndsAt(f, k)
    ensures forall k | k in s.msgs && EndsAt(f, k) ::
      var r := Handle(s, f);
      r.replies == [] && r.dispatched == [] && k !in r.store.msgs && OnlyTouches(s, r.store, {k})
  {
    if Handle(s, f).ended {
      var k := Key(f.id, if f.Pubcomp? then StoredPubrel else StoredPublish);
      assert k in s.msgs && EndsAt(f, k);
    }
  }

  /** An accepting PUBREC turns the PUBLISH into its PUBREL; one that finds no PUBLISH changes nothing. */
  lemma AcceptedExactly(s: Contents, id: PacketId, code: nat)
    requires code < 0x80 || Key(id, StoredPublish) !in s.msgs
    ensures var r, p, q := Handle(s, Pubrec(id, code)), Key(id, StoredPublish), Key(id, StoredPubrel);
      && r.replies == [Pubrel(id, if p in s.msgs || q in s.msgs then 0x00 else 0x92)]
      && r.dispatched == [] && !r.ended
      && p !in r.store.msgs && (q in r.store.msgs <==> p in s.msgs || q in s.msgs)
      && OnlyTouches(s, r.store, if p in s.msgs then {p, q} else {})
  {
  }

  // ---------------------------------------------------------------- any peer

  /** The store after a series of packets, whoever sent them. */
  function After(s: Contents, fs: seq<Frame>): Contents {
    if fs == [] then s else Handle(After(s, fs[..|fs| - 1]), fs[|fs| - 1]).store
  }

  predicate Opens(f: Frame, id: PacketId) {
    f.Publish? && f.msg.qos == 2 && f.id == id
  }

  predicate Closes(f: Frame, id: PacketId) {
    f.Pubrel? && f.id == id
  }

  /** No PUBREL of `id` from position `i` on. */
  ghost predicate Unreleased(fs: seq<Frame>, i: nat, id: PacketId) {
    forall j | i <= j < |fs| :: !Closes(fs[j], id)
  }

  /** A QoS 2 PUBLISH of `id` came, or a record of it was kept, and no PUBREL since. */
  ghost predicate Open(s: Contents, fs: seq<Frame>, id: PacketId) {
    || (Key(id, StoredInboundID) in s.msgs && Unreleased(fs, 0, id))
    || exists i: nat :: i < |fs| && Opens(fs[i], id) && Unreleased(fs, i, id)
  }

  lemma OpenStep(s: Contents, fs: seq<Frame>, f: Frame, id: PacketId)
    ensures Open(s, fs + [f], id) <==> Opens(f, id) || (Open(s, fs, id) && !Closes(f, id))
  {
    var gs := fs + [f];
    assert gs[|fs|] == f;
    assert forall i: nat | i <= |fs| :: Unreleased(gs, i, id) <==> Unreleased(fs, i, id) && !Closes(f, id) by {
      forall i: nat | i <= |fs|
        ensures Unreleased(gs, i, id) <==> Unreleased(fs, i, id) && !Closes(f, id)
      {
        if Unreleased(gs, i, id) {
          assert forall j | i <= j < |fs| :: gs[j] == fs[j];
        }
      }
    }
    if Opens(f, id) {
      assert Unreleased(gs, |fs|, id);
    } else if Open(s, gs, id) && !(Key(id, StoredInboundID) in s.msgs && Unreleased(gs, 0, id)) {
      var i: nat :| i < |gs| && Opens(gs[i], id) && Unreleased(gs, i, id);
      assert gs[i] == fs[i];
    }
  }

  lemma RecordStep(s: Contents, f: Frame, id: PacketId)
    ensures Key(id, StoredInboundID) in Handle(s, f).store.msgs <==>
            Opens(f, id) || (Key(id, StoredInboundID) in s.msgs && !Closes(f, id))
  {
  }

  /** The record of an identifier stands exactly between a QoS 2 PUBLISH and the next PUBREL of it. */
  lemma {:induction false} RecordedExactly(s: Contents, fs: seq<Frame>, id: PacketId)
    ensures Key(id, StoredInboundID) in After(s, fs).msgs <==> Open(s, fs, id)
  {
    if fs == [] {
      assert Unreleased(fs, 0, id);
    } else {
      var l, f := fs[..|fs| - 1], fs[|fs| - 1];
      assert fs == l + [f];
      RecordedExactly(s, l, id);
      OpenStep(s, l, f, id);
      RecordStep(After(s, l), f, id);
    }
  }

  /**
   Whatever a peer sends and whatever the store held before: a QoS 2 PUBLISH is handed on exactly
   when its identifier is not open, and a PUBREL is told 0x92 exactly then.
   */
  lemma OncePerExchange(s: Contents, fs: seq<Frame>, id: PacketId, msg: Message, dup: bool, code: nat)
    requires msg.qos == 2
    ensures Handle(After(s, fs), Publish(id, msg, dup)).dispatched == (if Open(s, fs, id) then [] else [msg])
    ensures Handle(After(s, fs), Pubrel(id, code)).replies == [Pubcomp(id, if Open(s, fs, id) then 0x00 else 0x92)]
  {
    RecordedExactly(s, fs, id);
  }
}
