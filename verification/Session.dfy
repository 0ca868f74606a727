/** The QoS 1 and QoS 2 session: the reactions of the read loop to each packet. */
module Session {
  import opened Wrappers
  import opened IdAllocator
  import opened Store

  const SUCCESS: nat := 0x00
  const PACKET_ID_NOT_FOUND: nat := 0x92

  predicate IsError(code: nat) {
    code >= 0x80
  }

  datatype Frame =
    | Publish(id: PacketId, msg: Message, dup: bool)
    | Puback(id: PacketId, code: nat)
    | Pubrec(id: PacketId, code: nat)
    | Pubrel(id: PacketId, code: nat)
    | Pubcomp(id: PacketId, code: nat)

  /** The reason code a packet carries to a waiter. */
  function CodeOf(f: Frame): nat {
    if f.Publish? then SUCCESS else f.code
  }

  /**
   What handling one packet does: the store it leaves, the packets written back, the messages
   handed to the application, and the outbound exchange it ends, if any.
   */
  datatype Reaction = Reaction(store: Contents, replies: seq<Frame>, dispatched: seq<Message>, ended: bool)

  function InboundEntry(id: PacketId): StoredMessage {
    StoredMessage(None, 0, id, StoredInboundID)
  }

  function PublishEntry(id: PacketId, msg: Message): StoredMessage {
    StoredMessage(Some(msg), 0, id, StoredPublish)
  }

  function PubrelEntry(id: PacketId): StoredMessage {
    StoredMessage(None, 0, id, StoredPubrel)
  }

  /** An inbound QoS 2 PUBLISH: dispatched, recorded and answered once, then only answered. */
  function OnPublish2(s: Contents, id: PacketId, msg: Message): Reaction {
    if Stored(s, id, StoredInboundID) then
      Reaction(s, [Pubrec(id, SUCCESS)], [], false)
    else
      Reaction(Saved(s, InboundEntry(id)), [Pubrec(id, SUCCESS)], [msg], false)
  }

  function OnPublish(s: Contents, id: PacketId, msg: Message): Reaction {
    if msg.qos == 2 then OnPublish2(s, id, msg)
    else Reaction(s, if msg.qos == 1 then [Puback(id, SUCCESS)] else [], [msg], false)
  }

  /** An inbound PUBREL: the record is dropped; an unknown identifier is answered as such. */
  function OnPubrel(s: Contents, id: PacketId): Reaction {
    if Stored(s, id, StoredInboundID) then
      Reaction(Deleted(s, id, StoredInboundID), [Pubcomp(id, SUCCESS)], [], false)
    else
      Reaction(s, [Pubcomp(id, PACKET_ID_NOT_FOUND)], [], false)
  }

  /** A PUBACK or PUBCOMP: ends the exchange stored under that kind. */
  function OnTerminal(s: Contents, id: PacketId, kind: Kind): Reaction {
    if Stored(s, id, kind) then Reaction(Deleted(s, id, kind), [], [], true) else Reaction(s, [], [], false)
  }

  /** A PUBREC: supersedes the PUBLISH by its PUBREL, aborts, repeats the PUBREL or disowns it. */
  function OnPubrec(s: Contents, id: PacketId, code: nat): Reaction {
    if Stored(s, id, StoredPublish) then
      if IsError(code) then
        Reaction(Deleted(s, id, StoredPublish), [], [], true)
      else
        Reaction(Deleted(Saved(s, PubrelEntry(id)), id, StoredPublish), [Pubrel(id, SUCCESS)], [], false)
    else if Stored(s, id, StoredPubrel) then
      Reaction(s, [Pubrel(id, SUCCESS)], [], false)
    else
      Reaction(s, [Pubrel(id, PACKET_ID_NOT_FOUND)], [], false)
  }

  function Handle(s: Contents, f: Frame): Reaction {
    match f
    case Publish(id, msg, _) => OnPublish(s, id, msg)
    case Puback(id, _) => OnTerminal(s, id, StoredPublish)
    case Pubrec(id, code) => OnPubrec(s, id, code)
    case Pubrel(id, _) => OnPubrel(s, id)
    case Pubcomp(id, _) => OnTerminal(s, id, StoredPubrel)
  }

  // ---------------------------------------------------------------- what is in flight

  predicate Outbound(k: Key) {
    k.kind != StoredInboundID
  }

  function Legs(ks: set<Key>): set<Key> {
    set k | k in ks && Outbound(k)
  }

  function LegIds(ks: set<Key>): set<PacketId> {
    set id: PacketId | 0 <= id < PACKET_ID_SPACE && (Key(id, StoredPublish) in ks || Key(id, StoredPubrel) in ks)
  }

  /** The PUBLISH and PUBREL entries, each of which holds one send permit. */
  function InFlight(s: Contents): nat {
    |Legs(s.msgs.Keys)|
  }

  function OutboundIds(s: Contents): set<PacketId> {
    LegIds(s.msgs.Keys)
  }

  /** No identifier is in both legs of an exchange. */
  ghost predicate OneLeg(ks: set<Key>) {
    forall id: PacketId | Key(id, StoredPublish) in ks :: Key(id, StoredPubrel) !in ks
  }

  /** The shape of a store every run keeps. */
  ghost predicate Sound(s: Contents) {
    Valid(s) && OneLeg(s.msgs.Keys)
  }

  lemma LegsWith(ks: set<Key>, k: Key)
    requires k !in ks && OneLeg(ks)
    requires Outbound(k) ==> k.id !in LegIds(ks)
    ensures OneLeg(ks + {k})
    ensures |Legs(ks + {k})| == |Legs(ks)| + (if Outbound(k) then 1 else 0)
    ensures LegIds(ks + {k}) == LegIds(ks) + (if Outbound(k) then {k.id} else {})
  {
    if Outbound(k) {
      assert Legs(ks + {k}) == Legs(ks) + {k};
      assert k == Key(k.id, StoredPublish) || k == Key(k.id, StoredPubrel);
    } else {
      assert Legs(ks + {k}) == Legs(ks);
      assert LegIds(ks + {k}) == LegIds(ks);
    }
  }

  lemma LegsWithout(ks: set<Key>, k: Key)
    requires k in ks && OneLeg(ks)
    ensures OneLeg(ks - {k})
    ensures |Legs(ks - {k})| == |Legs(ks)| - (if Outbound(k) then 1 else 0)
    ensures LegIds(ks - {k}) == LegIds(ks) - (if Outbound(k) then {k.id} else {})
    ensures Outbound(k) ==> k.id in LegIds(ks)
  {
    assert Legs(ks - {k}) == Legs(ks) - (if Outbound(k) then {k} else {});
    if Outbound(k) {
      assert k in Legs(ks);
      assert k == Key(k.id, StoredPublish) || k == Key(k.id, StoredPubrel);
    }
  }

  lemma LegsSwapped(ks: set<Key>, id: PacketId)
    requires Key(id, StoredPublish) in ks && OneLeg(ks)
    ensures OneLeg(ks + {Key(id, StoredPubrel)} - {Key(id, StoredPublish)})
    ensures var t := ks + {Key(id, StoredPubrel)} - {Key(id, StoredPublish)};
      |Legs(t)| == |Legs(ks)| && LegIds(t) == LegIds(ks)
  {
    var t := ks + {Key(id, StoredPubrel)} - {Key(id, StoredPublish)};
    assert Legs(t) == Legs(ks) + {Key(id, StoredPubrel)} - {Key(id, StoredPublish)};
    assert Key(id, StoredPublish) in Legs(ks);
  }

  lemma SavedKeys(s: Contents, m: StoredMessage)
    ensures Saved(s, m).msgs.Keys == s.msgs.Keys + {m.Slot()}
  {
  }

  /** A reaction keeps what is in flight, except for the exchange of `id` when it ends it. */
  ghost predicate Balanced(s: Contents, r: Reaction, id: PacketId) {
    && Sound(r.store)
    && InFlight(r.store) == InFlight(s) - (if r.ended then 1 else 0)
    && OutboundIds(r.store) == OutboundIds(s) - (if r.ended then {id} else {})
    && (r.ended ==> id in OutboundIds(s))
  }

  lemma PublishBalanced(s: Contents, id: PacketId, msg: Message)
    requires Sound(s)
    ensures Balanced(s, OnPublish(s, id, msg), id)
  {
    if msg.qos == 2 && !Stored(s, id, StoredInboundID) {
      SavedValid(s, InboundEntry(id));
      SavedKeys(s, InboundEntry(id));
      LegsWith(s.msgs.Keys, Key(id, StoredInboundID));
    }
  }

  lemma DeletedBalanced(s: Contents, id: PacketId, kind: Kind)
    requires Sound(s) && Stored(s, id, kind)
    ensures Balanced(s, Reaction(Deleted(s, id, kind), [], [], kind != StoredInboundID), id)
  {
    DeletedValid(s, id, kind);
    assert Deleted(s, id, kind).msgs.Keys == s.msgs.Keys - {Key(id, kind)};
    LegsWithout(s.msgs.Keys, Key(id, kind));
  }

  lemma SupersededBalanced(s: Contents, id: PacketId)
    requires Sound(s) && Stored(s, id, StoredPublish)
    ensures Balanced(s, OnPubrec(s, id, SUCCESS), id)
  {
    var mid := Saved(s, PubrelEntry(id));
    SavedValid(s, PubrelEntry(id));
    SavedKeys(s, PubrelEntry(id));
    DeletedValid(mid, id, StoredPublish);
    assert Deleted(mid, id, StoredPublish).msgs.Keys == s.msgs.Keys + {Key(id, StoredPubrel)} - {Key(id, StoredPublish)};
    LegsSwapped(s.msgs.Keys, id);
  }

  lemma PubrecBalanced(s: Contents, id: PacketId, code: nat)
    requires Sound(s)
    ensures Balanced(s, OnPubrec(s, id, code), id)
  {
    if Stored(s, id, StoredPublish) {
      if IsError(code) {
        DeletedBalanced(s, id, StoredPublish);
      } else {
        SupersededBalanced(s, id);
      }
    }
  }

  /** Handling any packet keeps what is in flight, except for the exchange it ends. */
  lemma HandleBalanced(s: Contents, f: Frame)
    requires Sound(s)
    ensures Balanced(s, Handle(s, f), f.id)
  {
    match f
    case Publish(id, msg, _) =>
      PublishBalanced(s, id, msg);
    case Pubrec(id, code) =>
      PubrecBalanced(s, id, code);
    case Puback(id, _) =>
      if Stored(s, id, StoredPublish) {
        DeletedBalanced(s, id, StoredPublish);
      }
    case Pubrel(id, _) =>
      if Stored(s, id, StoredInboundID) {
        DeletedBalanced(s, id, StoredInboundID);
      }
    case Pubcomp(id, _) =>
      if Stored(s, id, StoredPubrel) {
        DeletedBalanced(s, id, StoredPubrel);
      }
  }
}
