/**
 Inbound topic aliases. A PUBLISH with a topic and an alias records the topic under the alias; one
 with an alias and no topic stands for the recorded topic. The table belongs to one link.
 */
module Alias {
  import opened Wrappers
  import opened Bytes
  import opened Wire
  import opened Properties
  import opened Packets
  import Topic

  /** The alias a packet carries. */
  function AliasOf(p: PublishPacket): Option<nat> {
    if p.props.Some? && TOPIC_ALIAS in p.props.value.nums then Some(p.props.value.nums[TOPIC_ALIAS]) else None
  }

  /** The topic a packet stands for, or nothing on a violation. */
  function Resolved(aliases: map<nat, bytes>, max: nat, p: PublishPacket): Option<bytes> {
    match AliasOf(p)
    case None => Some(p.topic)
    case Some(a) =>
      if a == 0 || a > max then None
      else if p.topic != [] then Some(p.topic)
      else if a in aliases then Some(aliases[a])
      else None
  }

  function Recorded(aliases: map<nat, bytes>, max: nat, p: PublishPacket): map<nat, bytes> {
    match AliasOf(p)
    case None => aliases
    case Some(a) => if a == 0 || a > max || p.topic == [] then aliases else aliases[a := p.topic]
  }

  class Link {
    var aliases: map<nat, bytes>

    constructor ()
      ensures aliases == map[]
    {
      aliases := map[];
    }

    method ResolveTopicAlias(max: nat, p: PublishPacket) returns (r: Option<bytes>)
      modifies this
      ensures r == Resolved(old(aliases), max, p) && aliases == Recorded(old(aliases), max, p)
    {
      if p.props.None? || TOPIC_ALIAS !in p.props.value.nums {
        return Some(p.topic);
      }
      var alias := p.props.value.nums[TOPIC_ALIAS];
      if alias == 0 || alias > max {
        return None;
      }
      if p.topic == [] {
        if alias !in aliases {
          return None;
        }
        return Some(aliases[alias]);
      }
      aliases := aliases[alias := p.topic];
      r := Some(p.topic);
    }

    /** Decodes a PUBLISH and resolves its topic; without one the connection comes down. */
    method HandlePublish(v: Version, max: nat, f: Frame) returns (r: Option<bytes>)
      modifies this
      ensures var h := Handled(old(aliases), v, max, f); r == h.0 && aliases == h.1
    {
      var p := ParsePublish(v, f.header, f.body);
      if p.Err? {
        return None;
      }
      r := ResolveTopicAlias(max, p.value);
    }
  }

  /** What handling one PUBLISH frame gives: the topic it is dispatched with, and the table after it. */
  function Handled(aliases: map<nat, bytes>, v: Version, max: nat, f: Frame): (Option<bytes>, map<nat, bytes>) {
    match DecodePublish(v, f.header, f.body)
    case Err(_) => (None, aliases)
    case Ok(p) => (Resolved(aliases, max, p), Recorded(aliases, max, p))
  }

  // ---------------------------------------------------------------- runs

  datatype Event = Receive(frame: Frame) | NewLink

  datatype State = State(aliases: map<nat, bytes>, open: bool)

  const INIT := State(map[], true)

  ghost predicate Next(s: State, e: Event, s': State, v: Version, max: nat) {
    match e
    case NewLink => s' == INIT
    case Receive(f) =>
      var (topic, aliases) := Handled(s.aliases, v, max, f);
      s.open && s' == State(aliases, topic.Some?)
  }

  /** A run over any number of links: a violation closes the link, and only a new link goes on. */
  ghost predicate Run(states: seq<State>, events: seq<Event>, v: Version, max: nat) {
    && |states| == |events| + 1 && states[0] == INIT
    && forall i | 0 <= i < |events| :: Next(states[i], events[i], states[i + 1], v, max)
  }

  /** The topic that the packet of an event sends under an alias, if it sends one. */
  function SentUnder(e: Event, v: Version, alias: nat): Option<bytes> {
    if e.NewLink? then None
    else match DecodePublish(v, e.frame.header, e.frame.body)
      case Err(_) => None
      case Ok(p) => if AliasOf(p) == Some(alias) && p.topic != [] then Some(p.topic) else None
  }

  /** The last non-empty topic sent under an alias among the first `n` events, on the link current then. */
  function LastTopic(events: seq<Event>, n: nat, v: Version, alias: nat): Option<bytes>
    requires n <= |events|
  {
    if n == 0 || events[n - 1].NewLink? then None
    else if SentUnder(events[n - 1], v, alias).Some? then SentUnder(events[n - 1], v, alias)
    else LastTopic(events, n - 1, v, alias)
  }

  /** The table is exactly the last topic sent under each alias on this link, and holds real topics. */
  ghost predicate Inv(s: State, events: seq<Event>, n: nat, v: Version, max: nat)
    requires n <= |events|
  {
    && (forall a: nat :: 0 < a <= max && s.open ==>
         LastTopic(events, n, v, a) == if a in s.aliases then Some(s.aliases[a]) else None)
    && (forall a | a in s.aliases :: s.aliases[a] != [] && !Topic.Wild(s.aliases[a]))
  }

  /** What the decoder guarantees about the topic of a packet. */
  lemma DecodedTopic(v: Version, f: Frame)
    requires DecodePublish(v, f.header, f.body).Ok?
    ensures var p := DecodePublish(v, f.header, f.body).value;
      !Topic.Wild(p.topic) && (p.topic == [] ==> AliasOf(p).Some?)
  {
  }

  lemma HandledKeeps(s: State, e: Event, s': State, events: seq<Event>, n: nat, v: Version, max: nat)
    requires n < |events| && events[n] == e && Inv(s, events, n, v, max) && Next(s, e, s', v, max)
    ensures Inv(s', events, n + 1, v, max)
  {
    hide DecodePublish, Topic.Wild;
    if e.Receive? && DecodePublish(v, e.frame.header, e.frame.body).Ok? {
      DecodedTopic(v, e.frame);
    }
  }

  lemma {:induction false} RunsKeep(states: seq<State>, events: seq<Event>, i: nat, v: Version, max: nat)
    requires Run(states, events, v, max) && i <= |events|
    ensures Inv(states[i], events, i, v, max)
  {
    if i > 0 {
      RunsKeep(states, events, i - 1, v, max);
      HandledKeeps(states[i - 1], events[i - 1], states[i], events, i - 1, v, max);
    }
  }

  /** What the events so far say the topic of a packet is. */
  function Meant(events: seq<Event>, n: nat, v: Version, max: nat, p: PublishPacket): Option<bytes>
    requires n <= |events|
  {
    match AliasOf(p)
    case None => Some(p.topic)
    case Some(a) =>
      if a == 0 || a > max then None else if p.topic != [] then Some(p.topic) else LastTopic(events, n, v, a)
  }

  /**
   In every run, a received PUBLISH gets its own topic, or with an empty one the last non-empty
   topic sent under its alias on the same link; it is refused exactly when there is none or the
   alias is out of range. What it gets is never empty and has no wildcard.
   */
  lemma TopicIsLastSent(states: seq<State>, events: seq<Event>, i: nat, v: Version, max: nat)
    requires Run(states, events, v, max) && i < |events| && events[i].Receive?
    ensures var f := events[i].frame; var d := DecodePublish(v, f.header, f.body);
      var topic := Handled(states[i].aliases, v, max, f).0;
      && (topic.Some? <==> states[i + 1].open)
      && topic == (if d.Err? then None else Meant(events, i, v, max, d.value))
      && (topic.Some? ==> topic.value != [] && !Topic.Wild(topic.value))
  {
    RunsKeep(states, events, i, v, max);
    var f := events[i].frame;
    assert Next(states[i], events[i], states[i + 1], v, max);
    hide Topic.Wild;
    if DecodePublish(v, f.header, f.body).Ok? {
      DecodedTopic(v, f);
    }
    hide DecodePublish;
  }
}
