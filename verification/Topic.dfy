/** Topic filters: validation, matching, and the shared-subscription form. */
module Topic {
  import opened Wrappers
  import opened Bytes

  const SLASH: byte := 0x2F
  const PLUS: byte := 0x2B
  const HASH: byte := 0x23
  const DOLLAR: byte := 0x24

  /** "$share/" */
  const SHARED: bytes := [0x24, 0x73, 0x68, 0x61, 0x72, 0x65, 0x2F]

  const MAX_TOPIC_LEN: nat := 0xFFFF

  // ---------------------------------------------------------------- levels

  /** The text before and after the first slash. */
  function CutSlash(s: bytes): Option<(bytes, bytes)> {
    var i := IndexOf(s, SLASH);
    if i < |s| then Some((s[..i], s[i + 1..])) else None
  }

  /** The slash-separated levels; the empty text has one empty level. */
  function Split(s: bytes): seq<bytes>
    decreases |s|
  {
    var i := IndexOf(s, SLASH);
    if i < |s| then [s[..i]] + Split(s[i + 1..]) else [s]
  }

  predicate Wild(s: bytes) {
    PLUS in s || HASH in s
  }

  /** The share name and the wrapped filter of a well-formed shared subscription. */
  function SplitShared(s: bytes): Option<(bytes, bytes)> {
    if !(SHARED <= s) then None
    else match CutSlash(s[|SHARED|..])
      case None => None
      case Some((name, filter)) => if name == [] || filter == [] || Wild(name) then None else Some((name, filter))
  }

  /** The filter that takes part in matching. */
  function Effective(filter: bytes): bytes {
    var r := SplitShared(filter);
    if r.Some? then r.value.1 else filter
  }

  // ---------------------------------------------------------------- matching

  /** The level relation, one level at a time. */
  function LevelsMatch(fl: seq<bytes>, tl: seq<bytes>): bool {
    if fl == [] then tl == []
    else if fl[0] == [HASH] then true
    else if tl == [] then false
    else (fl[0] == [PLUS] || fl[0] == tl[0]) && LevelsMatch(fl[1..], tl[1..])
  }

  method MatchLevels(fl: seq<bytes>, tl: seq<bytes>) returns (r: bool)
    ensures r == LevelsMatch(fl, tl)
  {
    var i := 0;
    assert fl[0..] == fl && tl[0..] == tl;
    while i < |fl|
      invariant i <= |fl| && i <= |tl|
      invariant LevelsMatch(fl, tl) == LevelsMatch(fl[i..], tl[i..])
    {
      if fl[i] == [HASH] {
        return true;
      }
      if i >= |tl| {
        return false;
      }
      if fl[i] != [PLUS] && fl[i] != tl[i] {
        return false;
      }
      assert fl[i..][1..] == fl[i + 1..] && tl[i..][1..] == tl[i + 1..];
      i := i + 1;
    }
    r := |fl| == |tl|;
  }

  function Match(filter: bytes, topic: bytes): bool {
    var f := Effective(filter);
    if topic != [] && topic[0] == DOLLAR && f != [] && (f[0] == HASH || f[0] == PLUS) then false
    else LevelsMatch(Split(f), Split(topic))
  }

  method MatchTopic(filter: bytes, topic: bytes) returns (r: bool)
    ensures r == Match(filter, topic)
  {
    var f := Effective(filter);
    if topic != [] && topic[0] == DOLLAR && f != [] && (f[0] == HASH || f[0] == PLUS) {
      return false;
    }
    r := MatchLevels(Split(f), Split(topic));
  }

  // ---------------------------------------------------------------- validation

  predicate LevelPlaced(level: bytes, last: bool) {
    (HASH in level ==> level == [HASH] && last) && (PLUS in level ==> level == [PLUS])
  }

  /** '#' only as the whole last level, '+' only as a whole level. */
  predicate Placed(levels: seq<bytes>) {
    forall i | 0 <= i < |levels| :: LevelPlaced(levels[i], i == |levels| - 1)
  }

  method ValidateFilterLevels(s: bytes) returns (ok: bool)
    ensures ok == Placed(Split(s))
  {
    var levels := Split(s);
    for i := 0 to |levels|
      invariant forall j | 0 <= j < i :: LevelPlaced(levels[j], j == |levels| - 1)
    {
      var level := levels[i];
      if HASH in level && (level != [HASH] || i != |levels| - 1) {
        return false;
      }
      if PLUS in level && level != [PLUS] {
        return false;
      }
    }
    ok := true;
  }

  predicate ValidText(s: bytes) {
    s != [] && |s| <= MAX_TOPIC_LEN && Utf8(s) && 0 !in s
  }

  predicate ValidTopicName(s: bytes) {
    ValidText(s) && !Wild(s)
  }

  predicate ValidTopicFilter(s: bytes) {
    && ValidText(s)
    && if SHARED <= s then
         match CutSlash(s[|SHARED|..])
         case None => false
         case Some((name, wrapped)) => name != [] && !Wild(name) && wrapped != [] && Placed(Split(wrapped))
       else
         Placed(Split(s))
  }

  // ---------------------------------------------------------------- matching against section 4.7 of MQTT 5.0

  predicate LevelCovers(f: bytes, t: bytes) {
    f == [Ascii('+')] || f == t
  }

  /** Level by level, with a final '#' standing for its parent and anything below it. */
  ghost predicate Covers(fl: seq<bytes>, tl: seq<bytes>) {
    if fl != [] && fl[|fl| - 1] == [Ascii('#')] then
      |fl| - 1 <= |tl| && forall i | 0 <= i < |fl| - 1 :: LevelCovers(fl[i], tl[i])
    else
      |fl| == |tl| && forall i | 0 <= i < |fl| :: LevelCovers(fl[i], tl[i])
  }

  /** A leading wildcard level does not cover a first level that begins with '$'. */
  ghost predicate SpecMatch(f: bytes, topic: bytes) {
    var fl, tl := Split(f), Split(topic);
    && Covers(fl, tl)
    && !(fl != [] && fl[0] in {[Ascii('#')], [Ascii('+')]} && tl != [] && tl[0] != [] && tl[0][0] == Ascii('$'))
  }

  lemma SplitFirst(s: bytes)
    ensures Split(s) != []
    ensures s == [] || s[0] == SLASH ==> Split(s)[0] == []
    ensures s != [] && s[0] != SLASH ==> Split(s)[0] != [] && Split(s)[0][0] == s[0]
  {
    IndexOfSpec(s, SLASH);
  }

  lemma {:induction false} LevelsMatchCovers(fl: seq<bytes>, tl: seq<bytes>)
    requires Placed(fl)
    ensures LevelsMatch(fl, tl) <==> Covers(fl, tl)
  {
    if fl == [] || tl == [] {
      if fl != [] {
        assert LevelPlaced(fl[0], 0 == |fl| - 1);
      }
    } else {
      var fl', tl' := fl[1..], tl[1..];
      assert LevelPlaced(fl[0], 0 == |fl| - 1);
      forall i | 0 <= i < |fl'|
        ensures LevelPlaced(fl'[i], i == |fl'| - 1)
      {
        assert LevelPlaced(fl[i + 1], i + 1 == |fl| - 1);
      }
      LevelsMatchCovers(fl', tl');
      if |fl| > 1 {
        assert fl'[|fl'| - 1] == fl[|fl| - 1];
        CoversTail(fl, tl);
      }
    }
  }

  lemma CoversTail(fl: seq<bytes>, tl: seq<bytes>)
    requires |fl| > 1 && tl != []
    ensures Covers(fl, tl) <==> LevelCovers(fl[0], tl[0]) && Covers(fl[1..], tl[1..])
  {
  }

  /** The first byte of a well-placed filter tells whether its first level is a wildcard. */
  lemma FirstByteRule(f: bytes)
    requires Placed(Split(f))
    ensures f != [] && (f[0] == HASH || f[0] == PLUS) <==> Split(f)[0] in {[HASH], [PLUS]}
  {
  }

  /** On every filter the validator accepts, matching is the level relation of the filter without its share prefix. */
  lemma MatchIsSpec(filter: bytes, topic: bytes)
    requires ValidTopicFilter(filter)
    ensures Match(filter, topic) <==> SpecMatch(Effective(filter), topic)
  {
    var f := Effective(filter);
    assert Placed(Split(f));
    FirstByteRule(f);
    SplitFirst(f);
    SplitFirst(topic);
    LevelsMatchCovers(Split(f), Split(topic));
  }

  // ---------------------------------------------------------------- shared subscriptions

  lemma {:induction false} IndexOfConcat(a: bytes, rest: bytes, b: byte)
    requires b !in a
    ensures IndexOf(a + [b] + rest, b) == |a|
  {
    if a == [] {
      assert (a + [b] + rest)[0] == b;
    } else {
      assert (a + [b] + rest)[1..] == a[1..] + [b] + rest;
      IndexOfConcat(a[1..], rest, b);
    }
  }

  lemma SplitConcat(a: bytes, rest: bytes)
    requires SLASH !in a
    ensures CutSlash(a + [SLASH] + rest) == Some((a, rest))
    ensures Split(a + [SLASH] + rest) == [a] + Split(rest)
  {
    var s := a + [SLASH] + rest;
    IndexOfConcat(a, rest, SLASH);
    assert s[..|a|] == a && s[|a| + 1..] == rest;
  }

  /** A legal share prefix before a non-empty filter is taken apart again. */
  lemma SharedRoundTrip(name: bytes, f: bytes)
    requires name != [] && SLASH !in name && !Wild(name) && f != []
    ensures SplitShared(SHARED + (name + [SLASH] + f)) == Some((name, f))
  {
    var s := SHARED + (name + [SLASH] + f);
    SplitConcat(name, f);
    assert s[|SHARED|..] == name + [SLASH] + f;
  }

  /** A legal share prefix before a non-empty unshared filter changes no match. */
  lemma SharePrefixTransparent(name: bytes, f: bytes, topic: bytes)
    requires name != [] && SLASH !in name && !Wild(name) && f != [] && SplitShared(f).None?
    ensures Match(SHARED + (name + [SLASH] + f), topic) == Match(f, topic)
  {
    SharedRoundTrip(name, f);
  }

  /** The two parts of a shared filter determine it. */
  lemma SharedParts(s: bytes)
    requires SplitShared(s).Some?
    ensures var (name, f) := SplitShared(s).value;
      s == SHARED + (name + [SLASH] + f) && SLASH !in name && name != [] && f != [] && !Wild(name)
  {
    var rest := s[|SHARED|..];
    IndexOfSpec(rest, SLASH);
    var i := IndexOf(rest, SLASH);
    assert rest == rest[..i] + [SLASH] + rest[i + 1..];
    assert s == SHARED + rest;
  }

  // ---------------------------------------------------------------- topic names as filters

  lemma {:induction false} SplitTame(s: bytes)
    requires !Wild(s)
    ensures forall level | level in Split(s) :: !Wild(level)
    decreases |s|
  {
    var i := IndexOf(s, SLASH);
    IndexOfSpec(s, SLASH);
    if i < |s| {
      assert forall b | b in s[i + 1..] :: b in s;
      SplitTame(s[i + 1..]);
    }
  }

  lemma TamePlaced(s: bytes)
    requires !Wild(s)
    ensures Placed(Split(s))
  {
  }

  lemma {:induction false} TameMatch(fl: seq<bytes>, tl: seq<bytes>)
    requires forall level | level in fl :: !Wild(level)
    ensures LevelsMatch(fl, tl) <==> fl == tl
  {
    if fl != [] {
      assert fl[0] in fl;
      assert HASH in [HASH] && PLUS in [PLUS];
      if tl != [] {
        TameMatch(fl[1..], tl[1..]);
        assert fl == [fl[0]] + fl[1..] && tl == [tl[0]] + tl[1..];
      }
    }
  }

  /** A shared filter has two levels more than the filter it wraps. */
  lemma SharedLevels(s: bytes)
    requires SplitShared(s).Some?
    ensures |Split(s)| == |Split(SplitShared(s).value.1)| + 2
  {
    var (name, f) := SplitShared(s).value;
    SharedParts(s);
    var head := SHARED[..6];
    assert SLASH !in head;
    assert s == head + [SLASH] + (name + [SLASH] + f);
    SplitConcat(head, name + [SLASH] + f);
    SplitConcat(name, f);
  }

  /** A valid topic name matches itself exactly when it does not read as a shared subscription. */
  lemma SelfMatch(t: bytes)
    requires ValidTopicName(t)
    ensures Match(t, t) <==> SplitShared(t).None?
  {
    var f := Effective(t);
    if SplitShared(t).Some? {
      SharedParts(t);
      SharedLevels(t);
      assert forall b | b in f :: b in t;
    }
    SplitTame(f);
    TameMatch(Split(f), Split(t));
    assert f != [] ==> f[0] in f;
  }

  /** A valid topic name is a valid filter exactly when it is not a broken shared subscription. */
  lemma TopicNameIsFilter(t: bytes)
    requires ValidTopicName(t)
    ensures ValidTopicFilter(t) <==> (SHARED <= t ==> SplitShared(t).Some?)
  {
    if !(SHARED <= t) {
      TamePlaced(t);
    } else if SplitShared(t).Some? {
      SharedParts(t);
      var f := SplitShared(t).value.1;
      assert forall b | b in f :: b in t;
      TamePlaced(f);
    }
  }
}
