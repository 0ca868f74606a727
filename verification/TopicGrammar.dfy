/**
 Which texts are topic filters and topic names, as a grammar: levels joined by '/', and the form
 "$share/{ShareName}/{filter}".
 */
module TopicGrammar {
  import opened Wrappers
  import opened Bytes
  import opened Topic

  /** The levels with a slash between each two of them. */
  function Join(levels: seq<bytes>): bytes
    requires levels != []
  {
    if |levels| == 1 then levels[0] else levels[0] + [Ascii('/')] + Join(levels[1..])
  }

  predicate Plain(level: bytes) {
    Ascii('/') !in level && Ascii('+') !in level && Ascii('#') !in level
  }

  predicate FilterLevel(level: bytes) {
    Plain(level) || level == [Ascii('+')]
  }

  /** Plain levels and '+', with a '#' at the end or none. */
  ghost predicate FilterLevels(levels: seq<bytes>) {
    && levels != []
    && (forall i | 0 <= i < |levels| - 1 :: FilterLevel(levels[i]))
    && (FilterLevel(levels[|levels| - 1]) || levels[|levels| - 1] == [Ascii('#')])
  }

  ghost predicate IsFilter(s: bytes) {
    exists levels :: FilterLevels(levels) && s == Join(levels)
  }

  /** What every topic text has to be on the wire. */
  ghost predicate TopicText(s: bytes) {
    1 <= |s| <= 65535 && Utf8(s) && 0 !in s
  }

  ghost predicate IsShared(s: bytes, name: bytes, f: bytes) {
    name != [] && Plain(name) && f != [] && IsFilter(f) && s == AsciiText("$share/") + (name + [Ascii('/')] + f)
  }

  // ---------------------------------------------------------------- splitting and joining

  lemma {:induction false} SplitUndoesJoin(levels: seq<bytes>)
    requires levels != [] && forall level | level in levels :: SLASH !in level
    ensures Split(Join(levels)) == levels
  {
    assert levels[0] in levels;
    if |levels| == 1 {
      IndexOfSpec(levels[0], SLASH);
      assert levels == [levels[0]];
    } else {
      SplitUndoesJoin(levels[1..]);
      SplitConcat(levels[0], Join(levels[1..]));
      assert levels == [levels[0]] + levels[1..];
    }
  }

  lemma {:induction false} JoinUndoesSplit(s: bytes)
    ensures Split(s) != [] && Join(Split(s)) == s
    ensures forall level | level in Split(s) :: SLASH !in level
    decreases |s|
  {
    var i := IndexOf(s, SLASH);
    IndexOfSpec(s, SLASH);
    if i < |s| {
      JoinUndoesSplit(s[i + 1..]);
      assert Split(s)[1..] == Split(s[i + 1..]);
      assert s == s[..i] + [SLASH] + s[i + 1..];
    }
  }

  lemma PlacedLevels(levels: seq<bytes>)
    requires levels != [] && forall level | level in levels :: SLASH !in level
    ensures Placed(levels) <==> FilterLevels(levels)
  {
    if FilterLevels(levels) {
      forall i | 0 <= i < |levels|
        ensures LevelPlaced(levels[i], i == |levels| - 1)
      {
      }
    }
    if Placed(levels) {
      forall i | 0 <= i < |levels|
        ensures FilterLevel(levels[i]) || (i == |levels| - 1 && levels[i] == [Ascii('#')])
      {
        assert LevelPlaced(levels[i], i == |levels| - 1) && levels[i] in levels;
      }
    }
  }

  lemma NoSlash(levels: seq<bytes>)
    requires FilterLevels(levels)
    ensures forall level | level in levels :: SLASH !in level
  {
    forall level | level in levels
      ensures SLASH !in level
    {
      var i :| 0 <= i < |levels| && levels[i] == level;
    }
  }

  /** A text is accepted level by level exactly when it is such a join of levels. */
  lemma PlacedExactly(s: bytes)
    ensures Placed(Split(s)) <==> IsFilter(s)
  {
    JoinUndoesSplit(s);
    PlacedLevels(Split(s));
    if levels :| FilterLevels(levels) && s == Join(levels) {
      NoSlash(levels);
      SplitUndoesJoin(levels);
    }
  }

  // ---------------------------------------------------------------- what is accepted

  lemma Prefix()
    ensures SHARED == AsciiText("$share/") && |SHARED| == 7
  {
  }

  /** A topic name is a text without wildcards. */
  lemma NameExactly(s: bytes)
    ensures ValidTopicName(s) <==> TopicText(s) && Ascii('+') !in s && Ascii('#') !in s
  {
  }

  lemma SharedExactly(s: bytes)
    requires SHARED <= s && TopicText(s)
    ensures ValidTopicFilter(s) <==> exists name, f :: IsShared(s, name, f)
  {
    Prefix();
    var rest := s[|SHARED|..];
    IndexOfSpec(rest, SLASH);
    if ValidTopicFilter(s) {
      var (name, f) := CutSlash(rest).value;
      PlacedExactly(f);
      assert rest == name + [SLASH] + f;
      assert s == SHARED + rest;
      assert IsShared(s, name, f);
    }
    if name, f :| IsShared(s, name, f) {
      assert rest == name + [SLASH] + f;
      SplitConcat(name, f);
      PlacedExactly(f);
    }
  }

  /**
   A text is a topic filter exactly when it does not begin with "$share/" and joins filter levels,
   or is "$share/", a plain share name, '/', and a non-empty join of filter levels.
   */
  lemma FilterExactly(s: bytes)
    ensures ValidTopicFilter(s) <==>
      TopicText(s) && if AsciiText("$share/") <= s then exists name, f :: IsShared(s, name, f) else IsFilter(s)
  {
    Prefix();
    PlacedExactly(s);
    if SHARED <= s && TopicText(s) {
      SharedExactly(s);
    }
  }
}
