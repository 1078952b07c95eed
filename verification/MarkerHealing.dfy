/** When replacing the marker blocks of a body leaves exactly one, and when the history
    written to it reads back. */
module MarkerHealing {
  import opened Wrappers
  import opened Whitespace
  import opened MarkerBlocks

  // ---- Text in front of a block moves it ----

  function Later(position: Option<nat>, k: nat): Option<nat> {
    match position
    case None => None
    case Some(p) => Some(k + p)
  }

  function Moved(m: Match, k: nat): Match {
    Match(k + m.start, k + m.from, k + m.upTo, k + m.end)
  }

  function AllMoved(matches: seq<Match>, k: nat): (moved: seq<Match>)
    ensures |moved| == |matches|
  {
    if matches == [] then [] else [Moved(matches[0], k)] + AllMoved(matches[1..], k)
  }

  lemma {:induction false} SpaceEndMoves(before: string, s: string, i: nat)
    requires i <= |s|
    ensures SpaceEnd(before + s, |before| + i) == |before| + SpaceEnd(s, i)
    decreases |s| - i
  {
    if i < |s| && IsSpace(s[i]) {
      SpaceEndMoves(before, s, i + 1);
    }
  }

  lemma {:induction false} NewlineMoves(before: string, s: string, i: nat, e: nat)
    requires i <= e <= |s|
    ensures AfterLastNewline(before + s, |before| + i, |before| + e) == Later(AfterLastNewline(s, i, e), |before|)
    decreases e - i
  {
    if i < e && s[e - 1] != '\n' {
      NewlineMoves(before, s, i, e - 1);
    }
  }

  lemma {:induction false} FenceMoves(before: string, s: string, i: nat)
    ensures FenceFrom(before + s, |before| + i) == Later(FenceFrom(s, i), |before|)
    decreases |s| - i
  {
    hide OccursAt;
    if i < |s| {
      Shifted(before, s, FENCE, i);
      FenceMoves(before, s, i + 1);
    }
  }

  lemma {:induction false} BlanksMove(before: string, s: string, i: nat)
    requires i <= |s|
    ensures BlanksEnd(before + s, |before| + i) == |before| + BlanksEnd(s, i)
    decreases |s| - i
  {
    if i < |s| && (s[i] == ' ' || s[i] == '\t') {
      BlanksMove(before, s, i + 1);
    }
  }

  lemma ClosingMoves(before: string, s: string, i: nat)
    requires i <= |s|
    ensures ClosingEnd(before + s, |before| + i) == |before| + ClosingEnd(s, i)
  {
    hide BlanksEnd;
    BlanksMove(before, s, i);
  }

  lemma HeaderMoves(before: string, s: string, i: nat)
    ensures HeaderEnd(before + s, |before| + i) == Later(HeaderEnd(s, i), |before|)
  {
    hide OccursAt, SpaceEnd, AfterLastNewline;
    Shifted(before, s, LAUNCH_HISTORY_MARKER, i);
    if OccursAt(s, LAUNCH_HISTORY_MARKER, i) {
      var fence := AfterBreak(s, i + |LAUNCH_HISTORY_MARKER|);
      if fence.Some? {
        Shifted(before, s, YAML_FENCE, fence.value);
        if OccursAt(s, YAML_FENCE, fence.value) {
          var k := fence.value + |YAML_FENCE|;
          OccursInside(s, YAML_FENCE, fence.value);
          SpaceEndMoves(before, s, k);
          NewlineMoves(before, s, k, SpaceEnd(s, k));
        }
      }
    }
  }

  lemma OccursInside(s: string, part: string, i: nat)
    requires OccursAt(s, part, i)
    ensures i + |part| <= |s|
  {
  }

  lemma MatchMoves(before: string, s: string, i: nat)
    ensures MatchAt(before + s, |before| + i) ==
      match MatchAt(s, i) case None => None case Some(m) => Some(Moved(m, |before|))
  {
    hide HeaderEnd, FenceFrom, ClosingEnd, OccursAt;
    HeaderMoves(before, s, i);
    var from := HeaderEnd(s, i);
    if from.Some? {
      FenceMoves(before, s, from.value);
      var close := FenceFrom(s, from.value);
      if close.Some? {
        OccursInside(s, FENCE, close.value);
        ClosingMoves(before, s, close.value + |FENCE|);
      }
    }
  }

  lemma {:induction false} BlocksMove(before: string, s: string, i: nat)
    ensures Blocks(before + s, |before| + i) == AllMoved(Blocks(s, i), |before|)
    decreases |s| - i
  {
    hide MatchAt;
    if i < |s| {
      MatchMoves(before, s, i);
      match MatchAt(s, i)
      case Some(m) =>
        BlocksMove(before, s, m.end);
        assert ([m] + Blocks(s, m.end))[1..] == Blocks(s, m.end);
      case None =>
        BlocksMove(before, s, i + 1);
    }
  }

  // ---- What the first block says ----

  lemma {:induction false} FirstBlock(body: string, from: nat)
    ensures Blocks(body, from) == [] ==> forall i | from <= i :: MatchAt(body, i).None?
    ensures Blocks(body, from) != [] ==>
      var m := Blocks(body, from)[0];
      && from <= m.start && MatchAt(body, m.start) == Some(m) && Blocks(body, from)[1..] == Blocks(body, m.end)
      && forall i | from <= i < m.start :: MatchAt(body, i).None?
    decreases |body| - from
  {
    hide MatchAt;
    if from < |body| && MatchAt(body, from).None? {
      FirstBlock(body, from + 1);
    }
  }

  lemma {:induction false} NoMatchBefore(body: string, from: nat, limit: nat)
    requires from <= limit && forall i | from <= i < limit :: MatchAt(body, i).None?
    ensures Blocks(body, from) == Blocks(body, limit)
    decreases limit - from
  {
    hide MatchAt;
    if from < limit {
      NoMatchBefore(body, from + 1, limit);
    }
  }

  // ---- A block behind some text ----

  // A header stands in this text, so that it takes the next fence for its own.
  ghost predicate Opens(text: string) {
    exists i: nat :: HeaderEnd(text, i).Some?
  }

  lemma {:induction false} SpaceEndInFront(text: string, rest: string, i: nat)
    requires i <= |text| && (rest == "" || !IsSpace(rest[0]) || SpaceEnd(text + rest, i) < |text|)
    ensures SpaceEnd(text + rest, i) == SpaceEnd(text, i)
    decreases |text| - i
  {
    if i < |text| && IsSpace(text[i]) {
      SpaceEndInFront(text, rest, i + 1);
    }
  }

  lemma {:induction false} NewlineInFront(text: string, rest: string, i: nat, e: nat)
    requires i <= e <= |text|
    ensures AfterLastNewline(text + rest, i, e) == AfterLastNewline(text, i, e)
    decreases e - i
  {
    if i < e && text[e - 1] != '\n' {
      NewlineInFront(text, rest, i, e - 1);
    }
  }

  lemma OccursInFront(text: string, rest: string, part: string, i: nat)
    requires i + |part| <= |text|
    ensures OccursAt(text + rest, part, i) <==> OccursAt(text, part, i)
  {
    assert (text + rest)[i..i + |part|] == text[i..i + |part|];
  }

  lemma OccursChar(s: string, part: string, i: nat, k: nat)
    ensures OccursAt(s, part, i) && k < |part| ==> i + k < |s| && part[k] == s[i + k]
  {
    if OccursAt(s, part, i) && k < |part| {
      assert s[i..i + |part|][k] == s[i + k];
    }
  }

  // What has no character c after its first does not reach across a c.
  lemma StopsAt(text: string, rest: string, part: string, i: nat)
    requires rest != "" && i < |text| && OccursAt(text + rest, part, i)
    requires forall k | 1 <= k < |part| :: part[k] != rest[0]
    ensures i + |part| <= |text|
  {
    hide OccursAt;
    OccursChar(text + rest, part, i, |text| - i);
    assert (text + rest)[|text|] == rest[0];
  }

  lemma MarkerChars()
    ensures LAUNCH_HISTORY_MARKER[0] == '<'
    ensures forall k | 1 <= k < |LAUNCH_HISTORY_MARKER| :: LAUNCH_HISTORY_MARKER[k] != '<'
    ensures forall k | 0 <= k < |LAUNCH_HISTORY_MARKER| :: LAUNCH_HISTORY_MARKER[k] != '`' && LAUNCH_HISTORY_MARKER[k] != '\n'
    ensures forall k | 0 <= k < |YAML_FENCE| :: YAML_FENCE[k] != '<'
    ensures forall k | 0 <= k < |FENCE| :: FENCE[k] == '`'
  {
  }

  // A header in front of a marker stands entirely in front of it.
  lemma HeaderInFront(text: string, rest: string, i: nat)
    requires i < |text| && rest != "" && rest[0] == '<'
    ensures HeaderEnd(text + rest, i) == HeaderEnd(text, i)
  {
    hide OccursAt, SpaceEnd, AfterLastNewline;
    MarkerChars();
    var whole := text + rest;
    if OccursAt(whole, LAUNCH_HISTORY_MARKER, i) {
      StopsAt(text, rest, LAUNCH_HISTORY_MARKER, i);
    }
    if OccursAt(text, LAUNCH_HISTORY_MARKER, i) {
      OccursInside(text, LAUNCH_HISTORY_MARKER, i);
    }
    if i + |LAUNCH_HISTORY_MARKER| <= |text| {
      OccursInFront(text, rest, LAUNCH_HISTORY_MARKER, i);
      FenceInFront(text, rest, i + |LAUNCH_HISTORY_MARKER|);
    }
  }

  // The rest of a header, from the end of its marker.
  lemma FenceInFront(text: string, rest: string, a: nat)
    requires a <= |text| && rest != "" && rest[0] == '<'
    ensures AfterBreak(text + rest, a) == AfterBreak(text, a)
    ensures AfterBreak(text, a).Some? ==>
      var f := AfterBreak(text, a).value;
      && (OccursAt(text + rest, YAML_FENCE, f) <==> OccursAt(text, YAML_FENCE, f))
      && (OccursAt(text, YAML_FENCE, f) ==>
            var k := f + |YAML_FENCE|;
            && k <= |text| && SpaceEnd(text + rest, k) == SpaceEnd(text, k)
            && AfterLastNewline(text + rest, k, SpaceEnd(text, k)) == AfterLastNewline(text, k, SpaceEnd(text, k)))
  {
    hide OccursAt, SpaceEnd, AfterLastNewline;
    MarkerChars();
    assert !IsSpace('<');
    var fence := AfterBreak(text, a);
    assert a < |text| ==> (text + rest)[a] == text[a];
    assert a + 1 < |text| ==> (text + rest)[a + 1] == text[a + 1];
    assert (text + rest)[|text|] == '<';
    if fence.Some? {
      var f := fence.value;
      if OccursAt(text + rest, YAML_FENCE, f) {
        FenceStops(text, rest, f);
      }
      if OccursAt(text, YAML_FENCE, f) {
        OccursInside(text, YAML_FENCE, f);
      }
      if f + |YAML_FENCE| <= |text| {
        OccursInFront(text, rest, YAML_FENCE, f);
        var k := f + |YAML_FENCE|;
        SpaceEndInFront(text, rest, k);
        NewlineInFront(text, rest, k, SpaceEnd(text, k));
      }
    }
  }

  lemma FenceStops(text: string, rest: string, f: nat)
    requires f <= |text| && rest != "" && rest[0] == '<' && OccursAt(text + rest, YAML_FENCE, f)
    ensures f + |YAML_FENCE| <= |text|
  {
    MarkerChars();
    hide OccursAt;
    OccursChar(text + rest, YAML_FENCE, f, 0);
    assert (text + rest)[|text|] == rest[0];
    if f < |text| {
      StopsAt(text, rest, YAML_FENCE, f);
    }
  }

  // The block that is written behind this much text.
  function WrittenAt(k: nat, yaml: string): Match {
    Match(k, k + HEADER, k + HEADER + |yaml|, k + |NewBlock(yaml)|)
  }

  lemma BlockStarts(yaml: string, after: string)
    ensures var block := NewBlock(yaml) + after;
      block != "" && block[0] == '<' && OccursAt(block, FENCE, |LAUNCH_HISTORY_MARKER| + 1)
  {
    var block := NewBlock(yaml) + after;
    var k := |LAUNCH_HISTORY_MARKER| + 1;
    assert block[k..k + 3] == FENCE;
  }

  /** The blocks of a text with a written block in it: a header in front takes the fence of
      the written block; without one, the written block comes first and then whatever
      blocks the text behind it has. */
  lemma BlocksAround(before: string, yaml: string, after: string)
    requires Plain(yaml)
    ensures var whole := before + NewBlock(yaml) + after;
      && (Opens(before) ==> Blocks(whole, 0) != [] && Blocks(whole, 0)[0].start < |before|)
      && (!Opens(before) ==>
            Blocks(whole, 0) == [WrittenAt(|before|, yaml)] + AllMoved(Blocks(after, 0), |before + NewBlock(yaml)|))
  {
    hide MatchAt, HeaderEnd, FenceFrom, Plain, NewBlock, OccursAt;
    var block := NewBlock(yaml);
    var rest := block + after;
    var whole := before + block + after;
    assert whole == before + rest;
    BlockStarts(yaml, after);
    Shifted(before, rest, FENCE, |LAUNCH_HISTORY_MARKER| + 1);
    forall i | 0 <= i < |before| ensures HeaderEnd(whole, i) == HeaderEnd(before, i) {
      HeaderInFront(before, rest, i);
    }
    FirstBlock(whole, 0);
    forall i | 0 <= i < |before| ensures MatchAt(whole, i).Some? <==> HeaderEnd(before, i).Some? {
      ClosedByLaterFence(whole, i, |before| + |LAUNCH_HISTORY_MARKER| + 1, |before|);
    }
    if Opens(before) {
      var i: nat :| HeaderEnd(before, i).Some?;
      assert i < |before|;
    } else {
      WrittenBlockMatches(before, yaml, after);
      NoMatchBefore(whole, 0, |before|);
      BlocksMove(before + block, after, 0);
    }
  }

  // A header before a fence is a block.
  lemma ClosedByLaterFence(body: string, i: nat, q: nat, limit: nat)
    requires OccursAt(body, FENCE, q) && limit <= q
    requires HeaderEnd(body, i).Some? ==> HeaderEnd(body, i).value <= limit
    ensures MatchAt(body, i).Some? <==> HeaderEnd(body, i).Some?
  {
    hide HeaderEnd, OccursAt;
  }

  // ---- Replacing all blocks ----

  // What stands in front of the first block opens no header of its own.
  lemma FrontOpensNothing(body: string)
    requires Blocks(body, 0) != []
    ensures Blocks(body, 0)[0].start <= |body|
    ensures !Opens(body[..Blocks(body, 0)[0].start])
  {
    hide HeaderEnd, FenceFrom, OccursAt, Blocks;
    FirstBlock(body, 0);
    var m := Blocks(body, 0)[0];
    var before, rest := body[..m.start], body[m.start..];
    assert body == before + rest;
    MarkerHere(body, m.start);
    forall i: nat ensures HeaderEnd(before, i).None? {
      if i < m.start {
        HeaderInFront(before, rest, i);
        ClosedByLaterFence(body, i, m.upTo, m.start);
      } else {
        NoHeaderBehind(before, i);
      }
    }
  }

  lemma NoHeaderBehind(text: string, i: nat)
    requires i >= |text|
    ensures HeaderEnd(text, i).None?
  {
  }

  lemma MarkerHere(body: string, i: nat)
    requires MatchAt(body, i).Some?
    ensures i < |body| && body[i] == '<' && OccursAt(body, FENCE, MatchAt(body, i).value.upTo)
  {
    MarkerChars();
    OccursChar(body, LAUNCH_HISTORY_MARKER, i, 0);
  }

  /** Replacing leaves the new block at the place of the first, with the same text in front
      of it; other blocks come only from the text that is left behind it. */
  lemma HealedBlocks(body: string, yaml: string)
    requires Plain(yaml) && Blocks(body, 0) != []
    ensures Blocks(body, 0)[0].start <= |body|
    ensures var healed := Healed(body, NewBlock(yaml));
      var (before, after) := Prose(body);
      && before == body[..Blocks(body, 0)[0].start] && !Opens(before)
      && healed == Some(before + NewBlock(yaml) + after)
      && Blocks(healed.value, 0) == [WrittenAt(|before|, yaml)] + AllMoved(Blocks(after, 0), |before + NewBlock(yaml)|)
  {
    hide Blocks, NewBlock, Plain;
    FrontOpensNothing(body);
    BlocksInOrder(body, 0);
    var (before, after) := Prose(body);
    BlocksAround(before, yaml, after);
  }

  lemma {:induction false} RestShorter(body: string, matches: seq<Match>, cursor: nat)
    requires InOrder(body, matches, cursor)
    ensures cursor <= |body| && |Rest(body, matches, cursor)| <= |body| - cursor
    ensures matches != [] ==> |Rest(body, matches, cursor)| < |body| - cursor
  {
    hide Blank;
    if matches != [] {
      RestShorter(body, matches[1..], matches[0].end);
    }
  }

  /** A replaced body has exactly one block, and is a fixed point of replacing, if and only
      if the text left behind the first block has none; otherwise every further replacing
      makes it shorter, so that it comes to an end. */
  lemma HealsToOneIff(body: string, yaml: string)
    requires Plain(yaml) && Blocks(body, 0) != []
    ensures var healed := Healed(body, NewBlock(yaml)).value;
      var again := Healed(healed, NewBlock(yaml));
      && (Blocks(healed, 0) == [WrittenAt(|Prose(body).0|, yaml)] <==> Blocks(Prose(body).1, 0) == [])
      && again.Some? && (again.value == healed <==> Blocks(Prose(body).1, 0) == [])
      && (again.value != healed ==> |again.value| < |healed|)
  {
    hide Blocks, NewBlock, Plain, Prose;
    HealedBlocks(body, yaml);
    var (before, after) := Prose(body);
    var block := NewBlock(yaml);
    var healed := before + block + after;
    var written := WrittenAt(|before|, yaml);
    var more := AllMoved(Blocks(after, 0), |before + block|);
    assert Blocks(healed, 0)[0] == written && Blocks(healed, 0)[1..] == more;
    BlocksInOrder(healed, 0);
    OrderFrom(healed, Blocks(healed, 0), 0, 1);
    RestShorter(healed, more, written.end);
    assert healed[..|before|] == before && healed[written.end..] == after;
    if more == [] {
      assert Blocks(healed, 0) == [written];
      assert before + block + after == healed;
    }
  }

  // Only white space between the blocks from here on.
  predicate GapsBlank(body: string, cursor: nat)
    requires cursor <= |body|
    decreases |body| - cursor
  {
    var matches := Blocks(body, cursor);
    matches == [] || (
      && cursor <= matches[0].start <= |body| && cursor < matches[0].end <= |body|
      && Blank(body[cursor..matches[0].start]) && GapsBlank(body, matches[0].end))
  }

  lemma {:induction false} BlankGapsGo(body: string, cursor: nat)
    requires cursor <= |body| && GapsBlank(body, cursor)
    ensures InOrder(body, Blocks(body, cursor), cursor)
    ensures Blocks(Rest(body, Blocks(body, cursor), cursor), 0) == []
    decreases |body| - cursor
  {
    hide Blank, MatchAt;
    BlocksInOrder(body, cursor);
    FirstBlock(body, cursor);
    var matches := Blocks(body, cursor);
    if matches == [] {
      BlocksMove(body[..cursor], body[cursor..], 0);
      assert body[..cursor] + body[cursor..] == body;
    } else {
      BlankGapsGo(body, matches[0].end);
      RestStep(body, matches, cursor);
      assert "" + Rest(body, matches[1..], matches[0].end) == Rest(body, matches[1..], matches[0].end);
    }
  }

  /** Blocks that were only ever appended, with nothing but white space between them, heal
      to one. */
  lemma BlankGapsHeal(body: string)
    requires Blocks(body, 0) != []
    ensures Blocks(body, 0)[0].end <= |body|
    ensures GapsBlank(body, Blocks(body, 0)[0].end) ==> Blocks(Prose(body).1, 0) == []
  {
    hide MatchAt, GapsBlank;
    FirstBlock(body, 0);
    var end := Blocks(body, 0)[0].end;
    if GapsBlank(body, end) {
      BlankGapsGo(body, end);
    }
  }

  // ---- The history of a body with a written block ----

  // The times in the blocks of a text, in the order of the text.
  ghost function TimesOf(codec: Codec, text: string): seq<int> {
    BlocksInside(text, 0);
    Times(codec, text, Blocks(text, 0))
  }

  lemma {:induction false} TimesMove(codec: Codec, before: string, s: string, matches: seq<Match>)
    requires forall m | m in matches :: m.from <= m.upTo <= |s|
    ensures forall m | m in AllMoved(matches, |before|) :: m.from <= m.upTo <= |before + s|
    ensures Times(codec, before + s, AllMoved(matches, |before|)) == Times(codec, s, matches)
  {
    if matches != [] {
      TimesMove(codec, before, s, matches[1..]);
      var m := matches[0];
      assert m in matches;
      assert (before + s)[|before| + m.from..|before| + m.upTo] == s[m.from..m.upTo];
      assert AllMoved(matches, |before|)[1..] == AllMoved(matches[1..], |before|);
    }
  }

  // Without a header in front, the written times come first and then those behind.
  lemma TimesAround(codec: Codec, before: string, history: seq<int>, after: string)
    requires codec.Lawful() && !Opens(before)
    ensures TimesOf(codec, before + NewBlock(codec.encode(history)) + after) == history + TimesOf(codec, after)
  {
    hide Blocks, NewBlock, MatchAt;
    var yaml := codec.encode(history);
    assert Plain(yaml) && codec.decode(yaml) == history;
    hide Plain;
    var whole := before + NewBlock(yaml) + after;
    BlocksAround(before, yaml, after);
    WrittenBlockMatches(before, yaml, after);
    BlocksInside(whole, 0);
    BlocksInside(after, 0);
    TimesMove(codec, before + NewBlock(yaml), after, Blocks(after, 0));
    var written := WrittenAt(|before|, yaml);
    assert Blocks(whole, 0)[0] == written && Blocks(whole, 0)[1..] == AllMoved(Blocks(after, 0), |before + NewBlock(yaml)|);
  }

  lemma SortedLength(a: seq<int>, b: seq<int>)
    ensures SortTimes(a + b) == SortTimes(a) <==> b == []
  {
    SortTimesSorts(a + b);
    SortTimesSorts(a);
    if b == [] {
      assert a + b == a;
    } else {
      assert |multiset(a + b)| == |a| + |b| && |multiset(a)| == |a|;
      assert |multiset(SortTimes(a + b))| == |SortTimes(a + b)| && |multiset(SortTimes(a))| == |SortTimes(a)|;
    }
  }

  // ---- A header that was never closed ----

  lemma HeaderWithin(text: string, tail: string, i: nat, q: nat)
    requires HeaderEnd(text + tail, i).Some? && HeaderEnd(text + tail, i).value <= q < |text| && !IsSpace(text[q])
    ensures HeaderEnd(text, i) == HeaderEnd(text + tail, i)
  {
    hide OccursAt, SpaceEnd, AfterLastNewline, IsSpace;
    var whole := text + tail;
    var a := i + |LAUNCH_HISTORY_MARKER|;
    OccursInFront(text, tail, LAUNCH_HISTORY_MARKER, i);
    var f := AfterBreak(whole, a).value;
    assert whole[q] == text[q];
    assert a < |text| && whole[a] == text[a];
    assert AfterBreak(text, a) == Some(f);
    OccursInFront(text, tail, YAML_FENCE, f);
    var k := f + |YAML_FENCE|;
    SpaceEndStops(whole, k, q);
    SpaceEndInFront(text, tail, k);
    NewlineInFront(text, tail, k, SpaceEnd(text, k));
  }

  lemma {:induction false} SpaceEndStops(s: string, i: nat, q: nat)
    requires i <= q < |s| && !IsSpace(s[q])
    ensures SpaceEnd(s, i) <= q
    decreases q - i
  {
    if i < q {
      SpaceEndStops(s, i + 1, q);
    }
  }

  lemma FenceInBody(body: string, tail: string, j: nat)
    requires (forall c | c in tail :: c == '\n') && OccursAt(body + tail, FENCE, j)
    ensures j + 3 <= |body|
  {
    hide OccursAt;
    OccursChar(body + tail, FENCE, j, 2);
    LineEndBehind(body, tail, j + 2);
  }

  lemma LineEndBehind(body: string, tail: string, k: nat)
    requires k < |body + tail| && forall c | c in tail :: c == '\n'
    ensures k < |body| || (body + tail)[k] == '\n'
  {
    if k >= |body| {
      assert (body + tail)[k] == tail[k - |body|] && tail[k - |body|] in tail;
    }
  }

  // No fence follows a header in a body without blocks, even when lines are added.
  lemma NoFenceAfterHeader(body: string, tail: string, i: nat, j: nat)
    requires Blocks(body, 0) == [] && (forall c | c in tail :: c == '\n')
    requires HeaderEnd(body + tail, i).Some? && HeaderEnd(body + tail, i).value <= j
    ensures !OccursAt(body + tail, FENCE, j)
  {
    hide HeaderEnd, OccursAt, Blocks;
    var whole := body + tail;
    if OccursAt(whole, FENCE, j) {
      FenceInBody(body, tail, j);
      OccursInFront(body, tail, FENCE, j);
      OccursChar(body, FENCE, j, 0);
      HeaderWithin(body, tail, i, j);
      ClosedByLaterFence(body, i, j, j);
      FirstBlock(body, 0);
      assert false;
    }
  }

  // What is left behind the fence that was taken.
  lemma NothingLeft(yaml: string)
    requires Plain(yaml)
    ensures Blocks("yaml\n" + yaml + FENCE + "\n", 0) == []
  {
    hide OccursAt, MatchAt, IsSpace;
    var left := "yaml\n" + yaml + FENCE + "\n";
    MarkerChars();
    forall j | 0 <= j < |left| ensures !OccursAt(left, LAUNCH_HISTORY_MARKER, j) {
      OccursChar(left, LAUNCH_HISTORY_MARKER, j, 0);
      if 5 <= j < 5 + |yaml| {
        var rest := yaml + (FENCE + "\n");
        assert left == "yaml\n" + rest;
        Shifted("yaml\n", rest, LAUNCH_HISTORY_MARKER, j - 5);
        if OccursAt(rest, LAUNCH_HISTORY_MARKER, j - 5) {
          MarkerStops(yaml, FENCE + "\n", j - 5);
          OccursInFront(yaml, FENCE + "\n", LAUNCH_HISTORY_MARKER, j - 5);
        }
      }
    }
    NoBlocksBetween(left, 0, |left|);
  }

  // A marker does not reach into a fence.
  lemma MarkerStops(text: string, rest: string, i: nat)
    requires i < |text| && rest != "" && rest[0] == '`' && OccursAt(text + rest, LAUNCH_HISTORY_MARKER, i)
    ensures i + |LAUNCH_HISTORY_MARKER| <= |text|
  {
    MarkerChars();
    StopsAt(text, rest, LAUNCH_HISTORY_MARKER, i);
  }

  // The header in front takes everything up to the fence of the written block.
  lemma OpenSwallows(body: string, tail: string, yaml: string) returns (m: Match)
    requires Blocks(body, 0) == [] && tail != "" && (forall c | c in tail :: c == '\n')
    requires Plain(yaml) && Opens(body + tail)
    ensures var whole := body + tail + NewBlock(yaml);
      && Blocks(whole, 0) == [m] && m.start < |body + tail|
      && m.from <= |body + tail| && m.from <= m.upTo <= |whole| && whole[m.from..m.upTo] == (body + tail)[m.from..] + MARKER_LINE
  {
    hide MatchAt, HeaderEnd, OccursAt, Blocks, Plain, ClosingEnd;
    var text := body + tail;
    var block := NewBlock(yaml);
    var whole := text + block;
    assert text + block + "" == whole && block + "" == block;
    BlocksAround(text, yaml, "");
    BlockStarts(yaml, "");
    FirstBlock(whole, 0);
    m := Blocks(whole, 0)[0];
    MatchHeader(whole, m.start);
    HeaderInFront(text, block, m.start);
    SwallowedFence(body, tail, yaml, m.start);
    var q := |text| + |LAUNCH_HISTORY_MARKER| + 1;
    SwallowedEnd(text, yaml);
    NothingAfterSwallowed(text, yaml);
    assert MatchAt(whole, m.start) == Some(Match(m.start, m.from, q, q + 3)) by { MatchIs(whole, m.start, q); }
    assert Blocks(whole, 0) == [m] + Blocks(whole, q + 3);
    assert whole[m.from..q] == text[m.from..] + MARKER_LINE;
  }

  lemma NothingAfterSwallowed(text: string, yaml: string)
    requires Plain(yaml)
    ensures Blocks(text + NewBlock(yaml), |text| + |LAUNCH_HISTORY_MARKER| + 4) == []
  {
    hide Blocks, Plain;
    var head := text + LAUNCH_HISTORY_MARKER + "\n" + FENCE;
    var left := "yaml\n" + yaml + FENCE + "\n";
    assert YAML_FENCE == FENCE + "yaml";
    assert text + NewBlock(yaml) == head + left;
    NothingLeft(yaml);
    BlocksMove(head, left, 0);
  }

  lemma MatchIs(body: string, i: nat, q: nat)
    requires HeaderEnd(body, i).Some? && FenceFrom(body, HeaderEnd(body, i).value) == Some(q)
    ensures q + 3 <= |body|
    ensures MatchAt(body, i) == Some(Match(i, HeaderEnd(body, i).value, q, ClosingEnd(body, q + 3)))
  {
    hide HeaderEnd, FenceFrom, ClosingEnd, OccursAt;
    OccursInside(body, FENCE, q);
  }

  lemma MatchHeader(body: string, i: nat)
    requires MatchAt(body, i).Some?
    ensures HeaderEnd(body, i) == Some(MatchAt(body, i).value.from)
  {
    hide HeaderEnd, FenceFrom, ClosingEnd;
  }

  lemma SwallowedEnd(text: string, yaml: string)
    ensures var whole := text + NewBlock(yaml);
      var q := |text| + |LAUNCH_HISTORY_MARKER| + 1;
      q + 3 <= |whole| && ClosingEnd(whole, q + 3) == q + 3
  {
    var whole := text + NewBlock(yaml);
    var q := |text| + |LAUNCH_HISTORY_MARKER| + 1;
    assert whole[q + 3] == YAML_FENCE[3] == 'y';
  }

  lemma SwallowedFence(body: string, tail: string, yaml: string, i: nat)
    requires Blocks(body, 0) == [] && (forall c | c in tail :: c == '\n') && HeaderEnd(body + tail, i).Some?
    ensures var whole := body + tail + NewBlock(yaml);
      FenceFrom(whole, HeaderEnd(body + tail, i).value) == Some(|body + tail| + |LAUNCH_HISTORY_MARKER| + 1)
  {
    hide HeaderEnd, OccursAt, Blocks;
    var text := body + tail;
    var block := NewBlock(yaml);
    var whole := text + block;
    var from := HeaderEnd(text, i).value;
    var q := |text| + |LAUNCH_HISTORY_MARKER| + 1;
    BlockStarts(yaml, "");
    assert block + "" == block;
    Shifted(text, block, FENCE, |LAUNCH_HISTORY_MARKER| + 1);
    MarkerChars();
    forall j | from <= j < q ensures !OccursAt(whole, FENCE, j) {
      if j < |text| {
        NoFenceAfterHeader(body, tail, i, j);
        if OccursAt(whole, FENCE, j) {
          StopsAt(text, block, FENCE, j);
          OccursInFront(text, block, FENCE, j);
        }
      } else {
        OccursChar(whole, FENCE, j, 0);
        assert whole[j] == block[j - |text|];
        assert block[j - |text|] == if j - |text| < |LAUNCH_HISTORY_MARKER| then LAUNCH_HISTORY_MARKER[j - |text|] else '\n';
      }
    }
    FenceIs(whole, from, q);
  }

  // ---- When the written history reads back ----

  // Nothing in front that opens a header, no block in what is left behind.
  ghost predicate Heals(body: string) {
    !Opens(Prose(body).0) && Blocks(Prose(body).1, 0) == []
  }

  lemma ProseOfAppended(body: string) returns (tail: string)
    requires Blocks(body, 0) == []
    ensures Prose(body) == (body + tail, "") && tail != "" && forall c | c in tail :: c == '\n'
    ensures WholeLines(body + tail)
  {
    tail := (if body != "" && body[|body| - 1] == '\n' then "" else "\n") + "\n";
    assert Prose(body).0 == body + tail;
  }

  lemma BackfilledAround(codec: Codec, body: string, history: seq<int>)
    requires codec.Lawful() && Backfilled(codec, body, history).Some?
    ensures Backfilled(codec, body, history) == Some(Prose(body).0 + NewBlock(codec.encode(history)) + Prose(body).1)
    ensures Blocks(body, 0) == [] ==> history != []
    ensures Blocks(body, 0) != [] ==> !Opens(Prose(body).0)
  {
    hide Blocks, NewBlock;
    var yaml := codec.encode(history);
    assert Plain(yaml);
    if Blocks(body, 0) == [] {
      var tail := ProseOfAppended(body);
      BlocksInside(body, 0);
      assert Times(codec, body, []) == [] && History(codec, body) == [];
      assert body + tail + NewBlock(yaml) + "" == body + tail + NewBlock(yaml);
    } else {
      HealedBlocks(body, yaml);
    }
  }

  // An unclosed header in front hides the written history altogether.
  lemma SwallowedHistory(codec: Codec, body: string, history: seq<int>)
    requires codec.Lawful() && Backfilled(codec, body, history).Some? && Opens(Prose(body).0)
    ensures History(codec, Backfilled(codec, body, history).value) == [] && history != []
  {
    hide Blocks, NewBlock, Plain, Opens, Prose;
    BackfilledAround(codec, body, history);
    var yaml := codec.encode(history);
    var tail := ProseOfAppended(body);
    var text := body + tail;
    var whole := text + NewBlock(yaml);
    assert whole + "" == whole;
    var m := OpenSwallows(body, tail, yaml);
    SwallowedTimes(codec, whole, m, text[m.from..]);
  }

  lemma SwallowedTimes(codec: Codec, whole: string, m: Match, lines: string)
    requires codec.Lawful() && Blocks(whole, 0) == [m] && m.from <= m.upTo <= |whole|
    requires whole[m.from..m.upTo] == lines + MARKER_LINE && WholeLines(lines)
    ensures History(codec, whole) == []
  {
    hide Blocks;
    BlocksInside(whole, 0);
    assert Times(codec, whole, [m]) == codec.decode(lines + MARKER_LINE) + Times(codec, whole, []) == [];
  }

  /** The written block is the one block of the updated body if and only if the text in front
      of its place opens no header and the text left behind it has no block. Its history
      reads back if and only if nothing opens in front and the blocks left behind hold no
      times. Both are conditions on the body before the write. */
  lemma BackfillReadsBackIff(codec: Codec, body: string, history: seq<int>)
    requires codec.Lawful() && Backfilled(codec, body, history).Some?
    ensures var updated := Backfilled(codec, body, history).value;
      var (before, after) := Prose(body);
      && updated == before + NewBlock(codec.encode(history)) + after
      && (Blocks(updated, 0) == [WrittenAt(|before|, codec.encode(history))] <==> Heals(body))
      && (History(codec, updated) == SortTimes(history) <==> !Opens(before) && TimesOf(codec, after) == [])
  {
    hide Blocks, NewBlock, Plain, Opens, Prose, History, TimesOf;
    BackfilledAround(codec, body, history);
    var (before, after) := Prose(body);
    var updated := Backfilled(codec, body, history).value;
    assert Plain(codec.encode(history));
    BlocksAround(before, codec.encode(history), after);
    if Opens(before) {
      SwallowedHistory(codec, body, history);
      SortTimesSorts(history);
      assert |multiset(SortTimes(history))| == |history|;
    } else {
      TimesAround(codec, before, history, after);
      HistoryOf(codec, updated);
      SortedLength(history, TimesOf(codec, after));
    }
  }

  lemma HistoryOf(codec: Codec, text: string)
    ensures History(codec, text) == SortTimes(TimesOf(codec, text))
  {
  }

  /** On such a body the write is done once and for all: writing the same block again, and
      backfilling the same sorted history again, change nothing. */
  lemma BackfillIsStable(codec: Codec, body: string, history: seq<int>)
    requires codec.Lawful() && Backfilled(codec, body, history).Some? && Heals(body)
    ensures var updated := Backfilled(codec, body, history).value;
      && Healed(updated, NewBlock(codec.encode(history))) == Some(updated)
      && (Backfilled(codec, updated, history) == None <==> Ascending(history))
  {
    hide Blocks, NewBlock, Plain, Opens, MatchAt;
    BackfillReadsBackIff(codec, body, history);
    var (before, after) := Prose(body);
    var yaml := codec.encode(history);
    var block := NewBlock(yaml);
    var updated := before + block + after;
    BlocksInOrder(updated, 0);
    assert updated[..|before|] == before && updated[|before| + |block|..] == after;
    BlocksInside(after, 0);
    assert TimesOf(codec, after) == [];
    SortTimesSorts(history);
    if Ascending(history) {
      SortSorted(history);
    }
  }

  // ---- Bodies without the marker ----

  ghost predicate Unmarked(text: string) {
    forall j: nat :: !OccursAt(text, LAUNCH_HISTORY_MARKER, j)
  }

  // The marker stands in this text exactly once.
  ghost predicate MarkedOnce(body: string, i: nat) {
    forall j: nat :: OccursAt(body, LAUNCH_HISTORY_MARKER, j) <==> j == i
  }

  // Text without a marker opens nothing and has no block.
  lemma UnmarkedHeals(body: string)
    ensures Unmarked(Prose(body).0) && Unmarked(Prose(body).1) ==> Heals(body)
  {
    hide OccursAt, Prose;
    var (before, after) := Prose(body);
    if Unmarked(before) && Unmarked(after) {
      FirstBlock(after, 0);
      forall i: nat ensures HeaderEnd(before, i).None? {
      }
    }
  }

  // The places of a marker around a written block.
  lemma MarkersAround(before: string, yaml: string, after: string, j: nat)
    requires Plain(yaml)
    ensures var whole := before + NewBlock(yaml) + after;
      OccursAt(whole, LAUNCH_HISTORY_MARKER, j) <==> (
        || (j < |before| && OccursAt(before, LAUNCH_HISTORY_MARKER, j))
        || j == |before|
        || (j >= |before + NewBlock(yaml)| && OccursAt(after, LAUNCH_HISTORY_MARKER, j - |before + NewBlock(yaml)|)))
  {
    hide OccursAt, Plain;
    var block := NewBlock(yaml);
    var whole := before + block + after;
    var rest := block + after;
    assert whole == before + rest;
    MarkerChars();
    BlockStarts(yaml, after);
    if j < |before| {
      if OccursAt(whole, LAUNCH_HISTORY_MARKER, j) {
        StopsAt(before, rest, LAUNCH_HISTORY_MARKER, j);
      }
      if OccursAt(before, LAUNCH_HISTORY_MARKER, j) {
        OccursInside(before, LAUNCH_HISTORY_MARKER, j);
      }
      if j + |LAUNCH_HISTORY_MARKER| <= |before| {
        OccursInFront(before, rest, LAUNCH_HISTORY_MARKER, j);
      }
    } else if j < |before + block| {
      Shifted(before, rest, LAUNCH_HISTORY_MARKER, j - |before|);
      MarkerInBlock(yaml, after, j - |before|);
    } else {
      Shifted(before + block, after, LAUNCH_HISTORY_MARKER, j - |before + block|);
    }
  }

  lemma MarkerInBlock(yaml: string, after: string, j: nat)
    requires Plain(yaml) && j < |NewBlock(yaml)|
    ensures OccursAt(NewBlock(yaml) + after, LAUNCH_HISTORY_MARKER, j) <==> j == 0
  {
    hide OccursAt, IsSpace;
    var head := LAUNCH_HISTORY_MARKER + "\n" + YAML_FENCE + "\n";
    var rest := yaml + (FENCE + "\n" + after);
    var whole := NewBlock(yaml) + after;
    assert whole == head + rest;
    MarkerChars();
    MarkerFirst(whole);
    OccursChar(whole, LAUNCH_HISTORY_MARKER, j, 0);
    if |head| <= j < |head| + |yaml| {
      Shifted(head, rest, LAUNCH_HISTORY_MARKER, j - |head|);
      if OccursAt(rest, LAUNCH_HISTORY_MARKER, j - |head|) {
        MarkerStops(yaml, FENCE + "\n" + after, j - |head|);
        OccursInFront(yaml, FENCE + "\n" + after, LAUNCH_HISTORY_MARKER, j - |head|);
      }
    }
  }

  lemma MarkerFirst(whole: string)
    requires LAUNCH_HISTORY_MARKER <= whole
    ensures OccursAt(whole, LAUNCH_HISTORY_MARKER, 0)
  {
  }

  /** The updated body carries the marker once if and only if the prose of the body before
      the write carries none. */
  lemma MarkedOnceIff(codec: Codec, body: string, history: seq<int>)
    requires codec.Lawful() && Backfilled(codec, body, history).Some?
    ensures MarkedOnce(Backfilled(codec, body, history).value, |Prose(body).0|) <==>
      Unmarked(Prose(body).0) && Unmarked(Prose(body).1)
  {
    hide OccursAt, Blocks, Prose, NewBlock;
    BackfilledAround(codec, body, history);
    var (before, after) := Prose(body);
    var yaml := codec.encode(history);
    assert Plain(yaml);
    hide Plain;
    forall j: nat ensures OccursAt(before + NewBlock(yaml) + after, LAUNCH_HISTORY_MARKER, j) <==> (
        || (j < |before| && OccursAt(before, LAUNCH_HISTORY_MARKER, j))
        || j == |before|
        || (j >= |before + NewBlock(yaml)| && OccursAt(after, LAUNCH_HISTORY_MARKER, j - |before + NewBlock(yaml)|)))
    {
      MarkersAround(before, yaml, after, j);
    }
    assert NewBlock(yaml) != "" by { BlockStarts(yaml, ""); }
    OnceIff(before, NewBlock(yaml), after);
  }

  lemma OnceIff(before: string, block: string, after: string)
    requires block != ""
    requires forall j: nat :: OccursAt(before + block + after, LAUNCH_HISTORY_MARKER, j) <==> (
        || (j < |before| && OccursAt(before, LAUNCH_HISTORY_MARKER, j))
        || j == |before|
        || (j >= |before + block| && OccursAt(after, LAUNCH_HISTORY_MARKER, j - |before + block|)))
    ensures MarkedOnce(before + block + after, |before|) <==> Unmarked(before) && Unmarked(after)
  {
    hide OccursAt;
    if MarkedOnce(before + block + after, |before|) {
      forall j: nat ensures !OccursAt(before, LAUNCH_HISTORY_MARKER, j) && !OccursAt(after, LAUNCH_HISTORY_MARKER, j) {
        MarkerInside(before, j);
        assert OccursAt(before + block + after, LAUNCH_HISTORY_MARKER, j) <==> j == |before|;
        var k: nat := |before + block| + j;
        assert OccursAt(before + block + after, LAUNCH_HISTORY_MARKER, k) <==> k == |before|;
      }
    }
  }

  lemma MarkerInside(text: string, j: nat)
    ensures OccursAt(text, LAUNCH_HISTORY_MARKER, j) ==> j < |text|
  {
  }

  // ---- Two bodies that do not heal ----

  /** A header that was never closed: the body has no block, the write appends one, and the
      header takes its fence, so nothing of the history reads back. */
  lemma OpenFenceSwallowsAppend(codec: Codec, history: seq<int>)
    requires codec.Lawful() && history != []
    ensures Blocks(Header(), 0) == [] && Backfilled(codec, Header(), history).Some?
    ensures History(codec, Backfilled(codec, Header(), history).value) == []
  {
    hide MatchAt, HeaderEnd, OccursAt, Plain, NewBlock;
    var body := Header();
    HeaderAlone();
    BlocksInside(body, 0);
    assert Times(codec, body, []) == [];
    var tail := ProseOfAppended(body);
    HeaderOpens(tail);
    SwallowedHistory(codec, body, history);
  }

  lemma HeaderOpens(tail: string)
    requires forall c | c in tail :: c == '\n'
    ensures HeaderEnd(Header() + tail, 0).Some?
  {
    hide SpaceEnd, AfterLastNewline;
    var text := Header() + tail;
    var mark := |LAUNCH_HISTORY_MARKER|;
    assert text[0..mark] == LAUNCH_HISTORY_MARKER && text[mark] == '\n' && text[mark + 1..mark + 8] == YAML_FENCE;
    assert text[mark + 8] == '\n';
    SpaceThenNewline(text, mark + 8);
  }

  lemma SpaceThenNewline(s: string, i: nat)
    requires i < |s| && s[i] == '\n'
    ensures AfterLastNewline(s, i, SpaceEnd(s, i)).Some?
  {
    hide AfterLastNewline;
    assert SpaceEnd(s, i) == SpaceEnd(s, i + 1);
    NewlineFound(s, i, SpaceEnd(s, i));
  }

  lemma {:induction false} NewlineFound(s: string, i: nat, e: nat)
    requires i < e <= |s| && s[i] == '\n'
    ensures AfterLastNewline(s, i, e).Some?
    decreases e - i
  {
    if s[e - 1] != '\n' {
      NewlineFound(s, i, e - 1);
    }
  }

  // A header without a fence behind it is no block.
  lemma HeaderAlone()
    ensures Blocks(Header(), 0) == []
  {
    hide OccursAt, SpaceEnd, AfterLastNewline, Blocks;
    MarkerChars();
    var text := Header();
    forall i: nat ensures MatchAt(text, i).None? {
      OccursChar(text, LAUNCH_HISTORY_MARKER, i, 0);
      HeaderChars(i);
      if i == 0 && HeaderEnd(text, 0).Some? {
        HeaderLength(text);
        forall j | HeaderEnd(text, 0).value <= j ensures !OccursAt(text, FENCE, j) {
          OccursChar(text, FENCE, j, 2);
        }
      }
    }
    FirstBlock(text, 0);
  }

  lemma HeaderChars(i: nat)
    ensures i < |Header()| && Header()[i] == '<' ==> i == 0
    ensures |Header()| == HEADER
  {
    MarkerChars();
  }

  lemma HeaderLength(text: string)
    requires text == Header() && HeaderEnd(text, 0).Some?
    ensures HeaderEnd(text, 0).value >= HEADER - 1
  {
    hide OccursAt, SpaceEnd;
    assert text[|LAUNCH_HISTORY_MARKER|] == '\n';
  }

  // A body without a header, in front of a block or alone.
  lemma NoBlockIn(text: string)
    requires Unmarked(text)
    ensures !Opens(text) && Blocks(text, 0) == []
  {
    hide OccursAt, Blocks;
    FirstBlock(text, 0);
    forall i: nat ensures HeaderEnd(text, i).None? && MatchAt(text, i).None? {
    }
  }

  const FRONT := "<!-- orchestune:"
  const BACK := "launch-history -->\n```yaml\n"

  lemma HalvesJoin(yaml: string)
    ensures FRONT + (BACK + yaml + FENCE + "\n") == NewBlock(yaml)
  {
    assert FRONT + "launch-history -->" == LAUNCH_HISTORY_MARKER;
    assert BACK == "launch-history -->" + "\n" + YAML_FENCE + "\n";
  }

  lemma HalvesAreUnmarked(yaml: string)
    requires Plain(yaml)
    ensures FRONT + (BACK + yaml + FENCE + "\n") == NewBlock(yaml)
    ensures Unmarked(FRONT) && Unmarked(BACK + yaml + FENCE + "\n") && !Blank(FRONT)
  {
    hide OccursAt, IsSpace, FRONT, BACK, NewBlock, FENCE, LAUNCH_HISTORY_MARKER;
    HalvesJoin(yaml);
    FrontIsShort();
    forall j: nat ensures !OccursAt(BACK + yaml + FENCE + "\n", LAUNCH_HISTORY_MARKER, j) {
      BackIsUnmarked(yaml, j);
    }
  }

  lemma BackIsUnmarked(yaml: string, j: nat)
    requires Plain(yaml)
    ensures !OccursAt(BACK + yaml + FENCE + "\n", LAUNCH_HISTORY_MARKER, j)
  {
    hide OccursAt, IsSpace;
    var left := BACK + yaml + FENCE + "\n";
    MarkerChars();
    OccursChar(left, LAUNCH_HISTORY_MARKER, j, 0);
    BackChars(j);
    if |BACK| <= j < |BACK| + |yaml| {
      var rest := yaml + (FENCE + "\n");
      assert left == BACK + rest;
      Shifted(BACK, rest, LAUNCH_HISTORY_MARKER, j - |BACK|);
      if OccursAt(rest, LAUNCH_HISTORY_MARKER, j - |BACK|) {
        MarkerStops(yaml, FENCE + "\n", j - |BACK|);
        OccursInFront(yaml, FENCE + "\n", LAUNCH_HISTORY_MARKER, j - |BACK|);
      }
    }
  }

  lemma BackChars(j: nat)
    ensures j < |BACK| ==> BACK[j] != '<'
  {
  }

  lemma FrontIsShort()
    ensures Unmarked(FRONT) && !Blank(FRONT)
  {
    assert FRONT[0] == '<' && FRONT[0] in FRONT;
  }

  // Two blocks with half a marker between them and the other half behind.
  function Torn(yaml: string, last: string): string {
    NewBlock(yaml) + FRONT + NewBlock(yaml) + (BACK + last + FENCE + "\n")
  }

  lemma TornBlocks(yaml: string, last: string)
    requires Plain(yaml) && Plain(last)
    ensures Blocks(Torn(yaml, last), 0) == [WrittenAt(0, yaml), WrittenAt(|NewBlock(yaml) + FRONT|, yaml)]
  {
    hide Blocks, NewBlock, Plain, Unmarked, Opens, Blank;
    HalvesAreUnmarked(last);
    var block, left := NewBlock(yaml), BACK + last + FENCE + "\n";
    NoBlockIn(left);
    NoBlockIn(FRONT);
    NothingOpensNothing();
    BlocksAround(FRONT, yaml, left);
    BlocksAround("", yaml, FRONT + block + left);
    assert "" + block + (FRONT + block + left) == Torn(yaml, last) && "" + block == block;
    var one := [WrittenAt(|FRONT|, yaml)];
    assert Blocks(FRONT + block + left, 0) == one;
    assert one[1..] == [] && AllMoved(one, |block|) == [WrittenAt(|block + FRONT|, yaml)];
  }

  lemma TornProse(yaml: string, last: string)
    requires Plain(yaml) && Plain(last)
    ensures Blocks(Torn(yaml, last), 0) != [] && Prose(Torn(yaml, last)) == ("", NewBlock(last))
  {
    hide Blocks, NewBlock, Plain, Unmarked, Opens, Blank;
    HalvesAreUnmarked(last);
    TornBlocks(yaml, last);
    var block, left := NewBlock(yaml), BACK + last + FENCE + "\n";
    var body := Torn(yaml, last);
    var first, second := WrittenAt(0, yaml), WrittenAt(|block + FRONT|, yaml);
    BlocksInOrder(body, 0);
    assert [first, second][1..] == [second] && [second][1..] == [];
    RestStep(body, [second], first.end);
    RestEnds(body, second.end);
    assert body[first.end..second.start] == FRONT && body[second.end..] == left && body[..0] == "";
  }

  lemma NothingOpensNothing()
    ensures !Opens("") && Blocks("", 0) == []
  {
  }

  // The body reads as nothing, as both of its blocks are empty.
  lemma TornHistory(codec: Codec, last: string)
    requires codec.Lawful() && Plain(last)
    ensures History(codec, Torn(codec.encode([]), last)) == []
  {
    hide Blocks, NewBlock, Unmarked, Opens, Blank;
    var yaml := codec.encode([]);
    assert Plain(yaml);
    hide Plain;
    var block, left := NewBlock(yaml), BACK + last + FENCE + "\n";
    HalvesAreUnmarked(last);
    NoBlockIn(left);
    NoBlockIn(FRONT);
    NothingOpensNothing();
    BlocksInside(left, 0);
    TimesAround(codec, FRONT, [], left);
    TimesAround(codec, "", [], FRONT + block + left);
    assert "" + block + (FRONT + block + left) == Torn(yaml, last);
    HistoryOf(codec, Torn(yaml, last));
  }

  /** Prose on both sides of a removed block may join into a block of its own: this body has
      an empty history, heals to two blocks, and does not read back what was written. */
  lemma JoinedProseMakesBlock(codec: Codec, last: seq<int>, history: seq<int>)
    requires codec.Lawful() && last != [] && history != []
    ensures var body := Torn(codec.encode([]), codec.encode(last));
      var updated := NewBlock(codec.encode(history)) + NewBlock(codec.encode(last));
      && Backfilled(codec, body, history) == Some(updated)
      && |Blocks(updated, 0)| == 2 && History(codec, updated) != SortTimes(history)
  {
    hide Blocks, NewBlock, Plain, Opens, Prose, Torn, History;
    var yaml, tail := codec.encode([]), codec.encode(last);
    assert Plain(yaml) && Plain(tail) && Plain(codec.encode(history)) && codec.decode(tail) == last;
    var body := Torn(yaml, tail);
    TornProse(yaml, tail);
    TornHistory(codec, tail);
    BackfillReadsBackIff(codec, body, history);
    TwoBlocks(codec, last, history);
    assert "" + NewBlock(codec.encode(history)) + NewBlock(tail) == NewBlock(codec.encode(history)) + NewBlock(tail);
  }

  lemma TwoBlocks(codec: Codec, last: seq<int>, history: seq<int>)
    requires codec.Lawful() && last != []
    ensures !Opens("") && TimesOf(codec, NewBlock(codec.encode(last))) != []
    ensures |Blocks(NewBlock(codec.encode(history)) + NewBlock(codec.encode(last)), 0)| == 2
  {
    hide Blocks, NewBlock, Opens, TimesOf, OccursAt;
    var first, second := NewBlock(codec.encode(history)), NewBlock(codec.encode(last));
    assert Plain(codec.encode(history)) && Plain(codec.encode(last));
    hide Plain;
    NothingOpensNothing();
    TimesAround(codec, "", last, "");
    assert "" + second + "" == second && "" + first + second == first + second;
    BlocksAround("", codec.encode(last), "");
    BlocksAround("", codec.encode(history), second);
    assert |last + TimesOf(codec, "")| >= |last|;
  }
}
