/** The launch history kept in a marker block of an Issue body: finding the blocks,
    replacing all of them by one, and reading back what was written. */
module MarkerBlocks {
  import opened Wrappers
  import opened Whitespace
  import opened BranchNaming

  const LAUNCH_HISTORY_MARKER := "<!-- orchestune:launch-history -->"
  const FENCE := "```"
  const YAML_FENCE := "```yaml"

  // ---- The block pattern ----

  // Where a block stands, and where its content does.
  datatype Match = Match(start: nat, from: nat, upTo: nat, end: nat)

  predicate OccursAt(s: string, part: string, i: nat) {
    i + |part| <= |s| && s[i..i + |part|] == part
  }

  // One line break, with or without a carriage return.
  function AfterBreak(s: string, i: nat): Option<nat> {
    if i < |s| && s[i] == '\n' then Some(i + 1)
    else if i + 1 < |s| && s[i] == '\r' && s[i + 1] == '\n' then Some(i + 2)
    else None
  }

  // The end of the white space that starts here.
  function SpaceEnd(s: string, i: nat): (e: nat)
    requires i <= |s|
    ensures i <= e <= |s|
    decreases |s| - i
  {
    if i < |s| && IsSpace(s[i]) then SpaceEnd(s, i + 1) else i
  }

  // The position after the last newline of a stretch.
  function AfterLastNewline(s: string, i: nat, e: nat): (p: Option<nat>)
    requires i <= e <= |s|
    ensures p.Some? ==> i < p.value <= e
    decreases e - i
  {
    if i == e then None else if s[e - 1] == '\n' then Some(e) else AfterLastNewline(s, i, e - 1)
  }

  // The first fence from here on.
  function FenceFrom(s: string, i: nat): (q: Option<nat>)
    ensures q.Some? ==> i <= q.value && OccursAt(s, FENCE, q.value)
    ensures q.Some? ==> forall j | i <= j < q.value :: !OccursAt(s, FENCE, j)
    ensures q.None? ==> forall j | i <= j :: !OccursAt(s, FENCE, j)
    decreases |s| - i
  {
    if i >= |s| then None else if OccursAt(s, FENCE, i) then Some(i) else FenceFrom(s, i + 1)
  }

  function BlanksEnd(s: string, i: nat): (e: nat)
    requires i <= |s|
    ensures i <= e <= |s|
    decreases |s| - i
  {
    if i < |s| && (s[i] == ' ' || s[i] == '\t') then BlanksEnd(s, i + 1) else i
  }

  // The rest of the closing line: blanks, then at most one line break.
  function ClosingEnd(s: string, i: nat): (e: nat)
    requires i <= |s|
    ensures i <= e <= |s|
  {
    var b := BlanksEnd(s, i);
    var r := if b < |s| && s[b] == '\r' then b + 1 else b;
    if r < |s| && s[r] == '\n' then r + 1 else r
  }

  // Where the content begins, if the header of a block starts here.
  function HeaderEnd(body: string, i: nat): (from: Option<nat>)
    ensures from.Some? ==> i < from.value <= |body| && OccursAt(body, LAUNCH_HISTORY_MARKER, i)
  {
    if !OccursAt(body, LAUNCH_HISTORY_MARKER, i) then None
    else
      var fence := AfterBreak(body, i + |LAUNCH_HISTORY_MARKER|);
      if fence.None? || !OccursAt(body, YAML_FENCE, fence.value) then None
      else
        var k := fence.value + |YAML_FENCE|;
        AfterLastNewline(body, k, SpaceEnd(body, k))
  }

  // The block that starts here, if one does.
  function MatchAt(body: string, i: nat): (m: Option<Match>)
    ensures m.Some? ==> m.value.start == i && i < m.value.from <= m.value.upTo < m.value.end <= |body|
    ensures m.Some? ==> OccursAt(body, LAUNCH_HISTORY_MARKER, i)
  {
    match HeaderEnd(body, i)
    case None => None
    case Some(from) =>
      var close := FenceFrom(body, from);
      if close.None? then None
      else Some(Match(i, from, close.value, ClosingEnd(body, close.value + |FENCE|)))
  }

  // All blocks, leftmost first, without overlap.
  function Blocks(body: string, from: nat): seq<Match>
    decreases |body| - from
  {
    if from >= |body| then []
    else
      match MatchAt(body, from)
      case Some(m) => [m] + Blocks(body, m.end)
      case None => Blocks(body, from + 1)
  }

  // Matches in order, each after this position.
  ghost predicate InOrder(body: string, matches: seq<Match>, cursor: nat) {
    if matches == [] then cursor <= |body|
    else cursor <= matches[0].start < matches[0].end <= |body| && InOrder(body, matches[1..], matches[0].end)
  }

  lemma {:induction false} BlocksInOrder(body: string, from: nat)
    requires from <= |body|
    ensures InOrder(body, Blocks(body, from), from)
    decreases |body| - from
  {
    if from < |body| {
      match MatchAt(body, from)
      case Some(m) =>
        BlocksInOrder(body, m.end);
      case None =>
        BlocksInOrder(body, from + 1);
        var rest := Blocks(body, from + 1);
        if rest != [] {
          assert from <= rest[0].start;
        }
    }
  }

  // ---- Replacing all blocks by one ----

  // The text after the first block: later blocks go, and so do blank stretches between.
  ghost function Rest(body: string, matches: seq<Match>, cursor: nat): string
    requires InOrder(body, matches, cursor)
  {
    if matches == [] then body[cursor..]
    else
      var separator := body[cursor..matches[0].start];
      (if Blank(separator) then "" else separator) + Rest(body, matches[1..], matches[0].end)
  }

  ghost function Healed(body: string, newBlock: string): (healed: Option<string>)
  {
    BlocksInOrder(body, 0);
    var matches := Blocks(body, 0);
    if matches == [] then None
    else Some(body[..matches[0].start] + newBlock + Rest(body, matches[1..], matches[0].end))
  }

  // The pieces a body is joined from.
  function Joined(pieces: seq<string>): string {
    if pieces == [] then "" else Joined(pieces[..|pieces| - 1]) + pieces[|pieces| - 1]
  }

  lemma {:induction false} OrderFrom(body: string, matches: seq<Match>, cursor: nat, k: nat)
    requires InOrder(body, matches, cursor) && k <= |matches|
    ensures InOrder(body, matches[k..], if k == 0 then cursor else matches[k - 1].end)
  {
    if k > 0 {
      OrderFrom(body, matches[1..], matches[0].end, k - 1);
      assert matches[1..][k - 1..] == matches[k..];
    } else {
      assert matches[0..] == matches;
    }
  }

  // One block less: the stretch before it is dropped when it is blank.
  lemma RestStep(body: string, matches: seq<Match>, cursor: nat)
    requires InOrder(body, matches, cursor) && matches != []
    ensures cursor <= matches[0].start <= matches[0].end <= |body| && InOrder(body, matches[1..], matches[0].end)
    ensures Rest(body, matches, cursor) ==
      (if Blank(body[cursor..matches[0].start]) then "" else body[cursor..matches[0].start])
        + Rest(body, matches[1..], matches[0].end)
  {
    hide Blank;
  }

  lemma RestEnds(body: string, cursor: nat)
    requires InOrder(body, [], cursor)
    ensures cursor <= |body| && Rest(body, [], cursor) == body[cursor..]
  {
  }

  lemma JoinedStep(pieces: seq<string>, piece: string)
    ensures Joined(pieces + [piece]) == Joined(pieces) + piece
  {
    assert (pieces + [piece])[..|pieces|] == pieces;
  }

  method ReplaceAllBlocks(body: string, newBlock: string) returns (updated: Option<string>)
    ensures updated == Healed(body, newBlock)
  {
    hide Blocks, Blank, Rest, InOrder, Joined;
    var matches := Blocks(body, 0);
    BlocksInOrder(body, 0);
    if matches == [] {
      return None;
    }
    RestStep(body, matches, 0);
    var pieces := [body[..matches[0].start], newBlock];
    var cursor := matches[0].end;
    ghost var target := body[..matches[0].start] + newBlock + Rest(body, matches[1..], matches[0].end);
    JoinTwo(body[..matches[0].start], newBlock);
    for i := 1 to |matches|
      invariant cursor == matches[i - 1].end
      invariant InOrder(body, matches[i..], cursor)
      invariant Joined(pieces) + Rest(body, matches[i..], cursor) == target
    {
      assert matches[i..][1..] == matches[i + 1..] && matches[i..][0] == matches[i];
      RestStep(body, matches[i..], cursor);
      var separator := body[cursor..matches[i].start];
      if !Blank(separator) {
        JoinedStep(pieces, separator);
        pieces := pieces + [separator];
      }
      ghost var left := Rest(body, matches[i + 1..], matches[i].end);
      assert Joined(pieces) + left == target;
      cursor := matches[i].end;
    }
    assert matches[|matches|..] == [];
    RestEnds(body, cursor);
    JoinedStep(pieces, body[cursor..]);
    pieces := pieces + [body[cursor..]];
    updated := Some(Joined(pieces));
  }

  lemma JoinTwo(a: string, b: string)
    ensures Joined([a, b]) == a + b
  {
    assert [a, b][..1] == [a] && [a][..0] == [];
    assert Joined([a]) == "" + a == a;
  }

  // ---- Timestamps ----

  // Times are whole ticks of any resolution: only their order and the bounds of the
  // window matter.

  function InsertTime(t: int, ts: seq<int>): seq<int> {
    if ts == [] || t <= ts[0] then [t] + ts else [ts[0]] + InsertTime(t, ts[1..])
  }

  function SortTimes(ts: seq<int>): seq<int> {
    if ts == [] then [] else InsertTime(ts[0], SortTimes(ts[1..]))
  }

  predicate Ascending(ts: seq<int>) {
    forall i, j | 0 <= i < j < |ts| :: ts[i] <= ts[j]
  }

  lemma HeadTail(ts: seq<int>)
    requires ts != []
    ensures multiset(ts) == multiset(ts[1..]) + multiset{ts[0]}
  {
    assert ts == [ts[0]] + ts[1..];
  }

  lemma {:induction false} InsertTimeContents(t: int, ts: seq<int>)
    ensures multiset(InsertTime(t, ts)) == multiset(ts) + multiset{t}
  {
    if ts != [] && t > ts[0] {
      InsertTimeContents(t, ts[1..]);
      HeadTail(ts);
    }
  }

  lemma AscendingCons(t: int, ts: seq<int>)
    requires Ascending(ts) && forall x | x in ts :: t <= x
    ensures Ascending([t] + ts)
  {
    var whole := [t] + ts;
    forall i, j | 0 <= i < j < |whole| ensures whole[i] <= whole[j] {
      assert whole[j] == ts[j - 1] && ts[j - 1] in ts;
    }
  }

  lemma {:induction false} InsertTimeSorts(t: int, ts: seq<int>)
    requires Ascending(ts)
    ensures Ascending(InsertTime(t, ts)) && multiset(InsertTime(t, ts)) == multiset(ts) + multiset{t}
  {
    InsertTimeContents(t, ts);
    if ts == [] || t <= ts[0] {
      AscendingCons(t, ts);
    } else {
      InsertTimeSorts(t, ts[1..]);
      var rest := InsertTime(t, ts[1..]);
      forall x | x in rest ensures ts[0] <= x {
        assert x in multiset(rest);
        assert x == t || x in ts[1..];
      }
      AscendingCons(ts[0], rest);
    }
  }

  lemma {:induction false} SortTimesSorts(ts: seq<int>)
    ensures Ascending(SortTimes(ts)) && multiset(SortTimes(ts)) == multiset(ts)
  {
    if ts != [] {
      SortTimesSorts(ts[1..]);
      InsertTimeSorts(ts[0], SortTimes(ts[1..]));
      HeadTail(ts);
    }
  }

  lemma {:induction false} SortSorted(ts: seq<int>)
    requires Ascending(ts)
    ensures SortTimes(ts) == ts
  {
    if ts != [] {
      SortSorted(ts[1..]);
      assert ts == [ts[0]] + ts[1..];
      assert ts[1..] != [] ==> ts[0] <= ts[1..][0];
    }
  }

  // The times around now, with their values unchanged.
  function Within(ts: seq<int>, now: int, window: int): seq<int> {
    if ts == [] then []
    else (if now - window <= ts[0] <= now + window then [ts[0]] else []) + Within(ts[1..], now, window)
  }

  function LaunchHistoryInWindow(ts: seq<int>, now: int, window: int): seq<int> {
    SortTimes(Within(ts, now, window))
  }

  lemma {:induction false} WithinCounts(ts: seq<int>, now: int, window: int, t: int)
    ensures multiset(Within(ts, now, window))[t] == if now - window <= t <= now + window then multiset(ts)[t] else 0
  {
    if ts != [] {
      WithinCounts(ts[1..], now, window, t);
      HeadTail(ts);
      if now - window <= ts[0] <= now + window {
        HeadTail(Within(ts, now, window));
      }
    }
  }

  /** The window keeps exactly the times inside it, each as often as it was there, in
      order; narrowing twice with the same window is narrowing once. */
  lemma WindowKeepsInside(ts: seq<int>, now: int, window: int)
    ensures Ascending(LaunchHistoryInWindow(ts, now, window))
    ensures forall t :: (
      multiset(LaunchHistoryInWindow(ts, now, window))[t] == if now - window <= t <= now + window then multiset(ts)[t] else 0)
    ensures LaunchHistoryInWindow(LaunchHistoryInWindow(ts, now, window), now, window) == LaunchHistoryInWindow(ts, now, window)
  {
    var once := LaunchHistoryInWindow(ts, now, window);
    SortTimesSorts(Within(ts, now, window));
    forall t ensures multiset(once)[t] == if now - window <= t <= now + window then multiset(ts)[t] else 0 {
      WithinCounts(ts, now, window, t);
    }
    forall i | 0 <= i < |once| ensures now - window <= once[i] <= now + window {
      assert once[i] in multiset(once);
    }
    AllWithin(once, now, window);
    SortSorted(once);
  }

  lemma {:induction false} AllWithin(ts: seq<int>, now: int, window: int)
    requires forall i | 0 <= i < |ts| :: now - window <= ts[i] <= now + window
    ensures Within(ts, now, window) == ts
  {
    if ts != [] {
      AllWithin(ts[1..], now, window);
      assert ts == [ts[0]] + ts[1..];
    }
  }

  // ---- Reading and writing ----

  // The YAML of a block. Unreadable content and non-finite numbers read as nothing.
  // Text that ends in a stray marker line is no mapping, so it reads as nothing too.
  datatype Codec = Codec(decode: string -> seq<int>, encode: seq<int> -> string) {
    ghost predicate Lawful() {
      && (forall h :: decode(encode(h)) == h && Plain(encode(h)))
      && (forall lines | WholeLines(lines) :: decode(lines + MARKER_LINE) == [])
    }
  }

  const MARKER_LINE := LAUNCH_HISTORY_MARKER + "\n"

  predicate WholeLines(text: string) {
    text == "" || text[|text| - 1] == '\n'
  }

  // What the encoder writes: whole lines without a fence and without a marker, not
  // beginning with white space.
  ghost predicate Plain(yaml: string) {
    && yaml != "" && !IsSpace(yaml[0]) && WholeLines(yaml)
    && forall j: nat :: !OccursAt(yaml, FENCE, j) && !OccursAt(yaml, LAUNCH_HISTORY_MARKER, j)
  }

  function NewBlock(yaml: string): string {
    LAUNCH_HISTORY_MARKER + "\n" + YAML_FENCE + "\n" + yaml + FENCE + "\n"
  }

  function Times(codec: Codec, body: string, matches: seq<Match>): seq<int>
    requires forall m | m in matches :: m.from <= m.upTo <= |body|
  {
    if matches == [] then []
    else
      assert matches[0] in matches;
      codec.decode(body[matches[0].from..matches[0].upTo]) + Times(codec, body, matches[1..])
  }

  lemma {:induction false} BlocksInside(body: string, from: nat)
    ensures forall m | m in Blocks(body, from) :: m.from <= m.upTo <= |body|
    decreases |body| - from
  {
    if from < |body| {
      match MatchAt(body, from)
      case Some(m) => BlocksInside(body, m.end);
      case None => BlocksInside(body, from + 1);
    }
  }

  ghost function History(codec: Codec, body: string): seq<int> {
    BlocksInside(body, 0);
    SortTimes(Times(codec, body, Blocks(body, 0)))
  }

  method LaunchHistoryFromBody(codec: Codec, body: string) returns (history: seq<int>)
    ensures history == History(codec, body)
  {
    var matches := Blocks(body, 0);
    BlocksInside(body, 0);
    var timestamps: seq<int> := [];
    for i := 0 to |matches|
      invariant timestamps + Times(codec, body, matches[i..]) == Times(codec, body, matches)
    {
      assert matches[i..][1..] == matches[i + 1..];
      timestamps := timestamps + codec.decode(body[matches[i].from..matches[i].upTo]);
    }
    assert matches[|matches|..] == [];
    assert timestamps + [] == timestamps;
    history := SortTimes(timestamps);
  }

  // How often a time stands in one of the blocks.
  function Occurrences(codec: Codec, body: string, matches: seq<Match>, t: int): nat
    requires forall m | m in matches :: m.from <= m.upTo <= |body|
  {
    if matches == [] then 0
    else
      assert matches[0] in matches;
      multiset(codec.decode(body[matches[0].from..matches[0].upTo]))[t] + Occurrences(codec, body, matches[1..], t)
  }

  lemma {:induction false} TimesCount(codec: Codec, body: string, matches: seq<Match>, t: int)
    requires forall m | m in matches :: m.from <= m.upTo <= |body|
    ensures multiset(Times(codec, body, matches))[t] == Occurrences(codec, body, matches, t)
  {
    if matches != [] {
      TimesCount(codec, body, matches[1..], t);
    }
  }

  /** Duplicated blocks are read as their multiset sum, in ascending order. */
  lemma HistoryIsSum(codec: Codec, body: string, t: int)
    ensures Ascending(History(codec, body))
    ensures (forall m | m in Blocks(body, 0) :: m.from <= m.upTo <= |body|)
      && multiset(History(codec, body))[t] == Occurrences(codec, body, Blocks(body, 0), t)
  {
    BlocksInside(body, 0);
    TimesCount(codec, body, Blocks(body, 0), t);
    SortTimesSorts(Times(codec, body, Blocks(body, 0)));
  }

  // ---- A written block ----

  lemma NoSpace(s: string, i: nat)
    requires i < |s| && s[i] == '\n' && i + 1 < |s| && !IsSpace(s[i + 1])
    ensures SpaceEnd(s, i) == i + 1 && AfterLastNewline(s, i, i + 1) == Some(i + 1)
  {
    assert SpaceEnd(s, i + 1) == i + 1;
  }

  lemma {:induction false} FenceIs(s: string, i: nat, q: nat)
    requires i <= q && OccursAt(s, FENCE, q) && forall j | i <= j < q :: !OccursAt(s, FENCE, j)
    ensures FenceFrom(s, i) == Some(q)
    decreases q - i
  {
    if i < q {
      FenceIs(s, i + 1, q);
    }
  }

  // No fence starts inside the content, nor where it meets what follows.
  lemma NoFenceBefore(yaml: string, after: string, j: nat)
    requires Plain(yaml) && j < |yaml| && |after| >= 3
    ensures !OccursAt(yaml + after, FENCE, j)
  {
    var s := yaml + after;
    if j + 3 <= |yaml| {
      assert s[j..j + 3] == yaml[j..j + 3] && !OccursAt(yaml, FENCE, j);
    } else {
      var d := |yaml| - 1 - j;
      assert s[j..j + 3][d] == '\n' && FENCE[d] == '`';
    }
  }

  // How far a written block reaches into its text.
  const HEADER: nat := |LAUNCH_HISTORY_MARKER| + 9

  lemma Shifted(before: string, s: string, part: string, i: nat)
    ensures OccursAt(before + s, part, |before| + i) <==> OccursAt(s, part, i)
  {
    if i + |part| <= |s| {
      assert (before + s)[|before| + i..|before| + i + |part|] == s[i..i + |part|];
    }
  }

  // A block header at i, then content up to the first fence.
  ghost predicate HeaderAt(body: string, i: nat) {
    && OccursAt(body, LAUNCH_HISTORY_MARKER, i)
    && i + HEADER < |body| && body[i + HEADER - 9] == '\n' && OccursAt(body, YAML_FENCE, i + HEADER - 8)
    && body[i + HEADER - 1] == '\n' && !IsSpace(body[i + HEADER])
  }

  lemma HeaderMatches(body: string, i: nat, q: nat)
    requires HeaderAt(body, i) && i + HEADER <= q && OccursAt(body, FENCE, q)
    requires forall j | i + HEADER <= j < q :: !OccursAt(body, FENCE, j)
    ensures MatchAt(body, i) == Some(Match(i, i + HEADER, q, ClosingEnd(body, q + 3)))
  {
    assert |YAML_FENCE| == 7 && |FENCE| == 3;
    NoSpace(body, i + HEADER - 1);
    FenceIs(body, i + HEADER, q);
  }

  function Header(): string {
    LAUNCH_HISTORY_MARKER + "\n" + YAML_FENCE + "\n"
  }

  lemma HeaderStands(before: string, rest: string)
    requires rest != "" && !IsSpace(rest[0])
    ensures HeaderAt(before + Header() + rest, |before|) && |before + Header()| == |before| + HEADER
  {
    var body := before + Header() + rest;
    var b, mark := |before|, |LAUNCH_HISTORY_MARKER|;
    assert |YAML_FENCE| == 7;
    assert body[b..b + mark] == LAUNCH_HISTORY_MARKER;
    assert body[b + mark + 1..b + mark + 8] == YAML_FENCE;
  }

  // Content without a fence, closed by one.
  lemma ClosedContent(head: string, content: string, after: string)
    requires FENCE <= after
    requires forall j | 0 <= j < |content| :: !OccursAt(content + after, FENCE, j)
    ensures var body := head + (content + after);
      OccursAt(body, FENCE, |head| + |content|)
      && forall j | |head| <= j < |head| + |content| :: !OccursAt(body, FENCE, j)
  {
    var body := head + (content + after);
    forall j | |head| <= j < |head| + |content| ensures !OccursAt(body, FENCE, j) {
      Shifted(head, content + after, FENCE, j - |head|);
    }
    Shifted(head, content + after, FENCE, |content|);
    assert (content + after)[|content|..|content| + 3] == FENCE;
  }

  /** A written block is found again exactly where it stands, whatever surrounds it. */
  lemma WrittenBlockMatches(before: string, yaml: string, after: string)
    requires Plain(yaml)
    ensures MatchAt(before + NewBlock(yaml) + after, |before|) ==
      Some(Match(|before|, |before| + HEADER, |before| + HEADER + |yaml|, |before| + |NewBlock(yaml)|))
    ensures (before + NewBlock(yaml) + after)[|before| + HEADER..|before| + HEADER + |yaml|] == yaml
  {
    hide MatchAt, HeaderAt, OccursAt, ClosingEnd, IsSpace;
    var body := before + NewBlock(yaml) + after;
    var closing := FENCE + ("\n" + after);
    var head := before + Header();
    assert body == head + (yaml + closing);
    HeaderStands(before, yaml + closing);
    forall j | 0 <= j < |yaml| ensures !OccursAt(yaml + closing, FENCE, j) {
      NoFenceBefore(yaml, closing, j);
    }
    ClosedContent(head, yaml, closing);
    HeaderMatches(body, |before|, |head| + |yaml|);
    assert closing[3] == '\n' && body[|head| + |yaml| + 3] == closing[3];
    NewlineCloses(body, |head| + |yaml| + 3);
  }

  lemma NewlineCloses(s: string, i: nat)
    requires i < |s| && s[i] == '\n'
    ensures ClosingEnd(s, i) == i + 1
  {
  }

  lemma {:induction false} NoBlocksBetween(body: string, from: nat, limit: nat)
    requires from <= limit <= |body| && forall i | from <= i < limit :: !OccursAt(body, LAUNCH_HISTORY_MARKER, i)
    ensures Blocks(body, from) == Blocks(body, limit)
    decreases limit - from
  {
    if from < limit {
      NoBlocksBetween(body, from + 1, limit);
    }
  }

  // ---- Writing the history ----

  ghost function Backfilled(codec: Codec, body: string, history: seq<int>): Option<string> {
    if History(codec, body) == history then None
    else
      var block := NewBlock(codec.encode(history));
      match Healed(body, block)
      case Some(updated) => Some(updated)
      case None => Some(body + (if body != "" && body[|body| - 1] == '\n' then "" else "\n") + "\n" + block)
  }

  method BackfillLaunchHistory(codec: Codec, body: string, history: seq<int>) returns (updated: Option<string>)
    ensures updated == Backfilled(codec, body, history)
  {
    var current := LaunchHistoryFromBody(codec, body);
    if current == history {
      return None;
    }
    var block := NewBlock(codec.encode(history));
    updated := ReplaceAllBlocks(body, block);
    if updated.None? {
      var separator := if body != "" && body[|body| - 1] == '\n' then "" else "\n";
      updated := Some(body + separator + "\n" + block);
    }
  }

  // The updated body: all text outside the blocks, and the written block in it.
  ghost function Prose(body: string): (string, string) {
    BlocksInOrder(body, 0);
    var matches := Blocks(body, 0);
    if matches == [] then (body + (if body != "" && body[|body| - 1] == '\n' then "" else "\n") + "\n", "")
    else (body[..matches[0].start], Rest(body, matches[1..], matches[0].end))
  }

  // ---- The laws of the codec can be met ----

  function Ticks(n: nat): string {
    seq(n, _ => 'i')
  }

  const Tick: char -> bool := c => c == 'i'

  // A time as a sign and that many ticks; a line end closes the list.
  function UnaryTimes(ts: seq<int>): string {
    if ts == [] then "\n"
    else (if ts[0] < 0 then "-" + Ticks(-ts[0]) else "+" + Ticks(ts[0])) + UnaryTimes(ts[1..])
  }

  function ReadUnary(s: string): seq<int> {
    if s == "" || (s[0] != '-' && s[0] != '+') then []
    else
      var n: int := RunLength(s[1..], Tick);
      [if s[0] == '-' then -n else n] + ReadUnary(s[1 + n..])
  }

  lemma {:induction false} UnaryChars(ts: seq<int>)
    ensures UnaryTimes(ts) != "" && UnaryTimes(ts)[0] in "+-\n" && UnaryTimes(ts)[|UnaryTimes(ts)| - 1] == '\n'
    ensures forall c | c in UnaryTimes(ts) :: c in "+-i\n"
  {
    if ts != [] {
      UnaryChars(ts[1..]);
    }
  }

  lemma ReadStep(s: string, rest: string)
    requires s != "" && (s[0] == '-' || s[0] == '+') && rest == s[1 + RunLength(s[1..], Tick)..]
    ensures var n: int := RunLength(s[1..], Tick);
      ReadUnary(s) == [if s[0] == '-' then -n else n] + ReadUnary(rest)
  {
    hide RunLength;
  }

  // A sign, ticks, and something else are read as that number.
  lemma OneTimeReads(sign: char, n: nat, rest: string)
    requires (sign == '-' || sign == '+') && rest != "" && rest[0] != 'i'
    ensures ReadUnary([sign] + Ticks(n) + rest) == [if sign == '-' then 0 - n else n] + ReadUnary(rest)
  {
    hide RunLength, ReadUnary;
    var s := [sign] + Ticks(n) + rest;
    assert s[1..] == Ticks(n) + rest && s[1 + n..] == rest && s[0] == sign;
    RunLengthIs(Ticks(n), rest, Tick);
    ReadStep(s, rest);
  }

  lemma UnaryStep(ts: seq<int>)
    requires ts != []
    ensures UnaryTimes(ts) ==
      (if ts[0] < 0 then ['-'] + Ticks(0 - ts[0]) + UnaryTimes(ts[1..]) else ['+'] + Ticks(ts[0]) + UnaryTimes(ts[1..]))
  {
    hide Ticks;
  }

  lemma {:induction false} UnaryReads(ts: seq<int>)
    ensures ReadUnary(UnaryTimes(ts)) == ts
  {
    if ts != [] {
      hide ReadUnary, Ticks, UnaryTimes;
      var rest := ts[1..];
      UnaryStep(ts);
      UnaryReads(rest);
      UnaryChars(rest);
      var sign, n := if ts[0] < 0 then '-' else '+', if ts[0] < 0 then 0 - ts[0] else ts[0];
      OneTimeReads(sign, n, UnaryTimes(rest));
      assert ts == [ts[0]] + rest;
    }
  }

  function UnaryHistory(ts: seq<int>): string {
    "t" + UnaryTimes(ts)
  }

  function ReadUnaryHistory(s: string): seq<int> {
    if s == "" || '<' in s then [] else ReadUnary(s[1..])
  }

  /** A lawful codec exists. */
  lemma UnaryCodecIsLawful()
    ensures Codec(ReadUnaryHistory, UnaryHistory).Lawful()
  {
    hide UnaryTimes, ReadUnary;
    forall h: seq<int> ensures ReadUnaryHistory(UnaryHistory(h)) == h && Plain(UnaryHistory(h)) {
      UnaryReads(h);
      UnaryChars(h);
      var s := UnaryHistory(h);
      assert s[1..] == UnaryTimes(h);
      forall c | c in s ensures c in "t+-i\n" {
        assert c in UnaryTimes(h) || c == 't';
      }
      UnaryIsPlain(s);
    }
    forall lines: string ensures ReadUnaryHistory(lines + MARKER_LINE) == [] {
      assert (lines + MARKER_LINE)[|lines|] == MARKER_LINE[0] == '<';
    }
  }

  lemma UnaryIsPlain(s: string)
    requires forall c | c in s :: c in "t+-i\n"
    ensures forall j: nat :: !OccursAt(s, FENCE, j) && !OccursAt(s, LAUNCH_HISTORY_MARKER, j)
  {
    forall j: nat ensures !OccursAt(s, FENCE, j) && !OccursAt(s, LAUNCH_HISTORY_MARKER, j) {
      assert j + 3 <= |s| ==> s[j..j + 3][0] == s[j] && s[j] in s;
      assert j + |LAUNCH_HISTORY_MARKER| <= |s| ==> s[j..j + |LAUNCH_HISTORY_MARKER|][0] == s[j];
      assert FENCE[0] == '`' && LAUNCH_HISTORY_MARKER[0] == '<';
    }
  }
}
