/** Where a plan keeps its subtasks, and that a write leaves these places in order. */
module PlanBounds {
  import opened Wrappers
  import opened Whitespace
  import opened BranchNaming
  import opened PlanScanners
  import opened PlanLines
  import opened PlanFlow
  import opened PlanBlocks
  import opened PlanRegions

  datatype PlanError = NoFrontmatter | NoFrontmatterEnd | NoSubtasks | NoSuchSubtask(id: string) | UnwritableNumber(id: string)

  // ---- Searching lines ----

  // The first line of the range that satisfies the test, or the end of the range.
  function Seek(lines: seq<string>, test: string -> bool, i: nat, end: nat): (k: nat)
    requires i <= end <= |lines|
    ensures i <= k <= end && (forall j | i <= j < k :: !test(lines[j])) && (k < end ==> test(lines[k]))
    decreases end - i
  {
    if i == end || test(lines[i]) then i else Seek(lines, test, i + 1, end)
  }

  lemma SeekIs(lines: seq<string>, test: string -> bool, i: nat, end: nat, k: nat)
    requires i <= k <= end <= |lines|
    requires (forall j | i <= j < k :: !test(lines[j])) && (k < end ==> test(lines[k]))
    ensures Seek(lines, test, i, end) == k
  {
    var found := Seek(lines, test, i, end);
    if found < k {
      assert false;
    }
  }

  // ---- The frontmatter and the list ----

  predicate IsDelimiter(line: string) {
    "---" <= line && SpaceRun(line[3..]) == |line| - 3
  }

  predicate IsSubtasksKey(line: string) {
    && "subtasks:" <= line
    && var rest := line[9..][SpaceRun(line[9..])..];
      rest == "" || (rest[0] == '#' && '\n' !in WithoutFinalNewline(rest))
  }

  // A line that ends the list of a key in the first column.
  predicate EndsList(line: string) {
    && !IsBlankLine(line) && !IsComment(line) && LeadingSpaces(line) == 0
    && !(ParseItemStart(line).Some? && ParseItemStart(line).value.indent == 0)
  }

  const Delimiter: string -> bool := line => IsDelimiter(line)
  const SubtasksKey: string -> bool := line => IsSubtasksKey(line)
  const ListEnd: string -> bool := line => EndsList(line)

  // The line that closes the frontmatter.
  function FrontEnd(lines: seq<string>): (r: Result<nat, PlanError>)
    ensures r.Ok? ==> 1 <= r.value < |lines|
  {
    if lines == [] || !IsDelimiter(lines[0]) then Err(NoFrontmatter)
    else
      var k := Seek(lines, Delimiter, 1, |lines|);
      if k == |lines| then Err(NoFrontmatterEnd) else Ok(k)
  }

  datatype Place = Place(start: nat, end: nat)

  // The lines of the list, up to the given end.
  function ListPlace(lines: seq<string>, end: nat): (r: Option<Place>)
    requires 1 <= end <= |lines|
    ensures r.Some? ==> 2 <= r.value.start <= r.value.end <= end
  {
    var k := Seek(lines, SubtasksKey, 1, end);
    if k == end then None else Some(Place(k + 1, Seek(lines, ListEnd, k + 1, end)))
  }

  function Region(lines: seq<string>, place: Place): seq<string>
    requires place.start <= place.end <= |lines|
  {
    lines[place.start..place.end]
  }

  function WithRegion(lines: seq<string>, place: Place, region: seq<string>): seq<string>
    requires place.start <= place.end <= |lines|
  {
    lines[..place.start] + region + lines[place.end..]
  }

  // A line that can stand in the list.
  predicate Inner(line: string) {
    !IsDelimiter(line) && !EndsList(line)
  }

  lemma RegionIsInner(lines: seq<string>, end: nat, place: Place)
    requires FrontEnd(lines) == Ok(end) && ListPlace(lines, end) == Some(place)
    ensures forall x | x in Region(lines, place) :: Inner(x)
  {
    hide IsDelimiter, EndsList, IsSubtasksKey;
    var k := Seek(lines, SubtasksKey, 1, end);
    assert place == Place(k + 1, Seek(lines, ListEnd, k + 1, end));
    forall i | place.start <= i < place.end ensures Inner(lines[i]) {
      assert !Delimiter(lines[i]) && !ListEnd(lines[i]);
    }
  }

  // Where the lines of the replaced whole come from.
  function Shifted(lines: seq<string>, place: Place, region: seq<string>, i: nat): string
    requires place.start <= place.end <= |lines| && i < |WithRegion(lines, place, region)|
  {
    if i < place.start then lines[i]
    else if i < place.start + |region| then region[i - place.start]
    else lines[i - |region| + (place.end - place.start)]
  }

  lemma WithRegionAt(lines: seq<string>, place: Place, region: seq<string>, i: nat)
    requires place.start <= place.end <= |lines| && i < |WithRegion(lines, place, region)|
    ensures WithRegion(lines, place, region)[i] == Shifted(lines, place, region, i)
  {
  }

  lemma FrontMoves(lines: seq<string>, end: nat, place: Place, region: seq<string>)
    requires FrontEnd(lines) == Ok(end) && 1 <= place.start <= place.end <= end
    requires forall x | x in region :: Inner(x)
    ensures FrontEnd(WithRegion(lines, place, region)) == Ok(end + |region| - (place.end - place.start))
  {
    hide IsDelimiter, EndsList, WithRegion;
    var other := WithRegion(lines, place, region);
    var last := end + |region| - (place.end - place.start);
    assert |other| == |lines| + |region| - (place.end - place.start) by { WithRegionLength(lines, place, region); }
    WithRegionAt(lines, place, region, 0);
    WithRegionAt(lines, place, region, last);
    assert Delimiter(lines[end]);
    forall i | 1 <= i < last ensures !Delimiter(other[i]) {
      WithRegionAt(lines, place, region, i);
      if place.start <= i < place.start + |region| {
        assert region[i - place.start] in region;
      } else {
        var was := if i < place.start then i else i - |region| + (place.end - place.start);
        assert !Delimiter(lines[was]);
      }
    }
    SeekIs(other, Delimiter, 1, |other|, last);
  }

  lemma WithRegionLength(lines: seq<string>, place: Place, region: seq<string>)
    requires place.start <= place.end <= |lines|
    ensures |WithRegion(lines, place, region)| == |lines| + |region| - (place.end - place.start)
  {
  }

  lemma ListStays(lines: seq<string>, end: nat, place: Place, region: seq<string>)
    requires 1 <= end <= |lines| && ListPlace(lines, end) == Some(place)
    requires forall x | x in region :: Inner(x)
    ensures var last := end + |region| - (place.end - place.start);
      && last <= |WithRegion(lines, place, region)|
      && ListPlace(WithRegion(lines, place, region), last) == Some(Place(place.start, place.start + |region|))
  {
    hide IsDelimiter, EndsList, IsSubtasksKey, WithRegion;
    var other := WithRegion(lines, place, region);
    var last := end + |region| - (place.end - place.start);
    WithRegionLength(lines, place, region);
    var key := Seek(lines, SubtasksKey, 1, end);
    assert place == Place(key + 1, Seek(lines, ListEnd, key + 1, end));
    forall i | 1 <= i <= key ensures other[i] == lines[i] {
      WithRegionAt(lines, place, region, i);
    }
    assert forall i | 1 <= i < key :: !SubtasksKey(lines[i]);
    SeekIs(other, SubtasksKey, 1, last, key);
    forall i | key + 1 <= i < place.start + |region| ensures !ListEnd(other[i]) {
      WithRegionAt(lines, place, region, i);
      assert region[i - place.start] in region;
    }
    if place.start + |region| < last {
      WithRegionAt(lines, place, region, place.start + |region|);
      assert ListEnd(lines[place.end]);
    }
    SeekIs(other, ListEnd, key + 1, last, place.start + |region|);
  }

  /** Replacing the lines of the list by others that can stand there moves the closing line
      by the difference in length and leaves the list where it starts. */
  lemma RegionReplaced(lines: seq<string>, end: nat, place: Place, region: seq<string>)
    requires FrontEnd(lines) == Ok(end) && ListPlace(lines, end) == Some(place)
    requires forall x | x in region :: Inner(x)
    ensures var other := WithRegion(lines, place, region);
      var last := end + |region| - (place.end - place.start);
      && FrontEnd(other) == Ok(last)
      && ListPlace(other, last) == Some(Place(place.start, place.start + |region|))
      && Region(other, Place(place.start, place.start + |region|)) == region
  {
    hide FrontEnd, ListPlace, Inner;
    FrontMoves(lines, end, place, region);
    ListStays(lines, end, place, region);
  }

  // ---- What a write leaves in the list ----

  // A line that can stand in the list and reads as one piece.
  ghost predicate Sound(line: string) {
    Inner(line) && NeatFlow(line)
  }

  lemma FieldLineIsSound(line: string, indent: nat)
    requires LineField(line, indent).Some? && indent > 0
    ensures Sound(line)
  {
    hide LineField, IsBlankLine, IsComment, ParseItemStart, ParseKey, SpaceRun, LeadingSpaces, FlowOpen;
    FieldLineStart(line, indent);
    assert line[0] == Spaces(indent)[0] == ' ';
    FieldOpensNoFlow(line, indent);
  }

  lemma FieldOpensNoFlow(line: string, indent: nat)
    requires LineField(line, indent).Some?
    ensures FlowOpen(WithoutFinalNewline(line)).None?
  {
    hide LineField, ParseKey, LeadingSpaces, IsBlankLine, IsComment;
    FieldLineStart(line, indent);
    var body := WithoutFinalNewline(line);
    assert indent < |body| && body[indent] == line[indent];
    assert !IsSpace(line[indent]) && forall i | 0 <= i < indent :: IsSpace(line[i]);
    SpaceRunAt(body, indent);
  }

  // A flow item written back is not a delimiter.
  lemma FlowIsNoDelimiter(head: string, line: string)
    requires FlowOpen(head) == Some(|head| - 1) && head <= line
    ensures !IsDelimiter(line)
  {
    OpeningRuns(head, line);
    var w := SpaceRun(head);
    if w == 0 {
      assert line[1] == line[1..][0];
      assert SpaceRun(line[1..]) == 0 ==> |head| == 2 && line[1] == head[1] == '{';
    }
  }

  lemma WrittenFlowIsSound(yaml: Yaml, line: string, id: string, n: nat)
    requires yaml.Lawful() && OneLine(line) && Sound(line) && ParseItemStart(line).Some?
    requires ReadableFlow(yaml, line) && WriteFlow(yaml, line, id, n).Some?
    ensures Sound(WriteFlow(yaml, line, id, n).value)
  {
    hide ParseFlow, FlowOpen, ParseItemStart, Segments, WithNumber, Commas, LeadingSpaces, IsBlankLine, IsComment, OneLine,
      IsDelimiter, NeatFlow, FlowId, ReadableFlow, FlowStays, Yaml.Lawful;
    WrittenFlowSameStart(yaml, line, id, n);
    FlowWriteReads(yaml, line, id, n);
    NoNewlineInside(line);
    var flow := ParseFlow(line).value;
    var head := flow.open + "{";
    var written := WriteFlow(yaml, line, id, n).value;
    assert head <= written;
    FlowIsNoDelimiter(head, written);
  }

  lemma ReplacedIsSound(block: seq<string>, k: nat, n: nat)
    requires IsBlock(block) && 1 <= k < |block| && NumberLine(block[k]).Some?
    requires LineField(block[k], FieldIndent(block)).Some? && LineField(block[k], FieldIndent(block)).value.key == NUMBER
    ensures Sound(RewriteLine(block[k], n))
  {
    hide LineField, FieldIndent, ParseItemStart, ParseKey, NumberLine, RewriteLine, Sound, ReadNumber, Clean, OneLine;
    RewrittenField(block[k], FieldIndent(block), n);
    FieldsStandDeeper(block, k);
    FieldLineIsSound(RewriteLine(block[k], n), FieldIndent(block));
  }

  lemma InlineStandsDeeper(block: seq<string>)
    requires block != [] && ParseItemStart(block[0]).Some? && ParseKey(ParseItemStart(block[0]).value.inline).Some?
    ensures FieldIndent(block) > 0
  {
  }

  lemma InsertedIsSound(block: seq<string>, i: nat, n: nat)
    requires IsBlock(block) && i < |block|
    requires i == 0 ==> ParseKey(ParseItemStart(block[0]).value.inline).Some?
    requires i > 0 ==> LineField(block[i], FieldIndent(block)).Some?
    ensures Sound(InsertedLine(FieldIndent(block), n))
  {
    hide LineField, FieldIndent, ParseItemStart, ParseKey, InsertedLine, Sound, ReadNumber, OneLine;
    if i == 0 {
      InlineStandsDeeper(block);
    } else {
      FieldsStandDeeper(block, i);
    }
    InsertedField(FieldIndent(block), n);
    FieldLineIsSound(InsertedLine(FieldIndent(block), n), FieldIndent(block));
  }

  lemma SoundAround(block: seq<string>, other: seq<string>, line: string, i: nat, k: nat)
    requires forall x | x in block :: Sound(x)
    requires Sound(line) && i <= k <= |block| && other == block[..i] + [line] + block[k..]
    ensures forall x | x in other :: Sound(x)
  {
    hide Sound;
    assert forall x | x in block[..i] :: x in block;
    assert forall x | x in block[k..] :: x in block;
  }

  lemma WrittenBlockIsSound(yaml: Yaml, block: seq<string>, id: string, n: nat)
    requires yaml.Lawful() && IsBlock(block) && OneLine(block[0]) && (forall x | x in block :: Sound(x))
    requires ReadableFlow(yaml, block[0])
    requires WriteBlock(yaml, block, id, n).Written?
    ensures forall x | x in WriteBlock(yaml, block, id, n).lines :: Sound(x)
  {
    hide ParseItemStart, LineField, RewriteLine, NumberLine, OneLine, FieldIndent, DirectFields, InsertedLine, ParseKey, Hits,
      IsBlock, WriteFlow, Sound, ReadableFlow, Yaml.Lawful;
    BlockStart(block);
    ItemLineHasNoNumber(block[0]);
    var other := WriteBlock(yaml, block, id, n).lines;
    if WriteFlow(yaml, block[0], id, n).Some? {
      assert block[0] in block;
      WrittenFlowIsSound(yaml, block[0], id, n);
      SoundAround(block, other, other[0], 0, 1);
    } else {
      FirstHit(block, IsId(yaml, id));
      FirstHit(block, IsNumber());
      var existing := FindField(DirectFields(block), IsNumber());
      if existing.Some? {
        var k := existing.value.index;
        ReplacedIsSound(block, k, n);
        SoundAround(block, other, RewriteLine(block[k], n), k, k + 1);
      } else {
        var i := FindField(DirectFields(block), IsId(yaml, id)).value.index;
        InsertedIsSound(block, i, n);
        SoundAround(block, other, InsertedLine(FieldIndent(block), n), i + 1, i + 1);
      }
    }
  }

  // A list whose lines are each one line, can stand there, and read as one piece.
  ghost predicate SoundList(region: seq<string>) {
    forall x | x in region :: OneLine(x) && Sound(x)
  }

  lemma SoundListIsWellFormed(region: seq<string>)
    requires SoundList(region)
    ensures WellFormed(region) && forall x | x in region :: Inner(x)
  {
    hide OneLine, NeatFlow, Inner;
  }

  lemma SoundConcat(a: seq<string>, b: seq<string>)
    ensures SoundList(a + b) <==> SoundList(a) && SoundList(b)
  {
    hide OneLine, Sound;
    assert forall x | x in a :: x in a + b;
    assert forall x | x in b :: x in a + b;
  }

  lemma WrittenBlockKeepsSound(yaml: Yaml, block: seq<string>, id: string, n: nat)
    requires yaml.Lawful() && IsBlock(block) && SoundList(block) && ReadableFlow(yaml, block[0])
    requires WriteBlock(yaml, block, id, n).Written? && CleanTarget(yaml, block, id, n)
    ensures SoundList(WriteBlock(yaml, block, id, n).lines)
  {
    hide OneLine, NeatFlow, Inner, IsBlock, WriteBlock, CleanTarget, NumberOf, ReadableFlow, Yaml.Lawful;
    BlockStart(block);
    assert block[0] in block;
    BlockWriteReads(yaml, block, id, n);
    WrittenBlockIsSound(yaml, block, id, n);
  }

  /** A written list is as sound as it was. */
  lemma {:induction false} ListWriteKeepsSound(yaml: Yaml, region: seq<string>, id: string, n: nat)
    requires yaml.Lawful() && SoundList(region) && Ready(yaml, region, id, n)
    ensures WriteList(yaml, region, id, n).Done? && SoundList(WriteList(yaml, region, id, n).lines)
    decreases |region|
  {
    hide SoundList, Carries, ParseItemStart, IsBlock, WriteBlock, CleanTarget, ReadableFlow, Yaml.Lawful;
    if !StartsItem(region) {
      assert region == [region[0]] + region[1..];
      SoundConcat([region[0]], region[1..]);
      ListWriteKeepsSound(yaml, region[1..], id, n);
      SoundConcat([region[0]], WriteList(yaml, region[1..], id, n).lines);
    } else {
      var k := BlockLength(region);
      var first, rest := region[..k], region[k..];
      assert region == first + rest;
      SoundConcat(first, rest);
      FirstBlock(region);
      UnwritableIff(yaml, first, id, n);
      if Carries(yaml, first, id) {
        ReadyIsWritten(yaml, first, id, n);
        assert first[0] == region[0];
        WrittenBlockKeepsSound(yaml, first, id, n);
        SoundConcat(WriteBlock(yaml, first, id, n).lines, rest);
      } else {
        ListWriteKeepsSound(yaml, rest, id, n);
        SoundConcat(first, WriteList(yaml, rest, id, n).lines);
      }
    }
  }
}
