/** The list of subtasks: finding the item of an id, and writing its number. */
module PlanRegions {
  import opened Wrappers
  import opened PlanScanners
  import opened PlanLines
  import opened PlanFlow
  import opened PlanBlocks

  // The number of lines from the start that stay inside an item.
  function InsideRun(lines: seq<string>, indent: nat): (n: nat)
    ensures n <= |lines| && (forall i | 0 <= i < n :: StaysInside(lines[i], indent))
    ensures n < |lines| ==> !StaysInside(lines[n], indent)
  {
    if lines == [] || !StaysInside(lines[0], indent) then 0 else 1 + InsideRun(lines[1..], indent)
  }

  predicate StartsItem(region: seq<string>) {
    region != [] && ParseItemStart(region[0]).Some?
  }

  // The lines of the item that starts the region.
  function BlockLength(region: seq<string>): (n: nat)
    requires StartsItem(region)
    ensures 1 <= n <= |region|
  {
    1 + InsideRun(region[1..], ParseItemStart(region[0]).value.indent)
  }

  lemma FirstBlock(region: seq<string>)
    requires StartsItem(region)
    ensures IsBlock(region[..BlockLength(region)])
  {
    var n := BlockLength(region);
    assert forall i | 1 <= i < n :: region[..n][i] == region[1..][i - 1];
  }

  // ---- Reading and writing the list ----

  // The first item that carries the id.
  function Target(yaml: Yaml, region: seq<string>, id: string): (block: Option<seq<string>>)
    ensures block.Some? ==> StartsItem(block.value) && Carries(yaml, block.value, id)
    decreases |region|
  {
    if region == [] then None
    else if !StartsItem(region) then Target(yaml, region[1..], id)
    else
      var n := BlockLength(region);
      if Carries(yaml, region[..n], id) then Some(region[..n]) else Target(yaml, region[n..], id)
  }

  // Whether the subtask is in the list, and its number if it has one.
  function ReadList(yaml: Yaml, region: seq<string>, id: string): Option<Option<nat>> {
    match Target(yaml, region, id)
    case None => None
    case Some(block) => Some(NumberOf(yaml, block, id))
  }

  datatype ListWrite = NotFound | Broken | Done(lines: seq<string>)

  function After(first: seq<string>, rest: ListWrite): ListWrite {
    if rest.Done? then Done(first + rest.lines) else rest
  }

  function WriteList(yaml: Yaml, region: seq<string>, id: string, n: nat): ListWrite
    decreases |region|
  {
    if region == [] then NotFound
    else if !StartsItem(region) then After([region[0]], WriteList(yaml, region[1..], id, n))
    else
      var k := BlockLength(region);
      match WriteBlock(yaml, region[..k], id, n)
      case OtherBlock => After(region[..k], WriteList(yaml, region[k..], id, n))
      case Unwritable => Broken
      case Written(block) => Done(block + region[k..])
  }

  // ---- Items stay apart ----

  lemma {:induction false} InsideRunIs(lines: seq<string>, rest: seq<string>, indent: nat)
    requires forall x | x in lines :: StaysInside(x, indent)
    requires rest != [] ==> !StaysInside(rest[0], indent)
    ensures InsideRun(lines + rest, indent) == |lines|
  {
    if lines == [] {
      assert lines + rest == rest;
    } else {
      assert (lines + rest)[1..] == lines[1..] + rest && lines[0] in lines;
      InsideRunIs(lines[1..], rest, indent);
    }
  }

  // A block with the same dash in front of the same rest is cut at the same place.
  lemma BlockStaysApart(region: seq<string>, other: seq<string>)
    requires StartsItem(region) && IsBlock(other)
    requires ParseItemStart(other[0]).value.indent == ParseItemStart(region[0]).value.indent
    ensures var rest := region[BlockLength(region)..];
      && StartsItem(other + rest) && BlockLength(other + rest) == |other|
      && (other + rest)[..|other|] == other && (other + rest)[|other|..] == rest
  {
    hide ParseItemStart, StaysInside;
    var indent := ParseItemStart(region[0]).value.indent;
    var n := BlockLength(region);
    var rest := region[n..];
    assert rest != [] ==> rest[0] == region[1..][n - 1];
    assert forall x | x in other[1..] :: StaysInside(x, indent);
    InsideRunIs(other[1..], rest, indent);
    assert (other + rest)[1..] == other[1..] + rest;
  }

  // ---- Writing one subtask ----

  // The item of the id is there, its flow entries can be read, and its number has a place.
  ghost predicate Ready(yaml: Yaml, region: seq<string>, id: string, n: nat) {
    var block := Target(yaml, region, id);
    block.Some? && ReadableFlow(yaml, block.value[0]) && CleanTarget(yaml, block.value, id, n)
  }

  // Such an item is written.
  lemma ReadyIsWritten(yaml: Yaml, block: seq<string>, id: string, n: nat)
    requires StartsItem(block) && Carries(yaml, block, id) && CleanTarget(yaml, block, id, n)
    ensures WriteBlock(yaml, block, id, n).Written?
  {
    hide Carries, CleanTarget, WriteBlock, NumberRewritable, NamedByFlow, ParseItemStart;
    UnwritableIff(yaml, block, id, n);
    CleanIsRewritable(yaml, block, id, n);
  }

  ghost predicate WellFormed(region: seq<string>) {
    forall x | x in region :: OneLine(x) && NeatFlow(x)
  }

  lemma {:induction false} TargetIsBlock(yaml: Yaml, region: seq<string>, id: string)
    ensures Target(yaml, region, id).Some? ==>
      && IsBlock(Target(yaml, region, id).value) && Carries(yaml, Target(yaml, region, id).value, id)
      && forall x | x in Target(yaml, region, id).value :: x in region
    decreases |region|
  {
    hide Carries, ParseItemStart, IsBlock;
    if region != [] {
      if !StartsItem(region) {
        TargetIsBlock(yaml, region[1..], id);
      } else {
        FirstBlock(region);
        TargetIsBlock(yaml, region[BlockLength(region)..], id);
      }
    }
  }

  lemma FrontChanged(lines: seq<string>, other: seq<string>, before: seq<string>, after: seq<string>)
    requires OneLineChanged(lines, other)
    ensures OneLineChanged(before + lines + after, before + other + after)
  {
    var whole, next := before + lines + after, before + other + after;
    if |other| == |lines| {
      var k: nat :| k < |lines| && other == lines[k := other[k]];
      assert next == whole[|before| + k := next[|before| + k]];
    } else {
      var k: nat :| k <= |lines| && other == lines[..k] + [other[k]] + lines[k..];
      assert whole[..|before| + k] == before + lines[..k] && whole[|before| + k..] == lines[k..] + after;
      assert next[|before| + k] == other[k];
      assert next == whole[..|before| + k] + [next[|before| + k]] + whole[|before| + k..];
    }
  }

  // ---- The first line of a written item ----

  lemma {:induction false} LeadingSpacesPrefix(head: string, line: string)
    requires head <= line && LeadingSpaces(head) < |head|
    ensures LeadingSpaces(line) == LeadingSpaces(head)
  {
    if head[0] == ' ' {
      assert head[1..] <= line[1..] && line[0] == ' ';
      LeadingSpacesPrefix(head[1..], line[1..]);
    } else {
      assert line[0] == head[0];
    }
  }

  // Two lines that start in the same way: same column, same dash.
  predicate SameStart(line: string, other: string) {
    && LeadingSpaces(line) == LeadingSpaces(other)
    && IsBlankLine(line) == IsBlankLine(other) && IsComment(line) == IsComment(other)
    && (ParseItemStart(line).Some? <==> ParseItemStart(other).Some?)
    && (ParseItemStart(line).Some? ==> ParseItemStart(line).value.indent == ParseItemStart(other).value.indent)
  }

  lemma SameStartStays(line: string, other: string, indent: nat)
    requires SameStart(line, other)
    ensures StaysInside(line, indent) <==> StaysInside(other, indent)
  {
  }

  // An opening with a dash: where its spaces end, and that it is neither blank nor comment.
  lemma OpeningStart(head: string, line: string)
    requires FlowOpen(head) == Some(|head| - 1) && head <= line
    ensures LeadingSpaces(line) == LeadingSpaces(head) && !IsBlankLine(line) && !IsComment(line)
  {
    OpeningRuns(head, line);
    LeadingSpacesPrefix(head, line);
  }

  lemma WrittenFlowSameStart(yaml: Yaml, line: string, id: string, n: nat)
    requires WriteFlow(yaml, line, id, n).Some? && OneLine(line) && ParseItemStart(line).Some?
    ensures SameStart(line, WriteFlow(yaml, line, id, n).value)
  {
    hide ParseFlow, FlowOpen, ParseItemStart, Segments, WithNumber, Commas, LeadingSpaces, IsBlankLine, IsComment, OneLine;
    WrittenFlowStart(yaml, line, id, n);
    NoNewlineInside(line);
    var flow := ParseFlow(line).value;
    var head := flow.open + "{";
    var written := WriteFlow(yaml, line, id, n).value;
    assert head <= line && head <= written;
    OpeningStart(head, line);
    OpeningStart(head, written);
  }

  lemma WrittenFirstLine(yaml: Yaml, block: seq<string>, id: string, n: nat)
    requires StartsItem(block) && OneLine(block[0]) && WriteBlock(yaml, block, id, n).Written?
    ensures var other := WriteBlock(yaml, block, id, n).lines;
      other != [] && SameStart(block[0], other[0])
  {
    hide ParseItemStart, DirectFields, FieldIndent, WriteFlow, SameStart;
    SameStartItself(block[0]);
    ItemLineHasNoNumber(block[0]);
    if WriteFlow(yaml, block[0], id, n).Some? {
      WrittenFlowSameStart(yaml, block[0], id, n);
    } else {
      FirstHit(block, IsId(yaml, id));
      FirstHit(block, IsNumber());
    }
  }

  lemma SameStartItself(line: string)
    ensures SameStart(line, line)
  {
  }

  // The list still starts with the same kind of line.
  lemma {:induction false} ListFirstLine(yaml: Yaml, region: seq<string>, id: string, n: nat)
    requires WellFormed(region) && WriteList(yaml, region, id, n).Done?
    ensures var other := WriteList(yaml, region, id, n).lines;
      region != [] && other != [] && SameStart(region[0], other[0])
  {
    hide ParseItemStart, SameStart, WriteBlock, OneLine, NeatFlow;
    SameStartItself(region[0]);
    assert region[0] in region;
    if StartsItem(region) {
      var first := region[..BlockLength(region)];
      assert first[0] == region[0];
      if WriteBlock(yaml, first, id, n).Written? {
        WrittenFirstLine(yaml, first, id, n);
      }
    }
  }

  // An item in front of a rewritten rest is cut where it was.
  lemma BlockStaysBefore(yaml: Yaml, region: seq<string>, id: string, n: nat)
    requires StartsItem(region) && WellFormed(region[BlockLength(region)..])
    requires WriteList(yaml, region[BlockLength(region)..], id, n).Done?
    ensures var first := region[..BlockLength(region)];
      var whole := first + WriteList(yaml, region[BlockLength(region)..], id, n).lines;
      && StartsItem(whole) && BlockLength(whole) == |first| && whole[..|first|] == first
      && whole[|first|..] == WriteList(yaml, region[BlockLength(region)..], id, n).lines
  {
    hide ParseItemStart, StaysInside, SameStart, WellFormed, WriteList;
    var indent := ParseItemStart(region[0]).value.indent;
    var k := BlockLength(region);
    var first, rest := region[..k], region[k..];
    var other := WriteList(yaml, rest, id, n).lines;
    ListFirstLine(yaml, rest, id, n);
    SameStartStays(rest[0], other[0], indent);
    assert rest[0] == region[1..][k - 1];
    assert forall x | x in first[1..] :: x in region[1..][..k - 1];
    assert forall i | 0 <= i < k - 1 :: first[1..][i] == region[1..][i];
    InsideRunIs(first[1..], other, indent);
    assert (first + other)[1..] == first[1..] + other && (first + other)[0] == region[0];
  }

  /** Writing a subtask changes or inserts one line of the list; its own item then carries
      the number, and every id that the item does not carry is found where it was. */
  lemma {:induction false} ListWriteTargets(yaml: Yaml, region: seq<string>, id: string, n: nat)
    requires yaml.Lawful() && WellFormed(region) && Ready(yaml, region, id, n)
    ensures var write := WriteList(yaml, region, id, n);
      var block := Target(yaml, region, id).value;
      && write.Done? && WriteBlock(yaml, block, id, n).Written? && OneLineChanged(region, write.lines)
      && Target(yaml, write.lines, id) == Some(WriteBlock(yaml, block, id, n).lines)
      && forall x: string :: !Carries(yaml, block, x) ==> Target(yaml, write.lines, x) == Target(yaml, region, x)
    decreases |region|
  {
    hide Carries, ParseItemStart, IsBlock, CleanTarget, OneLineChanged, WriteBlock, OneLine, NeatFlow;
    if !StartsItem(region) {
      var rest := region[1..];
      assert region == [region[0]] + rest;
      ListWriteTargets(yaml, rest, id, n);
      var other := WriteList(yaml, rest, id, n).lines;
      var whole := [region[0]] + other;
      assert whole[1..] == other && whole[0] == region[0];
      FrontChanged(rest, other, [region[0]], []);
      assert [region[0]] + rest + [] == region && [region[0]] + other + [] == whole;
    } else {
      var k := BlockLength(region);
      var first, rest := region[..k], region[k..];
      assert region == first + rest;
      FirstBlock(region);
      UnwritableIff(yaml, first, id, n);
      if Carries(yaml, first, id) {
        ReadyIsWritten(yaml, first, id, n);
        WrittenFirst(yaml, region, id, n);
      } else {
        ListWriteTargets(yaml, rest, id, n);
        var other := WriteList(yaml, rest, id, n).lines;
        BlockStaysBefore(yaml, region, id, n);
        FrontChanged(rest, other, first, []);
        assert first + rest + [] == region && first + other + [] == first + other;
      }
    }
  }

  lemma WrittenFirst(yaml: Yaml, region: seq<string>, id: string, n: nat)
    requires yaml.Lawful() && WellFormed(region) && StartsItem(region)
    requires Carries(yaml, region[..BlockLength(region)], id) && ReadableFlow(yaml, region[0])
    requires CleanTarget(yaml, region[..BlockLength(region)], id, n)
    requires WriteBlock(yaml, region[..BlockLength(region)], id, n).Written?
    ensures var first, rest := region[..BlockLength(region)], region[BlockLength(region)..];
      WriteBlock(yaml, first, id, n).Written? &&
      var block := WriteBlock(yaml, first, id, n).lines;
      && OneLineChanged(region, block + rest)
      && Target(yaml, block + rest, id) == Some(block)
      && forall x: string :: !Carries(yaml, first, x) ==> Target(yaml, block + rest, x) == Target(yaml, region, x)
  {
    hide Carries, ParseItemStart, OneLineChanged, WriteBlock, OneLine, NeatFlow, Target, CleanTarget, NumberOf, BlockLength;
    var k := BlockLength(region);
    var first, rest := region[..k], region[k..];
    FirstBlock(region);
    FirstLines(region);
    ReadyIsWritten(yaml, first, id, n);
    BlockWriteReads(yaml, first, id, n);
    var block := WriteBlock(yaml, first, id, n).lines;
    BlockStaysApart(region, block);
    assert region == [] + first + rest && block + rest == [] + block + rest;
    FrontChanged(first, block, [], rest);
    forall x ensures !Carries(yaml, first, x) ==> Target(yaml, block + rest, x) == Target(yaml, region, x) {
      TargetStep(yaml, region, x);
      TargetStep(yaml, block + rest, x);
    }
    TargetStep(yaml, block + rest, id);
  }

  lemma FirstLines(region: seq<string>)
    requires StartsItem(region) && WellFormed(region)
    ensures var first := region[..BlockLength(region)];
      && first[0] == region[0] && NeatFlow(first[0]) && forall x | x in first :: OneLine(x)
  {
    hide OneLine, NeatFlow, ParseItemStart;
    assert region[0] in region;
    assert forall x | x in region[..BlockLength(region)] :: x in region;
  }

  lemma TargetStep(yaml: Yaml, region: seq<string>, x: string)
    requires StartsItem(region)
    ensures IsBlock(region[..BlockLength(region)])
    ensures Target(yaml, region, x) ==
      if Carries(yaml, region[..BlockLength(region)], x) then Some(region[..BlockLength(region)])
      else Target(yaml, region[BlockLength(region)..], x)
  {
    FirstBlock(region);
  }
}
