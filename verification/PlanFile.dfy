/** The plan editor: the list of lines it edits in place, and the file it saves. */
module PlanFile {
  import opened Wrappers
  import opened BranchNaming
  import opened PlanLines
  import opened PlanFlow
  import opened PlanBlocks
  import opened PlanRegions
  import opened PlanBounds
  import opened PlanWriter

  // ---- One item ----

  method DirectFieldsOf(block: seq<string>) returns (fields: seq<Field>, indent: nat)
    requires StartsItem(block)
    ensures fields == DirectFields(block) && indent == FieldIndent(block)
  {
    hide ParseItemStart, ParseKey, LineField, IsBlankLine, LeadingSpaces;
    var start := ParseItemStart(block[0]).value;
    indent := start.indent + 1 + start.gap;
    fields := InlineFields(block);
    if ParseKey(start.inline).None? {
      var index := 1;
      while index < |block| && IsBlankLine(block[index])
        invariant 1 <= index <= |block|
        invariant FirstText(block, 1) == FirstText(block, index)
      {
        index := index + 1;
      }
      if index < |block| {
        indent := LeadingSpaces(block[index]);
      }
    }
    for index := 1 to |block|
      invariant fields + LineFields(block, indent, index) == DirectFields(block)
    {
      var field := LineField(block[index], indent);
      if field.Some? {
        fields := fields + [Field(index, field.value.key, field.value.value)];
      }
    }
  }

  // ---- The lines in memory ----

  class LineList {
    var lines: seq<string>

    constructor (initial: seq<string>)
      ensures lines == initial
    {
      lines := initial;
    }

    method FindFrontmatterBounds() returns (r: Result<nat, PlanError>)
      ensures r == FrontEnd(lines)
    {
      hide IsDelimiter;
      if lines == [] || !IsDelimiter(lines[0]) {
        return Err(NoFrontmatter);
      }
      for index := 1 to |lines|
        invariant forall j | 1 <= j < index :: !Delimiter(lines[j])
      {
        if IsDelimiter(lines[index]) {
          SeekIs(lines, Delimiter, 1, |lines|, index);
          return Ok(index);
        }
      }
      SeekIs(lines, Delimiter, 1, |lines|, |lines|);
      r := Err(NoFrontmatterEnd);
    }

    method FindSubtasksBounds(end: nat) returns (r: Option<Place>)
      requires 1 <= end <= |lines|
      ensures r == ListPlace(lines, end)
    {
      hide IsSubtasksKey, EndsList;
      for index := 1 to end
        invariant forall j | 1 <= j < index :: !SubtasksKey(lines[j])
      {
        if IsSubtasksKey(lines[index]) {
          SeekIs(lines, SubtasksKey, 1, end, index);
          var listEnd := index + 1;
          while listEnd < end && !EndsList(lines[listEnd])
            invariant index + 1 <= listEnd <= end
            invariant forall j | index + 1 <= j < listEnd :: !ListEnd(lines[j])
          {
            listEnd := listEnd + 1;
          }
          SeekIs(lines, ListEnd, index + 1, end, listEnd);
          return Some(Place(index + 1, listEnd));
        }
      }
      SeekIs(lines, SubtasksKey, 1, end, end);
      r := None;
    }

    method WriteFrontmatterField(end: nat, name: string, anchor: string -> bool, value: string) returns (r: nat)
      requires 1 <= end <= |lines|
      modifies this
      ensures Plan(lines, r) == WriteField(Plan(old(lines), end), name, anchor, value)
    {
      hide ParseValueLine;
      for index := 1 to end
        invariant lines == old(lines)
        invariant forall j | 1 <= j < index :: !FieldTest(name)(lines[j])
      {
        var found := ParseValueLine(name, lines[index]);
        if found.Some? {
          SeekIs(lines, FieldTest(name), 1, end, index);
          lines := lines[index := found.value.head + value + found.value.tail + "\n"];
          return end;
        }
      }
      SeekIs(lines, FieldTest(name), 1, end, end);
      var insertAt := 1;
      var index := 1;
      while index < end && !anchor(lines[index])
        invariant 1 <= index <= end
        invariant forall j | 1 <= j < index :: !anchor(lines[j])
      {
        index := index + 1;
      }
      SeekIs(lines, anchor, 1, end, index);
      if index < end {
        insertAt := index + 1;
      }
      lines := lines[..insertAt] + [name + ": " + value + "\n"] + lines[insertAt..];
      r := end + 1;
    }

    // The end of the item that starts here.
    method BlockEnd(index: nat, end: nat) returns (blockEnd: nat)
      requires index < end <= |lines| && StartsItem(lines[index..end])
      ensures blockEnd == index + BlockLength(lines[index..end])
    {
      hide StaysInside, ParseItemStart;
      var indent := ParseItemStart(lines[index]).value.indent;
      ghost var rest := lines[index..end][1..];
      blockEnd := index + 1;
      while blockEnd < end && StaysInside(lines[blockEnd], indent)
        invariant index < blockEnd <= end
        invariant InsideRun(rest, indent) == blockEnd - index - 1 + InsideRun(rest[blockEnd - index - 1..], indent)
      {
        assert rest[blockEnd - index - 1] == lines[blockEnd];
        assert rest[blockEnd - index - 1..][1..] == rest[blockEnd - index..];
        blockEnd := blockEnd + 1;
      }
      assert blockEnd < end ==> rest[blockEnd - index - 1..][0] == lines[blockEnd];
    }

    // Writes one item if it carries the id: the lines added, or no number to rewrite.
    method WriteItem(yaml: Yaml, index: nat, blockEnd: nat, id: string, n: nat) returns (r: Option<Option<nat>>)
      requires index < blockEnd <= |lines| && StartsItem(lines[index..blockEnd])
      modifies this
      ensures match WriteBlock(yaml, old(lines)[index..blockEnd], id, n)
        case OtherBlock => r == None && lines == old(lines)
        case Unwritable => r == Some(None) && lines == old(lines)
        case Written(block) =>
          && lines == old(lines)[..index] + block + old(lines)[blockEnd..]
          && |block| >= blockEnd - index && r == Some(Some(|block| - (blockEnd - index)))
    {
      hide WriteFlow, ParseItemStart, DirectFields, FieldIndent, NumberLine, RewriteLine, InsertedLine, FindField, LineField, ParseKey;
      var block := lines[index..blockEnd];
      var flow := WriteFlowStyleIssueNumber(yaml, lines[index], id, n);
      if flow.Some? {
        OneReplaced(lines, index, blockEnd, 0, flow.value);
        lines := lines[index := flow.value];
        return Some(Some(0));
      }
      var fields, indent := DirectFieldsOf(block);
      var idField := FindField(fields, IsId(yaml, id));
      if idField.None? {
        return None;
      }
      var existing := FindField(fields, IsNumber());
      if existing.Some? {
        FieldInside(block, existing.value);
        var k := index + existing.value.index;
        var found := NumberLine(lines[k]);
        if found.None? {
          return Some(None);
        }
        OneReplaced(lines, index, blockEnd, existing.value.index, RewriteLine(lines[k], n));
        lines := lines[k := RewriteLine(lines[k], n)];
        return Some(Some(0));
      }
      FieldInside(block, idField.value);
      var at := idField.value.index + 1;
      OneInserted(lines, index, blockEnd, at, InsertedLine(indent, n));
      lines := lines[..index + at] + [InsertedLine(indent, n)] + lines[index + at..];
      r := Some(Some(1));
    }

    method WriteSubtaskIssueNumber(yaml: Yaml, place: Place, id: string, n: nat) returns (r: Result<nat, PlanError>)
      requires place.start <= place.end <= |lines|
      modifies this
      ensures match WriteList(yaml, Region(old(lines), place), id, n)
        case NotFound => r == Err(NoSuchSubtask(id)) && lines == old(lines)
        case Broken => r == Err(UnwritableNumber(id)) && lines == old(lines)
        case Done(region) => r == Ok(place.start + |region|) && lines == WithRegion(old(lines), place, region)
    {
      hide WriteBlock, ParseItemStart, BlockLength, WriteList, After;
      var index := place.start;
      ListStarts(yaml, lines, place, id, n);
      while index < place.end
        invariant place.start <= index <= place.end && lines == old(lines)
        invariant WriteList(yaml, Region(lines, place), id, n) ==
          After(lines[place.start..index], WriteList(yaml, lines[index..place.end], id, n))
      {
        ghost var rest := lines[index..place.end];
        if ParseItemStart(lines[index]).None? {
          SkipLine(yaml, lines, place, index, id, n);
          index := index + 1;
          continue;
        }
        var blockEnd := BlockEnd(index, place.end);
        assert rest[..blockEnd - index] == lines[index..blockEnd] && lines[index..blockEnd][0] == lines[index];
        var written := WriteItem(yaml, index, blockEnd, id, n);
        if written.Some? {
          if written.value.None? {
            ItemBroken(yaml, lines, place, index, blockEnd, id, n);
            return Err(UnwritableNumber(id));
          }
          ItemWritten(yaml, old(lines), place, index, blockEnd, id, n);
          return Ok(place.end + written.value.value);
        }
        SkipBlock(yaml, lines, place, index, blockEnd, id, n);
        index := blockEnd;
      }
      ListEnds(yaml, lines, place, id, n);
      r := Err(NoSuchSubtask(id));
    }
  }

  // ---- The file ----

  class PlanFile {
    // The saved lines.
    var saved: seq<string>

    constructor (initial: seq<string>)
      ensures saved == initial
    {
      saved := initial;
    }

    // Writes the entries one after the other; the list is found again before each.
    static method WriteSubtasks(yaml: Yaml, list: LineList, end: nat, entries: seq<(string, nat)>)
      returns (r: Result<nat, PlanError>)
      requires 1 <= end <= |list.lines|
      modifies list
      ensures match WriteEntries(yaml, Plan(old(list.lines), end), entries)
        case Err(e) => r == Err(e)
        case Ok(plan) => r == Ok(plan.end) && list.lines == plan.lines
    {
      hide WriteList, ListPlace, WithRegion;
      r := Ok(end);
      ghost var start := Plan(list.lines, end);
      for i := 0 to |entries|
        invariant r.Ok? && 1 <= r.value <= |list.lines|
        invariant WriteEntries(yaml, start, entries) == WriteEntries(yaml, Plan(list.lines, r.value), entries[i..])
      {
        assert entries[i..][0] == entries[i] && entries[i..][1..] == entries[i + 1..];
        var place := list.FindSubtasksBounds(r.value);
        if place.None? {
          return Err(NoSubtasks);
        }
        ghost var plan := Plan(list.lines, r.value);
        WithRegionBounds(plan, place.value);
        var newEnd := list.WriteSubtaskIssueNumber(yaml, place.value, entries[i].0, entries[i].1);
        if newEnd.Err? {
          return newEnd;
        }
        assert WriteSubtask(yaml, plan, entries[i].0, entries[i].1).Ok?;
        r := Ok(r.value + newEnd.value - place.value.end);
      }
    }

    /** Saves the new numbers, or nothing at all when one of them cannot be placed. */
    method WriteIssueNumbers(yaml: Yaml, entries: seq<(string, nat)>, number: Option<nat>, source: Option<string>)
      returns (error: Option<PlanError>)
      modifies this
      ensures match WritePlan(yaml, old(saved), entries, number, source)
        case Err(e) => error == Some(e) && saved == old(saved)
        case Ok(plan) => error == None && saved == plan.lines
    {
      hide WriteField, WriteEntries, FrontEnd;
      var list := new LineList(saved);
      var bounds := list.FindFrontmatterBounds();
      if bounds.Err? {
        return Some(bounds.error);
      }
      var end := bounds.value;
      if number.Some? {
        end := list.WriteFrontmatterField(end, PARENT_NUMBER, Title, Decimal(number.value));
      }
      if source.Some? {
        end := list.WriteFrontmatterField(end, PARENT_SOURCE, FieldTest(PARENT_NUMBER), source.value);
      }
      assert Plan(list.lines, end) == WriteParent(Plan(saved, bounds.value), number, source);
      var written := WriteSubtasks(yaml, list, end, entries);
      if written.Err? {
        return Some(written.error);
      }
      saved := list.lines;
      error := None;
    }

    /** Tries every id with a placeholder, in memory only. */
    method ValidateSubtaskIssueNumberTargets(yaml: Yaml, ids: seq<string>) returns (error: Option<PlanError>)
      ensures match WritePlan(yaml, saved, Placeholders(ids), None, None)
        case Err(e) => error == Some(e)
        case Ok(_) => error == None
    {
      hide WriteEntries, FrontEnd;
      var list := new LineList(saved);
      var bounds := list.FindFrontmatterBounds();
      if bounds.Err? {
        return Some(bounds.error);
      }
      var written := WriteSubtasks(yaml, list, bounds.value, Placeholders(ids));
      error := if written.Err? then Some(written.error) else None;
    }
  }

  function Placeholders(ids: seq<string>): seq<(string, nat)> {
    seq(|ids|, i requires 0 <= i < |ids| => (ids[i], 0))
  }

  lemma WithRegionBounds(plan: Plan, place: Place)
    requires plan.Bounded() && ListPlace(plan.lines, plan.end) == Some(place)
    ensures 2 <= place.start <= place.end <= plan.end
    ensures forall region: seq<string> ::
      |WithRegion(plan.lines, place, region)| == |plan.lines| + |region| - (place.end - place.start)
  {
    hide ListPlace, WithRegion;
    forall region: seq<string> ensures
      |WithRegion(plan.lines, place, region)| == |plan.lines| + |region| - (place.end - place.start)
    {
      WithRegionLength(plan.lines, place, region);
    }
  }

  // ---- One line of an item ----

  lemma OneReplaced(lines: seq<string>, index: nat, blockEnd: nat, k: nat, line: string)
    requires index + k < blockEnd <= |lines|
    ensures lines[index + k := line] == lines[..index] + lines[index..blockEnd][k := line] + lines[blockEnd..]
  {
  }

  lemma OneInserted(lines: seq<string>, index: nat, blockEnd: nat, at: nat, line: string)
    requires index + at <= blockEnd <= |lines|
    ensures lines[..index + at] + [line] + lines[index + at..] ==
      lines[..index] + (lines[index..blockEnd][..at] + [line] + lines[index..blockEnd][at..]) + lines[blockEnd..]
  {
  }

  // ---- Steps of the search ----

  lemma SkipLine(yaml: Yaml, lines: seq<string>, place: Place, index: nat, id: string, n: nat)
    requires place.start <= index < place.end <= |lines| && ParseItemStart(lines[index]).None?
    ensures After(lines[place.start..index], WriteList(yaml, lines[index..place.end], id, n)) ==
      After(lines[place.start..index + 1], WriteList(yaml, lines[index + 1..place.end], id, n))
  {
    hide ParseItemStart;
    var rest := lines[index..place.end];
    assert rest[1..] == lines[index + 1..place.end] && rest[0] == lines[index];
    assert lines[place.start..index] + [rest[0]] == lines[place.start..index + 1];
    AfterTwice(lines[place.start..index], [rest[0]], WriteList(yaml, rest[1..], id, n));
  }

  lemma AfterTwice(a: seq<string>, b: seq<string>, w: ListWrite)
    ensures After(a, After(b, w)) == After(a + b, w)
  {
    if w.Done? {
      assert a + (b + w.lines) == a + b + w.lines;
    }
  }

  lemma SkipBlock(yaml: Yaml, lines: seq<string>, place: Place, index: nat, blockEnd: nat, id: string, n: nat)
    requires place.start <= index < blockEnd <= place.end <= |lines| && StartsItem(lines[index..place.end])
    requires blockEnd == index + BlockLength(lines[index..place.end])
    requires WriteBlock(yaml, lines[index..blockEnd], id, n).OtherBlock?
    ensures After(lines[place.start..index], WriteList(yaml, lines[index..place.end], id, n)) ==
      After(lines[place.start..blockEnd], WriteList(yaml, lines[blockEnd..place.end], id, n))
  {
    hide WriteBlock, ParseItemStart, BlockLength;
    var rest := lines[index..place.end];
    var k := blockEnd - index;
    assert rest[..k] == lines[index..blockEnd] && rest[k..] == lines[blockEnd..place.end];
    assert lines[place.start..index] + rest[..k] == lines[place.start..blockEnd];
    AfterTwice(lines[place.start..index], rest[..k], WriteList(yaml, rest[k..], id, n));
  }

  lemma ListStarts(yaml: Yaml, lines: seq<string>, place: Place, id: string, n: nat)
    requires place.start <= place.end <= |lines|
    ensures WriteList(yaml, Region(lines, place), id, n) ==
      After(lines[place.start..place.start], WriteList(yaml, lines[place.start..place.end], id, n))
  {
    hide WriteList;
    var w := WriteList(yaml, Region(lines, place), id, n);
    assert w.Done? ==> [] + w.lines == w.lines;
  }

  lemma ListEnds(yaml: Yaml, lines: seq<string>, place: Place, id: string, n: nat)
    requires place.start <= place.end <= |lines|
    ensures After(lines[place.start..place.end], WriteList(yaml, lines[place.end..place.end], id, n)) == NotFound
  {
  }

  // An item of the id whose number cannot be rewritten.
  lemma ItemBroken(yaml: Yaml, lines: seq<string>, place: Place, index: nat, blockEnd: nat, id: string, n: nat)
    requires place.start <= index < blockEnd <= place.end <= |lines| && StartsItem(lines[index..place.end])
    requires blockEnd == index + BlockLength(lines[index..place.end])
    requires WriteBlock(yaml, lines[index..blockEnd], id, n).Unwritable?
    ensures After(lines[place.start..index], WriteList(yaml, lines[index..place.end], id, n)) == Broken
  {
    hide WriteBlock, ParseItemStart, BlockLength;
    assert lines[index..place.end][..blockEnd - index] == lines[index..blockEnd];
  }

  // What a written item makes of the list.
  lemma ItemWritten(yaml: Yaml, lines: seq<string>, place: Place, index: nat, blockEnd: nat, id: string, n: nat)
    requires place.start <= index < blockEnd <= place.end <= |lines| && StartsItem(lines[index..place.end])
    requires blockEnd == index + BlockLength(lines[index..place.end])
    requires WriteBlock(yaml, lines[index..blockEnd], id, n).Written?
    ensures var block := WriteBlock(yaml, lines[index..blockEnd], id, n).lines;
      After(lines[place.start..index], WriteList(yaml, lines[index..place.end], id, n)) ==
        Done(lines[place.start..index] + block + lines[blockEnd..place.end])
      && WithRegion(lines, place, lines[place.start..index] + block + lines[blockEnd..place.end]) ==
        lines[..index] + block + lines[blockEnd..]
  {
    hide WriteBlock, ParseItemStart, BlockLength;
    var rest := lines[index..place.end];
    var k := blockEnd - index;
    var block := WriteBlock(yaml, lines[index..blockEnd], id, n).lines;
    assert rest[..k] == lines[index..blockEnd] && rest[k..] == lines[blockEnd..place.end];
    assert lines[place.start..index] + (block + rest[k..]) == lines[place.start..index] + block + lines[blockEnd..place.end];
    assert lines[..place.start] + (lines[place.start..index] + block + lines[blockEnd..place.end]) + lines[place.end..]
        == lines[..index] + block + lines[blockEnd..];
  }
}
