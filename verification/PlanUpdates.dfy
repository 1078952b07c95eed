/** Writing numbers into a plan is a map update: what reads back afterwards. */
module PlanUpdates {
  import opened Wrappers
  import opened Whitespace
  import opened BranchNaming
  import opened PlanLines
  import opened PlanFlow
  import opened PlanBlocks
  import opened PlanRegions
  import opened PlanBounds
  import opened PlanWriter

  // ---- One subtask ----

  // The item of one id carries another.
  predicate Holds(yaml: Yaml, region: seq<string>, id: string, x: string) {
    var block := Target(yaml, region, id);
    block.Some? && Carries(yaml, block.value, x)
  }

  lemma RegionChanged(lines: seq<string>, place: Place, region: seq<string>)
    requires place.start <= place.end <= |lines| && OneLineChanged(Region(lines, place), region)
    ensures OneLineChanged(lines, WithRegion(lines, place, region))
  {
    hide OneLineChanged;
    FrontChanged(Region(lines, place), region, lines[..place.start], lines[place.end..]);
    assert lines[..place.start] + Region(lines, place) + lines[place.end..] == lines;
  }

  lemma KeyEndsList(name: string, line: string)
    requires KeyTest(name)(line)
    ensures !Inner(line)
  {
    hide EndsList, IsDelimiter;
    KeyStands(line);
  }

  // Top-level fields stand outside the list.
  lemma FieldsOutside(plan: Plan, place: Place, region: seq<string>, name: string)
    requires plan.Bounded() && ListPlace(plan.lines, plan.end) == Some(place)
    requires (forall x | x in Region(plan.lines, place) :: Inner(x)) && forall x | x in region :: Inner(x)
    ensures var other := Plan(WithRegion(plan.lines, place, region), plan.end + |region| - (place.end - place.start));
      other.Bounded() && ReadField(other, name) == ReadField(plan, name)
  {
    hide Inner, WithRegion, ListPlace, KeyTest, ParseKey;
    var lines := plan.lines;
    var next := WithRegion(lines, place, region);
    WithRegionLength(lines, place, region);
    var more := |region| - (place.end - place.start);
    var k := Seek(lines, KeyTest(name), 1, plan.end);
    if place.start <= k < place.end {
      assert lines[k] in Region(lines, place) by { assert Region(lines, place)[k - place.start] == lines[k]; }
      KeyEndsList(name, lines[k]);
    }
    var at := if k < place.start then k else k + more;
    forall j | 1 <= j < at ensures !KeyTest(name)(next[j]) {
      WithRegionAt(lines, place, region, j);
      if place.start <= j < place.start + |region| {
        assert region[j - place.start] in region;
        if KeyTest(name)(next[j]) {
          KeyEndsList(name, next[j]);
        }
      } else {
        var was := if j < place.start then j else j - more;
        assert next[j] == lines[was] && 1 <= was < k;
      }
    }
    if k < plan.end {
      WithRegionAt(lines, place, region, at);
    }
    SeekIs(next, KeyTest(name), 1, plan.end + more, at);
  }

  /** Writing the number of a subtask changes or inserts one line; the tracked end still
      closes the frontmatter; the subtask reads back its number, every id that its item does
      not carry is found where it was, and every top-level field keeps its text. */
  lemma SubtaskWriteReads(yaml: Yaml, plan: Plan, region: seq<string>, id: string, n: nat)
    requires yaml.Lawful() && plan.Bounded() && Framed(plan) && ListOf(plan) == Some(region)
    requires SoundList(region) && Ready(yaml, region, id, n)
    ensures var r := WriteSubtask(yaml, plan, id, n);
      var next := WriteList(yaml, region, id, n);
      && r.Ok? && Framed(r.value) && OneLineChanged(plan.lines, r.value.lines)
      && next.Done? && ListOf(r.value) == Some(next.lines) && SoundList(next.lines)
      && ReadList(yaml, next.lines, id) == Some(Some(n))
      && (forall x: string :: !Holds(yaml, region, id, x) ==> Target(yaml, next.lines, x) == Target(yaml, region, x))
      && forall name: string :: ReadField(r.value, name) == ReadField(plan, name)
  {
    hide FrontEnd, ListPlace, Seek, WriteList, SoundList, Carries, CleanTarget, WriteBlock, WithRegion, Target, OneLineChanged, ReadField,
      WellFormed, NumberOf, IsBlock, Inner, ReadableFlow, Yaml.Lawful, Ready, ReadList, Holds;
    var place := ListPlace(plan.lines, plan.end).value;
    assert Region(plan.lines, place) == region;
    ListWriteReads(yaml, region, id, n);
    var next := WriteList(yaml, region, id, n).lines;
    SoundListIsWellFormed(region);
    SoundListIsWellFormed(next);
    RegionIsInner(plan.lines, plan.end, place);
    RegionReplaced(plan.lines, plan.end, place, next);
    RegionChanged(plan.lines, place, next);
    forall name: string ensures ReadField(WriteSubtask(yaml, plan, id, n).value, name) == ReadField(plan, name) {
      FieldsOutside(plan, place, next, name);
    }
  }

  // The same for the lines of the list alone.
  lemma ListWriteReads(yaml: Yaml, region: seq<string>, id: string, n: nat)
    requires yaml.Lawful() && SoundList(region) && Ready(yaml, region, id, n)
    ensures var next := WriteList(yaml, region, id, n);
      && next.Done? && OneLineChanged(region, next.lines) && SoundList(next.lines)
      && ReadList(yaml, next.lines, id) == Some(Some(n))
      && forall x: string :: !Holds(yaml, region, id, x) ==> Target(yaml, next.lines, x) == Target(yaml, region, x)
  {
    hide WriteList, SoundList, Carries, CleanTarget, WriteBlock, Target, OneLineChanged, WellFormed, NumberOf, IsBlock, Yaml.Lawful;
    SoundListIsWellFormed(region);
    ListWriteKeepsSound(yaml, region, id, n);
    ListWriteTargets(yaml, region, id, n);
    WrittenReads(yaml, region, id, n);
  }

  lemma WrittenReads(yaml: Yaml, region: seq<string>, id: string, n: nat)
    requires yaml.Lawful() && WellFormed(region) && Ready(yaml, region, id, n)
    ensures WriteList(yaml, region, id, n).Done?
    ensures ReadList(yaml, WriteList(yaml, region, id, n).lines, id) == Some(Some(n))
  {
    hide WriteList, WriteBlock, Carries, CleanTarget, NumberOf, OneLine, NeatFlow, Target, OneLineChanged, ParseItemStart;
    ListWriteTargets(yaml, region, id, n);
    TargetIsBlock(yaml, region, id);
    var block := Target(yaml, region, id).value;
    BlockStart(block);
    assert block[0] in block;
    BlockWriteReads(yaml, block, id, n);
  }

  // ---- Several subtasks ----

  // Every entry can be written, and no item carries the id of another entry.
  ghost predicate Writable(yaml: Yaml, region: seq<string>, entries: seq<(string, nat)>) {
    && (forall i | 0 <= i < |entries| :: Ready(yaml, region, entries[i].0, entries[i].1))
    && forall i, j | 0 <= i < |entries| && 0 <= j < |entries| && i != j :: !Holds(yaml, region, entries[i].0, entries[j].0)
  }

  // No entry is on the item of this id.
  ghost predicate Untouched(yaml: Yaml, region: seq<string>, entries: seq<(string, nat)>, x: string) {
    forall i | 0 <= i < |entries| :: !Holds(yaml, region, entries[i].0, x)
  }

  lemma RestWritable(yaml: Yaml, region: seq<string>, next: seq<string>, entries: seq<(string, nat)>)
    requires entries != [] && Writable(yaml, region, entries)
    requires forall x: string :: !Holds(yaml, region, entries[0].0, x) ==> Target(yaml, next, x) == Target(yaml, region, x)
    ensures Writable(yaml, next, entries[1..])
    ensures Untouched(yaml, next, entries[1..], entries[0].0)
    ensures forall x: string :: Untouched(yaml, region, entries, x) ==> Untouched(yaml, next, entries[1..], x)
  {
    hide Target, Carries, CleanTarget, WriteBlock, IsBlock, StartsItem;
    var rest := entries[1..];
    forall i | 0 <= i < |rest| ensures Target(yaml, next, rest[i].0) == Target(yaml, region, rest[i].0) {
      assert rest[i] == entries[i + 1] && !Holds(yaml, region, entries[0].0, entries[i + 1].0);
    }
    forall i | 0 <= i < |rest| ensures Ready(yaml, next, rest[i].0, rest[i].1) {
      assert rest[i] == entries[i + 1] && Ready(yaml, region, entries[i + 1].0, entries[i + 1].1);
    }
    forall i, x | 0 <= i < |rest| && !Holds(yaml, region, entries[i + 1].0, x) ensures !Holds(yaml, next, rest[i].0, x) {
      assert rest[i] == entries[i + 1];
    }
  }

  /** Writing the entries gives each its number and leaves every other id and field as it
      was. */
  lemma {:induction false} EntriesWriteReads(yaml: Yaml, plan: Plan, region: seq<string>, entries: seq<(string, nat)>)
    requires yaml.Lawful() && plan.Bounded() && Framed(plan) && ListOf(plan) == Some(region)
    requires SoundList(region) && Writable(yaml, region, entries)
    ensures var r := WriteEntries(yaml, plan, entries);
      && r.Ok? && Framed(r.value) && ListOf(r.value).Some? && |r.value.lines| <= |plan.lines| + |entries|
      && (forall i | 0 <= i < |entries| :: ReadList(yaml, ListOf(r.value).value, entries[i].0) == Some(Some(entries[i].1)))
      && (forall x: string | Untouched(yaml, region, entries, x) ::
            Target(yaml, ListOf(r.value).value, x) == Target(yaml, region, x))
      && forall name: string :: ReadField(r.value, name) == ReadField(plan, name)
    decreases |entries|
  {
    hide Framed, ListOf, ReadField, WriteSubtask, SoundList, Ready, Writable, Untouched, Target, NumberOf;
    if entries != [] {
      var (id, n) := entries[0];
      FirstReady(yaml, region, entries);
      SubtaskWriteReads(yaml, plan, region, id, n);
      var next := WriteSubtask(yaml, plan, id, n).value;
      var list := WriteList(yaml, region, id, n).lines;
      OneMore(plan.lines, next.lines);
      RestWritable(yaml, region, list, entries);
      EntriesWriteReads(yaml, next, list, entries[1..]);
      var last := ListOf(WriteEntries(yaml, plan, entries).value).value;
      assert Target(yaml, last, id) == Target(yaml, list, id);
      forall i | 0 <= i < |entries| ensures ReadList(yaml, last, entries[i].0) == Some(Some(entries[i].1)) {
        assert i > 0 ==> entries[i] == entries[1..][i - 1];
      }
    }
  }

  lemma FirstReady(yaml: Yaml, region: seq<string>, entries: seq<(string, nat)>)
    requires entries != [] && Writable(yaml, region, entries)
    ensures Ready(yaml, region, entries[0].0, entries[0].1)
    ensures forall x: string :: Untouched(yaml, region, entries, x) ==> !Holds(yaml, region, entries[0].0, x)
  {
    hide Ready, Holds;
  }

  lemma OneMore(lines: seq<string>, other: seq<string>)
    requires OneLineChanged(lines, other)
    ensures |other| <= |lines| + 1
  {
  }

  // ---- The fields of the parent ----

  // The writer recognises the lines of the field, and no others.
  ghost predicate Recognised(plan: Plan, name: string)
    requires plan.Bounded()
  {
    forall j | 1 <= j < plan.end :: KeyTest(name)(plan.lines[j]) == FieldTest(name)(plan.lines[j])
  }

  // An existing field stands on one line, with no comment glued to its value.
  ghost predicate CleanField(plan: Plan, name: string)
    requires plan.Bounded()
  {
    forall j | 1 <= j < plan.end && FieldTest(name)(plan.lines[j]) :: Clean(ParseValueLine(name, plan.lines[j]).value)
  }

  function ReadFieldNumber(plan: Plan, name: string): Option<nat>
    requires plan.Bounded()
  {
    match ReadField(plan, name)
    case None => None
    case Some(text) => ReadNumber(text)
  }

  lemma ParentNames()
    ensures forall name: string | IsParentName(name) :: name != "" && IsKeyStart(name[0]) && forall c | c in name :: IsKeyChar(c)
  {
  }

  // Text that can stand as the value of a field.
  predicate IsFieldText(text: string) {
    text != "" && !IsSpace(text[0]) && '\n' !in text
  }

  // What stands behind the value of the existing field.
  function FieldTail(plan: Plan, name: string): string
    requires plan.Bounded()
  {
    var k := Seek(plan.lines, FieldTest(name), 1, plan.end);
    if k == plan.end then ""
    else
      assert FieldTest(name)(plan.lines[k]);
      ParseValueLine(name, plan.lines[k]).value.tail
  }

  lemma FieldLineReads(name: string, line: string, value: string)
    requires IsParentName(name) && ParseValueLine(name, line).Some? && IsFieldText(value)
    ensures var m := ParseValueLine(name, line).value;
      KeyTest(name)(FieldLine(m, value)) && ParseKey(FieldLine(m, value)).value.value == value + m.tail
  {
    hide ParseValueLine, ParseKey, IsSpace;
    ParentNames();
    var m := ParseValueLine(name, line).value;
    var ws := ValueLineParts(name, line);
    KeyLineReads(name, ws, value + m.tail);
    assert FieldLine(m, value) == name + ":" + ws + (value + m.tail) + "\n";
  }

  lemma NewFieldReads(name: string, value: string)
    requires IsParentName(name) && IsFieldText(value)
    ensures var written := name + ": " + value + "\n";
      KeyTest(name)(written) && ParseKey(written).value.value == value
  {
    hide ParseKey, IsSpace;
    ParentNames();
    assert Blank(" ") by { NumberStarts(0); }
    KeyLineReads(name, " ", value);
    assert name + ":" + " " + value + "\n" == name + ": " + value + "\n";
  }

  /** A written field of the parent reads back, in front of what stood behind its old value. */
  lemma FieldReadsBack(plan: Plan, name: string, anchor: string -> bool, value: string)
    requires plan.Bounded() && IsParentName(name) && Recognised(plan, name) && IsFieldText(value)
    ensures ReadField(WriteField(plan, name, anchor, value), name) == Some(value + FieldTail(plan, name))
  {
    hide ParseKey, ParseValueLine, Inserted, FieldLine, IsFieldText;
    var lines, end := plan.lines, plan.end;
    SeekSameTest(lines, KeyTest(name), FieldTest(name), 1, end);
    var k := Seek(lines, FieldTest(name), 1, end);
    var other := WriteField(plan, name, anchor, value);
    forall j | 1 <= j < k ensures !KeyTest(name)(lines[j]) {
      assert !FieldTest(name)(lines[j]);
    }
    if k < end {
      assert FieldTest(name)(lines[k]);
      FieldLineReads(name, lines[k], value);
      SeekIs(other.lines, KeyTest(name), 1, end, k);
    } else {
      var at := InsertAt(plan, anchor);
      NewFieldReads(name, value);
      InsertedAt(lines, at, name + ": " + value + "\n");
      SeekIs(other.lines, KeyTest(name), 1, end + 1, at);
      assert value + "" == value;
    }
  }

  /** So does a written number, when no comment was glued to the old value. */
  lemma FieldNumberReadsBack(plan: Plan, name: string, anchor: string -> bool, n: nat)
    requires plan.Bounded() && IsParentName(name) && Recognised(plan, name) && CleanField(plan, name)
    ensures ReadFieldNumber(WriteField(plan, name, anchor, Decimal(n)), name) == Some(n)
  {
    hide ParseKey, ParseValueLine, WriteField, ReadField, Recognised, ReadNumber;
    NumberStarts(n);
    FieldReadsBack(plan, name, anchor, Decimal(n));
    TailIsClean(plan, name);
    NumberReads(n, FieldTail(plan, name));
  }

  lemma TailIsClean(plan: Plan, name: string)
    requires plan.Bounded() && CleanField(plan, name)
    ensures var tail := FieldTail(plan, name); tail != "" ==> !IsDigit(tail[0]) && IsSpace(tail[0])
  {
    hide ParseValueLine;
    var k := Seek(plan.lines, FieldTest(name), 1, plan.end);
    if k < plan.end {
      assert FieldTest(name)(plan.lines[k]);
      var ws := ValueLineParts(name, plan.lines[k]);
    }
  }

  // ---- A field the writer does not recognise ----

  ghost predicate Doubled(plan: Plan, name: string)
    requires plan.Bounded()
  {
    exists i, j :: 1 <= i < j < plan.end && KeyTest(name)(plan.lines[i]) && KeyTest(name)(plan.lines[j])
  }

  // Some line of the frontmatter satisfies the test.
  predicate Anywhere(plan: Plan, test: string -> bool)
    requires plan.Bounded()
  {
    Seek(plan.lines, test, 1, plan.end) < plan.end
  }

  lemma SomewhereIff(plan: Plan, test: string -> bool, j: nat)
    requires plan.Bounded() && 1 <= j < plan.end && test(plan.lines[j])
    ensures Anywhere(plan, test)
  {
    var k := Seek(plan.lines, test, 1, plan.end);
    assert k <= j;
  }

  /** In a frontmatter that has the field at most once, a write leaves it twice if and only if
      the existing line has the key but not a value the writer recognises. */
  lemma FieldDoubledIff(plan: Plan, name: string, anchor: string -> bool, value: string)
    requires plan.Bounded() && IsParentName(name) && IsFieldText(value) && !Doubled(plan, name)
    requires forall j | 1 <= j < plan.end && FieldTest(name)(plan.lines[j]) :: KeyTest(name)(plan.lines[j])
    ensures Doubled(WriteField(plan, name, anchor, value), name) <==>
      Anywhere(plan, KeyTest(name)) && !Anywhere(plan, FieldTest(name))
  {
    hide ParseKey, ParseValueLine, Inserted, FieldLine, IsFieldText, KeyTest, FieldTest;
    var lines, end := plan.lines, plan.end;
    var other := WriteField(plan, name, anchor, value);
    var k := Seek(lines, FieldTest(name), 1, end);
    if k < end {
      FieldIsRecognised(name, lines[k]);
      FieldLineReads(name, lines[k], value);
      if i, j :| 1 <= i < j < other.end && KeyTest(name)(other.lines[i]) && KeyTest(name)(other.lines[j]) {
        assert KeyTest(name)(lines[i]) && KeyTest(name)(lines[j]);
      }
    } else {
      var at := InsertAt(plan, anchor);
      NewFieldReads(name, value);
      InsertedAt(lines, at, name + ": " + value + "\n");
      InsertedDoubles(plan, name, at, name + ": " + value + "\n");
    }
  }

  lemma FieldIsRecognised(name: string, line: string)
    requires FieldTest(name)(line)
    ensures ParseValueLine(name, line).Some?
  {
  }

  lemma InsertedDoubles(plan: Plan, name: string, at: nat, line: string)
    requires plan.Bounded() && 1 <= at <= plan.end && KeyTest(name)(line) && !Doubled(plan, name)
    ensures Doubled(Plan(Inserted(plan.lines, at, line), plan.end + 1), name) <==> Anywhere(plan, KeyTest(name))
  {
    hide KeyTest, Inserted;
    var lines, end := plan.lines, plan.end;
    var other := Inserted(lines, at, line);
    InsertedAt(lines, at, line);
    var k := Seek(lines, KeyTest(name), 1, end);
    if k < end {
      assert other[if k < at then k else k + 1] == lines[k];
    }
    if i, j :| 1 <= i < j < end + 1 && KeyTest(name)(other[i]) && KeyTest(name)(other[j]) {
      assert i != at ==> other[i] == lines[if i < at then i else i - 1];
      assert j != at ==> other[j] == lines[if j < at then j else j - 1];
      if i != at {
        SomewhereIff(plan, KeyTest(name), if i < at then i else i - 1);
      } else {
        SomewhereIff(plan, KeyTest(name), j - 1);
      }
    }
  }

  lemma SeekSameTest(lines: seq<string>, test: string -> bool, other: string -> bool, i: nat, end: nat)
    requires i <= end <= |lines| && forall j | i <= j < end :: test(lines[j]) == other(lines[j])
    ensures Seek(lines, test, i, end) == Seek(lines, other, i, end)
  {
    var k := Seek(lines, other, i, end);
    SeekIs(lines, test, i, end, k);
  }

  // A line that starts with a name and a colon has no other key.
  lemma KeyIsName(name: string, line: string, x: string)
    requires IsParentName(name) && name + ":" <= line && x != name
    ensures !KeyTest(x)(line)
  {
    hide IsKeyStart, IsKeyChar;
    ParentNames();
    var rest := line[|name|..];
    assert line == name + rest && rest[0] == line[|name|] == (name + ":")[|name|] == ':';
    ColonIsNoKey();
    NameRuns(name, rest);
    assert line[..|name|] == name;
  }

  lemma FieldStart(name: string, line: string, value: string)
    requires ParseValueLine(name, line).Some?
    ensures name + ":" <= line && name + ":" <= FieldLine(ParseValueLine(name, line).value, value)
  {
    hide ParseValue;
    var m := ParseValueLine(name, line).value;
    assert m.head[..|name| + 1] == name + ":";
    assert FieldLine(m, value)[..|name| + 1] == name + ":";
  }

  /** Writing one field leaves the text of every other. */
  lemma FieldKeepsOthers(plan: Plan, name: string, anchor: string -> bool, value: string, x: string)
    requires plan.Bounded() && IsParentName(name) && x != name
    ensures ReadField(WriteField(plan, name, anchor, value), x) == ReadField(plan, x)
  {
    hide ParseKey, ParseValueLine, Inserted, FieldLine;
    var lines, end := plan.lines, plan.end;
    var other := WriteField(plan, name, anchor, value);
    var k := Seek(lines, FieldTest(name), 1, end);
    if k < end {
      assert FieldTest(name)(lines[k]);
      var m := ParseValueLine(name, lines[k]).value;
      FieldStart(name, lines[k], value);
      KeyIsName(name, lines[k], x);
      KeyIsName(name, FieldLine(m, value), x);
      SeekSame(lines, other.lines, KeyTest(x), 1, end);
    } else {
      var at := InsertAt(plan, anchor);
      var line := name + ": " + value + "\n";
      assert line[..|name| + 1] == name + ":";
      KeyIsName(name, line, x);
      InsertedAt(lines, at, line);
      SeekInserted(lines, KeyTest(x), 1, end, at, line);
    }
  }

  lemma NamesDiffer(line: string)
    ensures PARENT_NUMBER != PARENT_SOURCE
    ensures !(PARENT_NUMBER + ":" <= line && PARENT_SOURCE + ":" <= line)
  {
    assert |PARENT_NUMBER| == |PARENT_SOURCE| && PARENT_NUMBER[13] == 'n' && PARENT_SOURCE[13] == 's';
    if PARENT_NUMBER + ":" <= line {
      assert line[13] == (PARENT_NUMBER + ":")[13];
    }
    if PARENT_SOURCE + ":" <= line {
      assert line[13] == (PARENT_SOURCE + ":")[13];
    }
  }

  // A line of the number is no line of the source.
  lemma NumberIsNoSource(line: string)
    requires PARENT_NUMBER + ":" <= line
    ensures !KeyTest(PARENT_SOURCE)(line) && !FieldTest(PARENT_SOURCE)(line)
  {
    hide ParseKey, ParseValue;
    NamesDiffer(line);
    KeyIsName(PARENT_NUMBER, line, PARENT_SOURCE);
  }

  // Writing the number leaves the source as it was, and as recognisable.
  lemma NumberKeepsSource(plan: Plan, anchor: string -> bool, value: string)
    requires plan.Bounded()
    ensures var other := WriteField(plan, PARENT_NUMBER, anchor, value);
      && FieldTail(other, PARENT_SOURCE) == FieldTail(plan, PARENT_SOURCE)
      && (Recognised(plan, PARENT_SOURCE) ==> Recognised(other, PARENT_SOURCE))
  {
    hide ParseKey, ParseValueLine, Inserted, FieldLine, KeyTest;
    var lines, end := plan.lines, plan.end;
    var other := WriteField(plan, PARENT_NUMBER, anchor, value);
    var k := Seek(lines, FieldTest(PARENT_NUMBER), 1, end);
    if k < end {
      assert FieldTest(PARENT_NUMBER)(lines[k]);
      var line := FieldLine(ParseValueLine(PARENT_NUMBER, lines[k]).value, value);
      FieldStart(PARENT_NUMBER, lines[k], value);
      NumberIsNoSource(lines[k]);
      NumberIsNoSource(line);
      SeekSame(lines, other.lines, FieldTest(PARENT_SOURCE), 1, end);
      var j := Seek(lines, FieldTest(PARENT_SOURCE), 1, end);
      if j < end {
        assert FieldTest(PARENT_SOURCE)(lines[j]);
      }
    } else {
      var at := InsertAt(plan, anchor);
      var line := PARENT_NUMBER + ": " + value + "\n";
      assert line[..|PARENT_NUMBER| + 1] == PARENT_NUMBER + ":";
      NumberIsNoSource(line);
      InsertedAt(lines, at, line);
      SeekInserted(lines, FieldTest(PARENT_SOURCE), 1, end, at, line);
      forall j | 1 <= j < end + 1 && j != at && Recognised(plan, PARENT_SOURCE)
        ensures KeyTest(PARENT_SOURCE)(other.lines[j]) == FieldTest(PARENT_SOURCE)(other.lines[j])
      {
        assert other.lines[j] == lines[if j < at then j else j - 1];
      }
    }
  }

  // The source can be written so that it reads back.
  ghost predicate SourceStands(plan: Plan, source: Option<string>)
    requires plan.Bounded()
  {
    source.Some? ==> IsFieldText(source.value) && Recognised(plan, PARENT_SOURCE)
  }

  lemma ParentWriteReads(plan: Plan, number: Option<nat>, source: Option<string>)
    requires plan.Bounded() && Framed(plan) && Recognised(plan, PARENT_NUMBER) && CleanField(plan, PARENT_NUMBER)
    ensures var other := WriteParent(plan, number, source);
      && Framed(other) && ListOf(other) == ListOf(plan) && |other.lines| <= |plan.lines| + 2
      && ReadFieldNumber(other, PARENT_NUMBER) == (if number.Some? then number else ReadFieldNumber(plan, PARENT_NUMBER))
      && (source.Some? && SourceStands(plan, source) ==>
            ReadField(other, PARENT_SOURCE) == Some(source.value + FieldTail(plan, PARENT_SOURCE)))
  {
    hide WriteField, Framed, ListOf, StandsOut, Recognised, CleanField, ReadField, OneLineChanged, FieldTail, IsFieldText;
    var numbered := plan;
    if number.Some? {
      numbered := WriteField(plan, PARENT_NUMBER, Title, Decimal(number.value));
      AnchorsStandOut(plan.lines);
      FieldKeepsList(plan, PARENT_NUMBER, Title, Decimal(number.value));
      FieldNumberReadsBack(plan, PARENT_NUMBER, Title, number.value);
      NumberKeepsSource(plan, Title, Decimal(number.value));
      OneMore(plan.lines, numbered.lines);
    }
    if source.Some? {
      AnchorsStandOut(numbered.lines);
      var anchor := FieldTest(PARENT_NUMBER);
      FieldKeepsList(numbered, PARENT_SOURCE, anchor, source.value);
      NamesDiffer("");
      FieldKeepsOthers(numbered, PARENT_SOURCE, anchor, source.value, PARENT_NUMBER);
      if SourceStands(plan, source) {
        FieldReadsBack(numbered, PARENT_SOURCE, anchor, source.value);
      }
      OneMore(numbered.lines, WriteField(numbered, PARENT_SOURCE, anchor, source.value).lines);
    }
  }

  // ---- The whole plan ----

  /** Writing a plan is a map update: the entries and the parent read back their numbers,
      every id whose item no entry is on reads what it read, the tracked end is the line
      that closes the new frontmatter, and at most one line is added for each value. */
  lemma PlanWriteIsMapUpdate(
    yaml: Yaml, lines: seq<string>, end: nat, region: seq<string>,
    entries: seq<(string, nat)>, number: Option<nat>, source: Option<string>
  )
    requires yaml.Lawful() && FrontEnd(lines) == Ok(end) && ListOf(Plan(lines, end)) == Some(region)
    requires SoundList(region) && Writable(yaml, region, entries)
    requires Recognised(Plan(lines, end), PARENT_NUMBER) && CleanField(Plan(lines, end), PARENT_NUMBER)
    ensures var r := WritePlan(yaml, lines, entries, number, source);
      && r.Ok? && Framed(r.value) && |r.value.lines| <= |lines| + |entries| + 2
      && (forall i | 0 <= i < |entries| :: ReadPlan(yaml, r.value.lines, entries[i].0) == Some(Some(entries[i].1)))
      && (forall x: string | Untouched(yaml, region, entries, x) :: ReadPlan(yaml, r.value.lines, x) == ReadPlan(yaml, lines, x))
      && (number.Some? ==> ReadFieldNumber(r.value, PARENT_NUMBER) == number)
      && (source.Some? && SourceStands(Plan(lines, end), source) ==>
            ReadField(r.value, PARENT_SOURCE) == Some(source.value + FieldTail(Plan(lines, end), PARENT_SOURCE)))
  {
    hide FrontEnd, ListPlace, ReadField, WriteParent, WriteEntries, SoundList, Writable, Untouched, Recognised, CleanField, Target, NumberOf,
      SourceStands, FieldTail, Yaml.Lawful;
    var plan := Plan(lines, end);
    var parented := WriteParent(plan, number, source);
    ParentWriteReads(plan, number, source);
    EntriesWriteReads(yaml, parented, region, entries);
    assert ReadFieldNumber(WriteEntries(yaml, parented, entries).value, PARENT_NUMBER) == ReadFieldNumber(parented, PARENT_NUMBER);
  }

  // ---- When a write fails ----

  /** A subtask is not found exactly when no item of the list carries its id; its number has no
      place exactly when the first item that does carries it in fields, with an existing
      number that does not stand on a line of its own. */
  lemma {:induction false} WriteFailsIff(yaml: Yaml, region: seq<string>, id: string, n: nat)
    ensures WriteList(yaml, region, id, n).NotFound? <==> Target(yaml, region, id).None?
    ensures WriteList(yaml, region, id, n).Broken? <==>
      var block := Target(yaml, region, id);
      block.Some? && !NamedByFlow(yaml, block.value[0], id) && !NumberRewritable(block.value)
    decreases |region|
  {
    hide WriteBlock, Carries, ParseItemStart, NamedByFlow, NumberRewritable;
    if region != [] {
      if !StartsItem(region) {
        WriteFailsIff(yaml, region[1..], id, n);
      } else {
        var first := region[..BlockLength(region)];
        assert first[0] == region[0];
        UnwritableIff(yaml, first, id, n);
        WriteFailsIff(yaml, region[BlockLength(region)..], id, n);
      }
    }
  }

  /** No item of a list carries an id exactly when none of its items does, wherever it
      stands. */
  lemma {:induction false} NotFoundIff(yaml: Yaml, region: seq<string>, id: string, n: nat)
    ensures WriteList(yaml, region, id, n).NotFound? <==> forall block | block in Items(region) :: !Carries(yaml, block, id)
    decreases |region|
  {
    hide WriteBlock, Carries, ParseItemStart;
    if region != [] {
      if !StartsItem(region) {
        NotFoundIff(yaml, region[1..], id, n);
      } else {
        UnwritableIff(yaml, region[..BlockLength(region)], id, n);
        NotFoundIff(yaml, region[BlockLength(region)..], id, n);
      }
    }
  }

  // The items of a list, in order.
  function Items(region: seq<string>): (items: seq<seq<string>>)
    ensures forall block | block in items :: StartsItem(block)
    decreases |region|
  {
    if region == [] then []
    else if !StartsItem(region) then Items(region[1..])
    else [region[..BlockLength(region)]] + Items(region[BlockLength(region)..])
  }

  /** Trying a placeholder number succeeds exactly when the real number can be written. */
  lemma PlaceholderAgrees(yaml: Yaml, region: seq<string>, id: string, n: nat)
    ensures WriteList(yaml, region, id, 0).Done? == WriteList(yaml, region, id, n).Done?
  {
    WriteFailsIff(yaml, region, id, 0);
    WriteFailsIff(yaml, region, id, n);
  }
}
