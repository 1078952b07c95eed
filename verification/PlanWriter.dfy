/** Writing issue numbers into a plan as a function of its lines, and what reads back. */
module PlanWriter {
  import opened Wrappers
  import opened BranchNaming
  import opened PlanLines
  import opened PlanFlow
  import opened PlanBlocks
  import opened PlanRegions
  import opened PlanBounds

  const PARENT_NUMBER := "parent_issue_number"
  const PARENT_SOURCE := "parent_issue_source"

  // The lines and the line that closes the frontmatter.
  datatype Plan = Plan(lines: seq<string>, end: nat) {
    predicate Bounded() {
      1 <= end <= |lines|
    }
  }

  // ---- The fields of the parent ----

  predicate IsTitle(line: string) {
    "title:" <= line && '\n' !in WithoutFinalNewline(line[6..][SpaceRun(line[6..])..])
  }

  const Title: string -> bool := line => IsTitle(line)

  // A line the writer recognises as this field.
  function FieldTest(name: string): string -> bool {
    line => ParseValueLine(name, line).Some?
  }

  function FieldLine(m: ValueLine, value: string): string {
    m.head + value + m.tail + "\n"
  }

  // Where a missing field is inserted.
  function InsertAt(plan: Plan, anchor: string -> bool): (k: nat)
    requires plan.Bounded()
    ensures 1 <= k <= plan.end
  {
    var k := Seek(plan.lines, anchor, 1, plan.end);
    if k < plan.end then k + 1 else 1
  }

  function Inserted(lines: seq<string>, k: nat, line: string): seq<string>
    requires k <= |lines|
  {
    lines[..k] + [line] + lines[k..]
  }

  function WriteField(plan: Plan, name: string, anchor: string -> bool, value: string): (r: Plan)
    requires plan.Bounded()
    ensures r.Bounded()
  {
    var k := Seek(plan.lines, FieldTest(name), 1, plan.end);
    if k < plan.end then
      assert FieldTest(name)(plan.lines[k]);
      plan.(lines := plan.lines[k := FieldLine(ParseValueLine(name, plan.lines[k]).value, value)])
    else Plan(Inserted(plan.lines, InsertAt(plan, anchor), name + ": " + value + "\n"), plan.end + 1)
  }

  // ---- The subtasks ----

  function WriteSubtask(yaml: Yaml, plan: Plan, id: string, n: nat): (r: Result<Plan, PlanError>)
    requires plan.Bounded()
    ensures r.Ok? ==> r.value.Bounded()
  {
    match ListPlace(plan.lines, plan.end)
    case None => Err(NoSubtasks)
    case Some(place) =>
      match WriteList(yaml, Region(plan.lines, place), id, n)
      case NotFound => Err(NoSuchSubtask(id))
      case Broken => Err(UnwritableNumber(id))
      case Done(region) =>
        Ok(Plan(WithRegion(plan.lines, place, region), plan.end + |region| - (place.end - place.start)))
  }

  function WriteEntries(yaml: Yaml, plan: Plan, entries: seq<(string, nat)>): (r: Result<Plan, PlanError>)
    requires plan.Bounded()
    ensures r.Ok? ==> r.value.Bounded()
    decreases |entries|
  {
    if entries == [] then Ok(plan)
    else
      match WriteSubtask(yaml, plan, entries[0].0, entries[0].1)
      case Err(e) => Err(e)
      case Ok(next) => WriteEntries(yaml, next, entries[1..])
  }

  // ---- The whole plan ----

  function WriteParent(plan: Plan, number: Option<nat>, source: Option<string>): (r: Plan)
    requires plan.Bounded()
    ensures r.Bounded()
  {
    var numbered := if number.Some? then WriteField(plan, PARENT_NUMBER, Title, Decimal(number.value)) else plan;
    if source.Some? then WriteField(numbered, PARENT_SOURCE, FieldTest(PARENT_NUMBER), source.value) else numbered
  }

  function WritePlan(yaml: Yaml, lines: seq<string>, entries: seq<(string, nat)>, number: Option<nat>, source: Option<string>)
    : Result<Plan, PlanError>
  {
    match FrontEnd(lines)
    case Err(e) => Err(e)
    case Ok(end) => WriteEntries(yaml, WriteParent(Plan(lines, end), number, source), entries)
  }

  // ---- Reading ----

  // Whether the plan has this subtask, and its number if it has one.
  function ReadPlan(yaml: Yaml, lines: seq<string>, id: string): Option<Option<nat>> {
    match FrontEnd(lines)
    case Err(_) => None
    case Ok(end) =>
      match ListPlace(lines, end)
      case None => None
      case Some(place) => ReadList(yaml, Region(lines, place), id)
  }

  function KeyTest(name: string): string -> bool {
    line => ParseKey(line).Some? && ParseKey(line).value.key == name
  }

  // The text of a top-level field.
  function ReadField(plan: Plan, name: string): Option<string>
    requires plan.Bounded()
  {
    var k := Seek(plan.lines, KeyTest(name), 1, plan.end);
    if k == plan.end then None
    else
      assert KeyTest(name)(plan.lines[k]);
      Some(ParseKey(plan.lines[k]).value.value)
  }

  // The plan's end is the line that closes its frontmatter.
  predicate Framed(plan: Plan) {
    FrontEnd(plan.lines) == Ok(plan.end)
  }

  // ---- Lines in the first column ----

  // A line that starts with a key ends the list and is no delimiter.
  lemma KeyStands(line: string)
    requires line != "" && IsKeyStart(line[0])
    ensures EndsList(line) && !IsDelimiter(line) && (line[0] != 's' ==> !IsSubtasksKey(line))
  {
    assert IsSubtasksKey(line) ==> line[0] == "subtasks:"[0];
  }

  predicate IsParentName(name: string) {
    name == PARENT_NUMBER || name == PARENT_SOURCE
  }

  // Both lines of a parent field.
  lemma FieldStands(name: string, line: string)
    requires IsParentName(name) && name <= line
    ensures EndsList(line) && !IsDelimiter(line) && !IsSubtasksKey(line)
  {
    hide EndsList, IsDelimiter, IsSubtasksKey;
    assert line[0] == name[0] == 'p';
    KeyStands(line);
  }

  // Lines that may be anchors.
  predicate StandsOut(anchor: string -> bool, lines: seq<string>) {
    forall x | x in lines && anchor(x) :: EndsList(x) && !IsSubtasksKey(x)
  }

  lemma AnchorsStandOut(lines: seq<string>)
    ensures StandsOut(Title, lines) && StandsOut(FieldTest(PARENT_NUMBER), lines)
  {
    hide EndsList, IsSubtasksKey;
    forall x | x in lines && Title(x) ensures EndsList(x) && !IsSubtasksKey(x) {
      assert x[0] == "title:"[0] == 't';
      KeyStands(x);
    }
    forall x | x in lines && FieldTest(PARENT_NUMBER)(x) ensures EndsList(x) && !IsSubtasksKey(x) {
      FieldStands(PARENT_NUMBER, x);
    }
  }

  // ---- Searching after one line changed ----

  lemma SeekSame(lines: seq<string>, other: seq<string>, test: string -> bool, i: nat, end: nat)
    requires i <= end <= |lines| == |other| && forall j | i <= j < end :: test(other[j]) == test(lines[j])
    ensures Seek(other, test, i, end) == Seek(lines, test, i, end)
  {
    var k := Seek(lines, test, i, end);
    SeekIs(other, test, i, end, k);
  }

  lemma SeekInserted(lines: seq<string>, test: string -> bool, i: nat, end: nat, at: nat, line: string)
    requires i <= at <= end <= |lines| && !test(line)
    ensures Seek(Inserted(lines, at, line), test, i, end + 1) ==
      var k := Seek(lines, test, i, end); if k < at then k else k + 1
  {
    var k := Seek(lines, test, i, end);
    var other := Inserted(lines, at, line);
    forall j | i <= j < (if k < at then k else k + 1) ensures !test(other[j]) {
      assert other[j] == if j < at then lines[j] else if j == at then line else lines[j - 1];
    }
    SeekIs(other, test, i, end + 1, if k < at then k else k + 1);
  }

  // The lines of the list of subtasks.
  function ListOf(plan: Plan): Option<seq<string>>
    requires plan.Bounded()
  {
    match ListPlace(plan.lines, plan.end)
    case None => None
    case Some(place) => Some(Region(plan.lines, place))
  }

  lemma ListAfterKey(plan: Plan)
    requires plan.Bounded()
    ensures var key := Seek(plan.lines, SubtasksKey, 1, plan.end);
      ListOf(plan) == if key == plan.end then None
                      else Some(plan.lines[key + 1..Seek(plan.lines, ListEnd, key + 1, plan.end)])
  {
    hide IsSubtasksKey, EndsList;
  }

  lemma SlicesAgree(lines: seq<string>, other: seq<string>, from: nat, until: nat, more: nat)
    requires from <= until <= |lines| && until + more <= |other|
    requires forall j | from <= j < until :: other[j + more] == lines[j]
    ensures other[from + more..until + more] == lines[from..until]
  {
    forall i | 0 <= i < until - from ensures other[from + more..until + more][i] == lines[from..until][i] {
      assert other[(from + i) + more] == lines[from + i];
    }
  }

  // A line outside the list replaced by a line of the same kind.
  lemma FrontAfterReplaced(plan: Plan, k: nat, line: string)
    requires plan.Bounded() && Framed(plan) && 1 <= k < plan.end && !IsDelimiter(line)
    ensures Framed(plan.(lines := plan.lines[k := line]))
  {
    hide IsDelimiter;
    var other := plan.lines[k := line];
    assert forall j | 1 <= j < plan.end :: !Delimiter(plan.lines[j]);
    SeekIs(other, Delimiter, 1, |other|, plan.end);
  }

  // The list of a key runs to the same end past a line replaced by one of its kind.
  lemma EndSame(lines: seq<string>, key: nat, end: nat, k: nat, line: string)
    requires key < end <= |lines| && k < end && ListEnd(lines[k]) && ListEnd(line)
    ensures var other := lines[k := line];
      other[key + 1..Seek(other, ListEnd, key + 1, end)] == lines[key + 1..Seek(lines, ListEnd, key + 1, end)]
  {
    hide EndsList, Seek;
    var other := lines[k := line];
    SeekSame(lines, other, ListEnd, key + 1, end);
    var last := Seek(lines, ListEnd, key + 1, end);
    assert forall j | key + 1 <= j < last :: !ListEnd(lines[j]) && j != k;
    SlicesAgree(lines, other, key + 1, last, 0);
  }

  lemma ListAfterReplaced(plan: Plan, k: nat, line: string)
    requires plan.Bounded() && 1 <= k < plan.end
    requires EndsList(plan.lines[k]) && !IsSubtasksKey(plan.lines[k])
    requires EndsList(line) && !IsSubtasksKey(line)
    ensures ListOf(plan.(lines := plan.lines[k := line])) == ListOf(plan)
  {
    hide EndsList, IsSubtasksKey, ListOf, Region, ListPlace, Seek;
    var lines, end := plan.lines, plan.end;
    ListAfterKey(plan);
    ListAfterKey(plan.(lines := plan.lines[k := line]));
    SeekSame(lines, lines[k := line], SubtasksKey, 1, end);
    var key := Seek(lines, SubtasksKey, 1, end);
    if key < end {
      EndSame(lines, key, end, k, line);
    }
  }

  // A line inserted outside the list.
  lemma FrontAfterInserted(plan: Plan, at: nat, line: string)
    requires plan.Bounded() && Framed(plan) && 1 <= at <= plan.end && !IsDelimiter(line)
    ensures Framed(Plan(Inserted(plan.lines, at, line), plan.end + 1))
  {
    hide IsDelimiter, Inserted;
    InsertedAt(plan.lines, at, line);
    SeekInserted(plan.lines, Delimiter, 1, |plan.lines|, at, line);
  }

  lemma ListAfterInserted(plan: Plan, at: nat, line: string)
    requires plan.Bounded() && 1 <= at <= plan.end
    requires at == 1 || (EndsList(plan.lines[at - 1]) && !IsSubtasksKey(plan.lines[at - 1]))
    requires EndsList(line) && !IsSubtasksKey(line)
    ensures ListOf(Plan(Inserted(plan.lines, at, line), plan.end + 1)) == ListOf(plan)
  {
    hide EndsList, IsSubtasksKey, Inserted, ListOf, Region, ListPlace, Seek;
    var lines, end := plan.lines, plan.end;
    InsertedLength(lines, at, line);
    ListAfterKey(plan);
    ListAfterKey(Plan(Inserted(plan.lines, at, line), plan.end + 1));
    SeekInserted(lines, SubtasksKey, 1, end, at, line);
    var key := Seek(lines, SubtasksKey, 1, end);
    if key < end {
      assert SubtasksKey(lines[key]);
      if key < at {
        EndBefore(lines, key, end, at, line);
      } else {
        EndAfter(lines, key, end, at, line);
      }
    }
  }

  lemma InsertedAt(lines: seq<string>, at: nat, line: string)
    requires at <= |lines|
    ensures var other := Inserted(lines, at, line);
      && |other| == |lines| + 1 && other[at] == line && (at > 0 ==> other[0] == lines[0])
      && (forall j | 0 <= j < at :: other[j] == lines[j]) && (forall j | at <= j < |lines| :: other[j + 1] == lines[j])
  {
  }

  lemma InsertedLength(lines: seq<string>, at: nat, line: string)
    requires at <= |lines|
    ensures |Inserted(lines, at, line)| == |lines| + 1
  {
  }

  // The list ends before the inserted line.
  lemma EndBefore(lines: seq<string>, key: nat, end: nat, at: nat, line: string)
    requires key + 1 < at <= end <= |lines| && EndsList(lines[at - 1])
    ensures var other := Inserted(lines, at, line);
      && |other| == |lines| + 1
      && other[key + 1..Seek(other, ListEnd, key + 1, end + 1)] == lines[key + 1..Seek(lines, ListEnd, key + 1, end)]
  {
    hide EndsList, Inserted;
    var other := Inserted(lines, at, line);
    InsertedAt(lines, at, line);
    var last := Seek(lines, ListEnd, key + 1, end);
    assert ListEnd(lines[at - 1]);
    SeekIs(other, ListEnd, key + 1, end + 1, last);
    SlicesAgree(lines, other, key + 1, last, 0);
  }

  // The list starts after the inserted line.
  lemma EndAfter(lines: seq<string>, key: nat, end: nat, at: nat, line: string)
    requires 1 <= at <= key < end <= |lines|
    ensures var other := Inserted(lines, at, line);
      && |other| == |lines| + 1
      && other[key + 2..Seek(other, ListEnd, key + 2, end + 1)] == lines[key + 1..Seek(lines, ListEnd, key + 1, end)]
  {
    hide EndsList, Inserted;
    var other := Inserted(lines, at, line);
    InsertedAt(lines, at, line);
    var last := Seek(lines, ListEnd, key + 1, end);
    forall j | key + 2 <= j < last + 1 ensures !ListEnd(other[j]) {
      assert other[(j - 1) + 1] == lines[j - 1] && !ListEnd(lines[j - 1]);
    }
    assert last < end ==> ListEnd(lines[last]) && other[last + 1] == lines[last];
    SeekIs(other, ListEnd, key + 2, end + 1, last + 1);
    SlicesAgree(lines, other, key + 1, last, 1);
  }

  // ---- Writing a parent field ----

  /** Writing a field of the parent changes or inserts exactly one line, the tracked end
      still closes the frontmatter, and the list of subtasks is the same lines. */
  lemma FieldKeepsList(plan: Plan, name: string, anchor: string -> bool, value: string)
    requires plan.Bounded() && Framed(plan) && IsParentName(name) && StandsOut(anchor, plan.lines)
    ensures var other := WriteField(plan, name, anchor, value);
      Framed(other) && ListOf(other) == ListOf(plan) && OneLineChanged(plan.lines, other.lines)
  {
    hide EndsList, IsSubtasksKey, IsDelimiter, Framed, ListOf;
    var other := WriteField(plan, name, anchor, value);
    var k := Seek(plan.lines, FieldTest(name), 1, plan.end);
    if k < plan.end {
      assert FieldTest(name)(plan.lines[k]);
      FieldStands(name, plan.lines[k]);
      var m := ParseValueLine(name, plan.lines[k]).value;
      var line := FieldLine(m, value);
      HeadStarts(name, plan.lines[k], value);
      FieldStands(name, line);
      FrontAfterReplaced(plan, k, line);
      ListAfterReplaced(plan, k, line);
      assert other.lines == plan.lines[k := other.lines[k]];
    } else {
      var at := InsertAt(plan, anchor);
      var line := name + ": " + value + "\n";
      FieldStands(name, line);
      if at != 1 {
        assert anchor(plan.lines[at - 1]) && plan.lines[at - 1] in plan.lines;
      }
      FrontAfterInserted(plan, at, line);
      ListAfterInserted(plan, at, line);
      InsertedAt(plan.lines, at, line);
      assert other.lines == plan.lines[..at] + [other.lines[at]] + plan.lines[at..];
    }
  }

  lemma HeadStarts(name: string, line: string, value: string)
    requires ParseValueLine(name, line).Some?
    ensures name <= FieldLine(ParseValueLine(name, line).value, value)
  {
    hide ParseValue;
    var m := ParseValueLine(name, line).value;
    assert m.head[..|name|] == name;
    assert FieldLine(m, value)[..|name|] == name;
  }
}
