/** A small plan that meets everything the map-update theorem asks for. */
module PlanExample {
  import opened Wrappers
  import opened Whitespace
  import opened BranchNaming
  import opened PlanLines
  import opened PlanFlow
  import opened PlanBlocks
  import opened PlanRegions
  import opened PlanBounds
  import opened PlanWriter
  import opened PlanUpdates

  // ---- A decoder ----

  // The stretches between commas.
  function Cut(text: string): (parts: seq<string>)
    ensures parts != []
  {
    if text == "" then [""]
    else
      var rest := Cut(text[1..]);
      if text[0] == ',' then [""] + rest else [[text[0]] + rest[0]] + rest[1..]
  }

  // An id or an issue number, after one space at most.
  function OneEntry(part: string): Option<(string, Scalar)> {
    var text := if " " <= part then part[1..] else part;
    if "issue_number: " <= text then
      var digits := text[14..];
      if digits != "" && forall c | c in digits :: IsDigit(c) then Some((NUMBER, Number(Value(digits)))) else None
    else if "id: " <= text && |text| > 4 then Some(("id", Text(text[4..])))
    else None
  }

  function Entries(parts: seq<string>): Option<map<string, Scalar>> {
    if parts == [] then Some(map[])
    else
      var first, rest := OneEntry(parts[0]), Entries(parts[1..]);
      if first.None? || rest.None? then None else Some(map[first.value.0 := first.value.1] + rest.value)
  }

  function Mapping(text: string): Option<map<string, Scalar>> {
    var parts := Cut(text);
    var k := |parts| - 1;
    if Entries(parts).Some? then Entries(parts)
    else if !IsGap(parts[k]) then None
    else Entries(parts[..k])
  }

  function Plainly(text: string): Option<string> {
    Some(text)
  }

  function WholeEntriesOf(text: string): Option<map<string, Scalar>> {
    Entries(Cut(text))
  }

  const PLAIN := Yaml(Plainly, Mapping, WholeEntriesOf)

  lemma CutStep(text: string)
    requires text != ""
    ensures var rest := Cut(text[1..]);
      Cut(text) == if text[0] == ',' then [""] + rest else [[text[0]] + rest[0]] + rest[1..]
  {
  }

  lemma {:induction false} CutAtComma(x: string, y: string)
    ensures Cut(x + "," + y) == Cut(x) + Cut(y)
  {
    hide Cut;
    var text := x + "," + y;
    CutStep(text);
    if x == "" {
      assert text[1..] == y && text[0] == ',';
      CutNothing("");
    } else {
      CutAtComma(x[1..], y);
      CutStep(x);
      assert text[1..] == x[1..] + "," + y && text[0] == x[0];
      var first, rest := Cut(x[1..]), Cut(y);
      assert (first + rest)[0] == first[0] && (first + rest)[1..] == first[1..] + rest;
    }
  }

  lemma {:induction false} CutNothing(text: string)
    requires ',' !in text
    ensures Cut(text) == [text]
  {
    if text != "" {
      assert text[0] in text;
      CutNothing(text[1..]);
      assert [text[0]] + text[1..] == text;
    }
  }

  lemma {:induction false} EntriesConcat(a: seq<string>, b: seq<string>)
    ensures Entries(a).Some? && Entries(b).Some? ==> Entries(a + b) == Some(Entries(a).value + Entries(b).value)
    ensures Entries(a).None? || Entries(b).None? ==> Entries(a + b) == None
  {
    hide OneEntry;
    if a == [] {
      assert a + b == b;
      if Entries(b).Some? {
        assert map[] + Entries(b).value == Entries(b).value;
      }
    } else {
      EntriesConcat(a[1..], b);
      assert (a + b)[1..] == a[1..] + b && (a + b)[0] == a[0];
      if Entries(a).Some? && Entries(b).Some? {
        var one := map[OneEntry(a[0]).value.0 := OneEntry(a[0]).value.1];
        assert one + (Entries(a[1..]).value + Entries(b).value) == one + Entries(a[1..]).value + Entries(b).value;
      }
    }
  }

  lemma GapIsNoEntry(w: string)
    requires IsGap(w)
    ensures OneEntry(w).None? && Entries([w]) == None && Cut(w) == [w]
  {
    var text := if " " <= w then w[1..] else w;
    assert text != "" ==> text[0] == ' ' by { assert text != "" ==> text[0] in w; }
    assert "issue_number: "[0] == 'i' && "id: "[0] == 'i';
    CutNothing(w);
  }

  // A gap that is not the last stretch leaves nothing to decode.
  lemma GapInside(text: string, before: seq<string>, w: string, after: seq<string>)
    requires IsGap(w) && after != [] && Cut(text) == before + [w] + after
    ensures Mapping(text) == None
  {
    hide Cut, Entries, OneEntry;
    GapIsNoEntry(w);
    EntriesConcat(before, [w]);
    EntriesConcat(before + [w], after);
    var parts := Cut(text);
    var k := |parts| - 1;
    EntriesConcat(before + [w], after[..|after| - 1]);
    assert parts[..k] == before + [w] + after[..|after| - 1];
  }

  lemma PlainEntries(x: string, y: string)
    requires WholeEntriesOf(x).Some?
    ensures Mapping(x) == WholeEntriesOf(x) && !IsGap(x)
    ensures WholeEntriesOf(y).Some? ==> WholeEntriesOf(x + "," + y) == Some(WholeEntriesOf(x).value + WholeEntriesOf(y).value)
  {
    hide Cut, Entries, OneEntry;
    if IsGap(x) {
      GapIsNoEntry(x);
    }
    CutAtComma(x, y);
    EntriesConcat(Cut(x), Cut(y));
  }

  lemma PlainGaps(x: string, w: string, y: string)
    requires IsGap(w)
    ensures Mapping(w) == Some(map[]) && Mapping(w + "," + y) == None
    ensures WholeEntriesOf(x).Some? ==> Mapping(x + "," + w) == WholeEntriesOf(x) && Mapping(x + "," + (w + "," + y)) == None
  {
    hide Cut, Entries, OneEntry;
    GapIsNoEntry(w);
    CutAtComma(w, y);
    assert [] + [w] + Cut(y) == Cut(w) + Cut(y);
    GapInside(w + "," + y, [], w, Cut(y));
    CutAtComma(x, w);
    CutAtComma(x, w + "," + y);
    assert Cut(x) + [w] + Cut(y) == Cut(x) + (Cut(w) + Cut(y));
    GapInside(x + "," + (w + "," + y), Cut(x), w, Cut(y));
    EntriesConcat(Cut(x), [w]);
    assert (Cut(x) + [w])[..|Cut(x)|] == Cut(x);
    NoPartsDecode();
  }

  lemma NoPartsDecode()
    ensures Entries([]) == Some(map[])
  {
  }

  lemma PlainNumber(n: nat)
    ensures WholeEntriesOf("issue_number: " + Decimal(n)) == Some(map[NUMBER := Number(n)])
    ensures WholeEntriesOf(" issue_number: " + Decimal(n)) == Some(map[NUMBER := Number(n)])
  {
    hide IsDigit;
    var text := "issue_number: " + Decimal(n);
    ValueOfDecimal(n);
    DecimalDigits(n);
    assert text[0] == 'i' && " "[0] == ' ' && text[14..] == Decimal(n);
    assert (" " + text)[1..] == text && " " + text == " issue_number: " + Decimal(n);
    NoCommaInDigits(Decimal(n));
    CutNothing(text);
    CutNothing(" " + text);
    assert OneEntry(text) == Some((NUMBER, Number(n))) && OneEntry(" " + text) == Some((NUMBER, Number(n)));
    OneIsAll(text);
    OneIsAll(" " + text);
  }

  lemma OneIsAll(part: string)
    requires OneEntry(part).Some?
    ensures Entries([part]) == Some(map[OneEntry(part).value.0 := OneEntry(part).value.1])
  {
    hide OneEntry;
    var one := map[OneEntry(part).value.0 := OneEntry(part).value.1];
    assert one + map[] == one && [part][1..] == [];
  }

  lemma NoCommaInDigits(digits: string)
    requires forall c | c in digits :: IsDigit(c)
    ensures ',' !in digits
  {
  }

  lemma PlainIsWhole()
    ensures forall x | PLAIN.entries(x).Some? :: PLAIN.mapping(x) == PLAIN.entries(x) && !IsGap(x)
    ensures forall x, y | PLAIN.entries(x).Some? && PLAIN.entries(y).Some? ::
      PLAIN.entries(x + "," + y) == Some(PLAIN.entries(x).value + PLAIN.entries(y).value)
  {
    hide Mapping, WholeEntriesOf, IsGap;
    forall x | PLAIN.entries(x).Some? ensures PLAIN.mapping(x) == PLAIN.entries(x) && !IsGap(x) {
      PlainEntries(x, "");
    }
    forall x, y | PLAIN.entries(x).Some? && PLAIN.entries(y).Some?
      ensures PLAIN.entries(x + "," + y) == Some(PLAIN.entries(x).value + PLAIN.entries(y).value) {
      PlainEntries(x, y);
    }
  }

  lemma PlainHasGaps()
    ensures forall w | IsGap(w) :: PLAIN.mapping(w) == Some(map[])
    ensures forall x, w | PLAIN.entries(x).Some? && IsGap(w) :: PLAIN.mapping(x + "," + w) == PLAIN.entries(x)
    ensures forall w, y | IsGap(w) :: PLAIN.mapping(w + "," + y) == None
  {
    hide Mapping, WholeEntriesOf, IsGap;
    forall w | IsGap(w) ensures PLAIN.mapping(w) == Some(map[]) {
      PlainGaps("", w, "");
    }
    forall x, w | PLAIN.entries(x).Some? && IsGap(w) ensures PLAIN.mapping(x + "," + w) == PLAIN.entries(x) {
      PlainGaps(x, w, "");
    }
    forall w, y | IsGap(w) ensures PLAIN.mapping(w + "," + y) == None {
      PlainGaps("", w, y);
    }
  }

  lemma PlainMissesNothing()
    ensures forall x, w, y | PLAIN.entries(x).Some? && IsGap(w) :: PLAIN.mapping(x + "," + (w + "," + y)) == None
  {
    hide Mapping, WholeEntriesOf, IsGap;
    forall x, w, y | PLAIN.entries(x).Some? && IsGap(w) ensures PLAIN.mapping(x + "," + (w + "," + y)) == None {
      PlainGaps(x, w, y);
    }
  }

  /** The laws asked of the decoder can be met. */
  lemma PlainIsLawful()
    ensures PLAIN.Lawful() && PLAIN.entries("id: a") == Some(map["id" := Text("a")])
  {
    hide Mapping, WholeEntriesOf, IsGap;
    PlainIsWhole();
    PlainHasGaps();
    PlainMissesNothing();
    forall n: nat
      ensures PLAIN.entries("issue_number: " + Decimal(n)) == Some(map[NUMBER := Number(n)])
      ensures PLAIN.entries(" issue_number: " + Decimal(n)) == Some(map[NUMBER := Number(n)])
    {
      PlainNumber(n);
    }
    PlainId();
  }

  lemma PlainId()
    ensures WholeEntriesOf("id: a") == Some(map["id" := Text("a")])
  {
    CutNothing("id: a");
    assert "id: a"[0] == 'i' && "id: a"[1] == 'd' && "issue_number: "[1] == 's' && "id: a"[4..] == "a";
    OneIsAll("id: a");
  }

  // ---- A plan ----

  const ITEM := "- id: a\n"
  const LINES := ["---\n", "subtasks:\n", ITEM, "---\n"]

  // A dash, one space and some text.
  lemma DashLine(text: string)
    requires text != "" && !IsSpace(text[0]) && '\n' !in text && text[0] != '{'
    ensures ParseItemStart("- " + text + "\n") == Some(ItemStart(0, 1, text)) && ParseFlow("- " + text + "\n").None?
  {
    hide IsSpace, SpaceRun, NextClose;
    DashIsNoSpace();
    var line, body := "- " + text + "\n", "- " + text;
    assert line[1..] == " " + (text + "\n") && line[2..] == text + "\n" && body[1..] == " " + text;
    OneSpaceRun(text + "\n");
    OneSpaceRun(text);
    SpaceRunAt(line, 0);
    SpaceRunAt(body, 0);
    assert (text + "\n")[..|text|] == text && line[..|line| - 1] == body;
  }

  lemma OneSpaceRun(text: string)
    requires text != "" && !IsSpace(text[0])
    ensures SpaceRun(" " + text) == 1
  {
    hide SpaceRun, IsSpace;
    DashIsNoSpace();
    assert (" " + text)[0] == ' ' && (" " + text)[1] == text[0];
    SpaceRunAt(" " + text, 1);
  }

  lemma LetterIsNoSpace()
    ensures !IsSpace('i') && !IsSpace('5') && !IsSpace('a')
  {
  }

  lemma ItemStarts()
    ensures ParseItemStart(ITEM) == Some(ItemStart(0, 1, "id: a")) && ParseFlow(ITEM).None? && OneLine(ITEM)
  {
    hide IsSpace, ParseItemStart, ParseFlow;
    var text := "id: a";
    LetterIsNoSpace();
    assert text[0] == 'i' && '\n' !in text && "- " + text + "\n" == ITEM;
    DashLine(text);
  }

  lemma ItemKey()
    ensures ParseKey("id: a") == Some(KeyValue("id", "a"))
  {
    hide IsSpace;
    NameRuns("id", ": a");
    assert "id" + ": a" == "id: a" && "id: a"[3..] == " a" && "id: a"[..2] == "id";
    OneSpace();
  }

  lemma OneSpace()
    ensures SpaceRun(" a") == 1 && " a"[1..] == "a" && WithoutFinalNewline("a") == "a"
  {
  }

  lemma ItemIsSound()
    ensures SoundList([ITEM])
  {
    ItemStarts();
    hide ParseItemStart, ParseFlow, OneLine, SpaceRun, LeadingSpaces, IsBlankLine, IsComment;
    assert ITEM[1] == ' ' && "---"[1] == '-';
  }

  lemma ItemIsWritten(n: nat)
    ensures IsBlock([ITEM]) && Carries(PLAIN, [ITEM], "a") && WriteBlock(PLAIN, [ITEM], "a", n).Written?
    ensures NumberOf(PLAIN, [ITEM], "a") == None && CleanTarget(PLAIN, [ITEM], "a", n)
  {
    hide ParseItemStart, ParseFlow, ParseKey;
    ItemStarts();
    ItemKey();
    assert PLAIN.scalar("a") == Some("a");
    assert DirectFields([ITEM]) == [Field(0, "id", "a")];
    assert !IsNumber()(KeyValue("id", "a")) by { assert NUMBER[1] == 's' && "id"[1] == 'd'; }
    assert FindField([Field(0, "id", "a")], IsNumber()) == None;
    assert FindField([Field(0, "id", "a")], IsId(PLAIN, "a")) == Some(Field(0, "id", "a"));
  }

  lemma ListIsWritable(n: nat)
    ensures Writable(PLAIN, [ITEM], [("a", n)]) && ReadList(PLAIN, [ITEM], "a") == Some(None)
  {
    hide ParseItemStart, ParseFlow, Carries, WriteBlock, NumberOf, CleanTarget, IsBlock;
    ItemStarts();
    ItemIsWritten(n);
    assert [ITEM][1..] == [] && BlockLength([ITEM]) == 1 && [ITEM][..1] == [ITEM];
  }

  lemma LinesStand()
    ensures IsDelimiter("---\n") && IsSubtasksKey("subtasks:\n") && !IsDelimiter("subtasks:\n") && !IsSubtasksKey(ITEM)
  {
    assert "---\n"[3..] == "\n" && SpaceRun("\n") == 1;
    assert "subtasks:\n"[9..] == "\n" && "\n"[1..] == "" && "subtasks:\n"[0] == 's' && "---"[0] == '-';
    assert ITEM[0] == '-' && "subtasks:"[0] == 's';
  }

  lemma PlanStands()
    ensures FrontEnd(LINES) == Ok(3) && ListOf(Plan(LINES, 3)) == Some([ITEM])
  {
    hide IsDelimiter, IsSubtasksKey, EndsList, OneLine, NeatFlow;
    LinesStand();
    ItemIsSound();
    assert ITEM in [ITEM];
    assert Delimiter(LINES[3]) && !Delimiter(LINES[1]) && !Delimiter(LINES[2]);
    SeekIs(LINES, Delimiter, 1, 4, 3);
    SeekIs(LINES, SubtasksKey, 1, 3, 1);
    assert !ListEnd(LINES[2]);
    SeekIs(LINES, ListEnd, 2, 3, 3);
    assert LINES[2..3] == [ITEM];
  }

  // No line of the plan is a parent field.
  lemma NoParentLine(line: string)
    requires line == "subtasks:\n" || line == ITEM
    ensures !KeyTest(PARENT_NUMBER)(line) && !FieldTest(PARENT_NUMBER)(line)
  {
    assert line[0] != PARENT_NUMBER[0];
    assert !(PARENT_NUMBER + ":" <= line) by { assert (PARENT_NUMBER + ":")[0] == 'p'; }
    if ParseKey(line).Some? {
      assert ParseKey(line).value.key[0] == line[0];
    }
  }

  lemma NoParentFields()
    ensures Recognised(Plan(LINES, 3), PARENT_NUMBER) && CleanField(Plan(LINES, 3), PARENT_NUMBER)
  {
    hide KeyTest, FieldTest, Clean, ParseValueLine;
    NoParentLine("subtasks:\n");
    NoParentLine(ITEM);
    forall j | 1 <= j < 3 ensures !KeyTest(PARENT_NUMBER)(LINES[j]) && !FieldTest(PARENT_NUMBER)(LINES[j]) {
      assert LINES[j] == "subtasks:\n" || LINES[j] == ITEM;
    }
  }

  /** The plan has its subtask without a number; writing 7 is a map update by the theorem. */
  lemma SmallPlanIsWritten()
    ensures ReadPlan(PLAIN, LINES, "a") == Some(None)
    ensures var r := WritePlan(PLAIN, LINES, [("a", 7)], Some(3), None);
      r.Ok? && ReadPlan(PLAIN, r.value.lines, "a") == Some(Some(7)) && ReadFieldNumber(r.value, PARENT_NUMBER) == Some(3)
  {
    hide FrontEnd, ListPlace, SoundList, Writable, ReadList, WritePlan, Recognised, CleanField, ReadField, Untouched, LINES;
    PlainIsLawful();
    PlanStands();
    ItemIsSound();
    ListIsWritable(7);
    NoParentFields();
    var entries := [("a", 7)];
    PlanWriteIsMapUpdate(PLAIN, LINES, 3, [ITEM], entries, Some(3), None);
    assert entries[0].0 == "a" && entries[0].1 == 7;
  }

  // ---- A number in the first line of an item ----

  const NUMBERED := "- issue_number: 5\n"
  const IDENTIFIED := "  id: a\n"

  lemma NumberedStarts()
    ensures ParseItemStart(NUMBERED) == Some(ItemStart(0, 1, "issue_number: 5")) && ParseFlow(NUMBERED).None?
  {
    hide IsSpace, ParseItemStart, ParseFlow;
    var text := "issue_number: 5";
    LetterIsNoSpace();
    assert text[0] == 'i' && '\n' !in text && "- " + text + "\n" == NUMBERED;
    DashLine(text);
  }

  lemma NumberedKey()
    ensures ParseKey("issue_number: 5") == Some(KeyValue(NUMBER, "5"))
  {
    hide IsSpace, ParseKey;
    LetterIsNoSpace();
    DashIsNoSpace();
    NumberIsKey();
    assert NUMBER + ":" + " " + "5" == "issue_number: 5";
    KeyTextReads(NUMBER, " ", "5");
  }

  lemma IdentifiedField()
    ensures LineField(IDENTIFIED, 2) == Some(KeyValue("id", "a")) && LeadingSpaces(IDENTIFIED) == 2 && !IsBlankLine(IDENTIFIED)
  {
    hide IsSpace, SpaceRun, LeadingSpaces, ParseKey, IsKeyStart, LineField, IsBlankLine;
    LetterIsNoSpace();
    SpaceAndIdKey();
    assert IDENTIFIED == Spaces(2) + "id: a\n";
    SpacedField(2, "id: a\n");
  }

  lemma SpaceAndIdKey()
    ensures IsKeyStart("id: a\n"[0]) && ParseKey("id: a\n") == Some(KeyValue("id", "a"))
  {
    hide IsSpace, SpaceRun;
    LetterIsNoSpace();
    DashIsNoSpace();
    assert "id" + ":" + " " + "a" + "\n" == "id: a\n";
    assert Blank(" ") && "a"[0] == 'a' && '\n' !in "a";
    KeyLineReads("id", " ", "a");
  }

  lemma NumberedFields()
    ensures StartsItem([NUMBERED, IDENTIFIED]) && FieldIndent([NUMBERED, IDENTIFIED]) == 2
    ensures DirectFields([NUMBERED, IDENTIFIED]) == [Field(0, NUMBER, "5"), Field(1, "id", "a")]
  {
    hide ParseItemStart, ParseKey, LineField, NUMBERED, IDENTIFIED;
    NumberedStarts();
    NumberedKey();
    IdentifiedField();
    var block := [NUMBERED, IDENTIFIED];
    assert LineFields(block, 2, 2) == [] && LineFields(block, 2, 1) == [Field(1, "id", "a")] + [];
  }

  /** An item whose number stands in its first line is found, and its number has no place. */
  lemma NumberFirstIsBroken(n: nat)
    ensures WriteList(PLAIN, [NUMBERED, IDENTIFIED], "a", n).Broken?
  {
    hide ParseItemStart, ParseFlow, ParseKey, DirectFields, FieldIndent, WriteBlock, NUMBERED, IDENTIFIED, NumberLine;
    var block := [NUMBERED, IDENTIFIED];
    NumberedStarts();
    NumberedFields();
    IdentifiedField();
    ItemLineHasNoNumber(NUMBERED);
    assert block[1..] == [IDENTIFIED] && InsideRun([IDENTIFIED], 0) == 1 by { assert [IDENTIFIED][1..] == []; }
    assert BlockLength(block) == 2 && block[..2] == block;
    IdIsWanted();
    UnwritableIff(PLAIN, block, "a", n);
  }

  lemma IdIsWanted()
    ensures FindField([Field(0, NUMBER, "5"), Field(1, "id", "a")], IsId(PLAIN, "a")) == Some(Field(1, "id", "a"))
    ensures FindField([Field(0, NUMBER, "5"), Field(1, "id", "a")], IsNumber()) == Some(Field(0, NUMBER, "5"))
  {
    NumberIsNoId(PLAIN, "a", KeyValue(NUMBER, "5"));
    assert PLAIN.scalar("a") == Some("a");
    var rest := [Field(1, "id", "a")];
    assert [Field(0, NUMBER, "5"), Field(1, "id", "a")][1..] == rest;
    assert FindField(rest, IsId(PLAIN, "a")) == Some(Field(1, "id", "a"));
  }

  // ---- A parent field with two words ----

  const TWO_WORDS := "parent_issue_source: by hand\n"
  const TWO_WORDS_PLAN := Plan(["---\n", TWO_WORDS, "---\n"], 2)

  predicate StartsWord(text: string) {
    text != "" && IsValueChar(text[0]) && !IsSpace(text[0]) && text[0] != '"' && text[0] != '\''
  }

  // Blanks and then a word are not the end of a value.
  lemma NoTail(blanks: string, rest: string)
    requires (forall c | c in blanks :: c == ' ') && StartsWord(rest)
    ensures ParseTail(blanks + rest) == None
  {
    RunLengthIs(blanks, rest, BlankOrTab);
    assert (blanks + rest)[|blanks|..] == rest;
    assert rest[0] != '\r' && rest[0] != '\n';
  }

  lemma WordsAreNoValue(first: string, second: string)
    requires StartsWord(first) && StartsWord(second) && forall c | c in first :: IsValueChar(c)
    ensures ParseValue(first + (" " + second)) == None
  {
    hide RunLength, IsSpace, ParseTail;
    var rest := first + (" " + second);
    RunLengthIs(first, " " + second, ValueChar);
    assert rest[|first|..] == " " + second && rest[0] == first[0];
    NoTail("", rest);
    assert "" + rest == rest;
    NoTail(" ", second);
  }

  lemma WordsAreNoField(name: string, first: string, second: string)
    requires StartsWord(first) && StartsWord(second) && forall c | c in first :: IsValueChar(c)
    ensures ParseValueLine(name, name + ":" + " " + first + (" " + second)) == None
  {
    hide IsSpace, ParseValue, SpaceRun, StartsWord;
    var text := name + ":" + " " + first + (" " + second);
    var after := " " + (first + (" " + second));
    assert text == name + ":" + after && text[|name| + 1..] == after;
    OneSpaceBefore(first, second);
    assert after[1..] == first + (" " + second);
    WordsAreNoValue(first, second);
  }

  lemma OneSpaceBefore(first: string, second: string)
    requires StartsWord(first)
    ensures SpaceRun(" " + (first + (" " + second))) == 1
  {
    hide IsSpace;
    assert (first + (" " + second))[0] == first[0];
    OneSpaceRun(first + (" " + second));
  }

  lemma TwoWordLine()
    ensures KeyTest(PARENT_SOURCE)(TWO_WORDS) && !FieldTest(PARENT_SOURCE)(TWO_WORDS)
  {
    hide IsSpace, ParseKey, ParseValueLine;
    WordChars();
    ParentNames();
    WordsAreNoField(PARENT_SOURCE, "by", "hand\n");
    assert TWO_WORDS == PARENT_SOURCE + ":" + " " + "by" + (" " + "hand\n");
    KeyLineReads(PARENT_SOURCE, " ", "by hand");
    assert TWO_WORDS == PARENT_SOURCE + ":" + " " + "by hand" + "\n";
  }

  lemma WordChars()
    ensures StartsWord("by") && StartsWord("hand\n") && (forall c | c in "by" :: IsValueChar(c)) && Blank(" ") && !IsSpace("by hand"[0])
  {
  }

  /** A field whose value is two words is not recognised, and writing it again adds a second
      line with the same key. */
  lemma TwoWordsAreDoubled(anchor: string -> bool, value: string)
    requires IsFieldText(value)
    ensures Doubled(WriteField(TWO_WORDS_PLAN, PARENT_SOURCE, anchor, value), PARENT_SOURCE)
  {
    hide KeyTest, FieldTest, WriteField, IsFieldText, TWO_WORDS;
    TwoWordLine();
    SeekIs(TWO_WORDS_PLAN.lines, FieldTest(PARENT_SOURCE), 1, 2, 2);
    SeekIs(TWO_WORDS_PLAN.lines, KeyTest(PARENT_SOURCE), 1, 2, 1);
    FieldDoubledIff(TWO_WORDS_PLAN, PARENT_SOURCE, anchor, value);
  }

  // ---- A comment behind a bare dash ----

  const BARE := "-\n"
  const NOTE := "# note\n"
  const DEEP := "    id: a\n"

  lemma BareStarts()
    ensures ParseItemStart(BARE) == Some(ItemStart(0, 1, "")) && ParseFlow(BARE).None? && ParseKey("").None?
  {
    DashIsNoSpace();
    assert BARE[1..] == "\n" && "\n"[1..] == "";
    assert SpaceRun("\n") == 1;
  }

  lemma DeepField()
    ensures LineField(DEEP, 4) == Some(KeyValue("id", "a")) && LeadingSpaces(DEEP) == 4 && !IsBlankLine(DEEP)
  {
    hide IsSpace, SpaceRun, LeadingSpaces, ParseKey, IsKeyStart, LineField, IsBlankLine;
    LetterIsNoSpace();
    SpaceAndIdKey();
    assert DEEP == Spaces(4) + "id: a\n";
    SpacedField(4, "id: a\n");
  }

  lemma NoteIsNoField()
    ensures IsComment(NOTE) && !IsBlankLine(NOTE) && LeadingSpaces(NOTE) == 0 && LineField(NOTE, 0).None?
  {
    HashIsNoSpace();
    assert SpaceRun(NOTE) == 0 && NOTE[0..] == NOTE;
  }

  lemma HashIsNoSpace()
    ensures !IsSpace('#') && !IsKeyStart('#')
  {
  }

  lemma BareItemReads()
    ensures ReadList(PLAIN, [BARE, DEEP], "a") == Some(None)
  {
    hide ParseItemStart, ParseFlow, ParseKey, LineField, LeadingSpaces, IsBlankLine, BARE, DEEP;
    BareStarts();
    DeepField();
    var block := [BARE, DEEP];
    assert FirstText(block, 1) == 1 && FieldIndent(block) == 4;
    assert LineFields(block, 4, 2) == [] && LineFields(block, 4, 1) == [Field(1, "id", "a")] + [];
    assert PLAIN.scalar("a") == Some("a");
    assert DirectFields(block) == [Field(1, "id", "a")];
    assert block[1..] == [DEEP] && [DEEP][1..] == [];
    assert BlockLength(block) == 2 && block[..2] == block;
  }

  lemma NotedItemIsHidden()
    ensures ReadList(PLAIN, [BARE, NOTE, DEEP], "a") == None
  {
    hide ParseItemStart, ParseFlow, ParseKey, LineField, LeadingSpaces, IsBlankLine, IsComment, BARE, NOTE, DEEP;
    BareStarts();
    DeepField();
    NoteIsNoField();
    DeepAtZero();
    var block := [BARE, NOTE, DEEP];
    assert FirstText(block, 1) == 1 && FieldIndent(block) == 0;
    assert LineFields(block, 0, 3) == [] && LineFields(block, 0, 2) == [] && LineFields(block, 0, 1) == [];
    assert DirectFields(block) == [];
    assert block[1..] == [NOTE, DEEP] && [NOTE, DEEP][1..] == [DEEP] && [DEEP][1..] == [];
    assert InsideRun([DEEP], 0) == 1 && InsideRun([NOTE, DEEP], 0) == 2;
    assert BlockLength(block) == 3 && block[..3] == block && block[3..] == [];
    assert !Carries(PLAIN, block, "a");
    assert Target(PLAIN, [], "a") == None;
  }

  lemma DeepAtZero()
    ensures LeadingSpaces(DEEP) != 0 ==> LineField(DEEP, 0).None?
  {
  }

  /** A comment in another column between a bare dash and the first field of its item gives the
      item its column, so that the subtask is no longer found. */
  lemma CommentHidesFields(n: nat)
    ensures ReadList(PLAIN, [BARE, DEEP], "a") == Some(None) && ReadList(PLAIN, [BARE, NOTE, DEEP], "a") == None
    ensures WriteList(PLAIN, [BARE, NOTE, DEEP], "a", n).NotFound?
  {
    BareItemReads();
    NotedItemIsHidden();
    WriteFailsIff(PLAIN, [BARE, NOTE, DEEP], "a", n);
  }
}
