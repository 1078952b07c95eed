/** One item of the subtask list: its lines, its direct fields, and writing its number. */
module PlanBlocks {
  import opened Wrappers
  import opened Whitespace
  import opened BranchNaming
  import opened PlanLines
  import opened PlanFlow
  import opened PlanScanners

  // ---- Blocks ----

  // A list item: its first line starts it, and no later line ends it.
  ghost predicate IsBlock(block: seq<string>) {
    && block != [] && ParseItemStart(block[0]).Some?
    && forall i | 1 <= i < |block| :: StaysInside(block[i], ParseItemStart(block[0]).value.indent)
  }

  datatype Field = Field(index: nat, key: string, value: string) {
    function Content(): KeyValue {
      KeyValue(key, value)
    }
  }

  // The first line that is not blank, from here on; the end if there is none.
  function FirstText(block: seq<string>, i: nat): (k: nat)
    requires i <= |block|
    ensures i <= k <= |block| && (forall j | i <= j < k :: IsBlankLine(block[j])) && (k < |block| ==> !IsBlankLine(block[k]))
    decreases |block| - i
  {
    if i < |block| && IsBlankLine(block[i]) then FirstText(block, i + 1) else i
  }

  // The column of the item's own fields.
  function FieldIndent(block: seq<string>): nat
    requires block != [] && ParseItemStart(block[0]).Some?
  {
    var start := ParseItemStart(block[0]).value;
    var k := FirstText(block, 1);
    if ParseKey(start.inline).None? && k < |block| then LeadingSpaces(block[k]) else start.indent + 1 + start.gap
  }

  // A line that holds a field of this column.
  function LineField(line: string, indent: nat): Option<KeyValue> {
    if IsBlankLine(line) || LeadingSpaces(line) != indent then None else ParseKey(line[indent..])
  }

  function LineFields(block: seq<string>, indent: nat, i: nat): seq<Field>
    requires i <= |block|
    decreases |block| - i
  {
    if i == |block| then []
    else
      var field := LineField(block[i], indent);
      (if field.Some? then [Field(i, field.value.key, field.value.value)] else []) + LineFields(block, indent, i + 1)
  }

  function InlineFields(block: seq<string>): seq<Field>
    requires block != [] && ParseItemStart(block[0]).Some?
  {
    var field := ParseKey(ParseItemStart(block[0]).value.inline);
    if field.Some? then [Field(0, field.value.key, field.value.value)] else []
  }

  function DirectFields(block: seq<string>): seq<Field>
    requires block != [] && ParseItemStart(block[0]).Some?
  {
    InlineFields(block) + LineFields(block, FieldIndent(block), 1)
  }

  // The first field that is wanted.
  function FindField(fields: seq<Field>, wanted: KeyValue -> bool): (f: Option<Field>)
    ensures f.Some? ==> f.value in fields && wanted(f.value.Content())
    ensures f.None? ==> forall x | x in fields :: !wanted(x.Content())
  {
    if fields == [] then None else if wanted(fields[0].Content()) then Some(fields[0]) else FindField(fields[1..], wanted)
  }

  function IsId(yaml: Yaml, id: string): KeyValue -> bool {
    (f: KeyValue) => f.key == "id" && yaml.scalar(f.value) == Some(id)
  }

  function IsNumber(): KeyValue -> bool {
    (f: KeyValue) => f.key == NUMBER
  }

  // ---- Writing ----

  datatype BlockWrite = OtherBlock | Unwritable | Written(lines: seq<string>)

  // The value line of an issue number that stands on a line of its own.
  function NumberLine(line: string): Option<ValueLine> {
    var w := SpaceRun(line);
    ParseValueLine(NUMBER, line[w..])
  }

  function RewriteLine(line: string, n: nat): string
    requires NumberLine(line).Some?
  {
    line[..SpaceRun(line)] + Rewritten(NumberLine(line).value, n)
  }

  function InsertedLine(indent: nat, n: nat): string {
    Spaces(indent) + "issue_number: " + Decimal(n) + "\n"
  }

  function WriteBlock(yaml: Yaml, block: seq<string>, id: string, n: nat): BlockWrite
    requires block != [] && ParseItemStart(block[0]).Some?
  {
    var flow := WriteFlow(yaml, block[0], id, n);
    if flow.Some? then Written(block[0 := flow.value])
    else
      var fields := DirectFields(block);
      var idField := FindField(fields, IsId(yaml, id));
      if idField.None? then OtherBlock
      else
        var existing := FindField(fields, IsNumber());
        if existing.Some? then
          FieldInside(block, existing.value);
          var line := block[existing.value.index];
          if NumberLine(line).None? then Unwritable else Written(block[existing.value.index := RewriteLine(line, n)])
        else
          FieldInside(block, idField.value);
          var i := idField.value.index;
          Written(block[..i + 1] + [InsertedLine(FieldIndent(block), n)] + block[i + 1..])
  }

  lemma FieldInside(block: seq<string>, f: Field)
    requires block != [] && ParseItemStart(block[0]).Some? && f in DirectFields(block)
    ensures f.index < |block|
    ensures f.index > 0 ==> LineField(block[f.index], FieldIndent(block)) == Some(KeyValue(f.key, f.value))
    ensures f.index == 0 ==> ParseKey(ParseItemStart(block[0]).value.inline) == Some(KeyValue(f.key, f.value))
  {
    if f !in InlineFields(block) {
      LineFieldsMember(block, FieldIndent(block), 1, f);
    }
  }

  lemma {:induction false} LineFieldsMember(block: seq<string>, indent: nat, i: nat, f: Field)
    requires i <= |block|
    ensures f in LineFields(block, indent, i) <==>
      i <= f.index < |block| && LineField(block[f.index], indent) == Some(KeyValue(f.key, f.value))
    decreases |block| - i
  {
    hide LineField;
    if i < |block| {
      LineFieldsMember(block, indent, i + 1, f);
      var field := LineField(block[i], indent);
      assert LineFields(block, indent, i) ==
        (if field.Some? then [Field(i, field.value.key, field.value.value)] else []) + LineFields(block, indent, i + 1);
    }
  }

  // ---- Reading ----

  predicate Carries(yaml: Yaml, block: seq<string>, id: string)
    requires block != [] && ParseItemStart(block[0]).Some?
  {
    NamedByFlow(yaml, block[0], id) || FindField(DirectFields(block), IsId(yaml, id)).Some?
  }

  // The line is a flow mapping that decodes to this id.
  predicate NamedByFlow(yaml: Yaml, line: string, id: string) {
    ParseFlow(line).Some? && FlowId(yaml, Inside(line)) == Some(id)
  }

  // The number the item gives to this subtask. An item that starts with a flow mapping is
  // that mapping, so fields on further lines do not count.
  function NumberOf(yaml: Yaml, block: seq<string>, id: string): Option<nat>
    requires block != [] && ParseItemStart(block[0]).Some?
  {
    if ParseFlow(block[0]).Some? then
      if NamedByFlow(yaml, block[0], id) then FlowNumber(yaml, Inside(block[0])) else None
    else
      match FindField(DirectFields(block), IsNumber())
      case None => None
      case Some(f) => ReadNumber(f.value)
  }

  // ---- Where a field is found ----

  // A wanted field on line k of the item.
  predicate Hits(block: seq<string>, wanted: KeyValue -> bool, k: nat)
    requires block != [] && ParseItemStart(block[0]).Some?
  {
    var field :=
      if k == 0 then ParseKey(ParseItemStart(block[0]).value.inline)
      else if k < |block| then LineField(block[k], FieldIndent(block)) else None;
    field.Some? && wanted(field.value)
  }

  lemma FindConcat(first: seq<Field>, rest: seq<Field>, wanted: KeyValue -> bool)
    requires |first| <= 1
    ensures FindField(first + rest, wanted) ==
      if first != [] && wanted(first[0].Content()) then Some(first[0]) else FindField(rest, wanted)
  {
    if first != [] {
      assert (first + rest)[1..] == rest && (first + rest)[0] == first[0];
    } else {
      assert first + rest == rest;
    }
  }

  // The wanted field of the earliest line.
  function NextField(block: seq<string>, indent: nat, wanted: KeyValue -> bool, i: nat): Option<Field>
    requires i <= |block|
    decreases |block| - i
  {
    if i == |block| then None
    else if LineMisses(block, indent, wanted, i) then NextField(block, indent, wanted, i + 1)
    else
      var field := LineField(block[i], indent).value;
      Some(Field(i, field.key, field.value))
  }

  lemma {:induction false} NextIsFirst(block: seq<string>, indent: nat, wanted: KeyValue -> bool, i: nat)
    requires i <= |block|
    ensures match NextField(block, indent, wanted, i)
      case Some(f) =>
        && i <= f.index < |block| && LineField(block[f.index], indent) == Some(KeyValue(f.key, f.value))
        && wanted(f.Content()) && forall j | i <= j < f.index :: LineMisses(block, indent, wanted, j)
      case None => forall j | i <= j < |block| :: LineMisses(block, indent, wanted, j)
    decreases |block| - i
  {
    hide LineField;
    if i < |block| && LineMisses(block, indent, wanted, i) {
      NextIsFirst(block, indent, wanted, i + 1);
    }
  }

  lemma {:induction false} FirstLineHit(block: seq<string>, indent: nat, wanted: KeyValue -> bool, i: nat)
    requires i <= |block|
    ensures FindField(LineFields(block, indent, i), wanted) == NextField(block, indent, wanted, i)
    decreases |block| - i
  {
    hide LineField, FindField;
    if i < |block| {
      FirstLineHit(block, indent, wanted, i + 1);
      var field := LineField(block[i], indent);
      FindConcat(if field.Some? then [Field(i, field.value.key, field.value.value)] else [], LineFields(block, indent, i + 1), wanted);
    } else {
      NothingFound(wanted);
    }
  }

  lemma NothingFound(wanted: KeyValue -> bool)
    ensures FindField([], wanted) == None
  {
  }

  predicate LineMisses(block: seq<string>, indent: nat, wanted: KeyValue -> bool, j: nat)
    requires j < |block|
  {
    var field := LineField(block[j], indent);
    field.Some? ==> !wanted(field.value)
  }

  /** The search finds the first line that carries a wanted field. */
  lemma FirstHit(block: seq<string>, wanted: KeyValue -> bool)
    requires block != [] && ParseItemStart(block[0]).Some?
    ensures match FindField(DirectFields(block), wanted)
      case Some(f) =>
        && f.index < |block| && Hits(block, wanted, f.index) && wanted(f.Content())
        && (f.index > 0 ==> LineField(block[f.index], FieldIndent(block)) == Some(KeyValue(f.key, f.value)))
        && (f.index == 0 ==> ParseKey(ParseItemStart(block[0]).value.inline) == Some(KeyValue(f.key, f.value)))
        && forall j: nat | j < f.index :: !Hits(block, wanted, j)
      case None => forall j: nat :: !Hits(block, wanted, j)
  {
    hide LineField, ParseKey, ParseItemStart;
    var indent := FieldIndent(block);
    var lines := LineFields(block, indent, 1);
    FirstLineHit(block, indent, wanted, 1);
    NextIsFirst(block, indent, wanted, 1);
    var fields := DirectFields(block);
    forall j: nat ensures Hits(block, wanted, j) <==>
      (if j == 0 then InlineFields(block) != [] && wanted(InlineFields(block)[0].Content())
       else j < |block| && !LineMisses(block, indent, wanted, j))
    {
    }
    FindConcat(InlineFields(block), lines, wanted);
  }

  // ---- A line replaced in place ----

  // A field line starts with its key, right after its spaces.
  lemma FieldLineStart(line: string, indent: nat)
    requires LineField(line, indent).Some?
    ensures indent < |line| && IsKeyStart(line[indent]) && SpaceRun(line) == indent == LeadingSpaces(line)
    ensures line == Spaces(indent) + line[indent..]
    ensures !IsBlankLine(line) && !IsComment(line)
  {
    hide IsSpace, SpaceRun, LeadingSpaces, ParseKey, IsKeyStart;
    KeyBegins(line[indent..]);
    assert line[indent..][0] == line[indent];
    SpacesOf(line, indent);
    SpaceRunAt(line, indent);
  }

  lemma KeyBegins(text: string)
    ensures ParseKey(text).Some? ==> text != "" && IsKeyStart(text[0]) && !IsSpace(text[0]) && text[0] != '#'
    ensures IsSpace(' ')
  {
  }

  lemma SpacesOf(line: string, n: nat)
    requires n <= |line| && forall i | 0 <= i < n :: line[i] == ' '
    ensures line == Spaces(n) + line[n..]
  {
  }

  // The new line of an existing number keeps the column and is still a number field.
  lemma RewrittenField(line: string, indent: nat, n: nat)
    requires LineField(line, indent).Some? && LineField(line, indent).value.key == NUMBER && NumberLine(line).Some?
    ensures var rewritten := RewriteLine(line, n);
      && rewritten == Spaces(indent) + Rewritten(NumberLine(line).value, n)
      && LeadingSpaces(rewritten) == indent && !IsBlankLine(rewritten)
      && LineField(rewritten, indent).Some? && LineField(rewritten, indent).value.key == NUMBER
      && (Clean(NumberLine(line).value) <==>
            OneLine(rewritten) && ReadNumber(LineField(rewritten, indent).value.value) == Some(n))
  {
    FieldLineStart(line, indent);
    hide LineField, ParseKey, ReadNumber, NumberLine, SpaceRun, LeadingSpaces;
    var m := NumberLine(line).value;
    assert ParseValueLine(NUMBER, line[indent..]) == Some(m) by { NumberLineAt(line, indent); }
    NumberIsKey();
    RewrittenReadsBackIff(NUMBER, line[indent..], n);
    var ws := ValueLineParts(NUMBER, line[indent..]);
    var text := Rewritten(m, n);
    assert text[0] == 'i' by { assert m.head[0] == NUMBER[0]; }
    assert line[..indent] == Spaces(indent);
    SpacedField(indent, text);
    SpacesOneLine(indent, text);
  }

  lemma NumberIsKey()
    ensures NUMBER != "" && IsKeyStart(NUMBER[0]) && forall c | c in NUMBER :: IsKeyChar(c)
  {
  }

  lemma NumberLineAt(line: string, indent: nat)
    requires SpaceRun(line) == indent
    ensures NumberLine(line) == ParseValueLine(NUMBER, line[indent..])
  {
  }

  lemma SpacedField(indent: nat, text: string)
    requires text != "" && IsKeyStart(text[0])
    ensures var line := Spaces(indent) + text;
      && LeadingSpaces(line) == indent && SpaceRun(line) == indent && !IsBlankLine(line) && !IsComment(line)
      && LineField(line, indent) == ParseKey(text)
  {
    var line := Spaces(indent) + text;
    LeadingSpacesIs(indent, text);
    assert line[indent] == text[0] && line[indent..] == text;
    SpaceRunAt(line, indent);
  }

  lemma SpacesOneLine(indent: nat, text: string)
    ensures OneLine(Spaces(indent) + text) <==> OneLine(text)
  {
    var line := Spaces(indent) + text;
    if OneLine(text) {
      forall i | 0 <= i < |line| && line[i] == '\n' ensures i == |line| - 1 {
        assert i >= indent && text[i - indent] == '\n';
      }
    } else {
      var i :| 0 <= i < |text| && text[i] == '\n' && i != |text| - 1;
      assert line[indent + i] == '\n';
    }
  }

  lemma InsertedField(indent: nat, n: nat)
    ensures var line := InsertedLine(indent, n);
      && LeadingSpaces(line) == indent && !IsBlankLine(line) && OneLine(line)
      && LineField(line, indent) == Some(KeyValue(NUMBER, Decimal(n)))
      && ReadNumber(Decimal(n)) == Some(n)
  {
    hide LineField, LeadingSpaces, IsBlankLine, OneLine, ReadNumber, ParseKey, SpaceRun, IsKeyStart, IsKeyChar, IsSpace;
    NumberStarts(n);
    NumberIsKey();
    var text := NUMBER + ":" + " " + Decimal(n) + "\n";
    KeyLineReads(NUMBER, " ", Decimal(n));
    assert InsertedLine(indent, n) == Spaces(indent) + text;
    SpacedField(indent, text);
    NoNewlineIn(NUMBER, " ", Decimal(n));
    SpacesOneLine(indent, text);
    NumberReads(n, "");
    assert Decimal(n) + "" == Decimal(n);
  }

  lemma NumberStarts(n: nat)
    ensures Decimal(n) != "" && !IsSpace(Decimal(n)[0]) && '\n' !in Decimal(n) && '\n' !in NUMBER && Blank(" ")
  {
    DecimalDigits(n);
    assert IsDigit(Decimal(n)[0]);
  }

  lemma FirstTextSame(block: seq<string>, other: seq<string>, i: nat)
    requires i <= |block| <= |other| && FirstText(block, i) < |block|
    requires forall j | i <= j <= FirstText(block, i) :: IsBlankLine(other[j]) == IsBlankLine(block[j])
    ensures FirstText(other, i) == FirstText(block, i)
    decreases |block| - i
  {
    if IsBlankLine(block[i]) {
      FirstTextSame(block, other, i + 1);
    }
  }

  // Fields of an item stand deeper than its dash.
  lemma FieldsStandDeeper(block: seq<string>, k: nat)
    requires IsBlock(block) && 1 <= k < |block| && LineField(block[k], FieldIndent(block)).Some?
    ensures FieldIndent(block) > ParseItemStart(block[0]).value.indent
    ensures ParseKey(ParseItemStart(block[0]).value.inline).None? ==> FirstText(block, 1) <= k
  {
    FieldLineStart(block[k], FieldIndent(block));
    assert StaysInside(block[k], ParseItemStart(block[0]).value.indent);
  }

  // ---- The two ways to write a field ----

  // The item keeps its dash, its column and its ids.
  ghost predicate SameItem(yaml: Yaml, block: seq<string>, other: seq<string>)
    requires IsBlock(block)
  {
    && IsBlock(other) && ParseItemStart(other[0]).value.indent == ParseItemStart(block[0]).value.indent
    && forall id: string :: Carries(yaml, other, id) <==> Carries(yaml, block, id)
  }

  ghost predicate HasField(block: seq<string>, wanted: KeyValue -> bool)
    requires block != [] && ParseItemStart(block[0]).Some?
  {
    exists k: nat :: Hits(block, wanted, k)
  }

  lemma FoundIffHasField(block: seq<string>, wanted: KeyValue -> bool)
    requires block != [] && ParseItemStart(block[0]).Some?
    ensures FindField(DirectFields(block), wanted).Some? <==> HasField(block, wanted)
  {
    FirstHit(block, wanted);
  }

  // Replacing a number line.
  lemma ReplacedIndent(block: seq<string>, k: nat, n: nat)
    requires IsBlock(block) && 1 <= k < |block| && NumberLine(block[k]).Some?
    requires LineField(block[k], FieldIndent(block)).Some? && LineField(block[k], FieldIndent(block)).value.key == NUMBER
    ensures var other := block[k := RewriteLine(block[k], n)];
      FieldIndent(other) == FieldIndent(block) && IsBlock(other)
  {
    hide RewriteLine, InsertedLine, LineField, ParseKey, NumberLine, ParseItemStart, LeadingSpaces, IsBlankLine, IsComment, SpaceRun, Clean, OneLine, ReadNumber;
    var other := block[k := RewriteLine(block[k], n)];
    RewrittenField(block[k], FieldIndent(block), n);
    FieldLineStart(block[k], FieldIndent(block));
    FieldsStandDeeper(block, k);
    if ParseKey(ParseItemStart(block[0]).value.inline).None? {
      FirstTextSame(block, other, 1);
    }
  }

  lemma ReplacedHits(block: seq<string>, k: nat, n: nat, wanted: KeyValue -> bool, j: nat)
    requires IsBlock(block) && 1 <= k < |block| && NumberLine(block[k]).Some?
    requires LineField(block[k], FieldIndent(block)).Some? && LineField(block[k], FieldIndent(block)).value.key == NUMBER
    requires forall f: KeyValue | f.key == NUMBER :: wanted(f) == wanted(KeyValue(NUMBER, ""))
    ensures var other := block[k := RewriteLine(block[k], n)];
      IsBlock(other) && (Hits(other, wanted, j) <==> Hits(block, wanted, j))
  {
    hide RewriteLine, InsertedLine, LineField, ParseKey, NumberLine, ParseItemStart, FieldIndent, LeadingSpaces, IsBlankLine, SpaceRun, Clean,
      OneLine, ReadNumber;
    ReplacedIndent(block, k, n);
    RewrittenField(block[k], FieldIndent(block), n);
  }

  // Inserting a number line after an id.
  lemma InsertedIndent(block: seq<string>, i: nat, n: nat)
    requires IsBlock(block) && i < |block|
    requires i == 0 ==> ParseKey(ParseItemStart(block[0]).value.inline).Some?
    requires i > 0 ==> LineField(block[i], FieldIndent(block)).Some?
    ensures var other := block[..i + 1] + [InsertedLine(FieldIndent(block), n)] + block[i + 1..];
      FieldIndent(other) == FieldIndent(block) && IsBlock(other)
  {
    hide RewriteLine, InsertedLine, LineField, ParseKey, NumberLine, ParseItemStart, LeadingSpaces, IsBlankLine, IsComment, SpaceRun, Clean, OneLine, ReadNumber;
    var other := block[..i + 1] + [InsertedLine(FieldIndent(block), n)] + block[i + 1..];
    InsertedField(FieldIndent(block), n);
    if i > 0 {
      FieldsStandDeeper(block, i);
      FieldLineStart(block[i], FieldIndent(block));
    }
    if ParseKey(ParseItemStart(block[0]).value.inline).None? {
      FirstTextSame(block, other, 1);
    }
    forall j | 1 <= j < |other| ensures StaysInside(other[j], ParseItemStart(block[0]).value.indent) {
      if j > i + 1 {
        assert other[j] == block[j - 1];
      }
    }
  }

  lemma InsertedHits(block: seq<string>, i: nat, n: nat, wanted: KeyValue -> bool, j: nat)
    requires IsBlock(block) && i < |block|
    requires i == 0 ==> ParseKey(ParseItemStart(block[0]).value.inline).Some?
    requires i > 0 ==> LineField(block[i], FieldIndent(block)).Some?
    ensures var other := block[..i + 1] + [InsertedLine(FieldIndent(block), n)] + block[i + 1..];
      && IsBlock(other)
      && (j <= i ==> (Hits(other, wanted, j) <==> Hits(block, wanted, j)))
      && (j > i ==> (Hits(other, wanted, j + 1) <==> Hits(block, wanted, j)))
      && (Hits(other, wanted, i + 1) <==> wanted(KeyValue(NUMBER, Decimal(n))))
  {
    hide RewriteLine, InsertedLine, LineField, ParseKey, NumberLine, ParseItemStart, FieldIndent, LeadingSpaces, IsBlankLine, SpaceRun, Clean,
      OneLine, ReadNumber;
    InsertedIndent(block, i, n);
    InsertedField(FieldIndent(block), n);
    var other := block[..i + 1] + [InsertedLine(FieldIndent(block), n)] + block[i + 1..];
    assert other[i + 1] == InsertedLine(FieldIndent(block), n);
    assert j > i && j < |block| ==> other[j + 1] == block[j];
  }

  // ---- A flow item rewritten ----

  lemma {:induction false} PieceChars(inner: string, start: nat, i: nat, part: string, c: char)
    requires start <= i <= |inner| && part in Pieces(inner, start, i) && c in part
    ensures c in inner
    decreases |inner| - i
  {
    hide SplitPoint;
    if i < |inner| {
      if SplitPoint(inner, i) {
        var rest := Pieces(inner, i + 1, i + 1);
        assert Pieces(inner, start, i) == [inner[start..i]] + rest;
        if part in rest {
          PieceChars(inner, i + 1, i + 1, part, c);
        }
      } else {
        PieceChars(inner, start, i + 1, part, c);
      }
    }
  }

  lemma SegmentChars(inner: string, c: char)
    requires c !in inner
    ensures forall s | s in Segments(inner) :: c !in s
  {
    var pieces := Pieces(inner, 0, 0);
    forall s | s in Segments(inner) ensures c !in s {
      assert s in pieces;
      if c in s {
        PieceChars(inner, 0, 0, s, c);
      }
    }
  }

  lemma {:induction false} CommasChars(parts: seq<string>, c: char)
    requires c != ',' && forall s | s in parts :: c !in s
    ensures c !in Commas(parts)
  {
    if parts != [] {
      assert parts[0] in parts;
      if |parts| > 1 {
        CommasChars(parts[1..], c);
      }
    }
  }

  lemma {:induction false} ReplacedChars(yaml: Yaml, segments: seq<string>, n: nat)
    requires forall s | s in segments :: '\n' !in s
    ensures forall s | s in Replaced(yaml, segments, n) :: '\n' !in s
  {
    hide IsNumberEntry;
    if segments != [] {
      var k := |segments| - 1;
      ReplacedChars(yaml, segments[..k], n);
      NumberStarts(n);
      assert segments[k] in segments;
    }
  }

  lemma WithNumberChars(yaml: Yaml, inner: string, n: nat)
    requires '\n' !in inner
    ensures '\n' !in Commas(WithNumber(yaml, Segments(inner), n))
  {
    SegmentChars(inner, '\n');
    ReplacedChars(yaml, Segments(inner), n);
    NumberStarts(n);
    CommasChars(WithNumber(yaml, Segments(inner), n), '\n');
  }

  // The dash and the brace stand where they stand in the opening.
  lemma OpeningRuns(head: string, line: string)
    requires FlowOpen(head) == Some(|head| - 1) && head <= line
    ensures var w := SpaceRun(head);
      var g := SpaceRun(head[w + 1..]);
      && |head| == w + g + 2 && head[|head| - 1] == '{' && line[w] == '-'
      && SpaceRun(line) == w && SpaceRun(line[w + 1..]) == g
  {
    hide IsSpace, SpaceRun;
    var w := SpaceRun(head);
    assert w < |head| && head[w] == '-';
    SpaceRunPrefix(head, line);
    assert head[w + 1..] <= line[w + 1..];
    SpaceRunPrefix(head[w + 1..], line[w + 1..]);
  }

  // How a line that opens a flow mapping reads as a list item.
  lemma FlowStart(head: string, rest: string, newline: string)
    requires FlowOpen(head) == Some(|head| - 1) && '\n' !in rest && newline in ["", "\n"]
    ensures var start := ParseItemStart(head + rest + newline);
      && start.Some? && start.value.indent == SpaceRun(head) && start.value.gap == SpaceRun(head[SpaceRun(head) + 1..])
      && start.value.inline == "{" + rest
  {
    hide SpaceRun, FlowOpen, WithoutFinalNewline, ParseItemStart;
    BehindOpening(head, rest, newline);
    OpensWithBrace(head);
    NewlineInFlow(rest);
    WithoutAdded("{" + rest, newline);
    FlowStartIs(head, head + rest + newline, "{" + rest);
  }

  lemma OpensWithBrace(head: string)
    ensures FlowOpen(head) == Some(|head| - 1) ==> head != "" && head[|head| - 1] == '{'
  {
  }

  lemma FlowStartIs(head: string, line: string, inline: string)
    requires FlowOpen(head) == Some(|head| - 1) && head != "" && head <= line
    requires WithoutFinalNewline(line[|head| - 1..]) == inline && '\n' !in inline
    ensures SpaceRun(head) < |head|
    ensures ParseItemStart(line) == Some(ItemStart(SpaceRun(head), SpaceRun(head[SpaceRun(head) + 1..]), inline))
  {
    hide SpaceRun, FlowOpen, WithoutFinalNewline, ParseItemStart;
    OpeningRuns(head, line);
    var w := SpaceRun(head);
    ItemStartIs(line, w, SpaceRun(head[w + 1..]), |head| - 1, inline);
  }

  lemma BehindOpening(head: string, rest: string, newline: string)
    ensures head <= head + rest + newline
    ensures head != "" && head[|head| - 1] == '{' ==> (head + rest + newline)[|head| - 1..] == "{" + rest + newline
  {
  }

  lemma NewlineInFlow(rest: string)
    requires '\n' !in rest
    ensures '\n' !in "{" + rest
  {
  }

  lemma ItemStartIs(line: string, w: nat, g: nat, k: nat, inline: string)
    requires w < |line| && SpaceRun(line) == w && line[w] == '-' && SpaceRun(line[w + 1..]) == g
    requires w + 1 + g == k <= |line| && WithoutFinalNewline(line[k..]) == inline && '\n' !in inline
    ensures ParseItemStart(line) == Some(ItemStart(w, g, inline))
  {
    hide SpaceRun, WithoutFinalNewline;
  }

  lemma WithoutAdded(body: string, newline: string)
    requires '\n' !in body && newline in ["", "\n"]
    ensures WithoutFinalNewline(body + newline) == body
  {
    if newline == "" {
      assert body + newline == body;
      assert body != "" ==> body[|body| - 1] in body;
    } else {
      assert (body + newline)[..|body|] == body;
    }
  }

  lemma NoNewlineInside(line: string)
    requires ParseFlow(line).Some? && OneLine(line)
    ensures var flow := ParseFlow(line).value;
      && '\n' !in flow.inner && '\n' !in flow.trailing && FlowOpen(flow.open + "{") == Some(|flow.open|)
      && flow.newline in ["", "\n"] && line == flow.open + "{" + (flow.inner + "}" + flow.trailing) + flow.newline
  {
    hide ParseFlow, FlowOpen, OneLine, WithoutFinalNewline;
    var flow := ParseFlow(line).value;
    var body := FlowParts(line);
    assert body[..|flow.open| + 1] == flow.open + "{";
    OpenSame(body, flow.open + "{");
    BodyHasNoNewline(line);
    PartsHaveNoNewline(flow.open + "{", flow.inner, "}" + flow.trailing);
    PartsHaveNoNewline(flow.open + "{" + flow.inner + "}", flow.trailing, "");
    assert flow.open + "{" + flow.inner + ("}" + flow.trailing) == body;
    assert flow.open + "{" + flow.inner + "}" + flow.trailing + "" == body;
  }

  lemma PartsHaveNoNewline(a: string, b: string, c: string)
    ensures '\n' !in a + b + c ==> '\n' !in b
  {
    if i :| 0 <= i < |b| && b[i] == '\n' {
      assert (a + b + c)[|a| + i] == '\n';
    }
  }

  lemma BodyHasNoNewline(line: string)
    requires OneLine(line)
    ensures '\n' !in WithoutFinalNewline(line)
  {
  }

  lemma BraceIsNoKey(rest: string)
    ensures ParseKey("{" + rest).None?
  {
  }

  // A written flow item is one line and the same item, and has no inline field.
  lemma WrittenFlowStart(yaml: Yaml, line: string, id: string, n: nat)
    requires WriteFlow(yaml, line, id, n).Some? && OneLine(line) && ParseItemStart(line).Some?
    ensures var written := WriteFlow(yaml, line, id, n).value;
      && OneLine(written) && ParseItemStart(written).Some?
      && ParseItemStart(written).value.indent == ParseItemStart(line).value.indent
      && ParseItemStart(written).value.gap == ParseItemStart(line).value.gap
      && ParseKey(ParseItemStart(written).value.inline).None? && ParseKey(ParseItemStart(line).value.inline).None?
  {
    hide ParseFlow, FlowOpen, ParseItemStart, ParseKey, Segments, WithNumber, Commas, SpaceRun;
    var flow := ParseFlow(line).value;
    NoNewlineInside(line);
    var inner := Commas(WithNumber(yaml, Segments(flow.inner), n));
    WithNumberChars(yaml, flow.inner, n);
    var head := flow.open + "{";
    var before, after := flow.inner + "}" + flow.trailing, inner + "}" + flow.trailing;
    FlowStart(head, before, flow.newline);
    FlowStart(head, after, flow.newline);
    var written := WriteFlow(yaml, line, id, n).value;
    assert written == head + after + flow.newline;
    BraceIsNoKey(before);
    BraceIsNoKey(after);
    OneLineOf(line, head, before, after, flow.newline);
  }

  lemma OneLineOf(line: string, head: string, before: string, after: string, newline: string)
    requires OneLine(line) && line == head + before + newline && before != "" && '\n' !in after && newline in ["", "\n"]
    ensures OneLine(head + after + newline)
  {
    var other := head + after + newline;
    forall i | 0 <= i < |head| ensures head[i] != '\n' {
      assert line[i] == head[i];
    }
    forall i | 0 <= i < |other| - |newline| ensures other[i] != '\n' {
      assert i >= |head| ==> other[i] == after[i - |head|] && after[i - |head|] in after;
    }
  }

  // ---- What a write keeps ----

  // The value of a text line lookup is by content, so a number is never an id.
  lemma NumberIsNoId(yaml: Yaml, id: string, f: KeyValue)
    requires f.key == NUMBER
    ensures !IsId(yaml, id)(f) && IsNumber()(f)
  {
    assert NUMBER[1] == 's' && "id"[1] == 'd';
  }

  lemma FlowBlockIndent(yaml: Yaml, block: seq<string>, id: string, n: nat)
    requires IsBlock(block) && OneLine(block[0]) && WriteFlow(yaml, block[0], id, n).Some?
    ensures var other := block[0 := WriteFlow(yaml, block[0], id, n).value];
      && IsBlock(other) && FieldIndent(other) == FieldIndent(block)
      && ParseItemStart(other[0]).value.indent == ParseItemStart(block[0]).value.indent
      && forall wanted: KeyValue -> bool, j: nat :: Hits(other, wanted, j) <==> Hits(block, wanted, j)
  {
    hide WriteFlow, ParseItemStart, ParseKey, LineField, LeadingSpaces, IsBlankLine, SpaceRun;
    WrittenFlowStart(yaml, block[0], id, n);
    var other := block[0 := WriteFlow(yaml, block[0], id, n).value];
    if FirstText(block, 1) < |block| {
      FirstTextSame(block, other, 1);
    } else {
      NoTextSame(block, other, 1);
    }
  }

  lemma NoTextSame(block: seq<string>, other: seq<string>, i: nat)
    requires i <= |block| == |other| && FirstText(block, i) == |block|
    requires forall j | i <= j < |block| :: other[j] == block[j]
    ensures FirstText(other, i) == |other|
    decreases |block| - i
  {
    if i < |block| {
      NoTextSame(block, other, i + 1);
    }
  }

  // One line changed in place, or one line inserted.
  ghost predicate OneLineChanged(lines: seq<string>, other: seq<string>) {
    || (|other| == |lines| && exists k: nat :: k < |lines| && other == lines[k := other[k]])
    || (|other| == |lines| + 1 && exists k: nat :: k <= |lines| && other == lines[..k] + [other[k]] + lines[k..])
  }

  // The line of the item's number, if it has one.
  function NumberIndex(block: seq<string>): Option<nat>
    requires block != [] && ParseItemStart(block[0]).Some?
  {
    match FindField(DirectFields(block), IsNumber())
    case None => None
    case Some(f) => Some(f.index)
  }

  // The existing number stands on a line of its own and can be rewritten there.
  predicate NumberRewritable(block: seq<string>)
    requires block != [] && ParseItemStart(block[0]).Some?
  {
    var k := NumberIndex(block);
    k.Some? && k.value < |block| ==> NumberLine(block[k.value]).Some?
  }

  /** What an item that carries the id must look like for its number to be written: a flow
      mapping that names it and keeps the number, or fields in which an existing number has
      its own line, with its value on that line and no comment glued to it. */
  ghost predicate CleanTarget(yaml: Yaml, block: seq<string>, id: string, n: nat)
    requires block != [] && ParseItemStart(block[0]).Some?
  {
    if ParseFlow(block[0]).Some? then NamedByFlow(yaml, block[0], id) && FlowStays(yaml, Inside(block[0]), n)
    else
      var k := NumberIndex(block);
      k.Some? && k.value < |block| ==> NumberLine(block[k.value]).Some? && Clean(NumberLine(block[k.value]).value)
  }

  lemma WritesByFlow(yaml: Yaml, line: string, id: string, n: nat)
    ensures WriteFlow(yaml, line, id, n).Some? <==> NamedByFlow(yaml, line, id)
  {
    hide ParseFlow, FlowId;
  }

  /** A write is refused for its number exactly when the item carries the id in its fields
      and its existing number does not stand on a line of its own. */
  lemma UnwritableIff(yaml: Yaml, block: seq<string>, id: string, n: nat)
    requires block != [] && ParseItemStart(block[0]).Some?
    ensures WriteBlock(yaml, block, id, n).OtherBlock? <==> !Carries(yaml, block, id)
    ensures WriteBlock(yaml, block, id, n).Unwritable? <==>
      Carries(yaml, block, id) && !NamedByFlow(yaml, block[0], id) && !NumberRewritable(block)
  {
    hide DirectFields, ParseItemStart, WriteFlow, NamedByFlow, NumberLine, FindField, RewriteLine, InsertedLine, FieldIndent;
    WritesByFlow(yaml, block[0], id, n);
    var existing := FindField(DirectFields(block), IsNumber());
    if existing.Some? {
      FieldInside(block, existing.value);
    }
  }

  lemma CleanIsRewritable(yaml: Yaml, block: seq<string>, id: string, n: nat)
    requires block != [] && ParseItemStart(block[0]).Some? && CleanTarget(yaml, block, id, n)
    ensures NamedByFlow(yaml, block[0], id) || (ParseFlow(block[0]).None? && NumberRewritable(block))
  {
  }

  lemma CarriesByHits(yaml: Yaml, block: seq<string>, other: seq<string>, id: string)
    requires IsBlock(block) && IsBlock(other)
    requires NamedByFlow(yaml, other[0], id) <==> NamedByFlow(yaml, block[0], id)
    requires HasField(other, IsId(yaml, id)) <==> HasField(block, IsId(yaml, id))
    ensures Carries(yaml, other, id) <==> Carries(yaml, block, id)
  {
    hide NamedByFlow, DirectFields, HasField, FindField;
    FoundIffHasField(block, IsId(yaml, id));
    FoundIffHasField(other, IsId(yaml, id));
  }

  // The flow case.
  lemma FlowWriteShape(yaml: Yaml, block: seq<string>, id: string, n: nat)
    requires yaml.Lawful() && IsBlock(block) && OneLine(block[0]) && NeatFlow(block[0]) && ReadableFlow(yaml, block[0])
    requires WriteFlow(yaml, block[0], id, n).Some?
    ensures var other := block[0 := WriteFlow(yaml, block[0], id, n).value];
      && IsBlock(other) && ParseItemStart(other[0]).value.indent == ParseItemStart(block[0]).value.indent && OneLine(other[0])
      && (CleanTarget(yaml, block, id, n) <==> NumberOf(yaml, other, id) == Some(n))
  {
    hide WriteFlow, ParseItemStart, LineField, Hits, FlowStays, Segments, FlowId, FlowNumber, ParseFlow, NeatFlow, DirectFields,
      Yaml.Lawful, ReadableFlow, OneLine;
    WrittenFlowStart(yaml, block[0], id, n);
    FlowBlockIndent(yaml, block, id, n);
    FlowWriteReads(yaml, block[0], id, n);
    WritesByFlow(yaml, block[0], id, n);
  }

  lemma FlowWriteKeeps(yaml: Yaml, block: seq<string>, id: string, n: nat)
    requires yaml.Lawful() && IsBlock(block) && OneLine(block[0]) && NeatFlow(block[0]) && ReadableFlow(yaml, block[0])
    requires WriteFlow(yaml, block[0], id, n).Some? && CleanTarget(yaml, block, id, n)
    ensures SameItem(yaml, block, block[0 := WriteFlow(yaml, block[0], id, n).value])
  {
    hide WriteFlow, ParseItemStart, LineField, Hits, FlowStays, Segments, FlowId, FlowNumber, ParseFlow, NeatFlow, DirectFields,
      Yaml.Lawful, ReadableFlow, OneLine;
    var other := block[0 := WriteFlow(yaml, block[0], id, n).value];
    FlowBlockIndent(yaml, block, id, n);
    FlowWriteReads(yaml, block[0], id, n);
    WritesByFlow(yaml, block[0], id, n);
    forall x ensures Carries(yaml, other, x) <==> Carries(yaml, block, x) {
      SameId(yaml, Inside(block[0]), Inside(other[0]), n);
      CarriesByHits(yaml, block, other, x);
    }
  }

  lemma SameId(yaml: Yaml, inner: string, after: string, n: nat)
    requires yaml.mapping(inner).Some? && yaml.mapping(after) == Some(yaml.mapping(inner).value[NUMBER := Number(n)])
    ensures FlowId(yaml, after) == FlowId(yaml, inner)
  {
    assert NUMBER[1] == 's' && "id"[1] == 'd';
  }

  // The case of an existing number line.
  lemma ReplaceKeeps(yaml: Yaml, block: seq<string>, k: nat, n: nat, id: string)
    requires IsBlock(block) && 1 <= k < |block| && NumberLine(block[k]).Some?
    requires LineField(block[k], FieldIndent(block)).Some? && LineField(block[k], FieldIndent(block)).value.key == NUMBER
    requires forall j: nat | j < k :: !Hits(block, IsNumber(), j)
    requires !NamedByFlow(yaml, block[0], id)
    ensures var other := block[k := RewriteLine(block[k], n)];
      && SameItem(yaml, block, other)
      && (ParseFlow(block[0]).None? && Clean(NumberLine(block[k]).value) <==> NumberOf(yaml, other, id) == Some(n) && OneLine(other[k]))
  {
    hide ParseItemStart, LineField, ReadNumber, RewriteLine, NumberLine, Clean, ParseFlow, FlowId, OneLine, FieldIndent, DirectFields;
    var other := block[k := RewriteLine(block[k], n)];
    var indent := FieldIndent(block);
    ReplacedIndent(block, k, n);
    RewrittenField(block[k], indent, n);
    forall x ensures Carries(yaml, other, x) <==> Carries(yaml, block, x) {
      forall f: KeyValue | f.key == NUMBER ensures IsId(yaml, x)(f) == IsId(yaml, x)(KeyValue(NUMBER, "")) {
        NumberIsNoId(yaml, x, f);
        NumberIsNoId(yaml, x, KeyValue(NUMBER, ""));
      }
      forall j: nat ensures Hits(other, IsId(yaml, x), j) <==> Hits(block, IsId(yaml, x), j) {
        ReplacedHits(block, k, n, IsId(yaml, x), j);
      }
      CarriesByHits(yaml, block, other, x);
    }
    forall j: nat ensures Hits(other, IsNumber(), j) <==> Hits(block, IsNumber(), j) {
      ReplacedHits(block, k, n, IsNumber(), j);
    }
    NumberIsNoId(yaml, id, LineField(other[k], indent).value);
    assert Hits(other, IsNumber(), k);
    FirstHit(other, IsNumber());
  }

  // The case of an inserted line.
  lemma InsertKeeps(yaml: Yaml, block: seq<string>, i: nat, n: nat, id: string)
    requires IsBlock(block) && i < |block|
    requires i == 0 ==> ParseKey(ParseItemStart(block[0]).value.inline).Some?
    requires i > 0 ==> LineField(block[i], FieldIndent(block)).Some?
    requires forall j: nat :: !Hits(block, IsNumber(), j)
    requires !NamedByFlow(yaml, block[0], id)
    ensures var other := block[..i + 1] + [InsertedLine(FieldIndent(block), n)] + block[i + 1..];
      && SameItem(yaml, block, other) && OneLine(other[i + 1])
      && (NumberOf(yaml, other, id) == Some(n) <==> ParseFlow(block[0]).None?)
  {
    hide ParseItemStart, LineField, ReadNumber, InsertedLine, ParseFlow, FlowId, OneLine, FieldIndent, DirectFields, ParseKey;
    var other := block[..i + 1] + [InsertedLine(FieldIndent(block), n)] + block[i + 1..];
    InsertedIndent(block, i, n);
    InsertedField(FieldIndent(block), n);
    var number := KeyValue(NUMBER, Decimal(n));
    forall x ensures Carries(yaml, other, x) <==> Carries(yaml, block, x) {
      NumberIsNoId(yaml, x, number);
      forall j: nat ensures Hits(other, IsId(yaml, x), if j <= i then j else j + 1) <==> Hits(block, IsId(yaml, x), j) {
        InsertedHits(block, i, n, IsId(yaml, x), j);
      }
      InsertedHits(block, i, n, IsId(yaml, x), i);
      SameFieldPresence(block, other, i, IsId(yaml, x));
      CarriesByHits(yaml, block, other, x);
    }
    NumberIsNoId(yaml, id, number);
    forall j: nat | j <= i ensures !Hits(other, IsNumber(), j) {
      InsertedHits(block, i, n, IsNumber(), j);
    }
    InsertedHits(block, i, n, IsNumber(), i);
    FirstHit(other, IsNumber());
    assert other[i + 1] == InsertedLine(FieldIndent(block), n);
  }

  lemma SameFieldPresence(block: seq<string>, other: seq<string>, i: nat, wanted: KeyValue -> bool)
    requires block != [] && ParseItemStart(block[0]).Some? && other != [] && ParseItemStart(other[0]).Some?
    requires forall j: nat :: Hits(other, wanted, if j <= i then j else j + 1) <==> Hits(block, wanted, j)
    requires !Hits(other, wanted, i + 1)
    ensures HasField(other, wanted) <==> HasField(block, wanted)
  {
    hide Hits, ParseItemStart;
    if k: nat :| Hits(other, wanted, k) {
      assert Hits(block, wanted, if k <= i then k else k - 1);
    }
    if j: nat :| Hits(block, wanted, j) {
      assert Hits(other, wanted, if j <= i then j else j + 1);
    }
  }

  /** Writing a number changes or inserts exactly one line of the item, which keeps its place;
      the number reads back, every line being one line, exactly when the item is clean, and
      then the item keeps its ids. */
  lemma BlockWriteReads(yaml: Yaml, block: seq<string>, id: string, n: nat)
    requires yaml.Lawful() && IsBlock(block) && NeatFlow(block[0]) && ReadableFlow(yaml, block[0]) && (forall x | x in block :: OneLine(x))
    requires WriteBlock(yaml, block, id, n).Written?
    ensures var other := WriteBlock(yaml, block, id, n).lines;
      && OneLineChanged(block, other)
      && IsBlock(other) && ParseItemStart(other[0]).value.indent == ParseItemStart(block[0]).value.indent
      && (CleanTarget(yaml, block, id, n) <==> NumberOf(yaml, other, id) == Some(n) && forall x | x in other :: OneLine(x))
      && (CleanTarget(yaml, block, id, n) ==> SameItem(yaml, block, other))
  {
    hide ParseItemStart, LineField, ReadNumber, RewriteLine, NumberLine, Clean, ParseFlow, FlowId, OneLine, FieldIndent, DirectFields,
      InsertedLine, ParseKey, NeatFlow, Hits, Carries, NumberOf, IsBlock, WriteFlow, NamedByFlow, Yaml.Lawful, ReadableFlow, FlowStays;
    BlockStart(block);
    ItemLineHasNoNumber(block[0]);
    WritesByFlow(yaml, block[0], id, n);
    var other := WriteBlock(yaml, block, id, n).lines;
    if WriteFlow(yaml, block[0], id, n).Some? {
      FlowWriteShape(yaml, block, id, n);
      if CleanTarget(yaml, block, id, n) {
        FlowWriteKeeps(yaml, block, id, n);
      }
      assert other == block[0 := other[0]];
      OthersOneLine(block, other, 0);
    } else {
      FirstHit(block, IsId(yaml, id));
      FirstHit(block, IsNumber());
      var f := FindField(DirectFields(block), IsId(yaml, id)).value;
      var existing := FindField(DirectFields(block), IsNumber());
      if existing.Some? {
        var k := existing.value.index;
        ReplaceKeeps(yaml, block, k, n, id);
        assert other == block[k := other[k]];
        OthersOneLine(block, other, k);
      } else {
        InsertKeeps(yaml, block, f.index, n, id);
        var i := f.index + 1;
        assert other == block[..i] + [other[i]] + block[i..];
        InsertedOneLine(block, other, i);
      }
    }
  }

  lemma OthersOneLine(block: seq<string>, other: seq<string>, k: nat)
    requires k < |block| && (forall x | x in block :: OneLine(x)) && |other| == |block| && other == block[k := other[k]]
    ensures (forall x | x in other :: OneLine(x)) <==> OneLine(other[k])
  {
    hide OneLine;
    assert forall j | 0 <= j < |other| && j != k :: other[j] == block[j] && block[j] in block;
    assert other[k] in other;
  }

  lemma InsertedOneLine(block: seq<string>, other: seq<string>, i: nat)
    requires i <= |block| && (forall x | x in block :: OneLine(x)) && |other| == |block| + 1
    requires other == block[..i] + [other[i]] + block[i..] && OneLine(other[i])
    ensures forall x | x in other :: OneLine(x)
  {
    hide OneLine;
    forall x | x in other ensures OneLine(x) {
      var j :| 0 <= j < |other| && other[j] == x;
      assert j < i ==> other[j] == block[j] && block[j] in block;
      assert j > i ==> other[j] == block[j - 1] && block[j - 1] in block;
    }
  }

  lemma BlockStart(block: seq<string>)
    requires IsBlock(block)
    ensures block != [] && ParseItemStart(block[0]).Some?
  {
  }

  // A number on the first line of an item does not stand on a line of its own.
  lemma ItemLineHasNoNumber(line: string)
    requires ParseItemStart(line).Some?
    ensures NumberLine(line).None?
  {
    var text := line[SpaceRun(line)..];
    assert text[0] == '-' && NUMBER[0] == 'i' && (NUMBER + ":")[0] == 'i';
  }
}
