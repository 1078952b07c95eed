/** Where the items of a plan end, said over characters, and the lines that change nothing:
    blank lines and comments may stand anywhere behind the first line of an item. */
module PlanItems {
  import opened Wrappers
  import opened Whitespace
  import opened BranchNaming
  import opened PlanLines
  import opened PlanFlow
  import opened PlanBlocks
  import opened PlanRegions
  import opened PlanBounds
  import opened PlanWriter
  import opened PlanUpdates

  // ---- Lines, character by character ----

  // The first character that is no white space.
  predicate TextBegins(line: string, k: nat) {
    k < |line| && !IsSpace(line[k]) && forall j | 0 <= j < k :: IsSpace(line[j])
  }

  // White space alone, or a comment behind white space.
  predicate Idle(line: string) {
    forall k | 0 <= k < |line| && TextBegins(line, k) :: line[k] == '#'
  }

  // A character other than a blank stands in this column or in front of it.
  predicate WithinColumn(line: string, column: nat) {
    exists k :: 0 <= k <= column && k < |line| && line[k] != ' '
  }

  lemma TextBeginsAt(line: string, k: nat)
    ensures TextBegins(line, k) <==> k < |line| && SpaceRun(line) == k
  {
    if TextBegins(line, k) {
      SpaceRunAt(line, k);
    }
  }

  lemma IdleIff(line: string)
    ensures Idle(line) <==> IsBlankLine(line) || IsComment(line)
  {
    hide TextBegins;
    TextBeginsAt(line, SpaceRun(line));
    forall k: nat ensures TextBegins(line, k) <==> k < |line| && SpaceRun(line) == k {
      TextBeginsAt(line, k);
    }
  }

  /** A line ends an item exactly when it is neither blank nor a comment and begins no deeper
      than the dash of the item. */
  lemma StaysInsideIff(line: string, dash: nat)
    ensures StaysInside(line, dash) <==> Idle(line) || !WithinColumn(line, dash)
  {
    hide Idle;
    IdleIff(line);
    var n := LeadingSpaces(line);
    if n < |line| {
      assert line[n] != ' ';
    } else {
      assert Blank(line);
      SpaceRunIs(line, "");
      assert line + "" == line;
    }
  }

  /** A line in the list ends it exactly when it begins in the first column and is neither
      blank, a comment nor a further item. */
  lemma EndsListIff(line: string)
    requires OneLine(line)
    ensures EndsList(line) <==> !Idle(line) && WithinColumn(line, 0) && line[0] != '-'
  {
    hide Idle, IsSpace;
    IdleIff(line);
    if line != "" && line[0] == '-' {
      DashIsNoSpace();
      DashStartsItem(line);
    }
  }

  lemma DashStartsItem(line: string)
    requires OneLine(line) && line != "" && line[0] == '-'
    ensures ParseItemStart(line).Some? && ParseItemStart(line).value.indent == 0
  {
  }

  // ---- Where an item ends ----

  // The line begins an item whose dash stands in this column.
  predicate DashAt(line: string, dash: nat) {
    TextBegins(line, dash) && line[dash] == '-'
  }

  lemma ItemStartsAt(line: string, dash: nat)
    requires ParseItemStart(line).Some?
    ensures ParseItemStart(line).value.indent == dash <==> DashAt(line, dash)
  {
    hide TextBegins;
    TextBeginsAt(line, dash);
    TextBeginsAt(line, SpaceRun(line));
  }

  // The first n lines are one item: nothing ends it before, and what follows does.
  ghost predicate OneItem(region: seq<string>, dash: nat, n: nat) {
    && 1 <= n <= |region| && DashAt(region[0], dash)
    && (forall i | 1 <= i < n :: Idle(region[i]) || !WithinColumn(region[i], dash))
    && (n < |region| ==> !Idle(region[n]) && WithinColumn(region[n], dash))
  }

  /** An item runs exactly up to the next line that is neither blank nor a comment and begins
      no deeper than its dash. */
  lemma ItemEndsIff(region: seq<string>, dash: nat, n: nat)
    requires StartsItem(region)
    ensures DashAt(region[0], dash) ==> (n == BlockLength(region) <==> OneItem(region, dash, n))
  {
    hide ParseItemStart, StaysInside, Idle, WithinColumn, TextBegins, DashAt;
    if DashAt(region[0], dash) {
      ItemStartsAt(region[0], dash);
      var k := BlockLength(region);
      var run := InsideRun(region[1..], dash);
      forall i | 1 <= i < |region| ensures StaysInside(region[i], dash) <==> Idle(region[i]) || !WithinColumn(region[i], dash) {
        StaysInsideIff(region[i], dash);
      }
      assert k == 1 + run;
      assert forall i | 1 <= i < k :: region[i] == region[1..][i - 1];
      assert k < |region| ==> region[k] == region[1..][run];
      assert OneItem(region, dash, k);
      assert forall i | 1 <= i < k :: StaysInside(region[i], dash);
      assert k < |region| ==> !StaysInside(region[k], dash);
    }
  }

  // ---- The fields of an item with one more idle line ----

  function MovedField(f: Field, p: nat): Field {
    if f.index < p then f else f.(index := f.index + 1)
  }

  function MovedFields(fields: seq<Field>, p: nat): (r: seq<Field>)
    ensures |r| == |fields| && forall i | 0 <= i < |r| :: r[i] == MovedField(fields[i], p)
  {
    seq(|fields|, i requires 0 <= i < |fields| => MovedField(fields[i], p))
  }

  lemma MovedConcat(a: seq<Field>, b: seq<Field>, p: nat)
    ensures MovedFields(a + b, p) == MovedFields(a, p) + MovedFields(b, p)
  {
  }

  lemma IdleIsNoField(line: string, indent: nat)
    requires Idle(line)
    ensures LineField(line, indent).None?
  {
    IdleIff(line);
    if !IsBlankLine(line) && LeadingSpaces(line) == indent {
      HashIsNoKey(line, indent);
    }
  }

  lemma HashIsNoKey(line: string, indent: nat)
    requires IsComment(line) && LeadingSpaces(line) == indent
    ensures indent < |line| && ParseKey(line[indent..]).None?
  {
    var k := SpaceRun(line);
    assert line[k] == '#' && indent <= k;
    NoKeyAt(line[indent..]);
    assert line[indent..][0] == line[indent];
  }

  lemma NoKeyAt(text: string)
    ensures text != "" && (IsSpace(text[0]) || text[0] == '#') ==> ParseKey(text).None?
  {
  }

  lemma LineFieldsStep(block: seq<string>, indent: nat, i: nat)
    requires i < |block|
    ensures LineFields(block, indent, i) == FieldsOf(block[i], indent, i) + LineFields(block, indent, i + 1)
  {
    hide LineField;
  }

  // The field of one line, if it holds one.
  function FieldsOf(line: string, indent: nat, i: nat): seq<Field> {
    var field := LineField(line, indent);
    if field.Some? then [Field(i, field.value.key, field.value.value)] else []
  }

  lemma {:induction false} LineFieldsBehind(block: seq<string>, indent: nat, i: nat, p: nat, x: string)
    requires p <= i <= |block|
    ensures |Inserted(block, p, x)| == |block| + 1
    ensures LineFields(Inserted(block, p, x), indent, i + 1) == MovedFields(LineFields(block, indent, i), p)
    decreases |block| - i
  {
    hide LineField, Inserted, LineFields;
    InsertedAt(block, p, x);
    if i < |block| {
      LineFieldsBehind(block, indent, i + 1, p, x);
      LineFieldsStep(block, indent, i);
      LineFieldsStep(Inserted(block, p, x), indent, i + 1);
      MovedConcat(FieldsOf(block[i], indent, i), LineFields(block, indent, i + 1), p);
      assert MovedFields(FieldsOf(block[i], indent, i), p) == FieldsOf(block[i], indent, i + 1);
    } else {
      NoLineFields(block, indent);
      NoLineFields(Inserted(block, p, x), indent);
    }
  }

  lemma NoLineFields(block: seq<string>, indent: nat)
    ensures LineFields(block, indent, |block|) == []
  {
  }

  lemma {:induction false} LineFieldsMoved(block: seq<string>, indent: nat, i: nat, p: nat, x: string)
    requires i <= p <= |block| && LineField(x, indent).None?
    ensures |Inserted(block, p, x)| == |block| + 1
    ensures LineFields(Inserted(block, p, x), indent, i) == MovedFields(LineFields(block, indent, i), p)
    decreases p - i
  {
    hide LineField, Inserted, LineFields;
    InsertedAt(block, p, x);
    LineFieldsStep(Inserted(block, p, x), indent, i);
    if i < p {
      LineFieldsMoved(block, indent, i + 1, p, x);
      LineFieldsStep(block, indent, i);
      MovedConcat(FieldsOf(block[i], indent, i), LineFields(block, indent, i + 1), p);
      assert MovedFields(FieldsOf(block[i], indent, i), p) == FieldsOf(block[i], indent, i);
    } else {
      LineFieldsBehind(block, indent, p, p, x);
      assert FieldsOf(x, indent, p) == [];
    }
  }

  // A comment right behind a dash that carries no key gives the item its column.
  predicate SetsColumn(block: seq<string>, p: nat, x: string)
    requires block != [] && ParseItemStart(block[0]).Some? && p <= |block|
  {
    && ParseKey(ParseItemStart(block[0]).value.inline).None?
    && !IsBlankLine(x) && (forall i | 1 <= i < p :: IsBlankLine(block[i])) && LeadingSpaces(x) != FieldIndent(block)
  }

  lemma {:induction false} FirstTextIs(block: seq<string>, i: nat, k: nat)
    requires i <= k <= |block| && (forall j | i <= j < k :: IsBlankLine(block[j])) && (k < |block| ==> !IsBlankLine(block[k]))
    ensures FirstText(block, i) == k
    decreases k - i
  {
    if i < k {
      FirstTextIs(block, i + 1, k);
    }
  }

  lemma FirstTextMoved(block: seq<string>, p: nat, x: string)
    requires 1 <= p <= |block|
    ensures |Inserted(block, p, x)| == |block| + 1
    ensures var k := FirstText(block, 1);
      FirstText(Inserted(block, p, x), 1) == if k < p then k else if IsBlankLine(x) then k + 1 else p
  {
    hide IsBlankLine, Inserted;
    InsertedAt(block, p, x);
    var other := Inserted(block, p, x);
    var k := FirstText(block, 1);
    if k < p {
      FirstTextIs(other, 1, k);
    } else if IsBlankLine(x) {
      forall j | 1 <= j < k + 1 ensures IsBlankLine(other[j]) {
        assert j > p ==> other[(j - 1) + 1] == block[j - 1];
      }
      assert k < |block| ==> other[k + 1] == block[k];
      FirstTextIs(other, 1, k + 1);
    } else {
      FirstTextIs(other, 1, p);
    }
  }

  lemma ColumnStays(block: seq<string>, p: nat, x: string)
    requires block != [] && ParseItemStart(block[0]).Some? && 1 <= p <= |block| && !SetsColumn(block, p, x)
    ensures Inserted(block, p, x)[0] == block[0] && FieldIndent(Inserted(block, p, x)) == FieldIndent(block)
  {
    hide ParseItemStart, ParseKey, LeadingSpaces, IsBlankLine, Inserted;
    InsertedAt(block, p, x);
    FirstTextMoved(block, p, x);
    var k := FirstText(block, 1);
    assert p <= k < |block| ==> Inserted(block, p, x)[k + 1] == block[k];
  }

  lemma FieldsMoved(block: seq<string>, p: nat, x: string)
    requires block != [] && ParseItemStart(block[0]).Some? && 1 <= p <= |block| && Idle(x) && !SetsColumn(block, p, x)
    ensures Inserted(block, p, x)[0] == block[0] && DirectFields(Inserted(block, p, x)) == MovedFields(DirectFields(block), p)
  {
    hide ParseItemStart, ParseKey, LineFields, Idle, SetsColumn, FieldIndent, Inserted;
    ColumnStays(block, p, x);
    IdleIsNoField(x, FieldIndent(block));
    LineFieldsMoved(block, FieldIndent(block), 1, p, x);
    MovedConcat(InlineFields(block), LineFields(block, FieldIndent(block), 1), p);
    assert MovedFields(InlineFields(block), p) == InlineFields(block);
  }

  lemma {:induction false} FindMoved(fields: seq<Field>, p: nat, wanted: KeyValue -> bool)
    ensures var found := FindField(fields, wanted);
      FindField(MovedFields(fields, p), wanted) == if found.None? then None else Some(MovedField(found.value, p))
  {
    if fields != [] {
      assert MovedFields(fields, p)[1..] == MovedFields(fields[1..], p);
      FindMoved(fields[1..], p, wanted);
    }
  }

  /** An idle line in an item changes neither its ids nor its number, nor whether the number
      can be written. */
  lemma IdleLineInItem(yaml: Yaml, block: seq<string>, p: nat, x: string, id: string, n: nat)
    requires block != [] && ParseItemStart(block[0]).Some? && 1 <= p <= |block| && Idle(x) && !SetsColumn(block, p, x)
    ensures var other := Inserted(block, p, x);
      && other != [] && other[0] == block[0]
      && (Carries(yaml, other, id) <==> Carries(yaml, block, id))
      && NumberOf(yaml, other, id) == NumberOf(yaml, block, id)
      && (NumberRewritable(other) <==> NumberRewritable(block))
      && (CleanTarget(yaml, other, id, n) <==> CleanTarget(yaml, block, id, n))
  {
    hide ParseItemStart, ParseKey, DirectFields, Idle, SetsColumn, Inserted, NamedByFlow, NumberLine, Clean, FlowStays, FlowNumber,
      ParseFlow, ReadNumber;
    InsertedAt(block, p, x);
    FieldsMoved(block, p, x);
    FindMoved(DirectFields(block), p, IsId(yaml, id));
    FindMoved(DirectFields(block), p, IsNumber());
    var number := FindField(DirectFields(block), IsNumber());
    if number.Some? {
      FieldInside(block, number.value);
    }
    var j, k := NumberIndex(block), NumberIndex(Inserted(block, p, x));
    assert j.Some? == k.Some? && (j.Some? ==> k.value == if j.value < p then j.value else j.value + 1);
    assert j.Some? ==> j.value < |block| && Inserted(block, p, x)[k.value] == block[j.value];
  }

  // ---- The list with one more idle line ----

  // Both items say and allow the same.
  ghost predicate SaysTheSame(yaml: Yaml, block: seq<string>, other: seq<string>) {
    && block != [] && ParseItemStart(block[0]).Some? && other != [] && other[0] == block[0]
    && (forall x: string :: Carries(yaml, other, x) <==> Carries(yaml, block, x))
    && (forall x: string :: NumberOf(yaml, other, x) == NumberOf(yaml, block, x))
    && (NumberRewritable(other) <==> NumberRewritable(block))
    && (forall x: string, n: nat :: CleanTarget(yaml, other, x, n) <==> CleanTarget(yaml, block, x, n))
  }

  lemma IdleLineSameItem(yaml: Yaml, block: seq<string>, p: nat, x: string)
    requires block != [] && ParseItemStart(block[0]).Some? && 1 <= p <= |block| && Idle(x) && !SetsColumn(block, p, x)
    ensures SaysTheSame(yaml, block, Inserted(block, p, x))
  {
    hide ParseItemStart, Idle, SetsColumn, Inserted, Carries, NumberOf, NumberRewritable, CleanTarget;
    IdleLineInItem(yaml, block, p, x, "", 0);
    forall id: string
      ensures Carries(yaml, Inserted(block, p, x), id) <==> Carries(yaml, block, id)
      ensures NumberOf(yaml, Inserted(block, p, x), id) == NumberOf(yaml, block, id)
    {
      IdleLineInItem(yaml, block, p, x, id, 0);
    }
    forall id: string, n: nat ensures CleanTarget(yaml, Inserted(block, p, x), id, n) <==> CleanTarget(yaml, block, id, n) {
      IdleLineInItem(yaml, block, p, x, id, n);
    }
  }

  // The line gives the item that it falls into its column.
  predicate SetsColumnIn(region: seq<string>, p: nat, x: string)
    requires p <= |region|
    decreases |region|
  {
    if region == [] || p == 0 then false
    else if !StartsItem(region) then SetsColumnIn(region[1..], p - 1, x)
    else
      var n := BlockLength(region);
      if p <= n then SetsColumn(region[..n], p, x) else SetsColumnIn(region[n..], p - n, x)
  }

  lemma IdleStartsNothing(x: string)
    requires Idle(x)
    ensures ParseItemStart(x).None? && forall dash: nat :: StaysInside(x, dash)
  {
    IdleIff(x);
    assert forall dash: nat :: StaysInside(x, dash);
  }

  lemma InsertedParts(region: seq<string>, n: nat, p: nat, x: string)
    requires n <= |region| && p <= |region|
    ensures p <= n ==> Inserted(region, p, x) == Inserted(region[..n], p, x) + region[n..]
    ensures p >= n ==> Inserted(region, p, x) == region[..n] + Inserted(region[n..], p - n, x)
  {
    if p <= n {
      assert region[..n] + region[n..] == region;
      assert region[..n][..p] == region[..p] && region[..n][p..] + region[n..] == region[p..];
    }
    if p >= n {
      assert region[..n] + region[n..][..p - n] == region[..p] && region[n..][p - n..] == region[p..];
    }
  }

  // How the first item of a list is cut with the line in it, or behind it.
  lemma FirstItemWith(region: seq<string>, p: nat, x: string)
    requires StartsItem(region) && 1 <= p <= |region| && Idle(x)
    ensures var n := BlockLength(region);
      var other := Inserted(region, p, x);
      && StartsItem(other)
      && (p <= n ==> BlockLength(other) == n + 1 && other[..n + 1] == Inserted(region[..n], p, x) && other[n + 1..] == region[n..])
      && (p > n ==> BlockLength(other) == n && other[..n] == region[..n] && other[n..] == Inserted(region[n..], p - n, x))
  {
    hide ParseItemStart, StaysInside, Idle;
    IdleStartsNothing(x);
    var n := BlockLength(region);
    var indent := ParseItemStart(region[0]).value.indent;
    InsertedParts(region, n, p, x);
    InsertedAt(region, p, x);
    assert forall i | 1 <= i < n :: region[i] == region[1..][i - 1];
    assert n < |region| ==> region[n] == region[1..][n - 1];
    if p <= n {
      InsertedAt(region[..n], p, x);
      var block := Inserted(region[..n], p, x);
      forall i | 1 <= i < |block| ensures StaysInside(block[i], indent) {
        assert i > p ==> block[(i - 1) + 1] == region[..n][i - 1];
      }
      CutAt(block, region[n..], indent);
    } else {
      InsertedAt(region[n..], p - n, x);
      CutAt(region[..n], Inserted(region[n..], p - n, x), indent);
    }
  }

  lemma CutAt(block: seq<string>, rest: seq<string>, indent: nat)
    requires block != [] && ParseItemStart(block[0]).Some? && ParseItemStart(block[0]).value.indent == indent
    requires forall i | 1 <= i < |block| :: StaysInside(block[i], indent)
    requires rest != [] ==> !StaysInside(rest[0], indent)
    ensures StartsItem(block + rest) && BlockLength(block + rest) == |block|
    ensures (block + rest)[..|block|] == block && (block + rest)[|block|..] == rest
  {
    hide ParseItemStart, StaysInside;
    assert (block + rest)[1..] == block[1..] + rest;
    forall x | x in block[1..] ensures StaysInside(x, indent) {
      var i :| 0 <= i < |block[1..]| && block[1..][i] == x;
      assert block[i + 1] == x;
    }
    InsideRunIs(block[1..], rest, indent);
  }

  /** A blank line or a comment behind the first line of an item leaves the item of every id
      what it was, unless it is a comment right behind a bare dash. */
  lemma {:induction false} IdleLineInList(yaml: Yaml, region: seq<string>, p: nat, x: string, id: string)
    requires p <= |region| && Idle(x) && !SetsColumnIn(region, p, x)
    ensures var block, other := Target(yaml, region, id), Target(yaml, Inserted(region, p, x), id);
      && (block.Some? <==> other.Some?)
      && (block.Some? ==> SaysTheSame(yaml, block.value, other.value))
    decreases |region|
  {
    hide ParseItemStart, Idle, SetsColumn, Carries, SaysTheSame, BlockLength, Inserted;
    var other := Inserted(region, p, x);
    IdleStartsNothing(x);
    InsertedAt(region, p, x);
    if region == [] || p == 0 {
      assert other == [x] + region && other[1..] == region by { InFront(region, p, x); }
      SameTargets(yaml, region, id);
    } else if !StartsItem(region) {
      assert other[1..] == Inserted(region[1..], p - 1, x) by { InsertedParts(region, 1, p, x); }
      IdleLineInList(yaml, region[1..], p - 1, x, id);
    } else {
      var n := BlockLength(region);
      FirstItemWith(region, p, x);
      if p <= n {
        IdleLineSameItem(yaml, region[..n], p, x);
        SameCarries(yaml, region[..n], Inserted(region[..n], p, x), id);
        SameTargets(yaml, region[n..], id);
      } else {
        IdleLineInList(yaml, region[n..], p - n, x, id);
        ItselfSame(yaml, region[..n]);
      }
    }
  }

  lemma InFront(region: seq<string>, p: nat, x: string)
    requires p == 0 || region == []
    requires p <= |region|
    ensures Inserted(region, p, x) == [x] + region && Inserted(region, p, x)[1..] == region
  {
  }

  lemma ItselfSame(yaml: Yaml, block: seq<string>)
    requires block != [] && ParseItemStart(block[0]).Some?
    ensures SaysTheSame(yaml, block, block)
  {
  }

  lemma SameTargets(yaml: Yaml, region: seq<string>, id: string)
    ensures Target(yaml, region, id).Some? ==> SaysTheSame(yaml, Target(yaml, region, id).value, Target(yaml, region, id).value)
  {
    hide SaysTheSame, Carries;
    if Target(yaml, region, id).Some? {
      ItselfSame(yaml, Target(yaml, region, id).value);
    }
  }

  lemma SameCarries(yaml: Yaml, block: seq<string>, other: seq<string>, id: string)
    requires SaysTheSame(yaml, block, other)
    ensures block != [] && ParseItemStart(block[0]).Some? && other != [] && other[0] == block[0]
    ensures Carries(yaml, other, id) <==> Carries(yaml, block, id)
  {
    hide Carries, NumberOf, CleanTarget;
  }

  // ---- The plan with one more idle line ----

  lemma IdleIsNoMark(x: string)
    requires Idle(x)
    ensures !Delimiter(x) && !SubtasksKey(x) && !ListEnd(x)
  {
    IdleIff(x);
    IdleBegins(x);
    BeginsWith("---", x);
    BeginsWith("subtasks:", x);
    DashIsNoSpace();
    LetterStands();
  }

  lemma BeginsWith(prefix: string, x: string)
    requires prefix != ""
    ensures prefix <= x ==> x != "" && x[0] == prefix[0]
  {
  }

  lemma LetterStands()
    ensures "---"[0] == '-' && "subtasks:"[0] == 's' && !IsSpace('s')
  {
  }

  lemma SliceWith(lines: seq<string>, p: nat, x: string, start: nat, last: nat)
    requires start <= p <= |lines| && start <= last <= |lines|
    ensures |Inserted(lines, p, x)| == |lines| + 1
    ensures last < p ==> Inserted(lines, p, x)[start..last] == lines[start..last]
    ensures last >= p ==> Inserted(lines, p, x)[start..last + 1] == Inserted(lines[start..last], p - start, x)
  {
    InsertedAt(lines, p, x);
    if last >= p {
      InsertedAt(lines[start..last], p - start, x);
      var whole, part := Inserted(lines, p, x)[start..last + 1], Inserted(lines[start..last], p - start, x);
      forall j | 0 <= j < |whole| ensures whole[j] == part[j] {
        assert j + start > p ==> whole[j] == lines[j + start - 1];
      }
    }
  }

  // The lines of the list, with the line in them or elsewhere.
  lemma ListWith(lines: seq<string>, end: nat, p: nat, x: string)
    requires 1 <= p <= end <= |lines| && Idle(x)
    ensures |Inserted(lines, p, x)| == |lines| + 1
    ensures var place := ListPlace(lines, end);
      ListOf(Plan(Inserted(lines, p, x), end + 1)) ==
        if place.None? then None
        else if place.value.start <= p <= place.value.end then Some(Inserted(Region(lines, place.value), p - place.value.start, x))
        else Some(Region(lines, place.value))
  {
    hide IsSubtasksKey, EndsList, Idle, Inserted, ListOf, ListPlace, Seek;
    PlaceIs(lines, end);
    ListFrom(lines, end, p, x);
  }

  lemma ListFrom(lines: seq<string>, end: nat, p: nat, x: string)
    requires 1 <= p <= end <= |lines| && Idle(x)
    ensures |Inserted(lines, p, x)| == |lines| + 1
    ensures var key := Seek(lines, SubtasksKey, 1, end);
      if key == end then ListOf(Plan(Inserted(lines, p, x), end + 1)) == None
      else
        var last := Seek(lines, ListEnd, key + 1, end);
        ListOf(Plan(Inserted(lines, p, x), end + 1)) ==
          Some(if key < p <= last then Inserted(lines[key + 1..last], p - key - 1, x) else lines[key + 1..last])
  {
    hide IsSubtasksKey, EndsList, Idle, Inserted, ListOf, Seek;
    IdleIsNoMark(x);
    InsertedLength(lines, p, x);
    var key := Seek(lines, SubtasksKey, 1, end);
    if key == end || p <= key {
      ListFromBehind(lines, end, p, x, key);
    } else {
      ListFromAround(lines, end, p, x, key);
    }
  }

  // The list begins behind the line, or there is none.
  lemma ListFromBehind(lines: seq<string>, end: nat, p: nat, x: string, key: nat)
    requires 1 <= p <= end <= |lines| && p <= key == Seek(lines, SubtasksKey, 1, end) && !SubtasksKey(x)
    ensures |Inserted(lines, p, x)| == |lines| + 1
    ensures ListOf(Plan(Inserted(lines, p, x), end + 1)) ==
      if key == end then None else Some(lines[key + 1..Seek(lines, ListEnd, key + 1, end)])
  {
    hide IsSubtasksKey, EndsList, Inserted, ListOf, Seek;
    InsertedLength(lines, p, x);
    SeekInserted(lines, SubtasksKey, 1, end, p, x);
    ListAfterKey(Plan(Inserted(lines, p, x), end + 1));
    if key < end {
      EndAfter(lines, key, end, p, x);
    }
  }

  lemma ListFromAround(lines: seq<string>, end: nat, p: nat, x: string, key: nat)
    requires 1 <= end <= |lines| && key == Seek(lines, SubtasksKey, 1, end) < p <= end && !SubtasksKey(x) && !ListEnd(x)
    ensures |Inserted(lines, p, x)| == |lines| + 1
    ensures var last := Seek(lines, ListEnd, key + 1, end);
      ListOf(Plan(Inserted(lines, p, x), end + 1)) ==
        Some(if p <= last then Inserted(lines[key + 1..last], p - key - 1, x) else lines[key + 1..last])
  {
    hide IsSubtasksKey, EndsList, Inserted, ListOf, Seek;
    InsertedLength(lines, p, x);
    SeekInserted(lines, SubtasksKey, 1, end, p, x);
    ListAfterKey(Plan(Inserted(lines, p, x), end + 1));
    ListEndWith(lines, key, end, p, x);
  }

  lemma PlaceIs(lines: seq<string>, end: nat)
    requires 1 <= end <= |lines|
    ensures var key := Seek(lines, SubtasksKey, 1, end);
      ListPlace(lines, end) == if key == end then None else Some(Place(key + 1, Seek(lines, ListEnd, key + 1, end)))
  {
  }

  lemma ListEndWith(lines: seq<string>, key: nat, end: nat, p: nat, x: string)
    requires key < p <= end <= |lines| && !ListEnd(x)
    ensures |Inserted(lines, p, x)| == |lines| + 1
    ensures var last := Seek(lines, ListEnd, key + 1, end);
      Inserted(lines, p, x)[key + 1..Seek(Inserted(lines, p, x), ListEnd, key + 1, end + 1)] ==
        if p <= last then Inserted(lines[key + 1..last], p - key - 1, x) else lines[key + 1..last]
  {
    hide EndsList, Inserted, Seek;
    SeekInserted(lines, ListEnd, key + 1, end, p, x);
    SliceWith(lines, p, x, key + 1, Seek(lines, ListEnd, key + 1, end));
  }

  // No item of the plan gets its column from the line.
  predicate KeepsColumns(lines: seq<string>, end: nat, p: nat, x: string)
    requires 1 <= p <= end <= |lines|
  {
    var place := ListPlace(lines, end);
    place.Some? && place.value.start <= p <= place.value.end ==> !SetsColumnIn(Region(lines, place.value), p - place.value.start, x)
  }

  lemma FrontWith(lines: seq<string>, end: nat, p: nat, x: string)
    requires FrontEnd(lines) == Ok(end) && 1 <= p <= end && Idle(x)
    ensures FrontEnd(Inserted(lines, p, x)) == Ok(end + 1)
  {
    hide IsDelimiter, Idle, Inserted;
    IdleIsNoMark(x);
    InsertedAt(lines, p, x);
    SeekInserted(lines, Delimiter, 1, |lines|, p, x);
  }

  /** A blank line or a comment anywhere in the frontmatter, in any column, changes no id and
      no number that the plan reads, nor whether a number can be written; only a comment
      between a bare dash and the first field of its item may. */
  lemma IdleLineInPlan(yaml: Yaml, lines: seq<string>, end: nat, p: nat, x: string, id: string, n: nat)
    requires FrontEnd(lines) == Ok(end) && 1 <= p <= end && Idle(x) && KeepsColumns(lines, end, p, x)
    ensures FrontEnd(Inserted(lines, p, x)) == Ok(end + 1) && |Inserted(lines, p, x)| == |lines| + 1
    ensures ReadPlan(yaml, Inserted(lines, p, x), id) == ReadPlan(yaml, lines, id)
    ensures var before, after := WriteSubtask(yaml, Plan(lines, end), id, n), WriteSubtask(yaml, Plan(Inserted(lines, p, x), end + 1), id, n);
      before.Ok? == after.Ok? && (before.Err? ==> after == before)
  {
    hide FrontEnd, ListPlace, Idle, Inserted, SetsColumnIn, Target, ReadPlan, WriteSubtask, ListOf, ReadList, Ready, Holds,
      NumberRewritable;
    FrontWith(lines, end, p, x);
    ListWith(lines, end, p, x);
    var other := Plan(Inserted(lines, p, x), end + 1);
    ReadIs(yaml, Plan(lines, end), id);
    ReadIs(yaml, other, id);
    SubtaskKind(yaml, Plan(lines, end), id, n);
    SubtaskKind(yaml, other, id, n);
    ListOfIs(Plan(lines, end));
    var place := ListPlace(lines, end);
    if place.Some? && place.value.start <= p <= place.value.end {
      IdleLineReads(yaml, Region(lines, place.value), p - place.value.start, x, id, n);
    }
  }

  lemma ListOfIs(plan: Plan)
    requires plan.Bounded()
    ensures var place := ListPlace(plan.lines, plan.end);
      ListOf(plan) == if place.None? then None else Some(Region(plan.lines, place.value))
  {
  }

  lemma ReadIs(yaml: Yaml, plan: Plan, id: string)
    requires plan.Bounded() && Framed(plan)
    ensures ReadPlan(yaml, plan.lines, id) == if ListOf(plan).None? then None else ReadList(yaml, ListOf(plan).value, id)
  {
  }

  // How a write to the plan ends, by the item it finds.
  lemma SubtaskKind(yaml: Yaml, plan: Plan, id: string, n: nat)
    requires plan.Bounded()
    ensures var region, write := ListOf(plan), WriteSubtask(yaml, plan, id, n);
      if region.None? then write == Err(NoSubtasks)
      else
        var block := Target(yaml, region.value, id);
        if block.None? then write == Err(NoSuchSubtask(id))
        else if !NamedByFlow(yaml, block.value[0], id) && !NumberRewritable(block.value) then write == Err(UnwritableNumber(id))
        else write.Ok?
  {
    hide ListPlace, WriteList, Target, NumberRewritable;
    if ListOf(plan).Some? {
      WriteFailsIff(yaml, ListOf(plan).value, id, n);
    }
  }

  lemma IdleLineReads(yaml: Yaml, region: seq<string>, p: nat, x: string, id: string, n: nat)
    requires p <= |region| && Idle(x) && !SetsColumnIn(region, p, x)
    ensures var other := Inserted(region, p, x);
      && ReadList(yaml, other, id) == ReadList(yaml, region, id)
      && var block, c := Target(yaml, region, id), Target(yaml, other, id);
         && (block.Some? <==> c.Some?)
         && (block.Some? ==> c.value[0] == block.value[0] && (NumberRewritable(c.value) <==> NumberRewritable(block.value)))
         && (Ready(yaml, region, id, n) <==> Ready(yaml, other, id, n))
         && forall y: string :: Holds(yaml, region, id, y) <==> Holds(yaml, other, id, y)
  {
    hide Target, Idle, Inserted, SetsColumnIn, NumberOf, Carries, CleanTarget, NumberRewritable, ReadableFlow;
    IdleLineInList(yaml, region, p, x, id);
  }

  /** A plan whose entries can be written takes them with the line as it does without: both
      writes succeed, and the same numbers read back. */
  lemma IdleLineAndWrites(
    yaml: Yaml, lines: seq<string>, end: nat, region: seq<string>, p: nat, x: string,
    entries: seq<(string, nat)>, number: Option<nat>, source: Option<string>
  )
    requires yaml.Lawful() && FrontEnd(lines) == Ok(end) && ListOf(Plan(lines, end)) == Some(region)
    requires SoundList(region) && Writable(yaml, region, entries)
    requires Recognised(Plan(lines, end), PARENT_NUMBER) && CleanField(Plan(lines, end), PARENT_NUMBER)
    requires 1 <= p <= end && Idle(x) && OneLine(x) && KeepsColumns(lines, end, p, x)
    ensures var r, s := WritePlan(yaml, lines, entries, number, source), WritePlan(yaml, Inserted(lines, p, x), entries, number, source);
      && r.Ok? && s.Ok?
      && (forall i | 0 <= i < |entries| :: ReadPlan(yaml, s.value.lines, entries[i].0) == ReadPlan(yaml, r.value.lines, entries[i].0))
      && forall id: string | Untouched(yaml, region, entries, id) ::
           ReadPlan(yaml, s.value.lines, id) == ReadPlan(yaml, r.value.lines, id)
  {
    hide FrontEnd, ListPlace, ListOf, SoundList, Writable, Untouched, Recognised, CleanField, Target, ReadPlan, WritePlan, Inserted,
      Idle, SetsColumnIn, Yaml.Lawful, FieldTail, SourceStands, ReadFieldNumber, ReadField;
    PlanWriteIsMapUpdate(yaml, lines, end, region, entries, number, source);
    FrontWith(lines, end, p, x);
    ListWith(lines, end, p, x);
    ListOfIs(Plan(lines, end));
    var other := Inserted(lines, p, x);
    var place := ListPlace(lines, end).value;
    var inside := place.start <= p <= place.end;
    var list := if inside then Inserted(region, p - place.start, x) else region;
    if inside {
      IdleLineSound(region, p - place.start, x);
      IdleLineWritable(yaml, region, p - place.start, x, entries);
    }
    IdleLineFields(Plan(lines, end), p, x);
    PlanWriteIsMapUpdate(yaml, other, end + 1, list, entries, number, source);
    forall id: string | Untouched(yaml, region, entries, id) ensures ReadPlan(yaml, other, id) == ReadPlan(yaml, lines, id) {
      IdleLineInPlan(yaml, lines, end, p, x, id, 0);
    }
  }

  lemma IdleLineSound(region: seq<string>, p: nat, x: string)
    requires SoundList(region) && p <= |region| && Idle(x) && OneLine(x)
    ensures SoundList(Inserted(region, p, x))
  {
    hide OneLine, NeatFlow, IsDelimiter, EndsList, Idle;
    IdleIsNoMark(x);
    IdleIsNoFlow(x);
  }

  lemma IdleIsNoFlow(x: string)
    requires Idle(x)
    ensures ParseFlow(x).None? && NeatFlow(x)
  {
    hide IsSpace, SpaceRun, FlowOpen, NextClose;
    FlowNeedsDash(x);
    var w := SpaceRun(WithoutFinalNewline(x));
    assert ParseFlow(x).Some? ==> TextBegins(x, w);
  }

  lemma FlowNeedsDash(line: string)
    ensures var body := WithoutFinalNewline(line);
      ParseFlow(line).Some? ==> SpaceRun(body) < |body| && body <= line && line[SpaceRun(body)] == '-'
  {
    hide NextClose, SpaceRun;
  }

  lemma IdleLineWritable(yaml: Yaml, region: seq<string>, p: nat, x: string, entries: seq<(string, nat)>)
    requires Writable(yaml, region, entries) && p <= |region| && Idle(x) && !SetsColumnIn(region, p, x)
    ensures Writable(yaml, Inserted(region, p, x), entries)
    ensures forall id: string :: Untouched(yaml, region, entries, id) ==> Untouched(yaml, Inserted(region, p, x), entries, id)
  {
    hide Ready, Holds, Inserted, Idle, SetsColumnIn, Target;
    forall i: nat | i < |entries|
      ensures Ready(yaml, region, entries[i].0, entries[i].1) <==> Ready(yaml, Inserted(region, p, x), entries[i].0, entries[i].1)
      ensures forall y: string :: Holds(yaml, region, entries[i].0, y) <==> Holds(yaml, Inserted(region, p, x), entries[i].0, y)
    {
      IdleLineReads(yaml, region, p, x, entries[i].0, entries[i].1);
    }
  }

  lemma IdleLineFields(plan: Plan, p: nat, x: string)
    requires plan.Bounded() && 1 <= p <= plan.end && Idle(x)
    requires Recognised(plan, PARENT_NUMBER) && CleanField(plan, PARENT_NUMBER)
    ensures |Inserted(plan.lines, p, x)| == |plan.lines| + 1
    ensures var other := Plan(Inserted(plan.lines, p, x), plan.end + 1);
      Recognised(other, PARENT_NUMBER) && CleanField(other, PARENT_NUMBER)
  {
    hide KeyTest, FieldTest, Clean, Idle, Inserted;
    IdleIsNoParent(x);
    InsertedAt(plan.lines, p, x);
    var other := Inserted(plan.lines, p, x);
    forall j | 1 <= j < plan.end + 1 && j != p ensures other[j] == plan.lines[if j < p then j else j - 1] {
      assert j > p ==> other[(j - 1) + 1] == plan.lines[j - 1];
    }
  }

  lemma IdleIsNoParent(x: string)
    requires Idle(x)
    ensures !KeyTest(PARENT_NUMBER)(x) && !FieldTest(PARENT_NUMBER)(x)
  {
    hide IsSpace, ParseKey;
    IdleBegins(x);
    NoKeyAt(x);
    EmptyIsNoKey();
    if FieldTest(PARENT_NUMBER)(x) {
      NumberFieldBegins(x);
    }
  }

  lemma IdleBegins(x: string)
    requires Idle(x)
    ensures x == "" || IsSpace(x[0]) || x[0] == '#'
  {
    if x != "" && !IsSpace(x[0]) {
      assert TextBegins(x, 0);
    }
  }

  lemma EmptyIsNoKey()
    ensures ParseKey("").None?
  {
  }

  lemma NumberFieldBegins(x: string)
    ensures FieldTest(PARENT_NUMBER)(x) ==> x != "" && x[0] == 'p' && !IsSpace('p')
  {
    hide ParseValue, SpaceRun;
    if FieldTest(PARENT_NUMBER)(x) {
      assert PARENT_NUMBER + ":" <= x && (PARENT_NUMBER + ":")[0] == 'p';
    }
  }

  // ---- One number line in an item ----

  // The line carries this key in this column, behind blanks.
  predicate KeyAt(line: string, column: nat, key: string) {
    && column + |key| < |line| && (forall j | 0 <= j < column :: line[j] == ' ')
    && line[column..column + |key|] == key && line[column + |key|] == ':'
  }

  lemma KeyAtIff(line: string, column: nat, key: string)
    requires OneLine(line) && key != "" && IsKeyStart(key[0]) && forall c | c in key :: IsKeyChar(c)
    ensures KeyAt(line, column, key) <==> LineField(line, column).Some? && LineField(line, column).value.key == key
  {
    hide IsKeyStart, IsKeyChar, ParseKey, OneLine, LineField;
    if KeyAt(line, column, key) {
      KeyLineStarts(line, column, key);
      KeyParses(line, column, key);
      LineFieldIs(line, column);
    }
    if LineField(line, column).Some? && LineField(line, column).value.key == key {
      FieldLineStart(line, column);
      LineFieldIs(line, column);
      ParsedKeyStands(line[column..]);
      assert line[column..][..|key|] == line[column..column + |key|] && line[column..][|key|] == line[column + |key|];
    }
  }

  lemma LineFieldIs(line: string, column: nat)
    requires column <= |line|
    ensures LineField(line, column) == if IsBlankLine(line) || LeadingSpaces(line) != column then None else ParseKey(line[column..])
  {
  }

  lemma KeyParses(line: string, column: nat, key: string)
    requires OneLine(line) && KeyAt(line, column, key) && key != "" && IsKeyStart(key[0]) && forall c | c in key :: IsKeyChar(c)
    ensures ParseKey(line[column..]).Some? && ParseKey(line[column..]).value.key == key
  {
    hide OneLine, SpaceRun, WithoutFinalNewline;
    var text, rest := line[column..], line[column + |key|..];
    assert text == key + rest && rest[0] == ':';
    RunLengthIs(key, rest, KeyChar);
    assert text[0] == key[0] && text[..|key|] == key && text[|key| + 1..] == line[column + |key| + 1..];
    LastPieceOneLine(line, column + |key| + 1);
  }

  lemma ParsedKeyStands(text: string)
    requires ParseKey(text).Some?
    ensures var key := ParseKey(text).value.key; |key| < |text| && text[..|key|] == key && text[|key|] == ':'
  {
    hide SpaceRun, WithoutFinalNewline;
  }

  lemma KeyLineStarts(line: string, column: nat, key: string)
    requires KeyAt(line, column, key) && key != "" && IsKeyStart(key[0])
    ensures LeadingSpaces(line) == column && !IsBlankLine(line)
  {
    assert line[column] == key[0] by { assert line[column..column + |key|][0] == line[column]; }
    var rest := line[column..];
    SpacesOf(line, column);
    LeadingSpacesIs(column, rest);
    SpaceRunAt(line, column);
  }

  lemma LastPieceOneLine(line: string, k: nat)
    requires OneLine(line) && k <= |line|
    ensures '\n' !in WithoutFinalNewline(line[k..][SpaceRun(line[k..])..])
  {
  }

  // The lines of the item that carry its number in the column of its fields.
  ghost predicate NumberOn(block: seq<string>, k: nat)
    requires block != [] && ParseItemStart(block[0]).Some?
  {
    1 <= k < |block| && KeyAt(block[k], FieldIndent(block), NUMBER)
  }

  lemma NumberOnIff(block: seq<string>, k: nat)
    requires block != [] && ParseItemStart(block[0]).Some? && forall x | x in block :: OneLine(x)
    ensures NumberOn(block, k) <==> 1 <= k < |block| && Hits(block, IsNumber(), k)
  {
    hide KeyAt, LineField, OneLine, FieldIndent, ParseItemStart, ParseKey;
    if 1 <= k < |block| {
      assert block[k] in block;
      NumberIsKey();
      KeyAtIff(block[k], FieldIndent(block), NUMBER);
    }
  }

  /** Behind a write an item with fields has a line for its number, and no second one unless
      there were two before. */
  lemma OneNumberLine(yaml: Yaml, block: seq<string>, id: string, n: nat)
    requires yaml.Lawful() && IsBlock(block) && (forall x | x in block :: OneLine(x))
    requires ParseFlow(block[0]).None? && CleanTarget(yaml, block, id, n) && WriteBlock(yaml, block, id, n).Written?
    requires forall j, k :: NumberOn(block, j) && NumberOn(block, k) ==> j == k
    ensures var other := WriteBlock(yaml, block, id, n).lines;
      && other != [] && other[0] == block[0] && FieldIndent(other) == FieldIndent(block)
      && (exists k :: NumberOn(other, k)) && forall j, k :: NumberOn(other, j) && NumberOn(other, k) ==> j == k
  {
    hide ParseItemStart, ParseKey, LineField, OneLine, FieldIndent, DirectFields, NumberLine, RewriteLine, InsertedLine, Clean, ParseFlow,
      Carries, NumberOf, WriteFlow, NumberOn, Hits, Inserted, Yaml.Lawful;
    BlockStart(block);
    ItemLineHasNoNumber(block[0]);
    WritesByFlow(yaml, block[0], id, n);
    FirstHit(block, IsId(yaml, id));
    FirstHit(block, IsNumber());
    forall k: nat ensures NumberOn(block, k) <==> 1 <= k < |block| && Hits(block, IsNumber(), k) {
      NumberOnIff(block, k);
    }
    var existing := FindField(DirectFields(block), IsNumber());
    if existing.Some? {
      FieldInside(block, existing.value);
      ReplacedNumber(block, existing.value.index, n);
    } else {
      var i := FindField(DirectFields(block), IsId(yaml, id)).value.index;
      FieldInside(block, FindField(DirectFields(block), IsId(yaml, id)).value);
      InsertedIs(block, i + 1, InsertedLine(FieldIndent(block), n));
      InsertedAt(block, i + 1, InsertedLine(FieldIndent(block), n));
      InsertedNumber(block, i, n, Inserted(block, i + 1, InsertedLine(FieldIndent(block), n)));
      var other := Inserted(block, i + 1, InsertedLine(FieldIndent(block), n));
      assert forall j: nat :: NumberOn(other, j) ==> j == i + 1;
    }
  }

  lemma InsertedIs(lines: seq<string>, k: nat, line: string)
    requires k <= |lines|
    ensures Inserted(lines, k, line) == lines[..k] + [line] + lines[k..]
  {
  }

  lemma ReplacedNumber(block: seq<string>, k: nat, n: nat)
    requires IsBlock(block) && (forall x | x in block :: OneLine(x)) && 1 <= k < |block|
    requires LineField(block[k], FieldIndent(block)).Some? && LineField(block[k], FieldIndent(block)).value.key == NUMBER
    requires NumberLine(block[k]).Some? && Clean(NumberLine(block[k]).value)
    ensures var other := block[k := RewriteLine(block[k], n)];
      && FieldIndent(other) == FieldIndent(block) && other[0] == block[0]
      && NumberOn(other, k) && forall j :: j != k ==> (NumberOn(other, j) <==> NumberOn(block, j))
  {
    hide ParseItemStart, ParseKey, LineField, OneLine, FieldIndent, NumberLine, RewriteLine, KeyAt, Clean;
    ReplacedIndent(block, k, n);
    RewrittenField(block[k], FieldIndent(block), n);
    NumberIsKey();
    KeyAtIff(RewriteLine(block[k], n), FieldIndent(block), NUMBER);
  }

  lemma InsertedNumber(block: seq<string>, i: nat, n: nat, other: seq<string>)
    requires IsBlock(block) && i < |block|
    requires i == 0 ==> ParseKey(ParseItemStart(block[0]).value.inline).Some?
    requires i > 0 ==> LineField(block[i], FieldIndent(block)).Some?
    requires |other| == |block| + 1 && other[i + 1] == InsertedLine(FieldIndent(block), n)
    requires (forall j | 0 <= j <= i :: other[j] == block[j]) && forall j | i + 1 <= j < |block| :: other[j + 1] == block[j]
    ensures other[0] == block[0] && FieldIndent(other) == FieldIndent(block)
    ensures NumberOn(other, i + 1)
    ensures forall j: nat :: j <= i && NumberOn(other, j) ==> NumberOn(block, j)
    ensures forall j: nat | i + 1 < j :: NumberOn(other, j) ==> NumberOn(block, j - 1)
  {
    hide ParseItemStart, ParseKey, LineField, OneLine, FieldIndent, InsertedLine, KeyAt;
    var line := InsertedLine(FieldIndent(block), n);
    forall j | i + 1 < j < |other| ensures other[j] == block[j - 1] {
      assert other[(j - 1) + 1] == block[j - 1];
    }
    assert other == block[..i + 1] + [line] + block[i + 1..];
    InsertedIndent(block, i, n);
    InsertedField(FieldIndent(block), n);
    NumberIsKey();
    KeyAtIff(line, FieldIndent(block), NUMBER);
  }
}
