/** One line of a plan: list items, mapping keys, and lines that carry a number. */
module PlanLines {
  import opened Wrappers
  import opened Whitespace
  import opened BranchNaming

  // A newline only at the end.
  predicate OneLine(line: string) {
    forall i | 0 <= i < |line| && line[i] == '\n' :: i == |line| - 1
  }

  // The length of the white space at the start.
  function SpaceRun(s: string): (n: nat)
    ensures n <= |s| && (forall i | 0 <= i < n :: IsSpace(s[i])) && (n < |s| ==> !IsSpace(s[n]))
  {
    if s == "" || !IsSpace(s[0]) then 0 else 1 + SpaceRun(s[1..])
  }

  lemma {:induction false} SpaceRunIs(ws: string, rest: string)
    requires Blank(ws) && (rest != "" ==> !IsSpace(rest[0]))
    ensures SpaceRun(ws + rest) == |ws|
  {
    if ws != "" {
      assert ws[0] in ws && (ws + rest)[1..] == ws[1..] + rest;
      SpaceRunIs(ws[1..], rest);
    } else {
      assert ws + rest == rest;
    }
  }

  // The number of spaces, and spaces only, at the start.
  function LeadingSpaces(line: string): (n: nat)
    ensures n <= |line| && (forall i | 0 <= i < n :: line[i] == ' ') && (n < |line| ==> line[n] != ' ')
  {
    if line == "" || line[0] != ' ' then 0 else 1 + LeadingSpaces(line[1..])
  }

  function Spaces(n: nat): string {
    seq(n, _ => ' ')
  }

  lemma {:induction false} LeadingSpacesIs(n: nat, rest: string)
    requires rest == "" || rest[0] != ' '
    ensures LeadingSpaces(Spaces(n) + rest) == n
  {
    if n > 0 {
      assert (Spaces(n) + rest)[1..] == Spaces(n - 1) + rest;
      LeadingSpacesIs(n - 1, rest);
    } else {
      assert Spaces(0) + rest == rest;
    }
  }

  predicate IsBlankLine(line: string) {
    SpaceRun(line) == |line|
  }

  predicate IsComment(line: string) {
    SpaceRun(line) < |line| && line[SpaceRun(line)] == '#'
  }

  // The line does not end a list item at this indentation.
  predicate StaysInside(line: string, indent: nat) {
    IsBlankLine(line) || IsComment(line) || LeadingSpaces(line) > indent
  }

  // ---- List items ----

  // The white space before the dash and after it, and the rest of the line.
  datatype ItemStart = ItemStart(indent: nat, gap: nat, inline: string)

  function ParseItemStart(line: string): Option<ItemStart> {
    var w := SpaceRun(line);
    if w == |line| || line[w] != '-' then None
    else
      var g := SpaceRun(line[w + 1..]);
      var inline := WithoutFinalNewline(line[w + 1 + g..]);
      if '\n' in inline then None else Some(ItemStart(w, g, inline))
  }

  // ---- Mapping keys ----

  datatype KeyValue = KeyValue(key: string, value: string)

  predicate IsKeyStart(c: char) {
    'A' <= c <= 'Z' || 'a' <= c <= 'z' || c == '_'
  }

  predicate IsKeyChar(c: char) {
    IsKeyStart(c) || '0' <= c <= '9'
  }

  const KeyChar: char -> bool := c => IsKeyChar(c)

  function ParseKey(text: string): Option<KeyValue> {
    var k := RunLength(text, KeyChar);
    if k == 0 || !IsKeyStart(text[0]) || k == |text| || text[k] != ':' then None
    else
      var rest := text[k + 1..];
      var value := WithoutFinalNewline(rest[SpaceRun(rest)..]);
      if '\n' in value then None else Some(KeyValue(text[..k], value))
  }

  // ---- Lines with a scalar value ----

  // What surrounds the value of a `name: value` line: the part before it, whether there
  // is a value at all, and the blanks and comment after it.
  datatype ValueLine = ValueLine(head: string, present: bool, tail: string)

  predicate IsValueChar(c: char) {
    c != ' ' && c != '\t' && c != '\n' && c != '#'
  }

  const ValueChar: char -> bool := c => IsValueChar(c)
  const NotNewline: char -> bool := c => c != '\n'
  const BlankOrTab: char -> bool := c => c == ' ' || c == '\t'

  // Blanks, an optional comment, and the end of the line: what is kept of it.
  function ParseTail(s: string): Option<string> {
    var b := RunLength(s, BlankOrTab);
    var rest := s[b..];
    if rest != "" && rest[0] == '#' then
      var e := b + RunLength(rest, NotNewline);
      if s[e..] == "" || s[e..] == "\n" then Some(s[..e]) else None
    else if rest in ["", "\n", "\r", "\r\n"] then Some(s[..b])
    else None
  }

  // The length of a quoted scalar at the start.
  function QuotedLength(s: string): Option<nat> {
    if s == "" || (s[0] != '"' && s[0] != '\'') then None
    else
      var n := RunLength(s[1..], Other(s[0]));
      if n + 1 < |s| then Some(n + 2) else None
  }

  function Other(quote: char): char -> bool {
    c => c != quote
  }

  // The alternatives in the order they are tried: a quoted value, a plain one, none.
  function ParseValue(rest: string): Option<(bool, string)> {
    var quoted := QuotedLength(rest);
    if quoted.Some? && quoted.value <= |rest| && ParseTail(rest[quoted.value..]).Some? then
      Some((true, ParseTail(rest[quoted.value..]).value))
    else
      var plain := RunLength(rest, ValueChar);
      if plain > 0 && ParseTail(rest[plain..]).Some? then Some((true, ParseTail(rest[plain..]).value))
      else if ParseTail(rest).Some? then Some((false, ParseTail(rest).value))
      else None
  }

  function ParseValueLine(name: string, text: string): Option<ValueLine> {
    if !(name + ":" <= text) then None
    else
      var after := text[|name| + 1..];
      var w := SpaceRun(after);
      match ParseValue(after[w..])
      case None => None
      case Some((present, tail)) => Some(ValueLine(name + ":" + after[..w], present, tail))
  }

  // ---- Numbers ----

  // A decimal number, then the end of the value or a blank.
  function ReadNumber(value: string): Option<nat> {
    var d := RunLength(value, Digit);
    if d == 0 || (d < |value| && !IsSpace(value[d])) then None
    else
      assert forall c | c in value[..d] :: IsDigit(c);
      Some(Value(value[..d]))
  }

  lemma NumberReads(n: nat, tail: string)
    requires tail == "" || !IsDigit(tail[0])
    ensures ReadNumber(Decimal(n) + tail) == if tail == "" || IsSpace(tail[0]) then Some(n) else None
  {
    ValueOfDecimal(n);
    DecimalDigits(n);
    if tail == "" {
      assert Decimal(n) + tail == Decimal(n);
      AllDigits(Decimal(n));
    } else {
      RunLengthIs(Decimal(n), tail, Digit);
    }
    assert (Decimal(n) + tail)[..|Decimal(n)|] == Decimal(n);
  }

  lemma {:induction false} AllDigits(digits: string)
    requires forall c | c in digits :: IsDigit(c)
    ensures RunLength(digits, Digit) == |digits|
  {
    if digits != "" {
      assert digits[0] in digits;
      AllDigits(digits[1..]);
    }
  }

  // ---- A rewritten line ----

  lemma TailStart(s: string)
    requires ParseTail(s).Some?
    ensures var tail := ParseTail(s).value;
      tail <= s && '\n' !in tail && (tail != "" ==> tail[0] == ' ' || tail[0] == '\t' || tail[0] == '#')
  {
    var b := RunLength(s, BlankOrTab);
    if s[b..] != "" && s[b..][0] == '#' {
      var e := b + RunLength(s[b..], NotNewline);
      forall i | 0 <= i < e ensures s[i] != '\n' {
        if i >= b {
          assert s[i] == s[b..][i - b];
        }
      }
    }
  }

  lemma ValueTail(rest: string)
    requires ParseValue(rest).Some?
    ensures var tail := ParseValue(rest).value.1;
      '\n' !in tail && (tail != "" ==> tail[0] == ' ' || tail[0] == '\t' || tail[0] == '#')
  {
    hide ParseTail;
    var quoted := QuotedLength(rest);
    var plain := RunLength(rest, ValueChar);
    if quoted.Some? && quoted.value <= |rest| && ParseTail(rest[quoted.value..]).Some? {
      TailStart(rest[quoted.value..]);
    } else if plain > 0 && ParseTail(rest[plain..]).Some? {
      TailStart(rest[plain..]);
    } else {
      TailStart(rest);
    }
  }

  /** What a matched line keeps: the name, the white space after its colon, and a tail on
      the same line. */
  lemma ValueLineParts(name: string, text: string) returns (ws: string)
    requires ParseValueLine(name, text).Some?
    ensures var m := ParseValueLine(name, text).value;
      && m.head == name + ":" + ws && Blank(ws)
      && '\n' !in m.tail && (m.tail != "" ==> m.tail[0] == ' ' || m.tail[0] == '\t' || m.tail[0] == '#')
  {
    hide ParseValue;
    var after := text[|name| + 1..];
    ws := after[..SpaceRun(after)];
    ValueTail(after[SpaceRun(after)..]);
  }

  lemma {:induction false} NameRuns(name: string, rest: string)
    requires forall c | c in name :: IsKeyChar(c)
    requires rest != "" && !IsKeyChar(rest[0])
    ensures RunLength(name + rest, KeyChar) == |name|
  {
    RunLengthIs(name, rest, KeyChar);
  }

  lemma AfterColon(ws: string, value: string)
    requires Blank(ws) && value != "" && !IsSpace(value[0])
    ensures var rest := ws + (value + "\n");
      WithoutFinalNewline(rest[SpaceRun(rest)..]) == value
  {
    SpaceRunIs(ws, value + "\n");
    assert (ws + (value + "\n"))[|ws|..] == value + "\n";
    assert (value + "\n")[..|value|] == value;
  }

  /** A key line reads as its own key and value. */
  lemma KeyLineReads(name: string, ws: string, value: string)
    requires name != "" && IsKeyStart(name[0]) && forall c | c in name :: IsKeyChar(c)
    requires Blank(ws) && value != "" && !IsSpace(value[0]) && '\n' !in value
    ensures ParseKey(name + ":" + ws + value + "\n") == Some(KeyValue(name, value))
  {
    hide Blank, IsSpace, IsKeyStart, WithoutFinalNewline, SpaceRun;
    var rest := ws + (value + "\n");
    var text := name + ":" + ws + value + "\n";
    AfterColon(ws, value);
    assert text == name + (":" + rest);
    assert !IsKeyChar(':') by { ColonIsNoKey(); }
    NameRuns(name, ":" + rest);
    assert text[|name| + 1..] == rest && text[..|name|] == name && text[|name|] == ':' && text[0] == name[0];
  }

  /** So does the text of a key and a value without an end of line. */
  lemma KeyTextReads(name: string, ws: string, value: string)
    requires name != "" && IsKeyStart(name[0]) && forall c | c in name :: IsKeyChar(c)
    requires Blank(ws) && value != "" && !IsSpace(value[0]) && '\n' !in value
    ensures ParseKey(name + ":" + ws + value) == Some(KeyValue(name, value))
  {
    hide Blank, IsSpace, IsKeyStart, WithoutFinalNewline, SpaceRun;
    var rest := ws + value;
    var text := name + ":" + ws + value;
    SpaceRunIs(ws, value);
    assert rest[|ws|..] == value;
    NoFinalNewline(value);
    assert text == name + (":" + rest);
    assert !IsKeyChar(':') by { ColonIsNoKey(); }
    NameRuns(name, ":" + rest);
    assert text[|name| + 1..] == rest && text[..|name|] == name && text[|name|] == ':' && text[0] == name[0];
  }

  lemma NoFinalNewline(value: string)
    requires '\n' !in value
    ensures WithoutFinalNewline(value) == value
  {
  }

  lemma ColonIsNoKey()
    ensures !IsKeyChar(':')
  {
  }

  // The rewritten text, from the name on.
  function Rewritten(m: ValueLine, n: nat): string {
    m.head + Decimal(n) + m.tail + "\n"
  }

  // The number lands on the line of its key, and no comment is glued to it.
  predicate Clean(m: ValueLine) {
    '\n' !in m.head && (m.tail != "" ==> m.tail[0] != '#')
  }

  lemma NoNewlineIn(name: string, ws: string, value: string)
    requires '\n' !in value && '\n' !in name
    ensures OneLine(name + ":" + ws + value + "\n") <==> '\n' !in ws
  {
    var text := name + ":" + ws + value + "\n";
    if '\n' in ws {
      var i :| 0 <= i < |ws| && ws[i] == '\n';
      assert text[|name| + 1 + i] == '\n';
    } else {
      forall i | 0 <= i < |text| - 1 ensures text[i] != '\n' {
        var k := i - |name| - 1;
        if i < |name| {
          assert text[i] in name;
        } else if 0 <= k < |ws| {
          assert text[i] in ws;
        } else if |ws| <= k {
          assert text[i] in value;
        }
      }
    }
  }

  /** A rewritten line is one line that reads back the number exactly when the old value
      was on the line of its key and no comment directly followed it. */
  lemma RewrittenReadsBackIff(name: string, text: string, n: nat)
    requires ParseValueLine(name, text).Some?
    requires name != "" && IsKeyStart(name[0]) && forall c | c in name :: IsKeyChar(c)
    ensures var m := ParseValueLine(name, text).value;
      && ParseKey(Rewritten(m, n)).Some? && ParseKey(Rewritten(m, n)).value.key == name
      && (Clean(m) <==> OneLine(Rewritten(m, n)) && ReadNumber(ParseKey(Rewritten(m, n)).value.value) == Some(n))
  {
    hide ParseValueLine, ReadNumber, ParseKey, OneLine;
    var m := ParseValueLine(name, text).value;
    var ws := ValueLineParts(name, text);
    var value := Decimal(n) + m.tail;
    DecimalDigits(n);
    assert value[0] == Decimal(n)[0] && IsDigit(value[0]);
    assert '\n' !in name;
    assert '\n' !in value by {
      assert forall c | c in Decimal(n) :: IsDigit(c);
    }
    KeyLineReads(name, ws, value);
    assert Rewritten(m, n) == name + ":" + ws + value + "\n";
    NoNewlineIn(name, ws, value);
    NumberReads(n, m.tail);
    assert '\n' in m.head <==> '\n' in ws;
  }

  /** An existing key with no value loses its number to the next line. */
  lemma EmptyValueSplits()
    ensures var m := ParseValueLine("issue_number", "issue_number:\n");
      m.Some? && Rewritten(m.value, 7) == "issue_number:\n7\n" && !OneLine("issue_number:\n7\n")
  {
    hide ParseValue, IsSpace, OneLine;
    var name := "issue_number";
    var text := name + ":" + "\n";
    assert text[|name| + 1..] == "\n" && text[..|name| + 1] == name + ":";
    EmptyRest();
    assert Decimal(7) == "7";
    SplitLine("issue_number:\n7\n", 13);
  }

  lemma SplitLine(line: string, i: nat)
    requires i + 1 < |line| && line[i] == '\n'
    ensures !OneLine(line)
  {
  }

  lemma EmptyRest()
    ensures SpaceRun("\n") == 1 && "\n"[1..] == "" && ParseValue("") == Some((false, ""))
  {
  }

  /** A comment in the place of a value is glued to the number, which no longer reads. */
  lemma CommentIsGlued()
    ensures var m := ParseValueLine("issue_number", "issue_number: # c\n");
      m.Some? && Rewritten(m.value, 7) == "issue_number: 7# c\n" && ReadNumber("7# c") == None
  {
    hide ParseValue, IsSpace, OneLine, SpaceRun;
    var name := "issue_number";
    var text := name + ":" + " # c\n";
    assert text[|name| + 1..] == " # c\n" && text[..|name| + 1] == name + ":" && name + ":" <= text;
    CommentRest();
    assert Decimal(7) == "7";
    RunLengthIs("7", "# c", Digit);
    assert "7" + "# c" == "7# c";
    HashIsNoSpace();
  }

  lemma HashIsNoSpace()
    ensures !IsSpace('#')
  {
  }

  lemma CommentTail()
    ensures ParseTail("# c\n") == Some("# c")
  {
    var s := "# c\n";
    assert s[0..] == s && RunLength(s, BlankOrTab) == 0;
    RunLengthIs("# c", "\n", NotNewline);
    assert "# c" + "\n" == s && s[3..] == "\n" && s[..3] == "# c";
  }

  lemma CommentRest()
    ensures SpaceRun(" # c\n") == 1 && " # c\n"[1..] == "# c\n" && ParseValue("# c\n") == Some((false, "# c"))
  {
    hide ParseTail;
    CommentTail();
    SpaceRunIs(" ", "# c\n");
    assert " " + "# c\n" == " # c\n";
    assert QuotedLength("# c\n").None? && RunLength("# c\n", ValueChar) == 0;
  }
}
