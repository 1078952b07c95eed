/** A list item written as a one-line flow mapping, and its issue number. */
module PlanFlow {
  import opened Wrappers
  import opened Whitespace
  import opened BranchNaming
  import opened PlanScanners
  import opened PlanLines

  const NUMBER := "issue_number"

  // A decoded value: a string without its surrounding white space, an integer, or any
  // other value.
  datatype Scalar = Text(text: string) | Number(number: int) | Other

  // Spaces only, where an entry could stand.
  predicate IsGap(text: string) {
    forall c | c in text :: c == ' '
  }

  // The YAML decoder: the stripped text of a block scalar, and the whole mapping between two
  // braces, with its keys as text. `entries` is used in statements only: the mapping of a
  // text that is one or more complete entries and nothing else, so neither blank nor with a
  // comma at its end, and without comments, anchors and merge keys.
  datatype Yaml = Yaml(
    scalar: string -> Option<string>,
    mapping: string -> Option<map<string, Scalar>>,
    entries: string -> Option<map<string, Scalar>>)
  {
    // A mapping is its entries, with at most one comma after the last of them; between two
    // commas, and before the first, there must be an entry.
    ghost predicate Lawful() {
      && (forall x | entries(x).Some? :: mapping(x) == entries(x) && !IsGap(x))
      && (forall x, y | entries(x).Some? && entries(y).Some? ::
            entries(x + "," + y) == Some(entries(x).value + entries(y).value))
      && (forall w | IsGap(w) :: mapping(w) == Some(map[]))
      && (forall x, w | entries(x).Some? && IsGap(w) :: mapping(x + "," + w) == entries(x))
      && (forall x, w, y | entries(x).Some? && IsGap(w) :: mapping(x + "," + (w + "," + y)) == None)
      && (forall w, y | IsGap(w) :: mapping(w + "," + y) == None)
      && (forall n: nat ::
            && entries("issue_number: " + Decimal(n)) == Some(map[NUMBER := Number(n)])
            && entries(" issue_number: " + Decimal(n)) == Some(map[NUMBER := Number(n)]))
    }
  }

  // ---- The parts of a flow item ----

  // The text before the brace, the inside, the rest, and the newline.
  datatype Flow = Flow(open: string, inner: string, trailing: string, newline: string)

  function NextClose(text: string, open: nat, i: nat): (r: Option<nat>)
    requires open <= i <= |text|
    ensures r.Some? ==> i <= r.value < |text| && Closes(text, open, r.value) && forall j | i <= j < r.value :: !Closes(text, open, j)
    ensures r.None? ==> forall j | i <= j < |text| :: !Closes(text, open, j)
    decreases |text| - i
  {
    if i == |text| then None else if Closes(text, open, i) then Some(i) else NextClose(text, open, i + 1)
  }

  // Where the brace of a flow item opens.
  function FlowOpen(body: string): Option<nat> {
    var w := SpaceRun(body);
    if w == |body| || body[w] != '-' then None
    else
      var open := w + 1 + SpaceRun(body[w + 1..]);
      if open < |body| && body[open] == '{' then Some(open) else None
  }

  function ParseFlow(line: string): Option<Flow> {
    var body := WithoutFinalNewline(line);
    var open := FlowOpen(body);
    if open.None? then None
    else
      var close := NextClose(body, open.value, open.value);
      if close.None? || close.value == open.value then None
      else Some(Flow(body[..open.value], body[open.value + 1..close.value], body[close.value + 1..], line[|body|..]))
  }

  function Render(flow: Flow): string {
    flow.open + "{" + flow.inner + "}" + flow.trailing + flow.newline
  }

  // ---- Its entries ----

  // The id the decoded mapping names.
  function FlowId(yaml: Yaml, inner: string): Option<string> {
    match yaml.mapping(inner)
    case None => None
    case Some(m) => if "id" in m && m["id"].Text? then Some(m["id"].text) else None
  }

  function FlowNumber(yaml: Yaml, inner: string): Option<nat> {
    match yaml.mapping(inner)
    case None => None
    case Some(m) => if NUMBER in m && m[NUMBER].Number? && m[NUMBER].number >= 0 then Some(m[NUMBER].number) else None
  }

  // A segment that decodes to the number alone.
  predicate IsNumberEntry(yaml: Yaml, segment: string) {
    yaml.mapping(segment).Some? && yaml.mapping(segment).value.Keys == {NUMBER}
  }

  function NumberEntry(segment: string, n: nat): string {
    (if " " <= segment then " " else "") + "issue_number: " + Decimal(n)
  }

  function Replaced(yaml: Yaml, segments: seq<string>, n: nat): (r: seq<string>)
    ensures |r| == |segments|
  {
    if segments == [] then []
    else
      var last := segments[|segments| - 1];
      Replaced(yaml, segments[..|segments| - 1], n) + [if IsNumberEntry(yaml, last) then NumberEntry(last, n) else last]
  }

  predicate HasNumber(yaml: Yaml, segments: seq<string>) {
    exists s :: s in segments && IsNumberEntry(yaml, s)
  }

  function WithNumber(yaml: Yaml, segments: seq<string>, n: nat): seq<string> {
    Replaced(yaml, segments, n) + (if HasNumber(yaml, segments) then [] else [" issue_number: " + Decimal(n)])
  }

  function WriteFlow(yaml: Yaml, line: string, id: string, n: nat): Option<string> {
    var flow := ParseFlow(line);
    if flow.None? || FlowId(yaml, flow.value.inner) != Some(id) then None
    else Some(Render(flow.value.(inner := Commas(WithNumber(yaml, Segments(flow.value.inner), n)))))
  }

  // What the brace scanner finds is the next close.
  lemma ScannerFindsNext(text: string, open: nat, r: Option<nat>)
    requires open <= |text|
    requires r.Some? ==> Closes(text, open, r.value) && forall j | open <= j < r.value :: !Closes(text, open, j)
    requires r.None? ==> forall j | open <= j < |text| :: !Closes(text, open, j)
    ensures NextClose(text, open, open) == r
  {
    hide Closes;
    if r.Some? {
      assert open <= r.value by { ClosesInside(text, open, r.value); }
      CloseIs(text, open, open, r.value);
    }
  }

  method ReplaceEntries(yaml: Yaml, segments: seq<string>, n: nat) returns (entries: seq<string>)
    ensures entries == WithNumber(yaml, segments, n)
  {
    hide IsNumberEntry, NumberEntry;
    var updated := false;
    entries := [];
    for i := 0 to |segments|
      invariant entries == Replaced(yaml, segments[..i], n)
      invariant updated <==> HasNumber(yaml, segments[..i])
    {
      var segment := segments[i];
      assert segments[..i + 1][..i] == segments[..i] && segments[..i + 1] == segments[..i] + [segment];
      if IsNumberEntry(yaml, segment) {
        entries := entries + [NumberEntry(segment, n)];
        updated := true;
      } else {
        entries := entries + [segment];
      }
    }
    assert segments[..|segments|] == segments;
    if !updated {
      entries := entries + [" issue_number: " + Decimal(n)];
    }
  }

  method WriteFlowStyleIssueNumber(yaml: Yaml, line: string, id: string, n: nat) returns (written: Option<string>)
    ensures written == WriteFlow(yaml, line, id, n)
  {
    hide Segments, Closes, NextClose, Pieces, Commas, FlowOpen, WithNumber, FlowId;
    var newline := if line != "" && line[|line| - 1] == '\n' then "\n" else "";
    var body := line[..|line| - |newline|];
    assert body == WithoutFinalNewline(line) && line[|body|..] == newline;
    var open := FlowOpen(body);
    if open.None? {
      return None;
    }
    OpenStands(body);
    var close := FindMatchingBrace(body, open.value);
    ScannerFindsNext(body, open.value, close);
    if close.None? {
      return None;
    }
    OpenIsNotClose(body, open.value);
    ClosesInside(body, open.value, close.value);
    var inner := body[open.value + 1..close.value];
    var trailing := body[close.value + 1..];
    var segments := SplitFlowTopLevel(inner);
    if FlowId(yaml, inner) != Some(id) {
      return None;
    }
    var newSegments := ReplaceEntries(yaml, segments, n);
    written := Some(body[..open.value] + "{" + Commas(newSegments) + "}" + trailing + newline);
  }

  lemma OpenStands(body: string)
    requires FlowOpen(body).Some?
    ensures FlowOpen(body).value < |body| && body[FlowOpen(body).value] == '{'
  {
  }

  lemma OpenIsNotClose(body: string, open: nat)
    requires open < |body| && body[open] == '{'
    ensures !Closes(body, open, open)
  {
  }

  // ---- Reading a rewritten item ----

  lemma NumberTextIsNeat(segment: string, n: nat)
    ensures Neat(NumberEntry(segment, n)) && Neat(" issue_number: " + Decimal(n))
    ensures NumberEntry(segment, n) in [" issue_number: " + Decimal(n), "issue_number: " + Decimal(n)]
  {
    hide Neat, Quiet;
    assert "" + "issue_number: " + Decimal(n) == "issue_number: " + Decimal(n);
    assert " " + "issue_number: " + Decimal(n) == " issue_number: " + Decimal(n);
    NumberTextIsQuiet(n);
    QuietIsNeat("issue_number: " + Decimal(n));
    QuietIsNeat(" issue_number: " + Decimal(n));
  }

  lemma NumberTextIsQuiet(n: nat)
    ensures Quiet("issue_number: " + Decimal(n)) && Quiet(" issue_number: " + Decimal(n))
  {
    DecimalDigits(n);
    assert Quiet(Decimal(n));
    QuietConcat("issue_number: ", Decimal(n));
    QuietConcat(" ", "issue_number: " + Decimal(n));
    assert " " + ("issue_number: " + Decimal(n)) == " issue_number: " + Decimal(n);
  }

  lemma QuietConcat(a: string, b: string)
    requires Quiet(a) && Quiet(b)
    ensures Quiet(a + b)
  {
  }

  lemma {:induction false} ReplacedIsNeat(yaml: Yaml, segments: seq<string>, n: nat)
    requires forall s | s in segments :: Neat(s)
    ensures forall s | s in Replaced(yaml, segments, n) :: Neat(s)
  {
    hide Neat, IsNumberEntry, NumberEntry;
    if segments != [] {
      var k := |segments| - 1;
      assert segments[k] in segments;
      ReplacedIsNeat(yaml, segments[..k], n);
      NumberTextIsNeat(segments[k], n);
    }
  }

  lemma WithNumberIsNeat(yaml: Yaml, segments: seq<string>, n: nat)
    requires forall s | s in segments :: Neat(s)
    ensures forall s | s in WithNumber(yaml, segments, n) :: Neat(s)
  {
    hide Neat, Replaced;
    ReplacedIsNeat(yaml, segments, n);
    NumberTextIsNeat("", n);
  }

  // A flow item whose segments both scanners read as one piece each.
  ghost predicate NeatFlow(line: string) {
    ParseFlow(line).Some? ==> forall s | s in Segments(ParseFlow(line).value.inner) :: Neat(s)
  }

  lemma NeatSegments(line: string)
    requires NeatFlow(line) && ParseFlow(line).Some?
    ensures forall s | s in Segments(ParseFlow(line).value.inner) :: Neat(s)
  {
  }

  lemma {:induction false} CloseIs(text: string, open: nat, i: nat, close: nat)
    requires open <= i <= close && Closes(text, open, close) && forall j | i <= j < close :: !Closes(text, open, j)
    ensures NextClose(text, open, i) == Some(close)
    decreases close - i
  {
    hide Closes;
    if i < close {
      CloseIs(text, open, i + 1, close);
    } else {
      assert close < |text| by { ClosesInside(text, open, close); }
    }
  }

  lemma ClosesInside(text: string, open: nat, close: nat)
    requires Closes(text, open, close)
    ensures open <= close < |text| && text[close] == '}'
  {
  }

  lemma {:induction false} SpaceRunPrefix(s: string, t: string)
    requires SpaceRun(s) < |s| <= |t| && s <= t
    ensures SpaceRun(t) == SpaceRun(s)
  {
    if IsSpace(s[0]) {
      assert t[0] == s[0] && s[1..] <= t[1..];
      SpaceRunPrefix(s[1..], t[1..]);
    }
  }

  // The opening is the same for every text that starts alike.
  lemma OpenSame(body: string, head: string)
    requires FlowOpen(body).Some? && head == body[..FlowOpen(body).value + 1]
    ensures FlowOpen(head) == FlowOpen(body)
  {
    hide SpaceRun;
    var open := FlowOpen(body).value;
    var w := SpaceRun(body);
    assert w <= open && !IsSpace(head[w]);
    SpaceRunAt(head, w);
    var after := body[w + 1..];
    var g := SpaceRun(after);
    assert head[w + 1..] == after[..g + 1] && after[g] == '{';
    SpaceRunAt(after[..g + 1], g);
  }

  lemma OpenExtends(head: string, other: string)
    requires FlowOpen(head).Some? && head <= other
    ensures FlowOpen(other) == FlowOpen(head)
  {
    hide IsSpace, SpaceRun;
    var w := SpaceRun(head);
    SpaceRunPrefix(head, other);
    assert head[w + 1..] <= other[w + 1..] && other[w] == head[w];
    SpaceRunPrefix(head[w + 1..], other[w + 1..]);
    var open := FlowOpen(head).value;
    assert other[open] == head[open];
  }

  lemma SpaceRunAt(s: string, n: nat)
    requires n < |s| && !IsSpace(s[n]) && forall i | 0 <= i < n :: IsSpace(s[i])
    ensures SpaceRun(s) == n
  {
    assert s == s[..n] + s[n..];
    SpaceRunIs(s[..n], s[n..]);
  }

  lemma CutTwice(s: string, a: nat, b: nat)
    requires a < b < |s|
    ensures s == s[..a] + [s[a]] + s[a + 1..b] + [s[b]] + s[b + 1..]
  {
  }

  lemma NewlinePart(line: string)
    ensures var body := WithoutFinalNewline(line);
      line == body + line[|body|..] && line[|body|..] in ["", "\n"]
  {
    if line != "" && line[|line| - 1] == '\n' {
      assert line[|line| - 1..] == "\n";
    }
  }

  lemma FlowParts(line: string) returns (body: string)
    requires ParseFlow(line).Some?
    ensures var flow := ParseFlow(line).value;
      && body == flow.open + "{" + flow.inner + "}" + flow.trailing && line == body + flow.newline
      && body == WithoutFinalNewline(line) && FlowOpen(body) == Some(|flow.open|)
      && flow.newline in ["", "\n"]
  {
    body := WithoutFinalNewline(line);
    NewlinePart(line);
    var open := FlowOpen(body).value;
    OpenStands(body);
    var close := NextClose(body, open, open).value;
    ClosesInside(body, open, close);
    CutTwice(body, open, close);
  }

  /** A rewritten flow item is read as the same item with the new entries. */
  lemma RenderedFlowParses(line: string, inner: string)
    requires ParseFlow(line).Some? && OneLine(line)
    requires ReadAll(OUTSIDE, inner, false) == OUTSIDE && forall j: nat :: !ClosesEarly(inner, j)
    ensures var flow := ParseFlow(line).value;
      ParseFlow(Render(flow.(inner := inner))) == Some(flow.(inner := inner))
  {
    hide Closes, NextClose, ClosesEarly, ReadAll, FlowOpen, WithoutFinalNewline;
    var flow := ParseFlow(line).value;
    var before := FlowParts(line);
    var body := flow.open + "{" + inner + "}" + flow.trailing;
    var rendered := Render(flow.(inner := inner));
    assert rendered == body + flow.newline;
    BodyEnd(line, before, flow, body);
    var head := flow.open + "{";
    assert before[..|flow.open| + 1] == head && head <= body;
    OpenSame(before, head);
    OpenExtends(head, body);
    ClosesFromInside(flow.open, inner, flow.trailing);
    var close := |flow.open| + 1 + |inner|;
    CloseIs(body, |flow.open|, |flow.open|, close);
    assert body[..|flow.open|] == flow.open && body[|flow.open| + 1..close] == inner && body[close + 1..] == flow.trailing;
  }

  lemma BodyEnd(line: string, before: string, flow: Flow, body: string)
    requires OneLine(line) && line == before + flow.newline && before == WithoutFinalNewline(line)
    requires before == flow.open + "{" + flow.inner + "}" + flow.trailing && flow.newline in ["", "\n"]
    requires body != "" && body[|body| - 1] == if flow.trailing == "" then '}' else flow.trailing[|flow.trailing| - 1]
    ensures WithoutFinalNewline(body + flow.newline) == body
  {
    assert before[|before| - 1] == body[|body| - 1];
    assert before[|before| - 1] == line[|before| - 1];
    assert (body + "\n")[..|body|] == body;
    assert body + "" == body;
  }

  // ---- What the segments decode to ----

  // Whole entries each.
  predicate AllEntries(yaml: Yaml, segments: seq<string>) {
    forall s | s in segments :: yaml.entries(s).Some?
  }

  // Whole entries or only spaces each.
  predicate Readable(yaml: Yaml, segments: seq<string>) {
    forall s | s in segments :: yaml.entries(s).Some? || IsGap(s)
  }

  // The entries of all segments, the later ones first.
  function Merged(yaml: Yaml, segments: seq<string>): map<string, Scalar> {
    if segments == [] then map[]
    else
      var last := segments[|segments| - 1];
      Merged(yaml, segments[..|segments| - 1]) + (if yaml.entries(last).Some? then yaml.entries(last).value else map[])
  }

  // The laws one at a time.
  lemma WholeEntries(yaml: Yaml, x: string)
    requires yaml.Lawful() && yaml.entries(x).Some?
    ensures yaml.mapping(x) == yaml.entries(x) && !IsGap(x)
  {
  }

  lemma TwoEntries(yaml: Yaml, x: string, y: string)
    requires yaml.Lawful() && yaml.entries(x).Some? && yaml.entries(y).Some?
    ensures yaml.entries(x + "," + y) == Some(yaml.entries(x).value + yaml.entries(y).value)
  {
  }

  lemma OnlyGap(yaml: Yaml, w: string, y: string)
    requires yaml.Lawful() && IsGap(w)
    ensures yaml.mapping(w) == Some(map[]) && yaml.mapping(w + "," + y) == None && yaml.entries(w) == None
  {
  }

  lemma GapAfter(yaml: Yaml, x: string, w: string, y: string)
    requires yaml.Lawful() && yaml.entries(x).Some? && IsGap(w)
    ensures yaml.mapping(x + "," + w) == yaml.entries(x) && yaml.mapping(x + "," + (w + "," + y)) == None
  {
  }

  lemma NumberText(yaml: Yaml, n: nat)
    requires yaml.Lawful()
    ensures yaml.entries("issue_number: " + Decimal(n)) == Some(map[NUMBER := Number(n)])
    ensures yaml.entries(" issue_number: " + Decimal(n)) == Some(map[NUMBER := Number(n)])
  {
  }

  lemma {:induction false} EntriesJoin(yaml: Yaml, segments: seq<string>)
    requires yaml.Lawful() && segments != [] && AllEntries(yaml, segments)
    ensures yaml.entries(Commas(segments)) == Some(Merged(yaml, segments))
  {
    hide Yaml.Lawful, Commas;
    var k := |segments| - 1;
    var init, last := segments[..k], segments[k];
    assert segments == init + [last] && last in segments;
    if init == [] {
      CommasOne(last);
      assert segments == [last] && map[] + yaml.entries(last).value == yaml.entries(last).value;
    } else {
      EntriesJoin(yaml, init);
      CommasAppend(init, last);
      TwoEntries(yaml, Commas(init), last);
    }
  }

  lemma CommasOne(part: string)
    ensures Commas([part]) == part
  {
  }

  lemma {:induction false} CommasAppend(parts: seq<string>, last: string)
    requires parts != []
    ensures Commas(parts + [last]) == Commas(parts) + "," + last
  {
    if |parts| > 1 {
      CommasAppend(parts[1..], last);
      assert (parts + [last])[1..] == parts[1..] + [last];
      assert parts[0] + "," + (Commas(parts[1..]) + "," + last) == parts[0] + "," + Commas(parts[1..]) + "," + last;
    } else {
      assert (parts + [last])[1..] == [last];
    }
  }

  // Where an entry is missing between two commas, nothing decodes.
  lemma GapBreaks(yaml: Yaml, before: seq<string>, gap: string, after: string)
    requires yaml.Lawful() && AllEntries(yaml, before) && IsGap(gap)
    ensures yaml.mapping(Commas(before + [gap]) + "," + after) == None
  {
    hide Yaml.Lawful, Commas, Merged, AllEntries;
    if before == [] {
      assert before + [gap] == [gap];
      CommasOne(gap);
      OnlyGap(yaml, gap, after);
    } else {
      EntriesJoin(yaml, before);
      CommasAppend(before, gap);
      var x := Commas(before);
      GapAfter(yaml, x, gap, after);
      assert x + "," + gap + "," + after == x + "," + (gap + "," + after);
    }
  }

  // Segments that decode, together, to a mapping with something in it: entries, and at most
  // a gap after the last of them.
  predicate Sensible(yaml: Yaml, segments: seq<string>) {
    && segments != []
    && (AllEntries(yaml, segments)
        || (|segments| > 1 && IsGap(segments[|segments| - 1]) && AllEntries(yaml, segments[..|segments| - 1])))
  }

  lemma SensibleDecodes(yaml: Yaml, segments: seq<string>)
    requires yaml.Lawful() && Sensible(yaml, segments)
    ensures yaml.mapping(Commas(segments)) == Some(Merged(yaml, segments))
  {
    hide Yaml.Lawful, Commas;
    var k := |segments| - 1;
    if AllEntries(yaml, segments) {
      EntriesJoin(yaml, segments);
      WholeEntries(yaml, Commas(segments));
    } else {
      var init, gap := segments[..k], segments[k];
      EntriesJoin(yaml, init);
      CommasAppend(init, gap);
      assert segments == init + [gap];
      GapAfter(yaml, Commas(init), gap, "");
      OnlyGap(yaml, gap, "");
      assert Merged(yaml, init) + map[] == Merged(yaml, init);
    }
  }

  // The first gap, or the end.
  function FirstGap(yaml: Yaml, segments: seq<string>): (k: nat)
    ensures k <= |segments| && AllEntries(yaml, segments[..k]) && (k < |segments| ==> yaml.entries(segments[k]).None?)
  {
    if segments == [] || yaml.entries(segments[0]).None? then 0
    else
      var k := 1 + FirstGap(yaml, segments[1..]);
      assert forall s | s in segments[..k] :: s == segments[0] || s in segments[1..][..k - 1];
      k
  }

  lemma CommasSplit(parts: seq<string>, k: nat)
    requires k + 1 < |parts|
    ensures Commas(parts) == Commas(parts[..k + 1]) + "," + Commas(parts[k + 1..])
    decreases k
  {
    if k > 0 {
      CommasSplit(parts[1..], k - 1);
      assert parts[1..][..k] == parts[..k + 1][1..] && parts[1..][k..] == parts[k + 1..];
      var a, b := Commas(parts[..k + 1][1..]), Commas(parts[k + 1..]);
      assert parts[0] + "," + (a + "," + b) == parts[0] + "," + a + "," + b;
    } else {
      assert parts[..1] == [parts[0]];
    }
  }

  lemma EmptySegment(inner: string)
    ensures var segments := Segments(inner);
      segments != [] && segments[|segments| - 1] == "" ==> inner == Commas(segments) + ","
  {
    var pieces, segments := Pieces(inner, 0, 0), Segments(inner);
    CommasPieces(inner, 0, 0);
    if pieces[|pieces| - 1] == "" && segments != [] {
      CommasAppend(segments, "");
      assert pieces == segments + [""] && Commas(segments) + "," + "" == Commas(segments) + ",";
    }
  }

  // A text that decodes with an id has a gap only behind its last comma.
  lemma GapIsLast(yaml: Yaml, inner: string, k: nat)
    requires yaml.Lawful() && k < |Segments(inner)| && IsGap(Segments(inner)[k]) && AllEntries(yaml, Segments(inner)[..k])
    ensures FlowId(yaml, inner).Some? ==> 0 < k == |Segments(inner)| - 1 && inner == Commas(Segments(inner))
  {
    hide Segments, AllEntries, Yaml.Lawful;
    var segments := Segments(inner);
    SegmentsJoinBack(inner);
    var before, gap := segments[..k], segments[k];
    assert before + [gap] == segments[..k + 1];
    if k + 1 < |segments| {
      CommasSplit(segments, k);
      var rest := Commas(segments[k + 1..]);
      GapBreaks(yaml, before, gap, rest);
      GapBreaks(yaml, before, gap, rest + ",");
      assert Commas(segments[..k + 1]) + "," + (rest + ",") == Commas(segments) + ",";
    } else {
      assert segments[..k + 1] == segments;
      GapBreaks(yaml, before, gap, "");
      assert Commas(segments) + "," + "" == Commas(segments) + ",";
      OnlyGap(yaml, gap, "");
      if k == 0 {
        assert segments == [gap] && Commas(segments) == gap;
      }
    }
  }

  lemma NothingHasNoId(yaml: Yaml, inner: string)
    requires yaml.Lawful() && Segments(inner) == []
    ensures FlowId(yaml, inner).None?
  {
    hide Segments, Yaml.Lawful;
    SegmentsJoinBack(inner);
    OnlyGap(yaml, "", "");
    assert Commas([]) == "";
    assert "" + "," + "" == ",";
  }

  // Readable segments of a text that decodes with an id are sensible, and all of the text.
  lemma DecodedIsSensible(yaml: Yaml, inner: string)
    requires yaml.Lawful() && FlowId(yaml, inner).Some? && Readable(yaml, Segments(inner))
    ensures Sensible(yaml, Segments(inner)) && yaml.mapping(inner) == Some(Merged(yaml, Segments(inner)))
    ensures Segments(inner)[|Segments(inner)| - 1] != ""
  {
    hide Segments, Merged, FlowId, Yaml.Lawful;
    var segments := Segments(inner);
    if segments == [] {
      NothingHasNoId(yaml, inner);
    }
    var k := FirstGap(yaml, segments);
    if k < |segments| {
      assert segments[k] in segments;
      GapIsLast(yaml, inner, k);
    } else {
      assert segments[..k] == segments;
    }
    SensibleDecodes(yaml, segments);
    DecodesWhole(yaml, inner);
    if segments[|segments| - 1] == "" {
      LastIsGap(yaml, inner);
      assert false;
    }
  }

  lemma LastIsGap(yaml: Yaml, inner: string)
    requires yaml.Lawful() && Sensible(yaml, Segments(inner)) && Segments(inner)[|Segments(inner)| - 1] == ""
    ensures FlowId(yaml, inner).None?
  {
    hide Segments, Yaml.Lawful;
    var segments := Segments(inner);
    var k := |segments| - 1;
    OnlyGap(yaml, "", "");
    assert segments[k] in segments;
    EmptySegment(inner);
    GapIsLast(yaml, inner, k);
  }

  lemma DecodesWhole(yaml: Yaml, inner: string)
    requires yaml.Lawful() && Sensible(yaml, Segments(inner)) && FlowId(yaml, inner).Some?
    ensures yaml.mapping(inner) == yaml.mapping(Commas(Segments(inner)))
  {
    hide Segments, FlowId, Yaml.Lawful, Merged, Commas;
    var segments := Segments(inner);
    SegmentsJoinBack(inner);
    if AllEntries(yaml, segments) {
      EntriesJoin(yaml, segments);
      WholeEntries(yaml, Commas(segments));
      GapAfter(yaml, Commas(segments), "", "");
      assert Commas(segments) + "," + "" == Commas(segments) + ",";
    } else {
      GapIsLast(yaml, inner, |segments| - 1);
    }
  }

  // ---- What a rewritten item decodes to ----

  // The number entry comes last among the segments with a number, or the last of them has
  // this number anyway.
  predicate NumberStays(yaml: Yaml, segments: seq<string>, n: nat) {
    if segments == [] then false
    else
      var last := segments[|segments| - 1];
      if IsNumberEntry(yaml, last) then true
      else if yaml.entries(last).Some? && NUMBER in yaml.entries(last).value then yaml.entries(last).value[NUMBER] == Number(n)
      else NumberStays(yaml, segments[..|segments| - 1], n)
  }

  /** When the rewritten mapping holds the number: a number that is replaced must be the last
      one of the mapping, and one that is appended must not follow a trailing comma. */
  predicate FlowStays(yaml: Yaml, inner: string, n: nat) {
    var segments := Segments(inner);
    if HasNumber(yaml, segments) then NumberStays(yaml, segments, n)
    else segments != [] && !IsGap(segments[|segments| - 1])
  }

  // The entries of one segment, if it has any.
  function EntriesOf(yaml: Yaml, segment: string): map<string, Scalar> {
    if yaml.entries(segment).Some? then yaml.entries(segment).value else map[]
  }

  function ReplacedOne(yaml: Yaml, segment: string, n: nat): string {
    if IsNumberEntry(yaml, segment) then NumberEntry(segment, n) else segment
  }

  lemma ReplacedOneDecodes(yaml: Yaml, segment: string, n: nat)
    requires yaml.Lawful()
    ensures yaml.entries(segment).Some? ==> yaml.entries(ReplacedOne(yaml, segment, n)).Some?
    ensures IsNumberEntry(yaml, segment) ==> EntriesOf(yaml, ReplacedOne(yaml, segment, n)) == map[NUMBER := Number(n)]
    ensures IsNumberEntry(yaml, segment) ==> forall key | key != NUMBER :: key !in EntriesOf(yaml, segment)
  {
    hide Yaml.Lawful, NumberEntry;
    NumberEntryDecodes(yaml, segment, n);
    if yaml.entries(segment).Some? {
      WholeEntries(yaml, segment);
    }
  }

  lemma ReplacedStep(yaml: Yaml, init: seq<string>, last: string, n: nat)
    ensures Replaced(yaml, init + [last], n) == Replaced(yaml, init, n) + [ReplacedOne(yaml, last, n)]
    ensures Merged(yaml, init + [last]) == Merged(yaml, init) + EntriesOf(yaml, last)
  {
    assert (init + [last])[..|init|] == init;
  }

  // Replacing keeps what kind of text each segment is and every other key.
  lemma {:induction false} ReplacedMerges(yaml: Yaml, segments: seq<string>, n: nat)
    requires yaml.Lawful()
    ensures var replaced := Replaced(yaml, segments, n);
      && (AllEntries(yaml, segments) ==> AllEntries(yaml, replaced))
      && (forall key | key != NUMBER ::
            && (key in Merged(yaml, replaced) <==> key in Merged(yaml, segments))
            && (key in Merged(yaml, replaced) ==> Merged(yaml, replaced)[key] == Merged(yaml, segments)[key]))
      && (NumberStays(yaml, segments, n) <==>
            NUMBER in Merged(yaml, replaced) && Merged(yaml, replaced)[NUMBER] == Number(n))
  {
    if segments != [] {
      hide Yaml.Lawful, NumberEntry, IsNumberEntry, Replaced, Merged, ReplacedOne;
      var k := |segments| - 1;
      var init, last := segments[..k], segments[k];
      assert segments == init + [last];
      ReplacedMerges(yaml, init, n);
      ReplacedStep(yaml, init, last, n);
      ReplacedStep(yaml, Replaced(yaml, init, n), ReplacedOne(yaml, last, n), n);
      ReplacedOneDecodes(yaml, last, n);
      assert !IsNumberEntry(yaml, last) ==> ReplacedOne(yaml, last, n) == last by { NotReplaced(yaml, last, n); }
    }
  }

  lemma NotReplaced(yaml: Yaml, segment: string, n: nat)
    ensures !IsNumberEntry(yaml, segment) ==> ReplacedOne(yaml, segment, n) == segment
  {
  }

  lemma NumberEntryDecodes(yaml: Yaml, segment: string, n: nat)
    requires yaml.Lawful()
    ensures yaml.entries(NumberEntry(segment, n)) == Some(map[NUMBER := Number(n)])
  {
    hide Yaml.Lawful;
    NumberText(yaml, n);
    assert "" + "issue_number: " + Decimal(n) == "issue_number: " + Decimal(n);
    assert " " + "issue_number: " + Decimal(n) == " issue_number: " + Decimal(n);
  }

  lemma {:induction false} NothingReplaced(yaml: Yaml, segments: seq<string>, n: nat)
    requires !HasNumber(yaml, segments)
    ensures Replaced(yaml, segments, n) == segments
  {
    hide IsNumberEntry;
    if segments != [] {
      var k := |segments| - 1;
      assert segments[k] in segments && !IsNumberEntry(yaml, segments[k]);
      assert forall s | s in segments[..k] :: s in segments;
      NothingReplaced(yaml, segments[..k], n);
    }
  }

  lemma ReplacedIsSensible(yaml: Yaml, segments: seq<string>, n: nat)
    requires yaml.Lawful() && Sensible(yaml, segments)
    ensures Sensible(yaml, Replaced(yaml, segments, n))
  {
    hide Yaml.Lawful, NumberStays, Merged, NumberEntry;
    var k := |segments| - 1;
    ReplacedMerges(yaml, segments, n);
    ReplacedMerges(yaml, segments[..k], n);
    if IsGap(segments[k]) {
      OnlyGap(yaml, segments[k], "");
      assert Replaced(yaml, segments, n)[..k] == Replaced(yaml, segments[..k], n);
    }
  }

  // The appended entry.
  lemma AppendedDecodes(yaml: Yaml, segments: seq<string>, n: nat)
    requires yaml.Lawful() && Sensible(yaml, segments)
    ensures var appended := yaml.mapping(Commas(segments + [" issue_number: " + Decimal(n)]));
      appended == if IsGap(segments[|segments| - 1]) then None else Some(Merged(yaml, segments)[NUMBER := Number(n)])
  {
    hide Yaml.Lawful, Commas;
    var k := |segments| - 1;
    var entry := " issue_number: " + Decimal(n);
    NumberText(yaml, n);
    CommasAppend(segments, entry);
    var parts := segments + [entry];
    if IsGap(segments[k]) {
      OnlyGap(yaml, segments[k], "");
      assert segments[k] in segments;
      GapBreaks(yaml, segments[..k], segments[k], entry);
      assert segments == segments[..k] + [segments[k]];
    } else {
      EntriesJoin(yaml, parts);
      WholeEntries(yaml, Commas(parts));
      assert parts[..|parts| - 1] == segments;
      assert Merged(yaml, segments) + map[NUMBER := Number(n)] == Merged(yaml, segments)[NUMBER := Number(n)];
    }
  }

  lemma MapsUpdated(m: map<string, Scalar>, w: map<string, Scalar>, n: nat)
    requires forall key | key != NUMBER :: (key in w <==> key in m) && (key in w ==> w[key] == m[key])
    requires NUMBER in w && w[NUMBER] == Number(n)
    ensures w == m[NUMBER := Number(n)]
  {
  }

  /** The rewritten mapping is the old one with the number set, or does not hold it. */
  lemma WrittenDecodes(yaml: Yaml, inner: string, n: nat)
    requires yaml.Lawful() && FlowId(yaml, inner).Some? && Readable(yaml, Segments(inner))
    ensures var written := Commas(WithNumber(yaml, Segments(inner), n));
      && (FlowStays(yaml, inner, n) ==> yaml.mapping(written) == Some(yaml.mapping(inner).value[NUMBER := Number(n)]))
      && (!FlowStays(yaml, inner, n) ==> FlowNumber(yaml, written) != Some(n))
  {
    hide Segments, Yaml.Lawful, Sensible, Merged, NumberStays, Commas, Replaced;
    DecodedIsSensible(yaml, inner);
    var segments := Segments(inner);
    var replaced := Replaced(yaml, segments, n);
    if HasNumber(yaml, segments) {
      assert replaced + [] == replaced;
      ReplacedIsSensible(yaml, segments, n);
      SensibleDecodes(yaml, replaced);
      ReplacedMerges(yaml, segments, n);
      if NumberStays(yaml, segments, n) {
        MapsUpdated(Merged(yaml, segments), Merged(yaml, replaced), n);
      }
    } else {
      NothingReplaced(yaml, segments, n);
      AppendedDecodes(yaml, segments, n);
      SensibleNotEmpty(yaml, segments);
    }
  }

  lemma SensibleNotEmpty(yaml: Yaml, segments: seq<string>)
    requires Sensible(yaml, segments)
    ensures segments != []
  {
  }

  // The text between the braces of a flow item.
  function Inside(line: string): string {
    match ParseFlow(line)
    case None => ""
    case Some(flow) => flow.inner
  }

  // A flow item whose segments are entries or gaps.
  predicate ReadableFlow(yaml: Yaml, line: string) {
    ParseFlow(line).Some? ==> Readable(yaml, Segments(Inside(line)))
  }

  /** A rewritten flow item is one item again. It names the subtask and its number if and only
      if a replaced number was the last one of the mapping, or an appended one follows no
      trailing comma; then the mapping is the old one with the number set, and nothing else
      changed. */
  lemma FlowWriteReads(yaml: Yaml, line: string, id: string, n: nat)
    requires yaml.Lawful() && OneLine(line) && NeatFlow(line) && ReadableFlow(yaml, line)
    requires WriteFlow(yaml, line, id, n).Some?
    ensures var written := WriteFlow(yaml, line, id, n).value;
      var inner, after := Inside(line), Inside(written);
      && ParseFlow(written).Some? && NeatFlow(written) && yaml.mapping(inner).Some?
      && (FlowStays(yaml, inner, n) <==> FlowId(yaml, after) == Some(id) && FlowNumber(yaml, after) == Some(n))
      && (FlowStays(yaml, inner, n) ==> yaml.mapping(after) == Some(yaml.mapping(inner).value[NUMBER := Number(n)]))
  {
    hide Neat, ReadAll, ClosesEarly, Pieces, Commas, ParseFlow, WithNumber, FlowStays, Yaml.Lawful, Segments;
    var flow := ParseFlow(line).value;
    var segments := Segments(flow.inner);
    NeatSegments(line);
    WithNumberIsNeat(yaml, segments, n);
    DecodedIsSensible(yaml, flow.inner);
    SensibleNotEmpty(yaml, segments);
    var parts := WithNumber(yaml, segments, n);
    PartsStand(yaml, segments, n);
    JoinedPartsSplit(parts);
    RenderedFlowParses(line, Commas(parts));
    SegmentsOf(Commas(parts), parts);
    WrittenDecodes(yaml, flow.inner, n);
    assert NUMBER[0] == 'i' && NUMBER[1] == 's' && "id"[1] == 'd';
  }

  lemma SegmentsOf(inner: string, parts: seq<string>)
    requires Pieces(inner, 0, 0) == parts && parts != [] && parts[|parts| - 1] != ""
    ensures Segments(inner) == parts
  {
  }

  lemma PartsStand(yaml: Yaml, segments: seq<string>, n: nat)
    requires segments != [] && segments[|segments| - 1] != ""
    ensures var parts := WithNumber(yaml, segments, n); parts != [] && parts[|parts| - 1] != ""
  {
    DecimalDigits(n);
  }

  // ---- A trailing comma ----

  lemma TwoPieces(x: string, w: string)
    requires Quiet(x) && Quiet(w) && w != ""
    ensures Segments(x + "," + w) == [x, w]
  {
    hide Pieces;
    QuietIsNeat(x);
    QuietIsNeat(w);
    JoinedPartsSplit([x, w]);
    assert [x, w][1..] == [w] && Commas([x, w]) == x + "," + w;
    SegmentsOf(x + "," + w, [x, w]);
  }

  lemma IdIsNoNumber(m: map<string, Scalar>)
    requires m.Keys == {"id"}
    ensures NUMBER !in m && m.Keys != {NUMBER}
  {
    assert "id"[1] != NUMBER[1];
  }

  lemma TrailingCommaSegments(yaml: Yaml)
    requires yaml.Lawful() && yaml.entries("id: a") == Some(map["id" := Text("a")])
    ensures FlowId(yaml, "id: a, ") == Some("a") && Segments("id: a, ") == ["id: a", " "]
    ensures WithNumber(yaml, ["id: a", " "], 7) == ["id: a", " ", " issue_number: 7"]
  {
    hide Yaml.Lawful, Segments;
    var x, w := "id: a", " ";
    assert IsGap(w) && x + "," + w == "id: a, ";
    GapAfter(yaml, x, w, "");
    WholeEntries(yaml, x);
    OnlyGap(yaml, w, "");
    TwoPieces(x, w);
    var one := map["id" := Text("a")];
    IdIsNoNumber(one);
    assert !IsNumberEntry(yaml, x) && !IsNumberEntry(yaml, w);
    SevenIsWritten();
    NothingReplaced(yaml, [x, w], 7);
  }

  lemma SevenIsWritten()
    ensures " issue_number: " + Decimal(7) == " issue_number: 7"
  {
    assert Decimal(7) == "7";
  }

  lemma TrailingCommaCloses()
    ensures NextClose("- {id: a, }", 2, 2) == Some(10)
  {
    hide NextClose, Closes, Pieces;
    var inner := "id: a, ";
    assert "- " + "{" + inner + "}" + "" == "- {id: a, }";
    QuietIsNeat("id: a");
    QuietIsNeat(" ");
    assert ["id: a", " "][1..] == [" "] && Commas(["id: a", " "]) == inner;
    JoinedPartsSplit(["id: a", " "]);
    ClosesFromInside("- ", inner, "");
    CloseIs("- {id: a, }", 2, 2, 10);
  }

  lemma TrailingCommaOpens()
    ensures FlowOpen("- {id: a, }") == Some(2)
  {
    hide IsSpace, SpaceRun;
    var body := "- {id: a, }";
    var after := " {id: a, }";
    assert body[1..] == after && body[0] == '-' && after[0] == ' ' && after[1] == '{' && body[2] == '{';
    DashIsNoSpace();
    assert IsSpace(after[0]);
    SpaceRunAt(body, 0);
    SpaceRunAt(after, 1);
  }

  lemma DashIsNoSpace()
    ensures !IsSpace('-') && !IsSpace('{') && IsSpace(' ')
  {
  }

  lemma TrailingCommaItem()
    ensures ParseFlow("- {id: a, }\n") == Some(Flow("- ", "id: a, ", "", "\n"))
  {
    hide FlowOpen, NextClose;
    var body, line := "- {id: a, }", "- {id: a, }\n";
    assert |line| == 12 && line[11] == '\n' && line[..11] == body && line[11..] == "\n";
    TrailingCommaOpens();
    TrailingCommaCloses();
    assert "- " + "{" + "id: a, " + "}" + "" == body;
    CutParts("- ", "id: a, ", "");
  }

  lemma CutParts(before: string, inner: string, after: string)
    ensures var text := before + "{" + inner + "}" + after;
      var close := |before| + 1 + |inner|;
      text[..|before|] == before && text[|before| + 1..close] == inner && text[close + 1..] == after
  {
  }

  /** An item with a space behind a trailing comma: the subtask is found, its number is put
      behind the gap, and the line that is saved no longer decodes. */
  lemma TrailingCommaBreaks(yaml: Yaml)
    requires yaml.Lawful() && yaml.entries("id: a") == Some(map["id" := Text("a")])
    ensures WriteFlow(yaml, "- {id: a, }\n", "a", 7) == Some("- {id: a, , issue_number: 7}\n")
    ensures yaml.mapping("id: a, , issue_number: 7") == None
  {
    hide Yaml.Lawful, ParseFlow, Segments, WithNumber, FlowId, Commas, Render;
    TrailingCommaItem();
    TrailingCommaSegments(yaml);
    TrailingCommaJoined();
    TrailingCommaRendered();
    OneGap();
    GapAfter(yaml, "id: a", " ", " issue_number: 7");
  }

  lemma OneGap()
    ensures IsGap(" ")
  {
  }

  lemma TrailingCommaJoined()
    ensures Commas(["id: a", " ", " issue_number: 7"]) == "id: a, , issue_number: 7"
    ensures "id: a" + "," + (" " + "," + " issue_number: 7") == "id: a, , issue_number: 7"
  {
    hide Commas;
    CommasOfThree("id: a", " ", " issue_number: 7");
  }

  lemma TrailingCommaRendered()
    ensures Render(Flow("- ", "id: a, , issue_number: 7", "", "\n")) == "- {id: a, , issue_number: 7}\n"
  {
  }

  lemma CommasOfThree(x: string, y: string, z: string)
    ensures Commas([x, y, z]) == x + "," + (y + "," + z)
  {
    CommasOne(z);
    assert [y, z][1..] == [z];
    assert Commas([y, z]) == y + "," + Commas([z]);
    assert [x, y, z][1..] == [y, z];
    assert Commas([x, y, z]) == x + "," + Commas([y, z]);
  }
}
