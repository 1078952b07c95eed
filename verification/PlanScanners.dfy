/** The two scanners of flow mappings: the matching brace, and the top-level commas. */
module PlanScanners {
  import opened Wrappers

  // Nesting depth, the open quote if any, and whether the next character is escaped.
  datatype Scan = Scan(depth: int, quote: Option<char>, escaped: bool)

  const OUTSIDE := Scan(0, None, false)

  // One character. Square brackets only nest for the comma scanner.
  function Read(s: Scan, c: char, square: bool): Scan {
    if s.escaped then s.(escaped := false)
    else if s.quote.Some? then
      if c == '\\' && s.quote.value == '"' then s.(escaped := true)
      else if c == s.quote.value then s.(quote := None)
      else s
    else if c == '"' || c == '\'' then s.(quote := Some(c))
    else if c == '{' || (square && c == '[') then s.(depth := s.depth + 1)
    else if c == '}' || (square && c == ']') then s.(depth := s.depth - 1)
    else s
  }

  function ReadAll(s: Scan, text: string, square: bool): Scan {
    if text == "" then s else Read(ReadAll(s, text[..|text| - 1], square), text[|text| - 1], square)
  }

  lemma {:induction false} ReadAllConcat(s: Scan, a: string, b: string, square: bool)
    ensures ReadAll(s, a + b, square) == ReadAll(ReadAll(s, a, square), b, square)
  {
    if b == "" {
      assert a + b == a;
    } else {
      ReadAllConcat(s, a, b[..|b| - 1], square);
      assert (a + b)[..|a + b| - 1] == a + b[..|b| - 1];
    }
  }

  lemma ReadOne(s: Scan, c: char, square: bool)
    ensures ReadAll(s, [c], square) == Read(s, c, square)
  {
    assert [c][..0] == "";
  }

  predicate Plain(s: Scan) {
    s.quote.None? && !s.escaped
  }

  // ---- The matching brace ----

  // An unquoted closing brace at i that brings the depth, counted from open, to zero.
  predicate Closes(text: string, open: nat, i: nat) {
    && open <= i < |text| && text[i] == '}'
    && Plain(ReadAll(OUTSIDE, text[open..i], false)) && ReadAll(OUTSIDE, text[open..i], false).depth == 1
  }

  lemma SliceNext(text: string, from: nat, i: nat, square: bool)
    requires from <= i < |text|
    ensures ReadAll(OUTSIDE, text[from..i + 1], square) == Read(ReadAll(OUTSIDE, text[from..i], square), text[i], square)
  {
    assert text[from..i + 1][..i - from] == text[from..i];
  }

  /** The scanner returns the first index where the unquoted brace depth returns to zero. */
  method FindMatchingBrace(text: string, open: nat) returns (r: Option<nat>)
    requires open <= |text|
    ensures r.Some? ==> Closes(text, open, r.value) && forall j | open <= j < r.value :: !Closes(text, open, j)
    ensures r.None? ==> forall j | open <= j < |text| :: !Closes(text, open, j)
  {
    var depth: int := 0;
    var quote: Option<char> := None;
    var index := open;
    assert text[open..open] == "";
    while index < |text|
      invariant open <= index <= |text|
      invariant ReadAll(OUTSIDE, text[open..index], false) == Scan(depth, quote, false)
        || (index == |text| && ReadAll(OUTSIDE, text[open..index], false) == Scan(depth, quote, true))
      invariant forall j | open <= j < index :: !Closes(text, open, j)
    {
      var c := text[index];
      SliceNext(text, open, index, false);
      if quote.Some? {
        if c == '\\' && quote.value == '"' && index + 1 < |text| {
          SliceNext(text, open, index + 1, false);
          index := index + 2;
          continue;
        }
        if c == quote.value {
          quote := None;
        }
      } else if c == '"' || c == '\'' {
        quote := Some(c);
      } else if c == '{' {
        depth := depth + 1;
      } else if c == '}' {
        depth := depth - 1;
        if depth == 0 {
          return Some(index);
        }
      }
      index := index + 1;
    }
    r := None;
  }

  // ---- Top-level commas ----

  // A comma outside quotes and nesting.
  predicate SplitPoint(inner: string, i: nat) {
    i < |inner| && inner[i] == ',' && ReadAll(OUTSIDE, inner[..i], true) == OUTSIDE
  }

  // The text between split points, from `start`, with the split points from `i` on.
  function Pieces(inner: string, start: nat, i: nat): (pieces: seq<string>)
    requires start <= i <= |inner|
    ensures pieces != []
    decreases |inner| - i
  {
    if i == |inner| then [inner[start..]]
    else if SplitPoint(inner, i) then [inner[start..i]] + Pieces(inner, i + 1, i + 1)
    else Pieces(inner, start, i + 1)
  }

  // An empty piece after a trailing comma is dropped.
  function DropEmptyLast(pieces: seq<string>): seq<string> {
    if pieces != [] && pieces[|pieces| - 1] == "" then pieces[..|pieces| - 1] else pieces
  }

  function Segments(inner: string): seq<string> {
    DropEmptyLast(Pieces(inner, 0, 0))
  }

  function Commas(parts: seq<string>): string {
    if parts == [] then "" else if |parts| == 1 then parts[0] else parts[0] + "," + Commas(parts[1..])
  }

  lemma {:induction false} CommasPieces(inner: string, start: nat, i: nat)
    requires start <= i <= |inner|
    ensures Commas(Pieces(inner, start, i)) == inner[start..]
    decreases |inner| - i
  {
    if i < |inner| {
      if SplitPoint(inner, i) {
        CommasPieces(inner, i + 1, i + 1);
        assert inner[start..] == inner[start..i] + "," + inner[i + 1..];
      } else {
        CommasPieces(inner, start, i + 1);
      }
    }
  }

  lemma {:induction false} CommasLast(parts: seq<string>)
    requires |parts| >= 2
    ensures Commas(parts) == Commas(parts[..|parts| - 1]) + "," + parts[|parts| - 1]
  {
    if |parts| == 2 {
      assert parts[1..] == [parts[1]] && parts[..1] == [parts[0]];
    } else {
      CommasLast(parts[1..]);
      assert parts[1..][..|parts| - 2] == parts[..|parts| - 1][1..];
    }
  }

  /** Joining the segments with commas gives the input back, except for one dropped comma
      at the very end, which then is a top-level one. */
  lemma SegmentsJoinBack(inner: string)
    ensures Commas(Segments(inner)) == inner || (
      && inner != "" && SplitPoint(inner, |inner| - 1) && Commas(Segments(inner)) + "," == inner)
  {
    var pieces := Pieces(inner, 0, 0);
    CommasPieces(inner, 0, 0);
    LastPiece(inner, 0, 0);
    if pieces[|pieces| - 1] == "" {
      if |pieces| >= 2 {
        CommasLast(pieces);
      } else {
        assert pieces == [""];
      }
    }
  }

  lemma {:induction false} LastPiece(inner: string, start: nat, i: nat)
    requires start <= i <= |inner|
    ensures var pieces := Pieces(inner, start, i);
      pieces[|pieces| - 1] == "" && |pieces| >= 2 ==> inner != "" && SplitPoint(inner, |inner| - 1)
    decreases |inner| - i
  {
    if i < |inner| {
      if SplitPoint(inner, i) {
        var rest := Pieces(inner, i + 1, i + 1);
        LastPiece(inner, i + 1, i + 1);
        if |rest| == 1 && rest[0] == "" {
          CommasPieces(inner, i + 1, i + 1);
          assert inner[i + 1..] == "";
        }
      } else {
        LastPiece(inner, start, i + 1);
      }
    }
  }

  method SplitFlowTopLevel(inner: string) returns (segments: seq<string>)
    ensures segments == Segments(inner)
  {
    hide SplitPoint, Pieces, ReadAll;
    segments := [];
    var depth: int := 0;
    var quote: Option<char> := None;
    var current := "";
    ghost var start := 0;
    var index := 0;
    assert inner[..0] == "";
    assert ReadAll(OUTSIDE, "", true) == OUTSIDE by { ReadNothing(); }
    while index < |inner|
      invariant start <= index <= |inner| && current == inner[start..index]
      invariant ReadAll(OUTSIDE, inner[..index], true) == Scan(depth, quote, false)
        || (index == |inner| && ReadAll(OUTSIDE, inner[..index], true) == Scan(depth, quote, true))
      invariant segments + Pieces(inner, start, index) == Pieces(inner, 0, 0)
      decreases |inner| - index
    {
      var c := inner[index];
      AtSplit(inner, index);
      PiecesStep(inner, start, index);
      if quote.Some? {
        current := current + [c];
        if c == '\\' && quote.value == '"' && index + 1 < |inner| {
          AtSplit(inner, index + 1);
          PiecesStep(inner, start, index + 1);
          index := index + 1;
          current := current + [inner[index]];
        } else if c == quote.value {
          quote := None;
        }
      } else if c == '"' || c == '\'' {
        quote := Some(c);
        current := current + [c];
      } else if c == '{' || c == '[' {
        depth := depth + 1;
        current := current + [c];
      } else if c == '}' || c == ']' {
        depth := depth - 1;
        current := current + [c];
      } else if c == ',' && depth == 0 {
        segments := segments + [current];
        current := "";
        start := index + 1;
      } else {
        current := current + [c];
      }
      index := index + 1;
    }
    assert current == inner[start..];
    PiecesEnd(inner, start);
    if current != "" {
      segments := segments + [current];
    } else {
      assert (segments + [""])[..|segments|] == segments;
    }
  }

  // What reading one more character means for the split.
  lemma AtSplit(inner: string, i: nat)
    requires i < |inner|
    ensures ReadAll(OUTSIDE, inner[..i + 1], true) == Read(ReadAll(OUTSIDE, inner[..i], true), inner[i], true)
    ensures SplitPoint(inner, i) <==> inner[i] == ',' && ReadAll(OUTSIDE, inner[..i], true) == OUTSIDE
  {
    assert inner[..i + 1][..i] == inner[..i];
  }

  lemma ReadNothing()
    ensures ReadAll(OUTSIDE, "", true) == OUTSIDE
  {
  }

  lemma PiecesStep(inner: string, start: nat, i: nat)
    requires start <= i < |inner|
    ensures Pieces(inner, start, i) ==
      if SplitPoint(inner, i) then [inner[start..i]] + Pieces(inner, i + 1, i + 1) else Pieces(inner, start, i + 1)
  {
  }

  lemma PiecesEnd(inner: string, start: nat)
    requires start <= |inner|
    ensures Pieces(inner, start, |inner|) == [inner[start..]]
  {
  }

  // ---- Reading a rewritten mapping again ----

  // An unquoted closing brace inside a mapping that would close the mapping itself.
  predicate ClosesEarly(inner: string, j: nat) {
    j < |inner| && inner[j] == '}'
    && Plain(ReadAll(OUTSIDE, inner[..j], false)) && ReadAll(OUTSIDE, inner[..j], false).depth == 0
  }

  // A piece of text both scanners read from outside to outside, without a comma or a
  // brace that belongs to the mapping around it.
  ghost predicate Neat(part: string) {
    && ReadAll(OUTSIDE, part, true) == OUTSIDE && ReadAll(OUTSIDE, part, false) == OUTSIDE
    && (forall i: nat :: !SplitPoint(part, i)) && (forall j: nat :: !ClosesEarly(part, j))
  }

  // Text that needs no scanning at all.
  predicate Quiet(text: string) {
    forall c | c in text :: c !in ['"', '\'', '{', '}', '[', ']', ',', '\\']
  }

  lemma {:induction false} QuietReads(text: string, square: bool)
    requires Quiet(text)
    ensures ReadAll(OUTSIDE, text, square) == OUTSIDE
  {
    if text != "" {
      assert text[|text| - 1] in text && Quiet(text[..|text| - 1]);
      QuietReads(text[..|text| - 1], square);
    }
  }

  lemma QuietIsNeat(text: string)
    requires Quiet(text)
    ensures Neat(text)
  {
    QuietReads(text, true);
    QuietReads(text, false);
    forall i: nat ensures !SplitPoint(text, i) && !ClosesEarly(text, i) {
      assert i < |text| ==> text[i] in text;
    }
  }

  // Reading deeper inside changes nothing but the depth.
  lemma {:induction false} ReadDeeper(s: Scan, text: string, square: bool, more: int)
    ensures ReadAll(s.(depth := s.depth + more), text, square) ==
      ReadAll(s, text, square).(depth := ReadAll(s, text, square).depth + more)
  {
    if text != "" {
      ReadDeeper(s, text[..|text| - 1], square, more);
    }
  }

  lemma SplitPointShift(a: string, b: string, i: nat)
    requires ReadAll(OUTSIDE, a, true) == OUTSIDE
    ensures SplitPoint(a + b, |a| + i) <==> SplitPoint(b, i)
  {
    if i < |b| {
      assert (a + b)[..|a| + i] == a + b[..i];
      ReadAllConcat(OUTSIDE, a, b[..i], true);
    }
  }

  lemma PrefixReads(a: string, b: string, i: nat)
    ensures i < |a| ==> (SplitPoint(a + b, i) <==> SplitPoint(a, i)) && (ClosesEarly(a + b, i) <==> ClosesEarly(a, i))
  {
    if i < |a| {
      assert (a + b)[..i] == a[..i];
    }
  }

  lemma ClosesEarlyShift(a: string, b: string, j: nat)
    requires ReadAll(OUTSIDE, a, false) == OUTSIDE
    ensures ClosesEarly(a + b, |a| + j) <==> ClosesEarly(b, j)
  {
    if j < |b| {
      assert (a + b)[..|a| + j] == a + b[..j];
      ReadAllConcat(OUTSIDE, a, b[..j], false);
    }
  }

  // A neat part and a comma read as nothing.
  lemma NeatCommaReads(part: string, rest: string, square: bool)
    requires Neat(part)
    ensures ReadAll(OUTSIDE, part + ",", square) == OUTSIDE
    ensures ReadAll(OUTSIDE, part + "," + rest, square) == ReadAll(OUTSIDE, rest, square)
  {
    NeatFacts(part);
    hide Neat, ReadAll;
    ReadAllConcat(OUTSIDE, part, ",", square);
    ReadOne(OUTSIDE, ',', square);
    ReadAllConcat(OUTSIDE, part + ",", rest, square);
  }

  // The comma after a neat part is the first split point.
  lemma NeatThenSplits(part: string, rest: string)
    requires Neat(part)
    ensures SplitPoint(part + "," + rest, |part|)
    ensures forall i | 0 <= i < |part| :: !SplitPoint(part + "," + rest, i)
  {
    NeatFacts(part);
    hide Neat, ReadAll, SplitPoint;
    var text := part + "," + rest;
    assert text == part + ("," + rest) && text[..|part|] == part;
    AtSplit(text, |part|);
    forall i | 0 <= i < |part| ensures !SplitPoint(text, i) {
      PrefixReads(part, "," + rest, i);
    }
  }

  lemma SplitsAfterComma(part: string, rest: string)
    requires Neat(part)
    ensures forall i: nat :: SplitPoint((part + ",") + rest, |part + ","| + i) <==> SplitPoint(rest, i)
  {
    NeatCommaReads(part, rest, true);
    hide Neat, ReadAll, SplitPoint;
    forall i: nat ensures SplitPoint((part + ",") + rest, |part + ","| + i) <==> SplitPoint(rest, i) {
      SplitPointShift(part + ",", rest, i);
    }
  }

  // Nothing closes before the rest does.
  lemma NeatThenCloses(part: string, rest: string)
    requires Neat(part) && forall j: nat :: !ClosesEarly(rest, j)
    ensures forall j: nat :: !ClosesEarly(part + "," + rest, j)
  {
    hide Neat, ReadAll, ClosesEarly;
    NeatFacts(part);
    var text := part + "," + rest;
    NeatCommaReads(part, rest, false);
    assert text == part + ("," + rest) && text == (part + ",") + rest;
    forall j: nat ensures !ClosesEarly(text, j) {
      if j < |part| {
        PrefixReads(part, "," + rest, j);
      } else if j > |part| {
        ClosesEarlyShift(part + ",", rest, j - |part| - 1);
      } else {
        NotABrace(text, j);
      }
    }
  }

  lemma NotABrace(text: string, j: nat)
    requires j < |text| && text[j] != '}'
    ensures !ClosesEarly(text, j)
  {
  }

  lemma NeatFacts(part: string)
    requires Neat(part)
    ensures ReadAll(OUTSIDE, part, true) == OUTSIDE && ReadAll(OUTSIDE, part, false) == OUTSIDE
    ensures (forall i: nat :: !SplitPoint(part, i)) && (forall j: nat :: !ClosesEarly(part, j))
  {
  }

  lemma {:induction false} PiecesSkip(inner: string, start: nat, i: nat, k: nat)
    requires start <= i <= k <= |inner| && forall j | i <= j < k :: !SplitPoint(inner, j)
    ensures Pieces(inner, start, i) == Pieces(inner, start, k)
    decreases k - i
  {
    if i < k {
      PiecesSkip(inner, start, i + 1, k);
    }
  }

  // Pieces after a split point are the pieces of the rest.
  lemma {:induction false} PiecesShift(a: string, b: string, start: nat, i: nat)
    requires start <= i <= |b| && forall k: nat :: SplitPoint(a + b, |a| + k) <==> SplitPoint(b, k)
    ensures Pieces(a + b, |a| + start, |a| + i) == Pieces(b, start, i)
    decreases |b| - i
  {
    if i == |b| {
      assert (a + b)[|a| + start..] == b[start..];
    } else if SplitPoint(b, i) {
      assert SplitPoint(a + b, |a| + i);
      PiecesShift(a, b, i + 1, i + 1);
      assert (a + b)[|a| + start..|a| + i] == b[start..i];
    } else {
      assert !SplitPoint(a + b, |a| + i);
      PiecesShift(a, b, start, i + 1);
    }
  }

  /** Neat parts joined with commas split into exactly those parts, and a brace after them
      is the one that closes the mapping. */
  lemma {:induction false} JoinedPartsSplit(parts: seq<string>)
    requires parts != [] && forall p | p in parts :: Neat(p)
    ensures var inner := Commas(parts);
      && Pieces(inner, 0, 0) == parts
      && ReadAll(OUTSIDE, inner, true) == OUTSIDE && ReadAll(OUTSIDE, inner, false) == OUTSIDE
      && forall j: nat :: !ClosesEarly(inner, j)
  {
    hide Neat, SplitPoint, ClosesEarly, ReadAll;
    assert parts[0] in parts;
    NeatFacts(parts[0]);
    if |parts| == 1 {
      PiecesSkip(parts[0], 0, 0, |parts[0]|);
    } else {
      var rest := Commas(parts[1..]);
      JoinedPartsSplit(parts[1..]);
      NeatThenSplits(parts[0], rest);
      SplitsAfterComma(parts[0], rest);
      NeatThenCloses(parts[0], rest);
      NeatCommaReads(parts[0], rest, true);
      NeatCommaReads(parts[0], rest, false);
      var inner := parts[0] + "," + rest;
      PiecesSkip(inner, 0, 0, |parts[0]|);
      assert inner == (parts[0] + ",") + rest && |parts[0] + ","| == |parts[0]| + 1;
      PiecesShift(parts[0] + ",", rest, 0, 0);
      assert inner[0..|parts[0]|] == parts[0];
    }
  }

  // Inside the mapping the depth is one more.
  lemma InsideReads(before: string, inner: string, after: string, k: nat)
    requires k <= |inner|
    ensures var text := before + "{" + inner + "}" + after;
      var s := ReadAll(OUTSIDE, inner[..k], false);
      ReadAll(OUTSIDE, text[|before|..|before| + 1 + k], false) == s.(depth := s.depth + 1)
  {
    var text := before + "{" + inner + "}" + after;
    var part := inner[..k];
    assert text[|before|..|before| + 1 + k] == "{" + part;
    hide ReadAll;
    ReadOne(OUTSIDE, '{', false);
    ReadAllConcat(OUTSIDE, "{", part, false);
    ReadDeeper(OUTSIDE, part, false, 1);
  }

  // The first closing brace of a mapping, seen from inside.
  lemma ClosesFromInside(before: string, inner: string, after: string)
    requires ReadAll(OUTSIDE, inner, false) == OUTSIDE && forall j: nat :: !ClosesEarly(inner, j)
    ensures var text := before + "{" + inner + "}" + after;
      var close := |before| + 1 + |inner|;
      && Closes(text, |before|, close) && forall j | |before| <= j < close :: !Closes(text, |before|, j)
  {
    hide ReadAll;
    var text := before + "{" + inner + "}" + after;
    var close := |before| + 1 + |inner|;
    InsideReads(before, inner, after, |inner|);
    assert inner[..|inner|] == inner && text[close] == '}';
    forall j | |before| <= j < close ensures !Closes(text, |before|, j) {
      if j > |before| {
        InsideReads(before, inner, after, j - |before| - 1);
        assert !ClosesEarly(inner, j - |before| - 1) && text[j] == inner[j - |before| - 1];
      }
    }
  }
}
