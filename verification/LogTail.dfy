/** The last lines of a log, read backwards in chunks: equal to splitting the whole file. */
module LogTail {
  import opened Wrappers

  newtype byte = x: int | 0 <= x < 256

  const TAIL_CHUNK_SIZE: nat := 8192
  const NEWLINE: byte := 10

  // A byte decoder that replaces what it cannot read. In UTF-8 a newline byte is never
  // part of another character, so decoding splits at it.
  datatype Decoder = Decoder(decode: seq<byte> -> string) {
    ghost predicate Lawful() {
      && decode([]) == ""
      && forall a, b {:trigger decode(a + [NEWLINE] + b)} :: decode(a + [NEWLINE] + b) == decode(a) + "\n" + decode(b)
    }
  }

  // ---- Splitting into lines ----

  predicate IsBreak(c: char) {
    || c == '\n' || c == '\r' || c == '\U{000b}' || c == '\U{000c}'
    || '\U{001c}' <= c <= '\U{001e}' || c == '\U{0085}' || c == '\U{2028}' || c == '\U{2029}'
  }

  // The length of the first line, without its break.
  function LineEnd(s: string): (n: nat)
    ensures n <= |s| && (n < |s| ==> IsBreak(s[n]))
    ensures forall i | 0 <= i < n :: !IsBreak(s[i])
  {
    if s == "" || IsBreak(s[0]) then 0 else 1 + LineEnd(s[1..])
  }

  // Where the next line starts; a carriage return and a newline are one break.
  function NextLine(s: string): (m: nat)
    requires LineEnd(s) < |s|
    ensures LineEnd(s) < m <= |s|
  {
    var n := LineEnd(s);
    if s[n] == '\r' && n + 1 < |s| && s[n + 1] == '\n' then n + 2 else n + 1
  }

  function SplitLines(s: string): seq<string>
    decreases |s|
  {
    if s == "" then []
    else if LineEnd(s) == |s| then [s]
    else [s[..LineEnd(s)]] + SplitLines(s[NextLine(s)..])
  }

  lemma LineEndIs(s: string, n: nat)
    requires n < |s| && IsBreak(s[n]) && forall i | 0 <= i < n :: !IsBreak(s[i])
    ensures LineEnd(s) == n
  {
  }

  // The first line of a text that has a newline does not depend on what follows it.
  lemma FirstLine(x: string, y: string) returns (n: nat, m: nat)
    ensures var head, whole := x + "\n", x + "\n" + y;
      && n <= |x| && n == LineEnd(head) == LineEnd(whole)
      && m == NextLine(head) == NextLine(whole)
      && whole[..n] == head[..n]
      && (m <= |x| ==> whole[m..] == x[m..] + "\n" + y && head[m..] == x[m..] + "\n")
      && (m > |x| ==> whole[m..] == y && head[m..] == "")
  {
    var head, whole := x + "\n", x + "\n" + y;
    n := LineEnd(head);
    assert head[|x|] == '\n' && whole[|x|] == '\n';
    assert forall i | 0 <= i <= |x| :: whole[i] == head[i];
    LineEndIs(whole, n);
    m := NextLine(head);
  }

  /** After a newline the split starts afresh. */
  lemma {:induction false} SplitAfterNewline(x: string, y: string)
    ensures SplitLines(x + "\n" + y) == SplitLines(x + "\n") + SplitLines(y)
    ensures SplitLines(x + "\n") != []
    decreases |x|
  {
    var n, m := FirstLine(x, y);
    hide LineEnd, NextLine;
    if m <= |x| {
      SplitAfterNewline(x[m..], y);
    }
  }

  // ---- What the lines are ----

  function Woven(lines: seq<string>, breaks: seq<string>): string
    requires |lines| == |breaks|
  {
    if lines == [] then "" else lines[0] + breaks[0] + Woven(lines[1..], breaks[1..])
  }

  // Line i holds no break, and what follows it is one break, or the end behind a last line
  // that is not empty. A carriage return takes a newline behind it along.
  ghost predicate EndsAt(lines: seq<string>, breaks: seq<string>, i: nat)
    requires |lines| == |breaks| && i < |lines|
  {
    && (forall c | c in lines[i] :: !IsBreak(c))
    && if breaks[i] == "" then i == |lines| - 1 && lines[i] != ""
       else
         || breaks[i] == "\r\n"
         || (|breaks[i]| == 1 && IsBreak(breaks[i][0])
             && (breaks[i] == "\r" ==> !("\n" <= Woven(lines[i + 1..], breaks[i + 1..]))))
  }

  ghost predicate CutInto(s: string, lines: seq<string>, breaks: seq<string>) {
    && |lines| == |breaks| && s == Woven(lines, breaks)
    && forall i | 0 <= i < |lines| :: EndsAt(lines, breaks, i)
  }

  lemma BreaksAre()
    ensures forall c :: IsBreak(c) <==>
      c in ['\n', '\r', '\U{000b}', '\U{000c}', '\U{001c}', '\U{001d}', '\U{001e}', '\U{0085}', '\U{2028}', '\U{2029}']
  {
  }

  lemma CutTail(lines: seq<string>, breaks: seq<string>)
    requires |lines| == |breaks| && lines != []
    ensures CutInto(Woven(lines, breaks), lines, breaks) <==>
      EndsAt(lines, breaks, 0) && CutInto(Woven(lines[1..], breaks[1..]), lines[1..], breaks[1..])
  {
    hide IsBreak, Woven;
    var l, b := lines[1..], breaks[1..];
    forall i | 0 <= i < |l| ensures EndsAt(l, b, i) <==> EndsAt(lines, breaks, i + 1) {
      assert l[i + 1..] == lines[i + 2..] && b[i + 1..] == breaks[i + 2..];
    }
    assert forall i | 1 <= i < |lines| :: EndsAt(lines, breaks, i) <==> EndsAt(l, b, i - 1);
  }

  // The break behind the first line of a text.
  lemma {:induction false} SplitIsCut(s: string) returns (breaks: seq<string>)
    ensures CutInto(s, SplitLines(s), breaks)
    decreases |s|
  {
    hide IsBreak, LineEnd;
    if s == "" {
      breaks := [];
    } else if LineEnd(s) == |s| {
      breaks := [""];
      assert Woven([s], [""]) == s;
    } else {
      var n, m := LineEnd(s), NextLine(s);
      var rest := SplitIsCut(s[m..]);
      breaks := [s[n..m]] + rest;
      FirstBreak(s);
      OneMoreCut(s[..n], s[n..m], SplitLines(s[m..]), rest);
    }
  }

  // The break behind the first line.
  lemma FirstBreak(s: string)
    requires LineEnd(s) < |s|
    ensures var n, m := LineEnd(s), NextLine(s);
      && s == s[..n] + s[n..m] + s[m..] && (forall c | c in s[..n] :: !IsBreak(c))
      && (s[n..m] == "\r\n" || (|s[n..m]| == 1 && IsBreak(s[n..m][0]) && (s[n..m] == "\r" ==> !("\n" <= s[m..]))))
  {
    hide IsBreak, LineEnd;
    var n, m := LineEnd(s), NextLine(s);
    NoBreakBefore(s);
    ThreeParts(s, n, m);
    assert s[n..n + 1] == [s[n]];
    assert m == n + 2 ==> s[n..m] == [s[n], s[n + 1]];
    assert "\n" <= s[m..] ==> m < |s| && s[m] == '\n';
  }

  lemma NoBreakBefore(s: string)
    ensures forall c | c in s[..LineEnd(s)] :: !IsBreak(c)
  {
    hide IsBreak;
    var n := LineEnd(s);
    forall c | c in s[..n] ensures !IsBreak(c) {
      var i :| 0 <= i < n && s[..n][i] == c;
      assert s[i] == c;
    }
  }

  lemma ThreeParts(s: string, n: nat, m: nat)
    requires n <= m <= |s|
    ensures s == s[..n] + s[n..m] + s[m..]
  {
  }

  lemma OneMoreCut(line: string, brk: string, lines: seq<string>, breaks: seq<string>)
    requires |lines| == |breaks| && CutInto(Woven(lines, breaks), lines, breaks) && forall c | c in line :: !IsBreak(c)
    requires brk == "\r\n" || (|brk| == 1 && IsBreak(brk[0]) && (brk == "\r" ==> !("\n" <= Woven(lines, breaks))))
    ensures CutInto(line + brk + Woven(lines, breaks), [line] + lines, [brk] + breaks)
  {
    hide IsBreak;
    var l, b := [line] + lines, [brk] + breaks;
    assert l[1..] == lines && b[1..] == breaks;
    CutTail(l, b);
  }

  lemma {:induction false} CutIsSplit(s: string, lines: seq<string>, breaks: seq<string>)
    requires CutInto(s, lines, breaks)
    ensures lines == SplitLines(s)
    decreases |lines|
  {
    hide IsBreak;
    if lines != [] {
      CutTail(lines, breaks);
      var rest := Woven(lines[1..], breaks[1..]);
      CutIsSplit(rest, lines[1..], breaks[1..]);
      assert EndsAt(lines, breaks, 0);
      assert lines == [lines[0]] + lines[1..];
      if breaks[0] == "" {
        WholeLine(lines[0], rest);
        assert lines[1..] == [];
      } else {
        FirstCut(lines[0], breaks[0], rest);
      }
    }
  }

  lemma WholeLine(line: string, rest: string)
    requires line != "" && forall c | c in line :: !IsBreak(c)
    ensures rest == "" ==> SplitLines(line + "" + rest) == [line]
  {
    hide IsBreak;
    assert rest == "" ==> line + "" + rest == line;
    assert forall i | 0 <= i < |line| :: line[i] in line;
  }

  lemma FirstCut(line: string, brk: string, rest: string)
    requires forall c | c in line :: !IsBreak(c)
    requires brk == "\r\n" || (|brk| == 1 && IsBreak(brk[0]) && (brk == "\r" ==> !("\n" <= rest)))
    ensures SplitLines(line + brk + rest) == [line] + SplitLines(rest)
  {
    hide IsBreak;
    BreaksAre();
    var s := line + brk + rest;
    var n := |line|;
    assert forall i | 0 <= i < n :: s[i] == line[i] && line[i] in line;
    assert s[n] == brk[0] && s[..n] == line && s[n + |brk|..] == rest;
    LineEndIs(s, n);
    assert n + 1 < |s| ==> s[n + 1] == if |brk| == 2 then '\n' else rest[0];
    assert NextLine(s) == n + |brk|;
  }

  /** The lines of a text are the one way to cut it at its breaks: put together with them they
      are the text, and none of them holds a break. */
  lemma SplitIff(s: string, lines: seq<string>)
    ensures lines == SplitLines(s) <==> exists breaks :: CutInto(s, lines, breaks)
  {
    var own := SplitIsCut(s);
    if breaks :| CutInto(s, lines, breaks) {
      CutIsSplit(s, lines, breaks);
    }
  }

  // ---- Counting newlines ----

  function Newlines(data: seq<byte>): nat {
    if data == [] then 0 else (if data[0] == NEWLINE then 1 else 0) + Newlines(data[1..])
  }

  lemma {:induction false} NewlinesConcat(a: seq<byte>, b: seq<byte>)
    ensures Newlines(a + b) == Newlines(a) + Newlines(b)
  {
    if a == [] {
      assert a + b == b;
    } else {
      NewlinesConcat(a[1..], b);
      assert (a + b)[1..] == a[1..] + b;
    }
  }

  // Bytes with a newline, cut at the first one.
  lemma {:induction false} CutAtNewline(data: seq<byte>) returns (a: seq<byte>, b: seq<byte>)
    requires Newlines(data) > 0
    ensures data == a + [NEWLINE] + b && Newlines(b) == Newlines(data) - 1
  {
    if data[0] == NEWLINE {
      a, b := [], data[1..];
      assert data == [] + [NEWLINE] + data[1..];
    } else {
      a, b := CutAtNewline(data[1..]);
      a := [data[0]] + a;
      assert data == a + [NEWLINE] + b;
    }
  }

  lemma {:induction false} AtLeastOneLineEach(decoder: Decoder, data: seq<byte>)
    requires decoder.Lawful()
    ensures |SplitLines(decoder.decode(data))| >= Newlines(data)
    decreases Newlines(data)
  {
    if Newlines(data) > 0 {
      var a, b := CutAtNewline(data);
      AtLeastOneLineEach(decoder, b);
      SplitAfterNewline(decoder.decode(a), decoder.decode(b));
    }
  }

  function Last(lines: seq<string>, n: nat): (last: seq<string>)
    ensures |last| == (if n < |lines| then n else |lines|) && exists more :: lines == more + last
  {
    assert lines == [] + lines;
    assert n < |lines| ==> lines == lines[..|lines| - n] + lines[|lines| - n..];
    if |lines| <= n then lines else lines[|lines| - n..]
  }

  lemma LastOfLonger(more: seq<string>, lines: seq<string>, n: nat)
    requires |lines| >= n
    ensures Last(more + lines, n) == Last(lines, n)
  {
  }

  /** A suffix with more than n newlines already holds the last n lines. */
  lemma SuffixIsEnough(decoder: Decoder, skipped: seq<byte>, data: seq<byte>, n: nat)
    requires decoder.Lawful() && Newlines(data) > n
    ensures Last(SplitLines(decoder.decode(data)), n) == Last(SplitLines(decoder.decode(skipped + data)), n)
  {
    hide SplitLines, Newlines, Last;
    var a, b := CutAtNewline(data);
    AtLeastOneLineEach(decoder, b);
    var rest := SplitLines(decoder.decode(b));
    SplitAfterNewline(decoder.decode(a), decoder.decode(b));
    SplitAfterNewline(decoder.decode(skipped + a), decoder.decode(b));
    assert skipped + data == (skipped + a) + [NEWLINE] + b;
    LastOfLonger(SplitLines(decoder.decode(a) + "\n"), rest, n);
    LastOfLonger(SplitLines(decoder.decode(skipped + a) + "\n"), rest, n);
  }

  // ---- The reader ----

  // The last n lines of the whole file; nothing for a missing file.
  function Tail(decoder: Decoder, file: Option<seq<byte>>, n: int): seq<string> {
    if n <= 0 || file.None? then [] else Last(SplitLines(decoder.decode(file.value)), n)
  }

  function Joined(chunks: seq<seq<byte>>): seq<byte> {
    if chunks == [] then [] else Joined(chunks[1..]) + chunks[0]
  }

  lemma {:induction false} JoinedAppend(chunks: seq<seq<byte>>, chunk: seq<byte>)
    ensures Joined(chunks + [chunk]) == chunk + Joined(chunks)
  {
    if chunks != [] {
      JoinedAppend(chunks[1..], chunk);
      assert (chunks + [chunk])[1..] == chunks[1..] + [chunk];
    } else {
      assert ([] + [chunk])[1..] == [];
    }
  }

  /** Reading backwards in chunks of any size gives the tail of the whole file. */
  method ReadTail(decoder: Decoder, file: Option<seq<byte>>, n: int, chunkSize: nat) returns (lines: seq<string>)
    requires decoder.Lawful() && chunkSize > 0
    ensures lines == Tail(decoder, file, n)
  {
    if n <= 0 {
      return [];
    }
    if file.None? {
      return [];
    }
    var content := file.value;
    var remaining := |content|;
    var chunks: seq<seq<byte>> := [];
    var newlineCount := 0;
    while remaining > 0 && newlineCount <= n
      invariant 0 <= remaining <= |content|
      invariant Joined(chunks) == content[remaining..] && newlineCount == Newlines(content[remaining..])
      decreases remaining
    {
      var readSize := if chunkSize < remaining then chunkSize else remaining;
      ghost var before := content[remaining..];
      remaining := remaining - readSize;
      var chunk := content[remaining..remaining + readSize];
      assert content[remaining..] == chunk + before;
      NewlinesConcat(chunk, before);
      JoinedAppend(chunks, chunk);
      newlineCount := newlineCount + Newlines(chunk);
      chunks := chunks + [chunk];
    }
    var data := Joined(chunks);
    var split := SplitLines(decoder.decode(data));
    assert content == content[..remaining] + content[remaining..];
    if remaining > 0 {
      SuffixIsEnough(decoder, content[..remaining], data, n);
    }
    lines := if split != [] then Last(split, n) else [];
  }

  method ReadLogTail(decoder: Decoder, file: Option<seq<byte>>, n: int) returns (lines: seq<string>)
    requires decoder.Lawful()
    ensures lines == Tail(decoder, file, n)
  {
    lines := ReadTail(decoder, file, n, TAIL_CHUNK_SIZE);
  }

  // ---- A decoder that meets the law ----

  function OneByteEach(data: seq<byte>): string {
    seq(|data|, i requires 0 <= i < |data| => data[i] as char)
  }

  /** The law is met, for one, by a single-byte encoding. */
  lemma SingleByteDecoderIsLawful()
    ensures Decoder(OneByteEach).Lawful()
  {
    var decoder := Decoder(OneByteEach);
    forall a, b ensures decoder.decode(a + [NEWLINE] + b) == decoder.decode(a) + "\n" + decoder.decode(b) {
      assert OneByteEach(a + [NEWLINE] + b) == OneByteEach(a) + "\n" + OneByteEach(b);
    }
  }
}
