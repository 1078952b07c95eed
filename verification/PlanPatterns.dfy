/** The line patterns of a plan, spelled out: which lines each of them accepts, and which
    piece of the line it takes. */
module PlanPatterns {
  import opened Wrappers
  import opened Whitespace
  import opened BranchNaming
  import opened PlanLines
  import opened PlanFlow
  import opened PlanBounds
  import opened PlanWriter

  // An ASCII letter or the underscore, and a digit, by their code points.
  predicate IsLetter(c: char) {
    65 <= c as int <= 90 || 97 <= c as int <= 122 || c as int == 95
  }

  predicate IsNumeral(c: char) {
    48 <= c as int <= 57
  }

  lemma LettersAre(c: char)
    ensures IsKeyStart(c) <==> IsLetter(c)
    ensures IsKeyChar(c) <==> IsLetter(c) || IsNumeral(c)
  {
  }

  predicate IsIdentifier(key: string) {
    key != "" && IsLetter(key[0]) && forall c | c in key :: IsLetter(c) || IsNumeral(c)
  }

  // White space and then text that does not begin with any.
  predicate Stripped(rest: string, ws: string, text: string) {
    rest == ws + text && Blank(ws) && (text != "" ==> !IsSpace(text[0]))
  }

  lemma StrippedIs(rest: string, ws: string, text: string)
    requires Stripped(rest, ws, text)
    ensures rest[SpaceRun(rest)..] == text
  {
    hide IsSpace;
    SpaceRunIs(ws, text);
  }

  lemma StrippedAtRun(rest: string)
    ensures Stripped(rest, rest[..SpaceRun(rest)], rest[SpaceRun(rest)..])
  {
    hide IsSpace;
    var ws := rest[..SpaceRun(rest)];
    forall c | c in ws ensures IsSpace(c) {
      var i :| 0 <= i < |ws| && ws[i] == c;
      assert rest[i] == c;
    }
  }

  predicate KeyPieces(text: string, kv: KeyValue, ws: string, value: string) {
    && IsIdentifier(kv.key) && kv.key + ":" <= text && Stripped(text[|kv.key| + 1..], ws, value)
    && kv.value == WithoutFinalNewline(value) && '\n' !in kv.value
  }

  /** A key is an identifier in front of a colon; its value is the rest of the line without
      the white space in front and the newline at the end. */
  lemma KeyIff(text: string, kv: KeyValue)
    ensures ParseKey(text) == Some(kv) <==>
      exists ws, value :: KeyPieces(text, kv, ws, value)
  {
    hide ParseKey, KeyPieces;
    if ParseKey(text) == Some(kv) {
      var ws, value := KeyTaken(text, kv);
    }
    if ws, value :| KeyPieces(text, kv, ws, value) {
      KeyMade(text, kv, ws, value);
    }
  }

  lemma KeyTaken(text: string, kv: KeyValue) returns (ws: string, value: string)
    requires ParseKey(text) == Some(kv)
    ensures KeyPieces(text, kv, ws, value)
  {
    hide IsSpace, WithoutFinalNewline, SpaceRun, Stripped, IsIdentifier;
    IdentifierHere(text);
    var rest := text[|kv.key| + 1..];
    StrippedAtRun(rest);
    ws, value := rest[..SpaceRun(rest)], rest[SpaceRun(rest)..];
  }

  lemma KeyMade(text: string, kv: KeyValue, ws: string, value: string)
    requires KeyPieces(text, kv, ws, value)
    ensures ParseKey(text) == Some(kv)
  {
    hide IsSpace, WithoutFinalNewline, SpaceRun, Stripped, IsIdentifier, RunLength;
    StrippedIs(text[|kv.key| + 1..], ws, value);
    IdentifierRuns(text, kv.key);
  }

  lemma IdentifierHere(text: string)
    requires ParseKey(text).Some?
    ensures var key := ParseKey(text).value.key; IsIdentifier(key) && key + ":" <= text
  {
    hide SpaceRun, WithoutFinalNewline, IsKeyStart, IsKeyChar;
    var k := RunLength(text, KeyChar);
    var key := text[..k];
    LettersAre(text[0]);
    forall c | c in key ensures IsLetter(c) || IsNumeral(c) {
      var i :| 0 <= i < k && key[i] == c;
      assert KeyChar(text[i]);
      LettersAre(c);
    }
    assert text[..k + 1] == key + ":";
  }

  lemma IdentifierRuns(text: string, key: string)
    requires IsIdentifier(key) && key + ":" <= text
    ensures RunLength(text, KeyChar) == |key| && IsKeyStart(text[0]) && text[..|key|] == key && text[|key|] == ':'
  {
    var rest := text[|key|..];
    assert text == key + rest && (key + ":")[|key|] == text[|key|] == ':';
    forall c | c in key ensures KeyChar(c) {
      LettersAre(c);
    }
    LettersAre(key[0]);
    assert text[0] == key[0] && rest[0] == ':';
    RunLengthIs(key, rest, KeyChar);
  }

  predicate IsLineEnd(s: string) {
    s == "" || s == "\n" || s == "\r" || s == "\r\n"
  }

  // Blanks and tabs, then nothing or a comment.
  predicate IsTail(blanks: string, comment: string) {
    && (forall c | c in blanks :: c == ' ' || c == '\t')
    && (comment == "" || (comment[0] == '#' && '\n' !in comment))
  }

  predicate TailEndsWith(s: string, tail: string, blanks: string, comment: string, end: string) {
    && IsTail(blanks, comment) && tail == blanks + comment && s == tail + end && IsLineEnd(end)
    && (comment != "" ==> end == "" || end == "\n")
  }

  /** What stands behind a value: blanks, perhaps a comment, and the end of the line. */
  lemma TailIff(s: string, tail: string)
    ensures ParseTail(s) == Some(tail) <==>
      exists blanks, comment, end :: TailEndsWith(s, tail, blanks, comment, end)
  {
    if ParseTail(s) == Some(tail) {
      var b := RunLength(s, BlankOrTab);
      var blanks, comment, end := s[..b], tail[b..], s[|tail|..];
      TailPieces(s, tail);
      assert TailEndsWith(s, tail, blanks, comment, end);
    }
    if blanks, comment, end :| TailEndsWith(s, tail, blanks, comment, end) {
      PiecesMakeTail(blanks, comment, end);
      assert s == blanks + comment + end;
    }
  }

  // Where the tail ends.
  lemma TailEnd(s: string, tail: string)
    requires ParseTail(s) == Some(tail)
    ensures var b := RunLength(s, BlankOrTab);
      var r := if s[b..] != "" && s[b..][0] == '#' then RunLength(s[b..], NotNewline) else 0;
      && b + r <= |s| && tail == s[..b + r] && IsLineEnd(s[b + r..])
      && (r > 0 ==> s[b + r..] == "" || s[b + r..] == "\n")
  {
    hide RunLength, ParseTail, IsLineEnd;
    var b := RunLength(s, BlankOrTab);
    var rest := s[b..];
    if rest != "" && rest[0] == '#' {
      CommentEnd(s, tail);
    } else {
      PlainEnd(s, tail);
      assert b + 0 == b;
    }
  }

  lemma CommentEnd(s: string, tail: string)
    requires ParseTail(s) == Some(tail)
    requires var b := RunLength(s, BlankOrTab); s[b..] != "" && s[b..][0] == '#'
    ensures var b := RunLength(s, BlankOrTab);
      var r := RunLength(s[b..], NotNewline);
      b + r <= |s| && tail == s[..b + r] && (s[b + r..] == "" || s[b + r..] == "\n") && IsLineEnd(s[b + r..])
  {
    hide RunLength, IsLineEnd, BlankOrTab, NotNewline;
    var b := RunLength(s, BlankOrTab);
    var r := RunLength(s[b..], NotNewline);
    ShortEnd(s[b + r..]);
  }

  lemma ShortEnd(rest: string)
    ensures rest == "" || rest == "\n" ==> IsLineEnd(rest)
  {
  }

  lemma PlainEnd(s: string, tail: string)
    requires ParseTail(s) == Some(tail)
    ensures var b := RunLength(s, BlankOrTab);
      !(s[b..] != "" && s[b..][0] == '#') ==> tail == s[..b] && IsLineEnd(s[b..])
  {
    hide RunLength, BlankOrTab;
  }

  lemma TailPieces(s: string, tail: string)
    requires ParseTail(s) == Some(tail)
    ensures var b := RunLength(s, BlankOrTab);
      && b <= |tail| <= |s| && IsTail(s[..b], tail[b..]) && tail == s[..b] + tail[b..] && s == tail + s[|tail|..] && IsLineEnd(s[|tail|..])
      && (tail[b..] != "" ==> s[|tail|..] == "" || s[|tail|..] == "\n")
  {
    hide RunLength, ParseTail, IsLineEnd, IsTail;
    var b := RunLength(s, BlankOrTab);
    TailEnd(s, tail);
    var rest := s[b..];
    var r := if rest != "" && rest[0] == '#' then RunLength(rest, NotNewline) else 0;
    Behind(s, b, r);
    TailIs(s, b, r);
    NothingOf(rest);
  }

  lemma NothingOf(rest: string)
    ensures rest[..0] == ""
  {
  }

  lemma TailIs(s: string, b: nat, r: nat)
    requires b == RunLength(s, BlankOrTab)
    requires r == if s[b..] != "" && s[b..][0] == '#' then RunLength(s[b..], NotNewline) else 0
    ensures IsTail(s[..b], s[b..][..r])
  {
    hide RunLength;
    var rest := s[b..];
    RunIs(s, BlankOrTab);
    RunIs(rest, NotNewline);
    assert rest[..r] != "" ==> rest[..r][0] == rest[0];
  }

  lemma RunIs(s: string, inside: char -> bool)
    ensures forall c | c in s[..RunLength(s, inside)] :: inside(c)
    ensures s != "" && inside(s[0]) ==> RunLength(s, inside) > 0
  {
    var n := RunLength(s, inside);
    forall c | c in s[..n] ensures inside(c) {
      var i :| 0 <= i < n && s[..n][i] == c;
      assert inside(s[i]);
    }
  }

  lemma Behind(s: string, b: nat, r: nat)
    requires b + r <= |s|
    ensures s[..b + r][b..] == s[b..][..r] && s[..b + r] == s[..b] + s[b..][..r]
    ensures s == s[..b + r] + s[b + r..] && s[b..][r..] == s[b + r..]
  {
  }

  lemma PiecesMakeTail(blanks: string, comment: string, end: string)
    requires IsTail(blanks, comment) && IsLineEnd(end) && (comment != "" ==> end == "" || end == "\n")
    ensures ParseTail(blanks + comment + end) == Some(blanks + comment)
  {
    hide RunLength;
    var s := blanks + comment + end;
    var rest := comment + end;
    assert s == blanks + rest;
    BlanksRun(blanks, rest);
    Behind(s, |blanks|, |comment|);
    assert s[|blanks|..] == rest && s[..|blanks|] == blanks && s[..|blanks| + |comment|] == blanks + comment;
    if comment != "" {
      CommentRun(comment, end);
      assert rest[|comment|..] == end && s[|blanks| + |comment|..] == end;
    } else {
      assert rest == end && blanks + comment == blanks;
    }
  }

  lemma BlanksRun(blanks: string, rest: string)
    requires (forall c | c in blanks :: c == ' ' || c == '\t') && (rest != "" ==> rest[0] != ' ' && rest[0] != '\t')
    ensures RunLength(blanks + rest, BlankOrTab) == |blanks|
  {
    if rest == "" {
      AllRun(blanks, BlankOrTab);
      assert blanks + rest == blanks;
    } else {
      RunLengthIs(blanks, rest, BlankOrTab);
    }
  }

  lemma CommentRun(comment: string, end: string)
    requires '\n' !in comment && (end == "" || end == "\n")
    ensures RunLength(comment + end, NotNewline) == |comment|
  {
    if end == "" {
      AllRun(comment, NotNewline);
      assert comment + end == comment;
    } else {
      RunLengthIs(comment, end, NotNewline);
    }
  }

  lemma {:induction false} AllRun(s: string, inside: char -> bool)
    requires forall c | c in s :: inside(c)
    ensures RunLength(s, inside) == |s|
  {
    if s != "" {
      assert s[0] in s;
      AllRun(s[1..], inside);
    }
  }

  /** A quoted value runs to the next quote of its kind. */
  lemma QuotedIff(s: string, n: nat)
    ensures QuotedLength(s) == Some(n) <==>
      2 <= n <= |s| && (s[0] == '"' || s[0] == '\'') && s[n - 1] == s[0] && forall i | 1 <= i < n - 1 :: s[i] != s[0]
  {
    if s != "" {
      var r := RunLength(s[1..], PlanLines.Other(s[0]));
      assert forall i | 0 <= i < r :: s[1..][i] == s[i + 1] && PlanLines.Other(s[0])(s[1..][i]);
      assert r + 1 < |s| ==> s[1..][r] == s[r + 1] == s[0];
      if 2 <= n <= |s| && s[n - 1] == s[0] && forall i | 1 <= i < n - 1 :: s[i] != s[0] {
        var inner := s[1..n - 1];
        assert forall c | c in inner :: PlanLines.Other(s[0])(c);
        assert s[1..] == inner + s[n - 1..];
        RunLengthIs(inner, s[n - 1..], PlanLines.Other(s[0]));
      }
    }
  }

  /** The delimiter is three dashes and white space. */
  lemma DelimiterIff(line: string)
    ensures IsDelimiter(line) <==> exists ws :: line == "---" + ws && Blank(ws)
  {
    hide IsSpace;
    if IsDelimiter(line) {
      StrippedAtRun(line[3..]);
      assert line == "---" + line[3..] && line[3..][..|line| - 3] == line[3..];
    }
    if ws :| line == "---" + ws && Blank(ws) {
      assert line[3..] == ws && ws + "" == ws;
      SpaceRunIs(ws, "");
    }
  }

  predicate ListKeyPieces(line: string, ws: string, comment: string) {
    && line == "subtasks:" + ws + comment && Blank(ws)
    && (comment == "" || (comment[0] == '#' && '\n' !in WithoutFinalNewline(comment)))
  }

  /** The key of the list stands in the first column, with nothing or a comment behind it. */
  lemma SubtasksKeyIff(line: string)
    ensures IsSubtasksKey(line) <==>
      exists ws, comment :: ListKeyPieces(line, ws, comment)
  {
    hide IsSpace, WithoutFinalNewline, SpaceRun;
    if IsSubtasksKey(line) {
      var rest := line[9..];
      StrippedAtRun(rest);
      assert line == "subtasks:" + rest[..SpaceRun(rest)] + rest[SpaceRun(rest)..];
      assert ListKeyPieces(line, rest[..SpaceRun(rest)], rest[SpaceRun(rest)..]);
    }
    if ws, comment :| ListKeyPieces(line, ws, comment) {
      assert line[9..] == ws + comment;
      HashStands();
      SpaceRunIs(ws, comment);
    }
  }

  lemma HashStands()
    ensures !IsSpace('#')
  {
  }

  /** A missing parent number is written behind the title, if there is one. */
  lemma TitleIff(line: string)
    requires OneLine(line)
    ensures IsTitle(line) <==> |line| >= 6 && line[..6] == "title:"
  {
    if |line| >= 6 && line[..6] == "title:" {
      var rest := line[6..];
      var text := rest[SpaceRun(rest)..];
      assert forall i | 0 <= i < |text| :: text[i] == line[6 + SpaceRun(rest) + i];
    }
  }

  /** A rewritten entry keeps the blank it begins with. */
  lemma {:induction false} EntryKeepsBlank(yaml: Yaml, segments: seq<string>, n: nat, i: nat)
    requires i < |segments|
    ensures var written := Replaced(yaml, segments, n)[i];
      if IsNumberEntry(yaml, segments[i]) then
        written == "issue_number: " + Decimal(n) || (written == " issue_number: " + Decimal(n) && segments[i] != "" && segments[i][0] == ' ')
      else written == segments[i]
    ensures IsNumberEntry(yaml, segments[i]) && segments[i] != "" && segments[i][0] == ' ' ==>
      Replaced(yaml, segments, n)[i] == " issue_number: " + Decimal(n)
  {
    hide IsNumberEntry, NumberEntry;
    var init := segments[..|segments| - 1];
    NumberEntryIs(segments[i], n);
    if i < |init| {
      EntryKeepsBlank(yaml, init, n, i);
    }
  }

  lemma NumberEntryIs(segment: string, n: nat)
    ensures NumberEntry(segment, n) ==
      if segment != "" && segment[0] == ' ' then " issue_number: " + Decimal(n) else "issue_number: " + Decimal(n)
  {
  }
}
