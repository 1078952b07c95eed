/** The block pattern of the launch history, piece by piece: what the search for a block
    accepts, said over the text itself. */
module MarkerPattern {
  import opened Wrappers
  import opened Whitespace
  import opened MarkerBlocks

  // The pieces of a block that vary: the break behind the marker, the white space behind the
  // opening fence, and the blanks and the break behind the closing one.
  datatype Pieces = Pieces(afterMarker: string, afterFence: string, blanks: string, cr: string, lf: string)

  predicate IsBlanks(s: string) {
    forall k | 0 <= k < |s| :: s[k] == ' ' || s[k] == '\t'
  }

  // The marker on a line of its own, the opening fence, and white space up to the last line
  // break in it.
  predicate OpensWith(body: string, m: Match, pieces: Pieces) {
    && m.start <= m.from <= |body|
    && body[m.start..m.from] == LAUNCH_HISTORY_MARKER + pieces.afterMarker + YAML_FENCE + pieces.afterFence
    && pieces.afterMarker in {"\n", "\r\n"}
    && Blank(pieces.afterFence) && pieces.afterFence != "" && pieces.afterFence[|pieces.afterFence| - 1] == '\n'
    && forall e | m.from < e <= |body| && Blank(body[m.from..e]) :: body[e - 1] != '\n'
  }

  // The first fence behind the content, then as much as there is of blanks, a carriage return
  // and a newline.
  predicate ClosesWith(body: string, m: Match, pieces: Pieces) {
    && m.from <= m.upTo <= m.end <= |body|
    && body[m.upTo..m.end] == FENCE + pieces.blanks + pieces.cr + pieces.lf
    && (forall j | m.from <= j < m.upTo :: !(FENCE <= body[j..]))
    && IsBlanks(pieces.blanks) && pieces.cr in {"", "\r"} && pieces.lf in {"", "\n"}
    && (pieces.lf == "" && m.end < |body| ==>
          && body[m.end] != '\n'
          && (pieces.cr == "" ==> body[m.end] != '\r' && body[m.end] != ' ' && body[m.end] != '\t'))
  }

  lemma {:induction false} SpaceEndIs(s: string, i: nat)
    requires i <= |s|
    ensures Blank(s[i..SpaceEnd(s, i)]) && (SpaceEnd(s, i) < |s| ==> !IsSpace(s[SpaceEnd(s, i)]))
    decreases |s| - i
  {
    hide IsSpace;
    if i < |s| && IsSpace(s[i]) {
      SpaceEndIs(s, i + 1);
      assert s[i..SpaceEnd(s, i)] == [s[i]] + s[i + 1..SpaceEnd(s, i)];
    }
  }

  lemma BlankWithin(s: string, i: nat, e: nat)
    requires i <= e <= |s| && Blank(s[i..e])
    ensures e <= SpaceEnd(s, i)
  {
    hide IsSpace;
    SpaceEndIs(s, i);
    forall j | i <= j < e ensures IsSpace(s[j]) {
      assert s[i..e][j - i] == s[j] && s[i..e][j - i] in s[i..e];
    }
  }

  lemma {:induction false} LastNewlineIs(s: string, i: nat, e: nat)
    requires i <= e <= |s|
    ensures var p := AfterLastNewline(s, i, e);
      && (p.Some? ==> s[p.value - 1] == '\n' && forall j | p.value <= j < e :: s[j] != '\n')
      && (p.None? ==> forall j | i <= j < e :: s[j] != '\n')
    decreases e - i
  {
    if i < e && s[e - 1] != '\n' {
      LastNewlineIs(s, i, e - 1);
    }
  }

  lemma BreakIff(s: string, i: nat, f: nat)
    ensures AfterBreak(s, i) == Some(f) <==> i <= f <= |s| && s[i..f] in {"\n", "\r\n"}
  {
    assert i + 1 <= |s| ==> s[i..i + 1] == [s[i]];
    assert i + 2 <= |s| ==> s[i..i + 2] == [s[i], s[i + 1]];
  }

  // What the header is made of, if one starts here.
  lemma HeaderPieces(body: string, i: nat) returns (pieces: Pieces)
    requires HeaderEnd(body, i).Some?
    ensures forall upTo, end :: OpensWith(body, Match(i, HeaderEnd(body, i).value, upTo, end), pieces)
  {
    hide Blank, IsSpace;
    var b := i + |LAUNCH_HISTORY_MARKER|;
    var f := AfterBreak(body, b).value;
    var k := f + |YAML_FENCE|;
    var from := HeaderEnd(body, i).value;
    BreakIff(body, b, f);
    pieces := Pieces(body[b..f], body[k..from], "", "", "");
    var e := SpaceEnd(body, k);
    LastNewlineIs(body, k, e);
    StretchIsBlank(body, k, from, e);
    FourStretches(body, i, b, f, k, from);
    forall to | from < to <= |body| && Blank(body[from..to]) ensures body[to - 1] != '\n' {
      BlankJoins(body, k, from, to);
      BlankWithin(body, k, to);
    }
  }

  lemma StretchIsBlank(s: string, i: nat, p: nat, e: nat)
    requires i <= p <= e <= |s| && e == SpaceEnd(s, i)
    ensures Blank(s[i..p])
  {
    hide IsSpace;
    SpaceEndIs(s, i);
    assert s[i..p] <= s[i..e];
  }

  lemma BlankJoins(s: string, i: nat, p: nat, e: nat)
    requires i <= p <= e <= |s| && Blank(s[i..p]) && Blank(s[p..e])
    ensures Blank(s[i..e])
  {
    hide IsSpace;
    assert s[i..e] == s[i..p] + s[p..e];
  }

  lemma PiecesMakeHeader(body: string, m: Match, pieces: Pieces)
    requires OpensWith(body, m, pieces)
    ensures HeaderEnd(body, m.start) == Some(m.from)
  {
    hide Blank, IsSpace;
    var b := m.start + |LAUNCH_HISTORY_MARKER|;
    var f := b + |pieces.afterMarker|;
    var k := f + |YAML_FENCE|;
    Cut(body, m.start, m.from, LAUNCH_HISTORY_MARKER, pieces.afterMarker, YAML_FENCE, pieces.afterFence);
    BreakIff(body, b, f);
    assert body[m.from - 1] == body[k..m.from][m.from - 1 - k];
    LastBreakIs(body, k, m.from);
  }

  lemma LastBreakIs(body: string, k: nat, from: nat)
    requires k < from <= |body| && Blank(body[k..from]) && body[from - 1] == '\n'
    requires forall e | from < e <= |body| && Blank(body[from..e]) :: body[e - 1] != '\n'
    ensures AfterLastNewline(body, k, SpaceEnd(body, k)) == Some(from)
  {
    hide Blank, IsSpace, AfterLastNewline;
    BlankWithin(body, k, from);
    var e := SpaceEnd(body, k);
    LastNewlineIs(body, k, e);
    var p := AfterLastNewline(body, k, e);
    assert p.Some? && p.value >= from;
    StretchBehind(body, k, from, p.value, e);
  }

  lemma StretchBehind(s: string, i: nat, p: nat, q: nat, e: nat)
    requires i <= p <= q <= e <= |s| && e == SpaceEnd(s, i)
    ensures Blank(s[p..q])
  {
    hide IsSpace;
    SpaceEndIs(s, i);
    assert forall j | p <= j < q :: s[j] == s[i..e][j - i];
  }

  lemma Cut(s: string, start: nat, end: nat, a: string, b: string, c: string, d: string)
    requires start <= end <= |s| && s[start..end] == a + b + c + d
    ensures var i, j, k := start + |a|, start + |a| + |b|, start + |a| + |b| + |c|;
      && k + |d| == end && s[start..i] == a && s[i..j] == b && s[j..k] == c && s[k..end] == d
  {
    var part := s[start..end];
    assert part[..|a|] == a && part[|a|..|a| + |b|] == b;
    assert part[|a| + |b|..|a| + |b| + |c|] == c && part[|a| + |b| + |c|..] == d;
    Sliced(s, start, end, 0, |a|);
    Sliced(s, start, end, |a|, |a| + |b|);
    Sliced(s, start, end, |a| + |b|, |a| + |b| + |c|);
    Sliced(s, start, end, |a| + |b| + |c|, |part|);
  }

  lemma Sliced(s: string, start: nat, end: nat, i: nat, j: nat)
    requires start <= end <= |s| && i <= j <= end - start
    ensures s[start..end][i..j] == s[start + i..start + j]
  {
    var a, b := s[start..end][i..j], s[start + i..start + j];
    assert |a| == |b| && forall k | 0 <= k < |a| :: a[k] == b[k];
  }

  lemma FourStretches(s: string, q: nat, i: nat, b: nat, r: nat, end: nat)
    requires q <= i <= b <= r <= end <= |s|
    ensures s[q..end] == s[q..i] + s[i..b] + s[b..r] + s[r..end]
  {
    assert s[q..b] == s[q..i] + s[i..b];
    assert s[q..r] == s[q..b] + s[b..r];
    assert s[q..end] == s[q..r] + s[r..end];
  }

  lemma {:induction false} BlanksEndIs(s: string, i: nat)
    requires i <= |s|
    ensures forall j | i <= j < BlanksEnd(s, i) :: s[j] == ' ' || s[j] == '\t'
    ensures BlanksEnd(s, i) < |s| ==> s[BlanksEnd(s, i)] != ' ' && s[BlanksEnd(s, i)] != '\t'
    decreases |s| - i
  {
    if i < |s| && (s[i] == ' ' || s[i] == '\t') {
      BlanksEndIs(s, i + 1);
    }
  }

  lemma FenceHere(body: string, j: nat)
    requires j <= |body|
    ensures OccursAt(body, FENCE, j) <==> FENCE <= body[j..]
  {
    assert FENCE <= body[j..] ==> body[j..j + 3] == body[j..][..3];
  }

  lemma ClosingPieces(body: string, q: nat) returns (blanks: string, cr: string, lf: string)
    requires OccursAt(body, FENCE, q)
    ensures var end := ClosingEnd(body, q + |FENCE|);
      && q <= end <= |body|
      && body[q..end] == FENCE + blanks + cr + lf && IsBlanks(blanks) && cr in {"", "\r"} && lf in {"", "\n"}
      && (lf == "" && end < |body| ==>
            && body[end] != '\n' && (cr == "" ==> body[end] != '\r' && body[end] != ' ' && body[end] != '\t'))
  {
    var i := q + |FENCE|;
    var b := BlanksEnd(body, i);
    BlanksEndIs(body, i);
    var r := if b < |body| && body[b] == '\r' then b + 1 else b;
    var end := ClosingEnd(body, i);
    blanks, cr, lf := body[i..b], body[b..r], body[r..end];
    OneOrNone(body, b, r);
    OneOrNone(body, r, end);
    FourStretches(body, q, i, b, r, end);
  }

  lemma OneOrNone(s: string, i: nat, j: nat)
    requires i <= j <= |s| && j <= i + 1
    ensures s[i..j] == if i == j then "" else [s[i]]
  {
  }

  lemma PiecesMakeClosing(body: string, m: Match, pieces: Pieces)
    requires ClosesWith(body, m, pieces)
    ensures FenceFrom(body, m.from) == Some(m.upTo) && ClosingEnd(body, m.upTo + |FENCE|) == m.end
  {
    Cut(body, m.upTo, m.end, FENCE, pieces.blanks, pieces.cr, pieces.lf);
    FenceHere(body, m.upTo);
    forall j | m.from <= j < m.upTo ensures !OccursAt(body, FENCE, j) {
      FenceHere(body, j);
    }
    TailEnds(body, m.upTo + |FENCE|, m.end, pieces.blanks, pieces.cr, pieces.lf);
  }

  lemma TailEnds(body: string, i: nat, end: nat, blanks: string, cr: string, lf: string)
    requires i + |blanks| + |cr| + |lf| == end <= |body|
    requires var b := i + |blanks|; body[i..b] == blanks && body[b..b + |cr|] == cr && body[b + |cr|..end] == lf
    requires IsBlanks(blanks) && cr in {"", "\r"} && lf in {"", "\n"}
    requires lf == "" && end < |body| ==>
      body[end] != '\n' && (cr == "" ==> body[end] != '\r' && body[end] != ' ' && body[end] != '\t')
    ensures ClosingEnd(body, i) == end
  {
    var b := i + |blanks|;
    var r := b + |cr|;
    OneOrNone(body, b, r);
    OneOrNone(body, r, end);
    forall j | i <= j < b ensures body[j] == ' ' || body[j] == '\t' {
      assert body[j] == body[i..b][j - i];
    }
    BlanksStop(body, i, b);
  }

  lemma {:induction false} BlanksStop(s: string, i: nat, b: nat)
    requires i <= b <= |s| && (forall j | i <= j < b :: s[j] == ' ' || s[j] == '\t') && (b < |s| ==> s[b] != ' ' && s[b] != '\t')
    ensures BlanksEnd(s, i) == b
    decreases b - i
  {
    if i < b {
      BlanksStop(s, i + 1, b);
    }
  }

  /** A block is found exactly where the pattern stands: the marker, a line break, the opening
      fence, white space to its last line break, the shortest content, a fence, and the rest
      of its line if that is blank. */
  lemma MatchIff(body: string, m: Match)
    ensures MatchAt(body, m.start) == Some(m) <==>
      exists pieces :: OpensWith(body, m, pieces) && ClosesWith(body, m, pieces)
  {
    hide Blank, IsSpace, OpensWith, ClosesWith, HeaderEnd, FenceFrom, ClosingEnd;
    if MatchAt(body, m.start) == Some(m) {
      var pieces := PiecesOf(body, m);
    }
    if pieces :| OpensWith(body, m, pieces) && ClosesWith(body, m, pieces) {
      PiecesMakeHeader(body, m, pieces);
      PiecesMakeClosing(body, m, pieces);
    }
  }

  lemma PiecesOf(body: string, m: Match) returns (pieces: Pieces)
    requires MatchAt(body, m.start) == Some(m)
    ensures OpensWith(body, m, pieces) && ClosesWith(body, m, pieces)
  {
    hide Blank, IsSpace;
    var header := HeaderPieces(body, m.start);
    assert OpensWith(body, m, header);
    var blanks, cr, lf := ClosingPieces(body, m.upTo);
    pieces := header.(blanks := blanks, cr := cr, lf := lf);
    forall j | m.from <= j < m.upTo ensures !(FENCE <= body[j..]) {
      FenceHere(body, j);
    }
  }
}
