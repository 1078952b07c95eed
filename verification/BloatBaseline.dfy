/** Comparing bloat warnings with a recorded baseline: the greedy scan of every key is an
    optimal matching of reports to baseline entries at least as large. */
module BloatBaseline {
  import opened Wrappers
  import opened Ordering

  datatype Key = Key(category: string, path: string, symbol: Option<string>)

  // A warning: a report of this run, or an entry of the baseline.
  datatype Warning = Warning(key: Key, lines: int)

  datatype Regression = Regression(report: Warning, previous: Option<int>)

  // ---- Order ----

  // Warnings without a symbol come first; within one category and path a report list
  // never mixes the two.
  predicate SymbolBelow(a: Option<string>, b: Option<string>) {
    b.Some? && (a.None? || Below(a.value, b.value))
  }

  predicate KeyBelow(a: Key, b: Key) {
    || Below(a.category, b.category)
    || (a.category == b.category && Below(a.path, b.path))
    || (a.category == b.category && a.path == b.path && SymbolBelow(a.symbol, b.symbol))
  }

  predicate Before(a: Warning, b: Warning) {
    KeyBelow(a.key, b.key) || (a.key == b.key && a.lines < b.lines)
  }

  // Stable insertion: before everything that is not smaller.
  function InsertReport(x: Warning, xs: seq<Warning>): seq<Warning> {
    if xs == [] || !Before(xs[0], x) then [x] + xs else [xs[0]] + InsertReport(x, xs[1..])
  }

  function SortReports(xs: seq<Warning>): seq<Warning> {
    if xs == [] then [] else InsertReport(xs[0], SortReports(xs[1..]))
  }

  function InsertLine(x: int, xs: seq<int>): seq<int> {
    if xs == [] || xs[0] >= x then [x] + xs else [xs[0]] + InsertLine(x, xs[1..])
  }

  function SortLines(xs: seq<int>): seq<int> {
    if xs == [] then [] else InsertLine(xs[0], SortLines(xs[1..]))
  }

  // ---- The scan ----

  function LinesOf(bases: seq<Warning>, key: Key): seq<int> {
    if bases == [] then []
    else (if bases[0].key == key then [bases[0].lines] else []) + LinesOf(bases[1..], key)
  }

  // The first candidate that is large enough; the number of candidates if there is none.
  function FirstFit(candidates: seq<int>, lines: int): (n: nat)
    ensures n <= |candidates|
    ensures n < |candidates| ==> candidates[n] >= lines
    ensures forall i | 0 <= i < n :: candidates[i] < lines
  {
    if candidates == [] || candidates[0] >= lines then 0 else 1 + FirstFit(candidates[1..], lines)
  }

  function DropAt<T>(xs: seq<T>, n: nat): seq<T>
    requires n < |xs|
  {
    xs[..n] + xs[n + 1..]
  }

  // The bases without the n-th one of this key.
  function DropBase(bases: seq<Warning>, key: Key, n: nat): seq<Warning>
    requires n < |LinesOf(bases, key)|
  {
    if bases[0].key != key then [bases[0]] + DropBase(bases[1..], key, n)
    else if n == 0 then bases[1..]
    else [bases[0]] + DropBase(bases[1..], key, n - 1)
  }

  // What one report does to the bases and whether it is flagged.
  datatype Verdict = Fits(rest: seq<Warning>, base: int) | Flagged(rest: seq<Warning>, previous: Option<int>)

  function Judge(report: Warning, bases: seq<Warning>): Verdict {
    var candidates := LinesOf(bases, report.key);
    var n := FirstFit(candidates, report.lines);
    if n < |candidates| then Fits(DropBase(bases, report.key, n), candidates[n])
    else if candidates == [] then Flagged(bases, None)
    else Flagged(DropBase(bases, report.key, |candidates| - 1), Some(candidates[|candidates| - 1]))
  }

  function Scan(reports: seq<Warning>, bases: seq<Warning>): seq<Regression> {
    if reports == [] then []
    else
      match Judge(reports[0], bases)
      case Fits(rest, _) => Scan(reports[1..], rest)
      case Flagged(rest, previous) => [Regression(reports[0], previous)] + Scan(reports[1..], rest)
  }

  // The number of reports the scan leaves unflagged.
  function Kept(reports: seq<Warning>, bases: seq<Warning>): nat {
    if reports == [] then 0
    else
      match Judge(reports[0], bases)
      case Fits(rest, _) => 1 + Kept(reports[1..], rest)
      case Flagged(rest, _) => Kept(reports[1..], rest)
  }

  // ---- Matchings ----

  datatype Pair = Pair(report: Warning, base: Warning)

  predicate Fitting(p: Pair) {
    p.report.key == p.base.key && p.report.lines <= p.base.lines
  }

  function Reports(pairs: seq<Pair>): seq<Warning> {
    if pairs == [] then [] else [pairs[0].report] + Reports(pairs[1..])
  }

  function Bases(pairs: seq<Pair>): seq<Warning> {
    if pairs == [] then [] else [pairs[0].base] + Bases(pairs[1..])
  }

  // Each report and each baseline entry is used at most as often as it occurs.
  ghost predicate Matching(pairs: seq<Pair>, reports: seq<Warning>, bases: seq<Warning>) {
    && (forall p | p in pairs :: Fitting(p))
    && multiset(Reports(pairs)) <= multiset(reports)
    && multiset(Bases(pairs)) <= multiset(bases)
  }

  // ---- A bound on every matching ----

  // One threshold for each key.
  type Thresholds = Key -> int

  function Smaller(reports: seq<Warning>, limits: Thresholds): nat {
    if reports == [] then 0
    else (if reports[0].lines < limits(reports[0].key) then 1 else 0) + Smaller(reports[1..], limits)
  }

  function Larger(bases: seq<Warning>, limits: Thresholds): nat {
    if bases == [] then 0
    else (if bases[0].lines >= limits(bases[0].key) then 1 else 0) + Larger(bases[1..], limits)
  }

  // One element less, at position n.
  lemma {:induction false} CountsDropAt(xs: seq<Warning>, n: nat, limits: Thresholds)
    requires n < |xs|
    ensures Smaller(xs, limits) == Smaller(DropAt(xs, n), limits) + (if xs[n].lines < limits(xs[n].key) then 1 else 0)
    ensures Larger(xs, limits) == Larger(DropAt(xs, n), limits) + (if xs[n].lines >= limits(xs[n].key) then 1 else 0)
  {
    if n > 0 {
      CountsDropAt(xs[1..], n - 1, limits);
      assert DropAt(xs, n) == [xs[0]] + DropAt(xs[1..], n - 1);
    } else {
      assert DropAt(xs, 0) == xs[1..];
    }
  }

  lemma DropAtMultiset<T>(xs: seq<T>, n: nat)
    requires n < |xs|
    ensures multiset(xs) == multiset(DropAt(xs, n)) + multiset{xs[n]}
  {
    assert xs == xs[..n] + [xs[n]] + xs[n + 1..];
  }

  lemma TailIncluded<T>(xs: seq<T>, ys: seq<T>) returns (n: nat)
    requires xs != [] && multiset(xs) <= multiset(ys)
    ensures n < |ys| && ys[n] == xs[0] && multiset(xs[1..]) <= multiset(DropAt(ys, n))
    ensures multiset(xs) == multiset(ys) ==> multiset(xs[1..]) == multiset(DropAt(ys, n))
  {
    assert xs[0] in multiset(ys) && xs[0] in ys;
    n :| 0 <= n < |ys| && ys[n] == xs[0];
    DropAtMultiset(ys, n);
    HeadTail(xs);
    assert multiset(xs[1..]) == multiset(xs) - multiset{xs[0]};
    assert multiset(DropAt(ys, n)) == multiset(ys) - multiset{ys[n]};
  }

  lemma HeadTail<T>(xs: seq<T>)
    requires xs != []
    ensures multiset(xs) == multiset(xs[1..]) + multiset{xs[0]}
  {
    assert xs == [xs[0]] + xs[1..];
  }

  lemma {:induction false} CountsMonotone(xs: seq<Warning>, ys: seq<Warning>, limits: Thresholds)
    requires multiset(xs) <= multiset(ys)
    ensures Smaller(xs, limits) <= Smaller(ys, limits) && Larger(xs, limits) <= Larger(ys, limits)
  {
    if xs != [] {
      var n := TailIncluded(xs, ys);
      CountsMonotone(xs[1..], DropAt(ys, n), limits);
      CountsDropAt(ys, n, limits);
    }
  }

  lemma {:induction false} PairsCounted(pairs: seq<Pair>, limits: Thresholds)
    requires forall p | p in pairs :: Fitting(p)
    ensures |pairs| <= Smaller(Reports(pairs), limits) + Larger(Bases(pairs), limits)
  {
    if pairs != [] {
      PairsCounted(pairs[1..], limits);
      assert Fitting(pairs[0]);
    }
  }

  /** Whatever the thresholds, a matching has at most as many pairs as there are reports
      below and baseline entries at or above them. */
  lemma MatchingBound(pairs: seq<Pair>, reports: seq<Warning>, bases: seq<Warning>, limits: Thresholds)
    requires Matching(pairs, reports, bases)
    ensures |pairs| <= Smaller(reports, limits) + Larger(bases, limits)
  {
    PairsCounted(pairs, limits);
    CountsMonotone(Reports(pairs), reports, limits);
    CountsMonotone(Bases(pairs), bases, limits);
  }

  // ---- The scan reaches the bound ----

  // Where the n-th base of a key stands.
  lemma {:induction false} DropBaseIs(bases: seq<Warning>, key: Key, n: nat) returns (i: nat)
    requires n < |LinesOf(bases, key)|
    ensures i < |bases| && bases[i] == Warning(key, LinesOf(bases, key)[n]) && DropBase(bases, key, n) == DropAt(bases, i)
  {
    if bases[0].key == key && n == 0 {
      i := 0;
      assert DropAt(bases, 0) == bases[1..];
    } else {
      i := DropBaseIs(bases[1..], key, if bases[0].key == key then n - 1 else n);
      i := i + 1;
      assert DropAt(bases, i) == [bases[0]] + DropAt(bases[1..], i - 1);
    }
  }

  lemma LinesCons(base: Warning, rest: seq<Warning>, k: Key)
    ensures LinesOf([base] + rest, k) == (if base.key == k then [base.lines] else []) + LinesOf(rest, k)
  {
    assert ([base] + rest)[1..] == rest;
  }

  lemma DropAtCons<T>(x: T, xs: seq<T>, n: nat)
    requires n <= |xs|
    ensures DropAt([x] + xs, n) == if n == 0 then xs else [x] + DropAt(xs, n - 1)
  {
  }

  lemma BasesOfLines(bases: seq<Warning>, key: Key)
    requires LinesOf(bases, key) != []
    ensures bases != [] && bases == [bases[0]] + bases[1..]
  {
  }

  // Only the lines of that key change, by the n-th one.
  lemma {:induction false} DropBaseLines(bases: seq<Warning>, key: Key, n: nat, k: Key)
    requires n < |LinesOf(bases, key)|
    ensures LinesOf(DropBase(bases, key, n), k) == if k == key then DropAt(LinesOf(bases, key), n) else LinesOf(bases, k)
  {
    hide LinesOf, DropAt;
    BasesOfLines(bases, key);
    var base, rest := bases[0], bases[1..];
    LinesCons(base, rest, key);
    LinesCons(base, rest, k);
    if base.key == key {
      DropAtCons(base.lines, LinesOf(rest, key), n);
    }
    if !(base.key == key && n == 0) {
      var m := if base.key == key then n - 1 else n;
      assert [] + LinesOf(rest, key) == LinesOf(rest, key);
      DropBaseLines(rest, key, m, k);
      LinesCons(base, DropBase(rest, key, m), k);
    }
    assert [] + LinesOf(rest, k) == LinesOf(rest, k);
  }

  // Reports of one key come in ascending order.
  predicate Ascending(reports: seq<Warning>) {
    forall i, j | 0 <= i < j < |reports| && reports[i].key == reports[j].key :: reports[i].lines <= reports[j].lines
  }

  predicate AscendingLines(xs: seq<int>) {
    forall i, j | 0 <= i < j < |xs| :: xs[i] <= xs[j]
  }

  ghost predicate AscendingBases(bases: seq<Warning>) {
    forall key :: AscendingLines(LinesOf(bases, key))
  }

  lemma DropKeepsAscending(bases: seq<Warning>, key: Key, n: nat)
    requires AscendingBases(bases) && n < |LinesOf(bases, key)|
    ensures AscendingBases(DropBase(bases, key, n))
  {
    hide AscendingLines, DropAt;
    forall k ensures AscendingLines(LinesOf(DropBase(bases, key, n), k)) {
      DropBaseLines(bases, key, n, k);
      if k == key {
        DropAscendingLine(LinesOf(bases, key), n);
      }
    }
  }

  lemma DropAscendingLine(xs: seq<int>, n: nat)
    requires AscendingLines(xs) && n < |xs|
    ensures AscendingLines(DropAt(xs, n))
  {
  }

  lemma {:induction false} KeptBound(reports: seq<Warning>, bases: seq<Warning>, limits: Thresholds)
    ensures Kept(reports, bases) <= Smaller(reports, limits) + Larger(bases, limits)
  {
    if reports != [] {
      var r := reports[0];
      var candidates := LinesOf(bases, r.key);
      var n := FirstFit(candidates, r.lines);
      if candidates == [] {
        KeptBound(reports[1..], bases, limits);
      } else {
        var m := if n < |candidates| then n else |candidates| - 1;
        var i := DropBaseIs(bases, r.key, m);
        CountsDropAt(bases, i, limits);
        KeptBound(reports[1..], DropBase(bases, r.key, m), limits);
      }
    }
  }

  // Lowering the threshold of one key to a value below which it has no reports, with no
  // base in between.
  function Lowered(limits: Thresholds, key: Key, limit: int): Thresholds {
    k => if k == key then limit else limits(k)
  }

  lemma {:induction false} LoweredLarger(bases: seq<Warning>, limits: Thresholds, key: Key, limit: int)
    requires forall b | b in bases && b.key == key :: b.lines >= limit <==> b.lines >= limits(key)
    ensures Larger(bases, Lowered(limits, key, limit)) == Larger(bases, limits)
  {
    if bases != [] {
      assert bases[0] in bases;
      LoweredLarger(bases[1..], limits, key, limit);
    }
  }

  lemma {:induction false} LoweredSmaller(reports: seq<Warning>, limits: Thresholds, key: Key, limit: int)
    requires forall r | r in reports && r.key == key :: r.lines >= limit
    ensures Smaller(reports, Lowered(limits, key, limit)) <= Smaller(reports, limits)
  {
    if reports != [] {
      assert reports[0] in reports;
      LoweredSmaller(reports[1..], limits, key, limit);
    }
  }

  lemma {:induction false} LoweredSilent(bases: seq<Warning>, limits: Thresholds, key: Key, limit: int)
    requires forall b | b in bases && b.key == key :: b.lines < limit
    ensures Larger(bases, Lowered(limits, key, limit)) <= Larger(bases, limits)
  {
    if bases != [] {
      assert bases[0] in bases;
      LoweredSilent(bases[1..], limits, key, limit);
    }
  }

  lemma {:induction false} LinesOfMember(bases: seq<Warning>, key: Key, lines: int)
    ensures lines in LinesOf(bases, key) <==> Warning(key, lines) in bases
  {
    if bases != [] {
      LinesOfMember(bases[1..], key, lines);
      assert bases == [bases[0]] + bases[1..];
    }
  }

  // Thresholds above every base.
  lemma {:induction false} HighLimits(bases: seq<Warning>) returns (limits: Thresholds)
    ensures Larger(bases, limits) == 0
  {
    var top := MaxLines(bases);
    limits := _ => top + 1;
    NoneLarger(bases, limits, top);
  }

  function MaxLines(bases: seq<Warning>): int {
    if bases == [] then 0
    else var rest := MaxLines(bases[1..]); if bases[0].lines > rest then bases[0].lines else rest
  }

  lemma {:induction false} NoneLarger(bases: seq<Warning>, limits: Thresholds, top: int)
    requires MaxLines(bases) <= top && forall k :: limits(k) == top + 1
    ensures Larger(bases, limits) == 0
  {
    if bases != [] {
      NoneLarger(bases[1..], limits, top);
    }
  }

  /** Some thresholds make the bound exactly the number of reports the scan keeps. */
  lemma {:induction false} KeptIsTight(reports: seq<Warning>, bases: seq<Warning>) returns (limits: Thresholds)
    requires Ascending(reports) && AscendingBases(bases)
    ensures Kept(reports, bases) == Smaller(reports, limits) + Larger(bases, limits)
  {
    if reports == [] {
      limits := HighLimits(bases);
    } else {
      var r, rest := reports[0], reports[1..];
      var candidates := LinesOf(bases, r.key);
      var n := FirstFit(candidates, r.lines);
      forall q | q in rest && q.key == r.key ensures q.lines >= r.lines {
        var j :| 0 <= j < |rest| && rest[j] == q;
        assert reports[j + 1] == q;
      }
      if n < |candidates| {
        var i := DropBaseIs(bases, r.key, n);
        DropKeepsAscending(bases, r.key, n);
        limits := KeptIsTight(rest, DropBase(bases, r.key, n));
        CountsDropAt(bases, i, limits);
        if r.lines < limits(r.key) <= candidates[n] {
          limits := TightFit(reports, bases, limits);
        }
      } else {
        var left := bases;
        if candidates != [] {
          left := DropBase(bases, r.key, |candidates| - 1);
          DropKeepsAscending(bases, r.key, |candidates| - 1);
        }
        limits := KeptIsTight(rest, left);
        limits := TightMiss(reports, bases, left, limits);
      }
    }
  }

  // Both the report and its base count: lower the threshold to the report.
  lemma TightFit(reports: seq<Warning>, bases: seq<Warning>, limits: Thresholds) returns (better: Thresholds)
    requires reports != [] && AscendingBases(bases)
    requires forall q | q in reports[1..] && q.key == reports[0].key :: q.lines >= reports[0].lines
    requires
      var candidates := LinesOf(bases, reports[0].key);
      var n := FirstFit(candidates, reports[0].lines);
      n < |candidates| && reports[0].lines < limits(reports[0].key) <= candidates[n]
    requires Kept(reports, bases) == Smaller(reports, limits) + Larger(bases, limits) - 1
    ensures Kept(reports, bases) == Smaller(reports, better) + Larger(bases, better)
  {
    var r, rest := reports[0], reports[1..];
    var candidates := LinesOf(bases, r.key);
    var n := FirstFit(candidates, r.lines);
    better := Lowered(limits, r.key, r.lines);
    forall b | b in bases && b.key == r.key ensures b.lines >= r.lines <==> b.lines >= limits(r.key) {
      LinesOfMember(bases, r.key, b.lines);
      var k :| 0 <= k < |candidates| && candidates[k] == b.lines;
      if k >= n {
        assert AscendingLines(candidates);
        assert candidates[n] <= candidates[k];
      }
    }
    LoweredLarger(bases, limits, r.key, r.lines);
    LoweredSmaller(rest, limits, r.key, r.lines);
    KeptBound(reports, bases, better);
  }

  lemma NoneFits(bases: seq<Warning>, key: Key, lines: int)
    requires FirstFit(LinesOf(bases, key), lines) == |LinesOf(bases, key)|
    ensures forall b | b in bases && b.key == key :: b.lines < lines
  {
    hide LinesOf, FirstFit;
    var candidates := LinesOf(bases, key);
    forall b | b in bases && b.key == key ensures b.lines < lines {
      LinesOfMember(bases, key, b.lines);
      var k :| 0 <= k < |candidates| && candidates[k] == b.lines;
    }
  }

  // No base is large enough for this report or any later one of its key, so the bases of
  // the key do not matter.
  lemma TightMiss(reports: seq<Warning>, bases: seq<Warning>, left: seq<Warning>, limits: Thresholds) returns (better: Thresholds)
    requires reports != []
    requires
      var candidates := LinesOf(bases, reports[0].key);
      && FirstFit(candidates, reports[0].lines) == |candidates|
      && left == if candidates == [] then bases else DropBase(bases, reports[0].key, |candidates| - 1)
    requires forall q | q in reports[1..] && q.key == reports[0].key :: q.lines >= reports[0].lines
    requires Kept(reports[1..], left) == Smaller(reports[1..], limits) + Larger(left, limits)
    ensures Kept(reports, bases) == Smaller(reports, better) + Larger(bases, better)
  {
    var r, rest := reports[0], reports[1..];
    var candidates := LinesOf(bases, r.key);
    better := Lowered(limits, r.key, r.lines);
    NoneFits(bases, r.key, r.lines);
    if candidates != [] {
      var i := DropBaseIs(bases, r.key, |candidates| - 1);
      CountsDropAt(bases, i, better);
      assert forall b | b in left :: b in bases;
    }
    LoweredSilent(left, limits, r.key, r.lines);
    LoweredSmaller(rest, limits, r.key, r.lines);
    KeptBound(reports, bases, better);
  }

  // ---- The scan is a matching ----

  function Fitted(reports: seq<Warning>, bases: seq<Warning>): seq<Pair> {
    if reports == [] then []
    else
      match Judge(reports[0], bases)
      case Fits(rest, base) => [Pair(reports[0], Warning(reports[0].key, base))] + Fitted(reports[1..], rest)
      case Flagged(rest, _) => Fitted(reports[1..], rest)
  }

  function FlaggedReports(regressions: seq<Regression>): seq<Warning> {
    if regressions == [] then [] else [regressions[0].report] + FlaggedReports(regressions[1..])
  }

  lemma {:induction false} ScanSizes(reports: seq<Warning>, bases: seq<Warning>)
    ensures |Fitted(reports, bases)| == Kept(reports, bases) && |Scan(reports, bases)| == |reports| - Kept(reports, bases)
    ensures forall p | p in Fitted(reports, bases) :: Fitting(p)
  {
    if reports != [] {
      match Judge(reports[0], bases)
      case Fits(rest, base) => ScanSizes(reports[1..], rest);
      case Flagged(rest, _) => ScanSizes(reports[1..], rest);
    }
  }

  lemma {:induction false} ScanPartition(reports: seq<Warning>, bases: seq<Warning>)
    ensures multiset(Reports(Fitted(reports, bases))) + multiset(FlaggedReports(Scan(reports, bases))) == multiset(reports)
  {
    if reports != [] {
      HeadTail(reports);
      hide Judge;
      match Judge(reports[0], bases)
      case Fits(rest, base) =>
        ScanPartition(reports[1..], rest);
        HeadTail(Reports(Fitted(reports, bases)));
      case Flagged(rest, _) =>
        ScanPartition(reports[1..], rest);
        HeadTail(FlaggedReports(Scan(reports, bases)));
    }
  }

  // What a verdict takes away from the bases.
  lemma JudgeTakes(report: Warning, bases: seq<Warning>)
    ensures match Judge(report, bases)
      case Fits(rest, base) => multiset(bases) == multiset(rest) + multiset{Warning(report.key, base)}
      case Flagged(rest, _) => multiset(rest) <= multiset(bases)
  {
    var candidates := LinesOf(bases, report.key);
    var n := FirstFit(candidates, report.lines);
    if candidates != [] {
      var i := DropBaseIs(bases, report.key, if n < |candidates| then n else |candidates| - 1);
      DropAtMultiset(bases, i);
    }
  }

  lemma {:induction false} ScanUsesBasesOnce(reports: seq<Warning>, bases: seq<Warning>)
    ensures multiset(Bases(Fitted(reports, bases))) <= multiset(bases)
  {
    if reports != [] {
      JudgeTakes(reports[0], bases);
      hide Judge;
      match Judge(reports[0], bases)
      case Fits(rest, base) =>
        ScanUsesBasesOnce(reports[1..], rest);
        HeadTail(Bases(Fitted(reports, bases)));
      case Flagged(rest, _) =>
        ScanUsesBasesOnce(reports[1..], rest);
    }
  }

  /** The unflagged reports are matched, each with a baseline entry of its own; the flagged
      ones are exactly the others. */
  lemma ScanIsMatching(reports: seq<Warning>, bases: seq<Warning>)
    ensures Matching(Fitted(reports, bases), reports, bases)
    ensures multiset(Reports(Fitted(reports, bases))) + multiset(FlaggedReports(Scan(reports, bases))) == multiset(reports)
    ensures |Fitted(reports, bases)| == Kept(reports, bases) && |Scan(reports, bases)| == |reports| - Kept(reports, bases)
  {
    ScanSizes(reports, bases);
    ScanPartition(reports, bases);
    ScanUsesBasesOnce(reports, bases);
  }

  lemma {:induction false} PreviousIsSmaller(reports: seq<Warning>, bases: seq<Warning>, g: Regression)
    requires g in Scan(reports, bases) && g.previous.Some?
    ensures g.previous.value < g.report.lines
  {
    var r := reports[0];
    var candidates := LinesOf(bases, r.key);
    var n := FirstFit(candidates, r.lines);
    if n < |candidates| {
      PreviousIsSmaller(reports[1..], DropBase(bases, r.key, n), g);
    } else if g != Regression(r, Judge(r, bases).previous) {
      PreviousIsSmaller(reports[1..], Judge(r, bases).rest, g);
    }
  }

  // ---- Sorting ----

  lemma SymbolTotal(a: Option<string>, b: Option<string>, c: Option<string>)
    ensures a == b || SymbolBelow(a, b) || SymbolBelow(b, a)
    ensures !(SymbolBelow(a, b) && SymbolBelow(b, a)) && !SymbolBelow(a, a)
    ensures SymbolBelow(a, b) && SymbolBelow(b, c) ==> SymbolBelow(a, c)
  {
    if a.Some? && b.Some? {
      BelowTotal(a.value, b.value);
      BelowTotal(a.value, a.value);
      if c.Some? && Below(a.value, b.value) && Below(b.value, c.value) {
        BelowTransitive(a.value, b.value, c.value);
      }
    } else if a.Some? {
      BelowTotal(a.value, a.value);
    }
  }

  lemma StringTotal(a: string, b: string, c: string)
    ensures a == b || Below(a, b) || Below(b, a)
    ensures !(Below(a, b) && Below(b, a)) && !Below(a, a)
    ensures Below(a, b) && Below(b, c) ==> Below(a, c)
  {
    BelowTotal(a, b);
    BelowTotal(a, a);
    if Below(a, b) && Below(b, c) {
      BelowTransitive(a, b, c);
    }
  }

  lemma KeyTotal(a: Key, b: Key, c: Key)
    ensures a == b || KeyBelow(a, b) || KeyBelow(b, a)
    ensures !(KeyBelow(a, b) && KeyBelow(b, a)) && !KeyBelow(a, a)
    ensures KeyBelow(a, b) && KeyBelow(b, c) ==> KeyBelow(a, c)
  {
    hide Below, SymbolBelow;
    StringTotal(a.category, b.category, c.category);
    StringTotal(a.path, b.path, c.path);
    SymbolTotal(a.symbol, b.symbol, c.symbol);
  }

  // Not being before is transitive.
  lemma NotBefore(a: Warning, b: Warning, c: Warning)
    requires !Before(b, a) && !Before(c, b)
    ensures !Before(c, a)
  {
    hide KeyBelow;
    KeyTotal(a.key, b.key, c.key);
    KeyTotal(c.key, a.key, b.key);
    KeyTotal(b.key, c.key, a.key);
    KeyTotal(c.key, b.key, a.key);
  }

  predicate Sorted(xs: seq<Warning>) {
    forall i, j | 0 <= i < j < |xs| :: !Before(xs[j], xs[i])
  }

  lemma BeforeAsymmetric(a: Warning, b: Warning)
    ensures Before(a, b) ==> !Before(b, a)
  {
    KeyTotal(a.key, b.key, a.key);
    KeyTotal(a.key, a.key, a.key);
  }

  lemma {:induction false} InsertSorted(x: Warning, xs: seq<Warning>)
    requires Sorted(xs)
    ensures Sorted(InsertReport(x, xs)) && multiset(InsertReport(x, xs)) == multiset(xs) + multiset{x}
  {
    hide Before;
    if xs == [] || !Before(xs[0], x) {
      forall j | 0 <= j < |xs| ensures !Before(xs[j], x) {
        if j > 0 {
          NotBefore(x, xs[0], xs[j]);
        }
      }
    } else {
      InsertSorted(x, xs[1..]);
      var rest := InsertReport(x, xs[1..]);
      assert xs == [xs[0]] + xs[1..];
      forall j | 0 <= j < |rest| ensures !Before(rest[j], xs[0]) {
        assert rest[j] in multiset(rest);
        BeforeAsymmetric(xs[0], x);
      }
    }
  }

  lemma {:induction false} SortReportsSorts(xs: seq<Warning>)
    ensures Sorted(SortReports(xs)) && multiset(SortReports(xs)) == multiset(xs)
    ensures Ascending(SortReports(xs))
  {
    if xs != [] {
      SortReportsSorts(xs[1..]);
      InsertSorted(xs[0], SortReports(xs[1..]));
      assert xs == [xs[0]] + xs[1..];
    }
    var sorted := SortReports(xs);
    forall i, j | 0 <= i < j < |sorted| && sorted[i].key == sorted[j].key ensures sorted[i].lines <= sorted[j].lines {
      assert !Before(sorted[j], sorted[i]);
    }
  }

  lemma {:induction false} SortLinesSorts(xs: seq<int>)
    ensures AscendingLines(SortLines(xs)) && multiset(SortLines(xs)) == multiset(xs)
  {
    if xs != [] {
      SortLinesSorts(xs[1..]);
      InsertLineSorts(xs[0], SortLines(xs[1..]));
      assert xs == [xs[0]] + xs[1..];
    }
  }

  lemma {:induction false} InsertLineMultiset(x: int, xs: seq<int>)
    ensures multiset(InsertLine(x, xs)) == multiset(xs) + multiset{x}
  {
    HeadTail(InsertLine(x, xs));
    if xs != [] && xs[0] < x {
      InsertLineMultiset(x, xs[1..]);
      HeadTail(xs);
    } else {
      assert InsertLine(x, xs)[1..] == xs;
    }
  }

  lemma {:induction false} InsertLineSorts(x: int, xs: seq<int>)
    requires AscendingLines(xs)
    ensures AscendingLines(InsertLine(x, xs)) && multiset(InsertLine(x, xs)) == multiset(xs) + multiset{x}
  {
    InsertLineMultiset(x, xs);
    if xs != [] && xs[0] < x {
      InsertLineSorts(x, xs[1..]);
      var rest := InsertLine(x, xs[1..]);
      InsertLineMultiset(x, xs[1..]);
      forall j | 0 <= j < |rest| ensures xs[0] <= rest[j] {
        assert rest[j] in multiset(rest);
        assert rest[j] == x || rest[j] in xs[1..];
      }
    }
  }

  lemma AscendingHead(xs: seq<int>, ys: seq<int>)
    requires AscendingLines(xs) && AscendingLines(ys) && multiset(xs) == multiset(ys) && xs != [] && ys != []
    ensures xs[0] == ys[0]
  {
    assert xs[0] in multiset(xs) && ys[0] in multiset(ys);
    assert xs[0] in ys && ys[0] in xs;
  }

  lemma {:induction false} AscendingUnique(xs: seq<int>, ys: seq<int>)
    requires AscendingLines(xs) && AscendingLines(ys) && multiset(xs) == multiset(ys)
    ensures xs == ys
  {
    assert |xs| == |multiset(xs)| && |ys| == |multiset(ys)|;
    if xs != [] {
      AscendingHead(xs, ys);
      HeadTail(xs);
      HeadTail(ys);
      assert multiset(xs[1..]) == multiset(xs) - multiset{xs[0]};
      assert multiset(ys[1..]) == multiset(ys) - multiset{ys[0]};
      AscendingUnique(xs[1..], ys[1..]);
    }
  }

  lemma {:induction false} LinesAscend(xs: seq<Warning>, key: Key)
    requires Ascending(xs)
    ensures AscendingLines(LinesOf(xs, key))
  {
    if xs != [] {
      LinesAscend(xs[1..], key);
      var rest := LinesOf(xs[1..], key);
      forall j | 0 <= j < |rest| ensures xs[0].key == key ==> xs[0].lines <= rest[j] {
        LinesOfMember(xs[1..], key, rest[j]);
        var m :| 0 <= m < |xs[1..]| && xs[1..][m] == Warning(key, rest[j]);
        assert xs[m + 1] == xs[1..][m];
      }
    }
  }

  lemma {:induction false} LinesOfDrop(xs: seq<Warning>, n: nat, key: Key)
    requires n < |xs|
    ensures multiset(LinesOf(xs, key)) ==
      multiset(LinesOf(DropAt(xs, n), key)) + (if xs[n].key == key then multiset{xs[n].lines} else multiset{})
  {
    hide LinesOf, DropAt;
    var x, rest := xs[0], xs[1..];
    assert xs == [x] + rest;
    LinesCons(x, rest, key);
    DropAtCons(x, rest, n);
    if n > 0 {
      LinesOfDrop(rest, n - 1, key);
      LinesCons(x, DropAt(rest, n - 1), key);
    }
  }

  // The lines of a key depend on the warnings as a multiset.
  lemma {:induction false} LinesOfPermuted(xs: seq<Warning>, ys: seq<Warning>, key: Key)
    requires multiset(xs) == multiset(ys)
    ensures multiset(LinesOf(xs, key)) == multiset(LinesOf(ys, key))
  {
    if xs == [] {
      assert |multiset(ys)| == 0;
    } else {
      var n := TailIncluded(xs, ys);
      LinesOfPermuted(xs[1..], DropAt(ys, n), key);
      LinesOfDrop(ys, n, key);
    }
  }

  // ---- The order of the result ----

  // By category, then path, then symbol, then size.
  predicate InPlace(a: Warning, b: Warning) {
    && !Below(b.key.category, a.key.category)
    && (a.key.category == b.key.category ==>
          && !Below(b.key.path, a.key.path)
          && (a.key.path == b.key.path ==>
                && !SymbolBelow(b.key.symbol, a.key.symbol)
                && (a.key.symbol == b.key.symbol ==> a.lines <= b.lines)))
  }

  lemma InPlaceIff(a: Warning, b: Warning)
    ensures InPlace(a, b) <==> !Before(b, a)
  {
    BelowTotal(a.key.category, b.key.category);
    BelowTotal(a.key.path, b.key.path);
  }

  lemma {:induction false} ScanKeepsOrder(reports: seq<Warning>, bases: seq<Warning>)
    requires Sorted(reports)
    ensures forall r | r in Scan(reports, bases) :: r.report in reports
    ensures forall i, j | 0 <= i < j < |Scan(reports, bases)| :: !Before(Scan(reports, bases)[j].report, Scan(reports, bases)[i].report)
  {
    hide Before, Judge;
    if reports != [] {
      assert reports == [reports[0]] + reports[1..];
      match Judge(reports[0], bases)
      case Fits(rest, _) => ScanKeepsOrder(reports[1..], rest);
      case Flagged(rest, _) =>
        ScanKeepsOrder(reports[1..], rest);
        var tail := Scan(reports[1..], rest);
        forall j | 0 <= j < |tail| ensures !Before(tail[j].report, reports[0]) {
          assert tail[j] in tail;
          var k :| 0 <= k < |reports[1..]| && reports[1..][k] == tail[j].report;
          assert reports[k + 1] == tail[j].report;
        }
    }
  }

  // ---- The result ----

  /** The regressions are listed by category, path, symbol and size. */
  lemma RegressionsInOrder(reports: seq<Warning>, baseline: seq<Warning>, i: nat, j: nat)
    requires i < j < |Regressions(reports, baseline)|
    ensures InPlace(Regressions(reports, baseline)[i].report, Regressions(reports, baseline)[j].report)
  {
    SortReportsSorts(reports);
    ScanKeepsOrder(SortReports(reports), SortReports(baseline));
    InPlaceIff(Regressions(reports, baseline)[i].report, Regressions(reports, baseline)[j].report);
  }

  function Regressions(reports: seq<Warning>, baseline: seq<Warning>): seq<Regression> {
    Scan(SortReports(reports), SortReports(baseline))
  }

  /** The unflagged reports are a maximum matching of the reports to the baseline entries. */
  lemma RegressionsAreOptimal(reports: seq<Warning>, baseline: seq<Warning>, pairs: seq<Pair>)
    requires Matching(pairs, reports, baseline)
    ensures |pairs| <= |reports| - |Regressions(reports, baseline)|
    ensures exists best ::
      && Matching(best, reports, baseline) && |best| == |reports| - |Regressions(reports, baseline)|
      && multiset(Reports(best)) + multiset(FlaggedReports(Regressions(reports, baseline))) == multiset(reports)
  {
    var sorted, bases := SortReports(reports), SortReports(baseline);
    SortReportsSorts(reports);
    SortReportsSorts(baseline);
    forall key ensures AscendingLines(LinesOf(bases, key)) {
      LinesAscend(bases, key);
    }
    var limits := KeptIsTight(sorted, bases);
    assert Matching(pairs, sorted, bases);
    MatchingBound(pairs, sorted, bases, limits);
    ScanIsMatching(sorted, bases);
    assert |sorted| == |reports| by {
      assert |multiset(sorted)| == |multiset(reports)|;
    }
    assert Matching(Fitted(sorted, bases), reports, baseline);
  }

  // Every report has a baseline entry of its own that is at least as large.
  ghost predicate Covered(reports: seq<Warning>, baseline: seq<Warning>) {
    exists pairs :: Matching(pairs, reports, baseline) && |pairs| == |reports|
  }

  /** Nothing is flagged exactly when every report is covered. */
  lemma CleanIffCovered(reports: seq<Warning>, baseline: seq<Warning>)
    ensures Regressions(reports, baseline) == [] <==> Covered(reports, baseline)
  {
    assert Matching([], reports, baseline);
    RegressionsAreOptimal(reports, baseline, []);
    if Covered(reports, baseline) {
      var pairs :| Matching(pairs, reports, baseline) && |pairs| == |reports|;
      RegressionsAreOptimal(reports, baseline, pairs);
    }
  }

  function WithItself(reports: seq<Warning>): seq<Pair> {
    if reports == [] then [] else [Pair(reports[0], reports[0])] + WithItself(reports[1..])
  }

  lemma {:induction false} WithItselfCovers(reports: seq<Warning>)
    ensures Reports(WithItself(reports)) == reports && Bases(WithItself(reports)) == reports && |WithItself(reports)| == |reports|
    ensures forall p | p in WithItself(reports) :: Fitting(p)
  {
    if reports != [] {
      WithItselfCovers(reports[1..]);
    }
  }

  /** A report list is always clean against its own snapshot, in any order. */
  lemma OwnSnapshotIsClean(reports: seq<Warning>, snapshot: seq<Warning>)
    requires multiset(snapshot) == multiset(reports)
    ensures Regressions(reports, snapshot) == []
  {
    WithItselfCovers(reports);
    assert Matching(WithItself(reports), reports, snapshot);
    CleanIffCovered(reports, snapshot);
  }

  // ---- The procedure ----

  function Candidates(lines: map<Key, seq<int>>, key: Key): seq<int> {
    if key in lines then lines[key] else []
  }

  // The dictionary holds the lines of these bases.
  ghost predicate Holds(lines: map<Key, seq<int>>, bases: seq<Warning>) {
    forall key :: Candidates(lines, key) == LinesOf(bases, key)
  }

  lemma {:induction false} LinesOfAppend(xs: seq<Warning>, x: Warning, key: Key)
    ensures LinesOf(xs + [x], key) == LinesOf(xs, key) + (if x.key == key then [x.lines] else [])
  {
    if xs == [] {
      assert [] + [x] == [x];
    } else {
      LinesOfAppend(xs[1..], x, key);
      assert (xs + [x])[1..] == xs[1..] + [x];
    }
  }

  lemma HoldsAppend(lines: map<Key, seq<int>>, xs: seq<Warning>, x: Warning)
    requires Holds(lines, xs)
    ensures Holds(lines[x.key := Candidates(lines, x.key) + [x.lines]], xs + [x])
  {
    forall key ensures LinesOf(xs + [x], key) == LinesOf(xs, key) + (if x.key == key then [x.lines] else []) {
      LinesOfAppend(xs, x, key);
    }
  }

  lemma HoldsDrop(lines: map<Key, seq<int>>, bases: seq<Warning>, key: Key, n: nat)
    requires Holds(lines, bases) && n < |Candidates(lines, key)|
    ensures n < |LinesOf(bases, key)|
    ensures Holds(lines[key := DropAt(Candidates(lines, key), n)], DropBase(bases, key, n))
  {
    assert Candidates(lines, key) == LinesOf(bases, key);
    forall k ensures LinesOf(DropBase(bases, key, n), k) == if k == key then DropAt(LinesOf(bases, key), n) else LinesOf(bases, k) {
      DropBaseLines(bases, key, n, k);
    }
  }

  method GroupLines(baseline: seq<Warning>) returns (lines: map<Key, seq<int>>)
    ensures Holds(lines, SortReports(baseline))
  {
    hide LinesOf, SortReports;
    lines := map[];
    assert Holds(lines, []) by { HoldsNothing(); }
    for i := 0 to |baseline|
      invariant Holds(lines, baseline[..i])
    {
      assert baseline[..i + 1] == baseline[..i] + [baseline[i]];
      HoldsAppend(lines, baseline[..i], baseline[i]);
      lines := lines[baseline[i].key := Candidates(lines, baseline[i].key) + [baseline[i].lines]];
    }
    assert baseline[..|baseline|] == baseline;
    ghost var grouped := lines;
    var pending := lines.Keys;
    while pending != {}
      invariant pending <= lines.Keys == grouped.Keys
      invariant forall k | k in lines :: lines[k] == if k in pending then grouped[k] else SortLines(grouped[k])
      decreases |pending|
    {
      var k :| k in pending;
      lines := lines[k := SortLines(lines[k])];
      pending := pending - {k};
    }
    forall key ensures Candidates(lines, key) == LinesOf(SortReports(baseline), key) {
      SortedGroup(baseline, key);
      assert Candidates(grouped, key) == LinesOf(baseline, key);
    }
  }

  lemma HoldsNothing()
    ensures Holds(map[], [])
  {
  }

  lemma SortedGroup(baseline: seq<Warning>, key: Key)
    ensures LinesOf(SortReports(baseline), key) == SortLines(LinesOf(baseline, key))
  {
    SortReportsSorts(baseline);
    LinesAscend(SortReports(baseline), key);
    LinesOfPermuted(SortReports(baseline), baseline, key);
    SortLinesSorts(LinesOf(baseline, key));
    AscendingUnique(LinesOf(SortReports(baseline), key), SortLines(LinesOf(baseline, key)));
  }

  // The first fit is the first occurrence of its value, so removing the value removes it.
  method FindRegressions(reports: seq<Warning>, baseline: seq<Warning>) returns (regressions: seq<Regression>)
    ensures regressions == Regressions(reports, baseline)
  {
    hide LinesOf, DropBase, SortReports, Holds, DropAt;
    var lines := GroupLines(baseline);
    ghost var bases := SortReports(baseline);
    var sorted := SortReports(reports);
    regressions := [];
    assert sorted[0..] == sorted;
    for i := 0 to |sorted|
      invariant Holds(lines, bases)
      invariant Regressions(reports, baseline) == regressions + Scan(sorted[i..], bases)
    {
      var report := sorted[i];
      assert sorted[i..][0] == report && sorted[i..][1..] == sorted[i + 1..];
      var candidates := Candidates(lines, report.key);
      HeldLines(lines, bases, report.key);
      var n := FirstFit(candidates, report.lines);
      if n < |candidates| {
        HoldsDrop(lines, bases, report.key, n);
        lines := lines[report.key := DropAt(candidates, n)];
        bases := DropBase(bases, report.key, n);
        continue;
      }
      var previous := None;
      if candidates != [] {
        var last := |candidates| - 1;
        HoldsDrop(lines, bases, report.key, last);
        previous := Some(candidates[last]);
        lines := lines[report.key := candidates[..last]];
        DropLast(candidates);
        bases := DropBase(bases, report.key, last);
      }
      regressions := regressions + [Regression(report, previous)];
    }
  }

  lemma HeldLines(lines: map<Key, seq<int>>, bases: seq<Warning>, key: Key)
    requires Holds(lines, bases)
    ensures Candidates(lines, key) == LinesOf(bases, key)
  {
  }

  lemma DropLast(xs: seq<int>)
    requires xs != []
    ensures DropAt(xs, |xs| - 1) == xs[..|xs| - 1]
  {
  }
}
