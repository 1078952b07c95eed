/** Task branch names: one printer and one parser. Issue numbers are printed and read in
    ASCII digits. */
module BranchNaming {
  import opened Wrappers

  const DEFAULT_TASK_BRANCH_PREFIX := "claude"

  datatype ParsedTaskBranch = ParsedTaskBranch(prefix: string, issue: nat, subtask: string)

  datatype NameError = InvalidPrefix

  // ---- Decimal numbers ----

  predicate IsDigit(c: char) {
    '0' <= c <= '9'
  }

  function Decimal(n: nat): string {
    if n < 10 then ['0' + n as char] else Decimal(n / 10) + ['0' + (n % 10) as char]
  }

  function Value(digits: string): nat
    requires forall c | c in digits :: IsDigit(c)
  {
    if digits == "" then 0
    else
      assert IsDigit(digits[|digits| - 1]);
      10 * Value(digits[..|digits| - 1]) + (digits[|digits| - 1] as nat - '0' as nat)
  }

  lemma {:induction false} DecimalDigits(n: nat)
    ensures Decimal(n) != "" && forall c | c in Decimal(n) :: IsDigit(c)
  {
    if n >= 10 {
      DecimalDigits(n / 10);
    }
  }

  /** Reading a printed number gives it back. */
  lemma {:induction false} ValueOfDecimal(n: nat)
    ensures forall c | c in Decimal(n) :: IsDigit(c)
    ensures Value(Decimal(n)) == n
  {
    DecimalDigits(n);
    if n >= 10 {
      ValueOfDecimal(n / 10);
      assert Decimal(n)[..|Decimal(n)| - 1] == Decimal(n / 10);
    } else {
      assert Decimal(n)[..0] == "";
    }
  }

  // ---- Printing ----

  // A missing or empty subtask is called "task".
  function OrTask(subtask: Option<string>): string {
    if subtask.Some? && subtask.value != "" then subtask.value else "task"
  }

  function BuildTaskBranchName(issue: nat, subtask: Option<string>, prefix: string): (r: Result<string, NameError>)
    ensures r.Ok? <==> prefix != "" && '/' !in prefix
  {
    if prefix == "" || '/' in prefix then Err(InvalidPrefix)
    else Ok(prefix + "/issue-" + Decimal(issue) + "-" + OrTask(subtask))
  }

  // ---- Parsing ----

  // The length of the longest prefix without this kind of character.
  function RunLength(s: string, inside: char -> bool): (n: nat)
    ensures n <= |s| && forall i | 0 <= i < n :: inside(s[i])
    ensures n < |s| ==> !inside(s[n])
  {
    if s == "" || !inside(s[0]) then 0 else 1 + RunLength(s[1..], inside)
  }

  lemma {:induction false} RunLengthIs(run: string, rest: string, inside: char -> bool)
    requires forall c | c in run :: inside(c)
    requires rest != "" && !inside(rest[0])
    ensures RunLength(run + rest, inside) == |run|
  {
    if run != "" {
      assert (run + rest)[1..] == run[1..] + rest && run[0] in run;
      RunLengthIs(run[1..], rest, inside);
    } else {
      assert run + rest == rest;
    }
  }

  // The pattern's end of text also matches before one final newline.
  function WithoutFinalNewline(s: string): string {
    if s != "" && s[|s| - 1] == '\n' then s[..|s| - 1] else s
  }

  const NotSlash: char -> bool := c => c != '/'
  const Digit: char -> bool := c => IsDigit(c)

  function ParseTaskBranchName(branch: string): Option<ParsedTaskBranch> {
    var p := RunLength(branch, NotSlash);
    if p == 0 || !("/issue-" <= branch[p..]) then None
    else
      var tail := branch[p + 7..];
      var d := RunLength(tail, Digit);
      if d == 0 || d == |tail| || tail[d] != '-' then None
      else
        var subtask := WithoutFinalNewline(tail[d + 1..]);
        if subtask == "" || '\n' in subtask then None
        else
          assert forall c | c in tail[..d] :: IsDigit(c);
          Some(ParsedTaskBranch(branch[..p], Value(tail[..d]), subtask))
  }

  predicate BranchMatchesTask(branch: string, issue: nat, subtask: Option<string>) {
    var parsed := ParseTaskBranchName(branch);
    && parsed.Some? && parsed.value.issue == issue
    && (subtask.Some? ==> parsed.value.subtask == OrTask(subtask))
  }

  // ---- What the two do together ----

  lemma ParseParts(prefix: string, digits: string, ending: string)
    requires prefix != "" && '/' !in prefix
    requires digits != "" && forall c | c in digits :: IsDigit(c)
    ensures
      var subtask := WithoutFinalNewline(ending);
      ParseTaskBranchName(prefix + "/issue-" + digits + "-" + ending) ==
        if subtask == "" || '\n' in subtask then None else Some(ParsedTaskBranch(prefix, Value(digits), subtask))
  {
    hide RunLength, Value, WithoutFinalNewline;
    var branch := prefix + "/issue-" + digits + "-" + ending;
    var rest := "/issue-" + digits + "-" + ending;
    assert branch == prefix + rest;
    RunLengthIs(prefix, rest, NotSlash);
    assert branch[|prefix|..] == rest && rest[..7] == "/issue-";
    var tail := digits + ("-" + ending);
    assert branch[|prefix| + 7..] == tail;
    RunLengthIs(digits, "-" + ending, Digit);
    assert tail[|digits| + 1..] == ending && tail[..|digits|] == digits && branch[..|prefix|] == prefix;
  }

  /** A built name parses back to its own parts exactly when the subtask has no newline. */
  lemma RoundTripIff(issue: nat, subtask: Option<string>, prefix: string)
    requires prefix != "" && '/' !in prefix
    ensures
      var name := BuildTaskBranchName(issue, subtask, prefix).value;
      ParseTaskBranchName(name) == Some(ParsedTaskBranch(prefix, issue, OrTask(subtask))) <==> '\n' !in OrTask(subtask)
  {
    ValueOfDecimal(issue);
    DecimalDigits(issue);
    ParseParts(prefix, Decimal(issue), OrTask(subtask));
  }

  /** Building is injective, up to the default subtask, on newline-free subtasks. */
  lemma BuildInjective(issue: nat, subtask: Option<string>, prefix: string, issue2: nat, subtask2: Option<string>, prefix2: string)
    requires prefix != "" && '/' !in prefix && prefix2 != "" && '/' !in prefix2
    requires '\n' !in OrTask(subtask) && '\n' !in OrTask(subtask2)
    ensures BuildTaskBranchName(issue, subtask, prefix) == BuildTaskBranchName(issue2, subtask2, prefix2) <==>
      prefix == prefix2 && issue == issue2 && OrTask(subtask) == OrTask(subtask2)
  {
    RoundTripIff(issue, subtask, prefix);
    RoundTripIff(issue2, subtask2, prefix2);
  }

  /** A built name belongs to its own Issue and subtask and to no other. */
  lemma BuiltNameMatchesIff(issue: nat, subtask: Option<string>, prefix: string, asked: nat, askedSubtask: Option<string>)
    requires prefix != "" && '/' !in prefix && '\n' !in OrTask(subtask)
    ensures BranchMatchesTask(BuildTaskBranchName(issue, subtask, prefix).value, asked, askedSubtask) <==>
      asked == issue && (askedSubtask.Some? ==> OrTask(askedSubtask) == OrTask(subtask))
  {
    RoundTripIff(issue, subtask, prefix);
  }

  lemma Cut(s: string, n: nat, middle: string)
    requires n <= |s| && middle <= s[n..]
    ensures n + |middle| <= |s| && s == s[..n] + middle + s[n + |middle|..]
  {
    assert s[n..] == middle + s[n..][|middle|..];
  }

  // A run holds only characters of its kind.
  lemma RunHolds(s: string, inside: char -> bool)
    ensures forall c | c in s[..RunLength(s, inside)] :: inside(c)
  {
    hide RunLength;
  }

  // What the parser accepts, and what it reads.
  lemma ParsedFields(branch: string) returns (p: nat, tail: string)
    requires ParseTaskBranchName(branch).Some?
    ensures p <= |branch| && "/issue-" <= branch[p..] && p + 7 <= |branch| && tail == branch[p + 7..]
    ensures RunLength(tail, Digit) < |tail| && tail[RunLength(tail, Digit)] == '-' && RunLength(tail, Digit) > 0
    ensures
      var parsed := ParseTaskBranchName(branch).value;
      var d := RunLength(tail, Digit);
      && parsed.prefix == branch[..p] != "" && '/' !in parsed.prefix
      && (forall c | c in tail[..d] :: IsDigit(c)) && Value(tail[..d]) == parsed.issue
      && parsed.subtask == WithoutFinalNewline(tail[d + 1..]) && parsed.subtask != "" && '\n' !in parsed.subtask
  {
    hide RunLength, Value, WithoutFinalNewline, IsDigit;
    p := RunLength(branch, NotSlash);
    tail := branch[p + 7..];
    RunHolds(branch, NotSlash);
    RunHolds(tail, Digit);
    assert forall c | c in branch[..p] :: NotSlash(c);
  }

  /** Every recognised name has the documented shape: one segment, digits that spell the
      Issue, a subtask, and at most one newline after it. */
  lemma ParsedShape(branch: string) returns (digits: string, ending: string)
    requires ParseTaskBranchName(branch).Some?
    ensures
      var parsed := ParseTaskBranchName(branch).value;
      && parsed.prefix != "" && '/' !in parsed.prefix && parsed.subtask != "" && '\n' !in parsed.subtask
      && digits != "" && (forall c | c in digits :: IsDigit(c)) && Value(digits) == parsed.issue
      && (ending == "" || ending == "\n")
      && branch == parsed.prefix + "/issue-" + (digits + "-" + (parsed.subtask + ending))
  {
    hide ParseTaskBranchName, RunLength, Value, WithoutFinalNewline;
    var p, tail := ParsedFields(branch);
    Cut(branch, p, "/issue-");
    var last;
    digits, last := TailShape(tail);
    ending := NewlineAtEnd(last);
  }

  lemma NewlineAtEnd(s: string) returns (ending: string)
    ensures s == WithoutFinalNewline(s) + ending && (ending == "" || ending == "\n")
  {
    ending := s[|WithoutFinalNewline(s)|..];
  }

  lemma TailShape(tail: string) returns (digits: string, last: string)
    requires RunLength(tail, Digit) < |tail| && tail[RunLength(tail, Digit)] == '-'
    ensures digits == tail[..RunLength(tail, Digit)] && last == tail[RunLength(tail, Digit) + 1..]
    ensures tail == digits + "-" + last && forall c | c in digits :: IsDigit(c)
  {
    var d := RunLength(tail, Digit);
    Cut(tail, d, "-");
    digits, last := tail[..d], tail[d + 1..];
  }

  lemma {:induction false} ValueLeadingZero(digits: string)
    requires forall c | c in digits :: IsDigit(c)
    ensures Value("0" + digits) == Value(digits)
  {
    if digits == "" {
      assert "0" + "" == "0" && "0"[..0] == "";
    } else {
      var n := |digits| - 1;
      assert ("0" + digits)[..n + 1] == "0" + digits[..n];
      ValueLeadingZero(digits[..n]);
    }
  }

  /** A name may match a task without being the name that is built for it: a leading zero
      is read over. */
  lemma LeadingZeroMatches(issue: nat, subtask: string, prefix: string)
    requires prefix != "" && '/' !in prefix && subtask != "" && '\n' !in subtask
    ensures
      var name := prefix + "/issue-" + ("0" + Decimal(issue)) + "-" + subtask;
      && BranchMatchesTask(name, issue, Some(subtask))
      && Ok(name) != BuildTaskBranchName(issue, Some(subtask), prefix)
  {
    ValueOfDecimal(issue);
    ValueLeadingZero(Decimal(issue));
    ParseParts(prefix, "0" + Decimal(issue), subtask);
    var built := prefix + "/issue-" + Decimal(issue) + "-" + subtask;
    assert |prefix + "/issue-" + ("0" + Decimal(issue)) + "-" + subtask| == |built| + 1;
  }
}
