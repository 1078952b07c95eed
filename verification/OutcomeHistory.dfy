/** Reading outcome records back from a comment history: the latest record, the latest one
    of a child task, and the number of the next blocked attempt. */
module OutcomeHistory {
  import opened Wrappers
  import opened Ordering

  datatype Result = Done | Blocked | NotNeeded

  datatype Reason = BaseBranchRed | OtherReason

  datatype Record = Record(
    result: Result, reason: Option<Reason>, issue: nat, pr: Option<nat>,
    claim: Option<string>, head: Option<string>, attempt: Option<int>)

  // A comment, with the record its body carries, if any; a missing creation time is "".
  datatype Comment = Comment(record: Option<Record>, created: string)

  // ---- The latest of several ----

  // The index of the latest comment that qualifies; the later one of equals.
  function Latest(comments: seq<Comment>, qualifies: Comment -> bool): (i: Option<nat>)
    ensures i.Some? ==> i.value < |comments| && qualifies(comments[i.value])
    ensures i.None? ==> forall c | c in comments :: !qualifies(c)
  {
    if comments == [] then None
    else
      var n := |comments| - 1;
      var init := Latest(comments[..n], qualifies);
      assert comments == comments[..n] + [comments[n]];
      if qualifies(comments[n]) && (init.None? || !Below(comments[n].created, comments[init.value].created)) then Some(n)
      else init
  }

  /** The latest qualifying comment: none is newer, and none after it is as new. */
  lemma {:induction false} LatestIsNewest(comments: seq<Comment>, qualifies: Comment -> bool, j: nat)
    requires j < |comments| && qualifies(comments[j])
    ensures var i := Latest(comments, qualifies);
      && i.Some? && !Below(comments[i.value].created, comments[j].created)
      && (j > i.value ==> Below(comments[j].created, comments[i.value].created))
  {
    var n := |comments| - 1;
    var last := comments[n];
    BelowTotal(last.created, last.created);
    if j < n {
      LatestIsNewest(comments[..n], qualifies, j);
      var i := Latest(comments[..n], qualifies).value;
      BelowTotal(last.created, comments[i].created);
      BelowTotal(last.created, comments[j].created);
      BelowTotal(comments[i].created, comments[j].created);
      if Below(last.created, comments[j].created) && Below(comments[j].created, comments[i].created) {
        BelowTransitive(last.created, comments[j].created, comments[i].created);
      }
    } else {
      var init := Latest(comments[..n], qualifies);
      if init.Some? {
        BelowTotal(last.created, comments[init.value].created);
      }
    }
  }

  // ---- Parsing a history ----

  // Comments that are surely older than `since` are not read.
  predicate IsRecent(comment: Comment, clock: string -> Option<int>, since: Option<int>) {
    since.Some? && comment.created != "" && clock(comment.created).Some? ==> clock(comment.created).value >= since.value
  }

  predicate Readable(comment: Comment, clock: string -> Option<int>, since: Option<int>) {
    comment.record.Some? && IsRecent(comment, clock, since)
  }

  function ReadableIn(clock: string -> Option<int>, since: Option<int>): Comment -> bool {
    c => Readable(c, clock, since)
  }

  function ParseHistory(comments: seq<Comment>, clock: string -> Option<int>, since: Option<int>): Option<Record> {
    match Latest(comments, ReadableIn(clock, since))
    case None => None
    case Some(i) => comments[i].record
  }

  // `since` is given in whole seconds.
  method ParseFromComments(comments: seq<Comment>, clock: string -> Option<int>, since: Option<int>)
    returns (record: Option<Record>)
    ensures record == ParseHistory(comments, clock, since)
  {
    var latestCreated: Option<string> := None;
    record := None;
    for i := 0 to |comments|
      invariant match Latest(comments[..i], ReadableIn(clock, since))
        case None => latestCreated.None? && record.None?
        case Some(k) => latestCreated == Some(comments[k].created) && record == comments[k].record
    {
      var comment := comments[i];
      assert comments[..i + 1][..i] == comments[..i];
      if since.Some? && comment.created != "" {
        var stamp := clock(comment.created);
        if stamp.Some? && stamp.value < since.value {
          continue;
        }
      }
      if comment.record.None? {
        continue;
      }
      if latestCreated.None? || !Below(comment.created, latestCreated.value) {
        latestCreated := Some(comment.created);
        record := comment.record;
      }
    }
    assert comments[..|comments|] == comments;
  }

  predicate IdentifiesChild(record: Record, issue: nat, pr: Option<nat>) {
    record.issue == issue && (pr.None? || record.pr.None? || record.pr == pr)
  }

  predicate Owned(comment: Comment, issue: nat, pr: Option<nat>) {
    comment.record.Some? && IdentifiesChild(comment.record.value, issue, pr)
  }

  /** A record is a child's own when it names its Issue, and its pull request if both are known. */
  lemma OwnedIff(comment: Comment, issue: nat, pr: Option<nat>)
    ensures Owned(comment, issue, pr) <==>
      && comment.record.Some? && comment.record.value.issue == issue
      && forall known, asked :: comment.record.value.pr == Some(known) && pr == Some(asked) ==> known == asked
  {
  }

  function OwnedIn(issue: nat, pr: Option<nat>): Comment -> bool {
    c => Owned(c, issue, pr)
  }

  function OwnedOnly(comments: seq<Comment>, issue: nat, pr: Option<nat>): seq<Comment> {
    if comments == [] then []
    else
      var n := |comments| - 1;
      OwnedOnly(comments[..n], issue, pr) + (if Owned(comments[n], issue, pr) then [comments[n]] else [])
  }

  function NoClock(created: string): Option<int> {
    None
  }

  function FindChildOutcomeRecord(comments: seq<Comment>, issue: nat, pr: Option<nat>): Option<Record> {
    ParseHistory(OwnedOnly(comments, issue, pr), NoClock, None)
  }

  /** Records of other tasks never hide the child's own: filtering first and taking the
      latest is taking the latest of those that identify the child. */
  lemma {:induction false} ChildRecordIsLatestOwned(comments: seq<Comment>, issue: nat, pr: Option<nat>)
    ensures
      var own := OwnedOnly(comments, issue, pr);
      var a, b := Latest(own, ReadableIn(NoClock, None)), Latest(comments, OwnedIn(issue, pr));
      (a.Some? <==> b.Some?) && (a.Some? ==> own[a.value] == comments[b.value])
    ensures FindChildOutcomeRecord(comments, issue, pr).Some? ==>
      IdentifiesChild(FindChildOutcomeRecord(comments, issue, pr).value, issue, pr)
  {
    if comments != [] {
      var n := |comments| - 1;
      ChildRecordIsLatestOwned(comments[..n], issue, pr);
      var init := OwnedOnly(comments[..n], issue, pr);
      var own := OwnedOnly(comments, issue, pr);
      if Owned(comments[n], issue, pr) {
        assert own[..|init|] == init && own[|init|] == comments[n];
        assert IsRecent(comments[n], NoClock, None);
      } else {
        assert own == init;
      }
    }
  }

  // ---- Blocked attempts ----

  datatype Attempt = Attempt(claim: string, head: string)

  predicate Qualifies(comment: Comment, issue: nat) {
    && comment.record.Some?
    && comment.record.value.result.Blocked? && comment.record.value.reason == Some(BaseBranchRed)
    && comment.record.value.issue == issue
    && comment.record.value.claim.Some? && comment.record.value.head.Some?
  }

  function QualifiesIn(issue: nat): Comment -> bool {
    c => Qualifies(c, issue)
  }

  function AttemptOf(comment: Comment, issue: nat): Attempt
    requires Qualifies(comment, issue)
  {
    Attempt(comment.record.value.claim.value, comment.record.value.head.value)
  }

  // The largest number given so far; zero when there is none.
  function MaxAttempt(comments: seq<Comment>, issue: nat): int {
    if comments == [] then 0
    else
      var n := |comments| - 1;
      var init := MaxAttempt(comments[..n], issue);
      if Qualifies(comments[n], issue) && comments[n].record.value.attempt.Some? && comments[n].record.value.attempt.value > init
      then comments[n].record.value.attempt.value else init
  }

  function NextAttempt(comments: seq<Comment>, issue: nat, attempt: Attempt): int {
    match Latest(comments, QualifiesIn(issue))
    case None => 1
    case Some(i) =>
      if AttemptOf(comments[i], issue) == attempt then
        if comments[i].record.value.attempt.Some? then comments[i].record.value.attempt.value else 1
      else MaxAttempt(comments, issue) + 1
  }

  method CalculateBlockedAttempt(comments: seq<Comment>, issue: nat, claim: string, head: string) returns (number: int)
    ensures number == NextAttempt(comments, issue, Attempt(claim, head))
  {
    var latestCreated: Option<string> := None;
    var latest: Option<Record> := None;
    var maxAttempt := 0;
    for i := 0 to |comments|
      invariant maxAttempt == MaxAttempt(comments[..i], issue)
      invariant match Latest(comments[..i], QualifiesIn(issue))
        case None => latestCreated.None? && latest.None?
        case Some(k) => latestCreated == Some(comments[k].created) && latest == comments[k].record
    {
      var comment := comments[i];
      assert comments[..i + 1][..i] == comments[..i];
      if comment.record.None? {
        continue;
      }
      var record := comment.record.value;
      if !record.result.Blocked? || record.reason != Some(BaseBranchRed) || record.issue != issue
         || record.claim.None? || record.head.None? {
        continue;
      }
      if record.attempt.Some? {
        maxAttempt := if record.attempt.value > maxAttempt then record.attempt.value else maxAttempt;
      }
      if latestCreated.None? || !Below(comment.created, latestCreated.value) {
        latestCreated := Some(comment.created);
        latest := Some(record);
      }
    }
    assert comments[..|comments|] == comments;
    if latest.None? {
      return 1;
    }
    if latest.value.claim == Some(claim) && latest.value.head == Some(head) {
      return if latest.value.attempt.Some? then latest.value.attempt.value else 1;
    }
    number := maxAttempt + 1;
  }

  // ---- Histories that workers build ----

  // The identities of the qualifying comments, in order.
  function Attempts(comments: seq<Comment>, issue: nat): seq<Attempt> {
    if comments == [] then []
    else
      var n := |comments| - 1;
      Attempts(comments[..n], issue) + (if Qualifies(comments[n], issue) then [AttemptOf(comments[n], issue)] else [])
  }

  // The number of maximal stretches of one identity.
  function Stretches(attempts: seq<Attempt>): nat {
    if attempts == [] then 0
    else
      var n := |attempts| - 1;
      Stretches(attempts[..n]) + (if n == 0 || attempts[n - 1] != attempts[n] then 1 else 0)
  }

  // Every qualifying comment carries the number its worker computed from the comments
  // before it, and was created no earlier than those; other comments are arbitrary.
  ghost predicate Grown(comments: seq<Comment>, issue: nat) {
    comments == [] ||
    var n := |comments| - 1;
    && Grown(comments[..n], issue)
    && (Qualifies(comments[n], issue) ==>
          && comments[n].record.value.attempt == Some(NextAttempt(comments[..n], issue, AttemptOf(comments[n], issue)))
          && forall k | 0 <= k < n && Qualifies(comments[k], issue) :: !Below(comments[n].created, comments[k].created))
  }

  // The largest and the latest number both count the stretches so far.
  ghost predicate Tallied(comments: seq<Comment>, issue: nat) {
    && MaxAttempt(comments, issue) == Stretches(Attempts(comments, issue))
    && match Latest(comments, QualifiesIn(issue))
       case None => Attempts(comments, issue) == []
       case Some(i) =>
         && Attempts(comments, issue) != []
         && AttemptOf(comments[i], issue) == Attempts(comments, issue)[|Attempts(comments, issue)| - 1]
         && comments[i].record.value.attempt == Some(Stretches(Attempts(comments, issue)))
  }

  lemma TalliedNext(comments: seq<Comment>, issue: nat, attempt: Attempt)
    requires Tallied(comments, issue)
    ensures NextAttempt(comments, issue, attempt) == Stretches(Attempts(comments, issue) + [attempt])
    ensures NextAttempt(comments, issue, attempt) >= MaxAttempt(comments, issue)
  {
    var before := Attempts(comments, issue);
    assert (before + [attempt])[..|before|] == before;
  }

  lemma {:induction false} GrownHistory(comments: seq<Comment>, issue: nat)
    requires Grown(comments, issue)
    ensures Tallied(comments, issue)
  {
    if comments != [] {
      var n := |comments| - 1;
      GrownHistory(comments[..n], issue);
      if Qualifies(comments[n], issue) {
        TalliedNext(comments[..n], issue, AttemptOf(comments[n], issue));
        var number := comments[n].record.value.attempt.value;
        assert number == NextAttempt(comments[..n], issue, AttemptOf(comments[n], issue));
        assert MaxAttempt(comments, issue) == number;
        assert Attempts(comments, issue) == Attempts(comments[..n], issue) + [AttemptOf(comments[n], issue)];
        assert forall k | 0 <= k < n :: comments[..n][k] == comments[k];
      } else {
        assert Attempts(comments, issue) == Attempts(comments[..n], issue);
      }
    }
  }

  /** In a history that workers built, the next number is the number of maximal stretches
      of one identity, the new comment included. */
  lemma AttemptCountsStretches(comments: seq<Comment>, issue: nat, attempt: Attempt)
    requires Grown(comments, issue)
    ensures NextAttempt(comments, issue, attempt) == Stretches(Attempts(comments, issue) + [attempt])
  {
    GrownHistory(comments, issue);
    TalliedNext(comments, issue, attempt);
  }

  lemma {:induction false} NumbersAreBounded(comments: seq<Comment>, issue: nat, k: nat)
    requires k < |comments| && Qualifies(comments[k], issue) && comments[k].record.value.attempt.Some?
    ensures comments[k].record.value.attempt.value <= MaxAttempt(comments, issue)
  {
    if k < |comments| - 1 {
      NumbersAreBounded(comments[..|comments| - 1], issue, k);
    }
  }

  /** Sending the same identity again keeps its number; another identity than the last one
      gets a number above every earlier one. */
  lemma ResendKeepsNewExceeds(comments: seq<Comment>, issue: nat, attempt: Attempt, k: nat)
    requires Grown(comments, issue) && k < |comments| && Qualifies(comments[k], issue)
    ensures
      var last := Attempts(comments, issue);
      && last != []
      && (attempt == last[|last| - 1] ==> NextAttempt(comments, issue, attempt) == MaxAttempt(comments, issue))
      && (attempt != last[|last| - 1] ==>
            comments[k].record.value.attempt.Some? && NextAttempt(comments, issue, attempt) > comments[k].record.value.attempt.value)
  {
    GrownHistory(comments, issue);
    LatestIsNewest(comments, QualifiesIn(issue), k);
    NumbersArePresent(comments, issue, k);
    NumbersAreBounded(comments, issue, k);
  }

  lemma {:induction false} NumbersArePresent(comments: seq<Comment>, issue: nat, k: nat)
    requires Grown(comments, issue) && k < |comments| && Qualifies(comments[k], issue)
    ensures comments[k].record.value.attempt.Some?
  {
    if k < |comments| - 1 {
      NumbersArePresent(comments[..|comments| - 1], issue, k);
    }
  }
}
