/** Replaying a handed-off completion from its receipt, before any ownership check. */
module CompletionReplay {
  import opened Wrappers
  import opened CompletionRecords
  import opened CompletionRuns

  // What a caller asks for. The fingerprint digests what is to be announced.
  datatype Request = Request(
    issue: nat, claim: Option<string>, completion: Option<string>, fingerprint: string,
    verdict: Verdict, pr: Option<nat>, notes: string)
  {
    // The caller names the completion; an empty id counts as none.
    predicate Explicit() {
      completion.Some? && completion.value != ""
    }

    // A pull request is announced with a finished task alone, and an unneeded one has no notes.
    function Asks(): Intent {
      Intent(issue, verdict, if verdict.Done? then pr else None, if verdict.NotNeeded? then "" else notes)
    }

    // The fingerprint is the digest of this request.
    ghost predicate Digested(codec: Codec) {
      codec.intent(fingerprint) == Asks()
    }
  }

  datatype ReplayError = AmbiguousHistory | WrongIssue | FingerprintDiffers | GenerationDiffers | Malformed

  datatype Answer = Answer(issue: nat, verdict: Verdict, generation: string, completion: string, outcome: Outcome)

  const UNCLAIMED := "unclaimed-"

  function ResultFromRecord(codec: Codec, id: Identity): Result<Option<Answer>, ReplayError> {
    match codec.parse(id.payload.body)
    case None => Err(Malformed)
    case Some(outcome) => Ok(Some(Answer(id.issue, id.verdict, id.generation, id.completion, outcome)))
  }

  predicate Matches(request: Request, repo: string, id: Identity) {
    if request.Explicit() then id.completion == request.completion.value
    else
      && id.repo == repo && id.issue == request.issue
      && (request.claim.None? || id.generation == request.claim.value)
  }

  function ReceiptMatches(request: Request, repo: string, state: RunState): set<JournalKey> {
    set k | k in state.receipts && Matches(request, repo, state.receipts[k].id)
  }

  lemma OnlyMember<T>(s: set<T>, x: T, y: T)
    requires |s| == 1 && x in s && y in s
    ensures x == y
  {
    assert |s - {x}| == 0;
  }

  function Only<T(!new)>(s: set<T>): (x: T)
    requires |s| == 1
    ensures s == {x}
  {
    assert exists x :: x in s by {
      assert s != {};
    }
    assert forall x, y | x in s && y in s :: x == y by {
      forall x, y | x in s && y in s ensures x == y {
        OnlyMember(s, x, y);
      }
    }
    var x :| x in s;
    x
  }

  function ValidateReplayGeneration(request: Request, state: RunState, id: Identity): Option<ReplayError> {
    if request.Explicit() then None
    else if UNCLAIMED <= id.generation then Some(GenerationDiffers)
    else if request.verdict.NotNeeded? && request.issue !in state.active && request.claim.None? then Some(GenerationDiffers)
    else if request.claim != Some(id.generation) then Some(GenerationDiffers)
    else if request.issue in state.active && state.active[request.issue].claim != id.generation then Some(GenerationDiffers)
    else None
  }

  function FindReplay(codec: Codec, request: Request, repo: string, state: RunState): Result<Option<Answer>, ReplayError> {
    var matches := ReceiptMatches(request, repo, state);
    if matches == {} then Ok(None)
    else if |matches| != 1 then Err(AmbiguousHistory)
    else
      var id := state.receipts[Only(matches)].id;
      if id.repo != repo || id.issue != request.issue then Err(WrongIssue)
      else if id.fingerprint != request.fingerprint then Err(FingerprintDiffers)
      else
        var refused := ValidateReplayGeneration(request, state, id);
        if refused.Some? then Err(refused.value) else ResultFromRecord(codec, id)
  }

  // ---- What an answer is ----

  // The receipt has the id of the request or, for a request without an id, its Issue and
  // its claim, if it names one.
  predicate Concerns(request: Request, repo: string, key: JournalKey) {
    if request.Explicit() then key.completion == request.completion.value
    else key.repo == repo && key.issue == request.issue && request.claim in {None, Some(key.generation)}
  }

  predicate NothingSaved(state: RunState, request: Request, repo: string) {
    forall k | k in state.receipts :: !Concerns(request, repo, k)
  }

  // No other receipt concerns the request.
  predicate OnlyConcern(state: RunState, request: Request, repo: string, key: JournalKey) {
    key in state.receipts && Concerns(request, repo, key) && forall k | k in state.receipts && Concerns(request, repo, k) :: k == key
  }

  // The request repeats what the receipt was handed off for. Without the id it must come from
  // the claim of the receipt, and no other claim may hold the Issue now.
  predicate Answerable(state: RunState, request: Request, repo: string, key: JournalKey) {
    && OnlyConcern(state, request, repo, key)
    && key.repo == repo && key.issue == request.issue && state.receipts[key].id.fingerprint == request.fingerprint
    && (request.Explicit()
        || (request.claim == Some(key.generation) && !(UNCLAIMED <= key.generation)
            && (request.issue in state.active ==> state.active[request.issue].claim == key.generation)))
  }

  // The answer repeats the receipt and the outcome that was posted.
  ghost predicate Repeated(codec: Codec, state: RunState, key: JournalKey, answer: Answer) {
    && key in state.receipts
    && answer.issue == key.issue && answer.generation == key.generation && answer.completion == key.completion
    && answer.verdict == state.receipts[key].id.verdict
    && codec.parse(state.receipts[key].id.payload.body) == Some(answer.outcome)
  }

  // The answer is one to this request, whatever ledger it was found in.
  predicate Answers(answer: Answer, request: Request) {
    && answer.issue == request.issue && answer.outcome.issue == request.issue
    && answer.verdict == request.verdict && answer.outcome.verdict == request.verdict
    && answer.outcome.pr == request.Asks().pr && answer.outcome.notes == request.Asks().notes
    && answer.outcome.completion == Some(answer.completion) && answer.outcome.claim in {None, Some(answer.generation)}
    && (request.Explicit() ==> request.completion.value == answer.completion)
  }

  /** The saved answer is given exactly to a request that repeats the only receipt it
      concerns; a request that concerns none gets nothing, and any other is refused. */
  lemma ReplayAnswersIff(codec: Codec, state: RunState, request: Request, repo: string)
    requires LedgerInv(codec, state)
    ensures FindReplay(codec, request, repo, state) == Ok(None) <==> NothingSaved(state, request, repo)
    ensures forall answer :: FindReplay(codec, request, repo, state) == Ok(Some(answer)) <==>
      exists k :: Answerable(state, request, repo, k) && Repeated(codec, state, k, answer)
    ensures FindReplay(codec, request, repo, state).Err? <==>
      !NothingSaved(state, request, repo) && forall k :: !Answerable(state, request, repo, k)
  {
    hide LedgerInv;
    var matches := ReceiptMatches(request, repo, state);
    forall k | k in state.receipts ensures k in matches <==> Concerns(request, repo, k) {
      ReceiptIdentity(codec, state, k);
    }
    if |matches| == 1 {
      var key := Only(matches);
      assert key in matches;
      ReceiptIdentity(codec, state, key);
      SoleReceipt(codec, state, request, repo, key);
      forall k ensures Answerable(state, request, repo, k) ==> k == key {
      }
    } else if matches != {} {
      forall k ensures !Answerable(state, request, repo, k) {
        assert OnlyConcern(state, request, repo, k) ==> matches == {k};
      }
    }
  }

  /** Why a request that concerns one receipt is refused: another repository or Issue, another
      intent, or a generation that the caller does not stand for. */
  lemma SoleReceipt(codec: Codec, state: RunState, request: Request, repo: string, key: JournalKey)
    requires LedgerInv(codec, state) && OnlyConcern(state, request, repo, key)
    ensures var found := FindReplay(codec, request, repo, state);
      && (found == Err(WrongIssue) <==> key.repo != repo || key.issue != request.issue)
      && (found == Err(FingerprintDiffers) <==>
            key.repo == repo && key.issue == request.issue && state.receipts[key].id.fingerprint != request.fingerprint)
      && (found == Err(GenerationDiffers) <==>
            && key.repo == repo && key.issue == request.issue && state.receipts[key].id.fingerprint == request.fingerprint
            && !Answerable(state, request, repo, key))
      && (found.Ok? ==> found.value.Some? && Repeated(codec, state, key, found.value.value))
  {
    hide LedgerInv;
    ReceiptIdentity(codec, state, key);
    var matches := ReceiptMatches(request, repo, state);
    forall k | k in state.receipts ensures k in matches <==> k == key {
      ReceiptIdentity(codec, state, k);
    }
    assert matches == {key};
  }

  /** An answer is about the Issue, the verdict and all else that the request asks for. */
  lemma AnsweredAsAsked(codec: Codec, state: RunState, request: Request, repo: string, key: JournalKey, answer: Answer)
    requires LedgerInv(codec, state) && request.Digested(codec)
    requires Answerable(state, request, repo, key) && Repeated(codec, state, key, answer)
    ensures Answers(answer, request)
  {
    hide LedgerInv;
    ReceiptIdentity(codec, state, key);
  }

  // No two receipts carry the same completion id.
  ghost predicate AloneWithId(state: RunState, key: JournalKey) {
    forall k | k in state.receipts && k.completion == key.completion :: k == key
  }

  // The request repeats a completion by its id.
  predicate Repeats(request: Request, repo: string, id: Identity) {
    && request.Explicit() && request.completion.value == id.completion
    && repo == id.repo && request.issue == id.issue && request.fingerprint == id.fingerprint
  }

  lemma ReceiptIdentity(codec: Codec, state: RunState, k: JournalKey)
    requires LedgerInv(codec, state) && k in state.receipts
    ensures k in state.journal && state.receipts[k] == state.journal[k]
    ensures state.receipts[k].id.Key() == k && WellFormed(codec, state.receipts[k].id)
  {
    assert RecordOk(state, k) && WellFormed(codec, state.journal[k].id);
  }

  /** Replay by completion id succeeds exactly when no other receipt carries the id. */
  lemma ReplayByIdIff(codec: Codec, state: RunState, key: JournalKey, request: Request, repo: string)
    requires LedgerInv(codec, state) && key in state.receipts
    requires Repeats(request, repo, state.receipts[key].id)
    ensures AloneWithId(state, key) ==>
      FindReplay(codec, request, repo, state) == ResultFromRecord(codec, state.receipts[key].id)
      && FindReplay(codec, request, repo, state).Ok?
    ensures !AloneWithId(state, key) ==> FindReplay(codec, request, repo, state) == Err(AmbiguousHistory)
  {
    hide LedgerInv;
    var matches := ReceiptMatches(request, repo, state);
    ReceiptIdentity(codec, state, key);
    forall k | k in state.receipts ensures k in matches <==> k.completion == key.completion {
      ReceiptIdentity(codec, state, k);
    }
    if AloneWithId(state, key) {
      assert matches == {key};
    } else {
      var other :| other in state.receipts && other.completion == key.completion && other != key;
      if |matches| == 1 {
        OnlyMember(matches, key, other);
      }
    }
  }

  /** Replay is stable: whatever happens between two points of a run, a completion handed
      off at the first point answers the same at the second, exactly when its id is still
      unambiguous there. */
  lemma ReplayIsStable(codec: Codec, start: Snapshot, path: seq<Entry>, i: nat, j: nat, key: JournalKey, request: Request, repo: string)
    requires Inv(codec, start) && Run(codec, start, path) && i <= j <= |path|
    requires key in At(start, path, i).state.receipts
    requires Repeats(request, repo, At(start, path, i).state.receipts[key].id)
    requires AloneWithId(At(start, path, i).state, key)
    ensures FindReplay(codec, request, repo, At(start, path, j).state).Ok? <==> AloneWithId(At(start, path, j).state, key)
    ensures AloneWithId(At(start, path, j).state, key) ==>
      FindReplay(codec, request, repo, At(start, path, j).state) == FindReplay(codec, request, repo, At(start, path, i).state)
  {
    hide Inv, Step, LedgerInv, FindReplay, AloneWithId, Run;
    var s, t := At(start, path, i), At(start, path, j);
    RunKeepsInv(codec, start, path, i);
    RunKeepsInv(codec, start, path, j);
    InvHasLedger(codec, s);
    InvHasLedger(codec, t);
    ReceiptIdentity(codec, s.state, key);
    RunProgresses(codec, start, path, i, j, key);
    ReceiptIdentity(codec, t.state, key);
    ReplayByIdIff(codec, s.state, key, request, repo);
    ReplayByIdIff(codec, t.state, key, request, repo);
  }

  // ---- Replay by claim ----

  /** Without an id a replay needs the caller's own claim, and answers exactly as long as
      nobody else holds the Issue; history that was never claimed is not replayed. */
  lemma ReplayByClaimIff(codec: Codec, state: RunState, key: JournalKey, request: Request)
    requires LedgerInv(codec, state) && key in state.receipts
    requires !request.Explicit() && request.issue == key.issue
    requires request.claim == Some(key.generation) && request.fingerprint == state.receipts[key].id.fingerprint
    ensures
      FindReplay(codec, request, key.repo, state).Ok? <==>
        && !(UNCLAIMED <= key.generation)
        && (request.issue in state.active ==> state.active[request.issue].claim == key.generation)
    ensures
      FindReplay(codec, request, key.repo, state).Ok? ==>
        FindReplay(codec, request, key.repo, state) == ResultFromRecord(codec, state.receipts[key].id)
  {
    hide LedgerInv;
    var matches := ReceiptMatches(request, key.repo, state);
    ReceiptIdentity(codec, state, key);
    forall k | k in state.receipts ensures k in matches <==> k == key {
      ReceiptIdentity(codec, state, k);
      if k in matches {
        OneRecordPerGeneration(codec, state, k, key);
      }
    }
    assert matches == {key};
  }

  lemma OneRecordPerGeneration(codec: Codec, state: RunState, j: JournalKey, k: JournalKey)
    requires LedgerInv(codec, state) && j in state.journal && k in state.journal
    requires j.issue == k.issue && j.generation == k.generation
    ensures j == k
  {
    hide RecordOk, WellFormed;
    assert Apart(j, k);
  }

  /** With neither an id nor a claim there is never an answer, only nothing or a refusal. */
  lemma AnonymousReplayNeverAnswers(codec: Codec, state: RunState, request: Request, repo: string)
    requires !request.Explicit() && request.claim.None?
    ensures !(FindReplay(codec, request, repo, state).Ok? && FindReplay(codec, request, repo, state).value.Some?)
    ensures FindReplay(codec, request, repo, state) == Ok(None) <==> ReceiptMatches(request, repo, state) == {}
  {
  }

  // ---- When ids stay unambiguous ----

  ghost predicate SameCompletion(j: JournalKey, k: JournalKey) {
    j.completion == k.completion
  }

  ghost predicate DistinctIds(state: RunState) {
    forall j, k {:trigger SameCompletion(j, k)} | j in state.journal && k in state.journal && SameCompletion(j, k) :: j == k
  }

  predicate UnusedId(state: RunState, completion: string) {
    forall k | k in state.journal :: k.completion != completion
  }

  /** A reservation keeps completion ids distinct exactly when its id is unused. */
  lemma ReserveKeepsDistinctIff(codec: Codec, s: Snapshot, candidate: Record, t: Snapshot)
    requires Step(codec, s, ReservationSaved(candidate), t) && DistinctIds(s.state)
    ensures DistinctIds(t.state) <==> UnusedId(s.state, candidate.id.completion)
  {
    hide Admissible, WellFormed;
    if !UnusedId(s.state, candidate.id.completion) {
      var k :| k in s.state.journal && k.completion == candidate.id.completion;
      assert SameCompletion(k, candidate.id.Key());
    }
  }

  lemma SavedKeepsKeys(s: Snapshot, t: Snapshot, record: Record, handoff: bool)
    requires Saved(s, t, record, handoff) && record.id.Key() in s.state.journal
    ensures t.state.journal.Keys == s.state.journal.Keys
  {
  }

  lemma StepKeepsKeys(codec: Codec, s: Snapshot, e: Event, t: Snapshot)
    requires LedgerInv(codec, s.state) && Step(codec, s, e, t) && !e.ReservationSaved?
    ensures t.state.journal.Keys == s.state.journal.Keys
  {
    hide LedgerInv, Saved, WellFormed, ForeignStep, ActiveStep, Unposted;
    if e.OutcomeSaved? || e.LabelsSaved? || e.HandoffSaved? {
      JournalWellFormed(codec, s.state, e.key);
    }
    match e
    case OutcomeSaved(k, posting) =>
      SavedKeepsKeys(s, t, s.state.journal[k].(stage := OutcomePosted, posting := Some(posting)), false);
    case LabelsSaved(k, observed) =>
      SavedKeepsKeys(s, t, s.state.journal[k].(stage := LabelConfirmed, observed := Some(observed)), false);
    case HandoffSaved(k) =>
      SavedKeepsKeys(s, t, s.state.journal[k].(stage := HandedOff), true);
    case _ =>
  }

  // Every reservation of the run brings an id that no record has.
  ghost predicate FreshIds(start: Snapshot, path: seq<Entry>) {
    forall i | 0 <= i < |path| && path[i].event.ReservationSaved? ::
      UnusedId(At(start, path, i).state, path[i].event.candidate.id.completion)
  }

  lemma {:induction false} FreshRunKeepsDistinct(codec: Codec, start: Snapshot, path: seq<Entry>, i: nat)
    requires Inv(codec, start) && Run(codec, start, path) && i <= |path|
    requires DistinctIds(start.state) && FreshIds(start, path)
    ensures DistinctIds(At(start, path, i).state)
  {
    hide Inv, LedgerInv, Step, UnusedId;
    if i > 0 {
      FreshRunKeepsDistinct(codec, start, path, i - 1);
      RunKeepsInv(codec, start, path, i - 1);
      InvHasLedger(codec, At(start, path, i - 1));
      var s, e, t := At(start, path, i - 1), path[i - 1].event, path[i - 1].after;
      if e.ReservationSaved? {
        ReserveKeepsDistinctIff(codec, s, e.candidate, t);
      } else {
        StepKeepsKeys(codec, s, e, t);
      }
    }
  }

  /** With distinct completion ids, a handed-off completion answers equally for ever. */
  lemma FreshIdsReplayForever(codec: Codec, start: Snapshot, path: seq<Entry>, i: nat, j: nat, key: JournalKey, request: Request, repo: string)
    requires Inv(codec, start) && Run(codec, start, path) && i <= j <= |path|
    requires DistinctIds(start.state) && FreshIds(start, path)
    requires key in At(start, path, i).state.receipts
    requires Repeats(request, repo, At(start, path, i).state.receipts[key].id)
    ensures FindReplay(codec, request, repo, At(start, path, j).state)
      == ResultFromRecord(codec, At(start, path, i).state.receipts[key].id)
  {
    hide Inv, LedgerInv, Step, FindReplay, Run, FreshIds, DistinctIds;
    RunKeepsInv(codec, start, path, i);
    InvHasLedger(codec, At(start, path, i));
    ReceiptIdentity(codec, At(start, path, i).state, key);
    RunProgresses(codec, start, path, i, j, key);
    DistinctMeansAlone(codec, start, path, i, key);
    DistinctMeansAlone(codec, start, path, j, key);
    ReplayIsStable(codec, start, path, i, j, key, request, repo);
    ReplayByIdIff(codec, At(start, path, i).state, key, request, repo);
  }

  lemma DistinctMeansAlone(codec: Codec, start: Snapshot, path: seq<Entry>, i: nat, key: JournalKey)
    requires Inv(codec, start) && Run(codec, start, path) && i <= |path|
    requires DistinctIds(start.state) && FreshIds(start, path)
    ensures key in At(start, path, i).state.journal ==> AloneWithId(At(start, path, i).state, key)
  {
    hide Inv, Step, LedgerInv, Run, FreshIds;
    var state := At(start, path, i).state;
    FreshRunKeepsDistinct(codec, start, path, i);
    RunKeepsInv(codec, start, path, i);
    InvHasLedger(codec, At(start, path, i));
    if key in state.journal {
      forall k | k in state.receipts && k.completion == key.completion ensures k == key {
        ReceiptIdentity(codec, state, k);
        assert SameCompletion(k, key);
      }
    }
  }
}
