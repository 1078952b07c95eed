/** The two entries into the protocol: a completion by the claim that holds the Issue, and
    a not-needed completion of an Issue nobody claimed. */
module CompletionService {
  import opened Wrappers
  import opened CompletionRecords
  import opened StatusLabels
  import opened CompletionRuns
  import opened CompletionWorld
  import opened OutcomePosting
  import opened CompletionPublication
  import opened CompletionReplay
  import CompletionJournal

  // What the run learns from outside the ledger: the repository, the checks of the claim
  // context and the preflight, the current HEAD and its CI evidence, a new
  // id and a new owner token.
  datatype Environment = Environment(
    repo: string, claimValid: bool, preflight: bool, head: Option<string>, ciHead: Option<string>,
    sameValidation: bool, decision: Decision, uuid: string, token: string)

  datatype ServiceError =
    | ReplayRefused(replay: ReplayError) | ClaimNotFound | WrongRepository | ClaimInvalid | ClaimDiffers
    | PreflightRejected | ConcurrentCompletion | RequestDiffers | HeadDiffers | EvidenceDiffers | PolicyHeld
    | ReservationRefused(reservation: CompletionJournal.JournalError)
    | PublicationRefused(publication: PublicationError) | StateNotSaved
    | NotUnclaimed | AlreadyClaimed | IdInvalid | IdUsed | IdRequired | IssueRejected | StateInvalid

  // ---- The record a run works on ----

  predicate HeadValidated(request: Request, head: Option<string>, env: Environment) {
    request.verdict.Done? ==> head.Some? && env.ciHead == head
  }

  function ChosenId(request: Request, env: Environment): string {
    if request.Explicit() then request.completion.value else env.uuid
  }

  // The outcome that announces what was asked for.
  function Announced(request: Request, claim: Option<string>, completion: string, head: Option<string>): Outcome {
    var asks := request.Asks();
    Outcome(asks.issue, asks.verdict, claim, Some(completion), head, asks.pr, asks.notes)
  }

  function NewRecord(codec: Codec, request: Request, active: Active, env: Environment): (r: Result<Record, ServiceError>)
    requires codec.Lawful() && request.Digested(codec) && ChosenId(request, env) != ""
    ensures r.Ok? ==> (
      && r.value.stage.Reserved? && WellFormed(codec, r.value.id)
      && r.value.id.Key() == JournalKey(env.repo, request.issue, active.claim, ChosenId(request, env))
      && r.value.id.fingerprint == request.fingerprint && r.value.id.owner == active.owner
      && r.value.id.verdict == request.verdict && r.value.id.payload.head == env.head && r.value.decision == env.decision
      && codec.parse(r.value.id.payload.body) == Some(Outcome(
           request.issue, request.verdict, Some(active.claim), Some(ChosenId(request, env)), env.head,
           if request.verdict.Done? then request.pr else None, if request.verdict.NotNeeded? then "" else request.notes)))
    ensures r.Ok? <==> HeadValidated(request, env.head, env)
  {
    var completion := ChosenId(request, env);
    var outcome := Announced(request, Some(active.claim), completion, env.head);
    if !HeadValidated(request, outcome.head, env) then Err(HeadDiffers)
    else
      Ok(Record(
        Identity(
          env.repo, request.issue, active.claim, completion, active.owner, request.fingerprint,
          request.verdict, TargetLabel(request.verdict), Payload(codec.render(outcome), outcome.head)),
        Reserved, None, None, env.decision, map[]))
  }

  function PendingKeys(state: RunState, repo: string, issue: nat, generation: string): set<JournalKey> {
    set k | k in state.journal && state.journal[k].id.repo == repo && state.journal[k].id.issue == issue
            && state.journal[k].id.generation == generation
  }

  function Pending(request: Request, state: RunState, repo: string, generation: string): Result<Option<Record>, ServiceError> {
    var keys := PendingKeys(state, repo, request.issue, generation);
    if keys == {} then Ok(None)
    else if |keys| != 1 then Err(ConcurrentCompletion)
    else
      var record := state.journal[Only(keys)];
      if request.completion.Some? && request.completion.value != record.id.completion then Err(ConcurrentCompletion)
      else if record.id.fingerprint != request.fingerprint then Err(RequestDiffers)
      else Ok(Some(record))
  }

  /** The generation has at most one record, so the lookup is never ambiguous. */
  lemma PendingIs(codec: Codec, state: RunState, key: JournalKey)
    requires LedgerInv(codec, state) && key in state.journal
    ensures PendingKeys(state, key.repo, key.issue, key.generation) == {key}
  {
    hide LedgerInv;
    var keys := PendingKeys(state, key.repo, key.issue, key.generation);
    JournalIdentity(codec, state, key);
    forall k | k in state.journal ensures k in keys <==> k == key {
      JournalIdentity(codec, state, k);
      if k in keys {
        OneRecordPerGeneration(codec, state, k, key);
      }
    }
  }

  lemma JournalIdentity(codec: Codec, state: RunState, k: JournalKey)
    requires LedgerInv(codec, state) && k in state.journal
    ensures state.journal[k].id.Key() == k && WellFormed(codec, state.journal[k].id) && RecordOk(state, k)
  {
    hide RecordOk, WellFormed, Apart;
  }

  lemma PendingRecord(codec: Codec, state: RunState, request: Request, repo: string, generation: string)
    requires LedgerInv(codec, state)
    ensures var found := Pending(request, state, repo, generation);
      found.Ok? && found.value.Some? ==>
        var id := found.value.value.id;
        && id.Key() in state.journal && state.journal[id.Key()] == found.value.value
        && id.repo == repo && id.issue == request.issue && id.generation == generation
        && id.fingerprint == request.fingerprint
        && (request.completion.Some? ==> id.completion == request.completion.value)
  {
    hide LedgerInv;
    var keys := PendingKeys(state, repo, request.issue, generation);
    if |keys| == 1 {
      JournalIdentity(codec, state, Only(keys));
    }
  }

  /** A run never picks up a finished record: once a completion is handed off, the replay
      lookup that precedes the selection answers or refuses. */
  lemma PendingIsOpen(codec: Codec, state: RunState, request: Request, repo: string, generation: string)
    requires LedgerInv(codec, state)
    requires FindReplay(codec, request, repo, state) == Ok(None) && request.claim == Some(generation)
    ensures var found := Pending(request, state, repo, generation);
      found.Ok? && found.value.Some? ==> !found.value.value.stage.HandedOff?
  {
    hide LedgerInv;
    var found := Pending(request, state, repo, generation);
    if found.Ok? && found.value.Some? {
      PendingRecord(codec, state, request, repo, generation);
      var key := found.value.value.id.Key();
      JournalIdentity(codec, state, key);
      assert key in state.receipts ==> key in ReceiptMatches(request, repo, state);
    }
  }

  lemma NothingPending(codec: Codec, state: RunState, request: Request, id: Identity)
    requires LedgerInv(codec, state) && Pending(request, state, id.repo, id.generation) == Ok(None)
    requires id.issue == request.issue
    ensures !CompletionJournal.Resumable(state, id)
  {
    hide LedgerInv;
    if CompletionJournal.Resumable(state, id) {
      CompletionJournal.ResumableIsJournaled(codec, state, id);
      PendingIs(codec, state, id.Key());
    }
  }

  // Nothing but ledger saves in front of a publication: a reservation or a decision.
  ghost predicate Preparing(trace: seq<Entry>) {
    forall i | 0 <= i < |trace| :: trace[i].event.ReservationSaved? || trace[i].event.DecisionSaved?
  }

  lemma SinglePreparing(trace: seq<Entry>, event: Event)
    requires trace == [] || (|trace| == 1 && trace[0].event == event && (event.ReservationSaved? || event.DecisionSaved?))
    ensures Preparing(trace)
  {
  }

  lemma PreparingConcat(first: seq<Entry>, last: seq<Entry>)
    requires Preparing(first) && Preparing(last)
    ensures Preparing(first + last)
  {
  }

  // The first save or refusal a policy decision leads to. A decision made once stands;
  // only an unknown one is replaced by the decision of the retry.
  method StoreRetriedPolicy(world: World, record: Record, decision: Decision)
    returns (stored: Result<Record, ServiceError>, ghost trace: seq<Entry>)
    requires world.Valid() && record.id.Key() in world.disk.journal && world.disk.journal[record.id.Key()] == record
    requires !record.stage.HandedOff?
    modifies world`disk, world`path
    ensures world.Valid() && world.path == old(world.path) + trace && Preparing(trace)
    ensures SameButJournal(old(world.disk), world.disk)
    ensures stored.Ok? ==> (
      && stored.value == record.(decision := if record.decision.Unknown? then decision else record.decision)
      && record.id.Key() in world.disk.journal && world.disk.journal[record.id.Key()] == stored.value)
    ensures world.calm ==> stored.Ok?
  {
    hide Inv, Run, Preparing;
    trace := [];
    SinglePreparing([], ActiveChanged);
    if !record.decision.Unknown? {
      return Ok(record), trace;
    }
    var key := record.id.Key();
    var updated := record.(decision := decision);
    ghost var before := world.path;
    var ok := world.Save(world.disk.(journal := world.disk.journal[key := updated]), DecisionSaved(key, decision));
    trace := world.path[|before|..];
    SinglePreparing(trace, DecisionSaved(key, decision));
    stored := if ok then Ok(updated) else Err(StateNotSaved);
  }

  ghost predicate SameButJournal(s: RunState, t: RunState) {
    s.active == t.active && s.reservations == t.reservations && s.receipts == t.receipts
  }

  // Only an allowed record may be published. An exceeded one is saved with its escalation.
  method RejectPolicy(world: World, record: Record) returns (refused: Option<ServiceError>, ghost trace: seq<Entry>)
    requires world.Valid() && record.id.Key() in world.disk.journal && world.disk.journal[record.id.Key()] == record
    requires !record.stage.HandedOff?
    modifies world`disk, world`path
    ensures world.Valid() && world.path == old(world.path) + trace && Preparing(trace)
    ensures refused.None? <==> record.decision.Allowed?
    ensures refused.None? ==> world.disk == old(world.disk)
    // An exceeded decision is saved with its escalation.
    ensures record.decision.Exceeded? && world.calm ==> |trace| == 1 && trace[0].event == DecisionSaved(record.id.Key(), Exceeded)
  {
    hide Inv, Run, Preparing;
    trace := [];
    SinglePreparing([], ActiveChanged);
    if record.decision.Allowed? {
      return None, trace;
    }
    if record.decision.Exceeded? {
      var key := record.id.Key();
      ghost var before := world.path;
      var ok := world.Save(world.disk.(journal := world.disk.journal[key := record]), DecisionSaved(key, Exceeded));
      trace := world.path[|before|..];
      SinglePreparing(trace, DecisionSaved(key, Exceeded));
      if !ok {
        return Some(StateNotSaved), trace;
      }
    }
    refused := Some(PolicyHeld);
  }

  // ---- A claimed completion ----

  // The record serves this request under this claim.
  ghost predicate Serves(record: Record, request: Request, repo: string, generation: string) {
    && record.id.repo == repo && record.id.issue == request.issue && record.id.generation == generation
    && record.id.fingerprint == request.fingerprint
    && (request.Explicit() ==> record.id.completion == request.completion.value)
  }

  ghost predicate Stored(state: RunState, record: Record) {
    record.id.Key() in state.journal && state.journal[record.id.Key()] == record
  }

  // A reserved completion that this retry may carry to its end.
  ghost predicate CanFinish(state: RunState, request: Request, env: Environment, key: JournalKey) {
    && key in state.journal && !state.journal[key].stage.HandedOff?
    && key.repo == env.repo && key.issue == request.issue
    && request.claim == Some(key.generation) && request.completion in {None, Some(key.completion)}
    && key.issue in state.active
    && state.active[key.issue].claim == key.generation && state.active[key.issue].repo == env.repo
    && state.active[key.issue].owner == state.journal[key].id.owner
    && state.journal[key].id.fingerprint == request.fingerprint
    && state.journal[key].id.payload.head == env.head && HeadValidated(request, env.head, env)
    && env.claimValid && env.preflight && (request.verdict.Done? ==> env.sameValidation)
    && (state.journal[key].decision.Allowed? || (state.journal[key].decision.Unknown? && env.decision.Allowed?))
  }

  lemma FinishableIsPending(codec: Codec, state: RunState, request: Request, env: Environment, key: JournalKey)
    requires LedgerInv(codec, state) && CanFinish(state, request, env, key)
    ensures Pending(request, state, env.repo, key.generation) == Ok(Some(state.journal[key]))
    ensures state.journal[key].id.Key() == key
  {
    hide LedgerInv;
    PendingIs(codec, state, key);
    JournalIdentity(codec, state, key);
  }

  // Nothing stands in the way of a first attempt: the claim holds the Issue, HEAD and policy
  // are in order, and every earlier completion of the Issue is finished.
  ghost predicate CanStart(state: RunState, request: Request, active: Active, env: Environment) {
    && request.issue in state.active && state.active[request.issue] == active
    && request.claim == Some(active.claim) && active.repo == env.repo
    && env.claimValid && env.preflight && HeadValidated(request, env.head, env) && env.decision.Allowed?
    && forall k | k in state.journal && k.issue == request.issue ::
         k.repo == env.repo && k.generation != active.claim && Durable(state, k)
  }

  lemma StartableIsReservable(codec: Codec, state: RunState, request: Request, active: Active, env: Environment, candidate: Record)
    requires LedgerInv(codec, state) && CanStart(state, request, active, env)
    requires candidate.stage.Reserved? && WellFormed(codec, candidate.id)
    requires candidate.id.repo == env.repo && candidate.id.issue == request.issue && candidate.id.generation == active.claim
    requires candidate.id.owner == active.owner
    ensures Reservable(codec, state, candidate) && HeadValidated(request, env.head, env)
    ensures GenerationMatches(Reserve(state, candidate), Some(active), candidate.id)
  {
    hide LedgerInv, WellFormed, HeadValidated;
  }

  lemma StartableHasNothingPending(codec: Codec, state: RunState, request: Request, active: Active, env: Environment)
    requires LedgerInv(codec, state)
    ensures CanStart(state, request, active, env) ==>
      Pending(request, state, env.repo, active.claim) == Ok(None) && HeadValidated(request, env.head, env) && env.decision.Allowed?
  {
    hide LedgerInv, HeadValidated;
    forall k | k in state.journal ensures state.journal[k].id.Key() == k {
      JournalIdentity(codec, state, k);
    }
    if CanStart(state, request, active, env) {
      assert PendingKeys(state, env.repo, request.issue, active.claim) == {};
    }
  }

  // A first attempt: the new record is reserved under its generation.
  method StartRecord(world: World, request: Request, active: Active, env: Environment)
    returns (started: Result<Record, ServiceError>, ghost trace: seq<Entry>)
    requires world.Valid() && request.Digested(world.codec) && ChosenId(request, env) != ""
    requires request.claim == Some(active.claim)
    requires Pending(request, world.disk, env.repo, active.claim) == Ok(None)
    modifies world`disk, world`path
    ensures world.Valid() && world.path == old(world.path) + trace && Preparing(trace)
    ensures world.disk.active == old(world.disk.active)
    ensures started.Ok? ==> (
      && Stored(world.disk, started.value) && started.value.stage.Reserved?
      && Serves(started.value, request, env.repo, active.claim)
      && started.value.id.completion == ChosenId(request, env) && started.value.id.Key() !in old(world.disk.journal)
      && started.value.id.payload.head == env.head && HeadValidated(request, env.head, env)
      && started.value.decision == env.decision)
    ensures old(CanStart(world.disk, request, active, env)) && world.calm ==>
      started.Ok? && GenerationMatches(world.disk, Some(active), started.value.id)
  {
    hide Inv, Run, Preparing, LedgerInv, CompletionJournal.Resumable, WellFormed, HeadValidated, Pending, CanStart, GenerationMatches,
      Admissible;
    trace := [];
    SinglePreparing([], ActiveChanged);
    ghost var start := world.disk;
    assert LedgerInv(world.codec, start) by {
      WorldInv(world);
      InvHasLedger(world.codec, world.Snap());
    }
    StartableHasNothingPending(world.codec, start, request, active, env);
    var created := NewRecord(world.codec, request, active, env);
    if created.Err? {
      return created, trace;
    }
    NothingPending(world.codec, start, request, created.value.id);
    if CanStart(start, request, active, env) {
      StartableIsReservable(world.codec, start, request, active, env, created.value);
    }
    ghost var before := world.path;
    var reserved := CompletionJournal.ReserveCompletion(world, created.value);
    trace := world.path[|before|..];
    SinglePreparing(trace, ReservationSaved(created.value));
    started := if reserved.Ok? then Ok(reserved.value) else Err(ReservationRefused(reserved.error));
  }

  // The decision a completion is published under: the first one that is known.
  function DecisionFor(state: RunState, key: JournalKey, env: Environment): Decision {
    if key in state.journal && !state.journal[key].decision.Unknown? then state.journal[key].decision else env.decision
  }

  method SelectRecord(world: World, request: Request, active: Active, env: Environment)
    returns (selected: Result<Record, ServiceError>, ghost trace: seq<Entry>)
    requires world.Valid() && request.Digested(world.codec) && ChosenId(request, env) != ""
    requires request.claim == Some(active.claim)
    requires FindReplay(world.codec, request, env.repo, world.disk) == Ok(None)
    modifies world`disk, world`path
    ensures world.Valid() && world.path == old(world.path) + trace && Preparing(trace)
    ensures world.disk.active == old(world.disk.active)
    ensures selected.Ok? ==> (
      && Stored(world.disk, selected.value) && !selected.value.stage.HandedOff?
      && Serves(selected.value, request, env.repo, active.claim)
      && selected.value.id.payload.head == env.head && HeadValidated(request, env.head, env)
      && (selected.value.id.Key() in old(world.disk.journal) && request.verdict.Done? ==> env.sameValidation)
      && selected.value.decision == DecisionFor(old(world.disk), selected.value.id.Key(), env))
    ensures old(CanStart(world.disk, request, active, env)) && world.calm ==>
      && selected.Ok? && selected.value.id.completion == ChosenId(request, env) && selected.value.stage.Reserved?
      && GenerationMatches(world.disk, Some(active), selected.value.id)
    ensures forall key | old(CanFinish(world.disk, request, env, key)) && world.calm && key.generation == active.claim ::
      && selected.Ok? && selected.value.decision.Allowed?
      && selected.value == old(world.disk.journal[key]).(decision := Allowed)
      && selected.value.id.Key() == key && world.disk.reservations == old(world.disk.reservations)
  {
    hide Inv, Run, Preparing, LedgerInv, FindReplay, CompletionJournal.Resumable, WellFormed, Reservable, HeadValidated, Pending,
      CanStart, GenerationMatches;
    trace := [];
    SinglePreparing([], ActiveChanged);
    ghost var start := world.disk;
    assert LedgerInv(world.codec, start) by {
      WorldInv(world);
      InvHasLedger(world.codec, world.Snap());
    }
    PendingRecord(world.codec, start, request, env.repo, active.claim);
    PendingIsOpen(world.codec, start, request, env.repo, active.claim);
    forall key | CanFinish(start, request, env, key) && key.generation == active.claim
      ensures Pending(request, start, env.repo, active.claim) == Ok(Some(start.journal[key]))
      ensures start.journal[key].id.Key() == key
    {
      FinishableIsPending(world.codec, start, request, env, key);
    }
    StartableHasNothingPending(world.codec, start, request, active, env);
    var pending := Pending(request, world.disk, env.repo, active.claim);
    if pending.Err? {
      return Err(pending.error), trace;
    }
    var record;
    if pending.value.None? {
      var started;
      started, trace := StartRecord(world, request, active, env);
      if started.Err? {
        return started, trace;
      }
      record := started.value;
    } else {
      record := pending.value.value;
      if record.id.payload.head != env.head {
        return Err(HeadDiffers), trace;
      }
    }
    if !HeadValidated(request, record.id.payload.head, env) {
      return Err(HeadDiffers), trace;
    }
    if pending.value.Some? && request.verdict.Done? && !env.sameValidation {
      return Err(EvidenceDiffers), trace;
    }
    ghost var first := trace;
    ghost var last;
    ghost var reserved := world.disk;
    selected, last := StoreRetriedPolicy(world, record, env.decision);
    GenerationFrame(reserved, world.disk, Some(active), record.id);
    PreparingConcat(first, last);
    trace := first + last;
  }

  // Every handoff is of a completion in the ledger for the Issue of the request, and was
  // preceded in the same call by an observation of labels that announce the verdict of the
  // request and no other, with nothing protected on the Issue.
  ghost predicate JustlyHandedOff(trace: seq<Entry>, journal: map<JournalKey, Record>, request: Request) {
    forall i | 0 <= i < |trace| && trace[i].event.HandoffSaved? ::
      var key := trace[i].event.key;
      && key in journal && key.issue == request.issue && journal[key].id.verdict == request.verdict
      && HandoffJustified(trace, i, key, journal[key].id.target)
      && ShowsVerdict(trace[i - 2].event.labels, request.verdict) && Undisturbed(trace[i - 2].event.labels, request.verdict)
  }

  lemma PublishedJustly(first: seq<Entry>, last: seq<Entry>, id: Identity, journal: map<JournalKey, Record>, request: Request)
    requires Preparing(first) && HandoffsJustified(last, id.Key(), id.target)
    requires id.Key() in journal && journal[id.Key()].id == id
    requires id.issue == request.issue && id.verdict == request.verdict && id.target == TargetLabel(id.verdict)
    ensures JustlyHandedOff(first + last, journal, request)
  {
    hide Settled, ShowsVerdict, Undisturbed, TargetLabel;
    var whole := first + last;
    forall i | 0 <= i < |whole| && whole[i].event.HandoffSaved?
      ensures whole[i].event.key == id.Key() && HandoffJustified(whole, i, id.Key(), id.target)
      ensures ShowsVerdict(whole[i - 2].event.labels, id.verdict) && Undisturbed(whole[i - 2].event.labels, id.verdict)
    {
      assert i >= |first| && HandoffJustified(last, i - |first|, id.Key(), id.target);
      SettledIff(whole[i - 2].event.labels, id.verdict);
    }
  }

  lemma NothingHandedOff(trace: seq<Entry>, journal: map<JournalKey, Record>, request: Request)
    requires Preparing(trace)
    ensures JustlyHandedOff(trace, journal, request)
  {
  }

  // A body is posted only after the labels of the Issue were seen with no foreign status.
  ghost predicate PostedAfterLook(trace: seq<Entry>, request: Request) {
    forall j | 0 <= j < |trace| && trace[j].event.OutcomePostedAs? ::
      exists i :: 0 <= i < j && LookedAt(trace[i].event, request)
  }

  predicate LookedAt(e: Event, request: Request) {
    e.LabelsObserved? && e.issue == request.issue && Undisturbed(e.labels, request.verdict)
  }

  lemma PostedJustly(first: seq<Entry>, last: seq<Entry>, id: Identity, request: Request)
    requires Preparing(first) && PostsAfterLook(last, id.issue, id.target)
    requires id.issue == request.issue && id.target == TargetLabel(request.verdict)
    ensures PostedAfterLook(first + last, request)
  {
    hide Undisturbed, HasProtected, TargetLabel;
    var whole := first + last;
    forall j | 0 <= j < |whole| && whole[j].event.OutcomePostedAs? ensures exists i :: 0 <= i < j && LookedAt(whole[i].event, request) {
      assert j >= |first|;
      var i :| 0 <= i < j - |first| && ShowsNothingProtected(last[i].event, id.issue, id.target);
      ProtectedIff(last[i].event.labels, request.verdict);
      assert LookedAt(whole[|first| + i].event, request);
    }
  }

  lemma NothingPostedYet(trace: seq<Entry>, request: Request)
    requires Preparing(trace)
    ensures PostedAfterLook(trace, request)
  {
  }

  // Every handoff is of the claim's own completion, on the HEAD and under the decision that
  // were checked.
  ghost predicate HandedOffAsChecked(trace: seq<Entry>, before: RunState, after: RunState, request: Request, env: Environment) {
    forall i | 0 <= i < |trace| && trace[i].event.HandoffSaved? ::
      var key := trace[i].event.key;
      && key in after.journal && key.repo == env.repo && request.claim == Some(key.generation)
      && after.journal[key].id.payload.head == env.head && DecisionFor(before, key, env).Allowed?
      && (request.verdict.Done? ==>
            env.head.Some? && env.ciHead == env.head && (key in before.journal ==> env.sameValidation))
  }

  lemma HandedOffOne(first: seq<Entry>, last: seq<Entry>, before: RunState, after: RunState, id: Identity, request: Request,
                     env: Environment)
    requires Preparing(first) && HandoffsJustified(last, id.Key(), id.target)
    requires id.Key() in after.journal && after.journal[id.Key()].id == id
    requires id.repo == env.repo && request.claim == Some(id.generation) && id.payload.head == env.head
    requires last != [] ==> DecisionFor(before, id.Key(), env).Allowed?
    requires HeadValidated(request, env.head, env)
    requires id.Key() in before.journal && request.verdict.Done? ==> env.sameValidation
    ensures HandedOffAsChecked(first + last, before, after, request, env)
  {
    hide Settled, DecisionFor;
    var whole := first + last;
    forall i | 0 <= i < |whole| && whole[i].event.HandoffSaved? ensures whole[i].event.key == id.Key() {
      assert i >= |first| && HandoffJustified(last, i - |first|, id.Key(), id.target);
    }
  }

  lemma NothingHandedOffUnchecked(trace: seq<Entry>, before: RunState, after: RunState, request: Request, env: Environment)
    requires Preparing(trace)
    ensures HandedOffAsChecked(trace, before, after, request, env)
  {
  }

  // The request was answered from this finished record.
  ghost predicate FinishedFor(codec: Codec, state: RunState, record: Record, request: Request, repo: string, answer: Answer) {
    && Stored(state, record) && Durable(state, record.id.Key()) && record.decision.Allowed?
    && request.claim.Some? && Serves(record, request, repo, request.claim.value)
    && ResultFromRecord(codec, record.id) == Ok(Some(answer))
  }

  // The Issue carries no foreign status, and no comment carries the id with another body.
  ghost predicate Unobstructed(codec: Codec, labels: set<string>, comments: seq<Comment>, record: Record) {
    && Undisturbed(labels, record.id.verdict)
    && (record.stage.Reserved? ==> !Blocker(codec, comments, record.id.completion, record.id.payload.body))
  }

  lemma UnobstructedFrame(codec: Codec, labels: set<string>, comments: seq<Comment>, record: Record)
    requires record.id.target == TargetLabel(record.id.verdict)
    ensures Unobstructed(codec, labels, comments, record) ==> !HasProtected(labels, record.id.target)
  {
    hide Blocker;
    ProtectedIff(labels, record.id.verdict);
  }

  predicate NoCommentWith(codec: Codec, comments: seq<Comment>, completion: string) {
    forall c | c in comments :: CompletionOf(codec, c) != Some(completion)
  }

  lemma NoCommentNoBlocker(codec: Codec, comments: seq<Comment>, completion: string, body: string)
    requires NoCommentWith(codec, comments, completion)
    ensures !Blocker(codec, comments, completion, body)
  {
  }

  lemma FinishableMatches(codec: Codec, state: RunState, request: Request, env: Environment, key: JournalKey)
    requires LedgerInv(codec, state) && CanFinish(state, request, env, key)
    ensures GenerationMatches(state, Some(state.active[key.issue]), state.journal[key].id)
  {
    hide LedgerInv;
    JournalIdentity(codec, state, key);
  }

  lemma GenerationFrame(s: RunState, t: RunState, held: Option<Active>, id: Identity)
    requires s.active == t.active && s.reservations == t.reservations
    ensures GenerationMatches(s, held, id) <==> GenerationMatches(t, held, id)
  {
  }

  lemma IdentityNow(world: World, record: Record)
    requires world.Valid() && Stored(world.disk, record)
    ensures WellFormed(world.codec, record.id)
  {
    hide Run, Inv, LedgerInv, RecordOk, WellFormed;
    WorldInv(world);
    InvHasLedger(world.codec, world.Snap());
    JournalIdentity(world.codec, world.disk, record.id.Key());
  }

  /** A stored record with the fingerprint of the request has its verdict and its label, and
      yields an answer to it. */
  lemma StoredAnswers(world: World, record: Record, request: Request)
    requires world.Valid() && Stored(world.disk, record) && request.Digested(world.codec)
    requires record.id.fingerprint == request.fingerprint
    ensures record.id.verdict == request.verdict && record.id.target == TargetLabel(request.verdict)
    ensures record.id.issue == request.issue
    ensures var result := ResultFromRecord(world.codec, record.id);
      && result.Ok? && result.value.Some? && result.value.value.completion == record.id.completion
      && result.value.value.outcome.head == record.id.payload.head
      && ((request.Explicit() ==> request.completion.value == record.id.completion) ==> Answers(result.value.value, request))
  {
    IdentityNow(world, record);
  }

  // The checks behind which alone anything is written.
  predicate Admitted(state: RunState, request: Request, env: Environment) {
    && request.issue in state.active && state.active[request.issue].repo == env.repo
    && request.claim == Some(state.active[request.issue].claim) && env.claimValid && env.preflight
  }

  /** One run of a claimed completion. A request that concerns a saved completion is answered
      from it, or refused, without a write. Any other success left a durable, justified
      handoff that serves this request, and its answer says what was asked for. A first
      attempt, and a retry of an interrupted one, finishes as soon as nothing is in its way. */
  method PublishRequest(world: World, request: Request, env: Environment)
    returns (answer: Result<Answer, ServiceError>, ghost trace: seq<Entry>)
    requires world.Valid() && request.Digested(world.codec) && ChosenId(request, env) != ""
    modifies world
    ensures world.Valid() && world.path == old(world.path) + trace
    ensures JustlyHandedOff(trace, world.disk.journal, request) && PostedAfterLook(trace, request)
    ensures HandedOffAsChecked(trace, old(world.disk), world.disk, request, env)
    ensures answer.Ok? ==> Answers(answer.value, request)
    ensures !old(NothingSaved(world.disk, request, env.repo)) ==> (
      && unchanged(world)
      && (answer.Ok? ==> exists k ::
            old(Answerable(world.disk, request, env.repo, k)) && Repeated(world.codec, world.disk, k, answer.value))
      && (answer.Err? ==> answer.error.ReplayRefused? && forall k :: !old(Answerable(world.disk, request, env.repo, k))))
    ensures old(NothingSaved(world.disk, request, env.repo)) && answer.Ok? ==>
      exists record :: FinishedFor(world.codec, world.disk, record, request, env.repo, answer.value)
    ensures old(NothingSaved(world.disk, request, env.repo) && !Admitted(world.disk, request, env)) ==>
      answer.Err? && unchanged(world)
    ensures world.calm && old(NothingSaved(world.disk, request, env.repo)) ==>
      forall key | old(CanFinish(world.disk, request, env, key)
          && Unobstructed(world.codec, world.LabelsOf(key.issue), CommentsOf(world.comments, key.issue), world.disk.journal[key])) ::
        answer.Ok? && answer.value.completion == key.completion
    ensures world.calm && old(NothingSaved(world.disk, request, env.repo)
        && request.issue in world.disk.active && CanStart(world.disk, request, world.disk.active[request.issue], env)
        && Undisturbed(world.LabelsOf(request.issue), request.verdict)
        && NoCommentWith(world.codec, CommentsOf(world.comments, request.issue), ChosenId(request, env))) ==>
      answer.Ok? && answer.value.completion == ChosenId(request, env)
  {
    hide Inv, Run, Preparing, LedgerInv, FindReplay, WellFormed, HandoffsJustified, JustlyHandedOff, PostedAfterLook, PostsAfterLook, HandedOffAsChecked,
      HasProtected, Blocker, NothingSaved, Answerable, Repeated, Answers, Admitted, CanFinish, CanStart, Undisturbed, NoCommentWith,
      FinishedFor, Unobstructed, World.LabelsOf;
    trace := [];
    SinglePreparing([], ActiveChanged);
    NothingHandedOff([], world.disk.journal, request);
    NothingPostedYet([], request);
    NothingHandedOffUnchecked([], world.disk, world.disk, request, env);
    var replay := FindReplay(world.codec, request, env.repo, world.disk);
    ReplayIsAnswer(world, request, env.repo);
    if replay.Err? {
      return Err(ReplayRefused(replay.error)), trace;
    }
    if replay.value.Some? {
      return Ok(replay.value.value), trace;
    }
    answer, trace := PublishNew(world, request, env);
  }

  lemma ReplayIsAnswer(world: World, request: Request, repo: string)
    requires world.Valid() && request.Digested(world.codec)
    ensures var replay := FindReplay(world.codec, request, repo, world.disk);
      && (replay == Ok(None) <==> NothingSaved(world.disk, request, repo))
      && (replay.Err? ==> forall k :: !Answerable(world.disk, request, repo, k))
      && (replay.Ok? && replay.value.Some? ==>
            && Answers(replay.value.value, request)
            && exists k :: Answerable(world.disk, request, repo, k) && Repeated(world.codec, world.disk, k, replay.value.value))
  {
    hide Inv, Run, LedgerInv, FindReplay, NothingSaved, Answerable, Repeated, Answers, Request.Digested;
    WorldInv(world);
    InvHasLedger(world.codec, world.Snap());
    ReplayAnswersIff(world.codec, world.disk, request, repo);
    var replay := FindReplay(world.codec, request, repo, world.disk);
    if replay.Ok? && replay.value.Some? {
      var k :| Answerable(world.disk, request, repo, k) && Repeated(world.codec, world.disk, k, replay.value.value);
      AnsweredAsAsked(world.codec, world.disk, request, repo, k, replay.value.value);
    }
  }

  // The same, said for a first attempt by the request alone.
  ghost predicate Clear(codec: Codec, labels: set<string>, comments: seq<Comment>, record: Record, request: Request) {
    || Unobstructed(codec, labels, comments, record)
    || (record.stage.Reserved? && Undisturbed(labels, request.verdict) && NoCommentWith(codec, comments, record.id.completion))
  }

  // Publishes a stored record of this request and answers with what was posted.
  method PublishFor(world: World, held: Option<Active>, record: Record, request: Request)
    returns (published: Result<Record, ServiceError>, answer: Answer, ghost trace: seq<Entry>)
    requires world.Valid() && request.Digested(world.codec) && Stored(world.disk, record)
    requires record.id.fingerprint == request.fingerprint
    requires request.Explicit() ==> request.completion.value == record.id.completion
    modifies world
    ensures world.Valid() && world.path == old(world.path) + trace
    ensures world.disk.journal.Keys == old(world.disk.journal.Keys)
    ensures HandoffsJustified(trace, record.id.Key(), record.id.target)
    ensures PostsAfterLook(trace, record.id.issue, record.id.target)
    ensures record.id.Key() in world.disk.journal && world.disk.journal[record.id.Key()].id == record.id
    ensures record.id.issue == request.issue && record.id.verdict == request.verdict && record.id.target == TargetLabel(request.verdict)
    ensures published.Ok? ==> (
      && Stored(world.disk, published.value) && Durable(world.disk, record.id.Key())
      && published.value.id == record.id && published.value.decision == record.decision
      && ResultFromRecord(world.codec, record.id) == Ok(Some(answer)) && Answers(answer, request)
      && answer.completion == record.id.completion)
    ensures
      (&& world.calm && GenerationMatches(old(world.disk), held, record.id)
       && old(Clear(world.codec, world.LabelsOf(request.issue), CommentsOf(world.comments, request.issue), record, request)))
      ==> published.Ok?
  {
    hide Inv, Run, Step, LedgerInv, WellFormed, GenerationMatches, Durable, ResultFromRecord, HandoffsJustified, PostsAfterLook,
      HasProtected, Blocker, Answers, Request.Digested, Undisturbed, NoCommentWith, TargetLabel;
    StoredAnswers(world, record, request);
    answer := ResultFromRecord(world.codec, record.id).value.value;
    ghost var comments := CommentsOf(world.comments, request.issue);
    UnobstructedFrame(world.codec, world.LabelsOf(request.issue), comments, record);
    if NoCommentWith(world.codec, comments, record.id.completion) {
      NoCommentNoBlocker(world.codec, comments, record.id.completion, record.id.payload.body);
    }
    ghost var path := world.path;
    var result;
    result, trace := PublishReserved(world, held, record);
    IdentityStays(world.codec, world.start, path, trace, record.id.Key());
    published := if result.Ok? then Ok(result.value) else Err(PublicationRefused(result.error));
  }

  // The part of a run that may write.
  method PublishNew(world: World, request: Request, env: Environment)
    returns (answer: Result<Answer, ServiceError>, ghost trace: seq<Entry>)
    requires world.Valid() && request.Digested(world.codec) && ChosenId(request, env) != ""
    requires FindReplay(world.codec, request, env.repo, world.disk) == Ok(None)
    modifies world
    ensures world.Valid() && world.path == old(world.path) + trace
    ensures JustlyHandedOff(trace, world.disk.journal, request) && PostedAfterLook(trace, request)
    ensures HandedOffAsChecked(trace, old(world.disk), world.disk, request, env)
    ensures answer.Ok? ==> Answers(answer.value, request)
    ensures answer.Ok? ==> exists record :: FinishedFor(world.codec, world.disk, record, request, env.repo, answer.value)
    ensures old(!Admitted(world.disk, request, env)) ==> answer.Err? && unchanged(world)
    ensures world.calm ==>
      forall key | old(CanFinish(world.disk, request, env, key)
          && Unobstructed(world.codec, world.LabelsOf(key.issue), CommentsOf(world.comments, key.issue), world.disk.journal[key])) ::
        answer.Ok? && answer.value.completion == key.completion
    ensures world.calm && old(
        && request.issue in world.disk.active && CanStart(world.disk, request, world.disk.active[request.issue], env)
        && Undisturbed(world.LabelsOf(request.issue), request.verdict)
        && NoCommentWith(world.codec, CommentsOf(world.comments, request.issue), ChosenId(request, env))) ==>
      answer.Ok? && answer.value.completion == ChosenId(request, env)
  {
    hide Inv, Run, Step, Preparing, LedgerInv, FindReplay, WellFormed, HeadValidated, GenerationMatches, Durable,
      ResultFromRecord, HandoffsJustified, HasProtected, Blocker, Answers, Request.Digested, Undisturbed, NoCommentWith,
      TargetLabel, ChosenId, JustlyHandedOff, PostedAfterLook, PostsAfterLook,
      HandedOffAsChecked;
    trace := [];
    SinglePreparing([], ActiveChanged);
    NothingHandedOff([], world.disk.journal, request);
    NothingPostedYet([], request);
    NothingHandedOffUnchecked([], world.disk, world.disk, request, env);
    if request.issue !in world.disk.active {
      return Err(ClaimNotFound), trace;
    }
    var active := world.disk.active[request.issue];
    if env.repo != active.repo {
      return Err(WrongRepository), trace;
    }
    if !env.claimValid {
      return Err(ClaimInvalid), trace;
    }
    if request.claim != Some(active.claim) {
      return Err(ClaimDiffers), trace;
    }
    if !env.preflight {
      return Err(PreflightRejected), trace;
    }
    answer, trace := PublishAdmitted(world, request, active, env);
  }

  // Publishes a stored record of this request unless its policy decision holds it.
  method PublishAllowed(world: World, held: Option<Active>, record: Record, request: Request)
    returns (published: Result<Record, ServiceError>, answer: Answer, ghost first: seq<Entry>, ghost last: seq<Entry>)
    requires world.Valid() && request.Digested(world.codec) && Stored(world.disk, record) && !record.stage.HandedOff?
    requires record.id.fingerprint == request.fingerprint
    requires request.Explicit() ==> request.completion.value == record.id.completion
    modifies world
    ensures world.Valid() && world.path == old(world.path) + first + last && Preparing(first)
    ensures HandoffsJustified(last, record.id.Key(), record.id.target)
    ensures PostsAfterLook(last, record.id.issue, record.id.target)
    ensures record.id.Key() in world.disk.journal && world.disk.journal[record.id.Key()].id == record.id
    ensures record.id.issue == request.issue && record.id.verdict == request.verdict && record.id.target == TargetLabel(request.verdict)
    ensures !record.decision.Allowed? ==> published.Err? && last == []
    ensures published.Ok? ==> (
      && Stored(world.disk, published.value) && Durable(world.disk, record.id.Key())
      && published.value.id == record.id && published.value.decision.Allowed?
      && ResultFromRecord(world.codec, record.id) == Ok(Some(answer)) && Answers(answer, request)
      && answer.completion == record.id.completion)
    ensures
      (&& world.calm && record.decision.Allowed? && GenerationMatches(old(world.disk), held, record.id)
       && old(Clear(world.codec, world.LabelsOf(request.issue), CommentsOf(world.comments, request.issue), record, request)))
      ==> published.Ok?
  {
    hide Inv, Run, Step, LedgerInv, WellFormed, GenerationMatches, Durable, ResultFromRecord, HandoffsJustified, PostsAfterLook,
      HasProtected, Blocker, Answers, Request.Digested, Undisturbed, NoCommentWith, TargetLabel, Preparing, Clear;
    StoredAnswers(world, record, request);
    answer := ResultFromRecord(world.codec, record.id).value.value;
    last := [];
    NothingJustified(record.id);
    ghost var path := world.path;
    var refused;
    refused, first := RejectPolicy(world, record);
    IdentityStays(world.codec, world.start, path, first, record.id.Key());
    assert world.path == path + first + last;
    if refused.Some? {
      return Err(refused.value), answer, first, last;
    }
    published, answer, last := PublishFor(world, held, record, request);
  }

  lemma NothingJustified(id: Identity)
    ensures HandoffsJustified([], id.Key(), id.target) && PostsAfterLook([], id.issue, id.target)
  {
  }

  // The same behind the checks.
  method PublishAdmitted(world: World, request: Request, active: Active, env: Environment)
    returns (answer: Result<Answer, ServiceError>, ghost trace: seq<Entry>)
    requires world.Valid() && request.Digested(world.codec) && ChosenId(request, env) != ""
    requires FindReplay(world.codec, request, env.repo, world.disk) == Ok(None)
    requires request.issue in world.disk.active && world.disk.active[request.issue] == active && request.claim == Some(active.claim)
    modifies world
    ensures world.Valid() && world.path == old(world.path) + trace
    ensures JustlyHandedOff(trace, world.disk.journal, request) && PostedAfterLook(trace, request)
    ensures HandedOffAsChecked(trace, old(world.disk), world.disk, request, env)
    ensures answer.Ok? ==> Answers(answer.value, request)
    ensures answer.Ok? ==> exists record :: FinishedFor(world.codec, world.disk, record, request, env.repo, answer.value)
    ensures world.calm ==>
      forall key | old(CanFinish(world.disk, request, env, key)
          && Unobstructed(world.codec, world.LabelsOf(key.issue), CommentsOf(world.comments, key.issue), world.disk.journal[key])) ::
        answer.Ok? && answer.value.completion == key.completion
    ensures world.calm && old(
        && request.issue in world.disk.active && CanStart(world.disk, request, world.disk.active[request.issue], env)
        && Undisturbed(world.LabelsOf(request.issue), request.verdict)
        && NoCommentWith(world.codec, CommentsOf(world.comments, request.issue), ChosenId(request, env))) ==>
      answer.Ok? && answer.value.completion == ChosenId(request, env)
  {
    hide Inv, Run, Step, Preparing, LedgerInv, FindReplay, WellFormed, HeadValidated, GenerationMatches, Durable,
      ResultFromRecord, HandoffsJustified, HasProtected, Blocker, Answers, Request.Digested, Undisturbed, NoCommentWith,
      TargetLabel, ChosenId, JustlyHandedOff, PostedAfterLook, PostsAfterLook,
      HandedOffAsChecked;
    ghost var start := world.disk;
    assert LedgerInv(world.codec, start) by {
      WorldInv(world);
      InvHasLedger(world.codec, world.Snap());
    }
    var selected;
    selected, trace := SelectRecord(world, request, active, env);
    forall key | CanFinish(start, request, env, key) && world.calm
      ensures selected.Ok? && GenerationMatches(world.disk, Some(active), selected.value.id)
    {
      FinishableMatches(world.codec, start, request, env, key);
      GenerationFrame(start, world.disk, Some(active), start.journal[key].id);
    }
    NothingHandedOff(trace, world.disk.journal, request);
    NothingPostedYet(trace, request);
    NothingHandedOffUnchecked(trace, start, world.disk, request, env);
    if selected.Err? {
      return Err(selected.error), trace;
    }
    var record := selected.value;
    var published, result;
    ghost var held, last;
    published, result, held, last := PublishAllowed(world, Some(active), record, request);
    PreparingConcat(trace, held);
    PublishedJustly(trace + held, last, record.id, world.disk.journal, request);
    PostedJustly(trace + held, last, record.id, request);
    HandedOffOne(trace + held, last, start, world.disk, record.id, request, env);
    trace := trace + held + last;
    if published.Err? {
      return Err(published.error), trace;
    }
    assert FinishedFor(world.codec, world.disk, published.value, request, env.repo, result);
    answer := Ok(result);
  }

  // ---- An unclaimed completion ----

  const ID_PREFIX := "completion-"

  predicate IsHex(c: char) {
    '0' <= c <= '9' || 'a' <= c <= 'f'
  }

  predicate IsCanonicalId(completion: string) {
    |completion| == 43 && ID_PREFIX <= completion && forall i | 11 <= i < 43 :: IsHex(completion[i])
  }

  /** A canonical id is the prefix and 32 hex digits, and its pseudo-claim has the same digits. */
  lemma CanonicalIff(completion: string)
    ensures IsCanonicalId(completion) <==>
      exists digits: string :: completion == "completion-" + digits && |digits| == 32 && forall c | c in digits :: c in "0123456789abcdef"
    ensures forall digits: string :: completion == "completion-" + digits && IsCanonicalId(completion) ==>
      UnclaimedGeneration(completion) == "unclaimed-" + digits
  {
    HexIff();
    if IsCanonicalId(completion) {
      assert completion == "completion-" + completion[11..];
    }
  }

  lemma HexIff()
    ensures forall c :: IsHex(c) <==> c in "0123456789abcdef"
  {
    forall c | IsHex(c) ensures c in "0123456789abcdef" {
      assert "0123456789abcdef"[if c <= '9' then (c - '0') as int else 10 + (c - 'a') as int] == c;
    }
  }

  lemma CanonicalIsNotEmpty()
    ensures !IsCanonicalId("")
  {
  }

  // The pseudo-claim of a completion that nobody claimed.
  function UnclaimedGeneration(completion: string): string
    requires IsCanonicalId(completion)
  {
    UNCLAIMED + completion[11..]
  }

  function ReservationsOf(state: RunState, issue: nat): set<ReservationKey> {
    set r | r in state.reservations && state.reservations[r].issue == issue
  }

  function ValidatePendingIdentity(request: Request, record: Record): Option<ServiceError> {
    if !(UNCLAIMED <= record.id.generation) then Some(ClaimDiffers)
    else if !IsCanonicalId(record.id.completion) then Some(IdInvalid)
    else if record.id.generation != UnclaimedGeneration(record.id.completion) then Some(ClaimDiffers)
    else if request.completion.Some? && request.completion.value != record.id.completion then Some(IdRequired)
    else if record.id.fingerprint != request.fingerprint then Some(RequestDiffers)
    else None
  }

  function UnclaimedPending(request: Request, state: RunState, repo: string): Result<Option<Record>, ServiceError> {
    var found := ReservationsOf(state, request.issue);
    if found == {} then Ok(None)
    else if |found| != 1 then Err(StateInvalid)
    else
      var reservation := state.reservations[Only(found)];
      var key := reservation.Key();
      if key !in state.journal || state.journal[key].id != reservation then Err(StateInvalid)
      else
        var record := state.journal[key];
        if record.id.repo != repo then Err(WrongRepository)
        else if record.stage.HandedOff? then
          if Durable(state, key) then Ok(None) else Err(StateInvalid)
        else
          var refused := ValidatePendingIdentity(request, record);
          if refused.Some? then Err(refused.value) else Ok(Some(record))
  }

  /** The Issue-level lookup finds the open completion if there is one, and is never
      ambiguous or inconsistent in a reachable ledger. */
  lemma UnclaimedPendingFindsOpen(codec: Codec, state: RunState, request: Request, repo: string)
    requires LedgerInv(codec, state)
    ensures UnclaimedPending(request, state, repo) != Err(StateInvalid)
    ensures UnclaimedPending(request, state, repo) == Ok(None) ==>
      forall k | k in state.journal && k.issue == request.issue :: Durable(state, k) && k.repo == repo
    ensures var found := UnclaimedPending(request, state, repo);
      found.Ok? && found.value.Some? ==>
        && Stored(state, found.value.value) && !found.value.value.stage.HandedOff?
        && found.value.value.id.repo == repo && found.value.value.id.issue == request.issue
        && ValidatePendingIdentity(request, found.value.value).None?
  {
    hide LedgerInv;
    var found := ReservationsOf(state, request.issue);
    forall r, q | r in found && q in found ensures r == q {
      SameIssueSameReservation(codec, state, r, q);
    }
    if found != {} {
      var r :| r in found;
      assert found == {r};
      ReservationIdentity(codec, state, r);
      JournalIdentity(codec, state, state.reservations[r].Key());
    }
    forall k | k in state.journal && k.issue == request.issue
      ensures k.Reservation() in found
      ensures UnclaimedPending(request, state, repo) == Ok(None) ==> Durable(state, k) && k.repo == repo
    {
      JournalIdentity(codec, state, k);
      JournalReservation(codec, state, k);
    }
  }

  lemma ReservationIdentity(codec: Codec, state: RunState, r: ReservationKey)
    requires LedgerInv(codec, state) && r in state.reservations
    ensures state.reservations[r].Key().Reservation() == r
    ensures state.reservations[r].Key() in state.journal
    ensures state.journal[state.reservations[r].Key()].id == state.reservations[r]
  {
    hide RecordOk, WellFormed, Apart;
  }

  lemma JournalReservation(codec: Codec, state: RunState, k: JournalKey)
    requires LedgerInv(codec, state) && k in state.journal
    ensures k.Reservation() in state.reservations && state.reservations[k.Reservation()].issue == k.issue
  {
    hide RecordOk, WellFormed, Apart;
    assert state.reservations[k.Reservation()].Key().Reservation() == k.Reservation();
  }

  lemma SameIssueSameReservation(codec: Codec, state: RunState, r: ReservationKey, q: ReservationKey)
    requires LedgerInv(codec, state) && r in state.reservations && q in state.reservations
    requires state.reservations[r].issue == state.reservations[q].issue
    ensures r == q
  {
    hide RecordOk, WellFormed;
    ReservationIdentity(codec, state, r);
    ReservationIdentity(codec, state, q);
    assert Apart(state.reservations[r].Key(), state.reservations[q].Key());
  }

  function NewUnclaimedRecord(codec: Codec, request: Request, completion: string, env: Environment): (record: Record)
    requires codec.Lawful() && request.Digested(codec) && IsCanonicalId(completion)
    requires request.verdict.NotNeeded?
    ensures record.stage.Reserved? && WellFormed(codec, record.id) && record.id.verdict.NotNeeded? && record.decision.Allowed?
    ensures ValidatePendingIdentity(request.(completion := Some(completion)), record).None?
    ensures record.id.repo == env.repo && record.id.issue == request.issue && record.id.completion == completion
    ensures codec.parse(record.id.payload.body) == Some(Outcome(request.issue, NotNeeded, None, Some(completion), None, None, ""))
  {
    var outcome := Announced(request, None, completion, None);
    Record(
      Identity(
        env.repo, request.issue, UnclaimedGeneration(completion), completion, env.token, request.fingerprint,
        request.verdict, TargetLabel(NotNeeded), Payload(codec.render(outcome), None)),
      Reserved, None, None, Allowed, map[])
  }

  function ValidateNewId(completion: string, state: RunState): Option<ServiceError> {
    if !IsCanonicalId(completion) then Some(IdInvalid)
    else if exists k | k in state.journal :: state.journal[k].id.completion == completion then Some(IdUsed)
    else None
  }

  function ValidateUnclaimed(request: Request, state: RunState, pending: Option<Record>, env: Environment): Option<ServiceError> {
    if !request.verdict.NotNeeded? || request.claim.Some? then Some(NotUnclaimed)
    else if request.issue in state.active then Some(AlreadyClaimed)
    else
      var id :=
        if pending.Some? then
          if request.completion != Some(pending.value.id.completion) then Some(IdRequired) else None
        else if request.completion.Some? then ValidateNewId(request.completion.value, state)
        else None;
      if id.Some? then id
      else if !env.preflight then Some(IssueRejected)
      else None
  }

  ghost predicate FinishedUnclaimed(codec: Codec, state: RunState, record: Record, request: Request, repo: string, answer: Answer) {
    && Stored(state, record) && Durable(state, record.id.Key())
    && record.id.repo == repo && record.id.issue == request.issue && record.id.fingerprint == request.fingerprint
    && IsCanonicalId(record.id.completion) && record.id.generation == UnclaimedGeneration(record.id.completion)
    && (request.completion.Some? ==> request.completion.value == record.id.completion)
    && ResultFromRecord(codec, record.id) == Ok(Some(answer))
  }

  // The checks behind which alone an unclaimed completion writes.
  predicate AdmittedUnclaimed(state: RunState, request: Request, env: Environment) {
    request.verdict.NotNeeded? && request.claim.None? && request.issue !in state.active && env.preflight
  }

  // Every earlier completion of the Issue is finished, and the id is canonical and new.
  ghost predicate CanStartUnclaimed(state: RunState, request: Request, env: Environment) {
    && AdmittedUnclaimed(state, request, env) && request.completion in {None, Some(ChosenId(request, env))}
    && IsCanonicalId(ChosenId(request, env)) && UnusedId(state, ChosenId(request, env))
    && forall k | k in state.journal && k.issue == request.issue ::
         k.repo == env.repo && k.generation != UnclaimedGeneration(ChosenId(request, env)) && Durable(state, k)
  }

  // An open unclaimed completion that the request names.
  ghost predicate CanFinishUnclaimed(state: RunState, request: Request, env: Environment, key: JournalKey) {
    && AdmittedUnclaimed(state, request, env)
    && key in state.journal && !state.journal[key].stage.HandedOff?
    && key.repo == env.repo && key.issue == request.issue && request.completion == Some(key.completion)
    && state.journal[key].id.fingerprint == request.fingerprint
    && IsCanonicalId(key.completion) && key.generation == UnclaimedGeneration(key.completion)
  }

  // At most one record is new, under a canonical id; an id the caller named was unused.
  ghost predicate AddsOneUnclaimed(before: RunState, after: RunState, request: Request, env: Environment) {
    && before.journal.Keys <= after.journal.Keys
    && forall k | k in after.journal && k !in before.journal ::
         && k.repo == env.repo && k.issue == request.issue && k.completion == ChosenId(request, env)
         && IsCanonicalId(k.completion) && k.generation == UnclaimedGeneration(k.completion)
         && (request.Explicit() ==> UnusedId(before, k.completion))
  }

  // Only a completion that the request names is carried on to its handoff.
  ghost predicate ResumesNamed(trace: seq<Entry>, before: RunState, request: Request) {
    forall i | 0 <= i < |trace| && trace[i].event.HandoffSaved? && trace[i].event.key in before.journal ::
      request.completion == Some(trace[i].event.key.completion)
  }

  lemma ResumedOne(first: seq<Entry>, last: seq<Entry>, before: RunState, id: Identity, request: Request)
    requires Preparing(first) && HandoffsJustified(last, id.Key(), id.target)
    requires id.Key() in before.journal ==> request.completion == Some(id.completion)
    ensures ResumesNamed(first + last, before, request)
  {
    hide Settled;
    var whole := first + last;
    forall i | 0 <= i < |whole| && whole[i].event.HandoffSaved? ensures whole[i].event.key == id.Key() {
      assert i >= |first| && HandoffJustified(last, i - |first|, id.Key(), id.target);
    }
  }

  lemma NothingResumed(trace: seq<Entry>, before: RunState, request: Request)
    requires Preparing(trace)
    ensures ResumesNamed(trace, before, request)
  {
  }

  /** One run of an unclaimed completion: like a claimed one, it answers a finished
      completion without a write and otherwise succeeds only with a durable, justified
      handoff. It adds at most one record, and never one whose explicit id is in use. */
  method CompleteUnclaimed(world: World, request: Request, env: Environment)
    returns (answer: Result<Answer, ServiceError>, ghost trace: seq<Entry>)
    requires world.Valid() && request.Digested(world.codec)
    modifies world
    ensures world.Valid() && world.path == old(world.path) + trace
    ensures JustlyHandedOff(trace, world.disk.journal, request) && PostedAfterLook(trace, request)
    ensures answer.Ok? ==> Answers(answer.value, request)
    ensures !old(NothingSaved(world.disk, request, env.repo)) ==> (
      && unchanged(world)
      && (answer.Ok? ==> exists k ::
            old(Answerable(world.disk, request, env.repo, k)) && Repeated(world.codec, world.disk, k, answer.value))
      && (answer.Err? ==> answer.error.ReplayRefused? && forall k :: !old(Answerable(world.disk, request, env.repo, k))))
    ensures old(NothingSaved(world.disk, request, env.repo)) && answer.Ok? ==>
      exists record :: FinishedUnclaimed(world.codec, world.disk, record, request, env.repo, answer.value)
    ensures old(NothingSaved(world.disk, request, env.repo) && !AdmittedUnclaimed(world.disk, request, env)) ==>
      answer.Err? && unchanged(world)
    ensures AddsOneUnclaimed(old(world.disk), world.disk, request, env)
    ensures ResumesNamed(trace, old(world.disk), request)
    ensures old(DistinctIds(world.disk)) && (request.Explicit() || old(UnusedId(world.disk, env.uuid))) ==>
      DistinctIds(world.disk)
    ensures world.calm && old(NothingSaved(world.disk, request, env.repo)) ==>
      forall key | old(CanFinishUnclaimed(world.disk, request, env, key)
          && Unobstructed(world.codec, world.LabelsOf(key.issue), CommentsOf(world.comments, key.issue), world.disk.journal[key])) ::
        answer.Ok? && answer.value.completion == key.completion
    ensures world.calm && old(NothingSaved(world.disk, request, env.repo)
        && CanStartUnclaimed(world.disk, request, env) && Undisturbed(world.LabelsOf(request.issue), request.verdict)
        && NoCommentWith(world.codec, CommentsOf(world.comments, request.issue), ChosenId(request, env))) ==>
      answer.Ok? && answer.value.completion == ChosenId(request, env)
  {
    hide Inv, Run, Preparing, LedgerInv, FindReplay, WellFormed, HandoffsJustified, JustlyHandedOff, PostedAfterLook, PostsAfterLook,
      HasProtected, Blocker, NothingSaved, Answerable, Repeated, Answers, AdmittedUnclaimed, CanFinishUnclaimed, CanStartUnclaimed,
      Undisturbed, NoCommentWith, FinishedUnclaimed, Unobstructed, World.LabelsOf, DistinctIds, UnusedId, ResumesNamed;
    trace := [];
    SinglePreparing([], ActiveChanged);
    NothingHandedOff([], world.disk.journal, request);
    NothingPostedYet([], request);
    NothingResumed([], world.disk, request);
    var replay := FindReplay(world.codec, request, env.repo, world.disk);
    ReplayIsAnswer(world, request, env.repo);
    if replay.Err? {
      return Err(ReplayRefused(replay.error)), trace;
    }
    if replay.value.Some? {
      return Ok(replay.value.value), trace;
    }
    answer, trace := CompleteNewUnclaimed(world, request, env);
  }

  // A first attempt: the new record is reserved under its pseudo-claim.
  method StartUnclaimed(world: World, request: Request, env: Environment)
    returns (started: Result<Record, ServiceError>, ghost trace: seq<Entry>)
    requires world.Valid() && request.Digested(world.codec) && request.verdict.NotNeeded?
    requires request.issue !in world.disk.active
    requires request.Explicit() ==> UnusedId(world.disk, request.completion.value)
    requires forall k | k in world.disk.journal && k.issue == request.issue :: k.completion != ChosenId(request, env)
    modifies world`disk, world`path
    ensures world.Valid() && world.path == old(world.path) + trace && Preparing(trace)
    ensures started.Ok? ==> (
      && Stored(world.disk, started.value) && started.value.id.Key() !in old(world.disk.journal)
      && started.value.id.repo == env.repo && started.value.id.fingerprint == request.fingerprint
      && started.value.id.completion == ChosenId(request, env) && IsCanonicalId(started.value.id.completion)
      && started.value.id.generation == UnclaimedGeneration(started.value.id.completion))
    ensures !IsCanonicalId(ChosenId(request, env)) ==> unchanged(world)
    ensures AddsOneUnclaimed(old(world.disk), world.disk, request, env)
    ensures old(DistinctIds(world.disk)) && (request.Explicit() || old(UnusedId(world.disk, env.uuid))) ==>
      DistinctIds(world.disk)
    ensures old(CanStartUnclaimed(world.disk, request, env)) && world.calm ==>
      started.Ok? && GenerationMatches(world.disk, None, started.value.id)
  {
    hide Inv, Run, Step, Preparing, LedgerInv, WellFormed, GenerationMatches, Admissible, CompletionJournal.Resumable, DistinctIds,
      UnusedId, IsCanonicalId, CanStartUnclaimed, AddsOneUnclaimed, Request.Digested, ValidatePendingIdentity;
    trace := [];
    SinglePreparing([], ActiveChanged);
    ghost var start := world.disk;
    assert LedgerInv(world.codec, start) by {
      WorldInv(world);
      InvHasLedger(world.codec, world.Snap());
    }
    var completion := ChosenId(request, env);
    if !IsCanonicalId(completion) {
      StartsUnderCanonicalId(start, request, env);
      NothingAdded(start, request, env);
      return Err(IdInvalid), trace;
    }
    var created := NewUnclaimedRecord(world.codec, request, completion, env);
    NotJournaledNotResumable(world.codec, start, created.id);
    if CanStartUnclaimed(start, request, env) {
      UnclaimedIsReservable(world.codec, start, request, env, created);
    }
    ghost var before := world.path;
    var reserved := CompletionJournal.ReserveCompletion(world, created);
    trace := world.path[|before|..];
    SinglePreparing(trace, ReservationSaved(created));
    FreshReservationDistinct(world.codec, start, world.disk, created);
    ReservedAddsOne(start, created, request, env);
    NothingAdded(start, request, env);
    started := if reserved.Ok? then Ok(reserved.value) else Err(ReservationRefused(reserved.error));
  }

  lemma ReservedAddsOne(state: RunState, candidate: Record, request: Request, env: Environment)
    requires candidate.id.repo == env.repo && candidate.id.issue == request.issue
    requires candidate.id.completion == ChosenId(request, env) && IsCanonicalId(candidate.id.completion)
    requires candidate.id.generation == UnclaimedGeneration(candidate.id.completion)
    requires request.Explicit() ==> UnusedId(state, candidate.id.completion)
    ensures AddsOneUnclaimed(state, Reserve(state, candidate), request, env)
  {
    hide IsCanonicalId, UnusedId;
  }

  lemma NotJournaledNotResumable(codec: Codec, state: RunState, id: Identity)
    requires LedgerInv(codec, state)
    ensures CompletionJournal.Resumable(state, id) ==> id.Key() in state.journal
  {
    hide LedgerInv;
    if CompletionJournal.Resumable(state, id) {
      CompletionJournal.ResumableIsJournaled(codec, state, id);
    }
  }

  // With nothing saved and nothing pending, the Issue has no record under the id.
  lemma NothingUnderTheId(codec: Codec, state: RunState, request: Request, env: Environment)
    requires LedgerInv(codec, state) && NothingSaved(state, request, env.repo) && request.claim.None?
    requires UnclaimedPending(request, state, env.repo) == Ok(None)
    requires request.Explicit() ==> UnusedId(state, request.completion.value)
    ensures forall k | k in state.journal && k.issue == request.issue :: k.completion != ChosenId(request, env)
  {
    hide LedgerInv, UnclaimedPending;
    UnclaimedPendingFindsOpen(codec, state, request, env.repo);
    forall k | k in state.journal && k.issue == request.issue ensures request.Explicit() {
      assert Durable(state, k);
      assert !Concerns(request, env.repo, k);
    }
  }

  lemma StartsUnderCanonicalId(state: RunState, request: Request, env: Environment)
    ensures CanStartUnclaimed(state, request, env) ==> IsCanonicalId(ChosenId(request, env))
  {
    hide IsCanonicalId;
  }

  lemma UnclaimedIsReservable(codec: Codec, state: RunState, request: Request, env: Environment, candidate: Record)
    requires LedgerInv(codec, state) && CanStartUnclaimed(state, request, env)
    requires candidate.stage.Reserved? && WellFormed(codec, candidate.id)
    requires candidate.id.repo == env.repo && candidate.id.issue == request.issue
    requires candidate.id.completion == ChosenId(request, env) && candidate.id.generation == UnclaimedGeneration(candidate.id.completion)
    ensures Reservable(codec, state, candidate)
    ensures GenerationMatches(Reserve(state, candidate), None, candidate.id)
  {
    hide LedgerInv, WellFormed, IsCanonicalId;
  }

  lemma UnclaimedHasNothingPending(codec: Codec, state: RunState, request: Request, env: Environment)
    requires LedgerInv(codec, state)
    ensures CanStartUnclaimed(state, request, env) ==>
      UnclaimedPending(request, state, env.repo) == Ok(None) && ValidateUnclaimed(request, state, None, env).None?
  {
    hide LedgerInv, IsCanonicalId, ValidatePendingIdentity;
    UnclaimedPendingFindsOpen(codec, state, request, env.repo);
    if CanStartUnclaimed(state, request, env) {
      forall k | k in state.journal ensures state.journal[k].id.Key() == k {
        JournalIdentity(codec, state, k);
      }
      forall r | r in state.reservations ensures r.issue == state.reservations[r].issue {
        ReservationIdentity(codec, state, r);
      }
      UnclaimedRepository(codec, state, request, env);
    }
  }

  lemma UnclaimedRepository(codec: Codec, state: RunState, request: Request, env: Environment)
    requires LedgerInv(codec, state) && CanStartUnclaimed(state, request, env)
    ensures UnclaimedPending(request, state, env.repo) == Ok(None)
  {
    hide LedgerInv, IsCanonicalId, ValidatePendingIdentity;
    UnclaimedPendingFindsOpen(codec, state, request, env.repo);
    var found := ReservationsOf(state, request.issue);
    if found != {} && |found| == 1 {
      var r := Only(found);
      assert r in found;
      ReservationIdentity(codec, state, r);
      JournalIdentity(codec, state, state.reservations[r].Key());
    }
  }

  lemma UnclaimedIsPending(codec: Codec, state: RunState, request: Request, env: Environment, key: JournalKey)
    requires LedgerInv(codec, state) && CanFinishUnclaimed(state, request, env, key)
    ensures UnclaimedPending(request, state, env.repo) == Ok(Some(state.journal[key]))
    ensures ValidateUnclaimed(request, state, Some(state.journal[key]), env).None?
    ensures GenerationMatches(state, None, state.journal[key].id)
  {
    hide LedgerInv, IsCanonicalId;
    UnclaimedPendingFindsOpen(codec, state, request, env.repo);
    JournalIdentity(codec, state, key);
    JournalReservation(codec, state, key);
    var r := key.Reservation();
    assert state.reservations[r] == state.journal[key].id;
    var found := ReservationsOf(state, request.issue);
    forall q | q in found ensures q == r {
      SameIssueSameReservation(codec, state, q, r);
    }
    assert found == {r};
  }

  // The part of an unclaimed run that may write.
  method CompleteNewUnclaimed(world: World, request: Request, env: Environment)
    returns (answer: Result<Answer, ServiceError>, ghost trace: seq<Entry>)
    requires world.Valid() && request.Digested(world.codec) && NothingSaved(world.disk, request, env.repo)
    modifies world
    ensures world.Valid() && world.path == old(world.path) + trace
    ensures JustlyHandedOff(trace, world.disk.journal, request) && PostedAfterLook(trace, request)
    ensures answer.Ok? ==> Answers(answer.value, request)
    ensures answer.Ok? ==> exists record :: FinishedUnclaimed(world.codec, world.disk, record, request, env.repo, answer.value)
    ensures old(!AdmittedUnclaimed(world.disk, request, env)) ==> answer.Err? && unchanged(world)
    ensures AddsOneUnclaimed(old(world.disk), world.disk, request, env)
    ensures ResumesNamed(trace, old(world.disk), request)
    ensures old(DistinctIds(world.disk)) && (request.Explicit() || old(UnusedId(world.disk, env.uuid))) ==>
      DistinctIds(world.disk)
    ensures world.calm ==>
      forall key | old(CanFinishUnclaimed(world.disk, request, env, key)
          && Unobstructed(world.codec, world.LabelsOf(key.issue), CommentsOf(world.comments, key.issue), world.disk.journal[key])) ::
        answer.Ok? && answer.value.completion == key.completion
    ensures world.calm && old(CanStartUnclaimed(world.disk, request, env)
        && Undisturbed(world.LabelsOf(request.issue), request.verdict)
        && NoCommentWith(world.codec, CommentsOf(world.comments, request.issue), ChosenId(request, env))) ==>
      answer.Ok? && answer.value.completion == ChosenId(request, env)
  {
    hide Inv, Run, Preparing, LedgerInv, WellFormed, GenerationMatches, Durable, ResultFromRecord, HandoffsJustified, JustlyHandedOff, PostedAfterLook, PostsAfterLook,
      HasProtected, Blocker, UnclaimedPending, DistinctIds, UnusedId, IsCanonicalId, Answers, Request.Digested, Undisturbed,
      NoCommentWith, TargetLabel, CanStartUnclaimed, AddsOneUnclaimed, NothingSaved, ResumesNamed;
    trace := [];
    SinglePreparing([], ActiveChanged);
    NothingHandedOff([], world.disk.journal, request);
    NothingPostedYet([], request);
    NothingResumed([], world.disk, request);
    NothingAdded(world.disk, request, env);
    CanonicalIsNotEmpty();
    ghost var start := world.disk;
    assert LedgerInv(world.codec, start) by {
      WorldInv(world);
      InvHasLedger(world.codec, world.Snap());
    }
    UnclaimedPendingFindsOpen(world.codec, start, request, env.repo);
    UnclaimedHasNothingPending(world.codec, start, request, env);
    forall key | CanFinishUnclaimed(start, request, env, key)
      ensures UnclaimedPending(request, start, env.repo) == Ok(Some(start.journal[key]))
      ensures ValidateUnclaimed(request, start, Some(start.journal[key]), env).None?
      ensures GenerationMatches(start, None, start.journal[key].id)
    {
      UnclaimedIsPending(world.codec, start, request, env, key);
    }
    var pending := UnclaimedPending(request, world.disk, env.repo);
    if pending.Err? {
      return Err(pending.error), trace;
    }
    var refused := ValidateUnclaimed(request, world.disk, pending.value, env);
    if refused.Some? {
      return Err(refused.value), trace;
    }
    var record;
    if pending.value.Some? {
      record := pending.value.value;
    } else {
      if request.Explicit() {
        ExplicitIdUnused(world.codec, start, request.completion.value);
      }
      NothingUnderTheId(world.codec, start, request, env);
      var started;
      started, trace := StartUnclaimed(world, request, env);
      NothingHandedOff(trace, world.disk.journal, request);
    NothingPostedYet(trace, request);
      NothingResumed(trace, start, request);
      if started.Err? {
        return Err(started.error), trace;
      }
      record := started.value;
    }
    ghost var reserved := world.disk;
    var published, result;
    ghost var last;
    published, result, last := PublishFor(world, None, record, request);
    SameKeysDistinct(reserved, world.disk);
    SameKeysAdd(start, reserved, world.disk, request, env);
    PublishedJustly(trace, last, record.id, world.disk.journal, request);
    PostedJustly(trace, last, record.id, request);
    ResumedOne(trace, last, start, record.id, request);
    trace := trace + last;
    if published.Err? {
      return Err(published.error), trace;
    }
    assert FinishedUnclaimed(world.codec, world.disk, published.value, request, env.repo, result);
    answer := Ok(result);
  }

  lemma NothingAdded(state: RunState, request: Request, env: Environment)
    ensures AddsOneUnclaimed(state, state, request, env)
  {
  }

  lemma SameKeysAdd(before: RunState, s: RunState, t: RunState, request: Request, env: Environment)
    requires s.journal.Keys == t.journal.Keys
    ensures AddsOneUnclaimed(before, s, request, env) ==> AddsOneUnclaimed(before, t, request, env)
  {
    hide IsCanonicalId, UnusedId;
  }

  lemma ExplicitIdUnused(codec: Codec, state: RunState, completion: string)
    requires LedgerInv(codec, state) && ValidateNewId(completion, state).None?
    ensures UnusedId(state, completion)
  {
    hide LedgerInv;
    forall k | k in state.journal ensures k.completion != completion {
      JournalIdentity(codec, state, k);
    }
  }

  lemma SameKeysDistinct(s: RunState, t: RunState)
    requires s.journal.Keys == t.journal.Keys
    ensures DistinctIds(s) <==> DistinctIds(t)
  {
  }

  lemma FreshReservationDistinct(codec: Codec, s: RunState, t: RunState, candidate: Record)
    requires LedgerInv(codec, s)
    requires t == s || (t == Reserve(s, candidate) && Reservable(codec, s, candidate))
    ensures DistinctIds(s) && UnusedId(s, candidate.id.completion) ==> DistinctIds(t)
  {
    hide LedgerInv, WellFormed, Admissible;
  }

  // ---- Reusing an id on another Issue ----

  /** An explicit id that some receipt carries never starts anything new. */
  lemma FinishedIdIsGuarded(codec: Codec, state: RunState, request: Request, repo: string)
    requires LedgerInv(codec, state) && request.Explicit()
    ensures FindReplay(codec, request, repo, state) == Ok(None) <==>
      forall k | k in state.receipts :: k.completion != request.completion.value
  {
    hide LedgerInv;
    var matches := ReceiptMatches(request, repo, state);
    forall k | k in state.receipts ensures k in matches <==> k.completion == request.completion.value {
      ReceiptIdentity(codec, state, k);
    }
    if k :| k in state.receipts && k.completion == request.completion.value {
      assert k in matches;
    } else {
      assert matches == {};
    }
  }

  // An open completion waits for its handoff while another Issue, which has no completion
  // yet, is about to reserve the same id.
  ghost predicate SharesOpenId(codec: Codec, s: Snapshot, open: Record, held: Option<Active>, candidate: Record) {
    && Holds(s.state, held, open) && open.stage.LabelConfirmed?
    && (forall k | k in s.state.receipts :: k.completion != open.id.completion)
    && candidate.stage.Reserved? && WellFormed(codec, candidate.id)
    && candidate.id.completion == open.id.completion && candidate.id.issue != open.id.issue
    && (forall k | k in s.state.journal :: k.issue != candidate.id.issue)
    && Unposted(codec, s.comments, candidate.id.Key())
    && (candidate.id.issue in s.state.active ==>
          && s.state.active[candidate.id.issue].claim == candidate.id.generation
          && s.state.active[candidate.id.issue].repo == candidate.id.repo
          && s.state.active[candidate.id.issue].owner == candidate.id.owner)
  }

  lemma OthersHold(s: RunState, held: Option<Active>, open: Record, record: Record, handoff: bool)
    requires Holds(s, held, open) && record.id.issue != open.id.issue
    requires SaveRecord(s, record, handoff).Some?
    ensures Holds(SaveRecord(s, record, handoff).value, held, open)
  {
  }

  // One save of the second completion; the first one is not touched.
  lemma HoldsAfterSave(codec: Codec, s: Snapshot, held: Option<Active>, record: Record, event: Event,
                       others: Option<Active>, open: Record)
    returns (t: Snapshot)
    requires Holds(s.state, held, record) && Holds(s.state, others, open) && open.id.issue != record.id.issue
    requires match event
      case OutcomeSaved(key, posting) => key == record.id.Key() && record.stage.Reserved?
        && Comment(Some(posting), record.id.payload.body) in CommentsOf(s.comments, key.issue)
      case LabelsSaved(key, observed) => key == record.id.Key() && Settled(observed, record.id.target)
        && (record.stage.OutcomePosted? || record.stage.LabelConfirmed?)
      case HandoffSaved(key) => key == record.id.Key() && record.stage.LabelConfirmed?
      case _ => false
    ensures Step(codec, s, event, t) && Holds(t.state, held, Advanced(record, event)) && t.comments == s.comments
    ensures Holds(t.state, others, open)
    ensures event.HandoffSaved? ==> record.id.Key() in t.state.receipts
  {
    SavedIsStep(codec, s, held, record, event);
    var next := Advanced(record, event);
    SavedHolds(s.state, held, next, event.HandoffSaved?);
    OthersHold(s.state, others, open, next, event.HandoffSaved?);
    t := s.(state := SaveRecord(s.state, next, event.HandoffSaved?).value);
  }

  lemma ReuseIsAccepted(codec: Codec, s: Snapshot, open: Record, others: Option<Active>, candidate: Record, held: Option<Active>,
                        comment: Comment)
    returns (t: Snapshot, u: Snapshot)
    requires SharesOpenId(codec, s, open, others, candidate) && comment.body == candidate.id.payload.body
    requires held == if candidate.id.issue in s.state.active then Some(s.state.active[candidate.id.issue]) else None
    ensures Step(codec, s, ReservationSaved(candidate), t) && Step(codec, t, OutcomePostedAs(candidate.id.Key(), comment), u)
    ensures Holds(u.state, held, candidate) && Holds(u.state, others, open)
    ensures comment in CommentsOf(u.comments, candidate.id.issue)
  {
    hide WellFormed, Unposted;
    t := s.(state := Reserve(s.state, candidate));
    u := t.(comments := Post(t.comments, candidate.id.issue, comment));
  }

  /** Finished ids are guarded, open ones are not: the claimed path lets a second Issue
      reserve the id of an unfinished completion. Once both are handed off, replaying the
      first by its id is refused for ever. */
  lemma SharedIdEndsReplay(codec: Codec, s: Snapshot, open: Record, others: Option<Active>, candidate: Record, posting: Posting,
                           request: Request)
    returns (path: seq<Entry>)
    requires Inv(codec, s) && SharesOpenId(codec, s, open, others, candidate)
    requires Repeats(request, open.id.repo, open.id)
    ensures FindReplay(codec, request.(issue := candidate.id.issue), candidate.id.repo, s.state) == Ok(None)
    ensures Run(codec, s, path) && |path| == 6
    ensures forall more, j | Run(codec, s, path + more) && |path| <= j <= |path + more| ::
      FindReplay(codec, request, open.id.repo, At(s, path + more, j).state) == Err(AmbiguousHistory)
  {
    hide Inv, LedgerInv, WellFormed, FindReplay, SaveRecord, Step, Holds, Settled;
    InvHasLedger(codec, s);
    FinishedIdIsGuarded(codec, s.state, request.(issue := candidate.id.issue), candidate.id.repo);
    var id := candidate.id;
    var other := id.Key();
    TargetAloneIsSettled(id.target);
    var held := if id.issue in s.state.active then Some(s.state.active[id.issue]) else None;
    var comment := Comment(Some(posting), id.payload.body);
    var s1, s2 := ReuseIsAccepted(codec, s, open, others, candidate, held, comment);
    var s3 := HoldsAfterSave(codec, s2, held, candidate, OutcomeSaved(other, posting), others, open);
    var r3 := Advanced(candidate, OutcomeSaved(other, posting));
    var s4 := HoldsAfterSave(codec, s3, held, r3, LabelsSaved(other, {id.target}), others, open);
    var r4 := Advanced(r3, LabelsSaved(other, {id.target}));
    var s5 := HoldsAfterSave(codec, s4, held, r4, HandoffSaved(other), others, open);
    var r5 := Advanced(r4, HandoffSaved(other));
    var s6 := HoldsAfterSave(codec, s5, others, open, HandoffSaved(open.id.Key()), held, r5);
    path := [Entry(ReservationSaved(candidate), s1), Entry(OutcomePostedAs(other, comment), s2),
             Entry(OutcomeSaved(other, posting), s3), Entry(LabelsSaved(other, {id.target}), s4),
             Entry(HandoffSaved(other), s5), Entry(HandoffSaved(open.id.Key()), s6)];
    HeldReceipt(codec, s, path, held, r5);
    HeldIdentity(s.state, others, open);
    forall more, j | Run(codec, s, path + more) && |path| <= j <= |path + more|
      ensures FindReplay(codec, request, open.id.repo, At(s, path + more, j).state) == Err(AmbiguousHistory)
    {
      SharedForEver(codec, s, path, more, j, open.id, other, request);
    }
  }

  lemma HeldIdentity(state: RunState, held: Option<Active>, record: Record)
    requires Holds(state, held, record)
    ensures record.id.Key() in state.journal && state.journal[record.id.Key()] == record
  {
  }

  // A finished record that is still held at the end of a run has its receipt there.
  lemma HeldReceipt(codec: Codec, s: Snapshot, path: seq<Entry>, held: Option<Active>, record: Record)
    requires Inv(codec, s) && Run(codec, s, path) && record.stage.HandedOff?
    requires Holds(At(s, path, |path|).state, held, record)
    ensures record.id.Key() in At(s, path, |path|).state.receipts
  {
    hide Inv, LedgerInv, Step, Run;
    RunKeepsInv(codec, s, path, |path|);
    InvRecord(codec, At(s, path, |path|), record.id.Key());
  }

  lemma SharedForEver(codec: Codec, s: Snapshot, path: seq<Entry>, more: seq<Entry>, j: nat, id: Identity, other: JournalKey,
                      request: Request)
    requires Inv(codec, s) && Run(codec, s, path + more) && |path| <= j <= |path + more|
    requires id.Key() in s.state.journal && s.state.journal[id.Key()].id == id && Repeats(request, id.repo, id)
    requires id.Key() in At(s, path, |path|).state.receipts && other in At(s, path, |path|).state.receipts
    requires other != id.Key() && other.completion == id.completion
    ensures FindReplay(codec, request, id.repo, At(s, path + more, j).state) == Err(AmbiguousHistory)
  {
    hide Inv, LedgerInv, FindReplay, Step, Run;
    var whole := path + more;
    var key := id.Key();
    assert At(s, whole, |path|) == At(s, path, |path|);
    var final := At(s, whole, j).state;
    RunKeepsInv(codec, s, whole, |path|);
    InvHasLedger(codec, At(s, whole, |path|));
    ReceiptIdentity(codec, At(s, whole, |path|).state, key);
    ReceiptIdentity(codec, At(s, whole, |path|).state, other);
    RunProgresses(codec, s, whole, 0, |path|, key);
    RunProgresses(codec, s, whole, |path|, j, key);
    RunProgresses(codec, s, whole, |path|, j, other);
    RunKeepsInv(codec, s, whole, j);
    InvHasLedger(codec, At(s, whole, j));
    ReceiptIdentity(codec, final, key);
    ReplayByIdIff(codec, final, key, request, id.repo);
  }
}
