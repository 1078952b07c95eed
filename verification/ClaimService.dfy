/** Claiming, resuming and amending, step by step over the saved ledger. Worktrees, labels
    and the Issue are outside: every call to them may fail. */
module ClaimService {
  import opened Wrappers
  import opened FootprintPaths
  import opened ClaimOwnership
  import opened ClaimLedger

  datatype ClaimError =
    | CompletionUnfinished | PreflightFailed | Conflicting(conflict: Conflict) | FetchFailed | NotSaved
    | RolledBackPreparation | PreparationFailed | LabelFailed
    | NoSuchClaim | NotUnique | WrongRepository | IssueRejected
    | NotAmendable | NoFootprint | FootprintInvalid(error: FootprintError) | PathInvalid(reason: PathError) | IssueNotUpdated

  datatype Granted = Granted(reservation: Reservation, warnings: seq<Warning>)

  datatype Amendment = Amendment(previous: seq<string>, amended: seq<string>, added: seq<string>,
                                 warnings: seq<Warning>, bodyUpdated: bool)

  class ClaimWorld {
    const reliable: bool
    var disk: Ledger
    ghost const start: Ledger
    ghost var path: seq<Saved>

    constructor (reliable: bool, disk: Ledger)
      requires Exclusive(disk) && DistinctClaims(disk) && AllCanonical(disk)
      ensures Valid() && this.reliable == reliable && this.disk == disk && path == []
    {
      this.reliable, this.disk, this.start, this.path := reliable, disk, disk, [];
    }

    // Everything that was ever saved is a run of the ledger operations.
    ghost predicate Valid()
      reads this
    {
      && Exclusive(start) && DistinctClaims(start) && AllCanonical(start)
      && Run(start, path) && At(start, path, |path|) == disk
    }

    // An atomic replace of the ledger. A failure report may hide a success.
    method Save(ledger: Ledger, ghost event: Event) returns (ok: bool)
      requires Valid() && Step(disk, event, ledger)
      modifies this
      ensures Valid()
      ensures reliable ==> ok
      ensures ok ==> disk == ledger
      ensures disk == old(disk) || disk == ledger
    {
      hide Step, Exclusive, DistinctClaims, AllCanonical, Run;
      var applied: bool, reported: bool := *, *;
      ok := reliable || (applied && reported);
      if reliable || applied {
        ExtendRun(start, path, event, ledger);
        disk := ledger;
        path := path + [Saved(event, ledger)];
      }
    }
  }

  lemma WorldIsExclusive(world: ClaimWorld)
    requires world.Valid()
    ensures Exclusive(world.disk) && DistinctClaims(world.disk)
  {
    hide Exclusive, DistinctClaims, AllCanonical, Run;
    RunKeepsExclusive(world.start, world.path, |world.path|);
    RunKeepsDistinctClaims(world.start, world.path, |world.path|);
  }

  lemma WorldIsCanonical(world: ClaimWorld)
    requires world.Valid()
    ensures forall x | x in world.disk :: Canonical(x.entry.footprint)
  {
    hide Exclusive, DistinctClaims, Canonical, Run;
    RunKeepsCanonical(world.start, world.path, |world.path|);
  }

  // ---- Shared steps ----

  // What becomes of the worktree: it is there, it is refused, or the attempt blew up.
  datatype Preparation = PreparedAt(worktree: string) | Refused | Raised(present: bool)

  // What the procedures learn from outside the ledger: the preflight, the fetch, the worktree
  // and whether it is being taken over, the Issue and its labels, the owner's token, and
  // whether the body of the Issue could be updated.
  datatype Outside = Outside(
    preflight: bool, fetched: bool, preparation: Preparation, takeover: bool, issueOk: bool, labelled: bool,
    authentic: bool, bodyWritten: bool)
  {
    // A new claim whose worktree never came to be.
    predicate Undone() {
      preparation == Raised(false) && !takeover
    }

    predicate Finishes() {
      preparation.PreparedAt? && issueOk && labelled
    }
  }

  lemma PutTwice(ledger: Ledger, key: LedgerKey, first: Reservation, second: Reservation)
    ensures Put(Put(ledger, key, first), key, second) == Put(ledger, key, second)
  {
    hide Put, Remove;
    var k := PutAt(ledger, key, first);
    PutIs(ledger, key, second);
    var once := Put(ledger, key, first);
    var j := PutAt(once, key, second);
    assert once[k] == Slot(key, first) && forall i | 0 <= i < k :: once[i] == ledger[i];
    assert j == k;
  }

  // Later entries of the same reservation.
  predicate Progressed(reservation: Reservation, entry: Reservation) {
    entry == reservation.(worktree := entry.worktree, stage := entry.stage) && StageRank(entry.stage) >= StageRank(reservation.stage)
  }

  // The ledger with this reservation written at its key, at some stage of its progress.
  ghost predicate Reached(before: Ledger, after: Ledger, key: LedgerKey, reservation: Reservation) {
    exists entry :: Progressed(reservation, entry) && after == Put(before, key, entry)
  }

  lemma ReachedNow(before: Ledger, key: LedgerKey, reservation: Reservation, entry: Reservation)
    requires Progressed(reservation, entry)
    ensures Reached(before, Put(before, key, entry), key, reservation)
  {
  }

  lemma ReachedLater(before: Ledger, after: Ledger, key: LedgerKey, reservation: Reservation, entry: Reservation)
    requires Progressed(reservation, entry) && Reached(Put(before, key, entry), after, key, entry)
    ensures Reached(before, after, key, reservation)
  {
    var last :| Progressed(entry, last) && after == Put(Put(before, key, entry), key, last);
    PutTwice(before, key, entry, last);
    assert Progressed(reservation, last);
  }

  /** The worktree is prepared and recorded. A failed preparation of a new claim is rolled
      back, unless a worktree exists or is being taken over; a resume never rolls back. */
  method PrepareAndPersist(world: ClaimWorld, slot: Slot, isResume: bool, outside: Outside)
    returns (prepared: Result<Reservation, ClaimError>)
    requires world.Valid() && slot in world.disk && slot.entry.stage.Reserved?
    requires !isResume ==> slot.key == Number(slot.entry.issue)
    modifies world
    ensures world.Valid()
    ensures prepared.Ok? ==> (
      && prepared.value.stage.ActiveSaved? && Progressed(slot.entry, prepared.value)
      && world.disk == Put(old(world.disk), slot.key, prepared.value))
    ensures prepared.Ok? ==> outside.preparation == PreparedAt(if prepared.value.worktree.Some? then prepared.value.worktree.value else "")
    ensures world.reliable && outside.preparation.PreparedAt? ==> prepared.Ok?
    ensures prepared == Err(RolledBackPreparation) <==> !isResume && outside.Undone()
    ensures prepared == Err(RolledBackPreparation) && world.reliable ==> world.disk == Remove(old(world.disk), slot.key)
    ensures !outside.preparation.PreparedAt? && (isResume || !outside.Undone()) ==> prepared.Err? && world.disk == old(world.disk)
    ensures prepared.Err? ==> (
      || world.disk == old(world.disk)
      || (prepared.error.RolledBackPreparation? && world.disk == Remove(old(world.disk), slot.key))
      || Reached(old(world.disk), world.disk, slot.key, slot.entry))
  {
    hide Exclusive, DistinctClaims, AllCanonical, Run, Reached;
    match outside.preparation
    case Raised(present) =>
      if !isResume && !outside.takeover && !present {
        var rolled := world.Save(Remove(world.disk, slot.key), RolledBack(slot.entry.issue));
        return Err(RolledBackPreparation);
      }
      return Err(PreparationFailed);
    case Refused =>
      return Err(PreparationFailed);
    case PreparedAt(worktree) =>
      var updated := Advance(slot.entry, Some(worktree), ActiveSaved);
      WorldIsExclusive(world);
      ReplaceIsPut(world.disk, slot, updated);
      ReachedNow(world.disk, slot.key, slot.entry, updated);
      var ok := world.Save(ReplaceHeld(world.disk, slot.entry, updated), Prepared(slot.entry, worktree));
      prepared := if ok then Ok(updated) else Err(NotSaved);
  }

  // Labels are written first; the stage is saved last.
  method TransitionLabelsAndFinalize(world: ClaimWorld, slot: Slot, outside: Outside) returns (final: Result<Reservation, ClaimError>)
    requires world.Valid() && slot in world.disk && slot.entry.stage.ActiveSaved?
    modifies world
    ensures world.Valid()
    ensures final.Ok? ==> (
      && final.value == Advance(slot.entry, slot.entry.worktree, Completed)
      && world.disk == Put(old(world.disk), slot.key, final.value))
    ensures final == Err(IssueRejected) <==> !outside.issueOk
    ensures final == Err(LabelFailed) <==> outside.issueOk && !outside.labelled
    ensures !outside.issueOk || !outside.labelled ==> world.disk == old(world.disk)
    ensures final.Err? && outside.issueOk && outside.labelled ==> final.error.NotSaved? && !world.reliable
    ensures final.Err? ==> (
      || world.disk == old(world.disk)
      || world.disk == Put(old(world.disk), slot.key, Advance(slot.entry, slot.entry.worktree, Completed)))
  {
    hide Exclusive, DistinctClaims, AllCanonical, Run;
    if !outside.issueOk {
      return Err(IssueRejected);
    }
    if !outside.labelled {
      return Err(LabelFailed);
    }
    var updated := Advance(slot.entry, slot.entry.worktree, Completed);
    WorldIsExclusive(world);
    ReplaceIsPut(world.disk, slot, updated);
    var ok := world.Save(ReplaceHeld(world.disk, slot.entry, updated), Finalized(slot.entry));
    final := if ok then Ok(updated) else Err(NotSaved);
  }

  // ---- A new claim ----

  // Nothing held excludes the claim, and everything outside goes well.
  ghost predicate Grantable(ledger: Ledger, candidate: Reservation, view: View, blocked: bool, outside: Outside) {
    && !blocked && outside.preflight && outside.fetched && outside.Finishes()
    && Unblocked(candidate, Entries(ledger), view)
  }

  /** A new claim: refused without a trace when anything held excludes it; granted with
      exactly the overlap warnings; and whatever fails on the way touches no other entry. */
  method ClaimNewReservation(world: ClaimWorld, issue: nat, owner: OwnerKind, task: Task, claim: string, repo: string,
                             branch: string, view: View, blocked: bool, outside: Outside)
    returns (granted: Result<Granted, ClaimError>)
    requires world.Valid() && Canonical(task.footprint) && forall x | x in world.disk :: x.entry.claim != claim
    modifies world
    ensures world.Valid()
    ensures
      var candidate := BuildReservation(issue, owner, task, claim, repo, branch);
      && (granted.Ok? ==>
            && Grantable(old(world.disk), candidate, view, blocked, outside)
            && granted.value.reservation.stage.Completed? && Progressed(candidate, granted.value.reservation)
            && granted.value.warnings == WarningsFor(candidate, Entries(old(world.disk)))
            && world.disk == Put(old(world.disk), Number(issue), granted.value.reservation))
      && (granted.Err? ==>
            || world.disk == old(world.disk)
            || world.disk == Remove(Put(old(world.disk), Number(issue), candidate), Number(issue))
            || Reached(old(world.disk), world.disk, Number(issue), candidate))
      && (blocked || !outside.preflight || !outside.fetched || !Unblocked(candidate, Entries(old(world.disk)), view) ==>
            granted.Err? && unchanged(world))
      && (world.reliable && Grantable(old(world.disk), candidate, view, blocked, outside) ==> granted.Ok?)
    ensures world.reliable && outside.Undone() && !Has(old(world.disk), Number(issue)) ==> granted.Err? && world.disk == old(world.disk)
  {
    hide Exclusive, DistinctClaims, AllCanonical, Run, Unblocked, FirstBlocker, Has, Reached, Put, Remove, WarningsFor;
    if blocked {
      return Err(CompletionUnfinished);
    }
    if !outside.preflight {
      return Err(PreflightFailed);
    }
    var candidate := BuildReservation(issue, owner, task, claim, repo, branch);
    var assessment := AssessClaimConflicts(candidate, Entries(world.disk), view);
    if assessment.conflict.Some? {
      return Err(Conflicting(assessment.conflict.value));
    }
    if !outside.fetched {
      return Err(FetchFailed);
    }
    ghost var before := world.disk;
    var key := Number(issue);
    ReachedNow(before, key, candidate, candidate);
    var ok := world.Save(Put(world.disk, key, candidate), Claimed(candidate, view));
    if !ok {
      return Err(NotSaved);
    }
    Members(before, key, candidate);
    var prepared := PrepareAndPersist(world, Slot(key, candidate), false, outside);
    if !Has(before, key) {
      RollbackUndoesClaim(before, key, candidate);
    }
    if prepared.Err? {
      if Reached(Put(before, key, candidate), world.disk, key, candidate) {
        ReachedLater(before, world.disk, key, candidate, candidate);
      }
      return Err(prepared.error);
    }
    var active := prepared.value;
    PutTwice(before, key, candidate, active);
    Members(before, key, active);
    var final := TransitionLabelsAndFinalize(world, Slot(key, active), outside);
    ghost var done := Advance(active, active.worktree, Completed);
    PutTwice(before, key, active, done);
    ReachedNow(before, key, candidate, active);
    ReachedNow(before, key, candidate, done);
    if final.Err? {
      return Err(final.error);
    }
    granted := Ok(Granted(final.value, assessment.warnings));
  }

  // ---- Resuming ----

  function SlotsOf(ledger: Ledger, claim: string): seq<Slot> {
    if ledger == [] then []
    else (if ledger[0].entry.claim == claim then [ledger[0]] else []) + SlotsOf(ledger[1..], claim)
  }

  lemma {:induction false} SlotsOfMembers(ledger: Ledger, claim: string)
    ensures forall x :: x in SlotsOf(ledger, claim) <==> x in ledger && x.entry.claim == claim
  {
    if ledger != [] {
      SlotsOfMembers(ledger[1..], claim);
      assert ledger == [ledger[0]] + ledger[1..];
    }
  }

  // The resumed reservation: the one that holds this claim.
  ghost predicate Resumes(ledger: Ledger, claim: string, slot: Slot) {
    slot in ledger && slot.entry.claim == claim
  }

  // The caller names the Issue of the claim or none, in the claim's repository.
  predicate MayResume(entry: Reservation, issue: nat, repo: string, blocked: bool) {
    !blocked && issue in {0, entry.issue} && entry.repo == repo
  }

  lemma {:induction false} AtMostOneSlot(ledger: Ledger, claim: string)
    requires DistinctClaims(ledger)
    ensures |SlotsOf(ledger, claim)| <= 1
  {
    if ledger != [] {
      assert DistinctClaims(ledger[1..]);
      AtMostOneSlot(ledger[1..], claim);
      SlotsOfMembers(ledger[1..], claim);
      if ledger[0].entry.claim == claim {
        forall x ensures x !in SlotsOf(ledger[1..], claim) {
          assert x in ledger[1..] ==> x.entry.claim != claim;
        }
        NoMembers(SlotsOf(ledger[1..], claim));
      }
    }
  }

  lemma NoMembers(slots: seq<Slot>)
    ensures (forall x :: x !in slots) ==> slots == []
  {
    assert slots != [] ==> slots[0] in slots;
  }

  /** A resume only moves its own reservation forward: it never rolls back, never touches
      another entry, and writes nothing when the claim is already completed. */
  method ResumeClaim(world: ClaimWorld, claim: string, issue: nat, repo: string, blocked: bool, outside: Outside)
    returns (resumed: Result<Reservation, ClaimError>)
    requires world.Valid()
    modifies world
    ensures world.Valid()
    ensures (forall x | x in old(world.disk) :: x.entry.claim != claim) ==> resumed == Err(NoSuchClaim) && unchanged(world)
    ensures forall slot | Resumes(old(world.disk), claim, slot) ::
      && (resumed.Ok? ==>
            && resumed.value.stage.Completed? && Progressed(slot.entry, resumed.value)
            && (issue != 0 ==> slot.entry.issue == issue) && slot.entry.repo == repo
            && world.disk == Put(old(world.disk), slot.key, resumed.value))
      && (slot.entry.stage.Completed? ==> unchanged(world))
      && (!MayResume(slot.entry, issue, repo, blocked) ==> resumed.Err? && unchanged(world))
      && (resumed.Ok? && !slot.entry.stage.Completed? ==>
            outside.issueOk && outside.labelled && (slot.entry.stage.Reserved? ==> outside.preparation.PreparedAt?))
      && (world.reliable && MayResume(slot.entry, issue, repo, blocked) && (slot.entry.stage.Completed? || outside.Finishes()) ==>
            resumed.Ok?)
      && (world.disk == old(world.disk) || Reached(old(world.disk), world.disk, slot.key, slot.entry))
  {
    hide Exclusive, DistinctClaims, AllCanonical, Run, Reached, Put, Remove;
    var matching := SlotsOf(world.disk, claim);
    SlotsOfMembers(world.disk, claim);
    WorldIsExclusive(world);
    AtMostOneSlot(world.disk, claim);
    if matching == [] {
      return Err(NoSuchClaim);
    }
    var slot := matching[0];
    assert slot in matching;
    OnlySlotOfClaim(world.disk, slot);
    if |matching| != 1 || (issue != 0 && slot.entry.issue != issue) {
      return Err(NotUnique);
    }
    if blocked {
      return Err(CompletionUnfinished);
    }
    if slot.entry.repo != repo {
      return Err(WrongRepository);
    }
    ghost var before := world.disk;
    if slot.entry.stage.Completed? {
      PutSame(world.disk, slot);
      return Ok(slot.entry);
    }
    if !outside.issueOk {
      return Err(IssueRejected);
    }
    var active := slot.entry;
    if active.stage.Reserved? {
      var prepared := PrepareAndPersist(world, slot, true, outside);
      if prepared.Err? {
        return Err(prepared.error);
      }
      active := prepared.value;
    } else {
      PutSame(world.disk, slot);
    }
    ghost var done := Advance(active, active.worktree, Completed);
    Members(before, slot.key, active);
    PutTwice(before, slot.key, active, done);
    ReachedNow(before, slot.key, slot.entry, active);
    ReachedNow(before, slot.key, slot.entry, done);
    resumed := TransitionLabelsAndFinalize(world, Slot(slot.key, active), outside);
  }

  lemma PutSame(ledger: Ledger, slot: Slot)
    requires Exclusive(ledger) && slot in ledger
    ensures Put(ledger, slot.key, slot.entry) == ledger
  {
    hide Compatible;
    var k := PutAt(ledger, slot.key, slot.entry);
    var i :| 0 <= i < |ledger| && ledger[i] == slot;
    assert i == k;
  }

  // ---- Amending the footprint ----

  // The first entry that holds the Issue.
  function FindHeld(ledger: Ledger, issue: nat): (found: Option<Slot>)
    ensures found.None? ==> forall x | x in ledger :: x.entry.issue != issue
    ensures found.Some? ==> found.value in ledger && found.value.entry.issue == issue
  {
    if ledger == [] then None
    else if ledger[0].entry.issue == issue then Some(ledger[0])
    else
      assert ledger == [ledger[0]] + ledger[1..];
      FindHeld(ledger[1..], issue)
  }

  // Only a completed claim with a footprint, whose completion has not begun, is amended, and
  // only by its owner, in its repository and for an Issue that passes the checks.
  predicate Permitted(entry: Reservation, repo: string, outside: Outside) {
    && entry.stage == Completed && entry.kind == FootprintOnly && !entry.completing && entry.repo == repo
    && outside.authentic && outside.issueOk
  }

  // The accepted amendment of one slot, against all the others.
  ghost predicate AmendedBy(before: Ledger, slot: Slot, amendment: Amendment, declared: seq<string>, adding: seq<string>,
                            changed: seq<string>, view: View, apply: bool) {
    && amendment.previous == slot.entry.footprint
    && amendment.amended == Amended(slot.entry.footprint, declared, adding, changed)
    && amendment.amended == slot.entry.footprint + amendment.added
    && Unblocked(slot.entry.(footprint := amendment.amended), Entries(Remove(before, slot.key)), view)
    && amendment.warnings == WarningsFor(slot.entry.(footprint := amendment.amended), Entries(Remove(before, slot.key)))
    && (amendment.bodyUpdated <==> apply && exists p :: p in amendment.amended && p !in declared)
  }

  /** An accepted amendment extends the held footprint and nothing else, was checked
      against every other reservation, and warns about exactly the overlaps; a refused one
      leaves the ledger as it was. */
  method AmendFootprint(world: ClaimWorld, issue: nat, repo: string, raw: RawFootprint, addPaths: seq<string>,
                        changed: seq<string>, view: View, apply: bool, outside: Outside)
    returns (amendment: Result<Amendment, ClaimError>)
    requires world.Valid()
    modifies world
    ensures world.Valid()
    ensures FindHeld(old(world.disk), issue).None? ==> amendment == Err(NoSuchClaim)
    ensures amendment.Ok? ==>
      var slot := FindHeld(old(world.disk), issue);
      && slot.Some? && Permitted(slot.value.entry, repo, outside)
      && ParseFootprint(raw).Ok? && ValidateAddPaths(addPaths).Ok?
      && AmendedBy(old(world.disk), slot.value, amendment.value, ParseFootprint(raw).value, ValidateAddPaths(addPaths).value, changed, view, apply)
      && world.disk ==
           if apply then Put(old(world.disk), slot.value.key, slot.value.entry.(footprint := amendment.value.amended))
           else old(world.disk)
    ensures amendment.Err? && !amendment.error.NotSaved? ==> world.disk == old(world.disk)
    ensures world.reliable ==> (amendment.Ok? <==>
      var slot := FindHeld(old(world.disk), issue);
      && slot.Some? && Permitted(slot.value.entry, repo, outside)
      && ParseFootprint(raw).Ok? && ParseFootprint(raw).value != [] && ValidateAddPaths(addPaths).Ok?
      && var amended := Amended(slot.value.entry.footprint, ParseFootprint(raw).value, ValidateAddPaths(addPaths).value, changed);
         && Unblocked(slot.value.entry.(footprint := amended), Entries(Remove(old(world.disk), slot.value.key)), view)
         && (apply && (exists p :: p in amended && p !in ParseFootprint(raw).value) ==> outside.bodyWritten))
    ensures !apply ==> world.disk == old(world.disk)
  {
    hide Exclusive, DistinctClaims, AllCanonical, Run, Reached, Put, Remove, Unblocked, FirstBlocker, Canonicalize, Canonical, WarningsFor, ParseFootprint;
    var found := FindHeld(world.disk, issue);
    if found.None? {
      return Err(NoSuchClaim);
    }
    var slot := found.value;
    if !Amendable(slot.entry) {
      return Err(NotAmendable);
    }
    if slot.entry.repo != repo {
      return Err(WrongRepository);
    }
    if !outside.authentic || !outside.issueOk {
      return Err(IssueRejected);
    }
    var declared := ParseFootprintValue(raw);
    if declared.Err? {
      return Err(FootprintInvalid(declared.error));
    }
    if declared.value == [] {
      return Err(NoFootprint);
    }
    var adding := ValidateAddPaths(addPaths);
    if adding.Err? {
      return Err(PathInvalid(adding.error));
    }
    var held := slot.entry.footprint;
    var amended := CanonicalizeFootprint(held + declared.value + adding.value + changed);
    WorldIsCanonical(world);
    AmendExtendsHeld(held, declared.value, adding.value, changed);
    var added := amended[|held|..];
    assert amended == held + added;
    var candidate := slot.entry.(footprint := amended);
    var others := Remove(world.disk, slot.key);
    var assessment := AssessClaimConflicts(candidate, Entries(others), view);
    if assessment.conflict.Some? {
      return Err(Conflicting(assessment.conflict.value));
    }
    var updates := exists p | p in amended :: p !in declared.value;
    var result := Amendment(held, amended, added, assessment.warnings, apply && updates);
    assert AmendedBy(world.disk, slot, result, declared.value, adding.value, changed, view, apply);
    if !apply {
      return Ok(result);
    }
    if updates && !outside.bodyWritten {
      return Err(IssueNotUpdated);
    }
    var ok := world.Save(Put(world.disk, slot.key, candidate), AmendedTo(slot, amended, view));
    amendment := if ok then Ok(result) else Err(NotSaved);
  }
}
