/** Reserving a completion, resuming one, and the journal-only updates, under the
    common ledger lock. */
module CompletionJournal {
  import opened Wrappers
  import opened CompletionRecords
  import opened StatusLabels
  import opened CompletionRuns
  import opened CompletionWorld

  datatype JournalError =
    | RepositoryMismatch | GenerationMismatch | ConcurrentCompletion | OwnerMismatch | FingerprintMismatch
    | InvalidStageTransition | InvalidState | StateSaveFailed | EvidenceMissing | ReservationNotFound
    | LabelConflict

  // ---- Checks ----

  // The first field, in the order of the checks, on which two identities differ.
  function IdentityMismatch(candidate: Identity, persisted: Identity): (reason: Option<JournalError>)
    requires candidate.issue == persisted.issue
    ensures reason.None? <==> candidate == persisted
  {
    if candidate.repo != persisted.repo then Some(RepositoryMismatch)
    else if candidate.generation != persisted.generation then Some(GenerationMismatch)
    else if candidate.completion != persisted.completion then Some(ConcurrentCompletion)
    else if candidate.owner != persisted.owner then Some(OwnerMismatch)
    else if candidate.fingerprint != persisted.fingerprint then Some(FingerprintMismatch)
    else if candidate.verdict != persisted.verdict then Some(InvalidStageTransition)
    else if candidate.target != persisted.target || candidate.payload != persisted.payload then Some(ConcurrentCompletion)
    else None
  }

  function ReservationMismatch(reservation: Identity, candidate: Identity): (reason: Option<JournalError>)
    requires reservation.issue == candidate.issue
    ensures reason.None? <==> reservation == candidate
  {
    if reservation.repo != candidate.repo then Some(RepositoryMismatch)
    else if reservation.generation != candidate.generation then Some(GenerationMismatch)
    else if reservation.completion != candidate.completion then Some(ConcurrentCompletion)
    else if reservation.fingerprint != candidate.fingerprint then Some(FingerprintMismatch)
    else if reservation.owner != candidate.owner then Some(OwnerMismatch)
    else if reservation.verdict != candidate.verdict || reservation.target != candidate.target
            || reservation.payload != candidate.payload then Some(ConcurrentCompletion)
    else None
  }

  // What one existing record says against a new candidate.
  function Objection(state: RunState, k: JournalKey, candidate: Identity): Option<JournalError>
    requires k in state.journal
  {
    var value := state.journal[k];
    if value.id.issue != candidate.issue then None
    else if value.id.repo != candidate.repo then Some(RepositoryMismatch)
    else if value.id.generation != candidate.generation then
      if Durable(state, k) then None else Some(GenerationMismatch)
    else if k != candidate.Key() then Some(ConcurrentCompletion)
    else None
  }

  // The journal is read in no particular order; any objection ends the scan.
  method ScanJournal(state: RunState, candidate: Identity) returns (reason: Option<JournalError>)
    ensures reason.Some? ==> exists k :: k in state.journal && Objection(state, k, candidate) == reason
    ensures reason.None? ==> forall k | k in state.journal :: Objection(state, k, candidate).None?
  {
    var pending := state.journal.Keys;
    while pending != {}
      invariant pending <= state.journal.Keys
      invariant forall k | k in state.journal && k !in pending :: Objection(state, k, candidate).None?
      decreases |pending|
    {
      var k :| k in pending;
      reason := Objection(state, k, candidate);
      if reason.Some? {
        return;
      }
      pending := pending - {k};
    }
    reason := None;
  }

  /** Objections of a scanned ledger are exactly what makes the candidate inadmissible. */
  lemma NoObjectionIffAdmissible(codec: Codec, state: RunState, candidate: Identity)
    requires LedgerInv(codec, state) && candidate.Key() !in state.journal
    ensures (forall k | k in state.journal :: Objection(state, k, candidate).None?) <==> Admissible(state, candidate.Key())
  {
    hide RecordOk, Apart, WellFormed, Durable;
    var key := candidate.Key();
    assert forall k | k in state.journal :: state.journal[k].id.Key() == k;
    if Admissible(state, key) {
      forall k | k in state.journal ensures Objection(state, k, candidate).None? {
      }
    } else {
      var k :| k in state.journal && k.issue == key.issue
        && !(k.repo == key.repo && k.generation != key.generation && Durable(state, k));
      assert state.journal[k].id.Key() == k;
      assert Objection(state, k, candidate).Some?;
    }
  }

  function AllowTerminalReplacement(state: RunState, reservation: Identity, candidate: Identity): Option<JournalError> {
    if reservation.repo != candidate.repo || reservation.issue != candidate.issue then Some(RepositoryMismatch)
    else if reservation.Key() !in state.journal then Some(InvalidState)
    else
      var previous := state.journal[reservation.Key()].id;
      if reservation.owner != previous.owner || reservation.fingerprint != previous.fingerprint
         || reservation.verdict != previous.verdict || reservation.target != previous.target
         || reservation.payload != previous.payload then Some(InvalidState)
      else if !Durable(state, reservation.Key()) then Some(GenerationMismatch)
      else None
  }

  function ResumeReserved(candidate: Record, current: Option<Record>, reservation: Identity): Result<Record, JournalError>
    requires reservation.issue == candidate.id.issue
    requires current.Some? ==> current.value.id.issue == candidate.id.issue
  {
    var reason := ReservationMismatch(reservation, candidate.id);
    if reason.Some? then Err(reason.value)
    else if current.None? then Err(StateSaveFailed)
    else
      var mismatch := IdentityMismatch(candidate.id, current.value.id);
      if mismatch.Some? then Err(mismatch.value) else Ok(current.value)
  }

  // ---- Reserving ----

  // The candidate is the completion the Issue is reserved for.
  predicate Resumable(state: RunState, id: Identity) {
    var key := id.Key().Reservation();
    key in state.reservations && state.reservations[key] == id
  }

  lemma ResumableIsJournaled(codec: Codec, state: RunState, id: Identity)
    requires LedgerInv(codec, state) && Resumable(state, id)
    ensures id.Key() in state.journal && state.journal[id.Key()].id == id
  {
    hide RecordOk, Apart, WellFormed;
  }

  // Within one generation the reservation and the journal agree on the completion.
  lemma SameGenerationSameKey(codec: Codec, state: RunState, id: Identity)
    requires LedgerInv(codec, state) && id.Key().Reservation() in state.reservations
    requires state.reservations[id.Key().Reservation()].generation == id.generation
    ensures id.Key() in state.journal ==>
      state.reservations[id.Key().Reservation()] == state.journal[id.Key()].id
    ensures id.Key() !in state.journal ==> !Admissible(state, id.Key())
  {
    hide RecordOk, WellFormed, Durable;
    var r := id.Key().Reservation();
    var k := state.reservations[r].Key();
    assert state.reservations[r].Key().Reservation() == r && k in state.journal;
    if id.Key() in state.journal {
      assert Apart(k, id.Key());
    }
  }

  // A record without its Issue reservation does not exist.
  lemma JournaledIsReserved(codec: Codec, state: RunState, id: Identity)
    requires LedgerInv(codec, state)
    ensures id.Key() in state.journal ==> id.Key().Reservation() in state.reservations
    ensures forall r | r in state.reservations :: state.reservations[r].Key().Reservation() == r
    ensures forall k | k in state.journal :: state.journal[k].id.Key() == k
  {
    hide RecordOk, WellFormed, Apart;
  }

  /** The reservation of the Issue may be replaced exactly when its completion is durable, as
      every completion of the Issue is for a candidate that is admitted. */
  lemma ReplacementFollowsAdmission(codec: Codec, state: RunState, id: Identity)
    requires LedgerInv(codec, state) && id.Key().Reservation() in state.reservations
    ensures var held := state.reservations[id.Key().Reservation()];
      && held.Key() in state.journal
      && (AllowTerminalReplacement(state, held, id).None? <==> Durable(state, held.Key()))
      && (Admissible(state, id.Key()) ==> Durable(state, held.Key()))
  {
    hide RecordOk, WellFormed, Apart, Durable;
    var r := id.Key().Reservation();
    var k := state.reservations[r].Key();
    assert k.Reservation() == r && k in state.journal && state.journal[k].id == state.reservations[r];
  }

  method ReserveCompletion(world: World, candidate: Record) returns (reserved: Result<Record, JournalError>)
    requires world.Valid()
    requires WellFormed(world.codec, candidate.id)
    modifies world`disk, world`path
    ensures world.Valid()
    // An accepted candidate is resumed as it stands, or is the one new entry of the log.
    ensures reserved.Ok? ==> reserved.value.id == candidate.id && Resumable(world.disk, candidate.id)
    ensures reserved.Ok? ==>
      candidate.id.Key() in world.disk.journal && world.disk.journal[candidate.id.Key()] == reserved.value
    ensures reserved.Ok? ==> (
      || (world.disk == old(world.disk) && world.path == old(world.path) && Resumable(old(world.disk), candidate.id))
      || (reserved.value == candidate && Reservable(world.codec, old(world.disk), candidate)
          && world.disk == Reserve(old(world.disk), candidate)
          && world.path == old(world.path) + [Entry(ReservationSaved(candidate), world.Snap())]))
    // A refusal writes nothing; only an unclear save may still have reserved it.
    ensures reserved.Err? ==> (
      || (world.disk == old(world.disk) && world.path == old(world.path))
      || (reserved.error.StateSaveFailed? && Reservable(world.codec, old(world.disk), candidate)
          && world.disk == Reserve(old(world.disk), candidate)
          && world.path == old(world.path) + [Entry(ReservationSaved(candidate), world.Snap())]))
    // With working storage, acceptance is exactly resumability or admissibility.
    ensures world.calm ==> (reserved.Ok? <==>
      candidate.stage.Reserved? && (Resumable(old(world.disk), candidate.id) || Reservable(world.codec, old(world.disk), candidate)))
  {
    hide Inv, Run, LedgerInv, Admissible, Objection, WellFormed, AllowTerminalReplacement;
    if !candidate.stage.Reserved? {
      return Err(InvalidStageTransition);
    }
    var state := world.disk;
    var key := candidate.id.Key();
    assert LedgerInv(world.codec, state) by {
      WorldInv(world);
      InvHasLedger(world.codec, world.Snap());
    }
    JournaledIsReserved(world.codec, state, candidate.id);
    if Resumable(state, candidate.id) {
      ResumableIsJournaled(world.codec, state, candidate.id);
    }
    var current := None;
    if key in state.journal {
      current := Some(state.journal[key]);
    } else {
      var objection := ScanJournal(state, candidate.id);
      NoObjectionIffAdmissible(world.codec, state, candidate.id);
      if objection.Some? {
        return Err(objection.value);
      }
    }
    var reservationKey := key.Reservation();
    if reservationKey in state.reservations {
      var reservation := state.reservations[reservationKey];
      if reservation.generation == candidate.id.generation {
        SameGenerationSameKey(world.codec, state, candidate.id);
        return ResumeReserved(candidate, current, reservation);
      }
      if Admissible(state, key) {
        ReplacementFollowsAdmission(world.codec, state, candidate.id);
      }
      var refused := AllowTerminalReplacement(state, reservation, candidate.id);
      if refused.Some? {
        return Err(refused.value);
      }
      if current.Some? {
        return Err(InvalidState);
      }
    }
    // A journal record always has its Issue reservation.
    assert current.None?;
    var ok := world.Save(Reserve(state, candidate), ReservationSaved(candidate));
    reserved := if ok then Ok(candidate) else Err(StateSaveFailed);
  }

  // ---- Journal-only updates ----

  // The persisted record an update applies to, if it is the reserved one.
  function LoadForUpdate(state: RunState, persisted: Option<Record>, candidate: Identity): Result<Record, JournalError>
    requires persisted.Some? ==> persisted.value.id.issue == candidate.issue
  {
    if persisted.None? then Err(ReservationNotFound)
    else
      var mismatch := IdentityMismatch(candidate, persisted.value.id);
      if mismatch.Some? then Err(mismatch.value)
      else if candidate.Key().Reservation() !in state.reservations then Err(ReservationNotFound)
      else
        var reservation := state.reservations[candidate.Key().Reservation()];
        if reservation.generation != candidate.generation then Err(GenerationMismatch)
        else if reservation.completion != candidate.completion then Err(ConcurrentCompletion)
        else if reservation.fingerprint != candidate.fingerprint then Err(FingerprintMismatch)
        else if reservation.owner != candidate.owner then Err(OwnerMismatch)
        else Ok(persisted.value)
  }

  function Find(state: RunState, key: JournalKey): Option<Record> {
    if key in state.journal then Some(state.journal[key]) else None
  }

  function Rewrite(state: RunState, record: Record): RunState {
    state.(journal := state.journal[record.id.Key() := record])
  }

  function RecordPostingEvidence(state: RunState, candidate: Identity, posting: Posting): Result<RunState, JournalError>
    requires candidate.Key() in state.journal ==> state.journal[candidate.Key()].id.Key() == candidate.Key()
  {
    match LoadForUpdate(state, Find(state, candidate.Key()), candidate)
    case Err(reason) => Err(reason)
    case Ok(persisted) =>
      if !persisted.stage.Reserved? then
        if persisted.posting != Some(posting) then Err(InvalidStageTransition) else Ok(state)
      else Ok(Rewrite(state, persisted.(stage := OutcomePosted, posting := Some(posting))))
  }

  // Only a reconciliation confirms labels, and it does so on settled ones.
  function RecordLabelConfirmation(state: RunState, candidate: Identity, target: string, observed: set<string>):
      Result<RunState, JournalError>
    requires candidate.Key() in state.journal ==> state.journal[candidate.Key()].id.Key() == candidate.Key()
    requires Settled(observed, target)
  {
    if target != candidate.target then Err(LabelConflict)
    else
      match LoadForUpdate(state, Find(state, candidate.Key()), candidate)
      case Err(reason) => Err(reason)
      case Ok(persisted) =>
        if persisted.stage.LabelConfirmed? || persisted.stage.HandedOff? then
          if persisted.observed != Some(observed) then Err(LabelConflict) else Ok(state)
        else if !persisted.stage.OutcomePosted? then Err(InvalidStageTransition)
        else Ok(Rewrite(state, persisted.(stage := LabelConfirmed, observed := Some(observed))))
  }

  function MarkHandoffReady(state: RunState, candidate: Identity): Result<RunState, JournalError>
    requires candidate.Key() in state.journal ==> state.journal[candidate.Key()].id.Key() == candidate.Key()
  {
    match LoadForUpdate(state, Find(state, candidate.Key()), candidate)
    case Err(reason) => Err(reason)
    case Ok(persisted) =>
      if persisted.stage.HandedOff? then
        if Durable(state, candidate.Key()) then Ok(state) else Err(StateSaveFailed)
      else if !persisted.stage.LabelConfirmed? then Err(InvalidStageTransition)
      else
        var done := persisted.(stage := HandedOff);
        Ok(Rewrite(state, done).(receipts := state.receipts[candidate.Key() := done]))
  }

  // An update that moves the record of `key` by one stage and leaves everything else.
  ghost predicate AdvancesOnly(st: RunState, t: RunState, key: JournalKey) {
    && key in st.journal && key in t.journal
    && t.journal == st.journal[key := t.journal[key]]
    && CanTransition(st.journal[key].stage, t.journal[key].stage)
    && Progresses(st.journal[key], t.journal[key])
    && t.reservations == st.reservations && t.active == st.active
    && t.receipts == (if t.journal[key].stage.HandedOff? then st.receipts[key := t.journal[key]] else st.receipts)
  }

  datatype Update = PostingEvidence(posting: Posting) | LabelConfirmation(target: string, observed: set<string>) | HandoffReady

  function ApplyUpdate(state: RunState, candidate: Identity, update: Update): Result<RunState, JournalError>
    requires candidate.Key() in state.journal ==> state.journal[candidate.Key()].id.Key() == candidate.Key()
    requires update.LabelConfirmation? ==> Settled(update.observed, update.target)
  {
    match update
    case PostingEvidence(posting) => RecordPostingEvidence(state, candidate, posting)
    case LabelConfirmation(target, observed) => RecordLabelConfirmation(state, candidate, target, observed)
    case HandoffReady => MarkHandoffReady(state, candidate)
  }

  lemma UpdateAdvancesOnly(st: RunState, id: Identity, update: Update)
    requires id.Key() in st.journal ==> st.journal[id.Key()].id.Key() == id.Key()
    requires update.LabelConfirmation? ==> Settled(update.observed, update.target)
    requires ApplyUpdate(st, id, update).Ok? && ApplyUpdate(st, id, update).value != st
    ensures var t := ApplyUpdate(st, id, update).value;
      AdvancesOnly(st, t, id.Key()) && (RecordOk(st, id.Key()) ==> RecordOk(t, id.Key()))
  {
  }

  /** The journal-only updates follow the stage graph and keep every ledger invariant. */
  lemma UpdateKeepsLedger(codec: Codec, st: RunState, id: Identity, update: Update)
    requires LedgerInv(codec, st)
    requires id.Key() in st.journal ==> st.journal[id.Key()].id.Key() == id.Key()
    requires update.LabelConfirmation? ==> Settled(update.observed, update.target)
    requires ApplyUpdate(st, id, update).Ok?
    ensures var t := ApplyUpdate(st, id, update).value;
      LedgerInv(codec, t) && (t == st || AdvancesOnly(st, t, id.Key()))
  {
    hide Shape, RecordOk, ApplyUpdate;
    var t := ApplyUpdate(st, id, update).value;
    if t != st {
      UpdateAdvancesOnly(st, id, update);
      RewriteKeepsLedger(codec, st, t, id.Key(), t.journal[id.Key()]);
    }
  }

  function StageBefore(update: Update): Stage {
    match update
    case PostingEvidence(_) => Reserved
    case LabelConfirmation(_, _) => OutcomePosted
    case HandoffReady => LabelConfirmed
  }

  /** An update changes the ledger exactly when it names the whole persisted identity and
      the record waits at the stage before it; it then stores the evidence it was given. */
  lemma UpdateAppliesIff(codec: Codec, st: RunState, id: Identity, update: Update)
    requires LedgerInv(codec, st)
    requires id.Key() in st.journal ==> st.journal[id.Key()].id.Key() == id.Key()
    requires update.LabelConfirmation? ==> Settled(update.observed, update.target)
    ensures
      var r := ApplyUpdate(st, id, update);
      (r.Ok? && r.value != st) <==>
        && id.Key() in st.journal && st.journal[id.Key()].id == id
        && st.journal[id.Key()].stage == StageBefore(update)
        && (update.LabelConfirmation? ==> update.target == id.target)
    ensures
      var r := ApplyUpdate(st, id, update);
      r.Ok? ==>
        && id.Key() in r.value.journal
        && (update.PostingEvidence? ==> r.value.journal[id.Key()].posting == Some(update.posting))
        && (update.LabelConfirmation? ==> r.value.journal[id.Key()].observed == Some(update.observed))
        && (update.HandoffReady? ==> Durable(r.value, id.Key()))
  {
    hide Shape;
    if id.Key() in st.journal {
      assert RecordOk(st, id.Key());
    }
  }

  // The update says again what the record already holds.
  predicate Repeated(record: Record, update: Update) {
    match update
    case PostingEvidence(posting) => !record.stage.Reserved? && record.posting == Some(posting)
    case LabelConfirmation(_, observed) => (record.stage.LabelConfirmed? || record.stage.HandedOff?) && record.observed == Some(observed)
    case HandoffReady => record.stage.HandedOff?
  }

  /** An update is accepted exactly for the completion that the Issue is reserved for, at the
      stage before it or again with the same evidence. */
  lemma UpdateAcceptedIff(codec: Codec, st: RunState, id: Identity, update: Update)
    requires LedgerInv(codec, st)
    requires id.Key() in st.journal ==> st.journal[id.Key()].id.Key() == id.Key()
    requires update.LabelConfirmation? ==> Settled(update.observed, update.target)
    ensures ApplyUpdate(st, id, update).Ok? <==>
      && Resumable(st, id) && id.Key() in st.journal
      && (update.LabelConfirmation? ==> update.target == id.target)
      && (st.journal[id.Key()].stage == StageBefore(update) || Repeated(st.journal[id.Key()], update))
  {
    hide Shape;
    if Resumable(st, id) {
      ResumableIsJournaled(codec, st, id);
    }
    if id.Key() in st.journal {
      assert RecordOk(st, id.Key());
      ReservedIs(codec, st, id);
    }
  }

  lemma ReservedIs(codec: Codec, st: RunState, id: Identity)
    requires LedgerInv(codec, st) && id.Key() in st.journal && st.journal[id.Key()].id.Key() == id.Key()
    ensures var r := id.Key().Reservation();
      && r in st.reservations
      && (st.reservations[r].generation == id.generation && st.reservations[r].completion == id.completion ==>
            st.reservations[r] == st.journal[id.Key()].id)
  {
    hide RecordOk, WellFormed, Apart;
    var r := id.Key().Reservation();
    assert st.reservations[r].Key().Reservation() == r;
  }

  // The active entry repeats this very completion.
  predicate Mirrors(st: RunState, key: JournalKey) {
    && key.issue in st.active && st.active[key.issue].mirror.Some?
    && MirrorKey(key.issue, st.active[key.issue], st.active[key.issue].mirror.value) == key
  }

  /** Unlike the publisher, these updates leave the active mirror behind: agreement
      survives an advance exactly when the active entry does not repeat the completion. */
  lemma AdvanceKeepsMirrorsIff(st: RunState, t: RunState, key: JournalKey)
    requires AdvancesOnly(st, t, key)
    requires forall i | i in st.active :: MirrorOk(st, i)
    requires forall k | k in st.journal :: k in st.receipts <==> st.journal[k].stage.HandedOff?
    ensures (forall i | i in t.active :: MirrorOk(t, i)) <==> !Mirrors(st, key)
  {
    if Mirrors(st, key) {
      assert MirrorOk(st, key.issue);
      assert !MirrorOk(t, key.issue);
    } else {
      forall i | i in t.active ensures MirrorOk(t, i) {
        assert MirrorOk(st, i);
      }
    }
  }
}
