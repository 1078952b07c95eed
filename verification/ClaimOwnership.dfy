/** The exclusion rule between a prospective reservation and the active ones. */
module ClaimOwnership {
  import opened Wrappers
  import opened Ordering

  datatype OwnerKind = Interactive | Dispatch

  datatype ReservationKind = FootprintOnly | Repository

  datatype ClaimStage = Reserved | ActiveSaved | Completed

  // What the Issue of a task says about shared contracts.
  datatype Task = Task(writer: bool, contract: Option<string>, footprint: seq<string>)

  type View = nat -> Option<Task>

  datatype Reservation = Reservation(
    issue: nat, footprint: seq<string>, owner: OwnerKind, kind: ReservationKind, stage: ClaimStage,
    forcedSerial: bool, claim: string, repo: string, branch: string, worktree: Option<string>, completing: bool)

  datatype ConflictReason = SameIssue | RepositoryReservation | ForcedSerial | FootprintOverlap | SharedContract

  datatype Warning = Warning(issue: nat, paths: seq<string>, branch: string, worktree: Option<string>)

  // One active reservation against the candidate: a blocking reason, or paths to warn about.
  datatype Verdict = Verdict(reason: Option<ConflictReason>, overlap: seq<string>)

  // A claim without a declared footprint reserves the whole repository.
  function BuildReservation(issue: nat, owner: OwnerKind, task: Task, claim: string, repo: string, branch: string): (r: Reservation)
    ensures r.kind.Repository? <==> task.footprint == []
    ensures r.issue == issue && r.footprint == task.footprint && r.owner == owner && r.claim == claim
    ensures r.stage.Reserved? && !r.forcedSerial && !r.completing && r.worktree.None? && r.repo == repo && r.branch == branch
  {
    Reservation(
      issue, task.footprint, owner, if task.footprint != [] then FootprintOnly else Repository, Reserved,
      false, claim, repo, branch, None, false)
  }

  function Shared(xs: seq<string>, ys: seq<string>): (zs: seq<string>)
    ensures forall z :: z in zs <==> z in xs && z in ys
  {
    if xs == [] then []
    else
      assert xs == [xs[0]] + xs[1..];
      (if xs[0] in ys then [xs[0]] else []) + Shared(xs[1..], ys)
  }

  // The common paths, sorted.
  function Overlap(a: Reservation, b: Reservation): (paths: seq<string>)
    ensures forall p :: p in paths <==> p in a.footprint && p in b.footprint
  {
    SortedSet(Shared(a.footprint, b.footprint))
  }

  predicate ContractsClash(a: Option<Task>, b: Option<Task>) {
    a.Some? && b.Some? && a.value.writer && b.value.writer && a.value.contract.Some? && a.value.contract == b.value.contract
  }

  function ConflictWith(candidate: Reservation, task: Option<Task>, active: Reservation, view: View): Verdict {
    if active.issue == candidate.issue then Verdict(Some(SameIssue), [])
    else if candidate.kind.Repository? || active.kind.Repository? then Verdict(Some(RepositoryReservation), [])
    else
      var overlap := Overlap(candidate, active);
      if active.forcedSerial && overlap != [] then Verdict(Some(ForcedSerial), [])
      else if overlap != [] && !(candidate.owner.Interactive? && active.owner.Interactive?) then Verdict(Some(FootprintOverlap), [])
      else if ContractsClash(task, view(active.issue)) then Verdict(Some(SharedContract), [])
      else Verdict(None, overlap)
  }

  // ---- What the rule means ----

  predicate Overlapping(a: Reservation, b: Reservation) {
    exists p :: p in a.footprint && p in b.footprint
  }

  // The task of the Issue is a writer of this shared contract.
  predicate Writes(view: View, issue: nat, contract: string) {
    view(issue).Some? && view(issue).value.writer && view(issue).value.contract == Some(contract)
  }

  ghost predicate WriteOneContract(view: View, i: nat, j: nat) {
    exists contract :: Writes(view, i, contract) && Writes(view, j, contract)
  }

  lemma ClashIff(view: View, i: nat, j: nat)
    ensures ContractsClash(view(i), view(j)) <==> WriteOneContract(view, i, j)
  {
    if ContractsClash(view(i), view(j)) {
      assert Writes(view, i, view(i).value.contract.value) && Writes(view, j, view(i).value.contract.value);
    }
  }

  // The held reservation excludes the candidate.
  ghost predicate Excludes(active: Reservation, candidate: Reservation, view: View) {
    || active.issue == candidate.issue
    || active.kind.Repository? || candidate.kind.Repository?
    || (Overlapping(active, candidate) && (active.forcedSerial || active.owner.Dispatch? || candidate.owner.Dispatch?))
    || WriteOneContract(view, candidate.issue, active.issue)
  }

  // Two reservations may be held side by side.
  predicate Compatible(a: Reservation, b: Reservation) {
    && a.issue != b.issue
    && a.kind.FootprintOnly? && b.kind.FootprintOnly?
    && (Overlapping(a, b) ==> a.owner.Interactive? && b.owner.Interactive?)
  }

  lemma OverlapMeaning(a: Reservation, b: Reservation)
    ensures Overlap(a, b) != [] <==> Overlapping(a, b)
    ensures Increasing(Overlap(a, b))
  {
    SortedSetIncreasing(Shared(a.footprint, b.footprint));
    var paths := Overlap(a, b);
    assert paths != [] ==> paths[0] in paths;
  }

  /** A pair conflicts exactly when the held side excludes the candidate. */
  lemma ConflictIffExcludes(candidate: Reservation, active: Reservation, view: View)
    ensures ConflictWith(candidate, view(candidate.issue), active, view).reason.Some? <==> Excludes(active, candidate, view)
    ensures ConflictWith(candidate, view(candidate.issue), active, view).reason.None? ==>
      && Compatible(candidate, active) && Compatible(active, candidate)
      && ConflictWith(candidate, view(candidate.issue), active, view).overlap == Overlap(candidate, active)
  {
    hide ContractsClash, WriteOneContract;
    OverlapMeaning(candidate, active);
    ClashIff(view, candidate.issue, active.issue);
  }

  // The reason given for a conflict is the first that holds, in this order.
  ghost predicate Because(reason: ConflictReason, active: Reservation, candidate: Reservation, view: View) {
    match reason
    case SameIssue => active.issue == candidate.issue
    case RepositoryReservation => active.issue != candidate.issue && (active.kind.Repository? || candidate.kind.Repository?)
    case ForcedSerial => Apart(active, candidate) && Overlapping(active, candidate) && active.forcedSerial
    case FootprintOverlap =>
      && Apart(active, candidate) && Overlapping(active, candidate) && !active.forcedSerial
      && (active.owner.Dispatch? || candidate.owner.Dispatch?)
    case SharedContract =>
      && Apart(active, candidate) && WriteOneContract(view, candidate.issue, active.issue)
      && (Overlapping(active, candidate) ==> !active.forcedSerial && active.owner.Interactive? && candidate.owner.Interactive?)
  }

  // Different Issues, neither reserving the whole repository.
  predicate Apart(active: Reservation, candidate: Reservation) {
    active.issue != candidate.issue && active.kind.FootprintOnly? && candidate.kind.FootprintOnly?
  }

  lemma ReasonIs(candidate: Reservation, active: Reservation, view: View, reason: ConflictReason)
    ensures ConflictWith(candidate, view(candidate.issue), active, view).reason == Some(reason) <==> Because(reason, active, candidate, view)
  {
    hide ContractsClash, WriteOneContract;
    OverlapMeaning(candidate, active);
    ClashIff(view, candidate.issue, active.issue);
  }

  /** The rule reads force-serial on the held side alone: the two directions disagree
      exactly for two overlapping interactive reservations of which one is force-serial. */
  lemma AsymmetryIff(a: Reservation, b: Reservation, view: View)
    ensures Excludes(a, b, view) != Excludes(b, a, view) <==>
      && a.issue != b.issue && a.kind.FootprintOnly? && b.kind.FootprintOnly?
      && !WriteOneContract(view, a.issue, b.issue)
      && Overlapping(a, b) && a.owner.Interactive? && b.owner.Interactive?
      && a.forcedSerial != b.forcedSerial
  {
    assert Overlapping(a, b) <==> Overlapping(b, a);
    assert WriteOneContract(view, a.issue, b.issue) <==> WriteOneContract(view, b.issue, a.issue);
  }

  // ---- The scan ----

  datatype Conflict = Conflict(reason: ConflictReason, active: Reservation)

  datatype Assessment = Assessment(conflict: Option<Conflict>, warnings: seq<Warning>)

  // One warning for every overlapping reservation, in order.
  function WarningsFor(candidate: Reservation, actives: seq<Reservation>): seq<Warning> {
    if actives == [] then []
    else
      var init, last := WarningsFor(candidate, actives[..|actives| - 1]), actives[|actives| - 1];
      var overlap := Overlap(candidate, last);
      if overlap == [] then init else init + [Warning(last.issue, overlap, last.branch, last.worktree)]
  }

  // Reservation i is the first one that blocks the candidate.
  ghost predicate FirstBlocker(candidate: Reservation, actives: seq<Reservation>, view: View, i: nat) {
    && i < |actives| && Excludes(actives[i], candidate, view)
    && forall j | 0 <= j < i :: !Excludes(actives[j], candidate, view)
  }

  ghost predicate Unblocked(candidate: Reservation, actives: seq<Reservation>, view: View) {
    forall j | 0 <= j < |actives| :: !Excludes(actives[j], candidate, view)
  }

  /** The scan reports a conflict exactly when some active reservation excludes the
      candidate, and names the first one; otherwise it warns about exactly the overlapping
      ones. */
  method AssessClaimConflicts(candidate: Reservation, actives: seq<Reservation>, view: View) returns (r: Assessment)
    ensures r.conflict.None? <==> Unblocked(candidate, actives, view)
    ensures r.conflict.None? ==> r.warnings == WarningsFor(candidate, actives)
    ensures r.conflict.Some? ==> exists i: nat ::
      && FirstBlocker(candidate, actives, view, i) && r.conflict.value.active == actives[i]
      && Because(r.conflict.value.reason, actives[i], candidate, view)
      && r.warnings == WarningsFor(candidate, actives[..i])
  {
    hide Excludes, ConflictWith, Overlap, Because;
    var task := view(candidate.issue);
    var warnings: seq<Warning> := [];
    for i := 0 to |actives|
      invariant forall j | 0 <= j < i :: !Excludes(actives[j], candidate, view)
      invariant warnings == WarningsFor(candidate, actives[..i])
    {
      var active := actives[i];
      ConflictIffExcludes(candidate, active, view);
      var verdict := ConflictWith(candidate, task, active, view);
      if verdict.reason.Some? {
        ReasonIs(candidate, active, view, verdict.reason.value);
        assert FirstBlocker(candidate, actives, view, i);
        return Assessment(Some(Conflict(verdict.reason.value, active)), warnings);
      }
      assert actives[..i + 1][..i] == actives[..i];
      if verdict.overlap != [] {
        warnings := warnings + [Warning(active.issue, verdict.overlap, active.branch, active.worktree)];
      }
    }
    assert actives[..|actives|] == actives;
    r := Assessment(None, warnings);
  }

  ghost predicate WarnsAbout(w: Warning, candidate: Reservation, active: Reservation) {
    && Overlapping(candidate, active)
    && w.issue == active.issue && w.branch == active.branch && w.worktree == active.worktree
    && Increasing(w.paths) && forall p :: p in w.paths <==> p in candidate.footprint && p in active.footprint
  }

  lemma WarningIsOverlap(w: Warning, candidate: Reservation, active: Reservation)
    ensures WarnsAbout(w, candidate, active) <==>
      Overlap(candidate, active) != [] && w == Warning(active.issue, Overlap(candidate, active), active.branch, active.worktree)
  {
    OverlapMeaning(candidate, active);
    if WarnsAbout(w, candidate, active) {
      IncreasingUnique(w.paths, Overlap(candidate, active));
    }
  }

  /** The warnings of a clean scan are exactly the overlapping reservations, each with the
      sorted intersection of the two footprints. */
  lemma {:induction false} WarningsAreTheOverlaps(candidate: Reservation, actives: seq<Reservation>, w: Warning)
    ensures w in WarningsFor(candidate, actives) <==> exists a :: a in actives && WarnsAbout(w, candidate, a)
  {
    hide WarnsAbout, Overlap, Overlapping;
    if actives != [] {
      var init, last := actives[..|actives| - 1], actives[|actives| - 1];
      assert actives == init + [last];
      WarningsAreTheOverlaps(candidate, init, w);
      WarningIsOverlap(w, candidate, last);
    }
  }
}
