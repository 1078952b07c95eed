/** Takeover of a worktree that a released generation left behind: the receipts of the
    ledger, the claim marker in the worktree, and what every run of claims keeps. The
    branch of a reservation names its Issue, so there is one marker for each Issue. */
module WorktreeTakeover {
  import opened Wrappers

  datatype Phase = PhasePrepared | PhaseActiveSaved | PhaseCompleted

  datatype Reclaim = Reclaim(newClaim: string, phase: Phase, superseded: seq<string>)

  datatype Receipt = Receipt(repo: string, issue: nat, claim: string, reclaim: Option<Reclaim>)

  datatype Stage = StageReserved | StageActiveSaved | StageCompleted

  datatype Active = Active(claim: string, repo: string, stage: Stage)

  // `launched` remembers the claims whose reservation was ever saved as active, so that a
  // provider may have run for them; `used` remembers every claim id.
  datatype State = State(
    receipts: map<string, Receipt>, actives: map<nat, Active>, markers: map<nat, string>,
    launched: set<string>, used: set<string>)

  // ---- Reading the receipts ----

  predicate Concerns(receipt: Receipt, repo: string, issue: nat) {
    receipt.repo == repo && receipt.issue == issue
  }

  predicate MerelyPrepared(receipt: Receipt, claim: string) {
    receipt.reclaim.Some? && receipt.reclaim.value.newClaim == claim && receipt.reclaim.value.phase.PhasePrepared?
  }

  // The receipt of the marker's own generation, else of a takeover it only prepared.
  function MatchingReceipts(receipts: map<string, Receipt>, repo: string, issue: nat, marker: string): set<string> {
    var released := set k | k in receipts && Concerns(receipts[k], repo, issue) && receipts[k].claim == marker;
    if released != {} then released
    else set k | k in receipts && Concerns(receipts[k], repo, issue) && MerelyPrepared(receipts[k], marker)
  }

  // The generations this claim may move the marker away from; None when another claim
  // already took the worktree over.
  function PreviousClaimIds(receipt: Receipt, claim: string): Option<set<string>> {
    if receipt.reclaim.None? || receipt.reclaim.value.newClaim == claim then Some({receipt.claim})
    else if !receipt.reclaim.value.phase.PhasePrepared? then None
    else Some({receipt.claim, receipt.reclaim.value.newClaim})
  }

  // Record a takeover phase; a claim that is replaced is remembered.
  function RecordOn(receipt: Receipt, claim: string, phase: Phase): Receipt {
    var superseded :=
      match receipt.reclaim
      case None => []
      case Some(previous) => previous.superseded + (if previous.newClaim != claim then [previous.newClaim] else []);
    receipt.(reclaim := Some(Reclaim(claim, phase, superseded)))
  }

  // The takeover, if any, that this claim may begin: a receipt and the generations it may
  // take the marker from.
  predicate MayTakeOver(s: State, issue: nat, key: string) {
    && issue in s.actives && s.actives[issue].stage.StageReserved?
    && issue in s.markers && s.markers[issue] != s.actives[issue].claim
    && MatchingReceipts(s.receipts, s.actives[issue].repo, issue, s.markers[issue]) == {key}
    && key in s.receipts && PreviousClaimIds(s.receipts[key], s.actives[issue].claim).Some?
  }

  // The receipt on which a claim has a takeover.
  predicate TakenBy(receipt: Receipt, claim: string) {
    receipt.reclaim.Some? && receipt.reclaim.value.newClaim == claim
  }

  // ---- Steps ----

  datatype Event =
    | Claimed(issue: nat, claim: string, repo: string)
    | Begun(issue: nat, key: string)
    | MarkerMoved(issue: nat, key: string)
    | MarkerCreated(issue: nat)
    | StageSaved(issue: nat)
    // Clean-up and manual recovery.
    | GcReleased(issue: nat, key: string)
    | Dropped(issue: nat)
    | MarkerRemoved(issue: nat)

  function NextStage(stage: Stage): Stage {
    match stage
    case StageReserved => StageActiveSaved
    case _ => StageCompleted
  }

  function PhaseOf(stage: Stage): Phase {
    match stage
    case StageReserved => PhasePrepared
    case StageActiveSaved => PhaseActiveSaved
    case StageCompleted => PhaseCompleted
  }

  // The receipts after the stage of a claim was saved: its takeover, if any, follows.
  function Stamped(receipts: map<string, Receipt>, claim: string, phase: Phase): map<string, Receipt> {
    map k | k in receipts :: if TakenBy(receipts[k], claim) then RecordOn(receipts[k], claim, phase) else receipts[k]
  }

  ghost predicate Step(s: State, e: Event, t: State) {
    match e
    case Claimed(issue, claim, repo) =>
      && issue !in s.actives && claim !in s.used
      && t == s.(actives := s.actives[issue := Active(claim, repo, StageReserved)], used := s.used + {claim})
    case Begun(issue, key) =>
      && MayTakeOver(s, issue, key)
      && t == s.(receipts := s.receipts[key := RecordOn(s.receipts[key], s.actives[issue].claim, PhasePrepared)])
    case MarkerMoved(issue, key) =>
      && issue in s.actives && s.actives[issue].stage.StageReserved? && issue in s.markers
      && key in s.receipts && MerelyPrepared(s.receipts[key], s.actives[issue].claim)
      && Concerns(s.receipts[key], s.actives[issue].repo, issue)
      && (s.markers[issue] == s.receipts[key].claim || s.markers[issue] in s.receipts[key].reclaim.value.superseded)
      && t == s.(markers := s.markers[issue := s.actives[issue].claim])
    case MarkerCreated(issue) =>
      && issue in s.actives && s.actives[issue].stage.StageReserved? && issue !in s.markers
      && t == s.(markers := s.markers[issue := s.actives[issue].claim])
    case StageSaved(issue) =>
      && issue in s.actives && !s.actives[issue].stage.StageCompleted?
      && var active := s.actives[issue].(stage := NextStage(s.actives[issue].stage));
         t == s.(actives := s.actives[issue := active],
                 receipts := Stamped(s.receipts, active.claim, PhaseOf(active.stage)),
                 launched := s.launched + {active.claim})
    case GcReleased(issue, key) =>
      && issue in s.actives && !s.actives[issue].stage.StageReserved? && key !in s.receipts
      && t == s.(actives := s.actives - {issue},
                 receipts := s.receipts[key := Receipt(s.actives[issue].repo, issue, s.actives[issue].claim, None)])
    case Dropped(issue) => t == s.(actives := s.actives - {issue})
    case MarkerRemoved(issue) => t == s.(markers := s.markers - {issue})
  }

  // ---- The invariant ----

  // Nothing about this claim is anywhere but in the past.
  ghost predicate Gone(s: State, claim: string) {
    && claim !in s.launched && claim in s.used
    && (forall i | i in s.actives :: s.actives[i].claim != claim)
    && (forall k | k in s.receipts :: !TakenBy(s.receipts[k], claim) && s.receipts[k].claim != claim)
  }

  ghost predicate ReceiptOk(s: State, k: string)
    requires k in s.receipts
  {
    var receipt := s.receipts[k];
    && receipt.claim in s.launched
    && (receipt.reclaim.Some? ==>
          && receipt.reclaim.value.newClaim in s.used
          && (receipt.reclaim.value.phase.PhasePrepared? <==> receipt.reclaim.value.newClaim !in s.launched)
          && (forall x | x in receipt.reclaim.value.superseded :: Gone(s, x)))
  }

  ghost predicate ActiveOk(s: State, i: nat)
    requires i in s.actives
  {
    var active := s.actives[i];
    && active.claim in s.used
    && (active.stage.StageReserved? <==> active.claim !in s.launched)
    && (forall j | j in s.actives && s.actives[j].claim == active.claim :: j == i)
    && (forall k | k in s.receipts && TakenBy(s.receipts[k], active.claim) ::
          && Concerns(s.receipts[k], active.repo, i)
          && (active.stage.StageCompleted? <==> s.receipts[k].reclaim.value.phase.PhaseCompleted?)
          && (active.stage.StageReserved? && i in s.markers && s.markers[i] != active.claim ==>
                s.markers[i] == s.receipts[k].claim || s.markers[i] in s.receipts[k].reclaim.value.superseded))
  }

  ghost predicate OneReceipt(s: State, j: string, k: string)
    requires j in s.receipts && k in s.receipts
  {
    s.receipts[j].reclaim.Some? && TakenBy(s.receipts[k], s.receipts[j].reclaim.value.newClaim) ==> j == k
  }

  // No two receipts release the same generation, and no released generation is active.
  ghost predicate ReleasedOnce(s: State) {
    && (forall j, k | j in s.receipts && k in s.receipts && s.receipts[j].claim == s.receipts[k].claim :: j == k)
    && (forall i, k | i in s.actives && k in s.receipts :: s.actives[i].claim != s.receipts[k].claim)
  }

  ghost predicate Inv(s: State) {
    Core(s) && ReleasedOnce(s)
  }

  ghost predicate Core(s: State) {
    && s.launched <= s.used
    && (forall k | k in s.receipts :: ReceiptOk(s, k))
    && (forall i | i in s.actives :: ActiveOk(s, i))
    && (forall j, k {:trigger OneReceipt(s, j, k)} | j in s.receipts && k in s.receipts :: OneReceipt(s, j, k))
  }

  // A run may start before anything was ever claimed.
  lemma NothingYet()
    ensures Inv(State(map[], map[], map[], {}, {}))
  {
  }

  // ---- Preservation ----

  lemma GoneMatchesNothing(s: State, repo: string, issue: nat, claim: string)
    ensures Gone(s, claim) ==> MatchingReceipts(s.receipts, repo, issue, claim) == {}
  {
  }

  // A claim that begins a takeover has none yet, or exactly this one.
  lemma BeginsOnItsOwnReceipt(s: State, issue: nat, key: string, k: string)
    requires Core(s) && MayTakeOver(s, issue, key)
    requires k in s.receipts && TakenBy(s.receipts[k], s.actives[issue].claim)
    ensures k == key
  {
    var active := s.actives[issue];
    var marker := s.markers[issue];
    assert ActiveOk(s, issue) && ReceiptOk(s, k);
    var matching := MatchingReceipts(s.receipts, active.repo, issue, marker);
    GoneMatchesNothing(s, active.repo, issue, marker);
    if s.receipts[k].claim == marker {
      assert k in matching;
    }
  }

  // The claim a takeover replaces was never launched, and nothing about it is left.
  lemma ReplacedIsGone(s: State, issue: nat, key: string, t: State)
    requires Core(s) && Step(s, Begun(issue, key), t)
    requires s.receipts[key].reclaim.Some? && s.receipts[key].reclaim.value.newClaim != s.actives[issue].claim
    ensures Gone(t, s.receipts[key].reclaim.value.newClaim)
  {
    var claim := s.receipts[key].reclaim.value.newClaim;
    assert ReceiptOk(s, key) && key in MatchingReceipts(s.receipts, s.actives[issue].repo, issue, s.markers[issue]);
    forall i | i in t.actives ensures t.actives[i].claim != claim {
      assert ActiveOk(s, i);
    }
    forall k | k in t.receipts ensures !TakenBy(t.receipts[k], claim) && t.receipts[k].claim != claim {
      if k != key {
        assert OneReceipt(s, key, k) && ReceiptOk(s, k);
      }
    }
  }

  // What is gone stays gone as long as nothing new names it.
  lemma GoneStays(s: State, t: State, claim: string)
    requires Gone(s, claim) && s.used <= t.used
    requires claim in t.launched ==> claim in s.launched
    requires forall i | i in t.actives && t.actives[i].claim == claim :: i in s.actives && s.actives[i].claim == claim
    requires forall k | k in t.receipts && (TakenBy(t.receipts[k], claim) || t.receipts[k].claim == claim) ::
      k in s.receipts && (TakenBy(s.receipts[k], claim) || s.receipts[k].claim == claim)
    ensures Gone(t, claim)
  {
  }

  lemma BegunReceipts(s: State, issue: nat, key: string, t: State, k: string)
    requires Core(s) && Step(s, Begun(issue, key), t) && k in t.receipts
    ensures ReceiptOk(t, k)
  {
    var claim := s.actives[issue].claim;
    assert ActiveOk(s, issue) && ReceiptOk(s, k) && ReceiptOk(s, key);
    if t.receipts[k].reclaim.Some? {
      forall x | x in t.receipts[k].reclaim.value.superseded ensures Gone(t, x) {
        if s.receipts[k].reclaim.Some? && x in s.receipts[k].reclaim.value.superseded {
          assert x != claim;
          GoneStays(s, t, x);
        } else {
          ReplacedIsGone(s, issue, key, t);
        }
      }
    }
  }

  lemma BegunActives(s: State, issue: nat, key: string, t: State, i: nat)
    requires Core(s) && Step(s, Begun(issue, key), t) && i in t.actives
    ensures ActiveOk(t, i)
  {
    hide ReceiptOk, OneReceipt;
    assert ActiveOk(s, issue) && ActiveOk(s, i);
    var claim := s.actives[issue].claim;
    if i == issue {
      assert key in MatchingReceipts(s.receipts, s.actives[issue].repo, issue, s.markers[issue]);
      forall k | k in t.receipts && TakenBy(t.receipts[k], claim) ensures k == key {
        if k != key {
          BeginsOnItsOwnReceipt(s, issue, key, k);
        }
      }
    }
  }

  lemma BegunKeeps(s: State, issue: nat, key: string, t: State)
    requires Core(s) && Step(s, Begun(issue, key), t)
    ensures Core(t)
  {
    hide ReceiptOk, ActiveOk;
    forall k | k in t.receipts ensures ReceiptOk(t, k) {
      BegunReceipts(s, issue, key, t, k);
    }
    forall i | i in t.actives ensures ActiveOk(t, i) {
      BegunActives(s, issue, key, t, i);
    }
    forall j, k | j in t.receipts && k in t.receipts ensures OneReceipt(t, j, k) {
      assert OneReceipt(s, j, k);
      if j != k && t.receipts[j].reclaim.Some? && TakenBy(t.receipts[k], t.receipts[j].reclaim.value.newClaim) {
        BeginsOnItsOwnReceipt(s, issue, key, if j == key then k else j);
      }
    }
  }

  lemma ClaimedKeeps(s: State, issue: nat, claim: string, repo: string, t: State)
    requires Core(s) && Step(s, Claimed(issue, claim, repo), t)
    ensures Core(t)
  {
    forall k | k in t.receipts ensures ReceiptOk(t, k) {
      assert ReceiptOk(s, k);
      if t.receipts[k].reclaim.Some? {
        forall x | x in t.receipts[k].reclaim.value.superseded ensures Gone(t, x) {
          GoneStays(s, t, x);
        }
      }
    }
    forall i | i in t.actives ensures ActiveOk(t, i) {
      if i in s.actives && i != issue {
        assert ActiveOk(s, i);
      } else {
        forall j | j in s.actives ensures s.actives[j].claim != claim { assert ActiveOk(s, j); }
        forall k | k in s.receipts ensures !TakenBy(s.receipts[k], claim) { assert ReceiptOk(s, k); }
      }
    }
    forall j, k | j in t.receipts && k in t.receipts ensures OneReceipt(t, j, k) {
      assert OneReceipt(s, j, k);
    }
  }

  // Moving, creating and removing markers, and dropping claims, change no receipt.
  lemma MarkerAndDropKeep(s: State, e: Event, t: State)
    requires Core(s) && Step(s, e, t)
    requires e.MarkerMoved? || e.MarkerCreated? || e.MarkerRemoved? || e.Dropped?
    ensures Core(t)
  {
    forall k | k in t.receipts ensures ReceiptOk(t, k) {
      assert ReceiptOk(s, k);
      if t.receipts[k].reclaim.Some? {
        forall x | x in t.receipts[k].reclaim.value.superseded ensures Gone(t, x) {
          GoneStays(s, t, x);
        }
      }
    }
    forall i | i in t.actives ensures ActiveOk(t, i) {
      assert ActiveOk(s, i);
    }
    forall j, k | j in t.receipts && k in t.receipts ensures OneReceipt(t, j, k) {
      assert OneReceipt(s, j, k);
    }
  }

  lemma ReleasedKeeps(s: State, issue: nat, key: string, t: State)
    requires Core(s) && Step(s, GcReleased(issue, key), t)
    ensures Core(t)
  {
    assert ActiveOk(s, issue);
    forall k | k in t.receipts ensures ReceiptOk(t, k) {
      if k != key {
        assert ReceiptOk(s, k);
        if t.receipts[k].reclaim.Some? {
          forall x | x in t.receipts[k].reclaim.value.superseded ensures Gone(t, x) {
            GoneStays(s, t, x);
          }
        }
      }
    }
    forall i | i in t.actives ensures ActiveOk(t, i) {
      assert ActiveOk(s, i);
    }
    forall j, k | j in t.receipts && k in t.receipts ensures OneReceipt(t, j, k) {
      assert j in s.receipts && k in s.receipts ==> OneReceipt(s, j, k);
    }
  }

  lemma StagedReceipts(s: State, issue: nat, t: State, k: string)
    requires Core(s) && Step(s, StageSaved(issue), t) && k in t.receipts
    ensures ReceiptOk(t, k)
  {
    assert ReceiptOk(s, k) && ActiveOk(s, issue);
    if t.receipts[k].reclaim.Some? {
      assert t.receipts[k].reclaim.value.superseded == s.receipts[k].reclaim.value.superseded;
      forall x | x in t.receipts[k].reclaim.value.superseded ensures Gone(t, x) {
        assert x != s.actives[issue].claim;
        GoneStays(s, t, x);
      }
    }
  }

  lemma StagedKeeps(s: State, issue: nat, t: State)
    requires Core(s) && Step(s, StageSaved(issue), t)
    ensures Core(t)
  {
    hide Gone;
    assert ActiveOk(s, issue);
    forall k | k in t.receipts ensures ReceiptOk(t, k) {
      StagedReceipts(s, issue, t, k);
    }
    forall i | i in t.actives ensures ActiveOk(t, i) {
      assert ActiveOk(s, i);
    }
    forall j, k | j in t.receipts && k in t.receipts ensures OneReceipt(t, j, k) {
      assert OneReceipt(s, j, k);
    }
  }

  lemma StepKeepsReleases(s: State, e: Event, t: State)
    requires Inv(s) && Step(s, e, t)
    ensures ReleasedOnce(t)
  {
    hide Inv, Step;
    forall j, k | j in t.receipts && k in t.receipts && t.receipts[j].claim == t.receipts[k].claim ensures j == k {
      TwoReleases(s, e, t, j, k);
    }
    forall i, k | i in t.actives && k in t.receipts ensures t.actives[i].claim != t.receipts[k].claim {
      ActiveIsNotReleased(s, e, t, i, k);
    }
  }

  lemma TwoReleases(s: State, e: Event, t: State, j: string, k: string)
    requires Inv(s) && Step(s, e, t) && j in t.receipts && k in t.receipts && t.receipts[j].claim == t.receipts[k].claim
    ensures j == k
  {
    hide Core, Step;
    ReceiptsComeFrom(s, e, t, j);
    ReceiptsComeFrom(s, e, t, k);
  }

  lemma ActiveIsNotReleased(s: State, e: Event, t: State, i: nat, k: string)
    requires Inv(s) && Step(s, e, t) && i in t.actives && k in t.receipts
    ensures t.actives[i].claim != t.receipts[k].claim
  {
    ClaimsAreUsed(s);
    hide Core, Step;
    ReceiptsComeFrom(s, e, t, k);
    ActivesComeFrom(s, e, t, i);
    StepKeepsUsed(s, e, t, k);
  }

  // Only an active claim, which is used, is released.
  lemma StepKeepsUsed(s: State, e: Event, t: State, k: string)
    requires Step(s, e, t) && k in t.receipts
    ensures e.Claimed? ==> k in s.receipts && t.receipts[k].claim == s.receipts[k].claim
  {
    hide MayTakeOver, Stamped;
  }

  // Where a generation on a receipt, or an active claim, was before the step.
  predicate FromReceipt(s: State, e: Event, t: State, k: string)
    requires k in t.receipts
  {
    || (k in s.receipts && t.receipts[k].claim == s.receipts[k].claim)
    || (e.GcReleased? && e.key == k && e.issue in s.actives && e.issue !in t.actives && t.receipts[k].claim == s.actives[e.issue].claim)
  }

  predicate FromActive(s: State, e: Event, t: State, i: nat)
    requires i in t.actives
  {
    || (i in s.actives && t.actives[i].claim == s.actives[i].claim)
    || (e.Claimed? && t.actives[i].claim !in s.used)
  }

  lemma ReceiptsComeFrom(s: State, e: Event, t: State, k: string)
    requires Step(s, e, t) && k in t.receipts
    ensures FromReceipt(s, e, t, k)
  {
  }

  lemma ActivesComeFrom(s: State, e: Event, t: State, i: nat)
    requires Step(s, e, t) && i in t.actives
    ensures FromActive(s, e, t, i)
  {
    hide MayTakeOver, Stamped;
  }

  lemma ClaimsAreUsed(s: State)
    requires Core(s)
    ensures forall k | k in s.receipts :: s.receipts[k].claim in s.used
    ensures forall i, j | i in s.actives && j in s.actives && s.actives[i].claim == s.actives[j].claim :: i == j
  {
    hide Gone;
    forall k | k in s.receipts ensures s.receipts[k].claim in s.used {
      assert ReceiptOk(s, k);
    }
    forall i, j | i in s.actives && j in s.actives && s.actives[i].claim == s.actives[j].claim ensures i == j {
      assert ActiveOk(s, i);
    }
  }

  /** Every step keeps the invariant. */
  lemma StepKeepsInv(s: State, e: Event, t: State)
    requires Inv(s) && Step(s, e, t)
    ensures Inv(t)
  {
    StepKeepsReleases(s, e, t);
    hide Core, ReleasedOnce, Step;
    match e
    case Claimed(issue, claim, repo) => ClaimedKeeps(s, issue, claim, repo, t);
    case Begun(issue, key) => BegunKeeps(s, issue, key, t);
    case StageSaved(issue) => StagedKeeps(s, issue, t);
    case GcReleased(issue, key) => ReleasedKeeps(s, issue, key, t);
    case _ => MarkerAndDropKeep(s, e, t);
  }

  // ---- One step of a receipt ----

  function PhaseRank(phase: Phase): nat {
    match phase
    case PhasePrepared => 0
    case PhaseActiveSaved => 1
    case PhaseCompleted => 2
  }

  // A takeover only moves forward: a saved one keeps its claim for ever, a prepared one
  // may be replaced, and whoever is replaced is kept.
  predicate Follows(before: Option<Reclaim>, after: Option<Reclaim>) {
    before.Some? ==>
      && after.Some?
      && before.value.superseded <= after.value.superseded
      && (after.value.newClaim == before.value.newClaim ==> PhaseRank(before.value.phase) <= PhaseRank(after.value.phase))
      && (!before.value.phase.PhasePrepared? ==>
            after.value.newClaim == before.value.newClaim && after.value.superseded == before.value.superseded)
      && (after.value.newClaim != before.value.newClaim ==> before.value.newClaim in after.value.superseded)
  }

  lemma StepFollows(s: State, e: Event, t: State, k: string)
    requires Inv(s) && Step(s, e, t) && k in s.receipts
    ensures k in t.receipts && t.receipts[k].claim == s.receipts[k].claim
    ensures Follows(s.receipts[k].reclaim, t.receipts[k].reclaim)
  {
    assert ReceiptOk(s, k);
    if e.Begun? {
      assert ActiveOk(s, e.issue);
    } else if e.StageSaved? {
      assert ActiveOk(s, e.issue);
    }
  }

  // ---- Runs ----

  datatype Entry = Entry(event: Event, after: State)

  function At(start: State, path: seq<Entry>, i: nat): State
    requires i <= |path|
  {
    if i == 0 then start else path[i - 1].after
  }

  ghost predicate Run(start: State, path: seq<Entry>) {
    forall i | 0 <= i < |path| :: Step(At(start, path, i), path[i].event, path[i].after)
  }

  lemma RunStep(start: State, path: seq<Entry>, i: nat)
    requires Run(start, path) && i < |path|
    ensures Step(At(start, path, i), path[i].event, At(start, path, i + 1))
  {
    hide Step;
  }

  lemma ExtendRun(start: State, path: seq<Entry>, e: Event, t: State)
    requires Run(start, path) && Step(At(start, path, |path|), e, t)
    ensures Run(start, path + [Entry(e, t)]) && At(start, path + [Entry(e, t)], |path| + 1) == t
  {
    hide Step;
    var longer := path + [Entry(e, t)];
    assert forall i | 0 <= i <= |path| :: At(start, longer, i) == At(start, path, i);
    forall i | 0 <= i < |longer| ensures Step(At(start, longer, i), longer[i].event, longer[i].after) {
      if i < |path| {
        assert Step(At(start, path, i), path[i].event, path[i].after);
      }
    }
  }

  lemma {:induction false} RunKeepsInv(start: State, path: seq<Entry>, i: nat)
    requires Inv(start) && Run(start, path) && i <= |path|
    ensures Inv(At(start, path, i))
  {
    hide Inv, Step, Run;
    if i > 0 {
      RunKeepsInv(start, path, i - 1);
      RunStep(start, path, i - 1);
      StepKeepsInv(At(start, path, i - 1), path[i - 1].event, At(start, path, i));
    }
  }

  lemma FollowsTransitive(a: Option<Reclaim>, b: Option<Reclaim>, c: Option<Reclaim>)
    requires Follows(a, b) && Follows(b, c)
    ensures Follows(a, c)
  {
  }

  /** Takeover safety over every run and crash: a takeover saved as active is never given
      to another claim, phases only move forward, and every replaced claim is kept. */
  lemma {:induction false} TakeoversOnlyMoveForward(start: State, path: seq<Entry>, i: nat, j: nat, k: string)
    requires Inv(start) && Run(start, path) && i <= j <= |path| && k in At(start, path, i).receipts
    ensures k in At(start, path, j).receipts
    ensures Follows(At(start, path, i).receipts[k].reclaim, At(start, path, j).receipts[k].reclaim)
  {
    hide Inv, Step, Run;
    if i < j {
      TakeoversOnlyMoveForward(start, path, i, j - 1, k);
      RunKeepsInv(start, path, j - 1);
      RunStep(start, path, j - 1);
      StepFollows(At(start, path, j - 1), path[j - 1].event, At(start, path, j), k);
      FollowsTransitive(
        At(start, path, i).receipts[k].reclaim, At(start, path, j - 1).receipts[k].reclaim, At(start, path, j).receipts[k].reclaim);
    }
  }

  /** A claim that was replaced is never saved as active, before or after. */
  lemma ReplacedClaimsNeverLaunch(start: State, path: seq<Entry>, i: nat, k: string, claim: string)
    requires Inv(start) && Run(start, path) && i <= |path|
    requires k in At(start, path, i).receipts && At(start, path, i).receipts[k].reclaim.Some?
    requires claim in At(start, path, i).receipts[k].reclaim.value.superseded
    ensures claim !in At(start, path, |path|).launched
  {
    TakeoversOnlyMoveForward(start, path, i, |path|, k);
    RunKeepsInv(start, path, |path|);
    var last := At(start, path, |path|);
    assert ReceiptOk(last, k);
    assert claim in last.receipts[k].reclaim.value.superseded;
    assert Gone(last, claim);
  }

  /** A marker changes hands only away from a released generation, or from a claim that
      merely prepared its takeover and was never saved as active. */
  lemma MarkersMoveSafely(start: State, path: seq<Entry>, i: nat, issue: nat)
    requires Inv(start) && Run(start, path) && i < |path|
    requires issue in At(start, path, i).markers && issue in At(start, path, i + 1).markers
    ensures
      var s, t := At(start, path, i), At(start, path, i + 1);
      s.markers[issue] != t.markers[issue] ==>
        && issue in s.actives && t.markers[issue] == s.actives[issue].claim
        && exists k :: k in s.receipts && MerelyPrepared(s.receipts[k], t.markers[issue])
             && (s.markers[issue] == s.receipts[k].claim
                 || (s.markers[issue] in s.receipts[k].reclaim.value.superseded && s.markers[issue] !in s.launched))
  {
    hide Inv, Run;
    var s, t := At(start, path, i), At(start, path, i + 1);
    RunStep(start, path, i);
    RunKeepsInv(start, path, i);
    if path[i].event.MarkerMoved? && path[i].event.issue == issue {
      ReceiptHolds(s, path[i].event.key);
    }
  }

  lemma ReceiptHolds(s: State, k: string)
    requires Inv(s) && k in s.receipts
    ensures s.receipts[k].reclaim.Some? ==> forall x | x in s.receipts[k].reclaim.value.superseded :: x !in s.launched
  {
    assert ReceiptOk(s, k);
  }

  // ---- The procedure ----

  datatype Assessment = Assessment(takeover: Option<set<string>>, key: Option<string>)

  // `evidence` stands for the receipt's own identity checks, the completion evidence, the
  // stopped process and the retained checkout.
  function AssessWorktreeReclaim(receipts: map<string, Receipt>, actives: map<nat, Active>, markers: map<nat, string>,
                                 issue: nat, evidence: bool): (r: Assessment)
    requires issue in actives
    ensures r.takeover.Some? <==> r.key.Some?
  {
    var nothing := Assessment(None, None);
    var active := actives[issue];
    if issue !in markers || markers[issue] == active.claim then nothing
    else
      var matches := MatchingReceipts(receipts, active.repo, issue, markers[issue]);
      if |matches| != 1 then nothing
      else
        var key := TheOnly(matches);
        if !evidence then nothing
        else
          match PreviousClaimIds(receipts[key], active.claim)
          case None => nothing
          case Some(previous) => Assessment(Some(previous), Some(key))
  }

  lemma OnlyOne<T>(s: set<T>, x: T, y: T)
    requires |s| == 1 && x in s && y in s
    ensures x == y
  {
    assert |s - {x}| == 0;
  }

  function TheOnly(s: set<string>): (x: string)
    requires |s| == 1
    ensures s == {x}
  {
    assert exists x :: x in s by {
      assert s != {};
    }
    assert forall x, y | x in s && y in s :: x == y by {
      forall x, y | x in s && y in s ensures x == y {
        OnlyOne(s, x, y);
      }
    }
    var x :| x in s;
    x
  }

  /** The assessment allows a takeover exactly when one may begin. */
  lemma AssessIff(s: State, issue: nat, evidence: bool)
    requires issue in s.actives && s.actives[issue].stage.StageReserved?
    ensures var r := AssessWorktreeReclaim(s.receipts, s.actives, s.markers, issue, evidence);
      && (r.key.Some? ==> MayTakeOver(s, issue, r.key.value))
      && (r.key.Some? ==> r.takeover == PreviousClaimIds(s.receipts[r.key.value], s.actives[issue].claim))
      && (r.key.Some? <==> evidence && exists key :: MayTakeOver(s, issue, key))
  {
    var r := AssessWorktreeReclaim(s.receipts, s.actives, s.markers, issue, evidence);
    if key :| MayTakeOver(s, issue, key) {
      assert MatchingReceipts(s.receipts, s.actives[issue].repo, issue, s.markers[issue]) == {key};
      assert r.key == if evidence then Some(key) else None;
    }
    assert r.key.Some? ==> MayTakeOver(s, issue, r.key.value);
  }

  lemma OnlyOneTaken(s: State, claim: string)
    requires Inv(s)
    ensures forall j, k | j in s.receipts && k in s.receipts && TakenBy(s.receipts[j], claim) && TakenBy(s.receipts[k], claim) :: j == k
  {
    hide ReceiptOk, ActiveOk;
    forall j, k | j in s.receipts && k in s.receipts && TakenBy(s.receipts[j], claim) && TakenBy(s.receipts[k], claim) ensures j == k {
      assert OneReceipt(s, j, k);
    }
  }

  // ---- When a takeover may begin, and when it may go on ----

  /** In a reachable state a takeover may begin exactly when the marker is of a generation
      that this receipt released, unless another claim saved its takeover of it, or of a claim
      that merely prepared one on this receipt. */
  lemma MayTakeOverIff(s: State, issue: nat, key: string)
    requires Inv(s)
    ensures MayTakeOver(s, issue, key) <==>
      && issue in s.actives && s.actives[issue].stage.StageReserved? && key in s.receipts
      && issue in s.markers && s.markers[issue] != s.actives[issue].claim
      && s.receipts[key].repo == s.actives[issue].repo && s.receipts[key].issue == issue
      && var reclaim := s.receipts[key].reclaim;
         || (s.markers[issue] == s.receipts[key].claim
             && (reclaim.None? || reclaim.value.newClaim == s.actives[issue].claim || reclaim.value.phase.PhasePrepared?))
         || (reclaim.Some? && s.markers[issue] == reclaim.value.newClaim && reclaim.value.phase.PhasePrepared?)
  {
    if issue in s.actives && issue in s.markers && key in s.receipts {
      MatchingIs(s, s.actives[issue].repo, issue, s.markers[issue], key);
    }
  }

  lemma MatchingIs(s: State, repo: string, issue: nat, marker: string, key: string)
    requires Inv(s) && key in s.receipts
    ensures MatchingReceipts(s.receipts, repo, issue, marker) == {key} <==>
      Concerns(s.receipts[key], repo, issue) && (s.receipts[key].claim == marker || MerelyPrepared(s.receipts[key], marker))
  {
    hide Gone;
    OnlyOneTaken(s, marker);
    var matching := MatchingReceipts(s.receipts, repo, issue, marker);
    var released := set k | k in s.receipts && Concerns(s.receipts[k], repo, issue) && s.receipts[k].claim == marker;
    var prepared := set k | k in s.receipts && Concerns(s.receipts[k], repo, issue) && MerelyPrepared(s.receipts[k], marker);
    assert matching == if released != {} then released else prepared;
    if Concerns(s.receipts[key], repo, issue) && s.receipts[key].claim == marker {
      assert released == {key};
    } else if Concerns(s.receipts[key], repo, issue) && MerelyPrepared(s.receipts[key], marker) {
      forall j | j in s.receipts ensures s.receipts[j].claim != marker {
        assert ReceiptOk(s, j) && ReceiptOk(s, key);
      }
      assert released == {} && prepared == {key};
    } else {
      assert key !in matching;
    }
  }

  lemma TakeoverNeedsForeign(s: State, issue: nat)
    requires issue in s.actives
    ensures forall key :: MayTakeOver(s, issue, key) ==>
      && issue in s.markers && s.markers[issue] != s.actives[issue].claim && key in s.receipts
      && var previous := PreviousClaimIds(s.receipts[key], s.actives[issue].claim);
         previous.Some? && s.markers[issue] in previous.value
  {
    forall key | MayTakeOver(s, issue, key)
      ensures var previous := PreviousClaimIds(s.receipts[key], s.actives[issue].claim);
        previous.Some? && s.markers[issue] in previous.value
    {
      assert key in MatchingReceipts(s.receipts, s.actives[issue].repo, issue, s.markers[issue]);
    }
  }

  lemma StampedPhase(receipts: map<string, Receipt>, claim: string, phase: Phase)
    ensures Stamped(receipts, claim, phase).Keys == receipts.Keys
    ensures forall k | k in receipts ::
      && (TakenBy(Stamped(receipts, claim, phase)[k], claim) <==> TakenBy(receipts[k], claim))
      && (TakenBy(receipts[k], claim) ==> Stamped(receipts, claim, phase)[k].reclaim.value.phase == phase)
  {
  }

  // The claim began a takeover on this receipt and was not saved as active yet.
  predicate InTakeover(s: State, issue: nat, key: string) {
    && issue in s.actives && s.actives[issue].stage.StageReserved?
    && key in s.receipts && MerelyPrepared(s.receipts[key], s.actives[issue].claim)
  }

  // The marker is of a claim whose own takeover this one replaced, and it was not moved yet.
  predicate LeftBehind(s: State, issue: nat, key: string)
    requires InTakeover(s, issue, key)
  {
    issue in s.markers && s.markers[issue] in s.receipts[key].reclaim.value.superseded
  }

  /** A claim in the middle of a takeover finds the marker gone, its own, of the released
      generation, or left behind; the takeover may be begun again exactly in the third case. */
  lemma GoesOnIff(s: State, issue: nat, key: string)
    requires Inv(s) && InTakeover(s, issue, key)
    ensures issue in s.markers && s.markers[issue] != s.actives[issue].claim ==>
      && (LeftBehind(s, issue, key) <==> s.markers[issue] != s.receipts[key].claim)
      && ((exists k :: MayTakeOver(s, issue, k)) <==> !LeftBehind(s, issue, key))
  {
    assert ActiveOk(s, issue) && ReceiptOk(s, key) && TakenBy(s.receipts[key], s.actives[issue].claim);
    if issue in s.markers && s.markers[issue] != s.actives[issue].claim {
      if LeftBehind(s, issue, key) {
        assert Gone(s, s.markers[issue]);
      }
      forall k ensures MayTakeOver(s, issue, k) <==> k == key && !LeftBehind(s, issue, key) {
        hide Gone;
        MayTakeOverIff(s, issue, k);
      }
      assert !LeftBehind(s, issue, key) ==> MayTakeOver(s, issue, key);
    }
  }

  // A claim is never among those it replaced.
  lemma NotOwn(s: State, issue: nat, key: string)
    requires Inv(s) && InTakeover(s, issue, key)
    ensures LeftBehind(s, issue, key) ==> issue in s.markers && s.markers[issue] != s.actives[issue].claim
  {
    assert ReceiptOk(s, key);
    if LeftBehind(s, issue, key) {
      assert Gone(s, s.markers[issue]);
    }
  }

  /** What a crash leaves: behind the first save the takeover may go on exactly when it began
      at the marker of the released generation, and behind the move of the marker always. */
  lemma CrashLeaves(s: State, e: Event, t: State, key: string)
    requires Inv(s) && Step(s, e, t)
    ensures e == Begun(e.issue, key) ==>
      InTakeover(t, e.issue, key) && (LeftBehind(t, e.issue, key) <==> s.markers[e.issue] != s.receipts[key].claim)
    ensures e == MarkerMoved(e.issue, key) ==>
      InTakeover(t, e.issue, key) && !LeftBehind(t, e.issue, key) && t.markers[e.issue] == t.actives[e.issue].claim
  {
    StepKeepsInv(s, e, t);
  }

  /** A claim that replaces a merely prepared one and crashes before it moves the marker finds
      the marker left behind: such a resume is refused from here on. */
  lemma SupersededCrashIsStuck() returns (s: State, t: State)
    ensures Inv(s) && Step(s, Begun(1, "k"), t)
    ensures InTakeover(t, 1, "k") && LeftBehind(t, 1, "k") && forall key :: !MayTakeOver(t, 1, key)
  {
    var receipt := Receipt("r", 1, "c0", Some(Reclaim("c1", PhasePrepared, [])));
    s := State(map["k" := receipt], map[1 := Active("c2", "r", StageReserved)], map[1 := "c1"], {"c0"}, {"c0", "c1", "c2"});
    t := s.(receipts := s.receipts["k" := RecordOn(receipt, "c2", PhasePrepared)]);
    assert Inv(s);
    MayTakeOverIff(s, 1, "k");
    CrashLeaves(s, Begun(1, "k"), t, "k");
    StepKeepsInv(s, Begun(1, "k"), t);
    GoesOnIff(t, 1, "k");
    assert t.markers[1] == "c1" && t.actives[1].claim == "c2";
  }

  class TakeoverWorld {
    const reliable: bool
    var receipts: map<string, Receipt>
    var actives: map<nat, Active>
    var markers: map<nat, string>
    ghost var launched: set<string>
    ghost var used: set<string>
    ghost const start: State
    ghost var path: seq<Entry>

    constructor (reliable: bool, receipts: map<string, Receipt>, actives: map<nat, Active>, markers: map<nat, string>,
                 ghost launched: set<string>, ghost used: set<string>)
      requires Inv(State(receipts, actives, markers, launched, used))
      ensures Valid() && Snap() == State(receipts, actives, markers, launched, used) && this.reliable == reliable
    {
      this.reliable, this.receipts, this.actives, this.markers := reliable, receipts, actives, markers;
      this.launched, this.used := launched, used;
      this.start, this.path := State(receipts, actives, markers, launched, used), [];
    }

    ghost function Snap(): State
      reads this
    {
      State(receipts, actives, markers, launched, used)
    }

    ghost predicate Valid()
      reads this
    {
      Inv(start) && Run(start, path) && At(start, path, |path|) == Snap()
    }

    ghost method Log(event: Event, before: State)
      requires Inv(start) && Run(start, path) && At(start, path, |path|) == before && Step(before, event, Snap())
      modifies this`path
      ensures Valid()
    {
      hide Step, Inv, Run;
      ExtendRun(start, path, event, Snap());
      path := path + [Entry(event, Snap())];
    }

    // The worktree carries the marker of another claim.
    ghost predicate Foreign(issue: nat)
      requires issue in actives
      reads this
    {
      issue in markers && markers[issue] != actives[issue].claim
    }

    ghost predicate CanTakeOver(issue: nat)
      reads this
    {
      exists key :: MayTakeOver(Snap(), issue, key)
    }

    // The ledger part is saved atomically; a failure report may hide a success.
    method SaveReceipts(updated: map<string, Receipt>, ghost event: Event) returns (ok: bool)
      requires Valid() && Step(Snap(), event, Snap().(receipts := updated))
      modifies this`receipts, this`path
      ensures Valid()
      ensures reliable ==> ok
      ensures ok ==> receipts == updated
      ensures receipts == old(receipts) || receipts == updated
    {
      hide Step, Inv, Run;
      var applied: bool, reported: bool := *, *;
      ok := reliable || (applied && reported);
      if reliable || applied {
        ghost var before := Snap();
        receipts := updated;
        Log(event, before);
      }
    }

    /** A takeover is saved as prepared before the marker moves. */
    method BeginWorktreeReclaim(issue: nat, evidence: bool) returns (assessment: Assessment, ok: bool)
      requires Valid() && issue in actives && actives[issue].stage.StageReserved?
      modifies this`receipts, this`path
      ensures Valid()
      ensures assessment == AssessWorktreeReclaim(old(receipts), actives, markers, issue, evidence)
      ensures assessment.key.None? ==> ok && receipts == old(receipts)
      ensures assessment.key.Some? && ok ==>
        && assessment.key.value in receipts && assessment.key.value in old(receipts)
        && receipts == old(receipts)[assessment.key.value := RecordOn(old(receipts)[assessment.key.value], actives[issue].claim, PhasePrepared)]
        && MerelyPrepared(receipts[assessment.key.value], actives[issue].claim)
        && Concerns(receipts[assessment.key.value], actives[issue].repo, issue)
        && receipts[assessment.key.value].claim == old(receipts)[assessment.key.value].claim
        && assessment.takeover == PreviousClaimIds(old(receipts)[assessment.key.value], actives[issue].claim)
      ensures reliable ==> ok
    {
      hide Inv, Run, AssessWorktreeReclaim;
      AssessIff(Snap(), issue, evidence);
      assessment := AssessWorktreeReclaim(receipts, actives, markers, issue, evidence);
      if assessment.key.None? {
        return assessment, true;
      }
      var key := assessment.key.value;
      var updated := receipts[key := RecordOn(receipts[key], actives[issue].claim, PhasePrepared)];
      assert key in MatchingReceipts(receipts, actives[issue].repo, issue, markers[issue]);
      ok := SaveReceipts(updated, Begun(issue, key));
    }

    /** The claim's own marker is accepted as it stands, a missing one is created unless an
        unmarked worktree is in the way, and a foreign one moves only away from a named
        generation and only when the checkout verifies. */
    method PrepareTaskWorktree(issue: nat, assessment: Assessment, occupied: bool, verified: bool) returns (accepted: bool)
      requires Valid() && issue in actives && actives[issue].stage.StageReserved?
      requires assessment.key.Some? <==> assessment.takeover.Some?
      requires assessment.key.Some? ==>
        && assessment.key.value in receipts && MerelyPrepared(receipts[assessment.key.value], actives[issue].claim)
        && Concerns(receipts[assessment.key.value], actives[issue].repo, issue)
        && forall m | m in assessment.takeover.value && m != actives[issue].claim ::
             m == receipts[assessment.key.value].claim || m in receipts[assessment.key.value].reclaim.value.superseded
      modifies this`markers, this`path
      ensures Valid()
      ensures markers == if accepted then old(markers)[issue := actives[issue].claim] else old(markers)
      ensures issue !in old(markers) ==> (accepted <==> !occupied)
      ensures issue in old(markers) && old(markers[issue]) == actives[issue].claim ==> accepted && markers == old(markers)
      ensures issue in old(markers) && old(markers[issue]) != actives[issue].claim ==>
        (accepted <==> assessment.takeover.Some? && old(markers[issue]) in assessment.takeover.value && verified)
    {
      hide Inv, Run;
      ghost var before := Snap();
      var claim := actives[issue].claim;
      if issue in markers {
        if assessment.takeover.Some? && markers[issue] != claim && markers[issue] in assessment.takeover.value {
          if !verified {
            return false;
          }
          markers := markers[issue := claim];
          Log(MarkerMoved(issue, assessment.key.value), before);
          return true;
        }
        return markers[issue] == claim;
      }
      if occupied {
        return false;
      }
      markers := markers[issue := claim];
      Log(MarkerCreated(issue), before);
      accepted := true;
    }

    // The receipt a stage is recorded on: the first with a takeover by the claim.
    method RecordTakeoverStage(claim: string, phase: Phase) returns (updated: map<string, Receipt>)
      requires Valid()
      ensures updated == Stamped(receipts, claim, phase)
    {
      hide Inv, Run;
      OneTaken(claim);
      var pending := receipts.Keys;
      while pending != {}
        invariant pending <= receipts.Keys
        invariant forall k | k in receipts && k !in pending :: !TakenBy(receipts[k], claim)
        decreases |pending|
      {
        var k :| k in pending;
        if TakenBy(receipts[k], claim) {
          return receipts[k := RecordOn(receipts[k], claim, phase)];
        }
        pending := pending - {k};
      }
      updated := receipts;
    }

    lemma InvNow()
      requires Valid()
      ensures Inv(Snap())
    {
      hide Inv, Run;
      RunKeepsInv(start, path, |path|);
    }

    lemma OneTaken(claim: string)
      requires Valid()
      ensures forall j, k | j in receipts && k in receipts && TakenBy(receipts[j], claim) && TakenBy(receipts[k], claim) :: j == k
    {
      InvNow();
      OnlyOneTaken(Snap(), claim);
    }

    // The next stage of the claim and its takeover phase, in one save.
    method SaveStage(issue: nat) returns (ok: bool)
      requires Valid() && issue in actives && !actives[issue].stage.StageCompleted?
      modifies this`receipts, this`actives, this`launched, this`path
      ensures Valid()
      ensures reliable ==> ok
      ensures actives == old(actives) || actives == old(actives)[issue := old(actives[issue]).(stage := NextStage(old(actives[issue].stage)))]
      ensures ok ==> (
        && actives == old(actives)[issue := old(actives[issue]).(stage := NextStage(old(actives[issue].stage)))]
        && receipts == Stamped(old(receipts), actives[issue].claim, PhaseOf(actives[issue].stage)))
    {
      hide Inv, Run;
      var active := actives[issue].(stage := NextStage(actives[issue].stage));
      var stamped := RecordTakeoverStage(active.claim, PhaseOf(active.stage));
      var applied: bool, reported: bool := *, *;
      ok := reliable || (applied && reported);
      if reliable || applied {
        ghost var before := Snap();
        receipts := stamped;
        actives := actives[issue := active];
        launched := launched + {active.claim};
        Log(StageSaved(issue), before);
      }
    }

    // The worktree is the claim's, or may become it: its own marker, no marker and nothing in
    // the way, or the marker of a generation that may be taken over on good evidence.
    ghost predicate Acquirable(issue: nat, occupied: bool, evidence: bool, verified: bool)
      requires issue in actives
      reads this
    {
      if Foreign(issue) then CanTakeOver(issue) && evidence && verified else issue in markers || !occupied
    }

    /** The claim's way from its reservation to an active worktree: with working storage it
        succeeds exactly when the worktree can be acquired. Success leaves the marker on the
        claim, the claim saved as active, and its takeover, if it has one, saved with it. A
        marker that no takeover may move is left alone and the claim is refused. */
    method PrepareAndPersistWorktree(issue: nat, occupied: bool, evidence: bool, verified: bool) returns (accepted: bool)
      requires Valid() && issue in actives && actives[issue].stage.StageReserved?
      modifies this
      ensures Valid()
      ensures accepted ==> old(Acquirable(issue, occupied, evidence, verified))
      ensures reliable && old(Acquirable(issue, occupied, evidence, verified)) ==> accepted
      ensures accepted ==> (
        && actives == old(actives)[issue := old(actives[issue]).(stage := StageActiveSaved)]
        && markers == old(markers)[issue := old(actives[issue]).claim]
        && receipts.Keys == old(receipts.Keys)
        && (forall k | k in receipts && old(TakenBy(receipts[k], actives[issue].claim)) :: TakenBy(receipts[k], actives[issue].claim))
        && forall k | k in receipts && TakenBy(receipts[k], actives[issue].claim) :: receipts[k].reclaim.value.phase.PhaseActiveSaved?)
      ensures old(Foreign(issue) && !CanTakeOver(issue)) ==>
        !accepted && markers == old(markers) && actives == old(actives) && receipts == old(receipts)
    {
      hide Inv, Run, AssessWorktreeReclaim, MayTakeOver, Stamped;
      AssessIff(Snap(), issue, evidence);
      TakeoverNeedsForeign(Snap(), issue);
      var assessment, ok := BeginWorktreeReclaim(issue, evidence);
      if !ok {
        return false;
      }
      var prepared := PrepareTaskWorktree(issue, assessment, occupied, verified);
      if !prepared {
        return false;
      }
      StampedPhase(receipts, actives[issue].claim, PhaseActiveSaved);
      accepted := SaveStage(issue);
    }

    /** A resume after a crash in the middle of a takeover succeeds exactly when the marker was
        not left behind on a claim that this takeover replaced. The takeover is then saved as
        active on its receipt. */
    method ResumeTakeover(issue: nat, ghost key: string) returns (accepted: bool)
      requires Valid() && reliable && InTakeover(Snap(), issue, key)
      modifies this
      ensures Valid()
      ensures accepted <==> !old(LeftBehind(Snap(), issue, key))
      ensures accepted ==> (
        && issue in actives && actives[issue] == old(actives[issue]).(stage := StageActiveSaved)
        && issue in markers && markers[issue] == actives[issue].claim
        && key in receipts && TakenBy(receipts[key], actives[issue].claim) && receipts[key].reclaim.value.phase.PhaseActiveSaved?)
    {
      hide Inv, Run, MayTakeOver, LeftBehind;
      InvNow();
      GoesOnIff(Snap(), issue, key);
      NotOwn(Snap(), issue, key);
      accepted := PrepareAndPersistWorktree(issue, false, true, true);
    }
  }
}
