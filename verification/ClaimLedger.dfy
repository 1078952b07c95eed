/** The ledger of active reservations: what its operations do to it, and the mutual
    exclusion that every run keeps. */
module ClaimLedger {
  import opened Wrappers
  import opened FootprintPaths
  import opened ClaimOwnership

  // The key of an entry is the printed Issue number; older ledgers may hold other keys.
  datatype LedgerKey = Number(number: nat) | Legacy(name: string)

  datatype Slot = Slot(key: LedgerKey, entry: Reservation)

  // An insertion-ordered dictionary.
  type Ledger = seq<Slot>

  function Put(ledger: Ledger, key: LedgerKey, entry: Reservation): Ledger {
    if ledger == [] then [Slot(key, entry)]
    else if ledger[0].key == key then [Slot(key, entry)] + ledger[1..]
    else [ledger[0]] + Put(ledger[1..], key, entry)
  }

  function Remove(ledger: Ledger, key: LedgerKey): Ledger {
    if ledger == [] then []
    else if ledger[0].key == key then ledger[1..]
    else [ledger[0]] + Remove(ledger[1..], key)
  }

  function Entries(ledger: Ledger): seq<Reservation> {
    seq(|ledger|, i requires 0 <= i < |ledger| => ledger[i].entry)
  }

  predicate Has(ledger: Ledger, key: LedgerKey) {
    exists s :: s in ledger && s.key == key
  }

  // Replace a held record without changing its key.
  function ReplaceHeld(ledger: Ledger, previous: Reservation, updated: Reservation): Ledger {
    seq(|ledger|, i requires 0 <= i < |ledger| => if ledger[i].entry == previous then Slot(ledger[i].key, updated) else ledger[i])
  }

  predicate DistinctKeys(ledger: Ledger) {
    forall i, j | 0 <= i < j < |ledger| :: ledger[i].key != ledger[j].key
  }

  /** Mutual exclusion between the reservations of a ledger. */
  ghost predicate Exclusive(ledger: Ledger) {
    && DistinctKeys(ledger)
    && forall i, j | 0 <= i < j < |ledger| :: Compatible(ledger[i].entry, ledger[j].entry)
  }

  // ---- Steps ----

  datatype Event =
    | Claimed(candidate: Reservation, view: View)
    | Prepared(previous: Reservation, worktree: string)
    | Finalized(previous: Reservation)
    | RolledBack(issue: nat)
    | AmendedTo(slot: Slot, footprint: seq<string>, view: View)
    // Dispatch, completion and clean-up, which are not part of this model.
    | Launched(slot: Slot, forcedSerial: bool)
    | CompletionStarted(slot: Slot)
    | Released(key: LedgerKey)

  function Advance(previous: Reservation, worktree: Option<string>, stage: ClaimStage): Reservation {
    previous.(worktree := worktree, stage := stage)
  }

  predicate Amendable(entry: Reservation) {
    entry.stage.Completed? && entry.kind.FootprintOnly? && !entry.completing
  }

  ghost predicate Step(s: Ledger, e: Event, t: Ledger) {
    match e
    case Claimed(candidate, view) =>
      && candidate.stage.Reserved? && Canonical(candidate.footprint) && (forall x | x in s :: x.entry.claim != candidate.claim)
      && Unblocked(candidate, Entries(s), view)
      && t == Put(s, Number(candidate.issue), candidate)
    case Prepared(previous, worktree) =>
      && previous.stage.Reserved? && (exists x :: x in s && x.entry == previous)
      && t == ReplaceHeld(s, previous, Advance(previous, Some(worktree), ActiveSaved))
    case Finalized(previous) =>
      && previous.stage.ActiveSaved? && (exists x :: x in s && x.entry == previous)
      && t == ReplaceHeld(s, previous, Advance(previous, previous.worktree, Completed))
    case RolledBack(issue) => t == Remove(s, Number(issue))
    case AmendedTo(slot, footprint, view) =>
      var amended := slot.entry.(footprint := footprint);
      && slot in s && Amendable(slot.entry) && slot.entry.footprint <= footprint && Canonical(footprint)
      && Unblocked(amended, Entries(Remove(s, slot.key)), view)
      && t == Put(s, slot.key, amended)
    case Launched(slot, forced) => slot in s && t == Put(s, slot.key, slot.entry.(forcedSerial := forced))
    case CompletionStarted(slot) => slot in s && t == Put(s, slot.key, slot.entry.(completing := true))
    case Released(key) => t == Remove(s, key)
  }

  // ---- The dictionary operations ----

  // Where a key is; the length of the ledger if it is nowhere.
  function IndexOf(ledger: Ledger, key: LedgerKey): (k: nat)
    ensures k <= |ledger| && (k < |ledger| ==> ledger[k].key == key)
    ensures forall i | 0 <= i < k :: ledger[i].key != key
  {
    if ledger == [] || ledger[0].key == key then 0 else 1 + IndexOf(ledger[1..], key)
  }

  lemma {:induction false} PutIs(ledger: Ledger, key: LedgerKey, entry: Reservation)
    ensures var k := IndexOf(ledger, key);
      Put(ledger, key, entry) == if k < |ledger| then ledger[k := Slot(key, entry)] else ledger + [Slot(key, entry)]
  {
    if ledger != [] && ledger[0].key != key {
      PutIs(ledger[1..], key, entry);
      assert ledger == [ledger[0]] + ledger[1..];
    }
  }

  lemma {:induction false} RemoveIs(ledger: Ledger, key: LedgerKey)
    ensures var k := IndexOf(ledger, key);
      Remove(ledger, key) == if k < |ledger| then ledger[..k] + ledger[k + 1..] else ledger
  {
    if ledger != [] && ledger[0].key != key {
      RemoveIs(ledger[1..], key);
      var k := IndexOf(ledger[1..], key);
      CutBehind(ledger, k);
    }
  }

  lemma CutBehind(ledger: Ledger, k: nat)
    requires ledger != [] && k < |ledger|
    ensures [ledger[0]] + ledger[1..] == ledger
    ensures k + 1 < |ledger| ==> [ledger[0]] + (ledger[1..][..k] + ledger[1..][k + 1..]) == ledger[..k + 1] + ledger[k + 2..]
  {
  }

  lemma PutAt(ledger: Ledger, key: LedgerKey, entry: Reservation) returns (k: nat)
    ensures k <= |ledger| && (k < |ledger| ==> ledger[k].key == key)
    ensures forall i | 0 <= i < k :: ledger[i].key != key
    ensures Put(ledger, key, entry) ==
      if k < |ledger| then ledger[k := Slot(key, entry)] else ledger + [Slot(key, entry)]
    ensures Remove(ledger, key) == if k < |ledger| then ledger[..k] + ledger[k + 1..] else ledger
  {
    k := IndexOf(ledger, key);
    PutIs(ledger, key, entry);
    RemoveIs(ledger, key);
  }

  lemma Members(ledger: Ledger, key: LedgerKey, entry: Reservation)
    ensures forall x | x in Put(ledger, key, entry) :: x == Slot(key, entry) || x in ledger
    ensures forall x | x in Remove(ledger, key) :: x in ledger
    ensures Slot(key, entry) in Put(ledger, key, entry)
  {
    var k := PutAt(ledger, key, entry);
    assert Put(ledger, key, entry)[k] == Slot(key, entry);
  }

  /** Rolling back a new claim restores the ledger it was made on. */
  lemma RollbackUndoesClaim(ledger: Ledger, key: LedgerKey, entry: Reservation)
    requires !Has(ledger, key)
    ensures Remove(Put(ledger, key, entry), key) == ledger
  {
    var k := PutAt(ledger, key, entry);
    assert k == |ledger|;
    var after := Put(ledger, key, entry);
    var j := PutAt(after, key, entry);
    assert j == |ledger|;
    assert after[..j] + after[j + 1..] == ledger;
  }

  // ---- Preservation ----

  lemma EntriesAt(ledger: Ledger, candidate: Reservation, view: View)
    ensures Unblocked(candidate, Entries(ledger), view) <==>
      forall i | 0 <= i < |ledger| :: !Excludes(ledger[i].entry, candidate, view)
  {
    if Unblocked(candidate, Entries(ledger), view) {
      forall i | 0 <= i < |ledger| ensures !Excludes(ledger[i].entry, candidate, view) {
        assert Entries(ledger)[i] == ledger[i].entry;
      }
    }
  }

  lemma CompatibleSymmetric(a: Reservation, b: Reservation)
    requires Compatible(a, b)
    ensures Compatible(b, a)
  {
    assert Overlapping(b, a) ==> Overlapping(a, b);
  }

  // Writing an entry that is compatible with all the others.
  lemma PutKeepsExclusive(ledger: Ledger, key: LedgerKey, entry: Reservation)
    requires Exclusive(ledger)
    requires forall i | 0 <= i < |ledger| && ledger[i].key != key :: Compatible(ledger[i].entry, entry)
    ensures Exclusive(Put(ledger, key, entry))
  {
    hide Compatible, Put, Remove;
    var k := PutAt(ledger, key, entry);
    forall i | 0 <= i < |ledger| && ledger[i].key != key ensures Compatible(entry, ledger[i].entry) {
      CompatibleSymmetric(ledger[i].entry, entry);
    }
    var after := Put(ledger, key, entry);
    assert forall i | 0 <= i < |after| && i != k :: after[i] == ledger[i] && ledger[i].key != key;
  }

  // Which entries a removal leaves, and in which order.
  lemma Remaining(ledger: Ledger, key: LedgerKey) returns (k: nat)
    ensures k <= |ledger| && (k < |ledger| ==> ledger[k].key == key)
    ensures forall i | 0 <= i < k :: ledger[i].key != key
    ensures |Remove(ledger, key)| == if k < |ledger| then |ledger| - 1 else |ledger|
    ensures forall i | 0 <= i < |Remove(ledger, key)| :: Remove(ledger, key)[i] == ledger[if i < k then i else i + 1]
  {
    k := IndexOf(ledger, key);
    RemoveIs(ledger, key);
  }

  lemma RemoveKeepsExclusive(ledger: Ledger, key: LedgerKey)
    requires Exclusive(ledger)
    ensures Exclusive(Remove(ledger, key))
    ensures forall i | 0 <= i < |ledger| && ledger[i].key != key :: ledger[i] in Remove(ledger, key)
    ensures forall x | x in Remove(ledger, key) :: x in ledger && x.key != key
  {
    hide Compatible, Remove;
    var k := Remaining(ledger, key);
    var after := Remove(ledger, key);
    forall i | 0 <= i < |ledger| && ledger[i].key != key ensures ledger[i] in after {
      assert i != k && after[if i < k then i else i - 1] == ledger[i];
    }
    forall x | x in after ensures x in ledger && x.key != key {
      var i :| 0 <= i < |after| && after[i] == x;
      assert k < i + 1 < |ledger| ==> ledger[k].key != ledger[i + 1].key;
    }
    forall i, j | 0 <= i < j < |after| ensures after[i].key != after[j].key && Compatible(after[i].entry, after[j].entry) {
      var m, n := if i < k then i else i + 1, if j < k then j else j + 1;
      assert after[i] == ledger[m] && after[j] == ledger[n] && m < n;
    }
  }

  // The same rights: whatever else an entry records about its progress.
  predicate SameRights(a: Reservation, b: Reservation) {
    a.issue == b.issue && a.footprint == b.footprint && a.owner == b.owner && a.kind == b.kind
  }

  lemma SameRightsCompatible(a: Reservation, b: Reservation, other: Reservation)
    requires SameRights(a, b)
    ensures Compatible(a, other) <==> Compatible(b, other)
    ensures Compatible(other, a) <==> Compatible(other, b)
  {
  }

  lemma PutSameRights(ledger: Ledger, slot: Slot, entry: Reservation)
    requires Exclusive(ledger) && slot in ledger && SameRights(slot.entry, entry)
    ensures Exclusive(Put(ledger, slot.key, entry))
  {
    hide Compatible;
    forall i | 0 <= i < |ledger| && ledger[i].key != slot.key ensures Compatible(ledger[i].entry, entry) {
      var k :| 0 <= k < |ledger| && ledger[k] == slot;
      if k < i {
        CompatibleSymmetric(ledger[k].entry, ledger[i].entry);
      }
      SameRightsCompatible(slot.entry, entry, ledger[i].entry);
    }
    PutKeepsExclusive(ledger, slot.key, entry);
  }

  // Replacing a held entry is writing at its key, because no two entries are equal.
  lemma ReplaceIsPut(ledger: Ledger, slot: Slot, updated: Reservation)
    requires Exclusive(ledger) && slot in ledger
    ensures ReplaceHeld(ledger, slot.entry, updated) == Put(ledger, slot.key, updated)
  {
    var k := PutAt(ledger, slot.key, updated);
    var i :| 0 <= i < |ledger| && ledger[i] == slot;
    assert i == k;
    forall j | 0 <= j < |ledger| && j != k ensures ledger[j].entry != slot.entry {
      assert Compatible(ledger[if j < k then j else k].entry, ledger[if j < k then k else j].entry);
    }
    assert ReplaceHeld(ledger, slot.entry, updated) == ledger[k := Slot(slot.key, updated)];
  }

  lemma ClaimStepKeeps(s: Ledger, candidate: Reservation, view: View, t: Ledger)
    requires Exclusive(s) && Step(s, Claimed(candidate, view), t)
    ensures Exclusive(t)
  {
    EntriesAt(s, candidate, view);
    forall i | 0 <= i < |s| ensures Compatible(s[i].entry, candidate) {
      ConflictIffExcludes(candidate, s[i].entry, view);
    }
    PutKeepsExclusive(s, Number(candidate.issue), candidate);
  }

  lemma AmendStepKeeps(s: Ledger, slot: Slot, footprint: seq<string>, view: View, t: Ledger)
    requires Exclusive(s) && Step(s, AmendedTo(slot, footprint, view), t)
    ensures Exclusive(t)
  {
    hide Compatible, Excludes, Exclusive;
    var amended := slot.entry.(footprint := footprint);
    var others := Remove(s, slot.key);
    RemoveKeepsExclusive(s, slot.key);
    EntriesAt(others, amended, view);
    forall i | 0 <= i < |s| && s[i].key != slot.key ensures Compatible(s[i].entry, amended) {
      assert s[i] in others;
      ConflictIffExcludes(amended, s[i].entry, view);
    }
    PutKeepsExclusive(s, slot.key, amended);
  }

  /** Every operation keeps mutual exclusion. */
  lemma StepKeepsExclusive(s: Ledger, e: Event, t: Ledger)
    requires Exclusive(s) && Step(s, e, t)
    ensures Exclusive(t)
  {
    hide Compatible, Exclusive, Unblocked;
    match e
    case Claimed(candidate, view) => ClaimStepKeeps(s, candidate, view, t);
    case AmendedTo(slot, footprint, view) => AmendStepKeeps(s, slot, footprint, view, t);
    case RolledBack(issue) => RemoveKeepsExclusive(s, Number(issue));
    case Released(key) => RemoveKeepsExclusive(s, key);
    case Launched(slot, forced) => PutSameRights(s, slot, slot.entry.(forcedSerial := forced));
    case CompletionStarted(slot) => PutSameRights(s, slot, slot.entry.(completing := true));
    case Prepared(previous, worktree) =>
      var x :| x in s && x.entry == previous;
      ReplaceIsPut(s, x, Advance(previous, Some(worktree), ActiveSaved));
      PutSameRights(s, x, Advance(previous, Some(worktree), ActiveSaved));
    case Finalized(previous) =>
      var x :| x in s && x.entry == previous;
      ReplaceIsPut(s, x, Advance(previous, previous.worktree, Completed));
      PutSameRights(s, x, Advance(previous, previous.worktree, Completed));
  }

  // ---- Runs ----

  datatype Saved = Saved(event: Event, after: Ledger)

  function At(start: Ledger, path: seq<Saved>, i: nat): Ledger
    requires i <= |path|
  {
    if i == 0 then start else path[i - 1].after
  }

  ghost predicate Run(start: Ledger, path: seq<Saved>) {
    forall i | 0 <= i < |path| :: Step(At(start, path, i), path[i].event, path[i].after)
  }

  lemma RunStep(start: Ledger, path: seq<Saved>, i: nat)
    requires Run(start, path) && i < |path|
    ensures Step(At(start, path, i), path[i].event, At(start, path, i + 1))
  {
    hide Step;
  }

  lemma ExtendRun(start: Ledger, path: seq<Saved>, e: Event, t: Ledger)
    requires Run(start, path) && Step(At(start, path, |path|), e, t)
    ensures Run(start, path + [Saved(e, t)]) && At(start, path + [Saved(e, t)], |path| + 1) == t
  {
    hide Step;
    var longer := path + [Saved(e, t)];
    assert forall i | 0 <= i <= |path| :: At(start, longer, i) == At(start, path, i);
    forall i | 0 <= i < |longer| ensures Step(At(start, longer, i), longer[i].event, longer[i].after) {
      if i < |path| {
        assert Step(At(start, path, i), path[i].event, path[i].after);
      }
    }
  }

  /** Whatever is claimed, resumed, rolled back, finalised, amended or released, and
      wherever a crash strikes, the saved reservations exclude each other. */
  lemma {:induction false} RunKeepsExclusive(start: Ledger, path: seq<Saved>, i: nat)
    requires Exclusive(start) && Run(start, path) && i <= |path|
    ensures Exclusive(At(start, path, i))
  {
    hide Exclusive, Step, Run;
    if i > 0 {
      RunKeepsExclusive(start, path, i - 1);
      RunStep(start, path, i - 1);
      StepKeepsExclusive(At(start, path, i - 1), path[i - 1].event, At(start, path, i));
    }
  }

  /** Two saved reservations of a run: different Issues, neither the whole repository, and
      a common path only between two interactive owners. */
  lemma ReachableReservationsAreApart(start: Ledger, path: seq<Saved>, i: nat, j: nat, k: nat)
    requires Exclusive(start) && Run(start, path) && i <= |path|
    requires j < |At(start, path, i)| && k < |At(start, path, i)| && j != k
    ensures var a, b := At(start, path, i)[j].entry, At(start, path, i)[k].entry;
      && a.issue != b.issue && a.kind.FootprintOnly? && b.kind.FootprintOnly?
      && (a.owner.Dispatch? || b.owner.Dispatch? ==> forall p :: !(p in a.footprint && p in b.footprint))
  {
    RunKeepsExclusive(start, path, i);
    var ledger := At(start, path, i);
    var a, b := ledger[j].entry, ledger[k].entry;
    assert Compatible(ledger[if j < k then j else k].entry, ledger[if j < k then k else j].entry);
    assert Overlapping(a, b) <==> Overlapping(b, a);
  }

  // ---- Shared contracts ----

  // No two reservations are of tasks that write one contract.
  ghost predicate ContractsApart(ledger: Ledger, view: View) {
    forall i, j | 0 <= i < j < |ledger| :: !WriteOneContract(view, ledger[i].entry.issue, ledger[j].entry.issue)
  }

  // Every claim and amendment of the run was assessed with this view of the tasks.
  ghost predicate AssessedWith(e: Event, view: View) {
    (e.Claimed? || e.AmendedTo?) ==> e.view == view
  }

  lemma WriteSymmetric(view: View, i: nat, j: nat)
    ensures WriteOneContract(view, i, j) <==> WriteOneContract(view, j, i)
  {
  }

  lemma PutKeepsContracts(ledger: Ledger, key: LedgerKey, entry: Reservation, view: View)
    requires DistinctKeys(ledger) && ContractsApart(ledger, view)
    requires forall i | 0 <= i < |ledger| && ledger[i].key != key :: !WriteOneContract(view, entry.issue, ledger[i].entry.issue)
    ensures ContractsApart(Put(ledger, key, entry), view)
  {
    hide WriteOneContract, Put, Remove;
    var k := PutAt(ledger, key, entry);
    var after := Put(ledger, key, entry);
    assert forall i | 0 <= i < |after| && i != k :: after[i] == ledger[i] && ledger[i].key != key;
    forall i | 0 <= i < |after| && i != k ensures !WriteOneContract(view, after[i].entry.issue, entry.issue) {
      WriteSymmetric(view, after[i].entry.issue, entry.issue);
    }
  }

  // Writing an entry of the same Issue at its own key.
  lemma PutSameIssue(ledger: Ledger, slot: Slot, entry: Reservation, view: View)
    requires DistinctKeys(ledger) && ContractsApart(ledger, view) && slot in ledger && slot.entry.issue == entry.issue
    ensures ContractsApart(Put(ledger, slot.key, entry), view)
  {
    hide WriteOneContract, Put;
    var k :| 0 <= k < |ledger| && ledger[k] == slot;
    forall i | 0 <= i < |ledger| && ledger[i].key != slot.key ensures !WriteOneContract(view, entry.issue, ledger[i].entry.issue) {
      WriteSymmetric(view, entry.issue, ledger[i].entry.issue);
      assert i < k || k < i;
    }
    PutKeepsContracts(ledger, slot.key, entry, view);
  }

  lemma RemoveKeepsContracts(ledger: Ledger, key: LedgerKey, view: View)
    requires ContractsApart(ledger, view)
    ensures ContractsApart(Remove(ledger, key), view)
  {
    hide WriteOneContract, Remove;
    var k := Remaining(ledger, key);
    var after := Remove(ledger, key);
    forall i, j | 0 <= i < j < |after| ensures !WriteOneContract(view, after[i].entry.issue, after[j].entry.issue) {
      var m, n := if i < k then i else i + 1, if j < k then j else j + 1;
      assert after[i] == ledger[m] && after[j] == ledger[n] && m < n;
    }
  }

  lemma ReplaceKeepsContracts(ledger: Ledger, previous: Reservation, updated: Reservation, view: View)
    requires ContractsApart(ledger, view) && updated.issue == previous.issue
    ensures ContractsApart(ReplaceHeld(ledger, previous, updated), view)
  {
    hide WriteOneContract;
    var after := ReplaceHeld(ledger, previous, updated);
    assert forall i | 0 <= i < |after| :: after[i].entry.issue == ledger[i].entry.issue;
  }

  lemma ClaimKeepsContracts(s: Ledger, candidate: Reservation, view: View, t: Ledger)
    requires Exclusive(s) && ContractsApart(s, view) && Step(s, Claimed(candidate, view), t)
    ensures ContractsApart(t, view)
  {
    hide WriteOneContract, ContractsApart, Compatible;
    EntriesAt(s, candidate, view);
    PutKeepsContracts(s, Number(candidate.issue), candidate, view);
  }

  lemma AmendKeepsContracts(s: Ledger, slot: Slot, footprint: seq<string>, view: View, t: Ledger)
    requires Exclusive(s) && ContractsApart(s, view) && Step(s, AmendedTo(slot, footprint, view), t)
    ensures ContractsApart(t, view)
  {
    hide WriteOneContract, ContractsApart, Compatible, Canonical;
    PutSameIssue(s, slot, slot.entry.(footprint := footprint), view);
  }

  lemma StepKeepsContracts(s: Ledger, e: Event, t: Ledger, view: View)
    requires Exclusive(s) && ContractsApart(s, view) && Step(s, e, t) && AssessedWith(e, view)
    ensures ContractsApart(t, view)
  {
    hide ContractsApart, Compatible, Unblocked, Canonical;
    match e
    case Claimed(candidate, _) => ClaimKeepsContracts(s, candidate, view, t);
    case AmendedTo(slot, footprint, _) => AmendKeepsContracts(s, slot, footprint, view, t);
    case RolledBack(issue) => RemoveKeepsContracts(s, Number(issue), view);
    case Released(key) => RemoveKeepsContracts(s, key, view);
    case Launched(slot, forced) => PutSameIssue(s, slot, slot.entry.(forcedSerial := forced), view);
    case CompletionStarted(slot) => PutSameIssue(s, slot, slot.entry.(completing := true), view);
    case Prepared(previous, worktree) => ReplaceKeepsContracts(s, previous, Advance(previous, Some(worktree), ActiveSaved), view);
    case Finalized(previous) => ReplaceKeepsContracts(s, previous, Advance(previous, previous.worktree, Completed), view);
  }

  /** As long as the tasks stay as they are, no ledger of a run holds two reservations whose
      tasks are both writers of one contract. */
  lemma {:induction false} RunKeepsContracts(start: Ledger, path: seq<Saved>, i: nat, view: View)
    requires Exclusive(start) && ContractsApart(start, view) && Run(start, path) && i <= |path|
    requires forall k | 0 <= k < |path| :: AssessedWith(path[k].event, view)
    ensures ContractsApart(At(start, path, i), view)
  {
    hide Exclusive, ContractsApart, Step, Run, AssessedWith;
    if i > 0 {
      RunKeepsContracts(start, path, i - 1, view);
      RunKeepsExclusive(start, path, i - 1);
      RunStep(start, path, i - 1);
      StepKeepsContracts(At(start, path, i - 1), path[i - 1].event, At(start, path, i), view);
    }
  }

  // ---- Canonical footprints ----

  ghost predicate AllCanonical(ledger: Ledger) {
    forall x | x in ledger :: Canonical(x.entry.footprint)
  }

  lemma StepKeepsCanonical(s: Ledger, e: Event, t: Ledger)
    requires AllCanonical(s) && Step(s, e, t)
    ensures AllCanonical(t)
  {
    hide Canonical, Unblocked, Put, Remove;
    match e
    case Claimed(candidate, _) => Members(s, Number(candidate.issue), candidate);
    case AmendedTo(slot, footprint, _) => Members(s, slot.key, slot.entry.(footprint := footprint));
    case Launched(slot, forced) => Members(s, slot.key, slot.entry.(forcedSerial := forced));
    case CompletionStarted(slot) => Members(s, slot.key, slot.entry.(completing := true));
    case RolledBack(issue) => RemovedMembers(s, Number(issue));
    case Released(key) => RemovedMembers(s, key);
    case Prepared(previous, worktree) => ReplacedMembers(s, previous, Advance(previous, Some(worktree), ActiveSaved));
    case Finalized(previous) => ReplacedMembers(s, previous, Advance(previous, previous.worktree, Completed));
  }

  lemma RemovedMembers(ledger: Ledger, key: LedgerKey)
    ensures forall x | x in Remove(ledger, key) :: x in ledger
  {
    RemoveIs(ledger, key);
  }

  lemma ReplacedMembers(ledger: Ledger, previous: Reservation, updated: Reservation)
    ensures forall x | x in ReplaceHeld(ledger, previous, updated) ::
      x in ledger || (x.entry == updated && exists y :: y in ledger && y.entry == previous)
  {
    var after := ReplaceHeld(ledger, previous, updated);
    forall x | x in after ensures x in ledger || (x.entry == updated && exists y :: y in ledger && y.entry == previous) {
      var i :| 0 <= i < |after| && after[i] == x;
      assert ledger[i] in ledger;
    }
  }

  /** Claims and amendments save canonical footprints only, so every saved footprint of a
      run is canonical. */
  lemma {:induction false} RunKeepsCanonical(start: Ledger, path: seq<Saved>, i: nat)
    requires AllCanonical(start) && Run(start, path) && i <= |path|
    ensures AllCanonical(At(start, path, i))
  {
    hide AllCanonical, Step, Run;
    if i > 0 {
      RunKeepsCanonical(start, path, i - 1);
      RunStep(start, path, i - 1);
      StepKeepsCanonical(At(start, path, i - 1), path[i - 1].event, At(start, path, i));
    }
  }

  // ---- What a claim keeps while it is held ----

  // The later entry of the same claim: same owner, kind and Issue, a footprint that only
  // grew at its end, and a stage that did not go back.
  predicate Continues(a: Reservation, b: Reservation) {
    && a.issue == b.issue && a.owner == b.owner && a.kind == b.kind && a.repo == b.repo
    && a.footprint <= b.footprint && StageRank(a.stage) <= StageRank(b.stage)
    && (a.completing ==> b.completing)
  }

  function StageRank(stage: ClaimStage): nat {
    match stage
    case Reserved => 0
    case ActiveSaved => 1
    case Completed => 2
  }

  ghost predicate DistinctClaims(ledger: Ledger) {
    forall i, j | 0 <= i < j < |ledger| :: ledger[i].entry.claim != ledger[j].entry.claim
  }

  lemma PutContinues(s: Ledger, key: LedgerKey, entry: Reservation, x: Slot, y: Slot)
    requires x in s && y in Put(s, key, entry) && x.entry.claim == y.entry.claim
    requires DistinctClaims(s)
    requires forall z | z in s && z.entry.claim == entry.claim :: Continues(z.entry, entry)
    ensures Continues(x.entry, y.entry)
  {
    Members(s, key, entry);
    OnlySlotOfClaim(s, x);
  }

  lemma RemoveContinues(s: Ledger, key: LedgerKey, x: Slot, y: Slot)
    requires x in s && y in Remove(s, key) && x.entry.claim == y.entry.claim
    requires DistinctClaims(s)
    ensures Continues(x.entry, y.entry)
  {
    Members(s, key, x.entry);
    OnlySlotOfClaim(s, x);
  }

  lemma PutKeepsDistinctClaims(s: Ledger, key: LedgerKey, entry: Reservation)
    requires DistinctClaims(s)
    requires forall z | z in s && z.entry.claim == entry.claim :: z.key == key
    requires DistinctKeys(s)
    ensures DistinctClaims(Put(s, key, entry))
  {
    var k := PutAt(s, key, entry);
    forall i | 0 <= i < |s| && i != k ensures s[i].entry.claim != entry.claim {
      assert s[i] in s;
    }
  }

  lemma RemoveKeepsDistinctClaims(s: Ledger, key: LedgerKey)
    requires DistinctClaims(s)
    ensures DistinctClaims(Remove(s, key))
  {
    RemoveIs(s, key);
  }

  /** One step changes nothing about a held claim but its progress and a longer footprint. */
  lemma StepContinuesClaims(s: Ledger, e: Event, t: Ledger, x: Slot, y: Slot)
    requires Exclusive(s) && DistinctClaims(s) && Step(s, e, t)
    requires x in s && y in t && x.entry.claim == y.entry.claim
    ensures Continues(x.entry, y.entry)
  {
    hide Compatible, Exclusive, Unblocked, DistinctClaims, DistinctKeys;
    match e
    case Claimed(candidate, _) => PutContinues(s, Number(candidate.issue), candidate, x, y);
    case AmendedTo(slot, footprint, _) =>
      OnlySlotOfClaim(s, slot);
      PutContinues(s, slot.key, slot.entry.(footprint := footprint), x, y);
    case RolledBack(issue) => RemoveContinues(s, Number(issue), x, y);
    case Released(key) => RemoveContinues(s, key, x, y);
    case Launched(slot, forced) =>
      OnlySlotOfClaim(s, slot);
      PutContinues(s, slot.key, slot.entry.(forcedSerial := forced), x, y);
    case CompletionStarted(slot) =>
      OnlySlotOfClaim(s, slot);
      PutContinues(s, slot.key, slot.entry.(completing := true), x, y);
    case Prepared(previous, worktree) =>
      var z :| z in s && z.entry == previous;
      OnlySlotOfClaim(s, z);
      ReplaceIsPut(s, z, Advance(previous, Some(worktree), ActiveSaved));
      PutContinues(s, z.key, Advance(previous, Some(worktree), ActiveSaved), x, y);
    case Finalized(previous) =>
      var z :| z in s && z.entry == previous;
      OnlySlotOfClaim(s, z);
      ReplaceIsPut(s, z, Advance(previous, previous.worktree, Completed));
      PutContinues(s, z.key, Advance(previous, previous.worktree, Completed), x, y);
  }

  lemma ExclusiveKeys(s: Ledger)
    requires Exclusive(s)
    ensures DistinctKeys(s)
  {
  }

  lemma OnlySlotOfClaim(s: Ledger, slot: Slot)
    requires slot in s && DistinctClaims(s)
    ensures forall z | z in s && z.entry.claim == slot.entry.claim :: z == slot
  {
    forall z | z in s && z.entry.claim == slot.entry.claim ensures z == slot {
      var i :| 0 <= i < |s| && s[i] == z;
      var j :| 0 <= j < |s| && s[j] == slot;
    }
  }

  /** Fresh claim ids stay distinct. */
  lemma StepKeepsDistinctClaims(s: Ledger, e: Event, t: Ledger)
    requires Exclusive(s) && DistinctClaims(s) && Step(s, e, t)
    ensures DistinctClaims(t)
  {
    hide Compatible, Exclusive, Unblocked, DistinctClaims, DistinctKeys;
    ExclusiveKeys(s);
    match e
    case Claimed(candidate, _) => PutKeepsDistinctClaims(s, Number(candidate.issue), candidate);
    case AmendedTo(slot, footprint, _) =>
      OnlySlotOfClaim(s, slot);
      PutKeepsDistinctClaims(s, slot.key, slot.entry.(footprint := footprint));
    case RolledBack(issue) => RemoveKeepsDistinctClaims(s, Number(issue));
    case Released(key) => RemoveKeepsDistinctClaims(s, key);
    case Launched(slot, forced) =>
      OnlySlotOfClaim(s, slot);
      PutKeepsDistinctClaims(s, slot.key, slot.entry.(forcedSerial := forced));
    case CompletionStarted(slot) =>
      OnlySlotOfClaim(s, slot);
      PutKeepsDistinctClaims(s, slot.key, slot.entry.(completing := true));
    case Prepared(previous, worktree) =>
      var z :| z in s && z.entry == previous;
      OnlySlotOfClaim(s, z);
      ReplaceIsPut(s, z, Advance(previous, Some(worktree), ActiveSaved));
      PutKeepsDistinctClaims(s, z.key, Advance(previous, Some(worktree), ActiveSaved));
    case Finalized(previous) =>
      var z :| z in s && z.entry == previous;
      OnlySlotOfClaim(s, z);
      ReplaceIsPut(s, z, Advance(previous, previous.worktree, Completed));
      PutKeepsDistinctClaims(s, z.key, Advance(previous, previous.worktree, Completed));
  }

  lemma {:induction false} RunKeepsDistinctClaims(start: Ledger, path: seq<Saved>, i: nat)
    requires Exclusive(start) && DistinctClaims(start) && Run(start, path) && i <= |path|
    ensures DistinctClaims(At(start, path, i))
  {
    hide Exclusive, Step, DistinctClaims, Run;
    if i > 0 {
      RunKeepsDistinctClaims(start, path, i - 1);
      RunKeepsExclusive(start, path, i - 1);
      RunStep(start, path, i - 1);
      StepKeepsDistinctClaims(At(start, path, i - 1), path[i - 1].event, At(start, path, i));
    }
  }

  // The claim is held at every point of this stretch of the run.
  ghost predicate HeldThroughout(start: Ledger, path: seq<Saved>, i: nat, j: nat, claim: string)
    requires i <= j <= |path|
  {
    forall k | i <= k <= j :: exists z :: z in At(start, path, k) && z.entry.claim == claim
  }

  /** As long as a claim is held its rights never change, except that its footprint may
      grow at the end; its stage never goes back. */
  lemma {:induction false} HeldClaimsContinue(start: Ledger, path: seq<Saved>, i: nat, j: nat, x: Slot, y: Slot)
    requires Exclusive(start) && DistinctClaims(start) && Run(start, path) && i <= j <= |path|
    requires x in At(start, path, i) && y in At(start, path, j) && x.entry.claim == y.entry.claim
    requires HeldThroughout(start, path, i, j, x.entry.claim)
    ensures Continues(x.entry, y.entry)
  {
    hide Exclusive, Step, DistinctClaims, Run, Continues;
    RunKeepsDistinctClaims(start, path, if i == j then i else j - 1);
    if i == j {
      OnlySlotOfClaim(At(start, path, i), x);
      ContinuesItself(x.entry, x.entry, x.entry);
    } else {
      assert exists z :: z in At(start, path, j - 1) && z.entry.claim == x.entry.claim;
      var z :| z in At(start, path, j - 1) && z.entry.claim == x.entry.claim;
      HeldClaimsContinue(start, path, i, j - 1, x, z);
      RunKeepsExclusive(start, path, j - 1);
      RunStep(start, path, j - 1);
      StepContinuesClaims(At(start, path, j - 1), path[j - 1].event, At(start, path, j), z, y);
      ContinuesItself(x.entry, z.entry, y.entry);
    }
  }

  lemma ContinuesItself(a: Reservation, b: Reservation, c: Reservation)
    ensures Continues(a, a)
    ensures Continues(a, b) && Continues(b, c) ==> Continues(a, c)
  {
  }

  // ---- Force-serial is only read on the held side ----

  /** A force-serial interactive reservation may be amended into the paths of another
      interactive one, although the other one could not have been amended into its own. */
  lemma ForcedSerialMayGrow(view: View)
    requires forall n :: view(n).None?
    ensures
      var forced := Reservation(1, ["a"], Interactive, FootprintOnly, Completed, true, "c1", "r", "b1", None, false);
      var plain := Reservation(2, ["b"], Interactive, FootprintOnly, Completed, false, "c2", "r", "b2", None, false);
      var ledger := [Slot(Number(1), forced), Slot(Number(2), plain)];
      && Exclusive(ledger)
      && Step(ledger, AmendedTo(ledger[0], ["a", "b"], view), Put(ledger, Number(1), forced.(footprint := ["a", "b"])))
      && Excludes(forced, plain.(footprint := ["b", "a"]), view)
  {
    var forced := Reservation(1, ["a"], Interactive, FootprintOnly, Completed, true, "c1", "r", "b1", None, false);
    var plain := Reservation(2, ["b"], Interactive, FootprintOnly, Completed, false, "c2", "r", "b2", None, false);
    var ledger := [Slot(Number(1), forced), Slot(Number(2), plain)];
    var amended := forced.(footprint := ["a", "b"]);
    assert Remove(ledger, Number(1)) == [ledger[1]];
    EntriesAt([ledger[1]], amended, view);
    TwoNamesAreCanonical("a", "b");
    assert ledger[0] in ledger;
    assert "a" in forced.footprint && "a" in plain.(footprint := ["b", "a"]).footprint;
    assert Overlapping(forced, plain.(footprint := ["b", "a"]));
  }
}
