/** Resolving a task to a branch from one snapshot of pull requests, canonical name first. */
module BranchResolution {
  import opened Wrappers
  import opened Ordering
  import opened BranchNaming

  datatype Closing = Number(number: int) | Malformed

  // `details` stands for every other field, so that two records can contradict each other.
  datatype PrRecord = PrRecord(
    number: int, headRef: string, open: bool, crossRepository: Option<bool>, closes: seq<Closing>, details: string)

  datatype Identity = Identity(number: int, headRef: string)

  function IdentityOf(pr: PrRecord): Identity {
    Identity(pr.number, pr.headRef)
  }

  predicate IdentityBelow(a: Identity, b: Identity) {
    a.number < b.number || (a.number == b.number && Below(a.headRef, b.headRef))
  }

  // ---- The snapshot ----

  // A record that no other record of its identity contradicts.
  predicate Consistent(prs: seq<PrRecord>, pr: PrRecord) {
    pr in prs && forall other | other in prs && IdentityOf(other) == IdentityOf(pr) :: other == pr
  }

  // Strictly increasing identities.
  predicate Ordered(prs: seq<PrRecord>) {
    forall i, j | 0 <= i < j < |prs| :: IdentityBelow(IdentityOf(prs[i]), IdentityOf(prs[j]))
  }

  ghost predicate IsSnapshot(snapshot: seq<PrRecord>, prs: seq<PrRecord>) {
    Ordered(snapshot) && forall pr :: pr in snapshot <==> Consistent(prs, pr)
  }

  lemma IdentityTotal(a: Identity, b: Identity, c: Identity)
    ensures a == b || IdentityBelow(a, b) || IdentityBelow(b, a)
    ensures !(IdentityBelow(a, b) && IdentityBelow(b, a)) && !IdentityBelow(a, a)
    ensures IdentityBelow(a, b) && IdentityBelow(b, c) ==> IdentityBelow(a, c)
  {
    BelowTotal(a.headRef, b.headRef);
    BelowTotal(a.headRef, a.headRef);
    if Below(a.headRef, b.headRef) && Below(b.headRef, c.headRef) {
      BelowTransitive(a.headRef, b.headRef, c.headRef);
    }
  }

  function InsertPr(pr: PrRecord, prs: seq<PrRecord>): (r: seq<PrRecord>)
    ensures forall x :: x in r <==> x == pr || x in prs
  {
    if prs == [] || IdentityBelow(IdentityOf(pr), IdentityOf(prs[0])) then [pr] + prs
    else
      assert prs == [prs[0]] + prs[1..];
      [prs[0]] + InsertPr(pr, prs[1..])
  }

  lemma {:induction false} InsertOrdered(pr: PrRecord, prs: seq<PrRecord>)
    requires Ordered(prs) && forall x | x in prs :: IdentityOf(x) != IdentityOf(pr)
    ensures Ordered(InsertPr(pr, prs))
  {
    hide IdentityBelow;
    if prs != [] {
      IdentityTotal(IdentityOf(pr), IdentityOf(prs[0]), IdentityOf(prs[0]));
      if IdentityBelow(IdentityOf(pr), IdentityOf(prs[0])) {
        forall j | 0 <= j < |prs| ensures IdentityBelow(IdentityOf(pr), IdentityOf(prs[j])) {
          IdentityTotal(IdentityOf(pr), IdentityOf(prs[0]), IdentityOf(prs[j]));
        }
      } else {
        InsertOrdered(pr, prs[1..]);
        var rest := InsertPr(pr, prs[1..]);
        assert prs[0] in prs;
        forall j | 0 <= j < |rest| ensures IdentityBelow(IdentityOf(prs[0]), IdentityOf(rest[j])) {
          assert rest[j] in rest;
          if rest[j] != pr {
            var k :| 0 <= k < |prs[1..]| && prs[1..][k] == rest[j];
            assert prs[k + 1] == rest[j];
          }
        }
      }
    }
  }

  /** A snapshot is determined by the set of its records. */
  lemma {:induction false} SnapshotUnique(a: seq<PrRecord>, b: seq<PrRecord>)
    requires Ordered(a) && Ordered(b) && forall pr :: pr in a <==> pr in b
    ensures a == b
  {
    hide IdentityBelow;
    assert (a != [] ==> a[0] in a) && (b != [] ==> b[0] in b);
    if a != [] && b != [] {
      var i :| 0 <= i < |b| && b[i] == a[0];
      var j :| 0 <= j < |a| && a[j] == b[0];
      IdentityTotal(IdentityOf(a[0]), IdentityOf(b[0]), IdentityOf(a[0]));
      assert a[0] == b[0];
      forall pr ensures pr in a[1..] <==> pr in b[1..] {
        IdentityTotal(IdentityOf(a[0]), IdentityOf(pr), IdentityOf(pr));
        if pr in a[1..] {
          var k :| 0 < k < |a| && a[k] == pr;
          assert IdentityBelow(IdentityOf(a[0]), IdentityOf(pr)) && pr in b && pr != b[0];
        }
        if pr in b[1..] {
          var k :| 0 < k < |b| && b[k] == pr;
          assert IdentityBelow(IdentityOf(b[0]), IdentityOf(pr)) && pr in a && pr != a[0];
        }
      }
      SnapshotUnique(a[1..], b[1..]);
    }
  }

  // ---- Capabilities ----

  datatype Source = Canonical | PrFallback

  // What a lookup of the canonical name showed; a failed one is indeterminate, never absent.
  datatype BranchState = Present | Absent | Indeterminate

  datatype Capability = FetchMerge | LinkPr | Delete | VerifyMerged

  datatype Resolution = Resolution(
    issue: nat, canonicalBranch: string, branch: string, source: Source, state: BranchState, pr: Option<PrRecord>)
  {
    predicate Operational() {
      if source.Canonical? then state.Present? else state.Absent? && pr.Some?
    }

    predicate Allows(capability: Capability) {
      match capability
      case LinkPr => Operational() && pr.Some?
      case Delete => Operational() && source.Canonical?
      case VerifyMerged => false
      case FetchMerge => Operational()
    }
  }

  datatype Receipt = Receipt(issue: nat, branch: string, oid: string, source: Source) {
    predicate Allows(capability: Capability) {
      match capability
      case Delete => source.Canonical?
      case VerifyMerged => true
      case _ => false
    }
  }

  predicate IsHexDigit(c: char) {
    '0' <= c <= '9' || 'a' <= c <= 'f' || 'A' <= c <= 'F'
  }

  predicate IsCommitOid(oid: string) {
    |oid| == 40 && forall c | c in oid :: IsHexDigit(c)
  }

  datatype ReceiptError = NotMergeable | InvalidOid

  function ReceiptFromResolution(resolution: Resolution, oid: string): Result<Receipt, ReceiptError> {
    if !resolution.Allows(FetchMerge) then Err(NotMergeable)
    else if !IsCommitOid(oid) then Err(InvalidOid)
    else Ok(Receipt(resolution.issue, resolution.branch, oid, resolution.source))
  }

  // ---- Resolving ----

  predicate Matches(pr: PrRecord, issue: nat, subtask: string) {
    && pr.open && pr.crossRepository == Some(false)
    && BranchMatchesTask(pr.headRef, issue, Some(subtask))
    && (forall c | c in pr.closes :: c.Number?)
    && (pr.closes == [] || Number(issue) in pr.closes)
  }

  function CanonicalName(issue: nat, subtask: string): string {
    BuildTaskBranchName(issue, Some(subtask), DEFAULT_TASK_BRANCH_PREFIX).value
  }

  function Carrying(issue: nat, subtask: string): PrRecord -> bool {
    pr => Matches(pr, issue, subtask)
  }

  // Pull requests from this branch, or from any other.
  function From(branch: string, same: bool): PrRecord -> bool {
    (pr: PrRecord) => (pr.headRef == branch) == same
  }

  function Select(prs: seq<PrRecord>, keep: PrRecord -> bool): (r: seq<PrRecord>)
    ensures forall pr :: pr in r <==> pr in prs && keep(pr)
  {
    if prs == [] then []
    else
      assert prs == [prs[0]] + prs[1..];
      (if keep(prs[0]) then [prs[0]] else []) + Select(prs[1..], keep)
  }

  function Identities(prs: seq<PrRecord>): set<Identity> {
    set pr | pr in prs :: IdentityOf(pr)
  }

  lemma NoIdentities()
    ensures Identities([]) == {}
  {
  }

  // The first candidate, if all candidates share one identity.
  function TheUnique(candidates: seq<PrRecord>): Option<PrRecord> {
    NoIdentities();
    if |Identities(candidates)| == 1 then Some(candidates[0]) else None
  }

  function Resolve(snapshot: seq<PrRecord>, issue: nat, subtask: string, state: BranchState): Resolution {
    var canonical := CanonicalName(issue, subtask);
    var matches := Select(snapshot, Carrying(issue, subtask));
    var canonicalPr := TheUnique(Select(matches, From(canonical, true)));
    if state.Present? then Resolution(issue, canonical, canonical, Canonical, state, canonicalPr)
    else
      var fallback := TheUnique(Select(matches, From(canonical, false)));
      if state.Absent? && fallback.Some? then
        Resolution(issue, canonical, fallback.value.headRef, PrFallback, state, fallback)
      else Resolution(issue, canonical, canonical, Canonical, state, None)
  }

  class TaskBranchResolver {
    const prs: seq<PrRecord>

    // Group by identity, drop identities whose records disagree, order the rest.
    constructor (records: seq<PrRecord>)
      ensures IsSnapshot(prs, records)
    {
      var grouped: map<Identity, seq<PrRecord>> := map[];
      for i := 0 to |records|
        invariant Groups(grouped, records[..i])
      {
        var identity := IdentityOf(records[i]);
        GroupOne(grouped, records[..i], records[i]);
        assert records[..i + 1] == records[..i] + [records[i]];
        grouped := grouped[identity := (if identity in grouped then grouped[identity] else []) + [records[i]]];
      }
      assert records[..|records|] == records;
      var pending := grouped.Keys;
      var unique: seq<PrRecord> := [];
      while pending != {}
        invariant pending <= grouped.Keys
        invariant Ordered(unique)
        invariant forall pr :: pr in unique <==> Consistent(records, pr) && IdentityOf(pr) !in pending
        decreases |pending|
      {
        var identity :| identity in pending;
        var group := grouped[identity];
        pending := pending - {identity};
        GroupVerdict(grouped, records, identity);
        if forall record | record in group :: record == group[0] {
          InsertOrdered(group[0], unique);
          unique := InsertPr(group[0], unique);
        }
      }
      forall pr | Consistent(records, pr) ensures IdentityOf(pr) in grouped {
      }
      prs := unique;
    }

    predicate HasVerifiedCandidate(issue: nat, subtask: string): (found: bool)
      ensures found <==> exists pr :: pr in prs && Matches(pr, issue, subtask)
    {
      var matches := Select(prs, Carrying(issue, subtask));
      assert matches != [] ==> matches[0] in matches;
      matches != []
    }

    function ResolveTask(issue: nat, subtask: string, state: BranchState): Resolution {
      Resolve(prs, issue, subtask, state)
    }
  }

  lemma NothingSelected(prs: seq<PrRecord>)
    ensures prs != [] ==> exists pr :: pr in prs
  {
    assert prs != [] ==> prs[0] in prs;
  }

  /** Where no pull request carries the subtask, the canonical name is all there is. */
  lemma NoCandidateNoPr(resolver: TaskBranchResolver, issue: nat, subtask: string, state: BranchState)
    requires !resolver.HasVerifiedCandidate(issue, subtask)
    ensures var canonical := CanonicalName(issue, subtask);
      resolver.ResolveTask(issue, subtask, state) == Resolution(issue, canonical, canonical, Canonical, state, None)
  {
    hide Matches, CanonicalName;
    hide TaskBranchResolver.HasVerifiedCandidate;
    var matches := Select(resolver.prs, Carrying(issue, subtask));
    NothingSelected(matches);
    NoIdentities();
  }

  // Each group holds exactly the records of its identity.
  ghost predicate Groups(grouped: map<Identity, seq<PrRecord>>, records: seq<PrRecord>) {
    && (forall pr | pr in records :: IdentityOf(pr) in grouped)
    && (forall id | id in grouped :: grouped[id] != []
          && forall pr :: pr in grouped[id] <==> pr in records && IdentityOf(pr) == id)
  }

  lemma GroupOne(grouped: map<Identity, seq<PrRecord>>, records: seq<PrRecord>, pr: PrRecord)
    requires Groups(grouped, records)
    ensures
      var id := IdentityOf(pr);
      Groups(grouped[id := (if id in grouped then grouped[id] else []) + [pr]], records + [pr])
  {
  }

  lemma GroupVerdict(grouped: map<Identity, seq<PrRecord>>, records: seq<PrRecord>, id: Identity)
    requires Groups(grouped, records) && id in grouped
    ensures IdentityOf(grouped[id][0]) == id
    ensures (forall record | record in grouped[id] :: record == grouped[id][0]) <==> Consistent(records, grouped[id][0])
    ensures forall pr | Consistent(records, pr) && IdentityOf(pr) == id :: pr == grouped[id][0]
  {
    assert grouped[id][0] in grouped[id];
  }

  // ---- What a resolution means ----

  /** The result depends only on the set of records: their order and repetitions never
      matter. */
  lemma ResolveDependsOnSet(records: seq<PrRecord>, others: seq<PrRecord>, snapshot: seq<PrRecord>, other: seq<PrRecord>,
                            issue: nat, subtask: string, state: BranchState)
    requires forall pr :: pr in records <==> pr in others
    requires IsSnapshot(snapshot, records) && IsSnapshot(other, others)
    ensures snapshot == other
    ensures Resolve(snapshot, issue, subtask, state) == Resolve(other, issue, subtask, state)
  {
    forall pr ensures Consistent(records, pr) <==> Consistent(others, pr) {
    }
    SnapshotUnique(snapshot, other);
  }

  lemma OneIdentity(ids: set<Identity>, a: Identity, b: Identity)
    requires |ids| == 1 && a in ids && b in ids
    ensures a == b
  {
    assert |ids - {a}| == 0;
  }

  lemma UniqueMeaning(candidates: seq<PrRecord>, pr: PrRecord)
    ensures TheUnique(candidates) == Some(pr) ==> pr in candidates && forall c | c in candidates :: IdentityOf(c) == IdentityOf(pr)
    ensures pr in candidates && (forall c | c in candidates :: IdentityOf(c) == IdentityOf(pr)) ==> TheUnique(candidates).Some?
  {
    var ids := Identities(candidates);
    if pr in candidates && forall c | c in candidates :: IdentityOf(c) == IdentityOf(pr) {
      assert ids == {IdentityOf(pr)};
    }
    if TheUnique(candidates) == Some(pr) {
      forall c | c in candidates ensures IdentityOf(c) == IdentityOf(pr) {
        assert IdentityOf(c) in ids && IdentityOf(pr) in ids;
        OneIdentity(ids, IdentityOf(c), IdentityOf(pr));
      }
    }
  }

  // The only open, same-repository pull request of the subtask, apart from the canonical name.
  ghost predicate OnlyFallback(records: seq<PrRecord>, issue: nat, subtask: string, pr: PrRecord) {
    && Consistent(records, pr) && Matches(pr, issue, subtask) && pr.headRef != CanonicalName(issue, subtask)
    && forall other | Consistent(records, other) && Matches(other, issue, subtask)
                      && other.headRef != CanonicalName(issue, subtask) :: other == pr
  }

  // The only open, same-repository pull request of the subtask from its canonical name.
  ghost predicate OnlyCanonical(records: seq<PrRecord>, issue: nat, subtask: string, pr: PrRecord) {
    && Consistent(records, pr) && Matches(pr, issue, subtask) && pr.headRef == CanonicalName(issue, subtask)
    && forall other | Consistent(records, other) && Matches(other, issue, subtask)
                      && other.headRef == CanonicalName(issue, subtask) :: other == pr
  }

  /** What it takes to carry a subtask: open, from the same repository, a name that parses to
      the Issue and the subtask, and closing nothing or this Issue among numbered Issues. */
  lemma MatchesIff(pr: PrRecord, issue: nat, subtask: string)
    ensures Matches(pr, issue, subtask) <==>
      && pr.open && pr.crossRepository == Some(false)
      && (exists parsed :: ParseTaskBranchName(pr.headRef) == Some(parsed) && parsed.issue == issue
            && parsed.subtask == if subtask == "" then "task" else subtask)
      && (pr.closes != [] ==> Number(issue) in pr.closes) && forall c | c in pr.closes :: exists n :: c == Number(n)
  {
  }

  /** Canonical first: the branch is the canonical name unless that name was observed to be
      absent and exactly one other pull request carries the subtask. Contradictory records are
      never used. */
  lemma ResolutionMeaning(records: seq<PrRecord>, snapshot: seq<PrRecord>, issue: nat, subtask: string, state: BranchState)
    requires IsSnapshot(snapshot, records)
    ensures
      var r := Resolve(snapshot, issue, subtask, state);
      && (r.pr.Some? ==> Consistent(records, r.pr.value) && Matches(r.pr.value, issue, subtask))
      && (r.source.PrFallback? <==> state.Absent? && exists pr :: OnlyFallback(records, issue, subtask, pr))
      && (r.source.PrFallback? ==> r.pr.Some? && OnlyFallback(records, issue, subtask, r.pr.value) && r.branch == r.pr.value.headRef)
      && (r.source.Canonical? ==> r.branch == CanonicalName(issue, subtask))
      && (state.Present? ==> forall pr :: r.pr == Some(pr) <==> OnlyCanonical(records, issue, subtask, pr))
      && (!state.Present? && r.source.Canonical? ==> r.pr.None?)
      && r.canonicalBranch == CanonicalName(issue, subtask) && r.state == state && r.issue == issue
  {
    hide Matches;
    var r := Resolve(snapshot, issue, subtask, state);
    var canonical := CanonicalName(issue, subtask);
    var matches := Select(snapshot, Carrying(issue, subtask));
    var same := Select(matches, From(canonical, true));
    var different := Select(matches, From(canonical, false));
    if TheUnique(same).Some? {
      UniqueMeaning(same, TheUnique(same).value);
    }
    if TheUnique(different).Some? {
      var pr := TheUnique(different).value;
      UniqueMeaning(different, pr);
      assert OnlyFallback(records, issue, subtask, pr);
    }
    if pr :| OnlyFallback(records, issue, subtask, pr) {
      UniqueMeaning(different, pr);
    }
    forall pr ensures TheUnique(same) == Some(pr) <==> OnlyCanonical(records, issue, subtask, pr) {
      UniqueMeaning(same, pr);
      assert forall c :: c in same <==> Consistent(records, c) && Matches(c, issue, subtask) && c.headRef == canonical;
    }
  }

  /** Deleting is allowed exactly when the canonical branch itself was observed, and a
      receipt taken from a resolution keeps that; an unclear observation allows nothing. */
  lemma DeleteOnlyCanonicalPresent(records: seq<PrRecord>, snapshot: seq<PrRecord>, issue: nat, subtask: string,
                                   state: BranchState, oid: string)
    requires IsSnapshot(snapshot, records)
    ensures
      var r := Resolve(snapshot, issue, subtask, state);
      && (r.Allows(Delete) <==> state.Present?)
      && (r.Allows(Delete) ==> r.branch == CanonicalName(issue, subtask))
      && (r.Allows(FetchMerge) <==>
            state.Present? || (state.Absent? && exists pr :: OnlyFallback(records, issue, subtask, pr)))
      && (state.Indeterminate? ==> forall c :: !r.Allows(c))
    ensures
      var receipt := ReceiptFromResolution(Resolve(snapshot, issue, subtask, state), oid);
      receipt.Ok? && receipt.value.Allows(Delete) ==>
        state.Present? && receipt.value.branch == CanonicalName(issue, subtask) && receipt.value.issue == issue && IsCommitOid(oid)
  {
    ResolutionMeaning(records, snapshot, issue, subtask, state);
  }
}
