/** The completion protocol as a step machine over snapshots, its invariant, and what
    follows for every run. A crash needs no step of its own: the snapshots of a run are
    exactly what a crash can leave behind. */
module CompletionRuns {
  import opened Wrappers
  import opened CompletionRecords
  import opened StatusLabels

  datatype Event =
    // Ledger saves.
    | ReservationSaved(candidate: Record)
    | OutcomeSaved(key: JournalKey, posting: Posting)
    | LabelsSaved(key: JournalKey, observed: set<string>)
    | HandoffSaved(key: JournalKey)
    | DecisionSaved(key: JournalKey, decision: Decision)
    | PolicySaved(key: JournalKey, kind: string, applied: bool)
    // Remote effects.
    | OutcomePostedAs(key: JournalKey, comment: Comment)
    | LabelAdded(issue: nat, name: string)
    | LabelRemoved(issue: nat, name: string)
    | LabelsObserved(issue: nat, labels: set<string>)
    // The rest of the system.
    | ForeignCommentsChanged
    | ActiveChanged

  datatype Entry = Entry(event: Event, after: Snapshot)

  // ---- What a reservation demands of the ledger ----

  // Every other record of the Issue is finished, in the same repository, and belongs to
  // another generation.
  predicate Admissible(state: RunState, key: JournalKey) {
    forall k | k in state.journal && k.issue == key.issue ::
      k.repo == key.repo && k.generation != key.generation && Durable(state, k)
  }

  ghost predicate Reservable(codec: Codec, state: RunState, candidate: Record) {
    && candidate.stage.Reserved?
    && WellFormed(codec, candidate.id)
    && candidate.id.Key() !in state.journal
    && Admissible(state, candidate.id.Key())
  }

  function Reserve(state: RunState, candidate: Record): RunState {
    state.(
      reservations := state.reservations[candidate.id.Key().Reservation() := candidate.id],
      journal := state.journal[candidate.id.Key() := candidate])
  }

  // Insert or overwrite a downstream policy; a receipt that exists follows the journal.
  function ApplyPolicy(state: RunState, key: JournalKey, kind: string, applied: bool): RunState
    requires key in state.journal
  {
    var record := state.journal[key].(policies := state.journal[key].policies[kind := applied]);
    state.(
      journal := state.journal[key := record],
      receipts := if key in state.receipts then state.receipts[key := record] else state.receipts)
  }

  ghost predicate ActiveStep(before: map<nat, Active>, after: map<nat, Active>) {
    forall i | i in after && after[i].mirror.Some? ::
      i in before && before[i].claim == after[i].claim && before[i].repo == after[i].repo
      && before[i].mirror == after[i].mirror
  }

  // People may add, edit and delete comments, but not those that carry a completion id.
  ghost predicate ForeignStep(codec: Codec, before: map<nat, seq<Comment>>, after: map<nat, seq<Comment>>) {
    forall i: nat :: Completions(codec, CommentsOf(before, i)) == Completions(codec, CommentsOf(after, i))
  }

  function Completions(codec: Codec, comments: seq<Comment>): seq<Comment> {
    if comments == [] then []
    else
      (if CompletionOf(codec, comments[0]).Some? then [comments[0]] else []) + Completions(codec, comments[1..])
  }

  function Post(comments: map<nat, seq<Comment>>, issue: nat, comment: Comment): map<nat, seq<Comment>> {
    comments[issue := CommentsOf(comments, issue) + [comment]]
  }

  // No comment of the Issue carries this completion id.
  predicate Unposted(codec: Codec, comments: map<nat, seq<Comment>>, key: JournalKey) {
    forall c | c in CommentsOf(comments, key.issue) :: CompletionOf(codec, c) != Some(key.completion)
  }

  ghost predicate Step(codec: Codec, s: Snapshot, e: Event, t: Snapshot) {
    match e
    case ReservationSaved(candidate) =>
      Reservable(codec, s.state, candidate) && t == s.(state := Reserve(s.state, candidate))
    case OutcomePostedAs(key, comment) =>
      && key in s.state.journal && s.state.journal[key].stage.Reserved?
      && comment.body == s.state.journal[key].id.payload.body
      && Unposted(codec, s.comments, key)
      && t == s.(comments := Post(s.comments, key.issue, comment))
    case OutcomeSaved(key, posting) =>
      && key in s.state.journal && s.state.journal[key].stage.Reserved?
      && Comment(Some(posting), s.state.journal[key].id.payload.body) in CommentsOf(s.comments, key.issue)
      && Saved(s, t, s.state.journal[key].(stage := OutcomePosted, posting := Some(posting)), false)
    case LabelsSaved(key, observed) =>
      && key in s.state.journal && (s.state.journal[key].stage.OutcomePosted? || s.state.journal[key].stage.LabelConfirmed?)
      && Settled(observed, s.state.journal[key].id.target)
      && Saved(s, t, s.state.journal[key].(stage := LabelConfirmed, observed := Some(observed)), false)
    case HandoffSaved(key) =>
      && key in s.state.journal && s.state.journal[key].stage.LabelConfirmed?
      && Saved(s, t, s.state.journal[key].(stage := HandedOff), true)
    case DecisionSaved(key, decision) =>
      && key in s.state.journal && !s.state.journal[key].stage.HandedOff?
      && t == s.(state := s.state.(journal := s.state.journal[key := s.state.journal[key].(decision := decision)]))
    case PolicySaved(key, kind, applied) =>
      key in s.state.journal && t == s.(state := ApplyPolicy(s.state, key, kind, applied))
    case ForeignCommentsChanged =>
      ForeignStep(codec, s.comments, t.comments) && t.state == s.state
    case ActiveChanged =>
      ActiveStep(s.state.active, t.state.active) && t == s.(state := s.state.(active := t.state.active))
    case _ => t == s
  }

  ghost predicate Saved(s: Snapshot, t: Snapshot, record: Record, handoff: bool) {
    var saved := SaveRecord(s.state, record, handoff);
    && saved.Some? && t == s.(state := saved.value)
    && (record.id.issue in s.state.active ==> s.state.active[record.id.issue].repo == record.id.repo)
  }

  // ---- The invariant ----

  // Two records of one Issue share the repository and never the generation.
  ghost predicate Apart(j: JournalKey, k: JournalKey) {
    j.issue == k.issue ==> j.repo == k.repo && (j.generation == k.generation ==> j == k)
  }

  // What depends on identities alone: keys, one repository and one record per generation
  // for each Issue, and an Issue reservation that repeats a journal identity.
  ghost predicate Shape(codec: Codec, journal: map<JournalKey, Record>, reservations: map<ReservationKey, Identity>) {
    && (forall k | k in journal ::
          journal[k].id.Key() == k && WellFormed(codec, journal[k].id) && k.Reservation() in reservations)
    && (forall j, k {:trigger Apart(j, k)} | j in journal && k in journal :: Apart(j, k))
    && (forall r | r in reservations ::
          && reservations[r].Key().Reservation() == r
          && reservations[r].Key() in journal
          && journal[reservations[r].Key()].id == reservations[r])
  }

  // What concerns one record: its evidence, its receipt, and that it is the reserved one
  // while it is open.
  ghost predicate RecordOk(st: RunState, k: JournalKey)
    requires k in st.journal
  {
    var r := st.journal[k];
    && (Rank(r.stage) >= 1 ==> r.posting.Some?)
    && (Rank(r.stage) >= 2 ==> r.observed.Some? && Settled(r.observed.value, r.id.target))
    && (k in st.receipts <==> r.stage.HandedOff?)
    && (k in st.receipts ==> st.receipts[k] == r)
    && (!r.stage.HandedOff? ==> k.Reservation() in st.reservations && st.reservations[k.Reservation()] == r.id)
  }

  ghost predicate LedgerInv(codec: Codec, st: RunState) {
    && Shape(codec, st.journal, st.reservations)
    && (forall k | k in st.journal :: RecordOk(st, k))
    && st.receipts.Keys <= st.journal.Keys
  }

  function MirrorKey(issue: nat, active: Active, mirror: Mirror): JournalKey {
    JournalKey(active.repo, issue, active.claim, mirror.completion)
  }

  // An active entry repeats nothing, or its own journal record: the verdict, the body, the
  // stage and the evidence. It says "ready for handoff" only when the receipt exists.
  ghost predicate MirrorOk(st: RunState, issue: nat)
    requires issue in st.active
  {
    var active := st.active[issue];
    active.mirror.Some? ==>
      var key := MirrorKey(issue, active, active.mirror.value);
      && key in st.journal
      && active.mirror.value.stage == st.journal[key].stage
      && active.mirror.value.verdict == st.journal[key].id.verdict && active.mirror.value.body == st.journal[key].id.payload.body
      && (Rank(st.journal[key].stage) >= 1 ==> active.mirror.value.posting == st.journal[key].posting)
      && (active.mirror.value.handoffReady <==> key in st.receipts)
  }

  // No two comments of a list carry the same completion id.
  ghost predicate UniqueIds(codec: Codec, cs: seq<Comment>) {
    forall m, n | 0 <= m < n < |cs| && CompletionOf(codec, cs[m]).Some? ::
      CompletionOf(codec, cs[m]) != CompletionOf(codec, cs[n])
  }

  // A stage past Reserved is backed by the frozen comment.
  ghost predicate Backed(comments: map<nat, seq<Comment>>, r: Record) {
    Rank(r.stage) >= 1 ==> Comment(r.posting, r.id.payload.body) in CommentsOf(comments, r.id.issue)
  }

  ghost predicate Inv(codec: Codec, s: Snapshot) {
    && LedgerInv(codec, s.state)
    && (forall i | i in s.state.active :: MirrorOk(s.state, i))
    && (forall i | i in s.comments :: UniqueIds(codec, s.comments[i]))
    && (forall k | k in s.state.journal :: Backed(s.comments, s.state.journal[k]))
  }

  /** At most one completion of an Issue lacks its receipt. */
  lemma AtMostOneOpen(codec: Codec, st: RunState, j: JournalKey, k: JournalKey)
    requires LedgerInv(codec, st)
    requires j in st.journal && k in st.journal && j.issue == k.issue
    requires !Durable(st, j) && !Durable(st, k)
    ensures j == k
  {
    assert RecordOk(st, j) && RecordOk(st, k);
    assert Apart(j, k);
  }

  // ---- Preservation ----

  lemma SameIdsKeepShape(codec: Codec, journal: map<JournalKey, Record>, after: map<JournalKey, Record>,
                         reservations: map<ReservationKey, Identity>)
    requires Shape(codec, journal, reservations)
    requires after.Keys == journal.Keys
    requires forall k | k in journal :: after[k].id == journal[k].id
    ensures Shape(codec, after, reservations)
  {
    forall k | k in after
      ensures after[k].id.Key() == k && WellFormed(codec, after[k].id) && k.Reservation() in reservations {
      assert k in journal;
    }
    forall r | r in reservations
      ensures reservations[r].Key() in after && after[reservations[r].Key()].id == reservations[r] {
      assert reservations[r].Key() in journal;
    }
  }

  // Replacing one record, with or without its receipt.
  lemma RewriteKeepsLedger(codec: Codec, st: RunState, t: RunState, key: JournalKey, record: Record)
    requires LedgerInv(codec, st)
    requires key in st.journal && record.id == st.journal[key].id
    requires t.journal == st.journal[key := record] && t.reservations == st.reservations
    requires t.receipts == st.receipts || t.receipts == st.receipts[key := record]
    requires RecordOk(t, key)
    ensures LedgerInv(codec, t)
  {
    hide Shape, RecordOk;
    SameIdsKeepShape(codec, st.journal, t.journal, st.reservations);
    forall k | k in t.journal ensures RecordOk(t, k) {
      if k != key {
        RecordOkFrame(st, t, k);
      }
    }
  }

  lemma RecordOkFrame(st: RunState, t: RunState, k: JournalKey)
    requires k in st.journal && RecordOk(st, k)
    requires k in t.journal && t.journal[k] == st.journal[k]
    requires k in st.receipts <==> k in t.receipts
    requires k in st.receipts ==> t.receipts[k] == st.receipts[k]
    requires t.reservations == st.reservations
    ensures RecordOk(t, k)
  {
  }

  lemma RewriteKeepsMirrors(st: RunState, t: RunState, key: JournalKey)
    requires key in st.journal && key in t.journal
    requires t.journal == st.journal[key := t.journal[key]]
    requires forall k :: k != key ==> (k in t.receipts <==> k in st.receipts)
    requires forall i | i in t.active :: i in st.active && MirrorOk(st, i)
    requires forall i | i in t.active && i != key.issue :: t.active[i] == st.active[i]
    requires key.issue in t.active ==> MirrorOk(t, key.issue)
    ensures forall i | i in t.active :: MirrorOk(t, i)
  {
  }

  lemma ReserveKeepsReservations(codec: Codec, st: RunState, candidate: Record, r: ReservationKey)
    requires LedgerInv(codec, st)
    requires candidate.id.Key() !in st.journal
    requires r in Reserve(st, candidate).reservations
    ensures var t := Reserve(st, candidate);
      && t.reservations[r].Key().Reservation() == r
      && t.reservations[r].Key() in t.journal && t.journal[t.reservations[r].Key()].id == t.reservations[r]
  {
    hide RecordOk, WellFormed;
    if r != candidate.id.Key().Reservation() {
      assert st.reservations[r].Key() in st.journal;
    }
  }

  lemma ReserveKeepsApart(codec: Codec, st: RunState, candidate: Record, j: JournalKey, k: JournalKey)
    requires LedgerInv(codec, st) && Admissible(st, candidate.id.Key())
    requires j in Reserve(st, candidate).journal && k in Reserve(st, candidate).journal
    ensures Apart(j, k)
  {
    hide RecordOk, WellFormed, Durable;
  }

  lemma JournalShape(codec: Codec, st: RunState, k: JournalKey)
    requires LedgerInv(codec, st) && k in st.journal
    ensures st.journal[k].id.Key() == k && WellFormed(codec, st.journal[k].id) && k.Reservation() in st.reservations
  {
    hide RecordOk, WellFormed, Apart;
  }

  lemma ReserveKeepsShape(codec: Codec, st: RunState, candidate: Record)
    requires LedgerInv(codec, st)
    requires Reservable(codec, st, candidate)
    ensures Shape(codec, Reserve(st, candidate).journal, Reserve(st, candidate).reservations)
  {
    hide LedgerInv, RecordOk, WellFormed, Apart, Durable, Admissible;
    var t := Reserve(st, candidate);
    forall k | k in t.journal
      ensures t.journal[k].id.Key() == k && WellFormed(codec, t.journal[k].id) && k.Reservation() in t.reservations
    {
      if k in st.journal {
        JournalShape(codec, st, k);
      }
    }
    forall j, k | j in t.journal && k in t.journal ensures Apart(j, k) {
      ReserveKeepsApart(codec, st, candidate, j, k);
    }
    forall r | r in t.reservations
      ensures t.reservations[r].Key().Reservation() == r
      ensures t.reservations[r].Key() in t.journal && t.journal[t.reservations[r].Key()].id == t.reservations[r]
    {
      ReserveKeepsReservations(codec, st, candidate, r);
    }
  }

  lemma ReserveKeepsRecord(codec: Codec, st: RunState, candidate: Record, k: JournalKey)
    requires LedgerInv(codec, st) && k in Reserve(st, candidate).journal
    requires Reservable(codec, st, candidate)
    ensures RecordOk(Reserve(st, candidate), k)
  {
    hide Shape, WellFormed;
    var key := candidate.id.Key();
    if k != key {
      assert RecordOk(st, k);
      if k.issue == key.issue {
        assert Durable(st, k);
      }
    } else {
      assert k !in st.receipts;
    }
  }

  lemma ReserveKeepsLedger(codec: Codec, st: RunState, candidate: Record)
    requires LedgerInv(codec, st)
    requires Reservable(codec, st, candidate)
    ensures LedgerInv(codec, Reserve(st, candidate))
  {
    hide Shape, RecordOk, Reservable;
    ReserveKeepsShape(codec, st, candidate);
    forall k | k in Reserve(st, candidate).journal ensures RecordOk(Reserve(st, candidate), k) {
      ReserveKeepsRecord(codec, st, candidate, k);
    }
  }

  lemma PostKeepsIds(codec: Codec, before: seq<Comment>, comment: Comment, completion: string)
    requires UniqueIds(codec, before)
    requires forall c | c in before :: CompletionOf(codec, c) != Some(completion)
    requires CompletionOf(codec, comment) == Some(completion)
    ensures UniqueIds(codec, before + [comment])
  {
  }

  // Filtering keeps exactly the completion comments, in order.
  lemma {:induction false} CompletionsMembers(codec: Codec, cs: seq<Comment>, c: Comment)
    requires CompletionOf(codec, c).Some?
    ensures c in Completions(codec, cs) <==> c in cs
  {
    if cs != [] {
      CompletionsMembers(codec, cs[1..], c);
      assert cs == [cs[0]] + cs[1..];
    }
  }

  lemma {:induction false} UniqueIdsFiltered(codec: Codec, cs: seq<Comment>)
    ensures UniqueIds(codec, cs) <==> UniqueIds(codec, Completions(codec, cs))
  {
    if cs != [] {
      var rest := cs[1..];
      var filtered := Completions(codec, rest);
      UniqueIdsFiltered(codec, rest);
      UniqueIdsCons(codec, cs);
      if CompletionOf(codec, cs[0]).Some? {
        var whole := [cs[0]] + filtered;
        assert whole[1..] == filtered;
        UniqueIdsCons(codec, whole);
        forall c | CompletionOf(codec, c).Some? ensures c in filtered <==> c in rest {
          CompletionsMembers(codec, rest, c);
        }
      } else {
        assert Completions(codec, cs) == filtered;
      }
    }
  }

  lemma UniqueIdsCons(codec: Codec, cs: seq<Comment>)
    requires cs != []
    ensures UniqueIds(codec, cs) <==>
      (UniqueIds(codec, cs[1..])
       && (CompletionOf(codec, cs[0]).Some? ==>
             forall c | c in cs[1..] :: CompletionOf(codec, c) != CompletionOf(codec, cs[0])))
  {
    var rest := cs[1..];
    assert forall m | 0 <= m < |rest| :: rest[m] == cs[m + 1];
    if UniqueIds(codec, rest) && (CompletionOf(codec, cs[0]).Some? ==>
            forall c | c in rest :: CompletionOf(codec, c) != CompletionOf(codec, cs[0])) {
      forall m, n | 0 <= m < n < |cs| && CompletionOf(codec, cs[m]).Some?
        ensures CompletionOf(codec, cs[m]) != CompletionOf(codec, cs[n])
      {
        assert cs[n] == rest[n - 1] && rest[n - 1] in rest;
        if m > 0 {
          assert cs[m] == rest[m - 1];
        }
      }
    }
    if UniqueIds(codec, cs) && CompletionOf(codec, cs[0]).Some? {
      forall c | c in rest ensures CompletionOf(codec, c) != CompletionOf(codec, cs[0]) {
        var n :| 0 <= n < |rest| && rest[n] == c;
        assert cs[n + 1] == c;
      }
    }
  }

  lemma ForeignStepKeepsComments(codec: Codec, s: Snapshot, comments: map<nat, seq<Comment>>)
    requires Inv(codec, s) && ForeignStep(codec, s.comments, comments)
    ensures forall i | i in comments :: UniqueIds(codec, comments[i])
    ensures forall k | k in s.state.journal :: Backed(comments, s.state.journal[k])
  {
    forall i | i in comments ensures UniqueIds(codec, comments[i]) {
      UniqueIdsFiltered(codec, CommentsOf(s.comments, i));
      UniqueIdsFiltered(codec, CommentsOf(comments, i));
    }
    forall k | k in s.state.journal ensures Backed(comments, s.state.journal[k]) {
      var r := s.state.journal[k];
      if Rank(r.stage) >= 1 {
        var c := Comment(r.posting, r.id.payload.body);
        assert Backed(s.comments, r) && WellFormed(codec, r.id);
        CompletionsMembers(codec, CommentsOf(s.comments, r.id.issue), c);
        CompletionsMembers(codec, CommentsOf(comments, r.id.issue), c);
      }
    }
  }

  // A publication save that moves a record on keeps every clause.
  lemma SaveKeepsLedger(codec: Codec, s: Snapshot, t: Snapshot, key: JournalKey, record: Record, handoff: bool)
    requires LedgerInv(codec, s.state) && Saved(s, t, record, handoff)
    requires key in s.state.journal && record.id == s.state.journal[key].id && record.id.Key() == key
    requires !s.state.journal[key].stage.HandedOff?
    requires handoff <==> record.stage.HandedOff?
    requires Rank(record.stage) >= 1 && record.posting.Some?
    requires Rank(record.stage) >= 2 ==> record.observed.Some? && Settled(record.observed.value, record.id.target)
    ensures LedgerInv(codec, t.state)
  {
    hide Shape;
    assert RecordOk(s.state, key);
    RewriteKeepsLedger(codec, s.state, t.state, key, record);
  }

  lemma SaveKeepsMirrors(s: Snapshot, t: Snapshot, key: JournalKey, record: Record, handoff: bool)
    requires Saved(s, t, record, handoff)
    requires key in s.state.journal && record.id.Key() == key && (handoff <==> record.stage.HandedOff?)
    requires key !in s.state.receipts && record.posting.Some?
    requires forall i | i in s.state.active :: MirrorOk(s.state, i)
    ensures forall i | i in t.state.active :: MirrorOk(t.state, i)
  {
    assert key in t.state.receipts <==> handoff;
    RewriteKeepsMirrors(s.state, t.state, key);
  }

  lemma SaveKeepsInv(codec: Codec, s: Snapshot, t: Snapshot, key: JournalKey, record: Record, handoff: bool)
    requires Inv(codec, s) && Saved(s, t, record, handoff)
    requires key in s.state.journal && !s.state.journal[key].stage.HandedOff?
    requires record.id == s.state.journal[key].id
    requires handoff <==> record.stage.HandedOff?
    requires Rank(record.stage) >= 1 && record.posting.Some? && Backed(s.comments, record)
    requires Rank(record.stage) >= 2 ==> record.observed.Some? && Settled(record.observed.value, record.id.target)
    ensures Inv(codec, t)
  {
    hide MirrorOk, Backed, Saved, UniqueIds, WellFormed;
    assert record.id.Key() == key && key !in s.state.receipts by {
      assert RecordOk(s.state, key);
    }
    hide Shape, RecordOk;
    SaveKeepsLedger(codec, s, t, key, record, handoff);
    SaveKeepsMirrors(s, t, key, record, handoff);
    hide LedgerInv;
    SaveKeepsBacking(s, t, record, handoff);
  }

  lemma SaveKeepsBacking(s: Snapshot, t: Snapshot, record: Record, handoff: bool)
    requires Saved(s, t, record, handoff)
    requires Backed(s.comments, record)
    requires forall k | k in s.state.journal :: Backed(s.comments, s.state.journal[k])
    ensures t.comments == s.comments
    ensures forall k | k in t.state.journal :: Backed(t.comments, t.state.journal[k])
  {
    hide Backed;
  }

  // The saved record keeps its posting backing when it was already past Reserved.
  lemma LaterSaveKeepsInv(codec: Codec, s: Snapshot, t: Snapshot, key: JournalKey, record: Record, handoff: bool)
    requires Inv(codec, s) && Saved(s, t, record, handoff)
    requires key in s.state.journal && 1 <= Rank(s.state.journal[key].stage) <= 2
    requires record.id == s.state.journal[key].id && record.posting == s.state.journal[key].posting
    requires Rank(record.stage) >= 2 && record.observed.Some? && Settled(record.observed.value, record.id.target)
    requires handoff <==> record.stage.HandedOff?
    ensures Inv(codec, t)
  {
    hide Saved, Inv;
    InvRecord(codec, s, key);
    SaveKeepsInv(codec, s, t, key, record, handoff);
  }

  lemma InvRecord(codec: Codec, s: Snapshot, key: JournalKey)
    requires Inv(codec, s) && key in s.state.journal
    ensures RecordOk(s.state, key) && s.state.journal[key].id.Key() == key && Backed(s.comments, s.state.journal[key])
  {
  }

  lemma OpenHasNoReceipt(st: RunState, key: JournalKey)
    requires key in st.journal && RecordOk(st, key) && !st.journal[key].stage.HandedOff?
    ensures key !in st.receipts
  {
  }

  lemma RewriteStepKeepsInv(codec: Codec, s: Snapshot, t: Snapshot, key: JournalKey, record: Record)
    requires Inv(codec, s) && key in s.state.journal
    requires record == s.state.journal[key].(decision := record.decision, policies := record.policies)
    requires t.comments == s.comments && t.state.active == s.state.active && t.state.reservations == s.state.reservations
    requires t.state.journal == s.state.journal[key := record]
    requires t.state.receipts == if key in s.state.receipts then s.state.receipts[key := record] else s.state.receipts
    ensures Inv(codec, t)
  {
    hide Shape, RecordOk, UniqueIds, MirrorOk, Backed;
    RewriteRecordOk(s.state, t.state, key, record);
    RewriteKeepsLedger(codec, s.state, t.state, key, record);
    forall i | i in t.state.active ensures MirrorOk(t.state, i) {
      MirrorFrame(s.state, t.state, i);
    }
    forall k | k in t.state.journal ensures Backed(t.comments, t.state.journal[k]) {
      BackedFrame(s.comments, s.state.journal[k], t.state.journal[k]);
    }
  }

  lemma RewriteRecordOk(st: RunState, t: RunState, key: JournalKey, record: Record)
    requires key in st.journal && RecordOk(st, key)
    requires record == st.journal[key].(decision := record.decision, policies := record.policies)
    requires t.reservations == st.reservations && key in t.journal && t.journal[key] == record
    requires t.receipts == if key in st.receipts then st.receipts[key := record] else st.receipts
    ensures RecordOk(t, key)
  {
  }

  lemma MirrorFrame(st: RunState, t: RunState, i: nat)
    requires i in st.active && MirrorOk(st, i)
    requires t.active == st.active && t.receipts.Keys == st.receipts.Keys
    requires forall k | k in st.journal ::
      && k in t.journal && t.journal[k].id == st.journal[k].id
      && t.journal[k].stage == st.journal[k].stage && t.journal[k].posting == st.journal[k].posting
    ensures MirrorOk(t, i)
  {
  }

  lemma BackedFrame(comments: map<nat, seq<Comment>>, r: Record, t: Record)
    requires Backed(comments, r)
    requires t.id == r.id && t.stage == r.stage && t.posting == r.posting
    ensures Backed(comments, t)
  {
  }

  lemma ReserveStepKeepsInv(codec: Codec, s: Snapshot, t: Snapshot, candidate: Record)
    requires Inv(codec, s) && Step(codec, s, ReservationSaved(candidate), t)
    ensures Inv(codec, t)
  {
    hide WellFormed, Admissible, Shape, RecordOk;
    ReserveKeepsLedger(codec, s.state, candidate);
    assert Backed(t.comments, candidate) && candidate.id.Key() !in s.state.journal;
    hide LedgerInv, Reservable, UniqueIds, MirrorOk, Backed;
    forall i | i in t.state.active ensures MirrorOk(t.state, i) {
      MirrorFrame(s.state, t.state, i);
    }
    forall k | k in t.state.journal ensures Backed(t.comments, t.state.journal[k]) {
      assert k != candidate.id.Key() ==> Backed(s.comments, s.state.journal[k]);
    }
  }

  lemma JournalWellFormed(codec: Codec, st: RunState, key: JournalKey)
    requires LedgerInv(codec, st) && key in st.journal
    ensures WellFormed(codec, st.journal[key].id) && st.journal[key].id.Key() == key
  {
  }

  lemma PostStepKeepsInv(codec: Codec, s: Snapshot, t: Snapshot, key: JournalKey, comment: Comment)
    requires Inv(codec, s) && Step(codec, s, OutcomePostedAs(key, comment), t)
    ensures Inv(codec, t)
  {
    hide LedgerInv, MirrorOk, UniqueIds;
    assert CompletionOf(codec, comment) == Some(key.completion) by {
      JournalWellFormed(codec, s.state, key);
    }
    PostKeepsIds(codec, CommentsOf(s.comments, key.issue), comment, key.completion);
    forall k | k in t.state.journal ensures Backed(t.comments, t.state.journal[k]) {
      assert Backed(s.comments, s.state.journal[k]);
    }
  }

  lemma ActiveStepKeepsInv(codec: Codec, s: Snapshot, t: Snapshot)
    requires Inv(codec, s) && Step(codec, s, ActiveChanged, t)
    ensures Inv(codec, t)
  {
    forall k | k in t.state.journal ensures RecordOk(t.state, k) {
      assert RecordOk(s.state, k);
    }
    forall i | i in t.state.active ensures MirrorOk(t.state, i) {
      if t.state.active[i].mirror.Some? {
        assert MirrorOk(s.state, i);
      }
    }
  }

  lemma OutcomeStepKeepsInv(codec: Codec, s: Snapshot, t: Snapshot, key: JournalKey, posting: Posting)
    requires Inv(codec, s) && Step(codec, s, OutcomeSaved(key, posting), t)
    ensures Inv(codec, t)
  {
    hide Inv, Saved;
    var record := s.state.journal[key].(stage := OutcomePosted, posting := Some(posting));
    InvRecord(codec, s, key);
    SaveKeepsInv(codec, s, t, key, record, false);
  }

  lemma LabelsStepKeepsInv(codec: Codec, s: Snapshot, t: Snapshot, key: JournalKey, observed: set<string>)
    requires Inv(codec, s) && Step(codec, s, LabelsSaved(key, observed), t)
    ensures Inv(codec, t)
  {
    hide Inv, Saved;
    var record := s.state.journal[key].(stage := LabelConfirmed, observed := Some(observed));
    LaterSaveKeepsInv(codec, s, t, key, record, false);
  }

  lemma HandoffStepKeepsInv(codec: Codec, s: Snapshot, t: Snapshot, key: JournalKey)
    requires Inv(codec, s) && Step(codec, s, HandoffSaved(key), t)
    ensures Inv(codec, t)
  {
    hide Saved, Inv;
    InvRecord(codec, s, key);
    LaterSaveKeepsInv(codec, s, t, key, s.state.journal[key].(stage := HandedOff), true);
  }

  lemma DecisionStepKeepsInv(codec: Codec, s: Snapshot, t: Snapshot, key: JournalKey, decision: Decision)
    requires Inv(codec, s) && Step(codec, s, DecisionSaved(key, decision), t)
    ensures Inv(codec, t)
  {
    hide Inv, RecordOk, Backed;
    InvRecord(codec, s, key);
    assert key !in s.state.receipts by { OpenHasNoReceipt(s.state, key); }
    RewriteStepKeepsInv(codec, s, t, key, s.state.journal[key].(decision := decision));
  }

  lemma PolicyStepKeepsInv(codec: Codec, s: Snapshot, t: Snapshot, key: JournalKey, kind: string, applied: bool)
    requires Inv(codec, s) && Step(codec, s, PolicySaved(key, kind, applied), t)
    ensures Inv(codec, t)
  {
    hide Inv;
    var r := s.state.journal[key];
    RewriteStepKeepsInv(codec, s, t, key, r.(policies := r.policies[kind := applied]));
  }

  lemma OtherStepKeepsInv(codec: Codec, s: Snapshot, e: Event, t: Snapshot)
    requires Inv(codec, s) && Step(codec, s, e, t)
    requires e.LabelAdded? || e.LabelRemoved? || e.LabelsObserved? || e.ForeignCommentsChanged?
    ensures Inv(codec, t)
  {
    hide LedgerInv, MirrorOk;
    if e.ForeignCommentsChanged? {
      ForeignStepKeepsComments(codec, s, t.comments);
    }
  }

  /** Every step of the protocol keeps the invariant. */
  lemma StepKeepsInv(codec: Codec, s: Snapshot, e: Event, t: Snapshot)
    requires Inv(codec, s) && Step(codec, s, e, t)
    ensures Inv(codec, t)
  {
    hide Inv, Step;
    match e
    case ReservationSaved(candidate) => ReserveStepKeepsInv(codec, s, t, candidate);
    case OutcomePostedAs(key, comment) => PostStepKeepsInv(codec, s, t, key, comment);
    case OutcomeSaved(key, posting) => OutcomeStepKeepsInv(codec, s, t, key, posting);
    case LabelsSaved(key, observed) => LabelsStepKeepsInv(codec, s, t, key, observed);
    case HandoffSaved(key) => HandoffStepKeepsInv(codec, s, t, key);
    case DecisionSaved(key, decision) => DecisionStepKeepsInv(codec, s, t, key, decision);
    case PolicySaved(key, kind, applied) => PolicyStepKeepsInv(codec, s, t, key, kind, applied);
    case ActiveChanged => ActiveStepKeepsInv(codec, s, t);
    case _ => OtherStepKeepsInv(codec, s, e, t);
  }

  // ---- Runs ----

  // A run from a snapshot: every entry is one step after the one before it.
  ghost predicate Run(codec: Codec, start: Snapshot, path: seq<Entry>) {
    forall i | 0 <= i < |path| :: Step(codec, At(start, path, i), path[i].event, path[i].after)
  }

  // The snapshot in which step i starts; At(start, path, |path|) is the last one.
  function At(start: Snapshot, path: seq<Entry>, i: nat): Snapshot
    requires i <= |path|
  {
    if i == 0 then start else path[i - 1].after
  }

  /** In every run the invariant holds wherever a crash may strike. */
  lemma {:induction false} RunKeepsInv(codec: Codec, start: Snapshot, path: seq<Entry>, i: nat)
    requires Inv(codec, start) && Run(codec, start, path) && i <= |path|
    ensures Inv(codec, At(start, path, i))
  {
    hide Inv, Step;
    if i > 0 {
      RunKeepsInv(codec, start, path, i - 1);
      StepKeepsInv(codec, At(start, path, i - 1), path[i - 1].event, path[i - 1].after);
    }
  }

  /** The Issue never holds two comments with the same completion id, and a record past
      Reserved has exactly one, with the body frozen at reservation. */
  lemma ExactlyOneComment(codec: Codec, start: Snapshot, path: seq<Entry>, i: nat, key: JournalKey)
    requires Inv(codec, start) && Run(codec, start, path) && i <= |path|
    ensures forall m, n ::
      var cs := CommentsOf(At(start, path, i).comments, key.issue);
      (0 <= m < |cs| && 0 <= n < |cs| && CompletionOf(codec, cs[m]).Some?
       && CompletionOf(codec, cs[m]) == CompletionOf(codec, cs[n])) ==> m == n
    ensures
      var s := At(start, path, i);
      key in s.state.journal && Rank(s.state.journal[key].stage) >= 1 ==>
        exists n :: 0 <= n < |CommentsOf(s.comments, key.issue)|
          && CommentsOf(s.comments, key.issue)[n].body == s.state.journal[key].id.payload.body
          && CompletionOf(codec, CommentsOf(s.comments, key.issue)[n]) == Some(key.completion)
          && forall m | 0 <= m < |CommentsOf(s.comments, key.issue)| && m != n ::
               CompletionOf(codec, CommentsOf(s.comments, key.issue)[m]) != Some(key.completion)
  {
    hide Run, MirrorOk, LedgerInv;
    RunKeepsInv(codec, start, path, i);
    var s := At(start, path, i);
    var cs := CommentsOf(s.comments, key.issue);
    assert UniqueIds(codec, cs);
    if key in s.state.journal && Rank(s.state.journal[key].stage) >= 1 {
      var r := s.state.journal[key];
      JournalWellFormed(codec, s.state, key);
      assert Backed(s.comments, r);
      var c := Comment(r.posting, r.id.payload.body);
      assert c in cs;
      var n :| 0 <= n < |cs| && cs[n] == c;
      assert CompletionOf(codec, cs[n]) == Some(key.completion);
    }
  }

  lemma InvHasLedger(codec: Codec, s: Snapshot)
    requires Inv(codec, s)
    ensures LedgerInv(codec, s.state)
  {
  }

  // What one step may do to an existing record: the identity is frozen, the stage never
  // regresses, posting evidence is written once and a finished record only gains policies.
  ghost predicate Progresses(r: Record, t: Record) {
    && t.id == r.id
    && Rank(t.stage) >= Rank(r.stage)
    && (Rank(r.stage) >= 1 ==> t.posting == r.posting)
    && (r.stage.HandedOff? ==> t == r.(policies := t.policies))
  }

  lemma SavedProgresses(s: Snapshot, t: Snapshot, record: Record, handoff: bool, key: JournalKey)
    requires Saved(s, t, record, handoff) && key in s.state.journal
    requires record.id.Key() == key ==> Progresses(s.state.journal[key], record)
    ensures key in t.state.journal && Progresses(s.state.journal[key], t.state.journal[key])
    ensures key in s.state.receipts ==> key in t.state.receipts
  {
  }

  lemma OutcomeProgresses(codec: Codec, s: Snapshot, t: Snapshot, k: JournalKey, posting: Posting, key: JournalKey)
    requires LedgerInv(codec, s.state) && Step(codec, s, OutcomeSaved(k, posting), t) && key in s.state.journal
    ensures key in t.state.journal && Progresses(s.state.journal[key], t.state.journal[key])
    ensures key in s.state.receipts ==> key in t.state.receipts
  {
    hide Saved, RecordOk, WellFormed, Apart;
    assert s.state.journal[k].id.Key() == k;
    hide LedgerInv;
    SavedProgresses(s, t, s.state.journal[k].(stage := OutcomePosted, posting := Some(posting)), false, key);
  }

  lemma LabelsProgress(codec: Codec, s: Snapshot, t: Snapshot, k: JournalKey, observed: set<string>, key: JournalKey)
    requires LedgerInv(codec, s.state) && Step(codec, s, LabelsSaved(k, observed), t) && key in s.state.journal
    ensures key in t.state.journal && Progresses(s.state.journal[key], t.state.journal[key])
    ensures key in s.state.receipts ==> key in t.state.receipts
  {
    hide Saved, RecordOk, WellFormed, Apart;
    assert s.state.journal[k].id.Key() == k;
    hide LedgerInv;
    SavedProgresses(s, t, s.state.journal[k].(stage := LabelConfirmed, observed := Some(observed)), false, key);
  }

  lemma HandoffProgresses(codec: Codec, s: Snapshot, t: Snapshot, k: JournalKey, key: JournalKey)
    requires LedgerInv(codec, s.state) && Step(codec, s, HandoffSaved(k), t) && key in s.state.journal
    ensures key in t.state.journal && Progresses(s.state.journal[key], t.state.journal[key])
    ensures key in s.state.receipts ==> key in t.state.receipts
  {
    hide Saved, RecordOk, WellFormed, Apart;
    assert s.state.journal[k].id.Key() == k;
    hide LedgerInv;
    SavedProgresses(s, t, s.state.journal[k].(stage := HandedOff), true, key);
  }

  lemma StepProgresses(codec: Codec, s: Snapshot, e: Event, t: Snapshot, key: JournalKey)
    requires LedgerInv(codec, s.state) && Step(codec, s, e, t) && key in s.state.journal
    ensures key in t.state.journal && Progresses(s.state.journal[key], t.state.journal[key])
    ensures key in s.state.receipts ==> key in t.state.receipts
  {
    hide LedgerInv;
    if e.OutcomeSaved? || e.LabelsSaved? || e.HandoffSaved? {
      hide Step;
      match e
      case OutcomeSaved(k, posting) => OutcomeProgresses(codec, s, t, k, posting, key);
      case LabelsSaved(k, observed) => LabelsProgress(codec, s, t, k, observed, key);
      case HandoffSaved(k) => HandoffProgresses(codec, s, t, k, key);
      case _ =>
    } else {
      hide Saved, WellFormed, Admissible;
    }
  }

  /** Persisted stages never regress and frozen fields never change, over any run. */
  lemma {:induction false} RunProgresses(codec: Codec, start: Snapshot, path: seq<Entry>, i: nat, j: nat, key: JournalKey)
    requires Inv(codec, start) && Run(codec, start, path) && i <= j <= |path|
    requires key in At(start, path, i).state.journal
    ensures key in At(start, path, j).state.journal
    ensures Progresses(At(start, path, i).state.journal[key], At(start, path, j).state.journal[key])
    ensures key in At(start, path, i).state.receipts ==> key in At(start, path, j).state.receipts
  {
    hide Step, Inv, LedgerInv;
    if i < j {
      RunProgresses(codec, start, path, i, j - 1, key);
      RunKeepsInv(codec, start, path, j - 1);
      assert LedgerInv(codec, At(start, path, j - 1).state) by {
        InvHasLedger(codec, At(start, path, j - 1));
      }
      StepProgresses(codec, At(start, path, j - 1), path[j - 1].event, path[j - 1].after, key);
    }
  }

  /** An identity in the ledger is the same at any later point of a run. */
  lemma IdentityStays(codec: Codec, start: Snapshot, path: seq<Entry>, more: seq<Entry>, key: JournalKey)
    requires Inv(codec, start) && Run(codec, start, path + more)
    requires key in At(start, path, |path|).state.journal
    ensures key in At(start, path + more, |path + more|).state.journal
    ensures At(start, path + more, |path + more|).state.journal[key].id == At(start, path, |path|).state.journal[key].id
  {
    hide Inv, Run;
    assert At(start, path + more, |path|) == At(start, path, |path|);
    RunProgresses(codec, start, path + more, |path|, |path + more|, key);
  }

  // ---- Settled labels before every handoff ----

  // This event saved settled labels for the completion of the key.
  predicate Confirms(e: Event, key: JournalKey, target: string) {
    e.LabelsSaved? && e.key == key && Settled(e.observed, target)
  }

  // What a publication save leaves at a key.
  lemma SavedAt(s: Snapshot, t: Snapshot, record: Record, handoff: bool, key: JournalKey)
    requires Saved(s, t, record, handoff) && key in t.state.journal
    ensures if record.id.Key() == key then t.state.journal[key] == record
      else key in s.state.journal && t.state.journal[key] == s.state.journal[key]
  {
  }

  predicate IsConfirmed(journal: map<JournalKey, Record>, key: JournalKey) {
    key in journal && Rank(journal[key].stage) >= 2
  }

  lemma OutcomeConfirmsNothing(codec: Codec, s: Snapshot, t: Snapshot, k: JournalKey, posting: Posting, key: JournalKey)
    requires LedgerInv(codec, s.state) && Step(codec, s, OutcomeSaved(k, posting), t)
    ensures IsConfirmed(t.state.journal, key) ==> IsConfirmed(s.state.journal, key)
  {
    hide LedgerInv, Saved;
    JournalWellFormed(codec, s.state, k);
    if key in t.state.journal {
      SavedAt(s, t, s.state.journal[k].(stage := OutcomePosted, posting := Some(posting)), false, key);
    }
  }

  lemma LabelsConfirmOne(codec: Codec, s: Snapshot, t: Snapshot, k: JournalKey, observed: set<string>, key: JournalKey)
    requires LedgerInv(codec, s.state) && Step(codec, s, LabelsSaved(k, observed), t)
    ensures IsConfirmed(t.state.journal, key) ==>
      IsConfirmed(s.state.journal, key) || Confirms(LabelsSaved(k, observed), key, t.state.journal[key].id.target)
  {
    hide LedgerInv, Saved, Settled;
    JournalWellFormed(codec, s.state, k);
    if key in t.state.journal {
      SavedAt(s, t, s.state.journal[k].(stage := LabelConfirmed, observed := Some(observed)), false, key);
    }
  }

  lemma HandoffConfirmsNothing(codec: Codec, s: Snapshot, t: Snapshot, k: JournalKey, key: JournalKey)
    requires LedgerInv(codec, s.state) && Step(codec, s, HandoffSaved(k), t)
    ensures IsConfirmed(t.state.journal, key) ==> IsConfirmed(s.state.journal, key)
  {
    hide LedgerInv, Saved;
    JournalWellFormed(codec, s.state, k);
    if key in t.state.journal {
      SavedAt(s, t, s.state.journal[k].(stage := HandedOff), true, key);
    }
  }

  /** Only a save of settled labels confirms a record. */
  lemma ConfirmedByStep(codec: Codec, s: Snapshot, e: Event, t: Snapshot, key: JournalKey)
    requires LedgerInv(codec, s.state) && Step(codec, s, e, t)
    requires !IsConfirmed(s.state.journal, key) && IsConfirmed(t.state.journal, key)
    ensures Confirms(e, key, t.state.journal[key].id.target)
  {
    hide LedgerInv, Confirms;
    if e.OutcomeSaved? || e.LabelsSaved? || e.HandoffSaved? {
      hide Step, IsConfirmed;
      match e
      case OutcomeSaved(k, posting) => OutcomeConfirmsNothing(codec, s, t, k, posting, key);
      case LabelsSaved(k, observed) => LabelsConfirmOne(codec, s, t, k, observed, key);
      case HandoffSaved(k) => HandoffConfirmsNothing(codec, s, t, k, key);
      case _ =>
    } else {
      hide Saved, WellFormed, Admissible;
    }
  }

  /** Whatever the interleaving: a record that this run took to confirmed labels or to its
      handoff was confirmed in the run by a save of labels that are settled for its target,
      and the observation it carries now is settled as well. */
  lemma {:induction false} HandedOffOnlyWhenSettled(codec: Codec, start: Snapshot, path: seq<Entry>, j: nat, key: JournalKey)
    requires Inv(codec, start) && Run(codec, start, path) && j <= |path|
    requires IsConfirmed(At(start, path, j).state.journal, key)
    ensures var r := At(start, path, j).state.journal[key];
      r.observed.Some? && Settled(r.observed.value, r.id.target)
    ensures !IsConfirmed(start.state.journal, key) ==>
      exists i :: 0 <= i < j && Confirms(path[i].event, key, At(start, path, j).state.journal[key].id.target)
  {
    hide Step, Inv, LedgerInv, Settled, Confirms;
    RunKeepsInv(codec, start, path, j);
    InvRecord(codec, At(start, path, j), key);
    if j > 0 {
      var s := At(start, path, j - 1);
      RunKeepsInv(codec, start, path, j - 1);
      InvHasLedger(codec, s);
      if IsConfirmed(s.state.journal, key) {
        HandedOffOnlyWhenSettled(codec, start, path, j - 1, key);
        StepProgresses(codec, s, path[j - 1].event, path[j - 1].after, key);
      } else {
        ConfirmedByStep(codec, s, path[j - 1].event, path[j - 1].after, key);
      }
    }
  }
}
