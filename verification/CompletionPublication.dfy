/** One locked, resumable publication of a reserved completion: post the frozen body,
    confirm the labels, hand off together with the replay receipt. */
module CompletionPublication {
  import opened Wrappers
  import opened CompletionRecords
  import opened StatusLabels
  import opened CompletionRuns
  import opened CompletionWorld
  import opened LabelReconciliation
  import opened OutcomePosting

  datatype PublicationError =
    | GenerationChanged | LabelsUnavailable | ProtectedLabel | SaveFailed
    | PostingFailed(posting: PostingError) | LabelsFailed(status: LabelStatus)

  // ---- What the log of a publication looks like ----

  ghost predicate NoHandoff(trace: seq<Entry>) {
    forall i | 0 <= i < |trace| :: !trace[i].event.HandoffSaved?
  }

  // A handoff directly follows, in the same call, a settled observation of the labels
  // and the save of exactly that observation.
  ghost predicate HandoffJustified(trace: seq<Entry>, i: nat, key: JournalKey, target: string)
    requires i < |trace|
  {
    && i >= 2
    && trace[i].event == HandoffSaved(key)
    && trace[i - 2].event.LabelsObserved? && trace[i - 2].event.issue == key.issue
    && Settled(trace[i - 2].event.labels, target)
    && trace[i - 1].event == LabelsSaved(key, trace[i - 2].event.labels)
  }

  ghost predicate HandoffsJustified(trace: seq<Entry>, key: JournalKey, target: string) {
    forall i | 0 <= i < |trace| && trace[i].event.HandoffSaved? :: HandoffJustified(trace, i, key, target)
  }

  // A body is posted only after the labels were seen without anything protected.
  ghost predicate PostsAfterLook(trace: seq<Entry>, issue: nat, target: string) {
    forall j | 0 <= j < |trace| && trace[j].event.OutcomePostedAs? ::
      exists i :: 0 <= i < j && ShowsNothingProtected(trace[i].event, issue, target)
  }

  predicate ShowsNothingProtected(e: Event, issue: nat, target: string) {
    e.LabelsObserved? && e.issue == issue && !HasProtected(e.labels, target)
  }

  ghost predicate NoPost(trace: seq<Entry>) {
    forall i | 0 <= i < |trace| :: !trace[i].event.OutcomePostedAs?
  }

  lemma NoPostAfter(first: seq<Entry>, last: seq<Entry>, issue: nat, target: string)
    requires PostsAfterLook(first, issue, target) && NoPost(last)
    ensures PostsAfterLook(first + last, issue, target)
  {
    hide ShowsNothingProtected;
    var whole := first + last;
    forall j | 0 <= j < |whole| && whole[j].event.OutcomePostedAs?
      ensures exists i :: 0 <= i < j && ShowsNothingProtected(whole[i].event, issue, target)
    {
      assert j < |first|;
      var i :| 0 <= i < j && ShowsNothingProtected(first[i].event, issue, target);
      assert whole[i] == first[i];
    }
  }

  lemma PostAfterLook(look: seq<Entry>, rest: seq<Entry>, issue: nat, target: string)
    requires NoPost(look) && look != [] && ShowsNothingProtected(look[|look| - 1].event, issue, target)
    ensures PostsAfterLook(look + rest, issue, target)
  {
    hide ShowsNothingProtected;
    var whole := look + rest;
    forall j | 0 <= j < |whole| && whole[j].event.OutcomePostedAs?
      ensures exists i :: 0 <= i < j && ShowsNothingProtected(whole[i].event, issue, target)
    {
      assert j >= |look| && whole[|look| - 1] == look[|look| - 1];
    }
  }

  lemma NothingPosted(trace: seq<Entry>, issue: nat, target: string)
    requires NoPost(trace)
    ensures PostsAfterLook(trace, issue, target)
  {
  }

  lemma ReadHasNoPost(trace: seq<Entry>, issue: nat, labels: set<string>)
    requires EndsWith(trace, LabelsObserved(issue, labels)) && Quiet(trace[..|trace| - 1])
    ensures NoPost(trace)
  {
    assert forall i | 0 <= i < |trace| - 1 :: trace[i] == trace[..|trace| - 1][i];
  }

  lemma CarefulHasNoPost(trace: seq<Entry>, issue: nat, target: string)
    requires Careful(trace, issue, target)
    ensures NoPost(trace)
  {
    assert forall i | 0 <= i < |trace| :: LabelEvent(trace[i].event, issue, target);
  }

  lemma SingleNoPost(trace: seq<Entry>, event: Event)
    requires trace == [] || (|trace| == 1 && trace[0].event == event)
    requires !event.OutcomePostedAs?
    ensures NoPost(trace)
  {
  }

  lemma NoPostConcat(first: seq<Entry>, last: seq<Entry>)
    requires NoPost(first) && NoPost(last)
    ensures NoPost(first + last)
  {
  }

  lemma NoHandoffIsJustified(trace: seq<Entry>, key: JournalKey, target: string)
    requires NoHandoff(trace)
    ensures HandoffsJustified(trace, key, target)
  {
  }

  lemma NoHandoffConcat(first: seq<Entry>, last: seq<Entry>)
    requires NoHandoff(first) && NoHandoff(last)
    ensures NoHandoff(first + last)
  {
  }

  lemma PostingHasNoHandoff(trace: seq<Entry>, key: JournalKey, body: string)
    requires PostsAtMostOnce(trace, key, body)
    ensures NoHandoff(trace)
  {
  }

  lemma CarefulHasNoHandoff(trace: seq<Entry>, issue: nat, target: string)
    requires Careful(trace, issue, target)
    ensures NoHandoff(trace)
  {
    assert forall i | 0 <= i < |trace| :: LabelEvent(trace[i].event, issue, target);
  }

  lemma ReadHasNoHandoff(trace: seq<Entry>, issue: nat, labels: set<string>)
    requires EndsWith(trace, LabelsObserved(issue, labels)) && Quiet(trace[..|trace| - 1])
    ensures NoHandoff(trace)
  {
    assert forall i | 0 <= i < |trace| - 1 :: trace[i] == trace[..|trace| - 1][i];
  }

  lemma HandoffAtEnd(confirmed: seq<Entry>, handoff: Entry, key: JournalKey, target: string, labels: set<string>)
    requires NoHandoff(confirmed) && |confirmed| >= 2
    requires confirmed[|confirmed| - 1].event == LabelsSaved(key, labels)
    requires confirmed[|confirmed| - 2].event == LabelsObserved(key.issue, labels) && Settled(labels, target)
    requires handoff.event == HandoffSaved(key)
    ensures HandoffsJustified(confirmed + [handoff], key, target)
  {
    hide Settled;
  }

  lemma JustifiedAfter(before: seq<Entry>, rest: seq<Entry>, key: JournalKey, target: string)
    requires NoHandoff(before) && HandoffsJustified(rest, key, target)
    ensures HandoffsJustified(before + rest, key, target)
  {
    hide Settled;
    var whole := before + rest;
    forall i | 0 <= i < |whole| && whole[i].event.HandoffSaved? ensures HandoffJustified(whole, i, key, target) {
      assert i >= |before| && HandoffJustified(rest, i - |before|, key, target);
    }
  }

  // ---- The generation guard ----

  /** A save under a matching generation is never refused, and keeps the generation. */
  lemma SaveKeepsGeneration(state: RunState, held: Option<Active>, record: Record, handoff: bool)
    requires GenerationMatches(state, held, record.id)
    ensures var saved := SaveRecord(state, record, handoff);
      && saved.Some? && GenerationMatches(saved.value, held, record.id)
      && record.id.Key() in saved.value.journal && saved.value.journal[record.id.Key()] == record
      && (handoff ==> record.id.Key() in saved.value.receipts && saved.value.receipts[record.id.Key()] == record)
      && (record.id.issue in state.active ==> state.active[record.id.issue].repo == record.id.repo)
  {
  }

  method SavePublication(world: World, record: Record, handoff: bool, ghost event: Event)
    returns (failure: Option<PublicationError>)
    requires world.Valid()
    requires SaveRecord(world.disk, record, handoff).Some? ==>
      Step(world.codec, world.Snap(), event, world.Snap().(state := SaveRecord(world.disk, record, handoff).value))
    modifies world`disk, world`path
    ensures world.Valid()
    ensures failure.None? ==>
      && SaveRecord(old(world.disk), record, handoff) == Some(world.disk)
      && world.path == old(world.path) + [Entry(event, world.Snap())]
    ensures failure.Some? ==> (
      || (world.disk == old(world.disk) && world.path == old(world.path))
      || (SaveRecord(old(world.disk), record, handoff) == Some(world.disk)
          && world.path == old(world.path) + [Entry(event, world.Snap())]))
    ensures world.calm && SaveRecord(old(world.disk), record, handoff).Some? ==> failure.None?
  {
    hide Inv, Run, Step, SaveRecord;
    var saved := SaveRecord(world.disk, record, handoff);
    if saved.None? {
      return Some(GenerationChanged);
    }
    var ok := world.Save(saved.value, event);
    failure := if ok then None else Some(SaveFailed);
  }

  // ---- The stages ----

  // The in-memory record is the persisted one and its generation is current.
  ghost predicate Holds(state: RunState, held: Option<Active>, record: Record) {
    && record.id.Key() in state.journal && state.journal[record.id.Key()] == record
    && GenerationMatches(state, held, record.id)
  }

  lemma SavedHolds(state: RunState, held: Option<Active>, record: Record, handoff: bool)
    requires GenerationMatches(state, held, record.id)
    ensures var saved := SaveRecord(state, record, handoff);
      && saved.Some? && Holds(saved.value, held, record)
      && (record.id.Key() in state.journal ==> saved.value.journal.Keys == state.journal.Keys)
      && (handoff ==> record.id.Key() in saved.value.receipts && saved.value.receipts[record.id.Key()] == record)
  {
    SaveKeepsGeneration(state, held, record, handoff);
  }

  lemma SavedIsStep(codec: Codec, s: Snapshot, held: Option<Active>, record: Record, event: Event)
    requires Holds(s.state, held, record)
    requires match event
      case OutcomeSaved(key, posting) => key == record.id.Key() && record.stage.Reserved?
        && Comment(Some(posting), record.id.payload.body) in CommentsOf(s.comments, key.issue)
      case LabelsSaved(key, observed) => key == record.id.Key() && Settled(observed, record.id.target)
        && (record.stage.OutcomePosted? || record.stage.LabelConfirmed?)
      case HandoffSaved(key) => key == record.id.Key() && record.stage.LabelConfirmed?
      case _ => false
    ensures var next := Advanced(record, event);
      var saved := SaveRecord(s.state, next, event.HandoffSaved?);
      saved.Some? && Step(codec, s, event, s.(state := saved.value))
  {
    SaveKeepsGeneration(s.state, held, Advanced(record, event), event.HandoffSaved?);
  }

  function Advanced(record: Record, event: Event): Record {
    match event
    case OutcomeSaved(_, posting) => record.(stage := OutcomePosted, posting := Some(posting))
    case LabelsSaved(_, observed) => record.(stage := LabelConfirmed, observed := Some(observed))
    case HandoffSaved(_) => record.(stage := HandedOff)
    case _ => record
  }

  lemma QuietHasNoHandoff(trace: seq<Entry>)
    requires Quiet(trace)
    ensures NoHandoff(trace)
  {
  }

  lemma QuietHasNoPost(trace: seq<Entry>, issue: nat, target: string)
    requires Quiet(trace)
    ensures NoPost(trace) && PostsAfterLook(trace, issue, target)
  {
  }

  // What the frozen body of a journal record promises to the poster.
  lemma FrozenRequest(codec: Codec, s: Snapshot, record: Record)
    requires Inv(codec, s) && record.id.Key() in s.state.journal && s.state.journal[record.id.Key()] == record
    ensures codec.parse(record.id.payload.body).Some?
    ensures var request := MakeRequest(record.id.issue, codec.parse(record.id.payload.body).value);
      request.Ok? && Publishes(codec, record.id, request.value)
  {
    hide RecordOk, MirrorOk, UniqueIds, Backed;
    assert WellFormed(codec, record.id);
  }

  method PostReserved(world: World, held: Option<Active>, record: Record)
    returns (posted: Result<Record, PublicationError>, ghost trace: seq<Entry>)
    requires world.Valid() && Holds(world.disk, held, record) && record.stage.Reserved?
    modifies world
    ensures world.Valid() && world.path == old(world.path) + trace && NoHandoff(trace)
    ensures PostsAfterLook(trace, record.id.issue, record.id.target)
    ensures world.disk.journal.Keys == old(world.disk.journal.Keys)
    ensures posted.Ok? ==> (
      && Holds(world.disk, held, posted.value)
      && posted.value.stage.OutcomePosted? && posted.value.id == record.id && posted.value.decision == record.decision)
    ensures world.calm ==> world.labels == old(world.labels)
    ensures world.calm && !HasProtected(old(world.LabelsOf(record.id.issue)), record.id.target)
      && !Blocker(world.codec, old(CommentsOf(world.comments, record.id.issue)), record.id.completion, record.id.payload.body)
      ==> posted.Ok?
  {
    hide Inv, Run, Step, GenerationMatches, HasProtected, Blocker, PostsAtMostOnce, Posts, NoHandoff, WellFormed,
      SaveRecord, Publishes, Completions, Quiet, PostsAfterLook, NoPost;
    var key := record.id.Key();
    var answer;
    answer, trace := world.GetLabels(record.id.issue);
    if answer.None? {
      QuietHasNoHandoff(trace);
      QuietHasNoPost(trace, record.id.issue, record.id.target);
      return Err(LabelsUnavailable), trace;
    }
    ReadHasNoHandoff(trace, record.id.issue, answer.value);
    ReadHasNoPost(trace, record.id.issue, answer.value);
    NothingPosted(trace, record.id.issue, record.id.target);
    if HasProtected(answer.value, record.id.target) {
      return Err(ProtectedLabel), trace;
    }
    WorldInv(world);
    FrozenRequest(world.codec, world.Snap(), record);
    var request := MakeRequest(record.id.issue, world.codec.parse(record.id.payload.body).value);
    ghost var posting;
    var found;
    found, posting := PostIssueOutcome(world, key, request.value);
    PostingHasNoHandoff(posting, key, record.id.payload.body);
    NoHandoffConcat(trace, posting);
    PostAfterLook(trace, posting, record.id.issue, record.id.target);
    trace := trace + posting;
    if found.Err? {
      return Err(PostingFailed(found.error)), trace;
    }
    ghost var event := OutcomeSaved(key, found.value.posting);
    var next := record.(stage := OutcomePosted, posting := Some(found.value.posting));
    SavedIsStep(world.codec, world.Snap(), held, record, event);
    SavedHolds(world.disk, held, next, false);
    ghost var before := world.path;
    var failure := SavePublication(world, next, false, event);
    ghost var saved := world.path[|before|..];
    assert world.path == before + saved;
    NoHandoffConcat(trace, saved) by { SingleNoHandoff(saved, event); }
    NoPostAfter(trace, saved, record.id.issue, record.id.target) by { SingleNoPost(saved, event); }
    trace := trace + saved;
    if failure.Some? {
      return Err(failure.value), trace;
    }
    posted := Ok(next);
  }

  lemma SingleNoHandoff(trace: seq<Entry>, event: Event)
    requires trace == [] || (|trace| == 1 && trace[0].event == event)
    requires !event.HandoffSaved?
    ensures NoHandoff(trace)
  {
  }

  lemma TargetIsKnown(world: World, key: JournalKey)
    requires world.Valid() && key in world.disk.journal
    ensures world.disk.journal[key].id.target in COMPLETION_TARGETS
  {
    hide Run, Inv, LedgerInv;
    WorldInv(world);
    InvHasLedger(world.codec, world.Snap());
    JournalWellFormed(world.codec, world.disk, key);
  }

  method ConfirmLabels(world: World, held: Option<Active>, record: Record)
    returns (confirmed: Result<Record, PublicationError>, ghost trace: seq<Entry>)
    requires world.Valid() && Holds(world.disk, held, record)
    requires record.stage.OutcomePosted? || record.stage.LabelConfirmed?
    modifies world
    ensures world.Valid() && world.path == old(world.path) + trace && NoHandoff(trace) && NoPost(trace)
    ensures world.disk.journal.Keys == old(world.disk.journal.Keys)
    ensures confirmed.Ok? ==> (
      && Holds(world.disk, held, confirmed.value)
      && confirmed.value.stage.LabelConfirmed? && confirmed.value.id == record.id
      && confirmed.value.decision == record.decision
      && confirmed.value.observed.Some? && Settled(confirmed.value.observed.value, record.id.target)
      && |trace| >= 2
      && trace[|trace| - 1].event == LabelsSaved(record.id.Key(), confirmed.value.observed.value)
      && trace[|trace| - 2].event == LabelsObserved(record.id.issue, confirmed.value.observed.value))
    ensures world.calm && !HasProtected(old(world.LabelsOf(record.id.issue)), record.id.target) ==> confirmed.Ok?
  {
    hide Inv, Run, Step, GenerationMatches, HasProtected, Careful, NoHandoff, NoPost, SaveRecord;
    var key := record.id.Key();
    TargetIsKnown(world, key);
    var status, labels;
    status, labels, trace :=
      TransitionCompletionStatusLabel(world, record.id.issue, record.id.target, held, record.id);
    CarefulHasNoHandoff(trace, record.id.issue, record.id.target);
    CarefulHasNoPost(trace, record.id.issue, record.id.target);
    if !status.Confirmed? {
      return Err(LabelsFailed(status)), trace;
    }
    ghost var event := LabelsSaved(key, labels);
    var next := record.(stage := LabelConfirmed, observed := Some(labels));
    SavedIsStep(world.codec, world.Snap(), held, record, event);
    SavedHolds(world.disk, held, next, false);
    ghost var before := world.path;
    var failure := SavePublication(world, next, false, event);
    ghost var saved := world.path[|before|..];
    assert world.path == before + saved;
    NoHandoffConcat(trace, saved) by { SingleNoHandoff(saved, event); }
    NoPostConcat(trace, saved) by { SingleNoPost(saved, event); }
    trace := trace + saved;
    if failure.Some? {
      return Err(failure.value), trace;
    }
    confirmed := Ok(next);
  }

  // The save that ends a publication, together with its receipt.
  method HandOff(world: World, held: Option<Active>, record: Record)
    returns (handed: Result<Record, PublicationError>, ghost trace: seq<Entry>)
    requires world.Valid() && Holds(world.disk, held, record) && record.stage.LabelConfirmed?
    modifies world`disk, world`path
    ensures world.Valid() && world.path == old(world.path) + trace
    ensures trace == [] || (|trace| == 1 && trace[0].event == HandoffSaved(record.id.Key()))
    ensures world.disk.journal.Keys == old(world.disk.journal.Keys)
    ensures handed.Ok? ==> (
      && handed.value == record.(stage := HandedOff)
      && record.id.Key() in world.disk.journal && world.disk.journal[record.id.Key()] == handed.value
      && Durable(world.disk, record.id.Key()))
    ensures world.calm ==> handed.Ok?
  {
    hide Inv, Run, Step, GenerationMatches, SaveRecord;
    ghost var event := HandoffSaved(record.id.Key());
    var next := record.(stage := HandedOff);
    SavedIsStep(world.codec, world.Snap(), held, record, event);
    SavedHolds(world.disk, held, next, true);
    ghost var saving := world.path;
    var failure := SavePublication(world, next, true, event);
    trace := if world.path == saving then [] else [Entry(event, world.Snap())];
    handed := if failure.Some? then Err(failure.value) else Ok(next);
  }

  // Everything after the posting: confirm the labels, then hand off.
  method FinishPosted(world: World, held: Option<Active>, record: Record)
    returns (finished: Result<Record, PublicationError>, ghost trace: seq<Entry>)
    requires world.Valid() && Holds(world.disk, held, record)
    requires record.stage.OutcomePosted? || record.stage.LabelConfirmed?
    modifies world
    ensures world.Valid() && world.path == old(world.path) + trace
    ensures HandoffsJustified(trace, record.id.Key(), record.id.target) && NoPost(trace)
    ensures world.disk.journal.Keys == old(world.disk.journal.Keys)
    ensures finished.Ok? ==> (
      && finished.value.id == record.id && finished.value.stage.HandedOff? && finished.value.decision == record.decision
      && record.id.Key() in world.disk.journal && world.disk.journal[record.id.Key()] == finished.value
      && Durable(world.disk, record.id.Key()))
    ensures world.calm && !HasProtected(old(world.LabelsOf(record.id.issue)), record.id.target) ==> finished.Ok?
  {
    hide Inv, Run, GenerationMatches, HasProtected, NoHandoff, NoPost, HandoffsJustified, SaveRecord, Settled, Durable, World.LabelsOf;
    var confirmed;
    confirmed, trace := ConfirmLabels(world, held, record);
    NoHandoffIsJustified(trace, record.id.Key(), record.id.target);
    if confirmed.Err? {
      return confirmed, trace;
    }
    ghost var confirming, last := trace, [];
    finished, last := HandOff(world, held, confirmed.value);
    trace := confirming + last;
    NoPostConcat(confirming, last) by { SingleNoPost(last, HandoffSaved(record.id.Key())); }
    if last == [] {
      assert trace == confirming;
    } else {
      assert last == [last[0]];
      HandoffAtEnd(confirming, last[0], record.id.Key(), record.id.target, confirmed.value.observed.value);
    }
  }

  // Another claim, another owner or nobody holds the Issue by now, or somebody took it up.
  predicate Displaced(active: map<nat, Active>, held: Option<Active>, id: Identity) {
    if held.None? then id.issue in active
    else
      || id.issue !in active
      || active[id.issue].claim != id.generation || active[id.issue].owner != id.owner || active[id.issue].repo != id.repo
  }

  lemma DisplacedDoesNotMatch(state: RunState, held: Option<Active>, id: Identity)
    ensures Displaced(state.active, held, id) ==> !GenerationMatches(state, held, id)
  {
  }

  /** A publication may be entered at any stage and repeated at will. Success means handed
      off with an equal receipt; a handoff happens only in a call that itself just saw the
      labels settled; with nothing in the way and working services it always succeeds. */
  method PublishReserved(world: World, held: Option<Active>, record: Record)
    returns (published: Result<Record, PublicationError>, ghost trace: seq<Entry>)
    requires world.Valid()
    requires record.id.Key() in world.disk.journal && world.disk.journal[record.id.Key()] == record
    modifies world
    ensures world.Valid() && world.path == old(world.path) + trace
    ensures HandoffsJustified(trace, record.id.Key(), record.id.target)
    ensures PostsAfterLook(trace, record.id.issue, record.id.target)
    ensures world.disk.journal.Keys == old(world.disk.journal.Keys)
    ensures published.Ok? ==> (
      && published.value.id == record.id && published.value.stage.HandedOff? && published.value.decision == record.decision
      && record.id.Key() in world.disk.journal && world.disk.journal[record.id.Key()] == published.value
      && Durable(world.disk, record.id.Key()))
    ensures published.Ok? && record.stage.HandedOff? ==> published.value == record && trace == []
    ensures !GenerationMatches(old(world.disk), held, record.id) ==> published == Err(GenerationChanged) && trace == []
    ensures Displaced(old(world.disk.active), held, record.id) ==> published == Err(GenerationChanged) && trace == []
    ensures world.calm && GenerationMatches(old(world.disk), held, record.id)
      && (record.stage.HandedOff? || !HasProtected(old(world.LabelsOf(record.id.issue)), record.id.target))
      && (record.stage.Reserved? ==>
            !Blocker(world.codec, old(CommentsOf(world.comments, record.id.issue)), record.id.completion, record.id.payload.body))
      ==> published.Ok?
  {
    hide Inv, Run, Step, GenerationMatches, HasProtected, Blocker, NoHandoff, NoPost, PostsAfterLook, HandoffsJustified, SaveRecord,
      Settled, Durable;
    trace := [];
    DisplacedDoesNotMatch(world.disk, held, record.id);
    NoHandoffIsJustified(trace, record.id.Key(), record.id.target) by { QuietHasNoHandoff(trace); }
    QuietHasNoHandoff(trace);
    QuietHasNoPost(trace, record.id.issue, record.id.target);
    if !GenerationMatches(world.disk, held, record.id) {
      return Err(GenerationChanged), trace;
    }
    var key := record.id.Key();
    var current := record;
    if current.stage.Reserved? {
      var posted;
      posted, trace := PostReserved(world, held, current);
      NoHandoffIsJustified(trace, key, record.id.target);
      if posted.Err? {
        return posted, trace;
      }
      current := posted.value;
    }
    if current.stage.OutcomePosted? || current.stage.LabelConfirmed? {
      ghost var rest;
      published, rest := FinishPosted(world, held, current);
      JustifiedAfter(trace, rest, key, record.id.target);
      NoPostAfter(trace, rest, record.id.issue, record.id.target);
      trace := trace + rest;
      return published, trace;
    }
    // The record was already handed off, so its receipt exists.
    WorldInv(world);
    FinishedIsDurable(world.codec, world.Snap(), key);
    published := Ok(current);
  }

  lemma FinishedIsDurable(codec: Codec, s: Snapshot, key: JournalKey)
    requires Inv(codec, s) && key in s.state.journal && s.state.journal[key].stage.HandedOff?
    ensures Durable(s.state, key)
  {
    assert RecordOk(s.state, key);
  }

  // Downstream policies may be written at any time; a receipt follows its record.
  method UpdateDownstreamPolicy(world: World, key: JournalKey, kind: string, applied: bool)
    returns (updated: Result<Record, PublicationError>)
    requires world.Valid() && key in world.disk.journal
    modifies world`disk, world`path
    ensures world.Valid() && key in world.disk.journal
    ensures updated.Ok? ==> (
      && updated.value == old(world.disk.journal[key]).(policies := updated.value.policies)
      && updated.value.policies == old(world.disk.journal[key].policies)[kind := applied]
      && world.disk.journal[key] == updated.value)
    ensures updated.Err? ==> world.disk == old(world.disk) || world.disk == ApplyPolicy(old(world.disk), key, kind, applied)
    ensures old(Durable(world.disk, key)) ==> Durable(world.disk, key)
    ensures forall k | k in old(world.disk.journal) && k != key ::
      k in world.disk.journal && world.disk.journal[k] == old(world.disk.journal[k])
    ensures world.disk.receipts.Keys == old(world.disk.receipts.Keys)
    ensures world.disk.active == old(world.disk.active) && world.disk.reservations == old(world.disk.reservations)
  {
    hide Inv, Run;
    var state := ApplyPolicy(world.disk, key, kind, applied);
    var ok := world.Save(state, PolicySaved(key, kind, applied));
    updated := if ok then Ok(state.journal[key]) else Err(SaveFailed);
  }
}
