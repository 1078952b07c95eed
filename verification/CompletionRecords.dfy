/** The completion ledger: frozen identities, journal records and the run state that is
    saved atomically. String keys of the original (`repo::issue::generation::completion`)
    are structured values here. */
module CompletionRecords {
  import opened Wrappers

  datatype Stage = Reserved | OutcomePosted | LabelConfirmed | HandedOff

  // The edges of the label-confirmed lifecycle.
  predicate CanTransition(before: Stage, after: Stage) {
    match before
    case Reserved => after.OutcomePosted?
    case OutcomePosted => after.LabelConfirmed?
    case LabelConfirmed => after.HandedOff?
    case HandedOff => false
  }

  function Rank(stage: Stage): nat {
    match stage
    case Reserved => 0
    case OutcomePosted => 1
    case LabelConfirmed => 2
    case HandedOff => 3
  }

  datatype Verdict = Done | Blocked | NotNeeded

  // The status label that announces a verdict.
  function TargetLabel(verdict: Verdict): string {
    match verdict
    case Done => "status:done"
    case Blocked => "status:blocked"
    case NotNeeded => "status:not-needed"
  }

  datatype Outcome = Outcome(
    issue: nat, verdict: Verdict, claim: Option<string>, completion: Option<string>,
    head: Option<string>, pr: Option<nat>, notes: string)

  // What a caller wants announced: the part of a request that its fingerprint digests.
  datatype Intent = Intent(issue: nat, verdict: Verdict, pr: Option<nat>, notes: string)

  function IntentOf(o: Outcome): Intent {
    Intent(o.issue, o.verdict, o.pr, o.notes)
  }

  // The comment renderer, the comment parser, and the intent behind a fingerprint. They stay
  // uninterpreted; the only facts used about them are that a rendered outcome parses back to
  // itself, and that a fingerprint stands for one intent.
  datatype Codec = Codec(parse: string -> Option<Outcome>, render: Outcome -> string, intent: string -> Intent) {
    ghost predicate Lawful() {
      forall o :: parse(render(o)) == Some(o)
    }
  }

  datatype Payload = Payload(body: string, head: Option<string>)

  datatype JournalKey = JournalKey(repo: string, issue: nat, generation: string, completion: string) {
    function Reservation(): ReservationKey {
      ReservationKey(repo, issue)
    }
  }

  datatype ReservationKey = ReservationKey(repo: string, issue: nat)

  // The nine immutable fields that a journal record and an Issue reservation share.
  datatype Identity = Identity(
    repo: string, issue: nat, generation: string, completion: string,
    owner: string, fingerprint: string, verdict: Verdict, target: string, payload: Payload)
  {
    function Key(): JournalKey {
      JournalKey(repo, issue, generation, completion)
    }
  }

  // A named completion whose frozen body is the rendering of an outcome that names it and
  // says what its fingerprint stands for.
  ghost predicate WellFormed(codec: Codec, id: Identity) {
    var o := codec.parse(id.payload.body);
    && id.completion != ""
    && id.target == TargetLabel(id.verdict)
    && o.Some?
    && IntentOf(o.value) == codec.intent(id.fingerprint)
    && o.value.issue == id.issue && o.value.verdict == id.verdict
    && o.value.claim in {None, Some(id.generation)}
    && o.value.completion == Some(id.completion)
    && o.value.head == id.payload.head
    && codec.render(o.value) == id.payload.body
  }

  datatype Posting = Posting(commentId: string, url: string)

  datatype Decision = Allowed | Exceeded | Unknown

  datatype Record = Record(
    id: Identity, stage: Stage, posting: Option<Posting>, observed: Option<set<string>>,
    decision: Decision, policies: map<string, bool>)

  // What an active worktree repeats about its own completion.
  datatype Mirror = Mirror(
    completion: string, verdict: Verdict, stage: Stage, body: string,
    posting: Option<Posting>, handoffReady: bool)

  datatype Active = Active(claim: string, repo: string, owner: string, mirror: Option<Mirror>)

  datatype RunState = RunState(
    journal: map<JournalKey, Record>,
    reservations: map<ReservationKey, Identity>,
    receipts: map<JournalKey, Record>,
    active: map<nat, Active>)

  datatype Comment = Comment(evidence: Option<Posting>, body: string)

  // Everything that survives a crash: the saved ledger and the remote comments.
  datatype Snapshot = Snapshot(state: RunState, comments: map<nat, seq<Comment>>)

  function CommentsOf(comments: map<nat, seq<Comment>>, issue: nat): seq<Comment> {
    if issue in comments then comments[issue] else []
  }

  // The completion id a comment carries, if it is an outcome comment at all.
  function CompletionOf(codec: Codec, comment: Comment): Option<string> {
    match codec.parse(comment.body)
    case None => None
    case Some(o) => o.completion
  }

  // A record is finished only when its receipt repeats it exactly.
  predicate Durable(state: RunState, key: JournalKey)
    requires key in state.journal
  {
    state.journal[key].stage.HandedOff? && key in state.receipts && state.receipts[key] == state.journal[key]
  }

  function MirrorOf(record: Record, previous: Option<Mirror>, handoff: bool): Mirror {
    Mirror(
      record.id.completion, record.id.verdict, record.stage, record.id.payload.body,
      if record.posting.None? && previous.Some? then previous.value.posting else record.posting,
      handoff)
  }

  // One publication save: the journal record, the active mirror and, at handoff, the
  // receipt. None when the active entry belongs to another claim.
  function SaveRecord(state: RunState, record: Record, handoff: bool): Option<RunState> {
    var id := record.id;
    var journal := state.journal[id.Key() := record];
    var receipts := if handoff then state.receipts[id.Key() := record] else state.receipts;
    if id.issue !in state.active then
      Some(state.(journal := journal, receipts := receipts))
    else
      var active := state.active[id.issue];
      if active.claim != id.generation then
        None
      else
        var mirrored := active.(mirror := Some(MirrorOf(record, active.mirror, handoff)));
        Some(state.(journal := journal, receipts := receipts, active := state.active[id.issue := mirrored]))
  }

  // The generation still owns the Issue: the reservation names this completion, and the
  // Issue is held by the same claim as when the run started, or by nobody.
  predicate GenerationMatches(state: RunState, held: Option<Active>, id: Identity) {
    var key := id.Key().Reservation();
    && key in state.reservations
    && state.reservations[key].generation == id.generation
    && state.reservations[key].completion == id.completion
    && match held
       case None => id.issue !in state.active
       case Some(_) =>
         && id.issue in state.active
         && state.active[id.issue].repo == id.repo
         && state.active[id.issue].claim == id.generation
         && state.active[id.issue].owner == id.owner
  }
}
