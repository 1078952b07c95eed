/** The outside world of a completion run: the atomically saved ledger, the Issue
    comments and the Issue labels. Remote calls may fail, may succeed with a lost
    response, and may be interleaved with other people's edits; `calm` switches all
    of that off. Every durable effect is logged as a step of the protocol. */
module CompletionWorld {
  import opened Wrappers
  import opened CompletionRecords
  import opened CompletionRuns

  class World {
    const codec: Codec
    const calm: bool
    var disk: RunState
    var comments: map<nat, seq<Comment>>
    var labels: map<nat, set<string>>
    ghost const start: Snapshot
    ghost var path: seq<Entry>

    constructor (codec: Codec, calm: bool, disk: RunState, comments: map<nat, seq<Comment>>, labels: map<nat, set<string>>)
      requires codec.Lawful() && Inv(codec, Snapshot(disk, comments))
      ensures Valid() && path == []
      ensures this.codec == codec && this.calm == calm && Snap() == Snapshot(disk, comments) && this.labels == labels
    {
      this.codec, this.calm, this.disk, this.comments, this.labels := codec, calm, disk, comments, labels;
      this.start, this.path := Snapshot(disk, comments), [];
    }

    ghost function Snap(): Snapshot
      reads this
    {
      Snapshot(disk, comments)
    }

    // The log is a run of the protocol that ends in the current snapshot.
    ghost predicate Valid()
      reads this
    {
      && codec.Lawful()
      && Inv(codec, start)
      && Run(codec, start, path)
      && At(start, path, |path|) == Snap()
    }

    function LabelsOf(issue: nat): set<string>
      reads this
    {
      if issue in labels then labels[issue] else {}
    }

    ghost method Log(event: Event, before: Snapshot)
      requires codec.Lawful() && Inv(codec, start) && Run(codec, start, path) && At(start, path, |path|) == before
      requires Step(codec, before, event, Snap())
      modifies this`path
      ensures Valid() && path == old(path) + [Entry(event, Snap())]
    {
      hide Step, Inv;
      path := path + [Entry(event, Snap())];
      assert forall i | 0 <= i < |old(path)| :: path[i] == old(path)[i];
      assert forall i | 0 <= i <= |old(path)| :: At(start, path, i) == At(start, old(path), i);
    }

    // An atomic replace of the ledger. A failure report may hide a success.
    method Save(state: RunState, ghost event: Event) returns (ok: bool)
      requires Valid() && Step(codec, Snap(), event, Snap().(state := state))
      modifies this`disk, this`path
      ensures Valid()
      ensures calm ==> ok
      ensures ok ==> disk == state && path == old(path) + [Entry(event, Snap())]
      ensures !ok ==> (disk == old(disk) && path == old(path)) || (disk == state && path == old(path) + [Entry(event, Snap())])
    {
      hide Step, Inv, Run;
      ghost var before := Snap();
      var applied: bool, reported: bool := *, *;
      if calm || applied {
        disk := state;
        Log(event, before);
      }
      ok := calm || (applied && reported);
    }

    // Other people edit comments and labels; comments with a completion id stay.
    method Interfere() returns (ghost trace: seq<Entry>)
      requires Valid()
      modifies this`comments, this`labels, this`path
      ensures Valid()
      ensures calm ==> unchanged(this)
      ensures path == old(path) + trace && Quiet(trace)
      ensures forall i: nat :: Completions(codec, CommentsOf(comments, i)) == Completions(codec, CommentsOf(old(comments), i))
    {
      hide Inv, Run, ForeignStep, Completions;
      trace := [];
      if !calm {
        labels := *;
        var others: map<nat, seq<Comment>> := *;
        if forall i | i in others.Keys + comments.Keys ::
            Completions(codec, CommentsOf(others, i)) == Completions(codec, CommentsOf(comments, i)) {
          ghost var before := Snap();
          comments := others;
          ForeignChange(codec, before.comments, others);
          Log(ForeignCommentsChanged, before);
          trace := [Entry(ForeignCommentsChanged, Snap())];
        }
      }
    }

    // Every page of comments, or no answer.
    method ListComments(issue: nat) returns (page: Option<seq<Comment>>, ghost trace: seq<Entry>)
      requires Valid()
      modifies this`comments, this`labels, this`path
      ensures Valid()
      ensures calm ==> unchanged(this) && page.Some?
      ensures path == old(path) + trace && Quiet(trace)
      ensures forall i: nat :: Completions(codec, CommentsOf(comments, i)) == Completions(codec, CommentsOf(old(comments), i))
      ensures page.Some? ==> page.value == CommentsOf(comments, issue)
    {
      trace := Interfere();
      var answered: bool := *;
      page := if calm || answered then Some(CommentsOf(comments, issue)) else None;
    }

    // A POST may be rejected, may be applied, and may be applied with its response lost.
    method CreateComment(key: JournalKey, body: string) returns (response: Option<Comment>, ghost trace: seq<Entry>)
      requires Valid()
      requires key in disk.journal && disk.journal[key].stage.Reserved?
      requires body == disk.journal[key].id.payload.body
      requires Unposted(codec, comments, key)
      modifies this`comments, this`path
      ensures Valid() && path == old(path) + trace && |trace| <= 1
      ensures calm ==> response.Some? && response.value.evidence.Some?
      ensures trace == [] ==> response.None? && comments == old(comments)
      ensures trace != [] ==> (
        && trace[0].event.OutcomePostedAs? && trace[0].event.key == key && trace[0].event.comment.body == body
        && comments == Post(old(comments), key.issue, trace[0].event.comment)
        && (response.Some? ==> response.value == trace[0].event.comment))
    {
      hide Inv, Run;
      var applied: bool, answered: bool := *, *;
      var posting: Posting, named: bool := *, *;
      var evidence := if calm || named then Some(posting) else None;
      response, trace := None, [];
      if calm || applied {
        ghost var before := Snap();
        var created := Comment(evidence, body);
        comments := Post(comments, key.issue, created);
        Log(OutcomePostedAs(key, created), before);
        trace := [Entry(OutcomePostedAs(key, created), Snap())];
        if calm || answered {
          response := Some(created);
        }
      }
    }

    method GetLabels(issue: nat) returns (answer: Option<set<string>>, ghost trace: seq<Entry>)
      requires Valid()
      modifies this`comments, this`labels, this`path
      ensures Valid() && path == old(path) + trace
      ensures calm ==> answer == Some(LabelsOf(issue)) && labels == old(labels) && comments == old(comments)
      ensures answer.None? ==> Quiet(trace)
      ensures answer.Some? ==> EndsWith(trace, LabelsObserved(issue, answer.value)) && Quiet(trace[..|trace| - 1])
    {
      hide Inv, Run;
      trace := Interfere();
      var answered: bool := *;
      answer := None;
      if calm || answered {
        answer := Some(LabelsOf(issue));
        ghost var before := Snap();
        Log(LabelsObserved(issue, LabelsOf(issue)), before);
        trace := trace + [Entry(LabelsObserved(issue, LabelsOf(issue)), Snap())];
      }
    }

    // A label write is only an attempt: it may silently fail.
    method WriteLabel(issue: nat, name: string, add: bool) returns (ghost trace: seq<Entry>)
      requires Valid()
      modifies this`comments, this`labels, this`path
      ensures Valid() && path == old(path) + trace
      ensures calm ==> labels == old(labels)[issue := if add then old(LabelsOf(issue)) + {name} else old(LabelsOf(issue)) - {name}]
      ensures trace != [] && trace[0].event == (if add then LabelAdded(issue, name) else LabelRemoved(issue, name))
      ensures Quiet(trace[1..])
    {
      hide Inv, Run;
      ghost var before := Snap();
      ghost var event := if add then LabelAdded(issue, name) else LabelRemoved(issue, name);
      Log(event, before);
      ghost var logged := Entry(event, Snap());
      trace := Interfere();
      trace := [logged] + trace;
      var applied: bool := *;
      if calm || applied {
        labels := labels[issue := if add then LabelsOf(issue) + {name} else LabelsOf(issue) - {name}];
      }
    }
  }

  ghost predicate Quiet(trace: seq<Entry>) {
    forall i | 0 <= i < |trace| :: trace[i].event.ForeignCommentsChanged?
  }

  ghost predicate EndsWith(trace: seq<Entry>, event: Event) {
    trace != [] && trace[|trace| - 1].event == event
  }

  lemma ForeignChange(codec: Codec, before: map<nat, seq<Comment>>, after: map<nat, seq<Comment>>)
    requires forall i | i in after.Keys + before.Keys ::
      Completions(codec, CommentsOf(after, i)) == Completions(codec, CommentsOf(before, i))
    ensures ForeignStep(codec, before, after)
  {
    forall i: nat ensures Completions(codec, CommentsOf(before, i)) == Completions(codec, CommentsOf(after, i)) {
      if i !in after.Keys + before.Keys {
        assert CommentsOf(before, i) == CommentsOf(after, i);
      }
    }
  }

  /** Whatever the log of a world says, the invariant holds now. */
  lemma WorldInv(world: World)
    requires world.Valid()
    ensures Inv(world.codec, world.Snap())
  {
    hide Inv, Run;
    RunKeepsInv(world.codec, world.start, world.path, |world.path|);
  }
}
