/** Completion-label reconciliation under interference: each write is tried once and
    only a live read-back counts. */
module LabelReconciliation {
  import opened Wrappers
  import opened CompletionRecords
  import opened CompletionRuns
  import opened CompletionWorld
  import opened StatusLabels

  const COMPLETION_TARGETS: seq<string> := ["status:done", "status:blocked", "status:not-needed"]

  datatype LabelStatus = Confirmed | AddFailed | CleanupIncomplete | StateUnknown | Conflict | InvalidTarget

  // A reading of the labels, or the status that ends the attempt.
  datatype Reading = Labels(labels: set<string>) | Stop(status: LabelStatus)

  // ---- What a reconciliation may do to the Issue ----

  ghost predicate LabelEvent(e: Event, issue: nat, target: string) {
    match e
    case LabelAdded(i, name) => i == issue && name == target
    case LabelRemoved(i, name) => i == issue && name in PRIMARY_STATUS_LABELS && name != target
    case LabelsObserved(i, _) => i == issue
    case ForeignCommentsChanged => true
    case _ => false
  }

  // Entry i is a removal right after an observation that showed both the target and the
  // label to remove, and nothing protected.
  ghost predicate JustifiedRemoval(trace: seq<Entry>, i: nat, target: string)
    requires i < |trace| && trace[i].event.LabelRemoved?
  {
    && i > 0 && trace[i - 1].event.LabelsObserved?
    && target in trace[i - 1].event.labels
    && trace[i].event.name in trace[i - 1].event.labels
    && !HasProtected(trace[i - 1].event.labels, target)
  }

  // Entry i is an addition right after an observation without the target, and with nothing
  // protected.
  ghost predicate JustifiedAddition(trace: seq<Entry>, i: nat, target: string)
    requires i < |trace|
  {
    && i > 0 && trace[i - 1].event.LabelsObserved?
    && target !in trace[i - 1].event.labels && !HasProtected(trace[i - 1].event.labels, target)
  }

  ghost predicate Careful(trace: seq<Entry>, issue: nat, target: string) {
    && (forall i | 0 <= i < |trace| :: LabelEvent(trace[i].event, issue, target))
    && (forall i | 0 <= i < |trace| && trace[i].event.LabelRemoved? :: JustifiedRemoval(trace, i, target))
    && (forall i | 0 <= i < |trace| && trace[i].event.LabelAdded? :: JustifiedAddition(trace, i, target))
    && (forall i, j | 0 <= i < j < |trace| && trace[i].event.LabelAdded? :: !trace[j].event.LabelAdded?)
    && (forall i, j | 0 <= i < j < |trace| && trace[i].event.LabelRemoved? && trace[j].event.LabelRemoved? ::
          trace[i].event.name != trace[j].event.name)
  }

  // No write happened in this part of the trace.
  ghost predicate ReadOnly(trace: seq<Entry>, issue: nat) {
    forall i | 0 <= i < |trace| :: trace[i].event.ForeignCommentsChanged?
      || (trace[i].event.LabelsObserved? && trace[i].event.issue == issue)
  }

  // Removals so far concern only labels in this list.
  ghost predicate RemovesOnly(trace: seq<Entry>, names: seq<string>) {
    forall i | 0 <= i < |trace| && trace[i].event.LabelRemoved? :: trace[i].event.name in names
  }

  lemma AppendReads(trace: seq<Entry>, more: seq<Entry>, issue: nat, target: string)
    requires Careful(trace, issue, target) && ReadOnly(more, issue)
    ensures Careful(trace + more, issue, target)
  {
    var whole := trace + more;
    forall i | 0 <= i < |whole| && whole[i].event.LabelRemoved? ensures JustifiedRemoval(whole, i, target) {
      assert i < |trace| && JustifiedRemoval(trace, i, target);
    }
  }

  // One justified removal of a label not removed before.
  lemma AppendRemoval(trace: seq<Entry>, more: seq<Entry>, issue: nat, target: string, names: seq<string>, stale: string)
    requires Careful(trace, issue, target) && RemovesOnly(trace, names)
    requires stale !in names && stale in PRIMARY_STATUS_LABELS && stale != target
    requires trace != [] && trace[|trace| - 1].event.LabelsObserved?
    requires target in trace[|trace| - 1].event.labels && stale in trace[|trace| - 1].event.labels
    requires !HasProtected(trace[|trace| - 1].event.labels, target)
    requires more != [] && more[0].event == LabelRemoved(issue, stale) && ReadOnly(more[1..], issue)
    ensures Careful(trace + more, issue, target)
    ensures RemovesOnly(trace + more, names + [stale])
  {
    hide HasProtected;
    var whole := trace + more;
    var rest := more[1..];
    assert forall i | |trace| < i < |whole| :: whole[i] == rest[i - |trace| - 1];
    forall i | 0 <= i < |whole| && whole[i].event.LabelRemoved?
      ensures i <= |trace| && JustifiedRemoval(whole, i, target)
    {
      if i < |trace| {
        assert JustifiedRemoval(trace, i, target);
      }
    }
  }

  lemma WriteThenRead(from: seq<Entry>, written: seq<Entry>, seen: seq<Entry>, issue: nat)
    requires written != [] && Quiet(written[1..]) && ReadOnly(seen, issue)
    ensures from + written + seen == from + (written + seen)
    ensures (written + seen)[0] == written[0] && ReadOnly((written + seen)[1..], issue)
    ensures seen != [] ==> (written + seen)[|written + seen| - 1] == seen[|seen| - 1]
  {
    assert (written + seen)[1..] == written[1..] + seen;
  }

  ghost predicate NoAdds(trace: seq<Entry>) {
    forall i | 0 <= i < |trace| :: !trace[i].event.LabelAdded?
  }

  lemma ReadsAreCareful(trace: seq<Entry>, issue: nat, target: string)
    requires ReadOnly(trace, issue)
    ensures Careful(trace, issue, target) && RemovesOnly(trace, []) && NoAdds(trace)
  {
  }

  lemma NothingWritten(issue: nat)
    ensures ReadOnly([], issue)
  {
  }

  lemma AppendAdd(trace: seq<Entry>, more: seq<Entry>, issue: nat, target: string)
    requires ReadOnly(trace, issue) && trace != [] && trace[|trace| - 1].event.LabelsObserved?
    requires target !in trace[|trace| - 1].event.labels && !HasProtected(trace[|trace| - 1].event.labels, target)
    requires more != [] && more[0].event == LabelAdded(issue, target) && ReadOnly(more[1..], issue)
    ensures Careful(trace + more, issue, target) && RemovesOnly(trace + more, [])
  {
    var whole := trace + more;
    var rest := more[1..];
    assert forall i | |trace| < i < |whole| :: whole[i] == rest[i - |trace| - 1];
  }

  lemma AppendCleanup(trace: seq<Entry>, more: seq<Entry>, issue: nat, target: string)
    requires Careful(trace, issue, target) && RemovesOnly(trace, [])
    requires Careful(more, issue, target) && NoAdds(more)
    ensures Careful(trace + more, issue, target)
  {
    hide HasProtected;
    var whole := trace + more;
    assert forall i | 0 <= i < |more| :: whole[|trace| + i] == more[i];
    forall i | 0 <= i < |whole| && whole[i].event.LabelRemoved?
      ensures i > |trace| && JustifiedRemoval(whole, i, target) {
      assert JustifiedRemoval(more, i - |trace|, target);
    }
  }

  // A cleanup that has dealt with the first n primary labels.
  ghost predicate Cleaning(trace: seq<Entry>, issue: nat, target: string, n: nat)
    requires n <= |PRIMARY_STATUS_LABELS|
  {
    Careful(trace, issue, target) && NoAdds(trace) && RemovesOnly(trace, PRIMARY_STATUS_LABELS[..n])
  }

  lemma CleaningStart(issue: nat, target: string)
    ensures Cleaning([], issue, target, 0)
  {
  }

  lemma CleaningIsCareful(trace: seq<Entry>, issue: nat, target: string, n: nat)
    requires n <= |PRIMARY_STATUS_LABELS| && Cleaning(trace, issue, target, n)
    ensures Careful(trace, issue, target) && NoAdds(trace)
  {
  }

  lemma CleaningRead(trace: seq<Entry>, more: seq<Entry>, issue: nat, target: string, n: nat)
    requires n <= |PRIMARY_STATUS_LABELS| && Cleaning(trace, issue, target, n) && ReadOnly(more, issue)
    ensures Cleaning(trace + more, issue, target, n)
  {
    AppendReads(trace, more, issue, target);
  }

  lemma CleaningSkip(trace: seq<Entry>, issue: nat, target: string, n: nat)
    requires n < |PRIMARY_STATUS_LABELS| && Cleaning(trace, issue, target, n)
    ensures Cleaning(trace, issue, target, n + 1)
  {
    hide Careful, NoAdds;
    assert forall s | s in PRIMARY_STATUS_LABELS[..n] :: s in PRIMARY_STATUS_LABELS[..n + 1];
  }

  lemma CleaningRemove(trace: seq<Entry>, more: seq<Entry>, issue: nat, target: string, n: nat)
    requires n < |PRIMARY_STATUS_LABELS| && Cleaning(trace, issue, target, n)
    requires PRIMARY_STATUS_LABELS[n] != target
    requires trace != [] && trace[|trace| - 1].event.LabelsObserved?
    requires target in trace[|trace| - 1].event.labels && PRIMARY_STATUS_LABELS[n] in trace[|trace| - 1].event.labels
    requires !HasProtected(trace[|trace| - 1].event.labels, target)
    requires more != [] && more[0].event == LabelRemoved(issue, PRIMARY_STATUS_LABELS[n]) && ReadOnly(more[1..], issue)
    ensures Cleaning(trace + more, issue, target, n + 1)
  {
    hide Careful, HasProtected;
    PrimaryDistinct();
    assert PRIMARY_STATUS_LABELS[..n + 1] == PRIMARY_STATUS_LABELS[..n] + [PRIMARY_STATUS_LABELS[n]];
    AppendRemoval(trace, more, issue, target, PRIMARY_STATUS_LABELS[..n], PRIMARY_STATUS_LABELS[n]);
    assert forall i | 0 <= i < |more[1..]| :: more[1..][i] == more[i + 1];
  }

  lemma StillUnprotected(labels: set<string>, removed: set<string>, target: string)
    requires !HasProtected(labels, target)
    ensures !HasProtected(labels - removed, target)
  {
  }

  lemma StillUnprotectedWithTarget(labels: set<string>, target: string)
    requires !HasProtected(labels, target)
    ensures !HasProtected(labels + {target}, target)
  {
  }

  lemma AllPrimaryGone(labels: set<string>, target: string)
    requires target in labels && !HasProtected(labels, target)
    requires forall k | 0 <= k < |PRIMARY_STATUS_LABELS| && PRIMARY_STATUS_LABELS[k] != target ::
      PRIMARY_STATUS_LABELS[k] !in labels
    ensures Settled(labels, target)
  {
  }

  // A label of an open task is still there.
  predicate ShowsStale(labels: set<string>, target: string) {
    exists stale | stale in labels :: stale in PRIMARY_STATUS_LABELS && stale != target
  }

  lemma StaleShows(labels: set<string>, stale: string, target: string)
    requires stale in labels && stale in PRIMARY_STATUS_LABELS && stale != target
    ensures ShowsStale(labels, target)
  {
  }

  // ---- The procedure ----

  method Observe(world: World, issue: nat, target: string, held: Option<Active>, id: Identity)
    returns (reading: Reading, ghost trace: seq<Entry>)
    requires world.Valid()
    modifies world`comments, world`labels, world`path
    ensures world.Valid() && world.path == old(world.path) + trace && ReadOnly(trace, issue)
    ensures reading.Labels? ==>
      && EndsWith(trace, LabelsObserved(issue, reading.labels))
      && !HasProtected(reading.labels, target) && GenerationMatches(world.disk, held, id)
    ensures reading.Stop? ==> reading.status == StateUnknown || reading.status == Conflict
    ensures world.calm ==> world.labels == old(world.labels)
    ensures world.calm ==>
      && (reading.Labels? <==> !HasProtected(world.LabelsOf(issue), target) && GenerationMatches(world.disk, held, id))
      && (if reading.Labels? then reading.labels == world.LabelsOf(issue) else reading.status.Conflict?)
  {
    hide Inv, Run, GenerationMatches;
    var answer;
    answer, trace := world.GetLabels(issue);
    assert trace != [] ==> forall i | 0 <= i < |trace| - 1 :: trace[..|trace| - 1][i] == trace[i];
    var verified: bool := *;
    if answer.None? || !(world.calm || verified) {
      return Stop(StateUnknown), trace;
    }
    var current := GenerationMatches(world.disk, held, id);
    if !current || HasProtected(answer.value, target) {
      return Stop(Conflict), trace;
    }
    reading := Labels(answer.value);
  }

  method Mutate(world: World, issue: nat, target: string, held: Option<Active>, id: Identity, add: bool, name: string)
    returns (reading: Reading, ghost trace: seq<Entry>)
    requires world.Valid()
    modifies world`comments, world`labels, world`path
    ensures world.Valid() && world.path == old(world.path) + trace
    ensures trace != [] && trace[0].event == (if add then LabelAdded(issue, name) else LabelRemoved(issue, name))
    ensures ReadOnly(trace[1..], issue)
    ensures reading.Labels? ==>
      && EndsWith(trace, LabelsObserved(issue, reading.labels))
      && !HasProtected(reading.labels, target) && GenerationMatches(world.disk, held, id)
    ensures reading.Stop? ==> reading.status == StateUnknown || reading.status == Conflict
    ensures world.calm ==> (
      world.labels == old(world.labels)[issue :=
        if add then old(world.LabelsOf(issue)) + {name} else old(world.LabelsOf(issue)) - {name}])
    ensures world.calm && !HasProtected(world.LabelsOf(issue), target) && GenerationMatches(world.disk, held, id) ==>
      reading.Labels?
    ensures world.calm && reading.Labels? ==> reading.labels == world.LabelsOf(issue)
  {
    hide Inv, Run, HasProtected, GenerationMatches, ReadOnly;
    ghost var from := world.path;
    ghost var written := world.WriteLabel(issue, name, add);
    ghost var seen;
    reading, seen := Observe(world, issue, target, held, id);
    trace := written + seen;
    WriteThenRead(from, written, seen, issue);
  }

  method Verify(world: World, issue: nat, target: string, held: Option<Active>, id: Identity)
    returns (status: LabelStatus, labels: set<string>, ghost trace: seq<Entry>)
    requires world.Valid()
    modifies world`comments, world`labels, world`path
    ensures world.Valid() && world.path == old(world.path) + trace && ReadOnly(trace, issue)
    ensures !status.InvalidTarget? && !status.AddFailed?
    ensures status.Confirmed? ==>
      EndsWith(trace, LabelsObserved(issue, labels)) && Settled(labels, target) && GenerationMatches(world.disk, held, id)
    ensures status.CleanupIncomplete? ==> EndsWith(trace, LabelsObserved(issue, labels)) && ShowsStale(labels, target)
    ensures world.calm && Settled(old(world.LabelsOf(issue)), target) && GenerationMatches(world.disk, held, id) ==>
      status.Confirmed?
  {
    hide Inv, Run, GenerationMatches;
    var reading;
    reading, trace := Observe(world, issue, target, held, id);
    if reading.Stop? {
      return reading.status, {}, trace;
    }
    labels := reading.labels;
    if target !in labels {
      return StateUnknown, labels, trace;
    }
    if exists stale | stale in PRIMARY_STATUS_LABELS :: stale != target && stale in labels {
      return CleanupIncomplete, labels, trace;
    }
    status := Confirmed;
  }

  // Takes one label of an open task away: looks again, removes it if it is still there, and
  // reads back.
  method RemoveStale(world: World, issue: nat, target: string, held: Option<Active>, id: Identity, i: nat, seen: set<string>,
                     ghost before: seq<Entry>)
    returns (stop: Option<LabelStatus>, labels: set<string>, ghost more: seq<Entry>)
    requires world.Valid() && i < |PRIMARY_STATUS_LABELS| && PRIMARY_STATUS_LABELS[i] != target
    requires Cleaning(before, issue, target, i)
    requires world.calm ==> seen == world.LabelsOf(issue) && target in seen && !HasProtected(seen, target)
    modifies world`comments, world`labels, world`path
    ensures world.Valid() && world.path == old(world.path) + more
    ensures Cleaning(before + more, issue, target, i + 1)
    ensures stop.Some? ==> !stop.value.InvalidTarget? && !stop.value.AddFailed? && !stop.value.Confirmed?
    ensures stop == Some(CleanupIncomplete) ==> EndsWith(more, LabelsObserved(issue, labels)) && ShowsStale(labels, target)
    ensures world.calm && GenerationMatches(world.disk, held, id) ==> stop.None?
    ensures world.calm && stop.None? ==> labels == seen - {PRIMARY_STATUS_LABELS[i]} && labels == world.LabelsOf(issue)
  {
    hide Inv, Run, GenerationMatches, HasProtected, Cleaning, ReadOnly, Careful, NoAdds, PRIMARY_STATUS_LABELS, ShowsStale;
    var stale := PRIMARY_STATUS_LABELS[i];
    var reading;
    reading, more := Observe(world, issue, target, held, id);
    CleaningRead(before, more, issue, target, i);
    CleaningSkip(before + more, issue, target, i);
    if reading.Stop? {
      return Some(reading.status), {}, more;
    }
    labels := reading.labels;
    if target !in labels {
      return Some(StateUnknown), labels, more;
    }
    if stale !in labels {
      return None, labels, more;
    }
    ghost var observed := more;
    ghost var written;
    StillUnprotected(labels, {stale}, target);
    reading, written := Mutate(world, issue, target, held, id, false, stale);
    ObservedLast(before, observed, LabelsObserved(issue, labels));
    CleaningRemove(before + observed, written, issue, target, i);
    more := observed + written;
    assert before + more == before + observed + written;
    if reading.Stop? {
      return Some(reading.status), {}, more;
    }
    labels := reading.labels;
    if stale in labels {
      StaleShows(labels, stale, target);
      return Some(CleanupIncomplete), labels, more;
    }
    stop := None;
  }

  lemma ObservedLast(before: seq<Entry>, observed: seq<Entry>, event: Event)
    requires EndsWith(observed, event)
    ensures EndsWith(before + observed, event)
  {
  }

  method Cleanup(world: World, issue: nat, target: string, held: Option<Active>, id: Identity, seen: set<string>)
    returns (status: LabelStatus, labels: set<string>, ghost trace: seq<Entry>)
    requires world.Valid()
    requires world.calm ==> seen == world.LabelsOf(issue) && target in seen && !HasProtected(seen, target)
    modifies world`comments, world`labels, world`path
    ensures world.Valid() && world.path == old(world.path) + trace
    ensures Careful(trace, issue, target) && NoAdds(trace)
    ensures !status.InvalidTarget? && !status.AddFailed?
    ensures status.Confirmed? ==>
      EndsWith(trace, LabelsObserved(issue, labels)) && Settled(labels, target) && GenerationMatches(world.disk, held, id)
    ensures status.CleanupIncomplete? ==> EndsWith(trace, LabelsObserved(issue, labels)) && ShowsStale(labels, target)
    ensures world.calm && GenerationMatches(world.disk, held, id) ==> status.Confirmed?
  {
    hide Inv, Run, GenerationMatches, HasProtected, Cleaning, ReadOnly, Settled, Careful, NoAdds, PRIMARY_STATUS_LABELS, ShowsStale;
    ghost var from := world.path;
    trace := [];
    labels := seen;
    CleaningStart(issue, target);
    for i := 0 to |PRIMARY_STATUS_LABELS|
      invariant world.Valid() && world.path == from + trace
      invariant Cleaning(trace, issue, target, i)
      invariant world.calm ==> labels == world.LabelsOf(issue) && target in labels && !HasProtected(labels, target)
      invariant world.calm ==> forall k | 0 <= k < i && PRIMARY_STATUS_LABELS[k] != target :: PRIMARY_STATUS_LABELS[k] !in labels
    {
      var stale := PRIMARY_STATUS_LABELS[i];
      if stale == target || stale !in labels {
        CleaningSkip(trace, issue, target, i);
        continue;
      }
      if world.calm {
        StillUnprotected(labels, {stale}, target);
      }
      ghost var before := trace;
      ghost var more;
      var stop;
      stop, labels, more := RemoveStale(world, issue, target, held, id, i, labels, before);
      trace := before + more;
      CleaningIsCareful(trace, issue, target, i + 1);
      if stop.Some? {
        return stop.value, labels, trace;
      }
    }
    if world.calm {
      AllPrimaryGone(labels, target);
    }
    ghost var last;
    status, labels, last := Verify(world, issue, target, held, id);
    CleaningRead(trace, last, issue, target, |PRIMARY_STATUS_LABELS|);
    trace := trace + last;
    CleaningIsCareful(trace, issue, target, |PRIMARY_STATUS_LABELS|);
  }

  lemma TargetsAre()
    ensures forall target: string ::
      target in COMPLETION_TARGETS <==> target in {"status:done", "status:blocked", "status:not-needed"}
  {
  }

  method TransitionCompletionStatusLabel(world: World, issue: nat, target: string, held: Option<Active>, id: Identity)
    returns (status: LabelStatus, labels: set<string>, ghost trace: seq<Entry>)
    requires world.Valid()
    modifies world`comments, world`labels, world`path
    ensures world.Valid() && world.path == old(world.path) + trace
    ensures Careful(trace, issue, target)
    ensures status.InvalidTarget? <==> target !in {"status:done", "status:blocked", "status:not-needed"}
    ensures status.InvalidTarget? ==> trace == [] && unchanged(world)
    ensures status.AddFailed? ==> EndsWith(trace, LabelsObserved(issue, labels)) && target !in labels
    ensures status.CleanupIncomplete? ==> EndsWith(trace, LabelsObserved(issue, labels)) && ShowsStale(labels, target)
    ensures (world.calm && target in COMPLETION_TARGETS
             && !(GenerationMatches(world.disk, held, id) && !HasProtected(old(world.LabelsOf(issue)), target))) ==>
      status.Conflict? && world.labels == old(world.labels)
    ensures status.Confirmed? ==>
      EndsWith(trace, LabelsObserved(issue, labels)) && Settled(labels, target) && GenerationMatches(world.disk, held, id)
    ensures (world.calm && target in COMPLETION_TARGETS && GenerationMatches(world.disk, held, id)
             && !HasProtected(old(world.LabelsOf(issue)), target)) ==>
      status.Confirmed?
  {
    hide Inv, Run, GenerationMatches, HasProtected, Careful, ReadOnly, Settled, NoAdds, RemovesOnly, PRIMARY_STATUS_LABELS, COMPLETION_TARGETS;
    TargetsAre();
    if target !in COMPLETION_TARGETS {
      ReadsAreCareful([], issue, target) by { NothingWritten(issue); }
      return InvalidTarget, {}, [];
    }
    var reading;
    reading, trace := Observe(world, issue, target, held, id);
    ReadsAreCareful(trace, issue, target);
    if reading.Stop? {
      return reading.status, {}, trace;
    }
    labels := reading.labels;
    if target !in labels {
      ghost var written;
      ghost var before := labels;
      reading, written := Mutate(world, issue, target, held, id, true, target);
      AppendAdd(trace, written, issue, target);
      trace := trace + written;
      StillUnprotectedWithTarget(before, target);
      if reading.Stop? {
        return reading.status, {}, trace;
      }
      labels := reading.labels;
      if target !in labels {
        return AddFailed, labels, trace;
      }
    }
    ghost var rest;
    ghost var first := trace;
    status, labels, rest := Cleanup(world, issue, target, held, id, labels);
    AppendCleanup(first, rest, issue, target);
    trace := first + rest;
  }
}
