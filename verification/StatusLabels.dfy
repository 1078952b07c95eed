/** The status labels of an Issue and the rules of a completed one. */
module StatusLabels {
  import opened CompletionRecords

  const PRIMARY_STATUS_LABELS: seq<string> := ["status:in-progress", "status:queued", "status:blocked"]
  const FORCE_SERIAL := "status:force-serial"

  predicate IsStatus(name: string) {
    "status:" <= name
  }

  // A status label that completion must never disturb.
  predicate IsProtected(name: string, target: string) {
    IsStatus(name) && name !in PRIMARY_STATUS_LABELS && name != target && name != FORCE_SERIAL
  }

  predicate HasProtected(labels: set<string>, target: string) {
    exists name | name in labels :: IsProtected(name, target)
  }

  // The observation that justifies a confirmation.
  predicate Settled(labels: set<string>, target: string) {
    && target in labels
    && !HasProtected(labels, target)
    && forall stale | stale in PRIMARY_STATUS_LABELS && stale != target :: stale !in labels
  }

  lemma PrimaryDistinct()
    ensures forall i, j | 0 <= i < j < |PRIMARY_STATUS_LABELS| :: PRIMARY_STATUS_LABELS[i] != PRIMARY_STATUS_LABELS[j]
  {
    assert PRIMARY_STATUS_LABELS[0][7] == 'i' && PRIMARY_STATUS_LABELS[1][7] == 'q' && PRIMARY_STATUS_LABELS[2][7] == 'b';
  }

  // ---- What a settled Issue shows ----

  // The labels announce this verdict and no other, and no longer an open task.
  predicate ShowsVerdict(labels: set<string>, verdict: Verdict) {
    && ("status:done" in labels <==> verdict.Done?)
    && ("status:blocked" in labels <==> verdict.Blocked?)
    && ("status:not-needed" in labels <==> verdict.NotNeeded?)
    && "status:in-progress" !in labels && "status:queued" !in labels
  }

  // Every status label is the one announced, one of an open task, or force-serial.
  predicate Undisturbed(labels: set<string>, verdict: Verdict) {
    forall name | name in labels && "status:" <= name ::
      || name == "status:in-progress" || name == "status:queued" || name == "status:blocked" || name == "status:force-serial"
      || (verdict.Done? && name == "status:done")
      || (verdict.NotNeeded? && name == "status:not-needed")
  }

  lemma ProtectedIff(labels: set<string>, verdict: Verdict)
    ensures HasProtected(labels, TargetLabel(verdict)) <==> !Undisturbed(labels, verdict)
  {
  }

  lemma SettledIff(labels: set<string>, verdict: Verdict)
    ensures Settled(labels, TargetLabel(verdict)) <==> ShowsVerdict(labels, verdict) && Undisturbed(labels, verdict)
  {
    ProtectedIff(labels, verdict);
  }

  lemma TargetAloneIsSettled(target: string)
    ensures Settled({target}, target)
  {
  }
}
