/** A run from an empty ledger that shows the reuse of an open completion id is real. */
module CompletionExample {
  import opened Wrappers
  import opened CompletionRecords
  import opened StatusLabels
  import opened CompletionRuns
  import opened CompletionReplay
  import opened CompletionService

  const EMPTY := Snapshot(RunState(map[], map[], map[], map[]), map[])

  lemma EmptyLedgerInv(codec: Codec)
    ensures Inv(codec, EMPTY)
  {
  }

  // ---- Runs one after the other ----

  lemma AtLater(start: Snapshot, first: seq<Entry>, rest: seq<Entry>, j: nat)
    requires j <= |rest|
    ensures At(start, first + rest, |first| + j) == At(At(start, first, |first|), rest, j)
  {
  }

  lemma RunsAppend(codec: Codec, start: Snapshot, first: seq<Entry>, rest: seq<Entry>)
    requires Run(codec, start, first)
    ensures Run(codec, start, first + rest) <==> Run(codec, At(start, first, |first|), rest)
  {
    hide Step;
    var whole := first + rest;
    var middle := At(start, first, |first|);
    forall i | 0 <= i < |rest| ensures At(start, whole, |first| + i) == At(middle, rest, i) && whole[|first| + i] == rest[i] {
      AtLater(start, first, rest, i);
    }
    assert forall i | 0 <= i < |first| :: whole[i] == first[i] && At(start, whole, i) == At(start, first, i);
    if Run(codec, start, whole) {
      forall i | 0 <= i < |rest| ensures Step(codec, At(middle, rest, i), rest[i].event, rest[i].after) {
        assert Step(codec, At(start, whole, |first| + i), whole[|first| + i].event, whole[|first| + i].after);
      }
    }
    if Run(codec, middle, rest) {
      forall i | 0 <= i < |whole| ensures Step(codec, At(start, whole, i), whole[i].event, whole[i].after) {
        if i >= |first| {
          assert Step(codec, At(middle, rest, i - |first|), rest[i - |first|].event, rest[i - |first|].after);
        }
      }
    }
  }

  // ---- Two Issues, one id ----

  const ID := "shared"
  const POSTING := Posting("1", "https://example.invalid/1")
  const TARGET := TargetLabel(Done)

  function Fixed(issue: nat): Outcome {
    Outcome(issue, Done, None, Some(ID), None, None, "")
  }

  // The fingerprints of the two requests.
  ghost predicate Digests(codec: Codec, digests: (string, string)) {
    codec.intent(digests.0) == Intent(1, Done, None, "") && codec.intent(digests.1) == Intent(2, Done, None, "")
  }

  function Candidate(codec: Codec, issue: nat, digest: string): Record {
    Record(
      Identity("repo", issue, "claim", ID, "owner", digest, Done, TARGET, Payload(codec.render(Fixed(issue)), None)),
      Reserved, None, None, Allowed, map[])
  }

  lemma CandidateIsWellFormed(codec: Codec, issue: nat, digest: string)
    requires codec.Lawful() && codec.intent(digest) == Intent(issue, Done, None, "")
    ensures WellFormed(codec, Candidate(codec, issue, digest).id)
  {
  }

  // The first Issue's completion, up to confirmed labels.
  lemma OpenCompletion(codec: Codec, digests: (string, string)) returns (path: seq<Entry>, open: Record)
    requires codec.Lawful() && Digests(codec, digests)
    ensures Run(codec, EMPTY, path) && |path| == 4
    ensures open.id == Candidate(codec, 1, digests.0).id
    ensures SharesOpenId(codec, At(EMPTY, path, 4), open, None, Candidate(codec, 2, digests.1))
  {
    hide Settled;
    TargetAloneIsSettled(TARGET);
    CandidateIsWellFormed(codec, 1, digests.0);
    CandidateIsWellFormed(codec, 2, digests.1);
    var first := Candidate(codec, 1, digests.0);
    var key := first.id.Key();
    var comment := Comment(Some(POSTING), first.id.payload.body);
    var s1 := EMPTY.(state := Reserve(EMPTY.state, first));
    var s2 := s1.(comments := Post(s1.comments, 1, comment));
    var posted := first.(stage := OutcomePosted, posting := Some(POSTING));
    var s3 := s2.(state := s2.state.(journal := s2.state.journal[key := posted]));
    open := posted.(stage := LabelConfirmed, observed := Some({TARGET}));
    var s4 := s3.(state := s3.state.(journal := s3.state.journal[key := open]));
    path := [Entry(ReservationSaved(first), s1), Entry(OutcomePostedAs(key, comment), s2),
             Entry(OutcomeSaved(key, POSTING), s3), Entry(LabelsSaved(key, {TARGET}), s4)];
    assert Step(codec, EMPTY, path[0].event, s1);
    assert Step(codec, s1, path[1].event, s2);
    assert Step(codec, s2, path[2].event, s3);
    assert Step(codec, s3, path[3].event, s4);
    assert At(EMPTY, path, 0) == EMPTY && At(EMPTY, path, 1) == s1 && At(EMPTY, path, 2) == s2 && At(EMPTY, path, 3) == s3;
  }

  /** From an empty ledger there is a run of ten steps after which both Issues are finished
      and the first completion is never answered again, whatever follows. */
  lemma SharedIdHappens(codec: Codec, digests: (string, string)) returns (path: seq<Entry>, request: Request)
    requires codec.Lawful() && Digests(codec, digests)
    ensures Run(codec, EMPTY, path) && |path| == 10
    ensures request.Digested(codec) && Repeats(request, "repo", Candidate(codec, 1, digests.0).id)
    ensures forall more, j | Run(codec, EMPTY, path + more) && |path| <= j <= |path + more| ::
      FindReplay(codec, request, "repo", At(EMPTY, path + more, j).state) == Err(AmbiguousHistory)
  {
    hide Run, Inv, SharesOpenId, FindReplay, At;
    request := Request(1, None, Some(ID), digests.0, Done, None, "");
    var first, open := OpenCompletion(codec, digests);
    var s := At(EMPTY, first, 4);
    EmptyLedgerInv(codec);
    RunKeepsInv(codec, EMPTY, first, 4);
    var rest := SharedIdEndsReplay(codec, s, open, None, Candidate(codec, 2, digests.1), POSTING, request);
    path := first + rest;
    RunsAppend(codec, EMPTY, first, rest);
    forall more, j | Run(codec, EMPTY, path + more) && |path| <= j <= |path + more|
      ensures FindReplay(codec, request, "repo", At(EMPTY, path + more, j).state) == Err(AmbiguousHistory)
    {
      assert path + more == first + (rest + more);
      RunsAppend(codec, EMPTY, first, rest + more);
      AtLater(EMPTY, first, rest + more, j - 4);
    }
  }
}
