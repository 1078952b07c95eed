/** Find-or-post of one outcome comment. A failed POST is ambiguous: every comment is
    looked at again, and the POST is never repeated blindly. */
module OutcomePosting {
  import opened Wrappers
  import opened CompletionRecords
  import opened CompletionRuns
  import opened CompletionWorld

  datatype PostingRequest = PostingRequest(issue: nat, outcome: Outcome)

  datatype PostingResult = PostingResult(posting: Posting, reused: bool)

  datatype PostingError = RequestInvalid | PostConflict | LookupUnknown | PostFailed

  function MakeRequest(issue: nat, outcome: Outcome): (r: Result<PostingRequest, PostingError>)
    ensures r.Ok? <==> issue == outcome.issue && outcome.completion.Some? && outcome.completion.value != ""
    ensures r.Ok? ==> r.value.issue == issue && r.value.outcome == outcome
  {
    if issue != outcome.issue then Err(RequestInvalid)
    else if outcome.completion.None? || outcome.completion.value == "" then Err(RequestInvalid)
    else Ok(PostingRequest(issue, outcome))
  }

  // The request publishes the body frozen in this journal record.
  ghost predicate Publishes(codec: Codec, id: Identity, request: PostingRequest) {
    && request.issue == id.issue
    && request.outcome.completion == Some(id.completion)
    && codec.render(request.outcome) == id.payload.body
  }

  predicate Carries(codec: Codec, comment: Comment, completion: string) {
    CompletionOf(codec, comment) == Some(completion)
  }

  // A comment under this completion id that cannot serve as its evidence.
  ghost predicate Blocker(codec: Codec, comments: seq<Comment>, completion: string, body: string) {
    exists c :: c in comments && Carries(codec, c, completion) && (c.body != body || c.evidence.None?)
  }

  // Nothing but other people's edits and at most one POST of this body.
  ghost predicate PostsAtMostOnce(trace: seq<Entry>, key: JournalKey, body: string) {
    && (forall i | 0 <= i < |trace| ::
          || trace[i].event.ForeignCommentsChanged?
          || (trace[i].event.OutcomePostedAs? && trace[i].event.key == key && trace[i].event.comment.body == body))
    && (forall i, j | 0 <= i < j < |trace| && trace[i].event.OutcomePostedAs? :: !trace[j].event.OutcomePostedAs?)
  }

  ghost predicate Posts(trace: seq<Entry>) {
    exists i :: 0 <= i < |trace| && trace[i].event.OutcomePostedAs?
  }

  lemma QuietPosts(trace: seq<Entry>, key: JournalKey, body: string)
    requires Quiet(trace)
    ensures PostsAtMostOnce(trace, key, body) && !Posts(trace)
  {
  }

  lemma QuietAround(first: seq<Entry>, middle: seq<Entry>, last: seq<Entry>, key: JournalKey, body: string)
    requires Quiet(first) && Quiet(last) && |middle| <= 1
    requires forall i | 0 <= i < |middle| ::
      middle[i].event.OutcomePostedAs? && middle[i].event.key == key && middle[i].event.comment.body == body
    ensures PostsAtMostOnce(first + middle + last, key, body)
    ensures Posts(first + middle + last) <==> middle != []
  {
    var whole := first + middle + last;
    forall i | 0 <= i < |whole|
      ensures whole[i] in first || whole[i] in last || (i == |first| && middle != [] && whole[i] == middle[0]) {
    }
    if middle != [] {
      assert whole[|first|] == middle[0];
    }
  }

  // Other people's edits never touch the comments that carry completion ids.
  lemma ForeignKeepsUnposted(codec: Codec, before: map<nat, seq<Comment>>, after: map<nat, seq<Comment>>, key: JournalKey)
    requires Completions(codec, CommentsOf(before, key.issue)) == Completions(codec, CommentsOf(after, key.issue))
    requires Unposted(codec, before, key)
    ensures Unposted(codec, after, key)
  {
    forall c | c in CommentsOf(after, key.issue) ensures CompletionOf(codec, c) != Some(key.completion) {
      if CompletionOf(codec, c).Some? {
        CompletionsMembers(codec, CommentsOf(before, key.issue), c);
        CompletionsMembers(codec, CommentsOf(after, key.issue), c);
      }
    }
  }

  method FindExisting(world: World, request: PostingRequest)
    returns (found: Result<Option<Posting>, PostingError>, ghost trace: seq<Entry>)
    requires world.Valid() && request.outcome.completion.Some?
    modifies world`comments, world`labels, world`path
    ensures world.Valid() && world.path == old(world.path) + trace && Quiet(trace)
    ensures world.calm ==> unchanged(world)
    ensures found.Ok? && found.value.Some? ==>
      Comment(found.value, world.codec.render(request.outcome)) in CommentsOf(world.comments, request.issue)
    ensures found == Ok(None) ==>
      forall c | c in CommentsOf(world.comments, request.issue) :: !Carries(world.codec, c, request.outcome.completion.value)
    ensures found == Err(PostConflict) || (world.calm && found.Err?) ==>
      Blocker(world.codec, CommentsOf(world.comments, request.issue),
              request.outcome.completion.value, world.codec.render(request.outcome))
    ensures found.Err? ==> found.error.PostConflict? || found.error.LookupUnknown?
    ensures found == Err(PostConflict) || (world.calm && found == Err(LookupUnknown)) ==>
      exists c :: c in CommentsOf(world.comments, request.issue) && Carries(world.codec, c, request.outcome.completion.value)
        && (found.error.PostConflict? <==> c.body != world.codec.render(request.outcome))
  {
    hide Inv, Run, Completions;
    var page;
    page, trace := world.ListComments(request.issue);
    if page.None? {
      return Err(LookupUnknown), trace;
    }
    var comments := page.value;
    for i := 0 to |comments|
      invariant forall k | 0 <= k < i :: !Carries(world.codec, comments[k], request.outcome.completion.value)
    {
      var comment := comments[i];
      var record := world.codec.parse(comment.body);
      if record.None? || record.value.completion != request.outcome.completion {
        continue;
      }
      assert comment in comments && Carries(world.codec, comment, request.outcome.completion.value);
      if record.value != request.outcome || comment.body != world.codec.render(request.outcome) {
        return Err(PostConflict), trace;
      }
      if comment.evidence.None? {
        return Err(LookupUnknown), trace;
      }
      assert comment == Comment(comment.evidence, world.codec.render(request.outcome));
      return Ok(comment.evidence), trace;
    }
    found := Ok(None);
  }

  method PostIssueOutcome(world: World, key: JournalKey, request: PostingRequest)
    returns (posted: Result<PostingResult, PostingError>, ghost trace: seq<Entry>)
    requires world.Valid()
    requires key in world.disk.journal && world.disk.journal[key].stage.Reserved?
    requires world.disk.journal[key].id.Key() == key && Publishes(world.codec, world.disk.journal[key].id, request)
    modifies world`comments, world`labels, world`path
    ensures world.Valid() && world.path == old(world.path) + trace
    ensures PostsAtMostOnce(trace, key, world.disk.journal[key].id.payload.body)
    ensures posted.Ok? ==>
      Comment(Some(posted.value.posting), world.disk.journal[key].id.payload.body) in CommentsOf(world.comments, key.issue)
    ensures posted.Ok? && !Posts(trace) ==> posted.value.reused
    ensures posted == Err(PostFailed) ==> Unposted(world.codec, world.comments, key)
    ensures posted == Err(PostConflict) || (world.calm && posted.Err?) ==>
      Blocker(world.codec, CommentsOf(world.comments, key.issue), key.completion, world.disk.journal[key].id.payload.body)
    ensures world.calm ==> world.labels == old(world.labels)
    ensures world.calm && posted.Err? ==> world.comments == old(world.comments)
  {
    hide Inv, Run, Completions, PostsAtMostOnce, Posts, Quiet, Unposted, Blocker, Carries, CommentsOf, Post;
    ghost var body := world.disk.journal[key].id.payload.body;
    var existing;
    existing, trace := FindExisting(world, request);
    QuietPosts(trace, key, body);
    if existing.Err? {
      return Err(existing.error), trace;
    }
    if existing.value.Some? {
      return Ok(PostingResult(existing.value.value, true)), trace;
    }
    NothingCarried(world.codec, world.comments, key);
    ghost var before := world.comments;
    ghost var first := trace;
    ghost var others := world.Interfere();
    ForeignKeepsUnposted(world.codec, before, world.comments, key);
    before := world.comments;
    assert Quiet(first + others) by { QuietConcat(first, others); }
    var response;
    ghost var posting;
    response, posting := world.CreateComment(key, world.codec.render(request.outcome));
    if response.Some? && response.value.evidence.Some? {
      QuietAround(first + others, posting, [], key, body);
      trace := first + others + posting + [];
      PostedIsThere(before, world.comments, key.issue, response.value);
      assert response.value == Comment(response.value.evidence, body);
      return Ok(PostingResult(response.value.evidence.value, false)), trace;
    }
    ghost var again;
    var recovered;
    recovered, again := FindExisting(world, request);
    QuietAround(first + others, posting, again, key, body);
    trace := first + others + posting + again;
    if recovered.Err? {
      return Err(recovered.error), trace;
    }
    if recovered.value.Some? {
      return Ok(PostingResult(recovered.value.value, true)), trace;
    }
    NothingCarried(world.codec, world.comments, key);
    posted := Err(PostFailed);
  }

  lemma PostedIsThere(before: map<nat, seq<Comment>>, after: map<nat, seq<Comment>>, issue: nat, comment: Comment)
    requires after == Post(before, issue, comment)
    ensures comment in CommentsOf(after, issue)
  {
  }

  lemma NothingCarried(codec: Codec, comments: map<nat, seq<Comment>>, key: JournalKey)
    requires forall c | c in CommentsOf(comments, key.issue) :: !Carries(codec, c, key.completion)
    ensures Unposted(codec, comments, key)
  {
  }

  lemma QuietConcat(first: seq<Entry>, last: seq<Entry>)
    requires Quiet(first) && Quiet(last)
    ensures Quiet(first + last)
  {
  }
}
