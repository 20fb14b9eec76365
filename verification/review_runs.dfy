/** What holds of a job over any run of uploads, submissions and sign-offs. */
module ReviewRuns {
  import opened Wrappers
  import opened Review

  // ---- The invariant

  /** One opinion per reviewer and item, by designated reviewers on items of the round. */
  ghost predicate OpinionsOk(reviewers: seq<UserId>, round: Round) {
    && (forall i, j | 0 <= i < j < |round.opinions| ::
          round.opinions[i].reviewer != round.opinions[j].reviewer || round.opinions[i].item != round.opinions[j].item)
    && (forall i | 0 <= i < |round.opinions| ::
          round.opinions[i].reviewer in reviewers && round.opinions[i].item < |round.items|
            && round.opinions[i].row >= 1)
  }

  ghost predicate RoundOk(job: Job, k: nat)
    requires k < |job.rounds|
  {
    && job.rounds[k].version == k + 1 && job.rounds[k].items == job.checklist
    && OpinionsOk(job.reviewers, job.rounds[k])
    && job.rounds[k].status == (if k < |job.rounds| - 1 then Superseded else if job.approved then Approved else Open)
  }

  ghost predicate FileOk(job: Job, k: nat)
    requires k < |job.files|
  {
    && job.files[k].version == k + 1
    && job.files[k].status ==
      (if k < |job.files| - 1 then SupersededFile else if job.approved then ApprovedFile else Ready)
  }

  /** An approved job's one sign-off is of its last round, which is complete. */
  ghost predicate ApprovalOk(job: Job) {
    if !job.approved then job.signoffs == []
    else
      && job.rounds != []
      && Complete(job.reviewers, job.rounds[|job.rounds| - 1])
      && job.signoffs == [Signoff(job.current, job.manager, Basis(job.reviewers, job.rounds[|job.rounds| - 1]))]
  }

  ghost predicate Inv(job: Job) {
    && job.current == |job.rounds| == |job.files|
    && job.checklist != [] && job.designer != job.manager
    && (forall k | 0 <= k < |job.rounds| :: RoundOk(job, k))
    && (forall k | 0 <= k < |job.files| :: FileOk(job, k))
    && ApprovalOk(job)
  }

  lemma CreateInv(env: Env, caller: User, manager: UserId, reviewers: seq<UserId>, checklist: seq<string>)
    ensures Create(env, caller, manager, reviewers, checklist).Ok? ==>
      Inv(Create(env, caller, manager, reviewers, checklist).value)
  {
  }

  // ---- Each operation

  lemma UploadKeeps(job: Job, caller: User, digest: string)
    requires Inv(job) && Upload(job, caller, digest).Ok?
    ensures Inv(Upload(job, caller, digest).value)
  {
    var next := Upload(job, caller, digest).value;
    forall k | 0 <= k < |next.rounds|
      ensures RoundOk(next, k)
    {
      assert k < |job.rounds| ==> RoundOk(job, k);
    }
    forall k | 0 <= k < |next.files|
      ensures FileOk(next, k)
    {
      assert k < |job.files| ==> FileOk(job, k);
    }
  }

  lemma RecordKeeps(reviewers: seq<UserId>, round: Round, reviewer: UserId, item: Item)
    requires OpinionsOk(reviewers, round) && reviewer in reviewers
    ensures var r := Record(round, reviewer, item);
            r.Ok? ==> OpinionsOk(reviewers, r.value) && r.value == round.(opinions := r.value.opinions)
  {
    var place := PlaceOf(round.items, item.code);
    if place.Some? && FindOpinion(round.opinions, reviewer, place.value).None? {
      forall i | 0 <= i < |round.opinions|
        ensures round.opinions[i].reviewer != reviewer || round.opinions[i].item != place.value
      {
        assert round.opinions[i] in round.opinions;
      }
    }
  }

  lemma {:induction false} RecordAllKeeps(reviewers: seq<UserId>, round: Round, reviewer: UserId, items: seq<Item>)
    requires OpinionsOk(reviewers, round) && reviewer in reviewers
    ensures var r := RecordAll(round, reviewer, items);
            r.Ok? ==> OpinionsOk(reviewers, r.value) && r.value == round.(opinions := r.value.opinions)
    decreases |items|
  {
    if items != [] && Record(round, reviewer, items[0]).Ok? {
      RecordKeeps(reviewers, round, reviewer, items[0]);
      RecordAllKeeps(reviewers, Record(round, reviewer, items[0]).value, reviewer, items[1..]);
    }
  }

  /** Only the current round takes opinions. */
  lemma SubmitIsCurrent(env: Env, job: Job, caller: User, version: nat, items: seq<Item>)
    requires Inv(job) && Submit(env, job, caller, version, items).Ok?
    ensures !job.approved && version == job.current && FindRound(job.rounds, version) == Some(|job.rounds| - 1)
  {
    var k := FindRound(job.rounds, version).value;
    assert RoundOk(job, k);
  }

  lemma SubmitKeeps(env: Env, job: Job, caller: User, version: nat, items: seq<Item>)
    requires Inv(job) && Submit(env, job, caller, version, items).Ok?
    ensures Inv(Submit(env, job, caller, version, items).value)
  {
    SubmitIsCurrent(env, job, caller, version, items);
    var last := |job.rounds| - 1;
    assert RoundOk(job, last);
    RecordAllKeeps(job.reviewers, job.rounds[last], caller.id, ParsedAll(env, items).value);
    var next := Submit(env, job, caller, version, items).value;
    forall k | 0 <= k < |next.rounds|
      ensures RoundOk(next, k)
    {
      assert RoundOk(job, k);
    }
    forall k | 0 <= k < |next.files|
      ensures FileOk(next, k)
    {
      assert FileOk(job, k);
    }
  }

  lemma SignOffKeeps(job: Job, caller: User)
    requires Inv(job) && SignOff(job, caller).Ok?
    ensures Inv(SignOff(job, caller).value)
  {
    var k := OpenRound(job).value;
    assert RoundOk(job, k);
    var next := SignOff(job, caller).value;
    CompleteSame(job.reviewers, job.rounds[k], Approved);
    forall j | 0 <= j < |next.rounds|
      ensures RoundOk(next, j)
    {
      assert RoundOk(job, j);
    }
    forall j | 0 <= j < |next.files|
      ensures FileOk(next, j)
    {
      assert FileOk(job, j);
    }
  }

  /** A round's status has no part in what was answered. */
  lemma CompleteSame(reviewers: seq<UserId>, round: Round, status: RoundStatus)
    ensures Complete(reviewers, round.(status := status)) == Complete(reviewers, round)
    ensures Basis(reviewers, round.(status := status)) == Basis(reviewers, round)
  {
    forall r | r in reviewers
      ensures AllAccepted(round.(status := status), r) == AllAccepted(round, r)
    {
      forall i | 0 <= i < |round.items|
        ensures Accepted(round.(status := status), r, i) == Accepted(round, r, i)
      {
      }
    }
  }

  lemma StepKeeps(env: Env, job: Job, op: Op)
    requires Inv(job)
    ensures Inv(Step(env, job, op))
  {
    if Attempt(env, job, op).Ok? {
      match op
      case DoUpload(caller, digest) => UploadKeeps(job, caller, digest);
      case DoSubmit(caller, version, items) => SubmitKeeps(env, job, caller, version, items);
      case DoSignOff(caller) => SignOffKeeps(job, caller);
    }
  }

  lemma {:induction false} RunKeeps(env: Env, job: Job, ops: seq<Op>)
    requires Inv(job)
    ensures Inv(Run(env, job, ops))
    decreases |ops|
  {
    if ops == [] {
    } else {
      StepKeeps(env, job, ops[0]);
      RunKeeps(env, Step(env, job, ops[0]), ops[1..]);
    }
  }

  /** A job created by a designer, after any operations. */
  ghost predicate Reached(env: Env, job: Job) {
    exists caller, manager, reviewers, checklist, ops ::
      Create(env, caller, manager, reviewers, checklist).Ok?
      && job == Run(env, Create(env, caller, manager, reviewers, checklist).value, ops)
  }

  lemma ReachedInv(env: Env, job: Job)
    requires Reached(env, job)
    ensures Inv(job)
  {
    var caller, manager, reviewers, checklist, ops :|
      Create(env, caller, manager, reviewers, checklist).Ok?
      && job == Run(env, Create(env, caller, manager, reviewers, checklist).value, ops);
    CreateInv(env, caller, manager, reviewers, checklist);
    RunKeeps(env, Create(env, caller, manager, reviewers, checklist).value, ops);
  }

  // ---- Rounds

  /** At most one round is open, and it is the current version's. */
  lemma OneOpenRound(env: Env, job: Job, k: nat)
    requires Reached(env, job) && k < |job.rounds|
    ensures job.rounds[k].status.Open? <==> !job.approved && job.rounds[k].version == job.current
    ensures job.rounds[k].status.Approved? <==> job.approved && job.rounds[k].version == job.current
    ensures job.rounds[k].version == job.current ==> k == |job.rounds| - 1
  {
    ReachedInv(env, job);
    assert RoundOk(job, k);
  }

  /** An approved job refuses every change. */
  lemma ApprovedStays(env: Env, job: Job, op: Op)
    requires Inv(job) && job.approved
    ensures Step(env, job, op) == job
  {
    if op.DoSubmit? && Attempt(env, job, op).Ok? {
      SubmitIsCurrent(env, job, op.caller, op.version, op.items);
    }
  }

  lemma {:induction false} ApprovedForever(env: Env, job: Job, ops: seq<Op>)
    requires Inv(job) && job.approved
    ensures Run(env, job, ops) == job
    decreases |ops|
  {
    if ops == [] {
    } else {
      ApprovedStays(env, job, ops[0]);
      ApprovedForever(env, job, ops[1..]);
    }
  }

  /**
   After approval, and in every later state, each designated reviewer has a verdict other than fail
   on each item of the approved round, and there is exactly one sign-off, of that round, by the
   project manager.
   */
  lemma ApprovedMeansAccepted(env: Env, job: Job, ops: seq<Op>, reviewer: UserId, item: nat)
    requires Reached(env, job) && job.approved && reviewer in job.reviewers && item < |job.checklist|
    ensures var later := Run(env, job, ops);
            && later.approved && later.rounds != [] && later.rounds[|later.rounds| - 1].status.Approved?
            && Accepted(later.rounds[|later.rounds| - 1], reviewer, item)
            && |later.signoffs| == 1 && later.signoffs[0].version == later.current
              && later.signoffs[0].manager == later.manager
  {
    ReachedInv(env, job);
    ApprovedForever(env, job, ops);
    assert RoundOk(job, |job.rounds| - 1);
    assert AllAccepted(job.rounds[|job.rounds| - 1], reviewer);
  }

  /**
   Sign-off succeeds exactly for the project manager of a job whose open round every reviewer has
   completed without a failure.
   */
  lemma SignOffIff(env: Env, job: Job, caller: User)
    requires Reached(env, job)
    ensures SignOff(job, caller).Ok? <==>
      && caller.role.Manager? && caller.id == job.manager && !job.approved && job.rounds != []
      && Complete(job.reviewers, job.rounds[|job.rounds| - 1])
  {
    ReachedInv(env, job);
    if job.rounds != [] {
      assert RoundOk(job, |job.rounds| - 1);
      var k := FindRound(job.rounds, job.current);
      assert job.rounds[|job.rounds| - 1] in job.rounds;
      assert RoundOk(job, k.value);
    }
  }

  // ---- The basis adds up

  ghost function Places(opinions: seq<Opinion>, reviewer: UserId): set<nat> {
    set k | 0 <= k < |opinions| && opinions[k].reviewer == reviewer :: opinions[k].item
  }

  lemma PlacesStep(rest: seq<Opinion>, o: Opinion, reviewer: UserId)
    ensures Places(rest + [o], reviewer) == if o.reviewer == reviewer then Places(rest, reviewer) + {o.item}
      else Places(rest, reviewer)
  {
    var all := rest + [o];
    assert all[|rest|] == o;
    assert forall k | 0 <= k < |rest| :: all[k] == rest[k];
  }

  lemma {:induction false} CountsArePlaces(opinions: seq<Opinion>, reviewer: UserId)
    requires forall i, j | 0 <= i < j < |opinions| ::
      opinions[i].reviewer != opinions[j].reviewer || opinions[i].item != opinions[j].item
    ensures CountVerdicts(opinions, reviewer, Pass) + CountVerdicts(opinions, reviewer, NA)
      + CountVerdicts(opinions, reviewer, Fail)
            == |Places(opinions, reviewer)|
  {
    if opinions == [] {
      assert Places(opinions, reviewer) == {};
    } else {
      var rest, o := opinions[..|opinions| - 1], opinions[|opinions| - 1];
      CountsArePlaces(rest, reviewer);
      assert opinions == rest + [o];
      PlacesStep(rest, o, reviewer);
      NotThereYet(opinions);
    }
  }

  lemma NotThereYet(opinions: seq<Opinion>)
    requires opinions != []
    requires forall i, j | 0 <= i < j < |opinions| ::
      opinions[i].reviewer != opinions[j].reviewer || opinions[i].item != opinions[j].item
    ensures var o := opinions[|opinions| - 1];
            o.item !in Places(opinions[..|opinions| - 1], o.reviewer)
  {
  }

  lemma {:induction false} NoFailsCounted(opinions: seq<Opinion>, reviewer: UserId)
    requires forall o | o in opinions && o.reviewer == reviewer :: !o.verdict.Fail?
    ensures CountVerdicts(opinions, reviewer, Fail) == 0
  {
    if opinions == [] {
    } else {
      assert opinions[|opinions| - 1] in opinions;
      NoFailsCounted(opinions[..|opinions| - 1], reviewer);
    }
  }

  lemma UpTo(s: set<nat>, n: nat)
    requires forall i: nat :: i in s <==> i < n
    ensures |s| == n
  {
    if n > 0 {
      UpTo(s - {n - 1}, n - 1);
    } else {
      assert s == {};
    }
  }

  lemma AcceptedPlaces(reviewers: seq<UserId>, round: Round, reviewer: UserId)
    requires OpinionsOk(reviewers, round) && AllAccepted(round, reviewer)
    ensures |Places(round.opinions, reviewer)| == |round.items|
    ensures forall o | o in round.opinions && o.reviewer == reviewer :: !o.verdict.Fail?
  {
    forall i: nat
      ensures i in Places(round.opinions, reviewer) <==> i < |round.items|
    {
      if i < |round.items| {
        assert Accepted(round, reviewer, i);
        var k := FindOpinion(round.opinions, reviewer, i).value;
        assert round.opinions[k].item == i;
      }
    }
    UpTo(Places(round.opinions, reviewer), |round.items|);
    forall o | o in round.opinions && o.reviewer == reviewer
      ensures !o.verdict.Fail?
    {
      var k :| 0 <= k < |round.opinions| && round.opinions[k] == o;
      assert Accepted(round, reviewer, o.item);
      var j := FindOpinion(round.opinions, reviewer, o.item).value;
      SameOpinion(reviewers, round, j, k);
    }
  }

  lemma SameOpinion(reviewers: seq<UserId>, round: Round, j: nat, k: nat)
    requires OpinionsOk(reviewers, round) && j < |round.opinions| && k < |round.opinions|
    requires round.opinions[j].reviewer == round.opinions[k].reviewer
      && round.opinions[j].item == round.opinions[k].item
    ensures j == k
  {
  }

  /** In the basis of a sign-off each reviewer's passes and not-applicables come to the number of items. */
  lemma BasisAddsUp(env: Env, job: Job, i: nat)
    requires Reached(env, job) && job.approved && i < |job.reviewers|
    ensures |job.signoffs| == 1 && |job.signoffs[0].basis| == |job.reviewers|
    ensures job.signoffs[0].basis[i].reviewer == job.reviewers[i]
    ensures job.signoffs[0].basis[i].pass + job.signoffs[0].basis[i].na == |job.checklist|
  {
    ReachedInv(env, job);
    var round := job.rounds[|job.rounds| - 1];
    assert RoundOk(job, |job.rounds| - 1);
    assert AllAccepted(round, job.reviewers[i]);
    AcceptedPlaces(job.reviewers, round, job.reviewers[i]);
    CountsArePlaces(round.opinions, job.reviewers[i]);
    NoFailsCounted(round.opinions, job.reviewers[i]);
  }

  // ---- What a submission records

  /** An accepted edit is what its reviewer has answered; no other answer changes. */
  lemma RecordIsAnswer(reviewers: seq<UserId>, round: Round, reviewer: UserId, item: Item)
    requires OpinionsOk(reviewers, round) && reviewer in reviewers && Record(round, reviewer, item).Ok?
    ensures PlaceOf(round.items, item.code).Some?
    ensures var place := PlaceOf(round.items, item.code).value;
            forall q: UserId, i: nat ::
              Answer(Record(round, reviewer, item).value, q, i) ==
                if q == reviewer && i == place then Some(item.verdict) else Answer(round, q, i)
  {
    var place := PlaceOf(round.items, item.code).value;
    var next := Record(round, reviewer, item).value;
    RecordKeeps(reviewers, round, reviewer, item);
    forall q: UserId, i: nat
      ensures Answer(next, q, i) == if q == reviewer && i == place then Some(item.verdict) else Answer(round, q, i)
    {
      AnswerIs(reviewers, round, q, i);
      AnswerIs(reviewers, next, q, i);
      var k := FindOpinion(round.opinions, reviewer, place);
      var at := if k.Some? then k.value else |round.opinions|;
      assert next.opinions[at].reviewer == reviewer && next.opinions[at].item == place
        && next.opinions[at].verdict == item.verdict;
      var found := FindOpinion(round.opinions, q, i);
      assert found.Some? && !(q == reviewer && i == place) ==>
        next.opinions[found.value] == round.opinions[found.value];
    }
  }

  /** With one opinion per reviewer and item, the answer is that opinion's verdict. */
  lemma AnswerIs(reviewers: seq<UserId>, round: Round, reviewer: UserId, item: nat)
    requires OpinionsOk(reviewers, round)
    ensures forall k | 0 <= k < |round.opinions| && round.opinions[k].reviewer == reviewer
      && round.opinions[k].item == item ::
              Answer(round, reviewer, item) == Some(round.opinions[k].verdict)
    ensures (forall k | 0 <= k < |round.opinions| ::
      round.opinions[k].reviewer != reviewer || round.opinions[k].item != item)
              ==> Answer(round, reviewer, item) == None
  {
    forall k | 0 <= k < |round.opinions| && round.opinions[k].reviewer == reviewer && round.opinions[k].item == item
      ensures Answer(round, reviewer, item) == Some(round.opinions[k].verdict)
    {
      assert round.opinions[k] in round.opinions;
      SameOpinion(reviewers, round, FindOpinion(round.opinions, reviewer, item).value, k);
    }
  }

  // ---- History and stale edits

  /** Rounds before the last never change again. */
  lemma StepKeepsHistory(env: Env, job: Job, op: Op)
    requires Inv(job)
    ensures var next := Step(env, job, op);
            && |job.rounds| <= |next.rounds|
            && forall k | 0 <= k < |job.rounds| - 1 :: next.rounds[k] == job.rounds[k]
  {
    forall k | 0 <= k < |job.rounds| - 1
      ensures SupersedeRound(job.rounds[k]) == job.rounds[k]
    {
      assert RoundOk(job, k);
    }
    if op.DoSubmit? && Attempt(env, job, op).Ok? {
      SubmitIsCurrent(env, job, op.caller, op.version, op.items);
    }
    if op.DoSignOff? && Attempt(env, job, op).Ok? {
      assert RoundOk(job, OpenRound(job).value);
    }
  }

  lemma {:induction false} SupersededForever(env: Env, job: Job, ops: seq<Op>, k: nat)
    requires Inv(job) && k < |job.rounds| - 1
    ensures k < |Run(env, job, ops).rounds| && Run(env, job, ops).rounds[k] == job.rounds[k]
    decreases |ops|
  {
    if ops == [] {
    } else {
      StepKeeps(env, job, ops[0]);
      StepKeepsHistory(env, job, ops[0]);
      SupersededForever(env, Step(env, job, ops[0]), ops[1..], k);
    }
  }

  /** The row version of a reviewer's opinion on an item, 0 when there is none. */
  function RowOf(round: Round, reviewer: UserId, item: nat): int {
    var k := FindOpinion(round.opinions, reviewer, item);
    if k.Some? then round.opinions[k.value].row else 0
  }

  lemma RowIs(reviewers: seq<UserId>, round: Round, reviewer: UserId, item: nat)
    requires OpinionsOk(reviewers, round)
    ensures forall k | 0 <= k < |round.opinions| && round.opinions[k].reviewer == reviewer
      && round.opinions[k].item == item ::
              RowOf(round, reviewer, item) == round.opinions[k].row
    ensures (forall k | 0 <= k < |round.opinions| ::
      round.opinions[k].reviewer != reviewer || round.opinions[k].item != item)
              ==> RowOf(round, reviewer, item) == 0
  {
    forall k | 0 <= k < |round.opinions| && round.opinions[k].reviewer == reviewer && round.opinions[k].item == item
      ensures RowOf(round, reviewer, item) == round.opinions[k].row
    {
      assert round.opinions[k] in round.opinions;
      SameOpinion(reviewers, round, FindOpinion(round.opinions, reviewer, item).value, k);
    }
  }

  /** An edit is accepted exactly on the latest row version, which it raises by one. */
  lemma RecordRow(reviewers: seq<UserId>, round: Round, reviewer: UserId, item: Item)
    requires OpinionsOk(reviewers, round) && reviewer in reviewers
    ensures Record(round, reviewer, item).Ok? <==>
              PlaceOf(round.items, item.code).Some?
              && item.seen == RowOf(round, reviewer, PlaceOf(round.items, item.code).value)
    ensures Record(round, reviewer, item).Ok? ==>
              var place := PlaceOf(round.items, item.code).value;
              forall q: UserId, i: nat ::
                RowOf(Record(round, reviewer, item).value, q, i) ==
                  if q == reviewer && i == place then item.seen + 1 else RowOf(round, q, i)
  {
    if Record(round, reviewer, item).Ok? {
      var place := PlaceOf(round.items, item.code).value;
      var next := Record(round, reviewer, item).value;
      RecordKeeps(reviewers, round, reviewer, item);
      forall q: UserId, i: nat
        ensures RowOf(next, q, i) == if q == reviewer && i == place then item.seen + 1 else RowOf(round, q, i)
      {
        RowIs(reviewers, round, q, i);
        RowIs(reviewers, next, q, i);
        var k := FindOpinion(round.opinions, reviewer, place);
        var at := if k.Some? then k.value else |round.opinions|;
        assert next.opinions[at].reviewer == reviewer && next.opinions[at].item == place;
        var found := FindOpinion(round.opinions, q, i);
        assert found.Some? && !(q == reviewer && i == place) ==>
          next.opinions[found.value] == round.opinions[found.value];
      }
    }
  }

  ghost predicate RowsGrow(before: Round, after: Round) {
    after.items == before.items && forall q: UserId, i: nat :: RowOf(before, q, i) <= RowOf(after, q, i)
  }

  /** An item based on a version that is no longer the latest. */
  ghost predicate Outdated(round: Round, reviewer: UserId, item: Item) {
    PlaceOf(round.items, item.code).Some? && item.seen < RowOf(round, reviewer, PlaceOf(round.items, item.code).value)
  }

  /** A request that is accepted raises versions and leaves each of its items outdated. */
  lemma {:induction false} RecordAllRows(reviewers: seq<UserId>, round: Round, reviewer: UserId, items: seq<Item>)
    requires OpinionsOk(reviewers, round) && reviewer in reviewers && RecordAll(round, reviewer, items).Ok?
    ensures RowsGrow(round, RecordAll(round, reviewer, items).value)
    ensures forall n | 0 <= n < |items| :: Outdated(RecordAll(round, reviewer, items).value, reviewer, items[n])
    decreases |items|
  {
    if items == [] {
    } else {
      var next := Record(round, reviewer, items[0]).value;
      RecordKeeps(reviewers, round, reviewer, items[0]);
      RecordRow(reviewers, round, reviewer, items[0]);
      RecordAllRows(reviewers, next, reviewer, items[1..]);
      var after := RecordAll(round, reviewer, items).value;
      assert RowsGrow(next, after);
      forall n | 0 <= n < |items|
        ensures Outdated(after, reviewer, items[n])
      {
        if n > 0 {
          assert items[n] == items[1..][n - 1];
        }
      }
    }
  }

  /** A request with an outdated item is refused. */
  lemma {:induction false} OutdatedRefused(reviewers: seq<UserId>, round: Round, reviewer: UserId, items: seq<Item>,
      n: nat)
    requires OpinionsOk(reviewers, round) && reviewer in reviewers
    requires n < |items| && Outdated(round, reviewer, items[n])
    ensures RecordAll(round, reviewer, items).Err?
    decreases |items|
  {
    RecordRow(reviewers, round, reviewer, items[0]);
    if n > 0 && Record(round, reviewer, items[0]).Ok? {
      RecordKeeps(reviewers, round, reviewer, items[0]);
      OutdatedRefused(reviewers, Record(round, reviewer, items[0]).value, reviewer, items[1..], n - 1);
    }
  }

  lemma StepRows(env: Env, job: Job, op: Op, k: nat)
    requires Inv(job) && k < |job.rounds|
    ensures k < |Step(env, job, op).rounds| && RowsGrow(job.rounds[k], Step(env, job, op).rounds[k])
  {
    if op.DoSubmit? && Attempt(env, job, op).Ok? {
      SubmitIsCurrent(env, job, op.caller, op.version, op.items);
      assert RoundOk(job, |job.rounds| - 1);
      RecordAllRows(job.reviewers, job.rounds[|job.rounds| - 1], op.caller.id, ParsedAll(env, op.items).value);
    }
  }

  lemma {:induction false} RunRows(env: Env, job: Job, ops: seq<Op>, k: nat)
    requires Inv(job) && k < |job.rounds|
    ensures k < |Run(env, job, ops).rounds| && RowsGrow(job.rounds[k], Run(env, job, ops).rounds[k])
    ensures Run(env, job, ops).reviewers == job.reviewers
    decreases |ops|
  {
    if ops == [] {
    } else {
      StepKeeps(env, job, ops[0]);
      StepRows(env, job, ops[0], k);
      RunRows(env, Step(env, job, ops[0]), ops[1..], k);
    }
  }

  /**
   An edit based on a row version is accepted once: whatever happens in between, no later request
   by the reviewer with an item on the same code and version is accepted, however it is spelled.
   */
  lemma EditOnce(env: Env, job: Job, caller: User, version: nat, items: seq<Item>, a: nat, ops: seq<Op>,
                 again: User, later: seq<Item>, b: nat)
    requires Inv(job) && Submit(env, job, caller, version, items).Ok? && again.id == caller.id
    requires a < |items| && b < |later| && items[a].seen == later[b].seen
    requires env.strip(items[a].code) == env.strip(later[b].code)
    ensures Submit(env, Run(env, Submit(env, job, caller, version, items).value, ops), again, version, later).Err?
  {
    var next := Submit(env, job, caller, version, items).value;
    SubmitOutdates(env, job, caller, version, items, a);
    SubmitKeeps(env, job, caller, version, items);
    RunKeeps(env, next, ops);
    RunRows(env, next, ops, version - 1);
    OutdatedSubmit(env, Run(env, next, ops), again, version, later, b);
  }

  lemma SubmitOutdates(env: Env, job: Job, caller: User, version: nat, items: seq<Item>, a: nat)
    requires Inv(job) && Submit(env, job, caller, version, items).Ok? && a < |items|
    ensures var next := Submit(env, job, caller, version, items).value;
            && 0 < version <= |next.rounds| && caller.id in next.reviewers
            && Outdated(next.rounds[version - 1], caller.id, items[a].(code := env.strip(items[a].code)))
  {
    SubmitIsCurrent(env, job, caller, version, items);
    assert RoundOk(job, version - 1);
    RecordOutdates(env, job, caller, version, items, a);
  }

  lemma RecordOutdates(env: Env, job: Job, caller: User, version: nat, items: seq<Item>, a: nat)
    requires Submit(env, job, caller, version, items).Ok? && a < |items|
    requires 0 < version <= |job.rounds| && FindRound(job.rounds, version) == Some(version - 1)
    requires OpinionsOk(job.reviewers, job.rounds[version - 1])
    ensures var next := Submit(env, job, caller, version, items).value;
            && |next.rounds| == |job.rounds| && next.reviewers == job.reviewers && caller.id in job.reviewers
            && Outdated(next.rounds[version - 1], caller.id, items[a].(code := env.strip(items[a].code)))
  {
    var parsed := ParsedAll(env, items).value;
    SubmitIsRecord(env, job, caller, version, items);
    RecordAllRows(job.reviewers, job.rounds[version - 1], caller.id, parsed);
    assert Parsed(env, items[a]) == Ok(parsed[a]);
    assert Outdated(RecordAll(job.rounds[version - 1], caller.id, parsed).value, caller.id, parsed[a]);
    assert parsed[a].seen == items[a].seen && parsed[a].code == env.strip(items[a].code);
  }

  /** A submission replaces the round it names by the recorded one. */
  lemma SubmitIsRecord(env: Env, job: Job, caller: User, version: nat, items: seq<Item>)
    requires Submit(env, job, caller, version, items).Ok? && 0 < version <= |job.rounds|
    requires FindRound(job.rounds, version) == Some(version - 1)
    ensures ParsedAll(env, items).Ok? && caller.id in job.reviewers
    ensures var r := RecordAll(job.rounds[version - 1], caller.id, ParsedAll(env, items).value);
            && r.Ok?
            && Submit(env, job, caller, version, items) == Ok(job.(rounds := job.rounds[version - 1 := r.value]))
  {
  }

  lemma OutdatedSubmit(env: Env, job: Job, caller: User, version: nat, items: seq<Item>, b: nat)
    requires Inv(job) && 0 < version <= |job.rounds| && b < |items|
    requires Outdated(job.rounds[version - 1], caller.id, items[b].(code := env.strip(items[b].code)))
    ensures Submit(env, job, caller, version, items).Err?
  {
    if caller.id in job.reviewers && ParsedAll(env, items).Ok? && FindRound(job.rounds, version).Some? {
      assert RoundOk(job, FindRound(job.rounds, version).value) && RoundOk(job, version - 1);
      assert Parsed(env, items[b]) == Ok(ParsedAll(env, items).value[b]);
      OutdatedRefused(job.reviewers, job.rounds[version - 1], caller.id, ParsedAll(env, items).value, b);
    }
  }
}
