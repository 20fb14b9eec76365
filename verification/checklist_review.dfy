/**
 A job's checklist review, where completion is recorded per reviewer in state rows and approval
 compares two counts.
 */
module ChecklistReview {
  import opened Wrappers

  datatype ItemStatus = Pending | Passed | Failed | NotApplicable
  datatype Item = Item(status: ItemStatus, version: int)
  datatype StateRow = StateRow(reviewer: nat, completed: bool)
  datatype Revision = Revision(digest: string, active: bool, items: seq<Item>, states: seq<StateRow>)

  /** `current` is the current revision's number, 0 before the first; revision n is row n - 1. */
  datatype Job = Job(designer: nat, manager: nat, reviewers: seq<nat>, template: nat, approved: bool, current: nat,
                     revisions: seq<Revision>, approvals: seq<(nat, string)>)

  datatype Error =
    | BadRequest | Forbidden | NotInReview | SupersededRevision | NotFound | Conflict | NoRevision | Incomplete
    | BadItems

  // ---- Operations

  function FreshItems(n: nat): (r: seq<Item>)
    ensures |r| == n && forall i | 0 <= i < n :: r[i] == Item(Pending, 1)
  {
    seq(n, i => Item(Pending, 1))
  }

  function FreshStates(reviewers: seq<nat>): (r: seq<StateRow>)
    ensures |r| == |reviewers| && forall i | 0 <= i < |r| :: r[i] == StateRow(reviewers[i], false)
  {
    seq(|reviewers|, i requires 0 <= i < |reviewers| => StateRow(reviewers[i], false))
  }

  function Retired(revisions: seq<Revision>): (r: seq<Revision>)
    ensures |r| == |revisions| && forall k | 0 <= k < |r| :: r[k] == revisions[k].(active := false)
  {
    seq(|revisions|, k requires 0 <= k < |revisions| => revisions[k].(active := false))
  }

  /** A new revision with its checklist and a pending state row per reviewer. */
  function SubmitRevision(job: Job, user: nat, digest: string): Result<Job, Error> {
    if user != job.designer then Err(Forbidden)
    else if job.approved then Err(NotInReview)
    else
      Ok(job.(revisions := Retired(job.revisions)
        + [Revision(digest, true, FreshItems(job.template), FreshStates(job.reviewers))],
              current := |job.revisions| + 1))
  }

  /** Writes go only to the current revision of a job in review. */
  function Writable(job: Job, revision: nat): Option<Error> {
    if revision == 0 || revision > |job.revisions| then Some(NotFound)
    else if job.approved then Some(NotInReview)
    else if job.current != revision then Some(SupersededRevision)
    else None
  }

  function UpdateItem(job: Job, user: nat, revision: nat, i: nat, status: ItemStatus, reason: string,
      version: int): Result<Job, Error> {
    if status.Pending? || (status.Failed? && reason == "") then Err(BadRequest)
    else if revision == 0 || revision > |job.revisions| || i >= |job.revisions[revision - 1].items| then Err(NotFound)
    else if Writable(job, revision).Some? then Err(Writable(job, revision).value)
    else if user != job.manager && user !in job.reviewers then Err(Forbidden)
    else
      var r := job.revisions[revision - 1];
      if r.items[i].version != version then Err(Conflict)
      else Ok(job.(revisions := job.revisions[revision - 1 := r.(items := r.items[i := Item(status, version + 1)])]))
  }

  function MarkDone(states: seq<StateRow>, reviewer: nat): (r: seq<StateRow>)
    ensures |r| == |states|
    ensures forall k | 0 <= k < |r| ::
      r[k] == if states[k].reviewer == reviewer then states[k].(completed := true) else states[k]
  {
    seq(|states|, k requires 0 <= k < |states| =>
      if states[k].reviewer == reviewer then states[k].(completed := true) else states[k])
  }

  function CompleteReview(job: Job, user: nat, revision: nat): Result<Job, Error> {
    if Writable(job, revision).Some? then Err(Writable(job, revision).value)
    else if user !in job.reviewers then Err(Forbidden)
    else
      var r := job.revisions[revision - 1];
      if !exists k :: 0 <= k < |r.states| && r.states[k].reviewer == user then Err(Forbidden)
      else Ok(job.(revisions := job.revisions[revision - 1 := r.(states := MarkDone(r.states, user))]))
  }

  function CountDone(states: seq<StateRow>): nat {
    if states == [] then 0 else CountDone(states[..|states| - 1]) + if states[|states| - 1].completed then 1 else 0
  }

  function CountBad(items: seq<Item>): nat {
    if items == [] then 0
    else
      var last := items[|items| - 1].status;
      CountBad(items[..|items| - 1]) + if last.Pending? || last.Failed? then 1 else 0
  }

  function Approve(job: Job, user: nat): Result<Job, Error> {
    if user != job.manager || user == job.designer then Err(Forbidden)
    else if job.approved then Err(Conflict)
    else if job.current == 0 || job.current > |job.revisions| then Err(NoRevision)
    else
      var r := job.revisions[job.current - 1];
      if CountDone(r.states) < |job.reviewers| then Err(Incomplete)
      else if CountBad(r.items) > 0 then Err(BadItems)
      else Ok(job.(approved := true, approvals := job.approvals + [(job.current, r.digest)]))
  }

  datatype Op =
    | DoSubmit(user: nat, digest: string)
    | DoUpdate(user: nat, revision: nat, item: nat, status: ItemStatus, reason: string, version: int)
    | DoComplete(user: nat, revision: nat)
    | DoApprove(user: nat)

  function Attempt(job: Job, op: Op): Result<Job, Error> {
    match op
    case DoSubmit(user, digest) => SubmitRevision(job, user, digest)
    case DoUpdate(user, revision, item, status, reason, version) =>
      UpdateItem(job, user, revision, item, status, reason, version)
    case DoComplete(user, revision) => CompleteReview(job, user, revision)
    case DoApprove(user) => Approve(job, user)
  }

  function Step(job: Job, op: Op): Job {
    match Attempt(job, op)
    case Ok(after) => after
    case Err(_) => job
  }

  function Run(job: Job, ops: seq<Op>): Job
    decreases |ops|
  {
    if ops == [] then job else Run(Step(job, ops[0]), ops[1..])
  }

  // ---- The counts

  /** One state row per designated reviewer, in their order. */
  ghost predicate RowsMatch(reviewers: seq<nat>, states: seq<StateRow>) {
    |states| == |reviewers| && forall i | 0 <= i < |states| :: states[i].reviewer == reviewers[i]
  }

  ghost predicate Completed(states: seq<StateRow>, reviewer: nat) {
    exists k :: 0 <= k < |states| && states[k].reviewer == reviewer && states[k].completed
  }

  lemma {:induction false} DoneAtMost(states: seq<StateRow>)
    ensures CountDone(states) <= |states|
    ensures CountDone(states) == |states| <==> forall k | 0 <= k < |states| :: states[k].completed
  {
    if states == [] {
    } else {
      var rest, last := states[..|states| - 1], states[|states| - 1];
      DoneAtMost(rest);
      assert forall k | 0 <= k < |rest| :: rest[k] == states[k];
      if forall k | 0 <= k < |rest| :: rest[k].completed {
        assert last.completed ==> forall k | 0 <= k < |states| :: states[k].completed;
      }
    }
  }

  /** With one row per reviewer, the count reaches the number of reviewers exactly when every one has completed. */
  lemma CountTestIff(reviewers: seq<nat>, states: seq<StateRow>)
    requires RowsMatch(reviewers, states) && forall i, j | 0 <= i < j < |reviewers| :: reviewers[i] != reviewers[j]
    ensures CountDone(states) >= |reviewers| <==> forall r | r in reviewers :: Completed(states, r)
  {
    DoneAtMost(states);
    if forall r | r in reviewers :: Completed(states, r) {
      forall k | 0 <= k < |states|
        ensures states[k].completed
      {
        assert Completed(states, reviewers[k]);
        var j :| 0 <= j < |states| && states[j].reviewer == reviewers[k] && states[j].completed;
        OneRow(reviewers, states, j, k);
      }
    }
    if forall k | 0 <= k < |states| :: states[k].completed {
      forall r | r in reviewers
        ensures Completed(states, r)
      {
        var k :| 0 <= k < |reviewers| && reviewers[k] == r;
        assert states[k].reviewer == r && states[k].completed;
      }
    }
  }

  lemma OneRow(reviewers: seq<nat>, states: seq<StateRow>, j: nat, k: nat)
    requires RowsMatch(reviewers, states) && forall a, b | 0 <= a < b < |reviewers| :: reviewers[a] != reviewers[b]
    requires j < |states| && k < |states| && states[j].reviewer == states[k].reviewer
    ensures j == k
  {
    assert reviewers[j] == reviewers[k];
  }

  lemma {:induction false} NoneBadIff(items: seq<Item>)
    ensures CountBad(items) == 0 <==> forall i | 0 <= i < |items| ::
      items[i].status.Passed? || items[i].status.NotApplicable?
  {
    if items == [] {
    } else {
      var rest, last := items[..|items| - 1], items[|items| - 1];
      NoneBadIff(rest);
      assert forall i | 0 <= i < |rest| :: rest[i] == items[i];
      if forall i | 0 <= i < |items| :: items[i].status.Passed? || items[i].status.NotApplicable? {
        assert last.status.Passed? || last.status.NotApplicable?;
      }
    }
  }

  // ---- Over any run

  ghost predicate Inv(job: Job) {
    && (forall i, j | 0 <= i < j < |job.reviewers| :: job.reviewers[i] != job.reviewers[j])
    && job.current == |job.revisions|
    && (forall k | 0 <= k < |job.revisions| :: RevisionOk(job, k))
    && (if job.approved then ApprovedOk(job) else job.approvals == [])
  }

  ghost predicate RevisionOk(job: Job, k: nat)
    requires k < |job.revisions|
  {
    && RowsMatch(job.reviewers, job.revisions[k].states) && |job.revisions[k].items| == job.template
    && (job.revisions[k].active <==> k == |job.revisions| - 1)
  }

  ghost predicate ApprovedOk(job: Job) {
    && job.current != 0 && job.revisions != []
    && var r := job.revisions[|job.revisions| - 1];
       && (forall p | p in job.reviewers :: Completed(r.states, p))
       && (forall i | 0 <= i < |r.items| :: r.items[i].status.Passed? || r.items[i].status.NotApplicable?)
       && job.approvals == [(job.current, r.digest)]
  }

  lemma StepKeeps(job: Job, op: Op)
    requires Inv(job)
    ensures Inv(Step(job, op))
    ensures job.approved ==> Step(job, op) == job
  {
    var next := Step(job, op);
    if Attempt(job, op).Ok? {
      forall k | 0 <= k < |next.revisions|
        ensures RevisionOk(next, k)
      {
        assert k < |job.revisions| ==> RevisionOk(job, k);
      }
      if op.DoApprove? {
        var r := job.revisions[job.current - 1];
        assert RevisionOk(job, job.current - 1);
        CountTestIff(job.reviewers, r.states);
        NoneBadIff(r.items);
      }
    }
  }

  lemma {:induction false} RunKeeps(job: Job, ops: seq<Op>)
    requires Inv(job)
    ensures Inv(Run(job, ops))
    ensures job.approved ==> Run(job, ops) == job
    decreases |ops|
  {
    if ops == [] {
    } else {
      StepKeeps(job, ops[0]);
      RunKeeps(Step(job, ops[0]), ops[1..]);
    }
  }

  /** A job as it is created, with distinct reviewers. */
  ghost predicate Created(job: Job) {
    && job == Job(job.designer, job.manager, job.reviewers, job.template, false, 0, [], [])
    && forall i, j | 0 <= i < j < |job.reviewers| :: job.reviewers[i] != job.reviewers[j]
  }

  /**
   Approval succeeds exactly when every designated reviewer has completed the current revision and no
   item is pending or failed.
   */
  lemma ApproveIff(created: Job, ops: seq<Op>, user: nat)
    requires Created(created)
    ensures var job := Run(created, ops);
            Approve(job, user).Ok? <==>
              && user == job.manager != job.designer && !job.approved && job.revisions != []
              && var r := job.revisions[|job.revisions| - 1];
                 && (forall p | p in job.reviewers :: Completed(r.states, p))
                 && (forall i | 0 <= i < |r.items| :: r.items[i].status.Passed? || r.items[i].status.NotApplicable?)
  {
    RunKeeps(created, ops);
    var job := Run(created, ops);
    if job.revisions != [] {
      var r := job.revisions[|job.revisions| - 1];
      assert RevisionOk(job, |job.revisions| - 1);
      CountTestIff(job.reviewers, r.states);
      NoneBadIff(r.items);
    }
  }

  /** What approval required stays true in every later state, and there is one approval, of that revision's digest. */
  lemma ApprovedForever(created: Job, ops: seq<Op>, later: seq<Op>)
    requires Created(created) && Run(created, ops).approved
    ensures Run(Run(created, ops), later) == Run(created, ops) && ApprovedOk(Run(created, ops))
  {
    RunKeeps(created, ops);
    RunKeeps(Run(created, ops), later);
  }

  // ---- What each operation accepts and leaves

  /** The revision that takes writes. */
  ghost predicate InReview(job: Job, revision: nat) {
    job.revisions != [] && !job.approved && revision == job.current
  }

  /** Nothing but the last revision differs. */
  ghost predicate OnlyLast(job: Job, after: Job) {
    && job.revisions != [] && |after.revisions| == |job.revisions|
    && after == job.(revisions := job.revisions[|job.revisions| - 1 := after.revisions[|job.revisions| - 1]])
  }

  lemma WritableIff(job: Job, revision: nat)
    requires Inv(job)
    ensures Writable(job, revision).None? <==> InReview(job, revision)
  {
  }

  /**
   An item is updated exactly by the manager or a reviewer, in the revision under review, to a status that is
   not pending, with a reason if it failed, and by its latest version. It then has that status and the next
   version, and nothing else differs.
   */
  lemma UpdateIff(job: Job, user: nat, revision: nat, i: nat, status: ItemStatus, reason: string, version: int)
    requires Inv(job)
    ensures var r := UpdateItem(job, user, revision, i, status, reason, version);
            var last := |job.revisions| - 1;
            && (r.Ok? <==>
                  && InReview(job, revision) && (user == job.manager || user in job.reviewers)
                  && status != Pending && (status == Failed ==> reason != "")
                  && i < |job.revisions[last].items| && job.revisions[last].items[i].version == version)
            && (r.Ok? ==> OnlyLast(job, r.value))
            && (r.Ok? ==>
                  && r.value.revisions[last] == job.revisions[last].(items := r.value.revisions[last].items)
                  && |r.value.revisions[last].items| == |job.revisions[last].items|
                  && forall k | 0 <= k < |job.revisions[last].items| :: r.value.revisions[last].items[k] ==
                       if k == i then Item(status, version + 1) else job.revisions[last].items[k])
  {
    WritableIff(job, revision);
  }

  /** A completion is accepted exactly from a reviewer for the revision under review, and adds just that reviewer. */
  lemma CompleteIff(job: Job, user: nat, revision: nat)
    requires Inv(job)
    ensures var r := CompleteReview(job, user, revision);
            var last := |job.revisions| - 1;
            && (r.Ok? <==> InReview(job, revision) && user in job.reviewers)
            && (r.Ok? ==> OnlyLast(job, r.value))
            && (r.Ok? ==>
                  && r.value.revisions[last] == job.revisions[last].(states := r.value.revisions[last].states)
                  && forall p :: Completed(r.value.revisions[last].states, p)
                       <==> p == user || Completed(job.revisions[last].states, p))
  {
    WritableIff(job, revision);
    if InReview(job, revision) && user in job.reviewers {
      assert RevisionOk(job, |job.revisions| - 1);
      MarksOne(job.reviewers, job.revisions[|job.revisions| - 1].states, user);
    }
  }

  lemma MarksOne(reviewers: seq<nat>, states: seq<StateRow>, user: nat)
    requires RowsMatch(reviewers, states) && user in reviewers
    ensures exists k :: 0 <= k < |states| && states[k].reviewer == user
    ensures forall p :: Completed(MarkDone(states, user), p) <==> p == user || Completed(states, p)
  {
    var i :| 0 <= i < |reviewers| && reviewers[i] == user;
    assert states[i].reviewer == user && MarkDone(states, user)[i] == StateRow(user, true);
    forall p
      ensures Completed(MarkDone(states, user), p) <==> p == user || Completed(states, p)
    {
      if Completed(states, p) {
        var k :| 0 <= k < |states| && states[k].reviewer == p && states[k].completed;
        assert MarkDone(states, user)[k] == states[k].(completed := true);
      }
    }
  }

  /** A revision is accepted exactly from the designer before approval; it starts with nothing decided or completed. */
  lemma SubmitIff(job: Job, user: nat, digest: string)
    requires Inv(job)
    ensures var r := SubmitRevision(job, user, digest);
            var n := |job.revisions|;
            && (r.Ok? <==> user == job.designer && !job.approved)
            && (r.Ok? ==>
                  && |r.value.revisions| == n + 1
                  && r.value == job.(revisions := r.value.revisions, current := n + 1)
                  && (forall k | 0 <= k < n :: r.value.revisions[k] == job.revisions[k].(active := false))
                  && r.value.revisions[n].active && r.value.revisions[n].digest == digest
                  && |r.value.revisions[n].items| == job.template
                  && (forall i | 0 <= i < job.template :: r.value.revisions[n].items[i] == Item(Pending, 1))
                  && forall p :: !Completed(r.value.revisions[n].states, p))
  {
  }
}
