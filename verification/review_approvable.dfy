/**
 Which jobs can ever be approved. A submitted code is stripped before it is looked up, but the
 checklist keeps codes as they were typed, so a code with white space around it can never be answered.
 */
module ReviewApprovable {
  import opened Wrappers
  import opened Review
  import opened ReviewRuns

  /** What is used of stripping. */
  ghost predicate StripOk(env: Env) {
    forall s :: env.strip(env.strip(s)) == env.strip(s) && |env.strip(s)| <= |s|
  }

  // ---- Untidy codes are never answered

  ghost predicate AnswersTidy(env: Env, round: Round) {
    forall i | 0 <= i < |round.opinions| ::
      round.opinions[i].item < |round.items|
        && env.strip(round.items[round.opinions[i].item]) == round.items[round.opinions[i].item]
  }

  ghost predicate AllTidy(env: Env, job: Job) {
    forall k | 0 <= k < |job.rounds| :: AnswersTidy(env, job.rounds[k])
  }

  lemma {:induction false} RecordAllTidy(env: Env, round: Round, reviewer: UserId, items: seq<Item>)
    requires AnswersTidy(env, round)
    requires forall i | 0 <= i < |items| :: env.strip(items[i].code) == items[i].code
    ensures var r := RecordAll(round, reviewer, items);
            r.Ok? ==> AnswersTidy(env, r.value)
    decreases |items|
  {
    if items != [] && Record(round, reviewer, items[0]).Ok? {
      RecordAllTidy(env, Record(round, reviewer, items[0]).value, reviewer, items[1..]);
    }
  }

  lemma StepTidy(env: Env, job: Job, op: Op)
    requires StripOk(env) && AllTidy(env, job)
    ensures AllTidy(env, Step(env, job, op))
  {
    var next := Step(env, job, op);
    if op.DoSubmit? && Attempt(env, job, op).Ok? {
      var parsed := ParsedAll(env, op.items).value;
      forall i | 0 <= i < |parsed|
        ensures env.strip(parsed[i].code) == parsed[i].code
      {
        assert Parsed(env, op.items[i]) == Ok(parsed[i]);
      }
      RecordAllTidy(env, job.rounds[FindRound(job.rounds, op.version).value], op.caller.id, parsed);
    }
    if op.DoUpload? && Attempt(env, job, op).Ok? {
      forall k | 0 <= k < |next.rounds|
        ensures AnswersTidy(env, next.rounds[k])
      {
        assert k < |job.rounds| ==> AnswersTidy(env, job.rounds[k]);
      }
    }
  }

  lemma {:induction false} RunTidy(env: Env, job: Job, ops: seq<Op>)
    requires StripOk(env) && AllTidy(env, job)
    ensures AllTidy(env, Run(env, job, ops))
    ensures Run(env, job, ops).reviewers == job.reviewers && Run(env, job, ops).checklist == job.checklist
    decreases |ops|
  {
    if ops == [] {
    } else {
      StepTidy(env, job, ops[0]);
      RunTidy(env, Step(env, job, ops[0]), ops[1..]);
    }
  }

  lemma ApprovedIsTidy(env: Env, job: Job, ops: seq<Op>)
    requires StripOk(env) && Inv(job) && job.rounds == [] && job.reviewers != [] && Run(env, job, ops).approved
    ensures forall c | c in job.checklist :: env.strip(c) == c
  {
    var after := Run(env, job, ops);
    RunKeeps(env, job, ops);
    RunTidy(env, job, ops);
    var round := after.rounds[|after.rounds| - 1];
    assert RoundOk(after, |after.rounds| - 1) && AnswersTidy(env, round);
    assert AllAccepted(round, job.reviewers[0]);
    forall c | c in job.checklist
      ensures env.strip(c) == c
    {
      var i :| 0 <= i < |job.checklist| && job.checklist[i] == c;
      assert Accepted(round, job.reviewers[0], i);
    }
  }

  // ---- Tidy codes can all be answered

  /** Passing every item, on codes not answered before. */
  function AllPass(codes: seq<string>): (r: seq<Item>)
    ensures |r| == |codes| && forall i | 0 <= i < |r| :: r[i] == Item(codes[i], Pass, "", 0)
  {
    seq(|codes|, i requires 0 <= i < |codes| => Item(codes[i], Pass, "", 0))
  }

  lemma {:induction false} PlaceIs(codes: seq<string>, i: nat)
    requires !HasRepeat(codes) && i < |codes|
    ensures PlaceOf(codes, codes[i]) == Some(i)
  {
    assert codes[i] in codes;
    var j := PlaceOf(codes, codes[i]).value;
    assert j == i || HasRepeat(codes);
  }

  lemma AnswerMore(round: Round, o: Opinion, reviewer: UserId, item: nat)
    ensures Answer(round.(opinions := round.opinions + [o]), reviewer, item) ==
      if o.reviewer == reviewer && o.item == item then Some(o.verdict) else Answer(round, reviewer, item)
  {
    assert (round.opinions + [o])[..|round.opinions|] == round.opinions;
  }

  /** Others' answers are as they were. */
  ghost predicate OthersKept(before: Round, after: Round, reviewer: UserId) {
    forall q, i | q != reviewer :: Answer(after, q, i) == Answer(before, q, i)
  }

  /** Only answers of the reviewer were added. */
  ghost predicate AnsweredBy(before: Round, after: Round, reviewer: UserId) {
    && after == before.(opinions := after.opinions) && OthersKept(before, after, reviewer)
    && forall o | o in after.opinions :: o.reviewer == reviewer || o in before.opinions
  }

  /** The reviewer has passed the first `j` items and answered no other. */
  ghost predicate PassedUpTo(round: Round, reviewer: UserId, j: nat) {
    && (forall i | 0 <= i < j :: Accepted(round, reviewer, i))
    && (forall o | o in round.opinions && o.reviewer == reviewer :: o.item < j)
  }

  lemma FoundIsThere(opinions: seq<Opinion>, reviewer: UserId, item: nat)
    ensures FindOpinion(opinions, reviewer, item).Some? ==> exists o ::
      o in opinions && o.reviewer == reviewer && o.item == item
  {
    var k := FindOpinion(opinions, reviewer, item);
    if k.Some? {
      assert opinions[k.value] in opinions;
    }
  }

  lemma PassOne(round: Round, reviewer: UserId, j: nat)
    requires !HasRepeat(round.items) && j < |round.items| && PassedUpTo(round, reviewer, j)
    ensures var r := Record(round, reviewer, Item(round.items[j], Pass, "", 0));
            && r.Ok? && AnsweredBy(round, r.value, reviewer) && PassedUpTo(r.value, reviewer, j + 1)
  {
    PlaceIs(round.items, j);
    FoundIsThere(round.opinions, reviewer, j);
    var o := Opinion(reviewer, j, Pass, "", 1);
    var next := round.(opinions := round.opinions + [o]);
    forall q: UserId, i: nat
      ensures Answer(next, q, i) == if q == reviewer && i == j then Some(Pass) else Answer(round, q, i)
    {
      AnswerMore(round, o, q, i);
    }
    forall i | 0 <= i < j + 1
      ensures Accepted(next, reviewer, i)
    {
      assert i < j ==> Accepted(round, reviewer, i);
    }
  }

  lemma {:induction false} PassRest(round: Round, reviewer: UserId, j: nat)
    requires !HasRepeat(round.items) && j <= |round.items| && PassedUpTo(round, reviewer, j)
    ensures var r := RecordAll(round, reviewer, AllPass(round.items)[j..]);
            && r.Ok? && AnsweredBy(round, r.value, reviewer) && AllAccepted(r.value, reviewer)
    decreases |round.items| - j
  {
    if j >= |round.items| {
    } else {
      var rest := AllPass(round.items)[j..];
      assert rest[0] == Item(round.items[j], Pass, "", 0) && rest[1..] == AllPass(round.items)[j + 1..];
      PassOne(round, reviewer, j);
      var next := Record(round, reviewer, rest[0]).value;
      PassRest(next, reviewer, j + 1);
      assert RecordAll(round, reviewer, rest) == RecordAll(next, reviewer, AllPass(next.items)[j + 1..]);
    }
  }

  /** A job in its first round, where the first `j` reviewers have passed everything and nobody else has answered. */
  ghost predicate PassedBy(env: Env, job: Job, j: nat) {
    && Inv(job) && !job.approved && |job.rounds| == 1 && j <= |job.reviewers|
    && !HasRepeat(job.reviewers) && !HasRepeat(job.checklist)
    && (forall c | c in job.checklist :: env.strip(c) == c && c != "")
    && (forall i | 0 <= i < j :: AllAccepted(job.rounds[0], job.reviewers[i]))
    && (forall i | j <= i < |job.reviewers| :: forall o | o in job.rounds[0].opinions :: o.reviewer != job.reviewers[i])
  }

  lemma ParsedPass(env: Env, codes: seq<string>)
    requires StripOk(env) && forall c | c in codes :: env.strip(c) == c && c != ""
    ensures ParsedAll(env, AllPass(codes)) == Ok(AllPass(codes))
  {
    var items := AllPass(codes);
    assert |env.strip("")| == 0;
    forall i | 0 <= i < |items|
      ensures Parsed(env, items[i]) == Ok(items[i])
    {
      assert codes[i] in codes;
    }
    var parsed := ParsedAll(env, items).value;
    assert forall i | 0 <= i < |items| :: Parsed(env, items[i]) == Ok(parsed[i]);
    assert parsed == items;
  }

  lemma SubmitsAll(env: Env, job: Job, reviewer: UserId) returns (after: Round)
    requires StripOk(env) && Inv(job) && !job.approved && |job.rounds| == 1 && reviewer in job.reviewers
    requires !HasRepeat(job.checklist) && forall c | c in job.checklist :: env.strip(c) == c && c != ""
    requires forall o | o in job.rounds[0].opinions :: o.reviewer != reviewer
    ensures Attempt(env, job, DoSubmit(User(reviewer, Reviewer), 1, AllPass(job.checklist))) ==
      Ok(job.(rounds := [after]))
    ensures after == job.rounds[0].(opinions := after.opinions)
    ensures AllAccepted(after, reviewer) && OthersKept(job.rounds[0], after, reviewer)
    ensures forall o | o in after.opinions :: o.reviewer == reviewer || o in job.rounds[0].opinions
  {
    var round := job.rounds[0];
    assert RoundOk(job, 0);
    ParsedPass(env, job.checklist);
    PassRest(round, reviewer, 0);
    assert AllPass(job.checklist)[0..] == AllPass(job.checklist);
    after := RecordAll(round, reviewer, AllPass(job.checklist)).value;
    FirstRound(job.rounds);
    SubmitIs(env, job, reviewer, AllPass(job.checklist));
  }

  lemma SubmitIs(env: Env, job: Job, reviewer: UserId, items: seq<Item>)
    requires |job.rounds| == 1 && job.rounds[0].status.Open? && FindRound(job.rounds, 1) == Some(0)
    requires reviewer in job.reviewers && items != [] && ParsedAll(env, items) == Ok(items)
    requires RecordAll(job.rounds[0], reviewer, items).Ok?
    ensures Attempt(env, job, DoSubmit(User(reviewer, Reviewer), 1, items))
         == Ok(job.(rounds := [RecordAll(job.rounds[0], reviewer, items).value]))
  {
    var after := RecordAll(job.rounds[0], reviewer, items).value;
    assert job.rounds[0 := after] == [after];
  }

  lemma FirstRound(rounds: seq<Round>)
    requires |rounds| == 1 && rounds[0].version == 1
    ensures FindRound(rounds, 1) == Some(0)
  {
  }

  lemma NextReviewer(env: Env, job: Job, j: nat)
    requires StripOk(env) && PassedBy(env, job, j) && j < |job.reviewers|
    ensures var op := DoSubmit(User(job.reviewers[j], Reviewer), 1, AllPass(job.checklist));
            var next := Step(env, job, op);
            PassedBy(env, next, j + 1) && SameParties(job, next)
  {
    var r := job.reviewers[j];
    var op := DoSubmit(User(r, Reviewer), 1, AllPass(job.checklist));
    var after := SubmitsAll(env, job, r);
    StepKeeps(env, job, op);
    forall i | 0 <= i < j
      ensures AllAccepted(after, job.reviewers[i])
    {
      assert job.reviewers[i] != r;
      AcceptedKept(job.rounds[0], after, r, job.reviewers[i]);
    }
    forall i, o | j + 1 <= i < |job.reviewers| && o in after.opinions
      ensures o.reviewer != job.reviewers[i]
    {
      assert job.reviewers[i] != r;
    }
  }

  lemma AcceptedKept(before: Round, after: Round, reviewer: UserId, other: UserId)
    requires OthersKept(before, after, reviewer) && other != reviewer
    requires AllAccepted(before, other) && after.items == before.items
    ensures AllAccepted(after, other)
  {
    forall i | 0 <= i < |after.items|
      ensures Accepted(after, other, i)
    {
      assert Accepted(before, other, i);
    }
  }

  ghost predicate SameParties(a: Job, b: Job) {
    a.manager == b.manager && a.designer == b.designer && a.reviewers == b.reviewers && a.checklist == b.checklist
  }

  lemma {:induction false} EveryoneThenSign(env: Env, job: Job, j: nat) returns (ops: seq<Op>)
    requires StripOk(env) && PassedBy(env, job, j)
    ensures Run(env, job, ops).approved
    decreases |job.reviewers| - j
  {
    if j < |job.reviewers| {
      var op := DoSubmit(User(job.reviewers[j], Reviewer), 1, AllPass(job.checklist));
      NextReviewer(env, job, j);
      var rest := EveryoneThenSign(env, Step(env, job, op), j + 1);
      ops := [op] + rest;
      assert ops[0] == op && ops[1..] == rest;
    } else {
      var op := DoSignOff(User(job.manager, Manager));
      LastSigns(env, job);
      ops := [op];
      assert ops[1..] == [];
      assert Run(env, Step(env, job, op), []) == Step(env, job, op);
    }
  }

  lemma LastSigns(env: Env, job: Job)
    requires PassedBy(env, job, |job.reviewers|)
    ensures Step(env, job, DoSignOff(User(job.manager, Manager))).approved
  {
    assert RoundOk(job, 0);
    assert FindRound(job.rounds, 1) == Some(0);
    forall r | r in job.reviewers
      ensures AllAccepted(job.rounds[0], r)
    {
      var i :| 0 <= i < |job.reviewers| && job.reviewers[i] == r;
    }
  }

  lemma FirstUpload(env: Env, job: Job)
    requires Inv(job) && !job.approved && job.rounds == []
    requires !HasRepeat(job.reviewers) && !HasRepeat(job.checklist)
    requires forall c | c in job.checklist :: env.strip(c) == c && c != ""
    ensures PassedBy(env, Step(env, job, DoUpload(User(job.designer, Designer), "")), 0)
  {
    StepKeeps(env, job, DoUpload(User(job.designer, Designer), ""));
  }

  /**
   A job that was created can be brought to approval, by its own reviewers and manager, exactly when
   no code of its checklist has white space around it.
   */
  lemma ApprovableIff(env: Env, caller: User, manager: UserId, reviewers: seq<UserId>, checklist: seq<string>)
    requires StripOk(env)
    requires Create(env, caller, manager, reviewers, checklist).Ok?
    ensures (exists ops :: Run(env, Create(env, caller, manager, reviewers, checklist).value, ops).approved)
       <==> (forall c | c in checklist :: env.strip(c) == c)
  {
    var job := Create(env, caller, manager, reviewers, checklist).value;
    CreateInv(env, caller, manager, reviewers, checklist);
    if ops :| Run(env, job, ops).approved {
      ApprovedIsTidy(env, job, ops);
    }
    if forall c | c in checklist :: env.strip(c) == c {
      TidyDistinct(env, checklist);
      FirstUpload(env, job);
      var op := DoUpload(User(job.designer, Designer), "");
      var rest := EveryoneThenSign(env, Step(env, job, op), 0);
      var ops := [op] + rest;
      assert ops[0] == op && ops[1..] == rest;
      assert Run(env, job, ops).approved;
    }
  }

  lemma TidyDistinct(env: Env, checklist: seq<string>)
    requires forall c | c in checklist :: env.strip(c) == c
    requires !HasRepeat(Stripped(env, checklist))
    ensures !HasRepeat(checklist)
  {
    assert Stripped(env, checklist) == checklist;
  }
}
