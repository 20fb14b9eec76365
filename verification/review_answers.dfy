/** What a submission accepts and leaves as the reviewer's answers, told by the request as it was sent. */
module ReviewAnswers {
  import opened Wrappers
  import opened Review
  import opened ReviewRuns

  // ---- One item

  /** An item fit to be looked at: a code, a reason for a failure, and nothing out of bounds. */
  predicate Proper(env: Env, item: Item) {
    && env.strip(item.code) != "" && |env.strip(item.reason)| <= 1000 && item.seen >= 0
    && (item.verdict == Fail ==> env.strip(item.reason) != "")
  }

  function Cleaned(env: Env, item: Item): Item {
    Item(env.strip(item.code), item.verdict, env.strip(item.reason), item.seen)
  }

  /** The items are accepted exactly if each is proper, and only white space is taken off. */
  lemma ParsedAllIff(env: Env, items: seq<Item>)
    ensures var r := ParsedAll(env, items);
            && (r.Ok? <==> forall i | 0 <= i < |items| :: Proper(env, items[i]))
            && (r.Ok? ==> |r.value| == |items| && forall i | 0 <= i < |items| :: r.value[i] == Cleaned(env, items[i]))
  {
    var r := ParsedAll(env, items);
    forall i | 0 <= i < |items|
      ensures Parsed(env, items[i]).Ok? <==> Proper(env, items[i])
      ensures r.Ok? ==> r.value[i] == Cleaned(env, items[i])
    {
      assert r.Ok? ==> Parsed(env, items[i]) == Ok(r.value[i]);
    }
  }

  // ---- The answers of a round

  /** A reviewer's verdict on an item and the reason given. */
  function Said(round: Round, reviewer: UserId, item: nat): Option<(Verdict, string)> {
    var k := FindOpinion(round.opinions, reviewer, item);
    if k.Some? then Some((round.opinions[k.value].verdict, round.opinions[k.value].reason)) else None
  }

  lemma SaidIs(reviewers: seq<UserId>, round: Round, k: nat)
    requires OpinionsOk(reviewers, round) && k < |round.opinions|
    ensures var o := round.opinions[k];
            Said(round, o.reviewer, o.item) == Some((o.verdict, o.reason))
  {
    var o := round.opinions[k];
    assert o in round.opinions;
    SameOpinion(reviewers, round, FindOpinion(round.opinions, o.reviewer, o.item).value, k);
  }

  /** The opinion recorded is the item's, and every other opinion is as it was. */
  lemma RecordSays(reviewers: seq<UserId>, round: Round, reviewer: UserId, item: Item, q: UserId, i: nat)
    requires OpinionsOk(reviewers, round) && reviewer in reviewers && Record(round, reviewer, item).Ok?
    ensures Said(Record(round, reviewer, item).value, q, i) ==
      if q == reviewer && PlaceOf(round.items, item.code) == Some(i) then Some((item.verdict, item.reason))
      else Said(round, q, i)
  {
    var place := PlaceOf(round.items, item.code).value;
    var next := Record(round, reviewer, item).value;
    RecordKeeps(reviewers, round, reviewer, item);
    var k := FindOpinion(round.opinions, reviewer, place);
    if q == reviewer && i == place {
      SaidIs(reviewers, next, if k.Some? then k.value else |round.opinions|);
    } else {
      OthersSay(reviewers, round, next, q, i);
    }
  }

  /** The opinion, if there is one, is in the same row of both rounds. */
  lemma OthersSay(reviewers: seq<UserId>, round: Round, next: Round, q: UserId, i: nat)
    requires OpinionsOk(reviewers, round) && OpinionsOk(reviewers, next) && |round.opinions| <= |next.opinions|
    requires forall k | 0 <= k < |round.opinions| && round.opinions[k].reviewer == q && round.opinions[k].item == i ::
      next.opinions[k] == round.opinions[k]
    requires forall k | 0 <= k < |next.opinions| && next.opinions[k].reviewer == q && next.opinions[k].item == i ::
      k < |round.opinions| && next.opinions[k] == round.opinions[k]
    ensures Said(next, q, i) == Said(round, q, i)
  {
    var a := FindOpinion(round.opinions, q, i);
    if a.Some? {
      SaidIs(reviewers, next, a.value);
    }
  }

  // ---- All items of a request

  function CountCode(items: seq<Item>, code: string): nat
    decreases |items|
  {
    if items == [] then 0 else CountCode(items[1..], code) + if items[0].code == code then 1 else 0
  }

  /** Item `k` names the row version its opinion has after the items before it. */
  ghost predicate Fresh(round: Round, reviewer: UserId, items: seq<Item>, k: nat)
    requires k < |items|
  {
    var place := PlaceOf(round.items, items[k].code);
    place.Some? && items[k].seen == RowOf(round, reviewer, place.value) + CountCode(items[..k], items[k].code)
  }

  lemma FreshLater(reviewers: seq<UserId>, round: Round, reviewer: UserId, items: seq<Item>, k: nat)
    requires OpinionsOk(reviewers, round) && reviewer in reviewers && 0 < k < |items|
    requires Record(round, reviewer, items[0]).Ok?
    ensures Fresh(Record(round, reviewer, items[0]).value, reviewer, items[1..], k - 1)
       <==> Fresh(round, reviewer, items, k)
  {
    RecordKeeps(reviewers, round, reviewer, items[0]);
    RecordRow(reviewers, round, reviewer, items[0]);
    assert items[..k][1..] == items[1..][..k - 1];
  }

  lemma {:induction false} RecordAllIff(reviewers: seq<UserId>, round: Round, reviewer: UserId, items: seq<Item>)
    requires OpinionsOk(reviewers, round) && reviewer in reviewers
    ensures RecordAll(round, reviewer, items).Ok? <==> forall k | 0 <= k < |items| :: Fresh(round, reviewer, items, k)
    decreases |items|
  {
    if items == [] {
    } else {
      RecordRow(reviewers, round, reviewer, items[0]);
      assert items[..0] == [];
      assert Fresh(round, reviewer, items, 0) <==> Record(round, reviewer, items[0]).Ok?;
      if Record(round, reviewer, items[0]).Ok? {
        var next := Record(round, reviewer, items[0]).value;
        RecordKeeps(reviewers, round, reviewer, items[0]);
        RecordAllIff(reviewers, next, reviewer, items[1..]);
        FreshAll(reviewers, round, reviewer, items);
      }
    }
  }

  lemma FreshAll(reviewers: seq<UserId>, round: Round, reviewer: UserId, items: seq<Item>)
    requires OpinionsOk(reviewers, round) && reviewer in reviewers && items != []
    requires Record(round, reviewer, items[0]).Ok?
    ensures (forall k | 0 < k < |items| :: Fresh(round, reviewer, items, k)) <==>
      forall k | 0 <= k < |items[1..]| :: Fresh(Record(round, reviewer, items[0]).value, reviewer, items[1..], k)
  {
    var next := Record(round, reviewer, items[0]).value;
    forall k | 0 < k < |items|
      ensures Fresh(next, reviewer, items[1..], k - 1) <==> Fresh(round, reviewer, items, k)
    {
      FreshLater(reviewers, round, reviewer, items, k);
    }
    if forall k | 0 < k < |items| :: Fresh(round, reviewer, items, k) {
      forall k | 0 <= k < |items[1..]|
        ensures Fresh(next, reviewer, items[1..], k)
      {
        assert Fresh(round, reviewer, items, k + 1);
      }
    }
  }

  /** The last item with a code. */
  function Latest(items: seq<Item>, code: string): Option<Item>
    decreases |items|
  {
    if items == [] then None
    else
      var later := Latest(items[1..], code);
      if later.Some? then later else if items[0].code == code then Some(items[0]) else None
  }

  lemma {:induction false} LatestIs(items: seq<Item>, code: string)
    ensures Latest(items, code).None? <==> forall a | 0 <= a < |items| :: items[a].code != code
    ensures forall a | 0 <= a < |items| && items[a].code == code
                       && (forall b | a < b < |items| :: items[b].code != code) ::
      Latest(items, code) == Some(items[a])
    decreases |items|
  {
    if items == [] {
    } else {
      LatestIs(items[1..], code);
      assert forall a | 0 < a < |items| :: items[a] == items[1..][a - 1];
      forall a | 0 <= a < |items| && items[a].code == code && (forall b | a < b < |items| :: items[b].code != code)
        ensures Latest(items, code) == Some(items[a])
      {
        if a > 0 {
          assert forall b | a - 1 < b < |items[1..]| :: items[1..][b] == items[b + 1];
        } else {
          assert forall b | 0 <= b < |items[1..]| :: items[1..][b] == items[b + 1];
        }
      }
    }
  }

  /** The latest item for place `i` of the checklist; of two places with one code only the later is meant. */
  function Meant(round: Round, items: seq<Item>, i: nat): Option<Item> {
    if i < |round.items| && PlaceOf(round.items, round.items[i]) == Some(i) then Latest(items, round.items[i]) else None
  }

  lemma {:induction false} RecordAllSays(reviewers: seq<UserId>, round: Round, reviewer: UserId, items: seq<Item>,
      q: UserId, i: nat)
    requires OpinionsOk(reviewers, round) && reviewer in reviewers && RecordAll(round, reviewer, items).Ok?
    ensures var meant := Meant(round, items, i);
            Said(RecordAll(round, reviewer, items).value, q, i) ==
              if q == reviewer && meant.Some? then Some((meant.value.verdict, meant.value.reason))
              else Said(round, q, i)
    decreases |items|
  {
    if items == [] {
    } else {
      var next := Record(round, reviewer, items[0]).value;
      RecordKeeps(reviewers, round, reviewer, items[0]);
      RecordSays(reviewers, round, reviewer, items[0], q, i);
      RecordAllSays(reviewers, next, reviewer, items[1..], q, i);
    }
  }

  // ---- Submissions

  /** How many of the items before `k` are on the same code. */
  function Earlier(env: Env, items: seq<Item>, k: nat): nat
    requires k < |items|
  {
    CountStripped(env, items[..k], env.strip(items[k].code))
  }

  function CountStripped(env: Env, items: seq<Item>, code: string): nat
    decreases |items|
  {
    if items == [] then 0 else CountStripped(env, items[1..], code) + if env.strip(items[0].code) == code then 1 else 0
  }

  lemma {:induction false} CountsAgree(env: Env, items: seq<Item>, parsed: seq<Item>, code: string)
    requires |parsed| == |items| && forall i | 0 <= i < |items| :: parsed[i] == Cleaned(env, items[i])
    ensures CountCode(parsed, code) == CountStripped(env, items, code)
    decreases |items|
  {
    if items == [] {
    } else {
      CountsAgree(env, items[1..], parsed[1..], code);
    }
  }

  /** Each item is proper, is on a code of the checklist, and names the row version its opinion then has. */
  ghost predicate Admissible(env: Env, round: Round, reviewer: UserId, items: seq<Item>, k: nat)
    requires k < |items|
  {
    var place := PlaceOf(round.items, env.strip(items[k].code));
    && Proper(env, items[k])
    && place.Some? && items[k].seen == RowOf(round, reviewer, place.value) + Earlier(env, items, k)
  }

  ghost predicate AllAdmissible(env: Env, round: Round, reviewer: UserId, items: seq<Item>) {
    forall k | 0 <= k < |items| :: Admissible(env, round, reviewer, items, k)
  }

  lemma AdmissibleIs(env: Env, round: Round, reviewer: UserId, items: seq<Item>, parsed: seq<Item>, k: nat)
    requires |parsed| == |items| && forall i | 0 <= i < |items| :: parsed[i] == Cleaned(env, items[i])
    requires k < |items| && Proper(env, items[k])
    ensures Admissible(env, round, reviewer, items, k) <==> Fresh(round, reviewer, parsed, k)
  {
    CountsAgree(env, items[..k], parsed[..k], parsed[k].code);
  }

  /** The round a job's opinions go to. */
  ghost predicate InReview(job: Job, version: nat) {
    job.rounds != [] && !job.approved && version == job.current
  }

  /**
   A submission is accepted exactly from a designated reviewer, for the current version of a job not yet
   approved, with at least one item, each of them proper, on a code of the checklist, and naming its
   opinion's row version.
   */
  lemma SubmitIff(env: Env, job: Job, caller: User, version: nat, items: seq<Item>)
    requires Inv(job)
    ensures Submit(env, job, caller, version, items).Ok? <==>
      && caller.role.Reviewer? && caller.id in job.reviewers && InReview(job, version) && items != []
      && AllAdmissible(env, job.rounds[|job.rounds| - 1], caller.id, items)
  {
    SubmitParts(env, job, caller, version, items);
    RoundsFound(job, version);
    if caller.id in job.reviewers && InReview(job, version) {
      RecordsIff(env, job.reviewers, job.rounds[|job.rounds| - 1], caller.id, items);
    }
  }

  lemma SubmitParts(env: Env, job: Job, caller: User, version: nat, items: seq<Item>)
    ensures var k := FindRound(job.rounds, version);
            Submit(env, job, caller, version, items).Ok? <==>
              && caller.role.Reviewer? && caller.id in job.reviewers && items != []
              && version != 0 && k.Some? && job.rounds[k.value].status.Open? && ParsedAll(env, items).Ok?
              && RecordAll(job.rounds[k.value], caller.id, ParsedAll(env, items).value).Ok?
  {
  }

  lemma RoundsFound(job: Job, version: nat)
    requires Inv(job)
    ensures var k := FindRound(job.rounds, version);
            && (InReview(job, version) <==> version != 0 && k.Some? && job.rounds[k.value].status.Open?)
            && (InReview(job, version) ==>
                  k == Some(|job.rounds| - 1) && OpinionsOk(job.reviewers, job.rounds[|job.rounds| - 1]))
  {
    var k := FindRound(job.rounds, version);
    if k.Some? {
      assert RoundOk(job, k.value);
    }
    if InReview(job, version) {
      assert RoundOk(job, |job.rounds| - 1);
      assert job.rounds[|job.rounds| - 1] in job.rounds;
    }
  }

  lemma RecordsIff(env: Env, reviewers: seq<UserId>, round: Round, reviewer: UserId, items: seq<Item>)
    requires OpinionsOk(reviewers, round) && reviewer in reviewers
    ensures AllAdmissible(env, round, reviewer, items) <==>
      ParsedAll(env, items).Ok? && RecordAll(round, reviewer, ParsedAll(env, items).value).Ok?
  {
    ParsedAllIff(env, items);
    if ParsedAll(env, items).Ok? {
      var parsed := ParsedAll(env, items).value;
      RecordAllIff(reviewers, round, reviewer, parsed);
      forall k | 0 <= k < |items|
        ensures Admissible(env, round, reviewer, items, k) <==> Fresh(round, reviewer, parsed, k)
      {
        AdmissibleIs(env, round, reviewer, items, parsed, k);
      }
    } else {
      var k :| 0 <= k < |items| && !Proper(env, items[k]);
      assert !Admissible(env, round, reviewer, items, k);
    }
  }

  /** Item `a` is the last of the request that is meant for place `i` of the checklist. */
  ghost predicate LastFor(env: Env, round: Round, items: seq<Item>, i: nat, a: nat) {
    && a < |items| && PlaceOf(round.items, env.strip(items[a].code)) == Some(i)
    && forall b | a < b < |items| :: env.strip(items[b].code) != env.strip(items[a].code)
  }

  /**
   After an accepted submission the caller's answer on each item of the checklist is the verdict, and the
   stripped reason, of the last item sent for it; every other answer of anyone is as it was.
   */
  lemma SubmitSays(env: Env, job: Job, caller: User, version: nat, items: seq<Item>, q: UserId, i: nat)
    requires Inv(job) && Submit(env, job, caller, version, items).Ok?
    ensures InReview(job, version)
    ensures var last := |job.rounds| - 1;
            var before, next := job.rounds[last], Submit(env, job, caller, version, items).value;
            && |next.rounds| == |job.rounds| && next == job.(rounds := job.rounds[last := next.rounds[last]])
            && next.rounds[last] == before.(opinions := next.rounds[last].opinions)
            && (forall a: nat | q == caller.id && LastFor(env, before, items, i, a) ::
                  Said(next.rounds[last], q, i) == Some((items[a].verdict, env.strip(items[a].reason))))
            && ((q != caller.id || forall a: nat :: !LastFor(env, before, items, i, a)) ==>
                  Said(next.rounds[last], q, i) == Said(before, q, i))
  {
    SubmitIff(env, job, caller, version, items);
    RoundsFound(job, version);
    SubmitIsRecord(env, job, caller, version, items);
    var round, parsed := job.rounds[|job.rounds| - 1], ParsedAll(env, items).value;
    RecordAllKeeps(job.reviewers, round, caller.id, parsed);
    RecordAllSays(job.reviewers, round, caller.id, parsed, q, i);
    MeantIs(env, round, items, parsed, i);
  }

  lemma MeantIs(env: Env, round: Round, items: seq<Item>, parsed: seq<Item>, i: nat)
    requires ParsedAll(env, items) == Ok(parsed)
    ensures forall a: nat | LastFor(env, round, items, i, a) :: Meant(round, parsed, i) == Some(Cleaned(env, items[a]))
    ensures (forall a: nat :: !LastFor(env, round, items, i, a)) ==> Meant(round, parsed, i).None?
  {
    ParsedAllIff(env, items);
    if i < |round.items| && PlaceOf(round.items, round.items[i]) == Some(i) {
      LatestIs(parsed, round.items[i]);
      forall a: nat | LastFor(env, round, items, i, a)
        ensures Latest(parsed, round.items[i]) == Some(parsed[a])
      {
        assert forall b | a < b < |parsed| :: parsed[b].code == env.strip(items[b].code);
      }
      if Latest(parsed, round.items[i]).Some? {
        var a := LastWith(env, items, round.items[i]);
        assert LastFor(env, round, items, i, a);
      }
    }
  }

  /** The last item with a code. */
  lemma {:induction false} LastWith(env: Env, items: seq<Item>, code: string) returns (a: nat)
    requires exists k :: 0 <= k < |items| && env.strip(items[k].code) == code
    ensures a < |items| && env.strip(items[a].code) == code
    ensures forall b | a < b < |items| :: env.strip(items[b].code) != code
  {
    a := |items| - 1;
    if env.strip(items[a].code) != code {
      a := LastWith(env, items[..a], code);
    }
  }

  // ---- Uploads

  /**
   A revision is accepted exactly from the job's designer before approval. It is the next version, in review by
   a round on the whole checklist that nobody has answered yet, and earlier opinions stay on record.
   */
  lemma UploadIff(job: Job, caller: User, digest: string)
    requires Inv(job)
    ensures var r := Upload(job, caller, digest);
            var n := |job.rounds|;
            && (r.Ok? <==> caller == User(job.designer, Designer) && !job.approved)
            && (r.Ok? ==>
                  && r.value == job.(current := n + 1, files := r.value.files, rounds := r.value.rounds)
                  && |r.value.rounds| == |r.value.files| == n + 1
                  && r.value.files[n] == File(n + 1, digest, Ready)
                  && r.value.rounds[n] == Round(n + 1, Open, job.checklist, [])
                  && forall k | 0 <= k < n ::
                       && r.value.rounds[k] == job.rounds[k].(status := Superseded)
                       && r.value.files[k] == job.files[k].(status := SupersededFile))
  {
    if !job.approved {
      forall k | 0 <= k < |job.rounds|
        ensures SupersedeRound(job.rounds[k]) == job.rounds[k].(status := Superseded)
        ensures SupersedeFile(job.files[k]) == job.files[k].(status := SupersededFile)
      {
        assert RoundOk(job, k) && FileOk(job, k);
      }
    }
  }

  // ---- A failure blocks

  /** A reviewer's answer in the current round is a failure. */
  ghost predicate Objects(job: Job, reviewer: UserId, i: nat) {
    && job.rounds != [] && reviewer in job.reviewers
    && var round := job.rounds[|job.rounds| - 1];
       i < |round.items| && Said(round, reviewer, i).Some? && Said(round, reviewer, i).value.0.Fail?
  }

  lemma ObjectionBlocks(job: Job, reviewer: UserId, i: nat, caller: User)
    requires Inv(job) && Objects(job, reviewer, i)
    ensures SignOff(job, caller).Err? && !job.approved
  {
    assert !Accepted(job.rounds[|job.rounds| - 1], reviewer, i);
    var k := OpenRound(job);
    if k.Some? {
      assert RoundOk(job, k.value);
      assert !Accepted(job.rounds[k.value], reviewer, i);
    }
  }

  lemma ObjectionStays(env: Env, job: Job, op: Op, reviewer: UserId, i: nat)
    requires Inv(job) && Objects(job, reviewer, i)
    requires !op.DoUpload? && (op.DoSubmit? ==> op.caller.id != reviewer)
    ensures Objects(Step(env, job, op), reviewer, i)
  {
    match op
    case DoSubmit(caller, version, items) =>
      if Submit(env, job, caller, version, items).Ok? {
        SubmitSays(env, job, caller, version, items, reviewer, i);
      }
    case DoSignOff(caller) => ObjectionBlocks(job, reviewer, i, caller);
  }

  /**
   Once a reviewer has answered an item with a failure, no sign-off is accepted until that reviewer submits
   again or a new version is uploaded.
   */
  lemma {:induction false} FailureBlocks(env: Env, job: Job, reviewer: UserId, i: nat, ops: seq<Op>, caller: User)
    requires Inv(job) && Objects(job, reviewer, i)
    requires forall k | 0 <= k < |ops| :: !ops[k].DoUpload? && (ops[k].DoSubmit? ==> ops[k].caller.id != reviewer)
    ensures SignOff(Run(env, job, ops), caller).Err? && !Run(env, job, ops).approved
    decreases |ops|
  {
    if ops == [] {
      ObjectionBlocks(job, reviewer, i, caller);
    } else {
      StepKeeps(env, job, ops[0]);
      ObjectionStays(env, job, ops[0], reviewer, i);
      FailureBlocks(env, Step(env, job, ops[0]), reviewer, i, ops[1..], caller);
    }
  }

  // ---- What the basis of a sign-off counts

  ghost function PlacesWith(opinions: seq<Opinion>, reviewer: UserId, verdict: Verdict): set<nat> {
    set k | 0 <= k < |opinions| && opinions[k].reviewer == reviewer && opinions[k].verdict == verdict ::
      opinions[k].item
  }

  lemma {:induction false} CountIs(opinions: seq<Opinion>, reviewer: UserId, verdict: Verdict)
    requires forall i, j | 0 <= i < j < |opinions| ::
      opinions[i].reviewer != opinions[j].reviewer || opinions[i].item != opinions[j].item
    ensures CountVerdicts(opinions, reviewer, verdict) == |PlacesWith(opinions, reviewer, verdict)|
  {
    if opinions == [] {
      assert PlacesWith(opinions, reviewer, verdict) == {};
    } else {
      var rest, o := opinions[..|opinions| - 1], opinions[|opinions| - 1];
      CountIs(rest, reviewer, verdict);
      assert opinions == rest + [o];
      PlacesWithStep(rest, o, reviewer, verdict);
    }
  }

  lemma PlacesWithStep(rest: seq<Opinion>, o: Opinion, reviewer: UserId, verdict: Verdict)
    requires forall k | 0 <= k < |rest| :: rest[k].reviewer != o.reviewer || rest[k].item != o.item
    ensures var before, after := PlacesWith(rest, reviewer, verdict), PlacesWith(rest + [o], reviewer, verdict);
            if o.reviewer == reviewer && o.verdict == verdict then after == before + {o.item} && o.item !in before
            else after == before
  {
    var all := rest + [o];
    assert all[|rest|] == o;
    assert forall k | 0 <= k < |rest| :: all[k] == rest[k];
  }

  /** The items a reviewer has answered so. */
  ghost function Answered(round: Round, reviewer: UserId, verdict: Verdict): set<nat> {
    set i | 0 <= i < |round.items| && Answer(round, reviewer, i) == Some(verdict)
  }

  lemma AnsweredIs(reviewers: seq<UserId>, round: Round, reviewer: UserId, verdict: Verdict)
    requires OpinionsOk(reviewers, round)
    ensures Answered(round, reviewer, verdict) == PlacesWith(round.opinions, reviewer, verdict)
  {
    forall i | i in Answered(round, reviewer, verdict)
      ensures i in PlacesWith(round.opinions, reviewer, verdict)
    {
      assert round.opinions[FindOpinion(round.opinions, reviewer, i).value].item == i;
    }
    forall k | 0 <= k < |round.opinions| && round.opinions[k].reviewer == reviewer
               && round.opinions[k].verdict == verdict
      ensures round.opinions[k].item in Answered(round, reviewer, verdict)
    {
      AnswerIs(reviewers, round, reviewer, round.opinions[k].item);
    }
  }

  /** The one sign-off of an approved job is its manager's, and counts the items each reviewer passed or set aside. */
  lemma BasisCounts(env: Env, job: Job, i: nat)
    requires Reached(env, job) && job.approved && i < |job.reviewers|
    ensures job.rounds != [] && |job.signoffs| == 1 && |job.signoffs[0].basis| == |job.reviewers|
    ensures job.signoffs[0].version == job.current && job.signoffs[0].manager == job.manager
    ensures var round, r := job.rounds[|job.rounds| - 1], job.reviewers[i];
            job.signoffs[0].basis[i] == Tally(r, |Answered(round, r, Pass)|, |Answered(round, r, NA)|)
  {
    ReachedInv(env, job);
    var round, r := job.rounds[|job.rounds| - 1], job.reviewers[i];
    assert RoundOk(job, |job.rounds| - 1);
    CountIs(round.opinions, r, Pass);
    CountIs(round.opinions, r, NA);
    AnsweredIs(job.reviewers, round, r, Pass);
    AnsweredIs(job.reviewers, round, r, NA);
  }

  // ---- Creating a job

  /** The parties of a job: its manager, and one to eight reviewers, all different and none of them the caller. */
  ghost predicate PartiesOk(env: Env, caller: User, manager: UserId, reviewers: seq<UserId>) {
    && caller.role == Designer && manager != caller.id
    && manager in env.roles && env.roles[manager] == Manager
    && 1 <= |reviewers| <= MAX_REVIEWERS
    && (forall i, j | 0 <= i < j < |reviewers| :: reviewers[i] != reviewers[j])
    && forall i | 0 <= i < |reviewers| ::
      && reviewers[i] > 0 && reviewers[i] != caller.id && reviewers[i] != manager
      && reviewers[i] in env.roles && env.roles[reviewers[i]] == Reviewer
  }

  /** A checklist: codes that are neither blank nor too long, and different when white space is taken off. */
  ghost predicate ChecklistOk(env: Env, checklist: seq<string>) {
    && checklist != []
    && (forall i | 0 <= i < |checklist| ::
         0 < |env.strip(checklist[i])| <= MAX_CODE && |checklist[i]| <= MAX_CODE)
    && forall i, j | 0 <= i < j < |checklist| :: env.strip(checklist[i]) != env.strip(checklist[j])
  }

  /** A job is created exactly for such parties and such a checklist; it is theirs, with no version yet. */
  lemma CreateIff(env: Env, caller: User, manager: UserId, reviewers: seq<UserId>, checklist: seq<string>)
    ensures var r := Create(env, caller, manager, reviewers, checklist);
            && (r.Ok? <==> PartiesOk(env, caller, manager, reviewers) && ChecklistOk(env, checklist))
            && (r.Ok? ==> r.value == Job(caller.id, manager, reviewers, checklist, false, 0, [], [], []))
  {
    assert forall i | 0 <= i < |reviewers| :: reviewers[i] in reviewers;
    assert forall i | 0 <= i < |checklist| :: checklist[i] in checklist;
    assert HasRepeat(Stripped(env, checklist)) <==>
      exists i, j :: 0 <= i < j < |checklist| && env.strip(checklist[i]) == env.strip(checklist[j]);
  }
}
