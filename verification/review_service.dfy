/** A job's rows as the service updates them, a transaction at a time under the job's lock. */
module ReviewServices {
  import opened Wrappers
  import opened Review
  import opened ReviewRuns
  import opened ReviewAnswers

  class JobStore {
    const designer: UserId
    const manager: UserId
    const reviewers: seq<UserId>
    const checklist: seq<string>
    var approved: bool
    var current: nat
    var files: seq<File>
    var rounds: seq<Round>
    var signoffs: seq<Signoff>

    constructor (designer: UserId, manager: UserId, reviewers: seq<UserId>, checklist: seq<string>)
      requires designer != manager && checklist != []
      ensures State() == Job(designer, manager, reviewers, checklist, false, 0, [], [], []) && Inv(State())
    {
      this.designer, this.manager, this.reviewers, this.checklist := designer, manager, reviewers, checklist;
      approved, current, files, rounds, signoffs := false, 0, [], [], [];
    }

    function State(): Job
      reads this
    {
      Job(designer, manager, reviewers, checklist, approved, current, files, rounds, signoffs)
    }

    /** Supersede the ready version and the open round. */
    method SupersedeAll()
      modifies this`files, this`rounds
      ensures files == SupersedeFiles(old(files)) && rounds == SupersedeRounds(old(rounds))
    {
      ghost var oldFiles, oldRounds := files, rounds;
      var k := 0;
      while k < |files|
        invariant 0 <= k <= |files| == |oldFiles| && rounds == oldRounds
        invariant forall j | 0 <= j < |files| :: files[j] == if j < k then SupersedeFile(oldFiles[j]) else oldFiles[j]
      {
        if files[k].status.Ready? {
          files := files[k := files[k].(status := SupersededFile)];
        }
        k := k + 1;
      }
      assert files == SupersedeFiles(oldFiles);
      k := 0;
      while k < |rounds|
        invariant 0 <= k <= |rounds| == |oldRounds| && files == SupersedeFiles(oldFiles)
        invariant forall j | 0 <= j < |rounds| ::
          rounds[j] == if j < k then SupersedeRound(oldRounds[j]) else oldRounds[j]
      {
        if rounds[k].status.Open? {
          rounds := rounds[k := rounds[k].(status := Superseded)];
        }
        k := k + 1;
      }
      assert rounds == SupersedeRounds(oldRounds);
    }

    method UploadRevision(env: Env, caller: User, digest: string) returns (r: Option<Error>)
      requires Inv(State())
      modifies this
      ensures Inv(State()) && State() == Step(env, old(State()), DoUpload(caller, digest))
      ensures r == Failure(Upload(old(State()), caller, digest))
    {
      StepKeeps(env, State(), DoUpload(caller, digest));
      if !caller.role.Designer? || designer != caller.id {
        return Some(Forbidden);
      }
      if approved {
        return Some(AlreadyApproved);
      }
      if checklist == [] {
        return Some(ChecklistMissing);
      }
      SupersedeAll();
      current := current + 1;
      files := files + [File(current, digest, Ready)];
      rounds := rounds + [Round(current, Open, checklist, [])];
      r := None;
    }

    /** Check and strip every item before anything is read. */
    method ParseItems(env: Env, items: seq<Item>) returns (r: Result<seq<Item>, Error>)
      ensures r == ParsedAll(env, items)
      ensures r.Ok? <==> forall i | 0 <= i < |items| :: Proper(env, items[i])
      ensures r.Ok? ==> |r.value| == |items| && forall i | 0 <= i < |items| :: r.value[i] == Cleaned(env, items[i])
    {
      ParsedAllIff(env, items);
      var parsed: seq<Item> := [];
      var i := 0;
      ParsedNone(env, items);
      while i < |items|
        invariant 0 <= i <= |items| && ParsedUpTo(env, items, i, parsed)
      {
        var item := Parsed(env, items[i]);
        ParsedOne(env, items, i, parsed);
        if item.Err? {
          return Err(item.error);
        }
        parsed := parsed + [item.value];
        i := i + 1;
      }
      assert parsed + [] == parsed;
      r := Ok(parsed);
    }

    /** The items before `i` are parsed, and the rest decide. */
    ghost predicate ParsedUpTo(env: Env, items: seq<Item>, i: nat, parsed: seq<Item>)
      requires i <= |items|
    {
      match ParsedAll(env, items[i..])
      case Ok(rest) => ParsedAll(env, items) == Ok(parsed + rest)
      case Err(e) => ParsedAll(env, items) == Err(e)
    }

    lemma ParsedNone(env: Env, items: seq<Item>)
      ensures ParsedUpTo(env, items, 0, [])
    {
      assert items[0..] == items;
      assert ParsedAll(env, items).Ok? ==> [] + ParsedAll(env, items).value == ParsedAll(env, items).value;
    }

    lemma ParsedOne(env: Env, items: seq<Item>, i: nat, parsed: seq<Item>)
      requires i < |items| && ParsedUpTo(env, items, i, parsed)
      ensures match Parsed(env, items[i])
              case Ok(item) => ParsedUpTo(env, items, i + 1, parsed + [item])
              case Err(e) => ParsedAll(env, items) == Err(e)
    {
      assert items[i..][0] == items[i] && items[i..][1..] == items[i + 1..];
      var item, rest := Parsed(env, items[i]), ParsedAll(env, items[i + 1..]);
      if item.Ok? && rest.Ok? {
        assert parsed + ([item.value] + rest.value) == (parsed + [item.value]) + rest.value;
      }
    }

    /** Upsert one reviewer's opinions on the current round; on any conflict none is kept. */
    method SubmitOpinions(env: Env, caller: User, version: nat, items: seq<Item>) returns (r: Option<Error>)
      requires Inv(State())
      modifies this
      ensures Inv(State()) && State() == Step(env, old(State()), DoSubmit(caller, version, items))
      ensures r == Failure(Submit(env, old(State()), caller, version, items))
    {
      StepKeeps(env, State(), DoSubmit(caller, version, items));
      if !caller.role.Reviewer? {
        return Some(Forbidden);
      }
      if version == 0 || items == [] {
        return Some(BadRequest);
      }
      var parsed := ParseItems(env, items);
      if parsed.Err? {
        return Some(parsed.error);
      }
      if caller.id !in reviewers {
        return Some(Forbidden);
      }
      var k := FindRound(rounds, version);
      if k.None? {
        return Some(RoundNotFound);
      }
      var round := rounds[k.value];
      match round.status {
        case Superseded => return Some(VersionSuperseded);
        case Approved => return Some(AlreadyApproved);
        case Open =>
      }
      var done := RecordEach(round, caller.id, parsed.value);
      if done.Err? {
        return Some(done.error);
      }
      rounds := rounds[k.value := done.value];
      r := None;
    }

    method RecordEach(start: Round, reviewer: UserId, items: seq<Item>) returns (r: Result<Round, Error>)
      ensures r == RecordAll(start, reviewer, items)
    {
      var round := start;
      var i := 0;
      while i < |items|
        invariant 0 <= i <= |items|
        invariant RecordAll(start, reviewer, items) == RecordAll(round, reviewer, items[i..])
      {
        var item := items[i];
        assert items[i..][0] == item && items[i..][1..] == items[i + 1..];
        var place := PlaceOf(round.items, item.code);
        if place.None? {
          return Err(BadRequest);
        }
        var found := FindOpinion(round.opinions, reviewer, place.value);
        if found.None? {
          if item.seen != 0 {
            return Err(Stale);
          }
          round := round.(opinions := round.opinions + [Opinion(reviewer, place.value, item.verdict, item.reason, 1)]);
        } else {
          var o := round.opinions[found.value];
          if item.seen != o.row {
            return Err(Stale);
          }
          round := round.(opinions := round.opinions[found.value := o.(verdict := item.verdict, reason := item.reason,
            row := o.row + 1)]);
        }
        i := i + 1;
      }
      assert items[i..] == [];
      r := Ok(round);
    }

    /** Items a reviewer has not answered, and items failed. */
    method Outstanding(round: Round, reviewer: UserId) returns (missing: seq<string>, failed: seq<string>)
      ensures missing == [] && failed == [] <==> AllAccepted(round, reviewer)
      ensures forall c :: c in missing <==>
                exists i :: 0 <= i < |round.items| && round.items[i] == c && Answer(round, reviewer, i).None?
      ensures forall c :: c in failed <==>
                exists i :: 0 <= i < |round.items| && round.items[i] == c && Answer(round, reviewer, i) == Some(Fail)
    {
      missing, failed := [], [];
      var i := 0;
      while i < |round.items|
        invariant 0 <= i <= |round.items|
        invariant missing == [] && failed == [] <==> forall j | 0 <= j < i :: Accepted(round, reviewer, j)
        invariant forall c :: c in missing <==>
          exists j :: 0 <= j < i && round.items[j] == c && Answer(round, reviewer, j).None?
        invariant forall c :: c in failed <==>
          exists j :: 0 <= j < i && round.items[j] == c && Answer(round, reviewer, j) == Some(Fail)
      {
        var answer := Answer(round, reviewer, i);
        assert Accepted(round, reviewer, i) <==> answer.Some? && !answer.value.Fail?;
        if answer.None? {
          missing := missing + [round.items[i]];
        } else if answer.value.Fail? {
          failed := failed + [round.items[i]];
        }
        i := i + 1;
      }
    }

    method IsComplete(round: Round) returns (complete: bool)
      ensures complete <==> Complete(reviewers, round)
    {
      complete := true;
      var i := 0;
      while i < |reviewers|
        invariant 0 <= i <= |reviewers|
        invariant complete <==> forall j | 0 <= j < i :: AllAccepted(round, reviewers[j])
      {
        var missing, failed := Outstanding(round, reviewers[i]);
        complete := complete && missing == [] && failed == [];
        i := i + 1;
      }
      assert complete ==> forall r | r in reviewers :: AllAccepted(round, r);
      assert Complete(reviewers, round) ==> forall j | 0 <= j < |reviewers| ::
        reviewers[j] in reviewers && AllAccepted(round, reviewers[j]);
    }

    /** How many items one reviewer passed, and how many were not applicable. */
    method CountOpinions(round: Round, reviewer: UserId) returns (pass: nat, na: nat)
      ensures pass == CountVerdicts(round.opinions, reviewer, Pass) && na == CountVerdicts(round.opinions, reviewer, NA)
    {
      pass, na := 0, 0;
      var i := 0;
      while i < |round.opinions|
        invariant 0 <= i <= |round.opinions|
        invariant pass == CountVerdicts(round.opinions[..i], reviewer, Pass)
        invariant na == CountVerdicts(round.opinions[..i], reviewer, NA)
      {
        var o := round.opinions[i];
        assert round.opinions[..i + 1][..i] == round.opinions[..i];
        if o.reviewer == reviewer {
          match o.verdict {
            case Pass => pass := pass + 1;
            case NA => na := na + 1;
            case Fail =>
          }
        }
        i := i + 1;
      }
      assert round.opinions[..i] == round.opinions;
    }

    method BuildBasis(round: Round) returns (basis: seq<Tally>)
      ensures basis == Basis(reviewers, round)
    {
      basis := [];
      var i := 0;
      while i < |reviewers|
        invariant 0 <= i <= |reviewers|
        invariant basis == Basis(reviewers, round)[..i]
      {
        var pass, na := CountOpinions(round, reviewers[i]);
        basis := basis + [Tally(reviewers[i], pass, na)];
        i := i + 1;
      }
      assert Basis(reviewers, round)[..i] == Basis(reviewers, round);
    }

    method ApproveJob(env: Env, caller: User) returns (r: Option<Error>)
      requires Inv(State())
      modifies this
      ensures Inv(State()) && State() == Step(env, old(State()), DoSignOff(caller))
      ensures r == Failure(SignOff(old(State()), caller))
    {
      StepKeeps(env, State(), DoSignOff(caller));
      if !caller.role.Manager? || designer == caller.id || manager != caller.id {
        return Some(Forbidden);
      }
      if approved {
        return Some(AlreadyApproved);
      }
      var k := OpenRound(State());
      if k.None? {
        return Some(NoOpenRound);
      }
      var round := rounds[k.value];
      var complete := IsComplete(round);
      if !complete {
        return Some(Blocked);
      }
      var basis := BuildBasis(round);
      rounds := rounds[k.value := round.(status := Approved)];
      files := ApproveFiles(files, current);
      signoffs := signoffs + [Signoff(current, caller.id, basis)];
      approved := true;
      r := None;
    }
  }
}
