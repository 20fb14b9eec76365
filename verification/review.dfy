/** Review rounds and sign-off of one job: what one transaction does. */
module Review {
  import opened Wrappers

  type UserId = int

  datatype Role = Designer | Manager | Reviewer
  datatype User = User(id: UserId, role: Role)

  datatype Verdict = Pass | Fail | NA

  /** One reviewer's verdict on one item, by its place in the round's checklist. */
  datatype Opinion = Opinion(reviewer: UserId, item: nat, verdict: Verdict, reason: string, row: int)

  datatype FileStatus = Ready | SupersededFile | ApprovedFile
  datatype File = File(version: nat, digest: string, status: FileStatus)

  datatype RoundStatus = Open | Superseded | Approved
  datatype Round = Round(version: nat, status: RoundStatus, items: seq<string>, opinions: seq<Opinion>)

  /** One line of the sign-off basis. */
  datatype Tally = Tally(reviewer: UserId, pass: nat, na: nat)
  datatype Signoff = Signoff(version: nat, manager: UserId, basis: seq<Tally>)

  datatype Job = Job(designer: UserId, manager: UserId, reviewers: seq<UserId>, checklist: seq<string>, approved: bool,
                     current: nat, files: seq<File>, rounds: seq<Round>, signoffs: seq<Signoff>)

  datatype Error =
    | Forbidden | BadRequest | ReasonRequired | ChecklistMissing | RoundNotFound | VersionSuperseded
    | AlreadyApproved | NoOpenRound | Blocked | Stale | DatabaseError

  /** `strip` takes white space off both ends. */
  datatype Env = Env(strip: string -> string, roles: map<UserId, Role>)

  const MAX_REVIEWERS: nat := 8
  const MAX_CODE: nat := 40

  // ---- Creating a job

  predicate HasRepeat<T(==)>(xs: seq<T>) {
    exists i, j :: 0 <= i < j < |xs| && xs[i] == xs[j]
  }

  function Stripped(env: Env, codes: seq<string>): (r: seq<string>)
    ensures |r| == |codes| && forall i | 0 <= i < |r| :: r[i] == env.strip(codes[i])
  {
    seq(|codes|, i requires 0 <= i < |codes| => env.strip(codes[i]))
  }

  /** Codes are checked as stripped but stored as they came. */
  function Create(env: Env, caller: User, manager: UserId, reviewers: seq<UserId>,
      checklist: seq<string>): Result<Job, Error> {
    if !caller.role.Designer? then Err(Forbidden)
    else if manager == caller.id || |reviewers| == 0 || |reviewers| > MAX_REVIEWERS then Err(BadRequest)
    else if exists r :: r in reviewers && (r <= 0 || r == caller.id || r == manager) then Err(BadRequest)
    else if HasRepeat(reviewers) || checklist == [] then Err(BadRequest)
    else if exists c :: c in checklist && (env.strip(c) == "" || |env.strip(c)| > MAX_CODE) then Err(BadRequest)
    else if HasRepeat(Stripped(env, checklist)) then Err(BadRequest)
    else if manager !in env.roles || !env.roles[manager].Manager? then Err(BadRequest)
    else if exists r :: r in reviewers && (r !in env.roles || !env.roles[r].Reviewer?) then Err(BadRequest)
    // the width of the column
    else if exists c :: c in checklist && |c| > MAX_CODE then Err(DatabaseError)
    else Ok(Job(caller.id, manager, reviewers, checklist, false, 0, [], [], []))
  }

  // ---- Uploading a revision

  function SupersedeFile(f: File): File {
    if f.status.Ready? then f.(status := SupersededFile) else f
  }

  function SupersedeRound(r: Round): Round {
    if r.status.Open? then r.(status := Superseded) else r
  }

  function SupersedeFiles(files: seq<File>): (r: seq<File>)
    ensures |r| == |files| && forall k | 0 <= k < |r| :: r[k] == SupersedeFile(files[k])
  {
    seq(|files|, k requires 0 <= k < |files| => SupersedeFile(files[k]))
  }

  function SupersedeRounds(rounds: seq<Round>): (r: seq<Round>)
    ensures |r| == |rounds| && forall k | 0 <= k < |r| :: r[k] == SupersedeRound(rounds[k])
  {
    seq(|rounds|, k requires 0 <= k < |rounds| => SupersedeRound(rounds[k]))
  }

  /** A new version with a round on a snapshot of the checklist, in place of the old ones. */
  function Upload(job: Job, caller: User, digest: string): Result<Job, Error> {
    if !caller.role.Designer? || job.designer != caller.id then Err(Forbidden)
    else if job.approved then Err(AlreadyApproved)
    else if job.checklist == [] then Err(ChecklistMissing)
    else
      var version := job.current + 1;
      Ok(job.(files := SupersedeFiles(job.files) + [File(version, digest, Ready)],
              rounds := SupersedeRounds(job.rounds) + [Round(version, Open, job.checklist, [])],
              current := version))
  }

  // ---- Submitting opinions

  datatype Item = Item(code: string, verdict: Verdict, reason: string, seen: int)

  /** Checks on one item before any table is read; code and reason are stripped. */
  function Parsed(env: Env, item: Item): Result<Item, Error> {
    var code, reason := env.strip(item.code), env.strip(item.reason);
    if code == "" then Err(BadRequest)
    else if item.verdict.Fail? && reason == "" then Err(ReasonRequired)
    else if |reason| > 1000 || item.seen < 0 then Err(BadRequest)
    else Ok(Item(code, item.verdict, reason, item.seen))
  }

  function ParsedAll(env: Env, items: seq<Item>): (r: Result<seq<Item>, Error>)
    ensures r.Ok? ==> |r.value| == |items| && forall i | 0 <= i < |items| :: Parsed(env, items[i]) == Ok(r.value[i])
    ensures r.Ok? <==> forall i | 0 <= i < |items| :: Parsed(env, items[i]).Ok?
  {
    if items == [] then Ok([])
    else
      match Parsed(env, items[0])
      case Err(e) => Err(e)
      case Ok(item) =>
        match ParsedAll(env, items[1..])
        case Err(e) => Err(e)
        case Ok(rest) =>
          assert forall i | 0 < i < |items| :: items[i] == items[1..][i - 1];
          Ok([item] + rest)
  }

  function FindRound(rounds: seq<Round>, version: nat): (r: Option<nat>)
    ensures r.Some? ==> r.value < |rounds| && rounds[r.value].version == version
    ensures r.None? ==> forall x | x in rounds :: x.version != version
  {
    if rounds == [] then None
    else if rounds[|rounds| - 1].version == version then Some(|rounds| - 1)
    else FindRound(rounds[..|rounds| - 1], version)
  }

  /** The place of a code in a checklist; of two the later. */
  function PlaceOf(items: seq<string>, code: string): (r: Option<nat>)
    ensures r.Some? ==> r.value < |items| && items[r.value] == code
    ensures r.None? <==> code !in items
  {
    if items == [] then None
    else if items[|items| - 1] == code then Some(|items| - 1)
    else PlaceOf(items[..|items| - 1], code)
  }

  /** The row of a reviewer's opinion on an item. */
  function FindOpinion(opinions: seq<Opinion>, reviewer: UserId, item: nat): (r: Option<nat>)
    ensures r.Some? ==> r.value < |opinions| && opinions[r.value].reviewer == reviewer && opinions[r.value].item == item
    ensures r.None? ==> forall o | o in opinions :: !(o.reviewer == reviewer && o.item == item)
  {
    if opinions == [] then None
    else if opinions[|opinions| - 1].reviewer == reviewer && opinions[|opinions| - 1].item == item then
      Some(|opinions| - 1)
    else FindOpinion(opinions[..|opinions| - 1], reviewer, item)
  }

  /** Insert or update one opinion, if the caller has seen its latest row version. */
  function Record(round: Round, reviewer: UserId, item: Item): Result<Round, Error> {
    match PlaceOf(round.items, item.code)
    case None => Err(BadRequest)
    case Some(place) =>
      match FindOpinion(round.opinions, reviewer, place)
      case None =>
        if item.seen != 0 then Err(Stale)
        else Ok(round.(opinions := round.opinions + [Opinion(reviewer, place, item.verdict, item.reason, 1)]))
      case Some(k) =>
        var o := round.opinions[k];
        if item.seen != o.row then Err(Stale)
        else Ok(round.(opinions := round.opinions[k := o.(verdict := item.verdict, reason := item.reason,
          row := o.row + 1)]))
  }

  function RecordAll(round: Round, reviewer: UserId, items: seq<Item>): Result<Round, Error>
    decreases |items|
  {
    if items == [] then Ok(round)
    else
      match Record(round, reviewer, items[0])
      case Err(e) => Err(e)
      case Ok(next) => RecordAll(next, reviewer, items[1..])
  }

  function Submit(env: Env, job: Job, caller: User, version: nat, items: seq<Item>): Result<Job, Error> {
    if !caller.role.Reviewer? then Err(Forbidden)
    else if version == 0 || items == [] then Err(BadRequest)
    else
      match ParsedAll(env, items)
      case Err(e) => Err(e)
      case Ok(parsed) =>
        if caller.id !in job.reviewers then Err(Forbidden)
        else
          match FindRound(job.rounds, version)
          case None => Err(RoundNotFound)
          case Some(k) =>
            if job.rounds[k].status.Superseded? then Err(VersionSuperseded)
            else if job.rounds[k].status.Approved? then Err(AlreadyApproved)
            else
              match RecordAll(job.rounds[k], caller.id, parsed)
              case Err(e) => Err(e)
              case Ok(round) => Ok(job.(rounds := job.rounds[k := round]))
  }

  // ---- Signing off

  /** A reviewer's answer to an item. */
  function Answer(round: Round, reviewer: UserId, item: nat): Option<Verdict> {
    var k := FindOpinion(round.opinions, reviewer, item);
    if k.Some? then Some(round.opinions[k.value].verdict) else None
  }

  predicate Accepted(round: Round, reviewer: UserId, item: nat) {
    Answer(round, reviewer, item).Some? && !Answer(round, reviewer, item).value.Fail?
  }

  /** Every designated reviewer has answered every item, and none with a failure. */
  predicate Complete(reviewers: seq<UserId>, round: Round) {
    forall r | r in reviewers :: AllAccepted(round, r)
  }

  predicate AllAccepted(round: Round, reviewer: UserId) {
    forall i | 0 <= i < |round.items| :: Accepted(round, reviewer, i)
  }

  function OpenRound(job: Job): (r: Option<nat>)
    ensures r.Some? ==>
      r.value < |job.rounds| && job.rounds[r.value].version == job.current && job.rounds[r.value].status.Open?
  {
    var k := FindRound(job.rounds, job.current);
    if k.Some? && job.rounds[k.value].status.Open? then k else None
  }

  function CountVerdicts(opinions: seq<Opinion>, reviewer: UserId, verdict: Verdict): nat {
    if opinions == [] then 0
    else
      var o := opinions[|opinions| - 1];
      var before := CountVerdicts(opinions[..|opinions| - 1], reviewer, verdict);
      before + if o.reviewer == reviewer && o.verdict == verdict then 1 else 0
  }

  /** How many items each reviewer passed and how many were not applicable. */
  function Basis(reviewers: seq<UserId>, round: Round): (r: seq<Tally>)
    ensures |r| == |reviewers|
    ensures forall i | 0 <= i < |r| ::
              r[i] == Tally(reviewers[i], CountVerdicts(round.opinions, reviewers[i], Pass),
                CountVerdicts(round.opinions, reviewers[i], NA))
  {
    seq(|reviewers|, i requires 0 <= i < |reviewers| =>
      Tally(reviewers[i], CountVerdicts(round.opinions, reviewers[i], Pass),
        CountVerdicts(round.opinions, reviewers[i], NA)))
  }

  function ApproveFiles(files: seq<File>, version: nat): (r: seq<File>)
    ensures |r| == |files|
    ensures forall k | 0 <= k < |r| ::
      r[k] == if files[k].version == version then files[k].(status := ApprovedFile) else files[k]
  {
    seq(|files|, k requires 0 <= k < |files| =>
      if files[k].version == version then files[k].(status := ApprovedFile) else files[k])
  }

  function SignOff(job: Job, caller: User): Result<Job, Error> {
    if !caller.role.Manager? || job.designer == caller.id || job.manager != caller.id then Err(Forbidden)
    else if job.approved then Err(AlreadyApproved)
    else
      match OpenRound(job)
      case None => Err(NoOpenRound)
      case Some(k) =>
        var round := job.rounds[k];
        if !Complete(job.reviewers, round) then Err(Blocked)
        else
          Ok(job.(rounds := job.rounds[k := round.(status := Approved)],
                  files := ApproveFiles(job.files, job.current),
                  signoffs := job.signoffs + [Signoff(job.current, caller.id, Basis(job.reviewers, round))],
                  approved := true))
  }

  // ---- Runs

  datatype Op =
    | DoUpload(caller: User, digest: string)
    | DoSubmit(caller: User, version: nat, items: seq<Item>)
    | DoSignOff(caller: User)

  function Attempt(env: Env, job: Job, op: Op): Result<Job, Error> {
    match op
    case DoUpload(caller, digest) => Upload(job, caller, digest)
    case DoSubmit(caller, version, items) => Submit(env, job, caller, version, items)
    case DoSignOff(caller) => SignOff(job, caller)
  }

  /** A failed transaction is rolled back. */
  function Step(env: Env, job: Job, op: Op): Job {
    match Attempt(env, job, op)
    case Ok(after) => after
    case Err(_) => job
  }

  function Run(env: Env, job: Job, ops: seq<Op>): Job
    decreases |ops|
  {
    if ops == [] then job else Run(env, Step(env, job, ops[0]), ops[1..])
  }
}
