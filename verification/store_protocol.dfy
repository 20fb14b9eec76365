/**
 The publish / delete / garbage-collect protocol of the content-addressed store as a state
 machine. Every transaction is a process that advances one database statement or one file
 operation at a time; row changes become visible at commit, disk changes at once, and a crash
 may happen between any two steps.
 */
module StoreProtocol {
  import opened Wrappers
  import opened ChunkPlan
  import opened Hashing
  import opened FileStorage

  type Pid = nat
  type FileId = nat

  /** The content hash, and the advisory-lock key derived from a digest (keys may collide). */
  datatype Env = Env(hash: Bytes -> Digest, lockKey: Digest -> int)

  datatype Status = Uploading | Merging | Published

  datatype Dataset = Dataset(
    status: Status, total: int, chunk: int, count: int, sha: Digest, fileId: Option<FileId>)

  /** Committed rows. `files` maps a row id to its digest. */
  datatype Db = Db(
    files: map<FileId, Digest>, datasets: map<DatasetId, Dataset>, chunks: map<ChunkKey, ChunkRow>)

  datatype Disk = Disk(
    files: map<Digest, Bytes>, tmp: map<DatasetId, Bytes>, chunks: map<ChunkKey, Bytes>)

  /** A request in progress: where it stands and what it has read so far. */
  datatype Proc =
    // UploadChunk, row locked and all checks passed; then chunk file written
    | UpLocked(ds: DatasetId, index: nat, body: Bytes)
    | UpWritten(ds: DatasetId, index: nat, body: Bytes)
    // Publish
    | PubMerging(ds: DatasetId, done: nat)
    | PubMerged(ds: DatasetId)
    | PubKeyed(ds: DatasetId)
    | PubFound(ds: DatasetId, id: FileId)
    | PubAbsent(ds: DatasetId)
    | PubStatted(ds: DatasetId, present: bool)
    | PubPromoted(ds: DatasetId)
    | PubInserted(ds: DatasetId, id: FileId)
    // Delete
    | DelLocked(ds: DatasetId)
    | DelRead(ds: DatasetId, id: FileId, sha: Digest)
    | DelKeyed(ds: DatasetId, id: FileId, sha: Digest)
    | DelDecided(ds: DatasetId, id: FileId, sha: Digest, drop: bool)
    | Cleanup(ds: DatasetId, gc: Option<Digest>)
    // GCOrphanFile
    | GcWaiting(sha: Digest)
    | GcKeyed(sha: Digest)
    | GcChecked(sha: Digest, present: bool)

  datatype Mode = Down | Recovering(keep: set<Digest>) | Serving

  datatype State = State(
    mode: Mode, db: Db, disk: Disk, procs: map<Pid, Proc>,
    rows: map<DatasetId, Pid>, keys: map<int, Pid>,
    nextDataset: nat, nextFile: nat)

  datatype Event =
    | Create(total: int, chunk: int, declared: Digest)
    | BeginUpload(pid: Pid, ds: DatasetId, index: nat, body: Bytes)
    | BeginPublish(pid: Pid, ds: DatasetId)
    | BeginDelete(pid: Pid, ds: DatasetId, references: nat)
    | Advance(pid: Pid)
    | Abort(pid: Pid)
    | Crash
    | RecoverBegin
    | RecoverFile(sha: Digest)
    | RecoverChunk(key: ChunkKey)
    | RecoverEnd

  const INITIAL := State(Down, Db(map[], map[], map[]), Disk(map[], map[], map[]), map[], map[], map[], 0, 0)

  function Shas(db: Db): set<Digest> {
    set id | id in db.files :: db.files[id]
  }

  function Expected(d: Dataset, i: int): int {
    ExpectedSize(d.total, d.chunk, d.count, i)
  }

  /** Publish's reading of the chunk table: exactly the rows 0..count-1 exist. */
  ghost predicate Complete(db: Db, ds: DatasetId) {
    && ds in db.datasets
    && 0 <= db.datasets[ds].count
    && forall i: nat :: (ds, i) in db.chunks <==> i < db.datasets[ds].count
  }

  ghost function Rows(db: Db, ds: DatasetId, n: nat): (r: seq<ChunkRow>)
    requires forall i: nat | i < n :: (ds, i) in db.chunks
  {
    seq(n, i requires 0 <= i < n => db.chunks[(ds, i)])
  }

  // ---- Steps

  function Release(s: State, pid: Pid): State {
    s.(procs := s.procs - {pid},
       rows := map d | d in s.rows && s.rows[d] != pid :: s.rows[d],
       keys := map k | k in s.keys && s.keys[k] != pid :: s.keys[k])
  }

  function Goto(s: State, pid: Pid, p: Proc): State {
    s.(procs := s.procs[pid := p])
  }

  /** Blocks while another transaction holds the advisory lock of `sha`. */
  function TakeKey(env: Env, s: State, pid: Pid, sha: Digest, p: Proc): Option<State> {
    var k := env.lockKey(sha);
    if k in s.keys && s.keys[k] != pid then None else Some(Goto(s, pid, p).(keys := s.keys[k := pid]))
  }

  ghost predicate CanStart(s: State, pid: Pid, ds: DatasetId) {
    s.mode == Serving && pid !in s.procs && ds in s.db.datasets && ds !in s.rows
  }

  function TakeRow(s: State, pid: Pid, ds: DatasetId, p: Proc): State {
    Goto(s, pid, p).(rows := s.rows[ds := pid])
  }

  ghost function StepUpload(env: Env, s: State, pid: Pid): Option<State>
    requires pid in s.procs
  {
    match s.procs[pid]
    case UpLocked(ds, i, body) =>
      Some(Goto(s, pid, UpWritten(ds, i, body)).(disk := s.disk.(chunks := s.disk.chunks[(ds, i) := body])))
    case UpWritten(ds, i, body) =>
      Some(Release(s, pid).(db := s.db.(chunks := s.db.chunks[(ds, i) := ChunkRow(i, env.hash(body), |body|)])))
    case _ => None
  }

  ghost function StepPublish(env: Env, s: State, pid: Pid): Option<State>
    requires pid in s.procs
  {
    match s.procs[pid]
    case PubMerging(ds, n) =>
      if ds !in s.db.datasets || ds !in s.disk.tmp then None
      else if n < s.db.datasets[ds].count then
        if (ds, n) in s.db.chunks && Intact(env.hash, s.disk.chunks, ds, s.db.chunks[(ds, n)]) then
          Some(Goto(s, pid, PubMerging(ds, n + 1)).(disk := s.disk.(
            tmp := s.disk.tmp[ds := s.disk.tmp[ds] + s.disk.chunks[(ds, s.db.chunks[(ds, n)].index)]])))
        else
          Some(Release(s, pid).(disk := s.disk.(tmp := s.disk.tmp - {ds})))
      else if env.hash(s.disk.tmp[ds]) != s.db.datasets[ds].sha then
        Some(Release(s, pid).(disk := s.disk.(tmp := s.disk.tmp - {ds})))
      else
        Some(Goto(s, pid, PubMerged(ds)))
    case PubMerged(ds) =>
      if ds !in s.db.datasets then None
      else TakeKey(env, s, pid, s.db.datasets[ds].sha, PubKeyed(ds))
    case PubKeyed(ds) =>
      if ds !in s.db.datasets then None
      else if s.db.datasets[ds].sha in Shas(s.db) then
        var id :| id in s.db.files && s.db.files[id] == s.db.datasets[ds].sha;
        Some(Goto(s, pid, PubFound(ds, id)).(disk := s.disk.(tmp := s.disk.tmp - {ds})))
      else Some(Goto(s, pid, PubAbsent(ds)))
    case PubAbsent(ds) =>
      if ds !in s.db.datasets then None
      else Some(Goto(s, pid, PubStatted(ds, s.db.datasets[ds].sha in s.disk.files)))
    case PubStatted(ds, present) =>
      if ds !in s.db.datasets || ds !in s.disk.tmp then None
      else
        var files := if present then s.disk.files
                     else s.disk.files[s.db.datasets[ds].sha := s.disk.tmp[ds]];
        Some(Goto(s, pid, PubPromoted(ds)).(disk := s.disk.(files := files, tmp := s.disk.tmp - {ds})))
    case PubPromoted(ds) =>
      Some(Goto(s, pid, PubInserted(ds, s.nextFile)).(nextFile := s.nextFile + 1))
    case PubFound(ds, id) =>
      if ds !in s.db.datasets then None
      else Some(Release(s, pid).(db := Link(s.db, ds, id)))
    case PubInserted(ds, id) =>
      if ds !in s.db.datasets then None
      else Some(Release(s, pid).(db := Link(s.db.(files := s.db.files[id := s.db.datasets[ds].sha]), ds, id)))
    case _ => None
  }

  /** The dataset row after a publish: status and file reference set together. */
  function Link(db: Db, ds: DatasetId, id: FileId): Db
    requires ds in db.datasets
  {
    db.(datasets := db.datasets[ds := db.datasets[ds].(status := Published, fileId := Some(id))])
  }

  /** Deleting a dataset row also deletes its chunk rows. */
  function Unlink(db: Db, ds: DatasetId): Db {
    db.(datasets := db.datasets - {ds},
        chunks := map k | k in db.chunks && k.0 != ds :: db.chunks[k])
  }

  ghost predicate Refers(db: Db, ds: DatasetId, id: FileId) {
    ds in db.datasets && db.datasets[ds].fileId == Some(id)
  }

  /** The reference count of `id`, leaving out the caller's own uncommitted deletion of `ds`, is positive. */
  ghost predicate Shared(db: Db, ds: DatasetId, id: FileId) {
    exists other :: other != ds && Refers(db, other, id)
  }

  ghost function StepDelete(env: Env, s: State, pid: Pid): Option<State>
    requires pid in s.procs
  {
    match s.procs[pid]
    case DelLocked(ds) =>
      if ds !in s.db.datasets then None
      else (match s.db.datasets[ds].fileId
        case None => Some(Goto(Release(s, pid), pid, Cleanup(ds, None)).(db := Unlink(s.db, ds)))
        case Some(id) =>
          if id !in s.db.files then None
          else Some(Goto(s, pid, DelRead(ds, id, s.db.files[id]))))
    case DelRead(ds, id, sha) => TakeKey(env, s, pid, sha, DelKeyed(ds, id, sha))
    case DelKeyed(ds, id, sha) => Some(Goto(s, pid, DelDecided(ds, id, sha, !Shared(s.db, ds, id))))
    case DelDecided(ds, id, sha, drop) =>
      var db := if drop then s.db.(files := s.db.files - {id}) else s.db;
      Some(Goto(Release(s, pid), pid, Cleanup(ds, if drop then Some(sha) else None)).(db := Unlink(db, ds)))
    case Cleanup(ds, gc) =>
      var s1 := s.(disk := s.disk.(chunks := map k | k in s.disk.chunks && k.0 != ds :: s.disk.chunks[k]));
      (match gc
       case None => Some(Release(s1, pid))
       case Some(sha) => Some(Goto(s1, pid, GcWaiting(sha))))
    case _ => None
  }

  ghost function StepGc(env: Env, s: State, pid: Pid): Option<State>
    requires pid in s.procs
  {
    match s.procs[pid]
    case GcWaiting(sha) => TakeKey(env, s, pid, sha, GcKeyed(sha))
    case GcKeyed(sha) => Some(Goto(s, pid, GcChecked(sha, sha in Shas(s.db))))
    case GcChecked(sha, present) =>
      var s1 := if present then s else s.(disk := s.disk.(files := s.disk.files - {sha}));
      Some(Release(s1, pid))
    case _ => None
  }

  ghost function StartStep(env: Env, s: State, e: Event): Option<State>
    requires e.BeginUpload? || e.BeginPublish? || e.BeginDelete?
  {
    if !CanStart(s, e.pid, e.ds) then None
    else
      var d := s.db.datasets[e.ds];
      match e
      case BeginUpload(pid, ds, i, body) =>
        if d.status != Uploading || i >= d.count || |body| != Expected(d, i) || (ds, i) in s.db.chunks then None
        else Some(TakeRow(s, pid, ds, UpLocked(ds, i, body)))
      case BeginPublish(pid, ds) =>
        if d.status != Uploading || !Complete(s.db, ds) then None
        else Some(TakeRow(s, pid, ds, PubMerging(ds, 0)).(disk := s.disk.(tmp := s.disk.tmp[ds := []])))
      case BeginDelete(pid, ds, references) =>
        if references > 0 then None
        else Some(TakeRow(s, pid, ds, DelLocked(ds)))
  }

  ghost function RecoverStep(s: State, e: Event): Option<State>
    requires e.RecoverBegin? || e.RecoverFile? || e.RecoverChunk? || e.RecoverEnd?
  {
    match e
    case RecoverBegin =>
      if s.mode != Down then None
      else Some(s.(
        mode := Recovering(Shas(s.db)),
        db := s.db.(datasets := map d | d in s.db.datasets :: ResetMerging(s.db.datasets[d])),
        disk := s.disk.(tmp := map[])))
    case RecoverFile(sha) =>
      if s.mode.Recovering? && sha in s.disk.files && sha !in s.mode.keep then
        Some(s.(disk := s.disk.(files := s.disk.files - {sha})))
      else None
    case RecoverChunk(key) =>
      if s.mode.Recovering? && key in s.disk.chunks && key.0 !in s.db.datasets then
        Some(s.(disk := s.disk.(chunks := s.disk.chunks - {key})))
      else None
    case RecoverEnd =>
      if s.mode.Recovering? && s.disk.files.Keys <= s.mode.keep
         && (forall k | k in s.disk.chunks :: k.0 in s.db.datasets) then
        Some(s.(mode := Serving))
      else None
  }

  function ResetMerging(d: Dataset): Dataset {
    if d.status == Merging then d.(status := Uploading) else d
  }

  function CreateStep(s: State, total: int, chunk: int, sha: Digest): Option<State> {
    if s.mode != Serving || total <= 0 || chunk <= 0 || total > INT64_MAX || chunk > INT64_MAX
       || !(-0x8000_0000 <= ChunkCount(total, chunk) <= 0x7fff_ffff) then None
    else Some(s.(
      db := s.db.(datasets := s.db.datasets[
        s.nextDataset := Dataset(Uploading, total, chunk, ChunkCount(total, chunk), sha, None)]),
      nextDataset := s.nextDataset + 1))
  }

  ghost function Next(env: Env, s: State, e: Event): Option<State> {
    match e
    case Create(total, chunk, sha) => CreateStep(s, total, chunk, sha)
    case Advance(pid) =>
      if pid !in s.procs then None
      else if StepUpload(env, s, pid).Some? then StepUpload(env, s, pid)
      else if StepPublish(env, s, pid).Some? then StepPublish(env, s, pid)
      else if StepDelete(env, s, pid).Some? then StepDelete(env, s, pid)
      else StepGc(env, s, pid)
    case Abort(pid) => if pid in s.procs then Some(Release(s, pid)) else None
    case Crash => Some(s.(mode := Down, procs := map[], rows := map[], keys := map[]))
    case BeginUpload(_, _, _, _) => StartStep(env, s, e)
    case BeginPublish(_, _) => StartStep(env, s, e)
    case BeginDelete(_, _, _) => StartStep(env, s, e)
    case RecoverBegin => RecoverStep(s, e)
    case RecoverFile(_) => RecoverStep(s, e)
    case RecoverChunk(_) => RecoverStep(s, e)
    case RecoverEnd => RecoverStep(s, e)
  }

  /** `trace` lists the states passed through when `events` happen one after the other from the empty store. */
  ghost predicate Run(env: Env, trace: seq<State>, events: seq<Event>) {
    && |trace| == |events| + 1
    && trace[0] == INITIAL
    && forall i | 0 <= i < |events| :: Next(env, trace[i], events[i]) == Some(trace[i + 1])
  }

  // ---- Invariant

  /** The stated promise of the store: a committed file row has its content on disk. */
  ghost predicate FilesPresent(s: State) {
    forall id | id in s.db.files :: s.db.files[id] in s.disk.files
  }

  ghost predicate ContentAddressed(env: Env, s: State) {
    forall d | d in s.disk.files :: env.hash(s.disk.files[d]) == d
  }

  ghost predicate OneRowPerDigest(db: Db) {
    forall a, b | a in db.files && b in db.files && db.files[a] == db.files[b] :: a == b
  }

  /** A file row exists exactly for the files some published dataset points to. */
  ghost predicate ReferencesExact(db: Db) {
    && (forall ds, id | Refers(db, ds, id) :: id in db.files && db.files[id] == db.datasets[ds].sha)
    && (forall id | id in db.files :: exists ds :: Refers(db, ds, id))
    && (forall ds | ds in db.datasets :: db.datasets[ds].fileId.Some? <==> db.datasets[ds].status == Published)
  }

  ghost predicate ChunkRowsOk(env: Env, s: State) {
    forall k | k in s.db.chunks ::
      && k.0 in s.db.datasets
      && k.1 < s.db.datasets[k.0].count
      && s.db.chunks[k].index == k.1
      && s.db.chunks[k].size == Expected(s.db.datasets[k.0], k.1)
      && Intact(env.hash, s.disk.chunks, k.0, s.db.chunks[k])
  }

  /** The bytes the chunk files of `ds` merge to have the declared digest. */
  ghost predicate MergesToSha(env: Env, s: State, ds: DatasetId) {
    && Complete(s.db, ds)
    && var rows := Rows(s.db, ds, s.db.datasets[ds].count);
       AllIntact(env.hash, s.disk.chunks, ds, rows)
       && env.hash(Merged(s.disk.chunks, ds, rows)) == s.db.datasets[ds].sha
  }

  ghost predicate PublishedVerified(env: Env, s: State) {
    forall ds | ds in s.db.datasets && s.db.datasets[ds].status == Published :: MergesToSha(env, s, ds)
  }

  /** Row ids come from their sequences and chunk counts from the creation request. */
  ghost predicate RowsRegular(s: State) {
    && (forall ds | ds in s.db.datasets :: ds < s.nextDataset && Planned(s.db.datasets[ds]))
    && (forall id | id in s.db.files :: id < s.nextFile)
  }

  predicate Planned(d: Dataset) {
    0 < d.total <= INT64_MAX && 0 < d.chunk <= INT64_MAX && d.count == ChunkCount(d.total, d.chunk)
  }

  ghost predicate ModeOk(s: State) {
    && (s.mode != Serving ==> s.procs == map[])
    && (s.mode.Recovering? ==> s.mode.keep == Shas(s.db))
    && (forall ds | ds in s.rows :: ds in s.db.datasets)
  }

  ghost predicate GlobalOk(env: Env, s: State) {
    && FilesPresent(s)
    && ContentAddressed(env, s)
    && OneRowPerDigest(s.db)
    && ReferencesExact(s.db)
    && ChunkRowsOk(env, s)
    && PublishedVerified(env, s)
    && RowsRegular(s)
    && ModeOk(s)
  }

  ghost predicate HasRow(s: State, pid: Pid, ds: DatasetId) {
    ds in s.rows && s.rows[ds] == pid && ds in s.db.datasets
  }

  ghost predicate HasKey(env: Env, s: State, pid: Pid, sha: Digest) {
    env.lockKey(sha) in s.keys && s.keys[env.lockKey(sha)] == pid
  }

  /** A publisher holding the row lock of an unpublished dataset with all its chunks. */
  ghost predicate Publisher(s: State, pid: Pid, ds: DatasetId) {
    HasRow(s, pid, ds) && s.db.datasets[ds].status == Uploading && Complete(s.db, ds)
  }

  ghost predicate MergedAll(env: Env, s: State, pid: Pid, ds: DatasetId) {
    Publisher(s, pid, ds) && MergesToSha(env, s, ds)
  }

  ghost predicate OutputReady(env: Env, s: State, ds: DatasetId) {
    ds in s.disk.tmp && ds in s.db.datasets && env.hash(s.disk.tmp[ds]) == s.db.datasets[ds].sha
  }

  /** A publisher that holds the digest lock and has seen no row for the digest. */
  ghost predicate AloneOnDigest(env: Env, s: State, pid: Pid, ds: DatasetId) {
    && MergedAll(env, s, pid, ds)
    && HasKey(env, s, pid, s.db.datasets[ds].sha)
    && s.db.datasets[ds].sha !in Shas(s.db)
  }

  ghost predicate Deleter(s: State, pid: Pid, ds: DatasetId, id: FileId, sha: Digest) {
    HasRow(s, pid, ds) && Refers(s.db, ds, id) && id in s.db.files && s.db.files[id] == sha
  }

  /** What each program point knows. */
  ghost predicate ProcOk(env: Env, s: State, pid: Pid)
    requires pid in s.procs
  {
    match s.procs[pid]
    case UpLocked(ds, i, body) => Uploader(s, pid, ds, i, body)
    case UpWritten(ds, i, body) =>
      Uploader(s, pid, ds, i, body) && (ds, i) in s.disk.chunks && s.disk.chunks[(ds, i)] == body
    case PubMerging(ds, n) =>
      && Publisher(s, pid, ds) && n <= s.db.datasets[ds].count
      && AllIntact(env.hash, s.disk.chunks, ds, Rows(s.db, ds, n))
      && ds in s.disk.tmp && s.disk.tmp[ds] == Merged(s.disk.chunks, ds, Rows(s.db, ds, n))
    case PubMerged(ds) => MergedAll(env, s, pid, ds) && OutputReady(env, s, ds)
    case PubKeyed(ds) =>
      MergedAll(env, s, pid, ds) && OutputReady(env, s, ds) && HasKey(env, s, pid, s.db.datasets[ds].sha)
    case PubFound(ds, id) =>
      && MergedAll(env, s, pid, ds) && HasKey(env, s, pid, s.db.datasets[ds].sha)
      && id in s.db.files && s.db.files[id] == s.db.datasets[ds].sha
    case PubAbsent(ds) => AloneOnDigest(env, s, pid, ds) && OutputReady(env, s, ds)
    case PubStatted(ds, present) =>
      && AloneOnDigest(env, s, pid, ds) && OutputReady(env, s, ds)
      && present == (s.db.datasets[ds].sha in s.disk.files)
    case PubPromoted(ds) => AloneOnDigest(env, s, pid, ds) && s.db.datasets[ds].sha in s.disk.files
    case PubInserted(ds, id) =>
      && AloneOnDigest(env, s, pid, ds) && s.db.datasets[ds].sha in s.disk.files
      && id < s.nextFile && id !in s.db.files
    case DelLocked(ds) => HasRow(s, pid, ds)
    case DelRead(ds, id, sha) => Deleter(s, pid, ds, id, sha)
    case DelKeyed(ds, id, sha) => Deleter(s, pid, ds, id, sha) && HasKey(env, s, pid, sha)
    case DelDecided(ds, id, sha, drop) =>
      Deleter(s, pid, ds, id, sha) && HasKey(env, s, pid, sha) && drop == !Shared(s.db, ds, id)
    case Cleanup(ds, _) => ds !in s.db.datasets && ds < s.nextDataset
    case GcWaiting(_) => true
    case GcKeyed(sha) => HasKey(env, s, pid, sha)
    case GcChecked(sha, present) => HasKey(env, s, pid, sha) && present == (sha in Shas(s.db))
  }

  ghost predicate Uploader(s: State, pid: Pid, ds: DatasetId, i: nat, body: Bytes) {
    && HasRow(s, pid, ds) && s.db.datasets[ds].status == Uploading
    && i < s.db.datasets[ds].count && |body| == Expected(s.db.datasets[ds], i) && (ds, i) !in s.db.chunks
  }

  /** Two publishers never hold the same uncommitted file id. */
  ghost predicate PendingDistinct(s: State) {
    forall p, q | p in s.procs && q in s.procs && p != q && s.procs[p].PubInserted? && s.procs[q].PubInserted? ::
      s.procs[p].id != s.procs[q].id
  }

  ghost predicate Inv(env: Env, s: State) {
    && GlobalOk(env, s)
    && (forall pid | pid in s.procs :: ProcOk(env, s, pid))
    && PendingDistinct(s)
  }

  // ---- Frames: what a step by one process leaves for the others

  ghost predicate RowAgrees(s: State, t: State, ds: DatasetId) {
    && (ds in s.db.datasets <==> ds in t.db.datasets)
    && (ds in s.db.datasets ==> s.db.datasets[ds] == t.db.datasets[ds])
    && (forall i: nat :: (ds, i) in s.db.chunks <==> (ds, i) in t.db.chunks)
    && (forall i: nat | (ds, i) in s.db.chunks :: s.db.chunks[(ds, i)] == t.db.chunks[(ds, i)])
    && (forall i: nat :: (ds, i) in s.disk.chunks <==> (ds, i) in t.disk.chunks)
    && (forall i: nat | (ds, i) in s.disk.chunks :: s.disk.chunks[(ds, i)] == t.disk.chunks[(ds, i)])
    && (ds in s.disk.tmp <==> ds in t.disk.tmp)
    && (ds in s.disk.tmp ==> s.disk.tmp[ds] == t.disk.tmp[ds])
  }

  ghost predicate HasSha(db: Db, id: FileId, sha: Digest) {
    id in db.files && db.files[id] == sha
  }

  ghost predicate KeyAgrees(s: State, t: State, sha: Digest) {
    && (sha in s.disk.files <==> sha in t.disk.files)
    && (forall id :: HasSha(s.db, id, sha) <==> HasSha(t.db, id, sha))
    && (forall ds, id | HasSha(s.db, id, sha) :: Refers(s.db, ds, id) <==> Refers(t.db, ds, id))
  }

  ghost predicate LocksKept(env: Env, s: State, t: State, q: Pid) {
    && (forall ds | ds in s.rows && s.rows[ds] == q :: ds in t.rows && t.rows[ds] == q && RowAgrees(s, t, ds))
    && (forall sha | HasKey(env, s, q, sha) :: HasKey(env, t, q, sha) && KeyAgrees(s, t, sha))
  }

  lemma {:induction false} MergedFrame(a: map<ChunkKey, Bytes>, b: map<ChunkKey, Bytes>, ds: DatasetId,
      rows: seq<ChunkRow>)
    requires forall row | row in rows :: (ds, row.index) in a && (ds, row.index) in b
    requires forall row | row in rows :: a[(ds, row.index)] == b[(ds, row.index)]
    ensures Merged(a, ds, rows) == Merged(b, ds, rows)
  {
    if rows == [] {
    } else {
      assert rows[|rows| - 1] in rows;
      MergedFrame(a, b, ds, rows[..|rows| - 1]);
    }
  }

  lemma RowsFrame(env: Env, s: State, t: State, ds: DatasetId, n: nat)
    requires RowAgrees(s, t, ds)
    requires forall i: nat | i < n :: (ds, i) in s.db.chunks
    requires AllIntact(env.hash, s.disk.chunks, ds, Rows(s.db, ds, n))
    ensures Rows(s.db, ds, n) == Rows(t.db, ds, n)
    ensures AllIntact(env.hash, t.disk.chunks, ds, Rows(t.db, ds, n))
    ensures Merged(s.disk.chunks, ds, Rows(s.db, ds, n)) == Merged(t.disk.chunks, ds, Rows(t.db, ds, n))
  {
    MergedFrame(s.disk.chunks, t.disk.chunks, ds, Rows(s.db, ds, n));
  }

  lemma MergesFrame(env: Env, s: State, t: State, ds: DatasetId)
    requires RowAgrees(s, t, ds) && MergesToSha(env, s, ds)
    ensures MergesToSha(env, t, ds)
  {
    RowsFrame(env, s, t, ds, s.db.datasets[ds].count);
  }

  lemma ShasFrame(s: State, t: State, sha: Digest)
    requires KeyAgrees(s, t, sha)
    ensures sha in Shas(s.db) <==> sha in Shas(t.db)
  {
    if sha in Shas(s.db) {
      var id :| id in s.db.files && s.db.files[id] == sha;
      assert HasSha(s.db, id, sha);
    }
    if sha in Shas(t.db) {
      var id :| id in t.db.files && t.db.files[id] == sha;
      assert HasSha(t.db, id, sha);
    }
  }

  lemma ProcStays(env: Env, s: State, t: State, q: Pid)
    requires q in s.procs && q in t.procs && s.procs[q] == t.procs[q]
    requires ProcOk(env, s, q)
    requires LocksKept(env, s, t, q)
    requires ReferencesExact(s.db) && ReferencesExact(t.db)
    requires t.nextFile >= s.nextFile && t.nextDataset >= s.nextDataset
    requires s.procs[q].PubInserted? ==> s.procs[q].id !in t.db.files
    requires s.procs[q].Cleanup? ==> s.procs[q].ds !in t.db.datasets
    ensures ProcOk(env, t, q)
  {
    match s.procs[q]
    case UpLocked(ds, i, body) =>
    case UpWritten(ds, i, body) =>
    case PubMerging(ds, n) => RowsFrame(env, s, t, ds, n);
    case PubMerged(ds) => MergesFrame(env, s, t, ds);
    case PubKeyed(ds) => MergesFrame(env, s, t, ds);
    case PubFound(ds, id) =>
      MergesFrame(env, s, t, ds);
      assert HasSha(s.db, id, s.db.datasets[ds].sha);
    case PubAbsent(ds) => MergesFrame(env, s, t, ds); ShasFrame(s, t, s.db.datasets[ds].sha);
    case PubStatted(ds, _) => MergesFrame(env, s, t, ds); ShasFrame(s, t, s.db.datasets[ds].sha);
    case PubPromoted(ds) => MergesFrame(env, s, t, ds); ShasFrame(s, t, s.db.datasets[ds].sha);
    case PubInserted(ds, _) => MergesFrame(env, s, t, ds); ShasFrame(s, t, s.db.datasets[ds].sha);
    case DelLocked(ds) =>
    case DelRead(ds, id, sha) => assert Refers(t.db, ds, id);
    case DelKeyed(ds, id, sha) => assert Refers(t.db, ds, id);
    case DelDecided(ds, id, sha, drop) =>
      assert Refers(t.db, ds, id);
      assert HasSha(s.db, id, sha);
      assert forall other :: Refers(s.db, other, id) <==> Refers(t.db, other, id);
      assert Shared(s.db, ds, id) <==> Shared(t.db, ds, id);
    case Cleanup(ds, _) =>
    case GcWaiting(_) =>
    case GcKeyed(_) =>
    case GcChecked(sha, _) => ShasFrame(s, t, sha);
  }
}
