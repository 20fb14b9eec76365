/**
 What the store promises, for every interleaving of uploads, publishes, deletions, garbage
 collections, aborts, crashes and recoveries.
 */
module StoreTheorems {
  import opened Wrappers
  import opened ChunkPlan
  import opened Hashing
  import opened FileStorage
  import opened StoreProtocol
  import opened StoreSafety

  /**
   A committed file row always has a file on disk with the content its digest names, and
   exists exactly as long as some committed dataset row points to it.
   */
  lemma CommittedFileIsOnDisk(env: Env, trace: seq<State>, events: seq<Event>, i: nat, id: FileId)
    requires Run(env, trace, events) && i < |trace|
    ensures var s := trace[i];
      && (id in s.db.files ==>
        s.db.files[id] in s.disk.files && env.hash(s.disk.files[s.db.files[id]]) == s.db.files[id])
      && (id in s.db.files <==> exists ds :: Refers(s.db, ds, id))
  {
    RunInvariant(env, trace, events, i);
  }

  /** When recovery ends, the content directory holds exactly the digests of the file table. */
  lemma RecoveryIsExact(env: Env, trace: seq<State>, events: seq<Event>, i: nat)
    requires Run(env, trace, events) && i < |events| && events[i] == RecoverEnd
    ensures trace[i + 1].disk.files.Keys == Shas(trace[i + 1].db)
    ensures forall k | k in trace[i + 1].disk.chunks :: k.0 in trace[i + 1].db.datasets
  {
    RunInvariant(env, trace, events, i);
    var s, t := trace[i], trace[i + 1];
    assert Next(env, s, events[i]) == Some(t);
    forall d | d in Shas(t.db)
      ensures d in t.disk.files
    {
      var id :| id in t.db.files && t.db.files[id] == d;
    }
  }

  /**
   Once a publish has passed its chunk-table check, no merge step can fail for a missing,
   resized or altered chunk file, and a complete merge output is the concatenation of all chunks.
   */
  lemma MergeNeverConflicts(env: Env, trace: seq<State>, events: seq<Event>, i: nat, pid: Pid)
    requires Run(env, trace, events) && i < |events|
    requires pid in trace[i].procs && trace[i].procs[pid].PubMerging? && events[i] == Advance(pid)
    ensures var s, t, ds, n := trace[i], trace[i + 1], trace[i].procs[pid].ds, trace[i].procs[pid].done;
      && ds in s.db.datasets
      && (n < s.db.datasets[ds].count ==> pid in t.procs && t.procs[pid] == PubMerging(ds, n + 1))
      && (n == s.db.datasets[ds].count && pid in t.procs ==>
            && t.procs[pid] == PubMerged(ds) && Complete(s.db, ds)
            && AllIntact(env.hash, s.disk.chunks, ds, Rows(s.db, ds, n))
            && ds in t.disk.tmp && t.disk.tmp[ds] == Merged(s.disk.chunks, ds, Rows(s.db, ds, n)))
  {
    RunInvariant(env, trace, events, i);
    var s := trace[i];
    assert ProcOk(env, s, pid);
    assert Next(env, s, events[i]) == Some(trace[i + 1]);
    if s.procs[pid].done < s.db.datasets[s.procs[pid].ds].count {
      MergeMeetsItsChunk(env, s, pid);
    }
  }

  lemma {:induction false} MergedLength(env: Env, s: State, ds: DatasetId, n: nat)
    requires ChunkRowsOk(env, s) && Complete(s.db, ds) && n <= s.db.datasets[ds].count
    requires AllIntact(env.hash, s.disk.chunks, ds, Rows(s.db, ds, n))
    ensures var d := s.db.datasets[ds];
      |Merged(s.disk.chunks, ds, Rows(s.db, ds, n))| == PlannedBytes(d.total, d.chunk, d.count, n)
  {
    if n == 0 {
    } else {
      assert Rows(s.db, ds, n)[..n - 1] == Rows(s.db, ds, n - 1);
      MergedLength(env, s, ds, n - 1);
      assert (ds, n - 1) in s.db.chunks;
    }
  }

  /** The number of bytes a published dataset really has, from the numbers in its row. */
  function StoredSize(d: Dataset): int {
    if d.total + d.chunk - 1 <= INT64_MAX then d.total else 0
  }

  /**
   A published dataset's file hashes to the declared digest, and holds exactly the declared
   number of bytes if and only if the chunk count was computed without wrapping around; in the
   wrapped case the count is 0 and the file empty. (Sizes assume that equal digests mean equal content.)
   */
  lemma PublishedContent(env: Env, trace: seq<State>, events: seq<Event>, i: nat, ds: DatasetId)
    requires Run(env, trace, events) && i < |trace|
    requires ds in trace[i].db.datasets && trace[i].db.datasets[ds].status == Published
    requires Injective(env.hash)
    ensures var s, d := trace[i], trace[i].db.datasets[ds];
      && d.sha in s.disk.files
      && env.hash(s.disk.files[d.sha]) == d.sha
      && |s.disk.files[d.sha]| == StoredSize(d)
      && (|s.disk.files[d.sha]| == d.total <==> d.total + d.chunk - 1 <= INT64_MAX)
      && (if d.total + d.chunk - 1 <= INT64_MAX then d.count > 0 else d.count == 0)
  {
    RunInvariant(env, trace, events, i);
    var s, d := trace[i], trace[i].db.datasets[ds];
    assert Refers(s.db, ds, d.fileId.value);
    assert MergesToSha(env, s, ds);
    var bytes := Merged(s.disk.chunks, ds, Rows(s.db, ds, d.count));
    assert env.hash(s.disk.files[d.sha]) == env.hash(bytes);
    MergedLength(env, s, ds, d.count);
    TilesIffNoWrap(d.total, d.chunk);
    if d.total + d.chunk - 1 > INT64_MAX {
      WrappedCount(d.total, d.chunk);
    }
  }

  lemma WrappedCount(total: int, chunk: int)
    requires 0 < total <= INT64_MAX && 0 < chunk <= INT64_MAX && total + chunk - 1 > INT64_MAX
    ensures ChunkCount(total, chunk) <= 0
  {
    var w := Wrap64(total + chunk - 1);
    assert w < 0;
    QuotientNonNegative(-w, chunk);
  }

  // ---- The wrapped case happens

  /** The states of a publish without any chunk: the declared digest is the empty file's, and the count wrapped to 0. */
  function EmptyRunState(env: Env, i: nat): State
    requires i <= 11
  {
    var sha := env.hash([]);
    var d := Dataset(Uploading, INT64_MAX, INT64_MAX, 0, sha, None);
    var created := INITIAL.(mode := Serving, db := INITIAL.db.(datasets := map[0 := d]), nextDataset := 1);
    var locked := created.(rows := map[0 := 0]);
    var merged := locked.(disk := INITIAL.disk.(tmp := map[0 := []]));
    var keyed := merged.(keys := map[env.lockKey(sha) := 0]);
    var promoted := keyed.(disk := INITIAL.disk.(files := map[sha := []]));
    match i
    case 0 => INITIAL
    case 1 => INITIAL.(mode := Recovering({}))
    case 2 => INITIAL.(mode := Serving)
    case 3 => created
    case 4 => merged.(procs := map[0 := PubMerging(0, 0)])
    case 5 => merged.(procs := map[0 := PubMerged(0)])
    case 6 => keyed.(procs := map[0 := PubKeyed(0)])
    case 7 => keyed.(procs := map[0 := PubAbsent(0)])
    case 8 => keyed.(procs := map[0 := PubStatted(0, false)])
    case 9 => promoted.(procs := map[0 := PubPromoted(0)])
    case 10 => promoted.(procs := map[0 := PubInserted(0, 0)], nextFile := 1)
    case _ =>
      created.(
        disk := promoted.disk, nextFile := 1,
        db := Db(map[0 := sha], map[0 := d.(status := Published, fileId := Some(0))], map[]))
  }

  function EmptyRunEvent(env: Env, i: nat): Event
    requires i < 11
  {
    match i
    case 0 => RecoverBegin
    case 1 => RecoverEnd
    case 2 => Create(INT64_MAX, INT64_MAX, env.hash([]))
    case 3 => BeginPublish(0, 0)
    case _ => Advance(0)
  }

  lemma EmptyRunStarts(env: Env, i: nat)
    requires i < 4
    ensures Next(env, EmptyRunState(env, i), EmptyRunEvent(env, i)) == Some(EmptyRunState(env, i + 1))
  {
    WrapLosesEveryChunk();
    assert Shas(INITIAL.db) == {};
    ResetNothing(INITIAL.db.datasets);
  }

  lemma ResetNothing(datasets: map<DatasetId, Dataset>)
    requires forall d | d in datasets :: datasets[d].status != Merging
    ensures (map d | d in datasets :: ResetMerging(datasets[d])) == datasets
  {
  }

  lemma EmptyRunMerges(env: Env, i: nat)
    requires 4 <= i < 8
    ensures Next(env, EmptyRunState(env, i), Advance(0)) == Some(EmptyRunState(env, i + 1))
  {
    var s, t := EmptyRunState(env, i), EmptyRunState(env, i + 1);
    assert Shas(s.db) == {};
    assert s.procs[0 := t.procs[0]] == t.procs;
    if i == 5 {
      assert s.keys[env.lockKey(env.hash([])) := 0] == t.keys;
    }
    assert StepUpload(env, s, 0).None? && StepPublish(env, s, 0) == Some(t);
  }

  lemma EmptyRunPromotes(env: Env, i: nat)
    requires 8 <= i < 10
    ensures Next(env, EmptyRunState(env, i), Advance(0)) == Some(EmptyRunState(env, i + 1))
  {
    var s, t := EmptyRunState(env, i), EmptyRunState(env, i + 1);
    if i == 8 {
      assert s.disk.files[env.hash([]) := s.disk.tmp[0]] == t.disk.files && s.disk.tmp - {0} == t.disk.tmp;
    }
    assert s.procs[0 := t.procs[0]] == t.procs;
    assert StepUpload(env, s, 0).None? && StepPublish(env, s, 0) == Some(t);
  }

  lemma EmptyRunCommits(env: Env)
    ensures Next(env, EmptyRunState(env, 10), Advance(0)) == Some(EmptyRunState(env, 11))
  {
    var s, t := EmptyRunState(env, 10), EmptyRunState(env, 11);
    var d := s.db.datasets[0].(status := Published, fileId := Some(0));
    ReleaseOnly(s, 0);
    InsertedCommits(env, s, 0);
    assert s.db.files[0 := env.hash([])] == t.db.files && s.db.datasets[0 := d] == t.db.datasets;
  }

  lemma InsertedCommits(env: Env, s: State, pid: Pid)
    requires pid in s.procs && s.procs[pid].PubInserted? && s.procs[pid].ds in s.db.datasets
    ensures var ds, id := s.procs[pid].ds, s.procs[pid].id;
            Next(env, s, Advance(pid)) == Some(Release(s, pid).(db :=
              Link(s.db.(files := s.db.files[id := s.db.datasets[ds].sha]), ds, id)))
  {
    assert StepUpload(env, s, pid).None?;
  }

  lemma ReleaseOnly(s: State, pid: Pid)
    requires s.procs.Keys == {pid}
    requires (forall ds | ds in s.rows :: s.rows[ds] == pid) && forall k | k in s.keys :: s.keys[k] == pid
    ensures Release(s, pid) == s.(procs := map[], rows := map[], keys := map[])
  {
    var t := Release(s, pid);
    assert forall ds :: ds !in t.rows;
    assert forall k :: k !in t.keys;
    assert t.procs == map[] && t.rows == map[] && t.keys == map[];
  }

  /** A concrete run of eleven steps that ends with the largest dataset published as an empty file. */
  lemma EmptyPublishHappens(env: Env) returns (trace: seq<State>, events: seq<Event>)
    ensures Run(env, trace, events) && |events| == 11
    ensures 0 in trace[11].db.datasets
    ensures var d := trace[11].db.datasets[0];
      && d.status == Published && d.total == INT64_MAX
      && d.sha in trace[11].disk.files && trace[11].disk.files[d.sha] == []
  {
    trace := seq(12, i requires 0 <= i < 12 => EmptyRunState(env, i));
    events := seq(11, i requires 0 <= i < 11 => EmptyRunEvent(env, i));
    forall i | 0 <= i < 11
      ensures Next(env, trace[i], events[i]) == Some(trace[i + 1])
    {
      if i < 4 {
        EmptyRunStarts(env, i);
      } else if i < 8 {
        EmptyRunMerges(env, i);
      } else if i < 10 {
        EmptyRunPromotes(env, i);
      } else {
        EmptyRunCommits(env);
      }
    }
  }

  /** The chunk row and chunk file of an accepted chunk. */
  ghost predicate HasChunk(s: State, k: ChunkKey, row: ChunkRow, body: Bytes) {
    && k in s.db.chunks && s.db.chunks[k] == row
    && k in s.disk.chunks && s.disk.chunks[k] == body
  }

  /**
   The first accepted content of a chunk stays: no later upload, publish, crash or recovery
   changes a committed chunk while its dataset exists.
   */
  lemma {:induction false} FirstChunkStays(
      env: Env, trace: seq<State>, events: seq<Event>, i: nat, j: nat, k: ChunkKey, row: ChunkRow, body: Bytes)
    requires Run(env, trace, events) && i <= j < |trace|
    requires HasChunk(trace[i], k, row, body)
    requires k.0 in trace[j].db.datasets
    ensures HasChunk(trace[j], k, row, body)
    decreases j - i
  {
    if i >= j {
    } else {
      ChunkStaysInRun(env, trace, events, i, j, k, row, body);
      FirstChunkStays(env, trace, events, i + 1, j, k, row, body);
    }
  }

  lemma ChunkStaysInRun(
      env: Env, trace: seq<State>, events: seq<Event>, i: nat, j: nat, k: ChunkKey, row: ChunkRow, body: Bytes)
    requires Run(env, trace, events) && i < j < |trace|
    requires HasChunk(trace[i], k, row, body)
    requires k.0 in trace[j].db.datasets
    ensures HasChunk(trace[i + 1], k, row, body)
  {
    DatasetKnown(env, trace, events, i, k);
    DatasetIdsNotReused(env, trace, events, i + 1, j, k.0);
    ChunkStaysThere(env, trace, events, i, k, row, body);
  }

  lemma DatasetKnown(env: Env, trace: seq<State>, events: seq<Event>, i: nat, k: ChunkKey)
    requires Run(env, trace, events) && i < |events|
    requires k in trace[i].db.chunks
    ensures k.0 < trace[i + 1].nextDataset
  {
    RunInvariant(env, trace, events, i);
    SequenceGrows(env, trace[i], events[i], trace[i + 1]);
  }

  lemma ChunkStaysThere(
      env: Env, trace: seq<State>, events: seq<Event>, i: nat, k: ChunkKey, row: ChunkRow, body: Bytes)
    requires Run(env, trace, events) && i < |events|
    requires HasChunk(trace[i], k, row, body)
    requires k.0 in trace[i + 1].db.datasets
    ensures HasChunk(trace[i + 1], k, row, body)
  {
    RunInvariant(env, trace, events, i);
    ChunkStaysOneStep(env, trace[i], events[i], trace[i + 1], k, row, body);
  }

  /** A dataset that has disappeared does not come back. */
  lemma {:induction false} DatasetIdsNotReused(env: Env, trace: seq<State>, events: seq<Event>, i: nat, j: nat,
      ds: DatasetId)
    requires Run(env, trace, events) && i <= j < |trace|
    requires ds in trace[j].db.datasets && ds < trace[i].nextDataset
    ensures ds in trace[i].db.datasets
    decreases j - i
  {
    if i >= j {
    } else {
      SequenceGrows(env, trace[i], events[i], trace[i + 1]);
      DatasetIdsNotReused(env, trace, events, i + 1, j, ds);
    }
  }

  ghost predicate SequenceStep(s: State, t: State) {
    && s.nextDataset <= t.nextDataset
    && forall ds | ds in t.db.datasets && ds < s.nextDataset :: ds in s.db.datasets
  }

  lemma SequenceGrows(env: Env, s: State, e: Event, t: State)
    requires Next(env, s, e) == Some(t)
    ensures SequenceStep(s, t)
  {
    if e.Advance? {
      SequenceAdvance(env, s, e.pid, t);
    }
  }

  lemma SequenceAdvance(env: Env, s: State, pid: Pid, t: State)
    requires pid in s.procs
    requires StepUpload(env, s, pid) == Some(t) || StepPublish(env, s, pid) == Some(t)
      || StepDelete(env, s, pid) == Some(t) || StepGc(env, s, pid) == Some(t)
    ensures SequenceStep(s, t)
  {
    if StepUpload(env, s, pid) == Some(t) {
    } else if StepPublish(env, s, pid) == Some(t) {
      SequencePublish(env, s, pid, t);
    } else if StepDelete(env, s, pid) == Some(t) {
    }
  }

  lemma SequencePublish(env: Env, s: State, pid: Pid, t: State)
    requires pid in s.procs && StepPublish(env, s, pid) == Some(t)
    ensures SequenceStep(s, t)
  {
  }

  lemma ChunkStaysOneStep(env: Env, s: State, e: Event, t: State, k: ChunkKey, row: ChunkRow, body: Bytes)
    requires Inv(env, s) && Next(env, s, e) == Some(t)
    requires HasChunk(s, k, row, body) && k.0 in t.db.datasets
    ensures HasChunk(t, k, row, body)
  {
    assert k.0 in s.db.datasets;
    if e.Advance? {
      assert ProcOk(env, s, e.pid);
      ChunkStaysAdvance(env, s, e.pid, t, k, row, body);
    } else {
      ChunkStaysElse(env, s, e, t, k, row, body);
    }
  }

  lemma ChunkStaysElse(env: Env, s: State, e: Event, t: State, k: ChunkKey, row: ChunkRow, body: Bytes)
    requires !e.Advance? && Next(env, s, e) == Some(t)
    requires HasChunk(s, k, row, body) && k.0 in s.db.datasets
    ensures HasChunk(t, k, row, body)
  {
  }

  lemma ChunkStaysAdvance(env: Env, s: State, pid: Pid, t: State, k: ChunkKey, row: ChunkRow, body: Bytes)
    requires pid in s.procs && ProcOk(env, s, pid)
    requires StepUpload(env, s, pid) == Some(t) || StepPublish(env, s, pid) == Some(t)
      || StepDelete(env, s, pid) == Some(t) || StepGc(env, s, pid) == Some(t)
    requires HasChunk(s, k, row, body) && k.0 in s.db.datasets && k.0 in t.db.datasets
    ensures HasChunk(t, k, row, body)
  {
    if StepUpload(env, s, pid) == Some(t) {
    } else if StepPublish(env, s, pid) == Some(t) {
      PublishLeavesChunks(env, s, pid, t);
    } else if StepDelete(env, s, pid) == Some(t) {
      DeleteLeavesChunks(env, s, pid, t, k, row, body);
    }
  }

  lemma PublishLeavesChunks(env: Env, s: State, pid: Pid, t: State)
    requires pid in s.procs && StepPublish(env, s, pid) == Some(t)
    ensures t.db.chunks == s.db.chunks && t.disk.chunks == s.disk.chunks
  {
    if s.procs[pid].PubMerging? {
      MergingLeavesChunks(env, s, pid, t);
    } else if s.procs[pid].PubFound? || s.procs[pid].PubInserted? {
      CommitLeavesChunks(env, s, pid, t);
    }
  }

  lemma MergingLeavesChunks(env: Env, s: State, pid: Pid, t: State)
    requires pid in s.procs && StepPublish(env, s, pid) == Some(t) && s.procs[pid].PubMerging?
    ensures t.db.chunks == s.db.chunks && t.disk.chunks == s.disk.chunks
  {
  }

  lemma CommitLeavesChunks(env: Env, s: State, pid: Pid, t: State)
    requires pid in s.procs && StepPublish(env, s, pid) == Some(t)
    requires s.procs[pid].PubFound? || s.procs[pid].PubInserted?
    ensures t.db.chunks == s.db.chunks && t.disk.chunks == s.disk.chunks
  {
  }

  lemma DeleteLeavesChunks(env: Env, s: State, pid: Pid, t: State, k: ChunkKey, row: ChunkRow, body: Bytes)
    requires pid in s.procs && StepDelete(env, s, pid) == Some(t)
    requires s.procs[pid].Cleanup? ==> s.procs[pid].ds !in s.db.datasets
    requires HasChunk(s, k, row, body) && k.0 in s.db.datasets && k.0 in t.db.datasets
    ensures HasChunk(t, k, row, body)
  {
    DeleteLeavesFiles(env, s, pid, t, k);
  }

  lemma DeleteLeavesFiles(env: Env, s: State, pid: Pid, t: State, k: ChunkKey)
    requires pid in s.procs && StepDelete(env, s, pid) == Some(t)
    requires s.procs[pid].Cleanup? ==> s.procs[pid].ds != k.0
    requires k in s.disk.chunks
    ensures k in t.disk.chunks && t.disk.chunks[k] == s.disk.chunks[k]
  {
  }
}
