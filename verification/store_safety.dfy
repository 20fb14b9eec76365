/**
 Safety of the store protocol: every step keeps the invariant, so every reachable state has it.
 */
module StoreSafety {
  import opened Wrappers
  import opened ChunkPlan
  import opened Hashing
  import opened FileStorage
  import opened StoreProtocol

  /** What a step by `pid` may do to the process table and to the row ids. */
  ghost predicate OnlyMoves(s: State, t: State, pid: Pid) {
    && (forall q | q in s.procs && q != pid :: q in t.procs && t.procs[q] == s.procs[q])
    && (forall q | q in t.procs && q != pid :: q in s.procs)
    && t.nextFile >= s.nextFile && t.nextDataset >= s.nextDataset
    && (forall id | id in t.db.files && id !in s.db.files ::
          pid in s.procs && s.procs[pid].PubInserted? && s.procs[pid].id == id)
    && t.db.datasets.Keys <= s.db.datasets.Keys
  }

  lemma OtherProcs(env: Env, s: State, t: State, pid: Pid, q: Pid)
    requires forall p | p in s.procs :: ProcOk(env, s, p)
    requires PendingDistinct(s) && OnlyMoves(s, t, pid)
    requires LocksOf(s, t, pid) && ChangesLocked(env, s, t, pid)
    requires ReferencesExact(s.db) && ReferencesExact(t.db)
    requires q in t.procs && q != pid
    ensures ProcOk(env, t, q)
  {
    FrameOthers(env, s, t, pid, q);
    assert ProcOk(env, s, q);
    ProcStays(env, s, t, q);
  }

  lemma StepKeeps(env: Env, s: State, t: State, pid: Pid)
    requires Inv(env, s)
    requires OnlyMoves(s, t, pid) && LocksOf(s, t, pid) && ChangesLocked(env, s, t, pid)
    requires GlobalOk(env, t)
    requires pid in t.procs ==> ProcOk(env, t, pid)
    requires pid in t.procs && t.procs[pid].PubInserted? ==> t.procs[pid].id == s.nextFile
    ensures Inv(env, t)
  {
    forall q | q in t.procs
      ensures ProcOk(env, t, q)
    {
      if q != pid {
        OtherProcs(env, s, t, pid, q);
      }
    }
    forall p, q | p in t.procs && q in t.procs && p != q && t.procs[p].PubInserted? && t.procs[q].PubInserted?
      ensures t.procs[p].id != t.procs[q].id
    {
      if p != pid { assert ProcOk(env, s, p); }
      if q != pid { assert ProcOk(env, s, q); }
    }
  }

  /** Steps that touch neither the database nor published or chunk files keep the global part. */
  lemma QuietGlobal(env: Env, s: State, t: State)
    requires GlobalOk(env, s) && ModeOk(t)
    requires t.db == s.db && t.disk.files == s.disk.files && t.disk.chunks == s.disk.chunks
    requires t.nextFile >= s.nextFile && t.nextDataset >= s.nextDataset
    ensures GlobalOk(env, t)
  {
    forall ds | ds in t.db.datasets && t.db.datasets[ds].status == Published
      ensures MergesToSha(env, t, ds)
    {
      assert MergesToSha(env, s, ds);
    }
  }

  // ---- Frames of a step

  /** The lock tables after a step by `pid`: the others keep what they hold. */
  ghost predicate LocksOf(s: State, t: State, pid: Pid) {
    && (forall ds | ds in s.rows && s.rows[ds] != pid :: ds in t.rows && t.rows[ds] == s.rows[ds])
    && (forall k | k in s.keys && s.keys[k] != pid :: k in t.keys && t.keys[k] == s.keys[k])
  }

  ghost predicate OwnsRow(s: State, pid: Pid, ds: DatasetId) {
    ds in s.rows && s.rows[ds] == pid
  }

  /** Changed datasets are row-locked by `pid` or locked by nobody, changed digests are locked by `pid`. */
  ghost predicate ChangesLocked(env: Env, s: State, t: State, pid: Pid) {
    && (forall ds :: OwnsRow(s, pid, ds) || ds !in s.rows || RowAgrees(s, t, ds))
    && (forall sha :: HasKey(env, s, pid, sha) || KeyAgrees(s, t, sha))
  }

  lemma FrameOthers(env: Env, s: State, t: State, pid: Pid, q: Pid)
    requires q != pid
    requires LocksOf(s, t, pid)
    requires ChangesLocked(env, s, t, pid)
    ensures LocksKept(env, s, t, q)
  {
    forall ds | ds in s.rows && s.rows[ds] == q
      ensures ds in t.rows && t.rows[ds] == q && RowAgrees(s, t, ds)
    {
      assert OwnsRow(s, pid, ds) || ds !in s.rows || RowAgrees(s, t, ds);
    }
    forall sha | HasKey(env, s, q, sha)
      ensures HasKey(env, t, q, sha) && KeyAgrees(s, t, sha)
    {
      var k := env.lockKey(sha);
      assert k in s.keys && s.keys[k] != pid;
      assert HasKey(env, s, pid, sha) || KeyAgrees(s, t, sha);
    }
  }

  lemma SameKeyViews(s: State, t: State)
    requires s.db.files == t.db.files && s.db.datasets == t.db.datasets && s.disk.files == t.disk.files
    ensures forall sha :: KeyAgrees(s, t, sha)
  {
  }

  // ---- Starting and ending a request

  ghost predicate TmpAgrees(s: State, t: State, ds: DatasetId) {
    && (ds in s.disk.tmp <==> ds in t.disk.tmp)
    && (ds in s.disk.tmp ==> s.disk.tmp[ds] == t.disk.tmp[ds])
  }

  /** A step that only moves `pid`, its locks and merge outputs. */
  ghost predicate Quiet(s: State, t: State, pid: Pid) {
    && OnlyMoves(s, t, pid) && LocksOf(s, t, pid)
    && t.db == s.db && t.disk.files == s.disk.files && t.disk.chunks == s.disk.chunks
    && (forall ds :: OwnsRow(s, pid, ds) || ds !in s.rows || TmpAgrees(s, t, ds))
  }

  lemma QuietLocked(env: Env, s: State, t: State, pid: Pid)
    requires Quiet(s, t, pid)
    ensures ChangesLocked(env, s, t, pid)
  {
    SameKeyViews(s, t);
    forall ds
      ensures OwnsRow(s, pid, ds) || ds !in s.rows || RowAgrees(s, t, ds)
    {
      assert OwnsRow(s, pid, ds) || ds !in s.rows || TmpAgrees(s, t, ds);
    }
  }

  lemma QuietStep(env: Env, s: State, t: State, pid: Pid)
    requires Inv(env, s) && ModeOk(t)
    requires Quiet(s, t, pid)
    requires pid in t.procs ==> ProcOk(env, t, pid)
    requires pid in t.procs && t.procs[pid].PubInserted? ==> t.procs[pid].id == s.nextFile
    ensures Inv(env, t)
  {
    QuietGlobal(env, s, t);
    QuietLocked(env, s, t, pid);
    StepKeeps(env, s, t, pid);
  }

  lemma StartIsQuiet(env: Env, s: State, e: Event, t: State)
    requires e.BeginUpload? || e.BeginPublish? || e.BeginDelete?
    requires StartStep(env, s, e) == Some(t)
    ensures Quiet(s, t, e.pid)
  {
  }

  lemma StartedOk(env: Env, s: State, e: Event, t: State)
    requires e.BeginUpload? || e.BeginPublish? || e.BeginDelete?
    requires StartStep(env, s, e) == Some(t)
    ensures ModeOk(s) ==> ModeOk(t)
    ensures e.pid in t.procs && !t.procs[e.pid].PubInserted? && ProcOk(env, t, e.pid)
  {
  }

  lemma StartKeeps(env: Env, s: State, e: Event, t: State)
    requires Inv(env, s)
    requires e.BeginUpload? || e.BeginPublish? || e.BeginDelete?
    requires StartStep(env, s, e) == Some(t)
    ensures Inv(env, t)
  {
    StartIsQuiet(env, s, e, t);
    StartedOk(env, s, e, t);
    QuietStep(env, s, t, e.pid);
  }

  lemma ReleaseIsQuiet(s: State, pid: Pid)
    ensures Quiet(s, Release(s, pid), pid)
  {
  }

  lemma ReleaseKeeps(env: Env, s: State, pid: Pid)
    requires Inv(env, s) && pid in s.procs
    ensures Inv(env, Release(s, pid))
  {
    ReleaseIsQuiet(s, pid);
    QuietStep(env, s, Release(s, pid), pid);
  }

  // ---- Uploads

  /** A step that changes chunk files or chunk rows of one dataset, whose row `pid` has locked. */
  ghost predicate ChunkStep(s: State, t: State, pid: Pid, ds: DatasetId) {
    && OnlyMoves(s, t, pid) && LocksOf(s, t, pid)
    && t.db.files == s.db.files && t.db.datasets == s.db.datasets && t.disk.files == s.disk.files
    && t.nextFile == s.nextFile && t.nextDataset == s.nextDataset
    && (forall d | d != ds :: RowAgrees(s, t, d))
  }

  /** Chunk files and rows of an unpublished dataset may change as long as the rows stay right. */
  lemma ChunkChangeGlobal(env: Env, s: State, t: State, pid: Pid, ds: DatasetId)
    requires GlobalOk(env, s) && ModeOk(t)
    requires ChunkStep(s, t, pid, ds)
    requires ChunkRowsOk(env, t)
    requires ds in s.db.datasets ==> s.db.datasets[ds].status != Published
    ensures GlobalOk(env, t)
  {
    forall d | d in t.db.datasets && t.db.datasets[d].status == Published
      ensures MergesToSha(env, t, d)
    {
      assert MergesToSha(env, s, d);
      MergesFrame(env, s, t, d);
    }
    SameReferences(s.db, t.db);
  }

  lemma ChunkLocked(env: Env, s: State, t: State, pid: Pid, ds: DatasetId)
    requires ChunkStep(s, t, pid, ds)
    requires OwnsRow(s, pid, ds) || ds !in s.rows
    ensures ChangesLocked(env, s, t, pid)
  {
    SameKeyViews(s, t);
  }

  lemma ChunkStepKeeps(env: Env, s: State, t: State, pid: Pid, ds: DatasetId)
    requires Inv(env, s) && ModeOk(t)
    requires ChunkStep(s, t, pid, ds)
    requires OwnsRow(s, pid, ds) || ds !in s.rows
    requires ChunkRowsOk(env, t)
    requires ds in s.db.datasets ==> s.db.datasets[ds].status != Published
    requires pid in t.procs ==> ProcOk(env, t, pid) && !t.procs[pid].PubInserted?
    ensures Inv(env, t)
  {
    ChunkChangeGlobal(env, s, t, pid, ds);
    ChunkLocked(env, s, t, pid, ds);
    StepKeeps(env, s, t, pid);
  }

  lemma WriteLocal(env: Env, s: State, t: State, pid: Pid)
    requires pid in s.procs && s.procs[pid].UpLocked? && ProcOk(env, s, pid)
    requires StepUpload(env, s, pid) == Some(t)
    ensures ChunkStep(s, t, pid, s.procs[pid].ds)
    ensures pid in t.procs && ProcOk(env, t, pid) && !t.procs[pid].PubInserted?
  {
  }

  lemma WriteRows(env: Env, s: State, t: State, pid: Pid)
    requires pid in s.procs && s.procs[pid].UpLocked? && ProcOk(env, s, pid)
    requires StepUpload(env, s, pid) == Some(t)
    requires ChunkRowsOk(env, s)
    ensures ChunkRowsOk(env, t)
  {
  }

  lemma CommitLocal(env: Env, s: State, t: State, pid: Pid)
    requires pid in s.procs && s.procs[pid].UpWritten? && ProcOk(env, s, pid)
    requires StepUpload(env, s, pid) == Some(t)
    ensures ChunkStep(s, t, pid, s.procs[pid].ds)
    ensures pid !in t.procs
  {
  }

  lemma CommitRows(env: Env, s: State, t: State, pid: Pid)
    requires pid in s.procs && s.procs[pid].UpWritten? && ProcOk(env, s, pid)
    requires StepUpload(env, s, pid) == Some(t)
    requires ChunkRowsOk(env, s)
    ensures ChunkRowsOk(env, t)
  {
    var ds, i := s.procs[pid].ds, s.procs[pid].index;
    forall k | k in t.db.chunks
      ensures k.0 in t.db.datasets && k.1 < t.db.datasets[k.0].count
      ensures t.db.chunks[k].index == k.1 && t.db.chunks[k].size == Expected(t.db.datasets[k.0], k.1)
      ensures Intact(env.hash, t.disk.chunks, k.0, t.db.chunks[k])
    {
      if k != (ds, i) {
        assert k in s.db.chunks;
      }
    }
  }

  lemma UploadKeeps(env: Env, s: State, t: State, pid: Pid)
    requires Inv(env, s) && pid in s.procs
    requires StepUpload(env, s, pid) == Some(t)
    ensures Inv(env, t)
  {
    assert ProcOk(env, s, pid);
    if s.procs[pid].UpLocked? {
      WriteLocal(env, s, t, pid);
      WriteRows(env, s, t, pid);
    } else {
      CommitLocal(env, s, t, pid);
      CommitRows(env, s, t, pid);
    }
    ChunkStepKeeps(env, s, t, pid, s.procs[pid].ds);
  }

  lemma SameReferences(a: Db, b: Db)
    requires ReferencesExact(a) && a.datasets == b.datasets && a.files == b.files
    ensures ReferencesExact(b)
  {
    forall id | id in b.files
      ensures exists ds :: Refers(b, ds, id)
    {
      var ds :| Refers(a, ds, id);
      assert Refers(b, ds, id);
    }
    forall ds, id | Refers(b, ds, id)
      ensures id in b.files && b.files[id] == b.datasets[ds].sha
    {
      assert Refers(a, ds, id);
    }
  }

  // ---- Publishing: the steps before commit

  lemma {:induction false} RowsGrow(env: Env, s: State, ds: DatasetId, n: nat)
    requires Complete(s.db, ds) && n < s.db.datasets[ds].count
    requires AllIntact(env.hash, s.disk.chunks, ds, Rows(s.db, ds, n))
    requires Intact(env.hash, s.disk.chunks, ds, s.db.chunks[(ds, n)])
    ensures AllIntact(env.hash, s.disk.chunks, ds, Rows(s.db, ds, n + 1))
    ensures Merged(s.disk.chunks, ds, Rows(s.db, ds, n + 1))
         == Merged(s.disk.chunks, ds, Rows(s.db, ds, n)) + s.disk.chunks[(ds, s.db.chunks[(ds, n)].index)]
  {
    var rows := Rows(s.db, ds, n + 1);
    assert rows[..n] == Rows(s.db, ds, n);
    assert rows[n] == s.db.chunks[(ds, n)];
    forall row | row in rows
      ensures Intact(env.hash, s.disk.chunks, ds, row)
    {
      assert row in rows[..n] || row == rows[n];
    }
  }

  /** In a reachable state every chunk the merge comes to is on disk as recorded. */
  lemma MergeMeetsItsChunk(env: Env, s: State, pid: Pid)
    requires Inv(env, s) && pid in s.procs && s.procs[pid].PubMerging?
    requires s.procs[pid].done < s.db.datasets[s.procs[pid].ds].count
    ensures var ds, n := s.procs[pid].ds, s.procs[pid].done;
      (ds, n) in s.db.chunks && Intact(env.hash, s.disk.chunks, ds, s.db.chunks[(ds, n)])
  {
    assert ProcOk(env, s, pid);
    var ds, n := s.procs[pid].ds, s.procs[pid].done;
    assert (ds, n) in s.db.chunks;
  }

  lemma MergeStepQuiet(env: Env, s: State, t: State, pid: Pid)
    requires pid in s.procs && s.procs[pid].PubMerging? && OwnsRow(s, pid, s.procs[pid].ds)
    requires StepPublish(env, s, pid) == Some(t)
    ensures Quiet(s, t, pid)
  {
  }

  lemma MergeStepLocal(env: Env, s: State, t: State, pid: Pid)
    requires pid in s.procs && s.procs[pid].PubMerging? && ProcOk(env, s, pid)
    requires StepPublish(env, s, pid) == Some(t)
    ensures Quiet(s, t, pid)
    ensures pid in t.procs ==> ProcOk(env, t, pid) && !t.procs[pid].PubInserted?
  {
    MergeStepQuiet(env, s, t, pid);
    var ds, n := s.procs[pid].ds, s.procs[pid].done;
    if n < s.db.datasets[ds].count {
      assert (ds, n) in s.db.chunks;
      if Intact(env.hash, s.disk.chunks, ds, s.db.chunks[(ds, n)]) {
        RowsGrow(env, s, ds, n);
        RowsFrame(env, s, t.(disk := t.disk.(tmp := s.disk.tmp)), ds, n + 1);
      }
    }
  }

  lemma KeyStepLocal(env: Env, s: State, t: State, pid: Pid)
    requires pid in s.procs && ProcOk(env, s, pid)
    requires s.procs[pid].PubMerged? || s.procs[pid].PubKeyed? || s.procs[pid].PubAbsent?
    requires StepPublish(env, s, pid) == Some(t)
    ensures Quiet(s, t, pid)
    ensures pid in t.procs && ProcOk(env, t, pid) && !t.procs[pid].PubInserted?
  {
    KeyStepQuiet(env, s, t, pid);
    assert MergesToSha(env, t, s.procs[pid].ds);
  }

  lemma KeyStepQuiet(env: Env, s: State, t: State, pid: Pid)
        requires pid in s.procs && (s.procs[pid].PubMerged? || s.procs[pid].PubKeyed? || s.procs[pid].PubAbsent?)
    requires OwnsRow(s, pid, s.procs[pid].ds)
    requires StepPublish(env, s, pid) == Some(t)
    ensures Quiet(s, t, pid)
  {
  }

  lemma InsertStepLocal(env: Env, s: State, t: State, pid: Pid)
    requires pid in s.procs && s.procs[pid].PubPromoted? && ProcOk(env, s, pid) && RowsRegular(s)
    requires StepPublish(env, s, pid) == Some(t)
    ensures Quiet(s, t, pid)
    ensures pid in t.procs && ProcOk(env, t, pid)
    ensures t.procs[pid].PubInserted? && t.procs[pid].id == s.nextFile
  {
    assert MergesToSha(env, t, s.procs[pid].ds);
  }

  lemma PromoteLocal(env: Env, s: State, t: State, pid: Pid)
    requires pid in s.procs && s.procs[pid].PubStatted? && ProcOk(env, s, pid)
    requires StepPublish(env, s, pid) == Some(t)
    ensures OnlyMoves(s, t, pid) && LocksOf(s, t, pid) && ChangesLocked(env, s, t, pid)
    ensures pid in t.procs && ProcOk(env, t, pid) && !t.procs[pid].PubInserted?
  {
    assert MergesToSha(env, t, s.procs[pid].ds);
  }

  lemma PromoteGlobal(env: Env, s: State, t: State, pid: Pid)
    requires pid in s.procs && s.procs[pid].PubStatted? && ProcOk(env, s, pid)
    requires GlobalOk(env, s)
    requires StepPublish(env, s, pid) == Some(t)
    ensures GlobalOk(env, t)
  {
    forall d | d in t.db.datasets && t.db.datasets[d].status == Published
      ensures MergesToSha(env, t, d)
    {
      assert MergesToSha(env, s, d);
    }
  }

  // ---- Publishing: the commit

  /** The database after publisher `pid` commits its file reference. */
  ghost predicate PublishCommit(env: Env, s: State, t: State, pid: Pid, ds: DatasetId, id: FileId) {
    && MergedAll(env, s, pid, ds) && HasKey(env, s, pid, s.db.datasets[ds].sha)
    && var sha := s.db.datasets[ds].sha;
       && sha in s.disk.files
       && t == Release(s, pid).(db := Link(s.db.(files := s.db.files[id := sha]), ds, id))
       && id < s.nextFile
       && (id in s.db.files ==> s.db.files[id] == sha)
       && (id !in s.db.files ==> sha !in Shas(s.db) && pid in s.procs && s.procs[pid] == PubInserted(ds, id))
  }

  lemma CommitIsPublish(env: Env, s: State, t: State, pid: Pid)
    requires pid in s.procs && (s.procs[pid].PubFound? || s.procs[pid].PubInserted?) && ProcOk(env, s, pid)
    requires FilesPresent(s) && RowsRegular(s)
    requires StepPublish(env, s, pid) == Some(t)
    ensures PublishCommit(env, s, t, pid, s.procs[pid].ds, s.procs[pid].id)
  {
    var ds, id := s.procs[pid].ds, s.procs[pid].id;
    if s.procs[pid].PubFound? {
      assert s.db.files[id := s.db.datasets[ds].sha] == s.db.files;
      assert s.db.(files := s.db.files[id := s.db.datasets[ds].sha]) == s.db;
    }
  }

  lemma CommitReferences(env: Env, s: State, t: State, pid: Pid, ds: DatasetId, id: FileId)
    requires PublishCommit(env, s, t, pid, ds, id)
    requires ReferencesExact(s.db) && OneRowPerDigest(s.db)
    ensures ReferencesExact(t.db) && OneRowPerDigest(t.db)
  {
    forall i | i in t.db.files
      ensures exists d :: Refers(t.db, d, i)
    {
      if i == id {
        assert Refers(t.db, ds, id);
      } else {
        var d :| Refers(s.db, d, i);
        assert d != ds;
        assert Refers(t.db, d, i);
      }
    }
    forall d, i | Refers(t.db, d, i)
      ensures i in t.db.files && t.db.files[i] == t.db.datasets[d].sha
    {
      if d != ds {
        assert Refers(s.db, d, i);
      }
    }
    forall a, b | a in t.db.files && b in t.db.files && t.db.files[a] == t.db.files[b]
      ensures a == b
    {
      assert forall i | i in s.db.files :: s.db.files[i] in Shas(s.db);
    }
  }

  lemma CommitMoves(env: Env, s: State, t: State, pid: Pid, ds: DatasetId, id: FileId)
    requires PublishCommit(env, s, t, pid, ds, id)
    ensures OnlyMoves(s, t, pid) && LocksOf(s, t, pid)
  {
  }

  lemma CommitFrames(env: Env, s: State, t: State, pid: Pid, ds: DatasetId, id: FileId)
    requires PublishCommit(env, s, t, pid, ds, id)
    requires ReferencesExact(s.db)
    ensures ChangesLocked(env, s, t, pid)
  {
    assert OwnsRow(s, pid, ds);
    forall d | d != ds
      ensures RowAgrees(s, t, d)
    {
    }
    forall sha
      ensures HasKey(env, s, pid, sha) || KeyAgrees(s, t, sha)
    {
      if sha != s.db.datasets[ds].sha {
        CommitKeyViews(s.db, t.db, ds, id, s.db.datasets[ds].sha, sha);
      }
    }
  }

  /** Other digests see the same rows and references. */
  lemma CommitKeyViews(a: Db, b: Db, ds: DatasetId, id: FileId, sha: Digest, other: Digest)
    requires ds in a.datasets && a.datasets[ds].fileId == None && sha != other
    requires id in a.files ==> a.files[id] == sha
    requires b == Link(a.(files := a.files[id := sha]), ds, id)
    ensures forall i :: HasSha(a, i, other) <==> HasSha(b, i, other)
    ensures forall d, i | HasSha(a, i, other) :: Refers(a, d, i) <==> Refers(b, d, i)
  {
  }

  lemma CommitVerified(env: Env, s: State, t: State, pid: Pid, ds: DatasetId, id: FileId)
    requires PublishCommit(env, s, t, pid, ds, id)
    requires PublishedVerified(env, s) && ChunkRowsOk(env, s)
    ensures PublishedVerified(env, t) && ChunkRowsOk(env, t)
  {
    forall d | d in t.db.datasets && t.db.datasets[d].status == Published
      ensures MergesToSha(env, t, d)
    {
      assert MergesToSha(env, s, d);
      assert t.db.datasets[d].count == s.db.datasets[d].count && t.db.datasets[d].sha == s.db.datasets[d].sha;
      assert Rows(t.db, d, t.db.datasets[d].count) == Rows(s.db, d, s.db.datasets[d].count);
    }
  }

  lemma PublishQuietly(env: Env, s: State, t: State, pid: Pid)
    requires pid in s.procs && ProcOk(env, s, pid) && RowsRegular(s)
    requires !s.procs[pid].PubFound? && !s.procs[pid].PubInserted? && !s.procs[pid].PubStatted?
    requires StepPublish(env, s, pid) == Some(t)
    ensures Quiet(s, t, pid)
    ensures pid in t.procs ==> ProcOk(env, t, pid)
    ensures pid in t.procs && t.procs[pid].PubInserted? ==> t.procs[pid].id == s.nextFile
    ensures t.mode == s.mode && t.rows.Keys <= s.rows.Keys
  {
    var p := s.procs[pid];
    if p.PubMerging? {
      MergeStepLocal(env, s, t, pid);
    } else if p.PubPromoted? {
      InsertStepLocal(env, s, t, pid);
    } else {
      KeyStepLocal(env, s, t, pid);
    }
  }

  lemma PromoteKeeps(env: Env, s: State, t: State, pid: Pid)
    requires Inv(env, s) && pid in s.procs && s.procs[pid].PubStatted?
    requires StepPublish(env, s, pid) == Some(t)
    ensures Inv(env, t)
  {
    PromoteLocal(env, s, t, pid);
    PromoteGlobal(env, s, t, pid);
    StepKeeps(env, s, t, pid);
  }

  lemma PublishKeeps(env: Env, s: State, t: State, pid: Pid)
    requires Inv(env, s) && pid in s.procs
    requires StepPublish(env, s, pid) == Some(t)
    ensures Inv(env, t)
  {
    if s.procs[pid].PubFound? || s.procs[pid].PubInserted? {
      CommitKeeps(env, s, t, pid);
    } else if s.procs[pid].PubStatted? {
      PromoteKeeps(env, s, t, pid);
    } else {
      assert ProcOk(env, s, pid);
      PublishQuietly(env, s, t, pid);
      QuietStep(env, s, t, pid);
    }
  }

  lemma CommitGlobal(env: Env, s: State, t: State, pid: Pid, ds: DatasetId, id: FileId)
    requires PublishCommit(env, s, t, pid, ds, id)
    requires GlobalOk(env, s) && pid in s.procs
    ensures GlobalOk(env, t)
  {
    CommitReferences(env, s, t, pid, ds, id);
    CommitVerified(env, s, t, pid, ds, id);
    CommitRest(env, s, t, pid, ds, id);
  }

  lemma CommitRest(env: Env, s: State, t: State, pid: Pid, ds: DatasetId, id: FileId)
    requires PublishCommit(env, s, t, pid, ds, id) && pid in s.procs
    requires FilesPresent(s) && ContentAddressed(env, s) && RowsRegular(s) && ModeOk(s)
    ensures FilesPresent(t) && ContentAddressed(env, t) && RowsRegular(t) && ModeOk(t)
  {
  }

  lemma CommitKeeps(env: Env, s: State, t: State, pid: Pid)
    requires Inv(env, s) && pid in s.procs
    requires s.procs[pid].PubFound? || s.procs[pid].PubInserted?
    requires StepPublish(env, s, pid) == Some(t)
    ensures Inv(env, t)
  {
    assert ProcOk(env, s, pid);
    var ds, id := s.procs[pid].ds, s.procs[pid].id;
    CommitIsPublish(env, s, t, pid);
    CommitMoves(env, s, t, pid, ds, id);
    CommitFrames(env, s, t, pid, ds, id);
    CommitGlobal(env, s, t, pid, ds, id);
    StepKeeps(env, s, t, pid);
  }

  // ---- Deleting

  lemma DeleteReads(env: Env, s: State, t: State, pid: Pid)
    requires pid in s.procs && ProcOk(env, s, pid) && ReferencesExact(s.db)
    requires s.procs[pid].DelLocked? && s.db.datasets[s.procs[pid].ds].fileId.Some?
    requires StepDelete(env, s, pid) == Some(t)
    ensures Quiet(s, t, pid)
    ensures pid in t.procs && ProcOk(env, t, pid) && !t.procs[pid].PubInserted?
    ensures t.mode == s.mode && t.rows.Keys <= s.rows.Keys
  {
    var ds := s.procs[pid].ds;
    DeleteReadsQuiet(env, s, t, pid);
    assert Refers(s.db, ds, s.db.datasets[ds].fileId.value);
  }

  lemma DeleteReadsQuiet(env: Env, s: State, t: State, pid: Pid)
    requires pid in s.procs && s.procs[pid].DelLocked? && HasRow(s, pid, s.procs[pid].ds)
    requires s.db.datasets[s.procs[pid].ds].fileId.Some?
    requires StepDelete(env, s, pid) == Some(t)
    ensures Quiet(s, t, pid)
  {
  }

  lemma DeleteLocksAndCounts(env: Env, s: State, t: State, pid: Pid)
    requires pid in s.procs && ProcOk(env, s, pid)
    requires s.procs[pid].DelRead? || s.procs[pid].DelKeyed?
    requires StepDelete(env, s, pid) == Some(t)
    ensures Quiet(s, t, pid)
    ensures pid in t.procs && ProcOk(env, t, pid) && !t.procs[pid].PubInserted?
    ensures t.mode == s.mode && t.rows.Keys <= s.rows.Keys
  {
  }

  /** The database after deleter `pid` commits, having dropped the file row or not. */
  ghost predicate DeleteCommit(env: Env, s: State, t: State, pid: Pid, ds: DatasetId, gc: Option<Digest>) {
    && HasRow(s, pid, ds)
    && (match s.db.datasets[ds].fileId
        case None =>
          t == Goto(Release(s, pid), pid, Cleanup(ds, gc)).(db := Unlink(s.db, ds))
        case Some(id) =>
          && id in s.db.files && HasKey(env, s, pid, s.db.files[id])
          && if Shared(s.db, ds, id)
             then t == Goto(Release(s, pid), pid, Cleanup(ds, gc)).(db := Unlink(s.db, ds))
             else t == Goto(Release(s, pid), pid,
               Cleanup(ds, gc)).(db := Unlink(s.db.(files := s.db.files - {id}), ds)))
  }

  lemma CommitIsDelete(env: Env, s: State, t: State, pid: Pid)
    requires pid in s.procs && ProcOk(env, s, pid)
    requires s.procs[pid].DelDecided?
      || (s.procs[pid].DelLocked? && s.procs[pid].ds in s.db.datasets && s.db.datasets[s.procs[pid].ds].fileId.None?)
    requires StepDelete(env, s, pid) == Some(t)
    ensures pid in t.procs && t.procs[pid].Cleanup?
    ensures DeleteCommit(env, s, t, pid, s.procs[pid].ds, t.procs[pid].gc)
  {
  }

  lemma UnlinkReferences(env: Env, s: State, t: State, pid: Pid, ds: DatasetId, gc: Option<Digest>)
    requires DeleteCommit(env, s, t, pid, ds, gc)
    requires ReferencesExact(s.db) && OneRowPerDigest(s.db)
    ensures ReferencesExact(t.db) && OneRowPerDigest(t.db)
  {
    forall i | i in t.db.files
      ensures exists d :: Refers(t.db, d, i)
    {
      var d :| Refers(s.db, d, i);
      if d == ds {
        var other :| other != ds && Refers(s.db, other, i);
        assert Refers(t.db, other, i);
      } else {
        assert Refers(t.db, d, i);
      }
    }
    forall d, i | Refers(t.db, d, i)
      ensures i in t.db.files && t.db.files[i] == t.db.datasets[d].sha
    {
      assert Refers(s.db, d, i);
    }
  }

  lemma UnlinkKeyViews(env: Env, s: State, t: State, pid: Pid, ds: DatasetId, gc: Option<Digest>, sha: Digest)
    requires DeleteCommit(env, s, t, pid, ds, gc)
    requires ReferencesExact(s.db)
    ensures HasKey(env, s, pid, sha) || KeyAgrees(s, t, sha)
  {
  }

  lemma UnlinkMoves(env: Env, s: State, t: State, pid: Pid, ds: DatasetId, gc: Option<Digest>)
    requires DeleteCommit(env, s, t, pid, ds, gc)
    ensures OnlyMoves(s, t, pid) && LocksOf(s, t, pid)
  {
  }

  lemma UnlinkRowViews(env: Env, s: State, t: State, pid: Pid, ds: DatasetId, gc: Option<Digest>)
    requires DeleteCommit(env, s, t, pid, ds, gc)
    ensures forall d | d != ds :: RowAgrees(s, t, d)
  {
  }

  lemma UnlinkFrames(env: Env, s: State, t: State, pid: Pid, ds: DatasetId, gc: Option<Digest>)
    requires DeleteCommit(env, s, t, pid, ds, gc)
    requires ReferencesExact(s.db)
    ensures ChangesLocked(env, s, t, pid)
  {
    UnlinkRowViews(env, s, t, pid, ds, gc);
    assert OwnsRow(s, pid, ds);
    forall sha
      ensures HasKey(env, s, pid, sha) || KeyAgrees(s, t, sha)
    {
      UnlinkKeyViews(env, s, t, pid, ds, gc, sha);
    }
  }

  lemma UnlinkVerified(env: Env, s: State, t: State, pid: Pid, ds: DatasetId, gc: Option<Digest>)
    requires DeleteCommit(env, s, t, pid, ds, gc)
    requires PublishedVerified(env, s)
    ensures PublishedVerified(env, t)
  {
    UnlinkRowViews(env, s, t, pid, ds, gc);
    forall d | d in t.db.datasets && t.db.datasets[d].status == Published
      ensures MergesToSha(env, t, d)
    {
      assert d != ds && MergesToSha(env, s, d);
      MergesFrame(env, s, t, d);
    }
  }

  lemma UnlinkChunkRows(env: Env, s: State, t: State, pid: Pid, ds: DatasetId, gc: Option<Digest>)
    requires DeleteCommit(env, s, t, pid, ds, gc)
    requires ChunkRowsOk(env, s)
    ensures ChunkRowsOk(env, t)
  {
  }

  lemma UnlinkRest(env: Env, s: State, t: State, pid: Pid, ds: DatasetId, gc: Option<Digest>)
    requires DeleteCommit(env, s, t, pid, ds, gc)
    requires pid in s.procs && FilesPresent(s) && ContentAddressed(env, s) && RowsRegular(s) && ModeOk(s)
    ensures FilesPresent(t) && ContentAddressed(env, t) && RowsRegular(t) && ModeOk(t)
  {
  }

  lemma UnlinkGlobal(env: Env, s: State, t: State, pid: Pid, ds: DatasetId, gc: Option<Digest>)
    requires DeleteCommit(env, s, t, pid, ds, gc)
    requires GlobalOk(env, s) && pid in s.procs
    ensures GlobalOk(env, t)
  {
    UnlinkReferences(env, s, t, pid, ds, gc);
    UnlinkVerified(env, s, t, pid, ds, gc);
    UnlinkChunkRows(env, s, t, pid, ds, gc);
    UnlinkRest(env, s, t, pid, ds, gc);
  }

  lemma UnlinkKeeps(env: Env, s: State, t: State, pid: Pid)
    requires Inv(env, s) && pid in s.procs
    requires s.procs[pid].DelDecided?
      || (s.procs[pid].DelLocked? && s.procs[pid].ds in s.db.datasets && s.db.datasets[s.procs[pid].ds].fileId.None?)
    requires StepDelete(env, s, pid) == Some(t)
    ensures Inv(env, t)
  {
    assert ProcOk(env, s, pid);
    CommitIsDelete(env, s, t, pid);
    var ds, gc := s.procs[pid].ds, t.procs[pid].gc;
    UnlinkMoves(env, s, t, pid, ds, gc);
    UnlinkFrames(env, s, t, pid, ds, gc);
    UnlinkGlobal(env, s, t, pid, ds, gc);
    StepKeeps(env, s, t, pid);
  }

  lemma CleanupLocal(env: Env, s: State, t: State, pid: Pid)
    requires pid in s.procs && s.procs[pid].Cleanup? && ProcOk(env, s, pid)
    requires ModeOk(s)
    requires StepDelete(env, s, pid) == Some(t)
    ensures ChunkStep(s, t, pid, s.procs[pid].ds) && s.procs[pid].ds !in s.rows
    ensures ModeOk(t)
    ensures pid in t.procs ==> t.procs[pid].GcWaiting?
  {
    CleanupFrame(env, s, t, pid);
  }

  lemma CleanupFrame(env: Env, s: State, t: State, pid: Pid)
    requires pid in s.procs && s.procs[pid].Cleanup?
    requires StepDelete(env, s, pid) == Some(t)
    ensures ChunkStep(s, t, pid, s.procs[pid].ds)
  {
  }

  lemma CleanupRows(env: Env, s: State, t: State, pid: Pid)
    requires pid in s.procs && s.procs[pid].Cleanup? && ProcOk(env, s, pid)
    requires ChunkRowsOk(env, s)
    requires StepDelete(env, s, pid) == Some(t)
    ensures ChunkRowsOk(env, t)
  {
    forall k | k in t.db.chunks
      ensures Intact(env.hash, t.disk.chunks, k.0, t.db.chunks[k])
    {
      assert k.0 != s.procs[pid].ds;
    }
  }

  lemma CleanupKeeps(env: Env, s: State, t: State, pid: Pid)
    requires Inv(env, s) && pid in s.procs && s.procs[pid].Cleanup?
    requires StepDelete(env, s, pid) == Some(t)
    ensures Inv(env, t)
  {
    assert ProcOk(env, s, pid);
    CleanupLocal(env, s, t, pid);
    CleanupRows(env, s, t, pid);
    ChunkStepKeeps(env, s, t, pid, s.procs[pid].ds);
  }

  lemma DeleteKeeps(env: Env, s: State, t: State, pid: Pid)
    requires Inv(env, s) && pid in s.procs
    requires StepDelete(env, s, pid) == Some(t)
    ensures Inv(env, t)
  {
    assert ProcOk(env, s, pid);
    var p := s.procs[pid];
    if p.Cleanup? {
      CleanupKeeps(env, s, t, pid);
    } else if p.DelDecided? || (p.DelLocked? && s.db.datasets[p.ds].fileId.None?) {
      UnlinkKeeps(env, s, t, pid);
    } else {
      if p.DelLocked? {
        DeleteReads(env, s, t, pid);
      } else {
        DeleteLocksAndCounts(env, s, t, pid);
      }
      QuietStep(env, s, t, pid);
    }
  }

  // ---- Garbage collection

  lemma GcQuietly(env: Env, s: State, t: State, pid: Pid)
    requires pid in s.procs && ProcOk(env, s, pid)
    requires s.procs[pid].GcWaiting? || s.procs[pid].GcKeyed?
    requires StepGc(env, s, pid) == Some(t)
    ensures Quiet(s, t, pid)
    ensures pid in t.procs && ProcOk(env, t, pid) && !t.procs[pid].PubInserted?
    ensures t.mode == s.mode && t.rows.Keys <= s.rows.Keys
  {
  }

  lemma RemoveMoves(env: Env, s: State, t: State, pid: Pid)
    requires pid in s.procs && s.procs[pid].GcChecked?
    requires StepGc(env, s, pid) == Some(t)
    ensures OnlyMoves(s, t, pid) && LocksOf(s, t, pid)
  {
  }

  lemma RemoveFrames(env: Env, s: State, t: State, pid: Pid)
    requires pid in s.procs && s.procs[pid].GcChecked? && ProcOk(env, s, pid)
    requires StepGc(env, s, pid) == Some(t)
    ensures ChangesLocked(env, s, t, pid)
  {
    forall sha
      ensures HasKey(env, s, pid, sha) || KeyAgrees(s, t, sha)
    {
    }
  }

  lemma RemoveGlobal(env: Env, s: State, t: State, pid: Pid)
    requires pid in s.procs && s.procs[pid].GcChecked? && ProcOk(env, s, pid)
    requires GlobalOk(env, s)
    requires StepGc(env, s, pid) == Some(t)
    ensures GlobalOk(env, t)
  {
    forall d | d in t.db.datasets && t.db.datasets[d].status == Published
      ensures MergesToSha(env, t, d)
    {
      assert MergesToSha(env, s, d);
    }
    assert forall id | id in s.db.files :: s.db.files[id] in Shas(s.db);
  }

  lemma GcKeeps(env: Env, s: State, t: State, pid: Pid)
    requires Inv(env, s) && pid in s.procs
    requires StepGc(env, s, pid) == Some(t)
    ensures Inv(env, t)
  {
    assert ProcOk(env, s, pid);
    if s.procs[pid].GcChecked? {
      RemoveMoves(env, s, t, pid);
      RemoveFrames(env, s, t, pid);
      RemoveGlobal(env, s, t, pid);
      StepKeeps(env, s, t, pid);
    } else {
      GcQuietly(env, s, t, pid);
      QuietStep(env, s, t, pid);
    }
  }

  // ---- Creation, crash and recovery

  lemma NewDatasetFrames(env: Env, s: State, t: State, d: Dataset, q: Pid)
    requires ModeOk(s) && RowsRegular(s) && d.fileId == None
    requires t == s.(db := s.db.(datasets := s.db.datasets[s.nextDataset := d]), nextDataset := s.nextDataset + 1)
    ensures LocksKept(env, s, t, q)
  {
    forall ds | ds in s.rows && s.rows[ds] == q
      ensures RowAgrees(s, t, ds)
    {
      assert ds in s.db.datasets;
    }
    forall sha | HasKey(env, s, q, sha)
      ensures KeyAgrees(s, t, sha)
    {
      NewDatasetKeys(s, t, d, sha);
    }
  }

  /** A new dataset refers to no file. */
  lemma NewDatasetKeys(s: State, t: State, d: Dataset, sha: Digest)
    requires RowsRegular(s) && d.fileId == None
    requires t == s.(db := s.db.(datasets := s.db.datasets[s.nextDataset := d]), nextDataset := s.nextDataset + 1)
    ensures KeyAgrees(s, t, sha)
  {
    forall ds, id
      ensures Refers(s.db, ds, id) <==> Refers(t.db, ds, id)
    {
    }
  }

  lemma NewDatasetGlobal(env: Env, s: State, t: State, d: Dataset)
    requires GlobalOk(env, s) && d.fileId == None && d.status == Uploading && Planned(d)
    requires t == s.(db := s.db.(datasets := s.db.datasets[s.nextDataset := d]), nextDataset := s.nextDataset + 1)
    ensures GlobalOk(env, t)
  {
    NewDatasetReferences(s.db, t.db, s.nextDataset, d);
    forall e | e in t.db.datasets && t.db.datasets[e].status == Published
      ensures MergesToSha(env, t, e)
    {
      assert e in s.db.datasets && MergesToSha(env, s, e);
      assert RowAgrees(s, t, e);
      MergesFrame(env, s, t, e);
    }
  }

  lemma NewDatasetReferences(a: Db, b: Db, ds: DatasetId, d: Dataset)
    requires ReferencesExact(a) && ds !in a.datasets && d.fileId == None && d.status == Uploading
    requires b == a.(datasets := a.datasets[ds := d])
    ensures ReferencesExact(b)
  {
    forall i | i in b.files
      ensures exists e :: Refers(b, e, i)
    {
      var e :| Refers(a, e, i);
      assert Refers(b, e, i);
    }
    forall e, i | Refers(b, e, i)
      ensures i in b.files && b.files[i] == b.datasets[e].sha
    {
      assert Refers(a, e, i);
    }
  }

  lemma CreateKeeps(env: Env, s: State, t: State, d: Dataset)
    requires Inv(env, s) && d.fileId == None && d.status == Uploading && Planned(d)
    requires t == s.(db := s.db.(datasets := s.db.datasets[s.nextDataset := d]), nextDataset := s.nextDataset + 1)
    ensures Inv(env, t)
  {
    NewDatasetGlobal(env, s, t, d);
    forall q | q in t.procs
      ensures ProcOk(env, t, q)
    {
      assert ProcOk(env, s, q);
      NewDatasetFrames(env, s, t, d, q);
      ProcStays(env, s, t, q);
    }
  }

  lemma CrashKeeps(env: Env, s: State)
    requires Inv(env, s)
    ensures Inv(env, s.(mode := Down, procs := map[], rows := map[], keys := map[]))
  {
    var t := s.(mode := Down, procs := map[], rows := map[], keys := map[]);
    QuietGlobal(env, s, t);
  }

  lemma ResetGlobal(env: Env, s: State, t: State)
    requires GlobalOk(env, s)
    requires RecoverStep(s, RecoverBegin) == Some(t)
    ensures GlobalOk(env, t)
  {
    ResetReferences(s.db, t.db);
    forall d | d in t.db.datasets && t.db.datasets[d].status == Published
      ensures MergesToSha(env, t, d)
    {
      assert MergesToSha(env, s, d);
      assert Rows(t.db, d, t.db.datasets[d].count) == Rows(s.db, d, s.db.datasets[d].count);
    }
  }

  lemma ResetReferences(a: Db, b: Db)
    requires ReferencesExact(a)
    requires b == a.(datasets := map d | d in a.datasets :: ResetMerging(a.datasets[d]))
    ensures ReferencesExact(b)
  {
    forall i | i in b.files
      ensures exists e :: Refers(b, e, i)
    {
      var e :| Refers(a, e, i);
      assert Refers(b, e, i);
    }
    forall e, i | Refers(b, e, i)
      ensures i in b.files && b.files[i] == b.datasets[e].sha
    {
      assert Refers(a, e, i);
    }
  }

  lemma SweepFileGlobal(env: Env, s: State, t: State, sha: Digest)
    requires GlobalOk(env, s)
    requires RecoverStep(s, RecoverFile(sha)) == Some(t)
    ensures GlobalOk(env, t)
  {
    assert forall id | id in s.db.files :: s.db.files[id] in Shas(s.db);
    forall d | d in t.db.datasets && t.db.datasets[d].status == Published
      ensures MergesToSha(env, t, d)
    {
      assert MergesToSha(env, s, d);
    }
  }

  lemma SweepChunkGlobal(env: Env, s: State, t: State, key: ChunkKey)
    requires GlobalOk(env, s)
    requires RecoverStep(s, RecoverChunk(key)) == Some(t)
    ensures GlobalOk(env, t)
  {
    forall d | d in t.db.datasets && t.db.datasets[d].status == Published
      ensures MergesToSha(env, t, d)
    {
      assert MergesToSha(env, s, d);
      assert RowAgrees(s, t, d);
      MergesFrame(env, s, t, d);
    }
  }

  lemma RecoverKeeps(env: Env, s: State, e: Event, t: State)
    requires Inv(env, s)
    requires e.RecoverBegin? || e.RecoverFile? || e.RecoverChunk? || e.RecoverEnd?
    requires RecoverStep(s, e) == Some(t)
    ensures Inv(env, t)
  {
    match e
    case RecoverBegin => ResetGlobal(env, s, t);
    case RecoverFile(sha) => SweepFileGlobal(env, s, t, sha);
    case RecoverChunk(key) => SweepChunkGlobal(env, s, t, key);
    case RecoverEnd => QuietGlobal(env, s, t);
  }

  // ---- Every step, every run

  lemma CreationKeeps(env: Env, s: State, total: int, chunk: int, sha: Digest, t: State)
    requires Inv(env, s) && CreateStep(s, total, chunk, sha) == Some(t)
    ensures Inv(env, t)
  {
    CreateKeeps(env, s, t, Dataset(Uploading, total, chunk, ChunkCount(total, chunk), sha, None));
  }

  lemma AdvanceKeeps(env: Env, s: State, pid: Pid, t: State)
    requires Inv(env, s) && Next(env, s, Advance(pid)) == Some(t)
    ensures Inv(env, t)
  {
    if StepUpload(env, s, pid) == Some(t) {
      UploadKeeps(env, s, t, pid);
    } else if StepPublish(env, s, pid) == Some(t) {
      PublishKeeps(env, s, t, pid);
    } else if StepDelete(env, s, pid) == Some(t) {
      DeleteKeeps(env, s, t, pid);
    } else {
      GcKeeps(env, s, t, pid);
    }
  }

  /** Every step keeps the invariant: the induction step of the safety argument. */
  lemma NextKeeps(env: Env, s: State, e: Event, t: State)
    requires Inv(env, s) && Next(env, s, e) == Some(t)
    ensures Inv(env, t)
  {
    match e
    case Create(total, chunk, sha) => CreationKeeps(env, s, total, chunk, sha, t);
    case Advance(pid) => AdvanceKeeps(env, s, pid, t);
    case Abort(pid) => ReleaseKeeps(env, s, pid);
    case Crash => CrashKeeps(env, s);
    case BeginUpload(_, _, _, _) => StartKeeps(env, s, e, t);
    case BeginPublish(_, _) => StartKeeps(env, s, e, t);
    case BeginDelete(_, _, _) => StartKeeps(env, s, e, t);
    case RecoverBegin => RecoverKeeps(env, s, e, t);
    case RecoverFile(_) => RecoverKeeps(env, s, e, t);
    case RecoverChunk(_) => RecoverKeeps(env, s, e, t);
    case RecoverEnd => RecoverKeeps(env, s, e, t);
  }

  lemma {:induction false} RunInvariant(env: Env, trace: seq<State>, events: seq<Event>, i: nat)
    requires Run(env, trace, events) && i < |trace|
    ensures Inv(env, trace[i])
  {
    if i == 0 {
    } else {
      RunInvariant(env, trace, events, i - 1);
      NextKeeps(env, trace[i - 1], events[i - 1], trace[i]);
    }
  }
}
