/** What the requests of the dataset store have done when they commit or end. */
module StoreOutcomes {
  import opened Wrappers
  import opened Hashing
  import opened ChunkPlan
  import opened FileStorage
  import opened StoreProtocol
  import opened StoreSafety

  /** One step of a request, in a state of the invariant. */
  ghost predicate Steps(env: Env, s: State, t: State, pid: Pid) {
    Inv(env, s) && pid in s.procs && Next(env, s, Advance(pid)) == Some(t)
  }

  /** An upload ends with its body on disk and the row that describes it, and changes no other row or file. */
  lemma UploadLands(env: Env, s: State, t: State, pid: Pid)
    requires Steps(env, s, t, pid) && s.procs[pid].UpWritten?
    ensures var (ds, i, body) := (s.procs[pid].ds, s.procs[pid].index, s.procs[pid].body);
            && pid !in t.procs
            && (ds, i) in t.disk.chunks && t.disk.chunks[(ds, i)] == body && t.disk == s.disk
            && t.db == s.db.(chunks := s.db.chunks[(ds, i) := ChunkRow(i, env.hash(body), |body|)])
  {
    assert ProcOk(env, s, pid);
  }

  /** A publication commits with the dataset published, referring to a row of its digest whose content is on disk. */
  lemma PublishLands(env: Env, s: State, t: State, pid: Pid)
    requires Steps(env, s, t, pid) && (s.procs[pid].PubFound? || s.procs[pid].PubInserted?)
    ensures var ds, id := s.procs[pid].ds, s.procs[pid].id;
            && pid !in t.procs
            && ds in s.db.datasets && id in t.db.files && t.db.files[id] == s.db.datasets[ds].sha
            && t.db.files[id] in t.disk.files
            && t.db.datasets == s.db.datasets[ds := s.db.datasets[ds].(status := Published, fileId := Some(id))]
            && t.db.chunks == s.db.chunks && t.disk == s.disk
  {
    assert ProcOk(env, s, pid);
  }

  /** One that ends before has met bytes of another digest, and leaves the tables as they were. */
  lemma PublishRefuses(env: Env, s: State, t: State, pid: Pid)
    requires Steps(env, s, t, pid) && s.procs[pid].PubMerging? && pid !in t.procs
    ensures var ds := s.procs[pid].ds;
            && t.db == s.db && t.disk == s.disk.(tmp := s.disk.tmp - {ds}) && ds in s.db.datasets && ds in s.disk.tmp
            && s.procs[pid].done == s.db.datasets[ds].count && env.hash(s.disk.tmp[ds]) != s.db.datasets[ds].sha
  {
    assert ProcOk(env, s, pid);
  }

  /**
   A deletion commits with the dataset and its chunk rows gone, and every other dataset as it was. File rows
   stay exactly as long as some dataset refers to them, and one that goes is handed to the collection.
   */
  lemma DeletionCommits(env: Env, s: State, t: State, pid: Pid)
    requires Steps(env, s, t, pid)
    requires s.procs[pid].DelDecided? || (s.procs[pid].DelLocked? && pid in t.procs && t.procs[pid].Cleanup?)
    ensures var ds := s.procs[pid].ds;
            && t.db.datasets == s.db.datasets - {ds} && (forall k | k in t.db.chunks :: k.0 != ds)
            && (forall k | k in s.db.chunks && k.0 != ds :: k in t.db.chunks && t.db.chunks[k] == s.db.chunks[k])
            && (forall id | id in s.db.files :: id in t.db.files <==> exists e :: Refers(t.db, e, id))
            && pid in t.procs && t.procs[pid].Cleanup? && t.procs[pid].ds == ds && t.disk == s.disk
            && (forall id | id in s.db.files && id !in t.db.files :: t.procs[pid].gc == Some(s.db.files[id]))
  {
    NextKeeps(env, s, Advance(pid), t);
    assert ProcOk(env, s, pid);
    UnlinkStep(env, s, t, pid);
    FilesReferred(s.db, t.db, s.procs[pid].ds);
  }

  /** The tables after the committing step. */
  lemma UnlinkStep(env: Env, s: State, t: State, pid: Pid)
    requires pid in s.procs && ProcOk(env, s, pid) && Next(env, s, Advance(pid)) == Some(t)
    requires s.procs[pid].DelDecided? || (s.procs[pid].DelLocked? && pid in t.procs && t.procs[pid].Cleanup?)
    ensures var ds := s.procs[pid].ds;
            && t.db == Unlink(s.db, ds).(files := t.db.files) && t.disk == s.disk
            && pid in t.procs && t.procs[pid].Cleanup? && t.procs[pid].ds == ds
            && (forall id | id in t.db.files :: id in s.db.files)
            && (forall id | id in s.db.files && id !in t.db.files :: t.procs[pid].gc == Some(s.db.files[id]))
  {
    assert Next(env, s, Advance(pid)) == StepDelete(env, s, pid);
  }

  lemma FilesReferred(before: Db, after: Db, ds: DatasetId)
    requires ReferencesExact(before) && ReferencesExact(after) && after == Unlink(before, ds).(files := after.files)
    requires forall id | id in after.files :: id in before.files
    ensures forall id | id in before.files :: id in after.files <==> exists e :: Refers(after, e, id)
  {
  }

  /** After the commit the chunk files of the dataset go, and no others. */
  lemma CleanupLands(env: Env, s: State, t: State, pid: Pid)
    requires pid in s.procs && s.procs[pid].Cleanup? && Next(env, s, Advance(pid)) == Some(t)
    ensures var ds, gc := s.procs[pid].ds, s.procs[pid].gc;
            && t.db == s.db && t.disk.files == s.disk.files
            && (forall k :: k in t.disk.chunks <==> k in s.disk.chunks && k.0 != ds)
            && (forall k | k in t.disk.chunks :: t.disk.chunks[k] == s.disk.chunks[k])
            && if gc.Some? then pid in t.procs && t.procs[pid] == GcWaiting(gc.value) else pid !in t.procs
  {
  }

  /** A collection that ends with no row for its digest leaves no file for it; it removes nothing else. */
  lemma CollectionLands(env: Env, s: State, t: State, pid: Pid)
    requires Steps(env, s, t, pid) && s.procs[pid].GcChecked?
    ensures var sha := s.procs[pid].sha;
            && pid !in t.procs && t.db == s.db && t.disk == s.disk.(files := t.disk.files)
            && (sha in t.disk.files <==> sha in Shas(t.db))
            && (forall other | other != sha :: other in t.disk.files <==> other in s.disk.files)
            && (forall other | other in t.disk.files :: t.disk.files[other] == s.disk.files[other])
  {
    NextKeeps(env, s, Advance(pid), t);
    assert ProcOk(env, s, pid);
  }

  /** These are the only ends: elsewhere a step leads on. */
  lemma EndsOnlyThere(env: Env, s: State, t: State, pid: Pid)
    requires pid in s.procs && Next(env, s, Advance(pid)) == Some(t) && pid !in t.procs
    ensures var p := s.procs[pid];
            p.UpWritten? || p.PubFound? || p.PubInserted? || p.PubMerging? || p.Cleanup? || p.GcChecked?
  {
    if StepPublish(env, s, pid) == Some(t) {
      PublishEnds(env, s, pid);
    } else if StepDelete(env, s, pid) == Some(t) {
      DeleteEnds(env, s, pid);
    }
  }

  lemma PublishEnds(env: Env, s: State, pid: Pid)
    requires pid in s.procs && StepPublish(env, s, pid).Some? && pid !in StepPublish(env, s, pid).value.procs
    ensures s.procs[pid].PubFound? || s.procs[pid].PubInserted? || s.procs[pid].PubMerging?
  {
  }

  lemma DeleteEnds(env: Env, s: State, pid: Pid)
    requires pid in s.procs && StepDelete(env, s, pid).Some? && pid !in StepDelete(env, s, pid).value.procs
    ensures s.procs[pid].Cleanup?
  {
  }

  /**
   Requests start exactly on a dataset nobody has locked: an upload of a missing chunk of the exact size and a
   publication of a complete dataset while it is uploading, a deletion when nothing else refers to it.
   */
  lemma StartsIff(env: Env, s: State, pid: Pid, ds: DatasetId, i: nat, body: Bytes, references: nat)
    ensures var free := s.mode == Serving && pid !in s.procs && ds in s.db.datasets && ds !in s.rows;
            var upload := BeginUpload(pid, ds, i, body);
            var uploading := free && s.db.datasets[ds].status == Uploading;
            && (Next(env, s, upload).Some? <==>
                  && uploading && i < s.db.datasets[ds].count && (ds, i) !in s.db.chunks
                  && |body| == Expected(s.db.datasets[ds], i))
            && (Next(env, s, BeginPublish(pid, ds)).Some? <==> uploading && Complete(s.db, ds))
            && (Next(env, s, BeginDelete(pid, ds, references)).Some? <==> free && references == 0)
  {
  }

  /** A dataset is made as declared, under the next id, waiting for as many chunks as were computed for it. */
  lemma CreationLands(env: Env, s: State, t: State, total: int, chunk: int, sha: Digest)
    requires Next(env, s, Create(total, chunk, sha)) == Some(t)
    ensures total > 0 && chunk > 0 && s.mode == Serving
    ensures t == s.(db := t.db, nextDataset := s.nextDataset + 1) && t.db.files == s.db.files
            && t.db.chunks == s.db.chunks
    ensures forall d | d != s.nextDataset ::
      (d in t.db.datasets <==> d in s.db.datasets) && (d in s.db.datasets ==> t.db.datasets[d] == s.db.datasets[d])
    ensures s.nextDataset in t.db.datasets
    ensures t.db.datasets[s.nextDataset] == Dataset(Uploading, total, chunk, ChunkCount(total, chunk), sha, None)
  {
  }
}
