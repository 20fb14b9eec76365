/**
 The dataset operations when nothing interrupts them: one request at a time against the
 committed rows and the file store, with the service's own checks and error returns.
 The interleaved and crashing executions are the subject of StoreProtocol.
 */
module DatasetServices {
  import opened Wrappers
  import opened ChunkPlan
  import opened Hashing
  import opened FileStorage
  import opened StoreProtocol

  datatype ServiceError = BadRequest | NotFound | Conflict | Storage

  /** What a chunk upload is checked against, all of it at once. */
  predicate Uploadable(db: Db, ds: DatasetId, index: int, body: Bytes) {
    && ds in db.datasets && db.datasets[ds].status == Uploading
    && 0 <= index < db.datasets[ds].count
    && |body| == Expected(db.datasets[ds], index)
  }

  lemma {:induction false} FullIndexSet(s: set<ChunkKey>, ds: DatasetId, n: nat)
    requires forall k | k in s :: k.0 == ds
    requires |s| == n && forall i: nat | i < n :: (ds, i) in s
    ensures forall k | k in s :: k.1 < n
  {
    var prefix := set i: nat | i < n :: (ds, i);
    PrefixSize(ds, n);
    assert prefix <= s;
    if k :| k in s && k.1 >= n {
      assert prefix <= s - {k};
      SubsetSize(prefix, s - {k});
    }
  }

  lemma {:induction false} PrefixSize(ds: DatasetId, n: nat)
    ensures |set i: nat | i < n :: (ds, i)| == n
  {
    if n == 0 {
    } else {
      PrefixSize(ds, n - 1);
      assert (set i: nat | i < n :: (ds, i)) == (set i: nat | i < n - 1 :: (ds, i)) + {(ds, n - 1)};
    }
  }

  lemma {:induction false} SubsetSize<T>(a: set<T>, b: set<T>)
    requires a <= b
    ensures |a| <= |b|
  {
    if a == {} {
    } else {
      var x :| x in a;
      SubsetSize(a - {x}, b - {x});
    }
  }

  class DatasetService {
    const fs: FileStore
    var db: Db
    var nextDataset: nat
    var nextFile: nat

    constructor (fs: FileStore)
      ensures this.fs == fs && db == Db(map[], map[], map[])
    {
      this.fs := fs;
      db, nextDataset, nextFile := Db(map[], map[], map[]), 0, 0;
    }

    method Create(total: int, chunk: int, sha: Digest) returns (r: Result<DatasetId, ServiceError>)
      requires total <= INT64_MAX && chunk <= INT64_MAX
      modifies this`db, this`nextDataset
      ensures r.Ok? <==> 0 < total && 0 < chunk && -0x8000_0000 <= ChunkCount(total, chunk) <= 0x7fff_ffff
      ensures r.Ok? ==>
        && r.value == old(nextDataset)
        && db == old(db).(datasets := old(db).datasets[
             r.value := Dataset(Uploading, total, chunk, ChunkCount(total, chunk), sha, None)])
      ensures r.Err? ==> db == old(db)
    {
      if total <= 0 || chunk <= 0 {
        return Err(BadRequest);
      }
      var count := ChunkCount(total, chunk);
      if !(-0x8000_0000 <= count <= 0x7fff_ffff) {
        return Err(Storage);
      }
      var id := nextDataset;
      nextDataset := nextDataset + 1;
      db := db.(datasets := db.datasets[id := Dataset(Uploading, total, chunk, count, sha, None)]);
      return Ok(id);
    }

    /** Returns the chunk's row and whether this call stored it. */
    method UploadChunk(ds: DatasetId, index: int, body: Bytes, declared: Digest, name: nat, fault: WriteFault)
      returns (r: Result<(ChunkRow, bool), ServiceError>)
      requires (ds, name) !in fs.uploads
      modifies this`db, fs`chunks, fs`uploads
      ensures r.Ok? <==>
        && fs.hash(body) == declared && Uploadable(old(db), ds, index, body)
        && if (ds, index) in old(db).chunks then old(db).chunks[(ds, index)].sha == declared else fault.NoFault?
      ensures r.Ok? ==> (ds, index) in db.chunks && r.value.0 == db.chunks[(ds, index)]
      ensures r.Ok? ==> (r.value.1 <==> (ds, index) !in old(db).chunks)
      ensures r.Ok? && r.value.1 ==>
        && db == old(db).(chunks := old(db).chunks[(ds, index) := ChunkRow(index, declared, |body|)])
        && fs.chunks == old(fs.chunks)[(ds, index) := body]
      ensures r.Err? || !r.value.1 ==> db == old(db) && fs.chunks == old(fs.chunks)
    {
      if fs.hash(body) != declared {
        return Err(BadRequest);
      }
      if ds !in db.datasets {
        return Err(NotFound);
      }
      var d := db.datasets[ds];
      if d.status != Uploading {
        return Err(Conflict);
      }
      if index < 0 || index >= d.count {
        return Err(BadRequest);
      }
      if |body| != Expected(d, index) {
        return Err(BadRequest);
      }
      if (ds, index) in db.chunks {
        var existing := db.chunks[(ds, index)];
        if existing.sha != declared {
          return Err(Conflict);
        }
        return Ok((existing, false));
      }
      var written := fs.WriteChunk(ds, index, body, name, fault);
      if written.Err? {
        return Err(Storage);
      }
      var row := ChunkRow(index, declared, |body|);
      db := db.(chunks := db.chunks[(ds, index) := row]);
      return Ok((row, true));
    }

    /** The chunk rows of a dataset in index order, if they are exactly 0..count-1. */
    method ReadRows(ds: DatasetId) returns (r: Result<seq<ChunkRow>, ServiceError>)
      requires ds in db.datasets
      ensures r.Ok? <==> Complete(db, ds)
      ensures r.Ok? ==> r.value == Rows(db, ds, db.datasets[ds].count)
    {
      var found := set k | k in db.chunks && k.0 == ds;
      var count := db.datasets[ds].count;
      if |found| != count {
        if count >= 0 {
          PrefixSize(ds, count);
        }
        assert Complete(db, ds) ==> found == set i: nat | i < count :: (ds, i);
        return Err(Conflict);
      }
      var rows := [];
      for i := 0 to count
        invariant |rows| == i
        invariant forall j: nat | j < i :: (ds, j) in db.chunks && rows[j] == db.chunks[(ds, j)]
      {
        if (ds, i) !in found {
          return Err(Conflict);
        }
        rows := rows + [db.chunks[(ds, i)]];
      }
      FullIndexSet(found, ds, count);
      assert forall i: nat | (ds, i) in db.chunks :: (ds, i) in found;
      return Ok(rows);
    }

    /** Registers a reference to the content `sha`, moving the merge output in on first use. */
    method AddFileRef(ds: DatasetId, sha: Digest) returns (id: FileId)
      requires ds in fs.tmp && forall i | i in db.files :: i < nextFile
      requires forall a, b | a in db.files && b in db.files && db.files[a] == db.files[b] :: a == b
      modifies this`db, this`nextFile, fs`files, fs`tmp
      ensures db == old(db).(files := old(db).files[id := sha])
      ensures id in old(db).files <==> sha in Shas(old(db))
      ensures sha in Shas(old(db)) ==> db == old(db) && fs.files == old(fs.files)
      ensures sha !in Shas(old(db)) ==> fs.files == Promoted(old(fs.files), sha, old(fs.tmp)[ds])
      ensures fs.tmp == old(fs.tmp) - {ds}
    {
      if i :| i in db.files && db.files[i] == sha {
        id := i;
        fs.tmp := fs.tmp - {ds};
        assert db.files[id := sha] == db.files;
      } else {
        var r := fs.PromoteMerged(ds, sha);
        id := nextFile;
        nextFile := nextFile + 1;
        db := db.(files := db.files[id := sha]);
      }
    }

    /** Succeeds exactly for a published dataset or one whose chunk files merge to its digest. */
    method Publish(ds: DatasetId) returns (r: Result<(), ServiceError>)
      requires forall i | i in db.files :: i < nextFile
      requires forall a, b | a in db.files && b in db.files && db.files[a] == db.files[b] :: a == b
      modifies this`db, this`nextFile, fs`files, fs`tmp
      ensures r.Ok? <==>
        && ds in old(db).datasets
        && (old(db).datasets[ds].status == Published
            || (old(db).datasets[ds].status == Uploading && Mergeable(old(db), fs.hash, old(fs.chunks), ds)))
      ensures r.Err? ==> db == old(db) && fs.files == old(fs.files)
      ensures r.Ok? ==> ds in db.datasets && db.datasets[ds].status == Published
      ensures r.Ok? && old(db).datasets[ds].status == Published ==> db == old(db) && fs.files == old(fs.files)
      ensures r.Ok? && old(db).datasets[ds].status != Published ==>
        var sha := old(db).datasets[ds].sha;
        exists id :: db == Link(old(db).(files := old(db).files[id := sha]), ds, id)
          && (id in old(db).files <==> sha in Shas(old(db)))
      ensures r.Ok? && old(db).datasets[ds].status != Published ==>
        var sha := old(db).datasets[ds].sha;
        fs.files == if sha in Shas(old(db)) then old(fs.files)
                    else Promoted(old(fs.files), sha,
                      Merged(old(fs.chunks), ds, Rows(old(db), ds, old(db).datasets[ds].count)))
    {
      if ds !in db.datasets {
        return Err(NotFound);
      }
      var d := db.datasets[ds];
      if d.status == Published {
        return Ok(());
      }
      if d.status != Uploading {
        return Err(Conflict);
      }
      var rows := ReadRows(ds);
      if rows.Err? {
        return Err(Conflict);
      }
      var digest := fs.MergeChunks(ds, rows.value);
      if digest.Err? {
        return Err(Conflict);
      }
      if digest.value != d.sha {
        fs.tmp := fs.tmp - {ds};
        return Err(Conflict);
      }
      var id := AddFileRef(ds, d.sha);
      db := Link(db, ds, id);
      return Ok(());
    }

    /**
     Deletes an unreferenced dataset. Its content file goes with the last dataset that shares
     it; the file row is dropped first, the disk file only when no row names the digest.
     */
    method Delete(ds: DatasetId, references: nat) returns (r: Result<(), ServiceError>)
      requires forall d, id | Refers(db, d, id) :: id in db.files
      requires forall a, b | a in db.files && b in db.files && db.files[a] == db.files[b] :: a == b
      modifies this`db, fs`files, fs`chunks, fs`uploads
      ensures r.Ok? <==> ds in old(db).datasets && references == 0
      ensures r.Err? ==> db == old(db) && fs.files == old(fs.files) && fs.chunks == old(fs.chunks)
      ensures r.Ok? ==> fs.chunks == WithoutDir(old(fs.chunks), ds) && fs.uploads == WithoutDir(old(fs.uploads), ds)
      ensures r.Ok? ==>
        match old(db).datasets[ds].fileId {
        case None => db == Unlink(old(db), ds) && fs.files == old(fs.files)
        case Some(id) =>
          if Shared(old(db), ds, id)
          then db == Unlink(old(db), ds) && fs.files == old(fs.files)
          else && id in old(db).files
               && db == Unlink(old(db).(files := old(db).files - {id}), ds)
               && fs.files == old(fs.files) - {old(db).files[id]}
        }
    {
      if ds !in db.datasets {
        return Err(NotFound);
      }
      if references > 0 {
        return Err(Conflict);
      }
      var fileId := db.datasets[ds].fileId;
      db := Unlink(db, ds);
      var gc: Option<Digest> := None;
      if fileId.Some? {
        assert Refers(old(db), ds, fileId.value);
        var sha := db.files[fileId.value];
        var others := set d | d in db.datasets && db.datasets[d].fileId == fileId;
        assert others == {} <==> !Shared(old(db), ds, fileId.value) by {
          assert forall d :: d in others <==> d != ds && Refers(old(db), d, fileId.value);
        }
        if others == {} {
          db := db.(files := db.files - {fileId.value});
          gc := Some(sha);
        }
      }
      fs.RemoveChunkDir(ds);
      if gc.Some? && gc.value !in Shas(db) {
        fs.files := fs.files - {gc.value};
      }
      return Ok(());
    }

    /** Start-up recovery: afterwards the directories hold nothing the tables do not name. */
    method Recover()
      modifies this`db, fs`files, fs`tmp, fs`chunks, fs`uploads
      ensures db == old(db).(datasets := map d | d in old(db).datasets :: ResetMerging(old(db).datasets[d]))
      ensures fs.tmp == map[]
      ensures fs.files == Swept(old(fs.files), Shas(old(db)))
      ensures (forall id | id in old(db).files :: old(db).files[id] in old(fs.files)) ==> fs.files.Keys == Shas(db)
      ensures fs.chunks == KeptDirs(old(fs.chunks), old(db).datasets.Keys)
      ensures fs.uploads == KeptDirs(old(fs.uploads), old(db).datasets.Keys)
    {
      db := db.(datasets := map d | d in db.datasets :: ResetMerging(db.datasets[d]));
      fs.tmp := map[];
      fs.SweepFiles(Shas(db));
      fs.SweepChunkDirs(db.datasets.Keys);
    }
  }

  /** The dataset has all its chunk rows, the files match them, and together they hash to the digest. */
  ghost predicate Mergeable(db: Db, hash: Bytes -> Digest, chunks: map<ChunkKey, Bytes>, ds: DatasetId) {
    && ds in db.datasets && Complete(db, ds)
    && var rows := Rows(db, ds, db.datasets[ds].count);
       AllIntact(hash, chunks, ds, rows) && hash(Merged(chunks, ds, rows)) == db.datasets[ds].sha
  }
}
