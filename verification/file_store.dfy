/**
 The on-disk side of the content-addressed dataset store: chunk files, merge outputs and
 published files named by their digest.
 */
module FileStorage {
  import opened Wrappers
  import opened Hashing

  type DatasetId = nat
  type ChunkKey = (DatasetId, nat)

  /** A row of the chunk table: what the database says the chunk file must contain. */
  datatype ChunkRow = ChunkRow(index: nat, sha: Digest, size: int)

  datatype MergeError = ChunkMissing(index: nat) | SizeMismatch(index: nat) | DigestMismatch(index: nat)

  datatype DiskError = NoSuchFile | WriteFailed

  /** How far a file write gets: all the way, to an error the service sees, or to the death of the process. */
  datatype WriteFault = NoFault | Refused | Killed(written: nat)

  /** The chunk file on disk is the one its row describes. */
  predicate Intact(hash: Bytes -> Digest, chunks: map<ChunkKey, Bytes>, ds: DatasetId, row: ChunkRow) {
    var key := (ds, row.index);
    key in chunks && |chunks[key]| == row.size && hash(chunks[key]) == row.sha
  }

  predicate AllIntact(hash: Bytes -> Digest, chunks: map<ChunkKey, Bytes>, ds: DatasetId, rows: seq<ChunkRow>) {
    forall row | row in rows :: Intact(hash, chunks, ds, row)
  }

  /** The chunk files of `rows`, one after the other. */
  function Merged(chunks: map<ChunkKey, Bytes>, ds: DatasetId, rows: seq<ChunkRow>): Bytes
    requires forall row | row in rows :: (ds, row.index) in chunks
  {
    if rows == [] then []
    else Merged(chunks, ds, rows[..|rows| - 1]) + chunks[(ds, rows[|rows| - 1].index)]
  }

  /** A directory after every entry outside `keep` has been removed. */
  function Swept<K, V>(dir: map<K, V>, keep: set<K>): (r: map<K, V>)
    ensures r.Keys == dir.Keys * keep
    ensures forall k | k in r :: r[k] == dir[k]
  {
    map k | k in dir && k in keep :: dir[k]
  }

  /** The content directory after a verified merge output has been moved in. */
  function Promoted(files: map<Digest, Bytes>, sha: Digest, merged: Bytes): (r: map<Digest, Bytes>)
    ensures sha in r && r.Keys == files.Keys + {sha}
    ensures forall d | d in files :: r[d] == files[d]
  {
    if sha in files then files else files[sha := merged]
  }

  class FileStore {
    const hash: Bytes -> Digest
    var files: map<Digest, Bytes>
    var tmp: map<DatasetId, Bytes>
    var chunks: map<ChunkKey, Bytes>
    /** Private files beside the chunks of a dataset, under names of their own. */
    var uploads: map<(DatasetId, nat), Bytes>

    constructor (hash: Bytes -> Digest)
      ensures this.hash == hash && files == map[] && tmp == map[] && chunks == map[] && uploads == map[]
    {
      this.hash := hash;
      files, tmp, chunks, uploads := map[], map[], map[], map[];
    }

    /**
     Stores one chunk body: a private file of a fresh name, then an atomic rename over the final one.
     A reader finds the old chunk whole until it finds the new one whole; only a kill leaves a
     private file behind, with some prefix of the body.
     */
    method WriteChunk(ds: DatasetId, index: nat, body: Bytes, name: nat, fault: WriteFault)
      returns (r: Result<(), DiskError>)
      requires (ds, name) !in uploads
      modifies this`chunks, this`uploads
      ensures r.Ok? <==> fault.NoFault?
      ensures r.Ok? ==> Intact(hash, chunks, ds, ChunkRow(index, hash(body), |body|))
      ensures forall k | k in chunks :: k in old(chunks) || k == (ds, index)
      ensures forall k | k in old(chunks) && !(r.Ok? && k == (ds, index)) :: k in chunks && chunks[k] == old(chunks)[k]
      ensures r.Ok? ==> chunks[(ds, index)] == body
      ensures r.Err? ==> chunks == old(chunks)
      ensures !fault.Killed? ==> uploads == old(uploads)
      ensures fault.Killed? ==>
                && uploads.Keys == old(uploads).Keys + {(ds, name)} && uploads[(ds, name)] <= body
                && forall k | k in old(uploads) :: uploads[k] == old(uploads)[k]
    {
      uploads := uploads[(ds, name) := []];
      match fault {
        case Killed(written) =>
          uploads := uploads[(ds, name) := if written <= |body| then body[..written] else body];
          return Err(WriteFailed);
        case Refused =>
          uploads := uploads - {(ds, name)};
          return Err(WriteFailed);
        case NoFault =>
          uploads := uploads[(ds, name) := body];
      }
      chunks := chunks[(ds, index) := uploads[(ds, name)]];
      uploads := uploads - {(ds, name)};
      r := Ok(());
    }

    /**
     Concatenates the chunk files into the merge output, checking each against its row.
     Succeeds exactly when every chunk file is intact, and leaves no merge output otherwise.
     */
    method MergeChunks(ds: DatasetId, rows: seq<ChunkRow>) returns (r: Result<Digest, MergeError>)
      modifies this`tmp
      ensures r.Ok? <==> AllIntact(hash, chunks, ds, rows)
      ensures r.Ok? ==> tmp == old(tmp)[ds := Merged(chunks, ds, rows)]
      ensures r.Ok? ==> r.value == hash(Merged(chunks, ds, rows))
      ensures r.Err? ==> tmp == old(tmp) - {ds}
      ensures r.Err? ==> exists row | row in rows :: row.index == r.error.index && !Intact(hash, chunks, ds, row)
    {
      tmp := tmp[ds := []];
      for i := 0 to |rows|
        invariant AllIntact(hash, chunks, ds, rows[..i])
        invariant tmp == old(tmp)[ds := Merged(chunks, ds, rows[..i])]
      {
        var row := rows[i];
        assert rows[..i + 1][..i] == rows[..i];
        assert row in rows;
        if (ds, row.index) !in chunks {
          tmp := tmp - {ds};
          return Err(ChunkMissing(row.index));
        }
        var part := chunks[(ds, row.index)];
        tmp := tmp[ds := tmp[ds] + part];
        if |part| != row.size {
          tmp := tmp - {ds};
          return Err(SizeMismatch(row.index));
        }
        if hash(part) != row.sha {
          tmp := tmp - {ds};
          return Err(DigestMismatch(row.index));
        }
      }
      assert rows[..|rows|] == rows;
      return Ok(hash(tmp[ds]));
    }

    /** Moves a merge output into the content directory, or drops it when the content is there. */
    method PromoteMerged(ds: DatasetId, sha: Digest) returns (r: Result<(), DiskError>)
      modifies this`files, this`tmp
      ensures r.Ok? <==> ds in old(tmp)
      ensures r.Ok? ==> files == Promoted(old(files), sha, old(tmp)[ds])
      ensures r.Err? ==> files == old(files)
      ensures tmp == old(tmp) - {ds}
    {
      if ds !in tmp {
        return Err(NoSuchFile);
      }
      if sha !in files {
        files := files[sha := tmp[ds]];
      }
      tmp := tmp - {ds};
      return Ok(());
    }

    /** Deletes published files that are not in `keep`. */
    method SweepFiles(keep: set<Digest>)
      modifies this`files
      ensures files == Swept(old(files), keep)
    {
      var entries := files.Keys;
      while entries != {}
        invariant entries <= files.Keys <= old(files).Keys
        invariant forall d | d in files :: files[d] == old(files)[d]
        invariant forall d | d in old(files) :: d !in files ==> d !in keep
        invariant forall d | d in files :: d in keep || d in entries
        decreases |entries|
      {
        var d :| d in entries;
        entries := entries - {d};
        if d !in keep {
          files := files - {d};
        }
      }
    }

    /** Deletes the chunk directories of datasets that are not in `keep`, private files included. */
    method SweepChunkDirs(keep: set<DatasetId>)
      modifies this`chunks, this`uploads
      ensures chunks == KeptDirs(old(chunks), keep) && uploads == KeptDirs(old(uploads), keep)
    {
      var dirs := (set k | k in chunks :: k.0) + (set k | k in uploads :: k.0);
      while dirs != {}
        invariant Sweeping(old(chunks), chunks, keep, dirs) && Sweeping(old(uploads), uploads, keep, dirs)
        decreases |dirs|
      {
        var ds :| ds in dirs;
        SweepingStep(old(chunks), chunks, keep, dirs, ds);
        SweepingStep(old(uploads), uploads, keep, dirs, ds);
        dirs := dirs - {ds};
        if ds !in keep {
          RemoveChunkDir(ds);
        }
      }
      SweepingEnds(old(chunks), chunks, keep);
      SweepingEnds(old(uploads), uploads, keep);
    }

    /** Deletes one dataset's chunk directory. */
    method RemoveChunkDir(ds: DatasetId)
      modifies this`chunks, this`uploads
      ensures chunks == WithoutDir(old(chunks), ds) && uploads == WithoutDir(old(uploads), ds)
    {
      chunks := WithoutDir(chunks, ds);
      uploads := WithoutDir(uploads, ds);
    }
  }

  function KeptDirs(files: map<(DatasetId, nat), Bytes>, keep: set<DatasetId>): map<(DatasetId, nat), Bytes> {
    map k | k in files && k.0 in keep :: files[k]
  }

  function WithoutDir(files: map<(DatasetId, nat), Bytes>, ds: DatasetId): map<(DatasetId, nat), Bytes> {
    map k | k in files && k.0 != ds :: files[k]
  }

  /** Nothing to keep is gone, and what else is left is in the directories still to be looked at. */
  ghost predicate Sweeping(
      before: map<(DatasetId, nat), Bytes>, now: map<(DatasetId, nat), Bytes>, keep: set<DatasetId>,
        dirs: set<DatasetId>)
  {
    && (forall k | k in now :: k in before && now[k] == before[k])
    && (forall k | k in before :: k !in now ==> k.0 !in keep)
    && (forall k | k in now :: k.0 in keep || k.0 in dirs)
  }

  lemma SweepingStep(
      before: map<(DatasetId, nat), Bytes>, now: map<(DatasetId, nat), Bytes>, keep: set<DatasetId>,
      dirs: set<DatasetId>, ds: DatasetId)
    requires Sweeping(before, now, keep, dirs)
    ensures Sweeping(before, if ds in keep then now else WithoutDir(now, ds), keep, dirs - {ds})
  {
  }

  lemma SweepingEnds(before: map<(DatasetId, nat), Bytes>, now: map<(DatasetId, nat), Bytes>, keep: set<DatasetId>)
    requires Sweeping(before, now, keep, {})
    ensures now == KeptDirs(before, keep)
  {
  }

  // ---- Merging depends only on the rows

  /**
   Whatever order and however often the chunks were uploaded, two stores whose chunk files
   match the same rows merge to the same bytes.
   */
  lemma {:induction false} SameRowsSameBytes(
      hash: Bytes -> Digest, a: map<ChunkKey, Bytes>, b: map<ChunkKey, Bytes>,
      dsA: DatasetId, dsB: DatasetId, rows: seq<ChunkRow>)
    requires Injective(hash)
    requires AllIntact(hash, a, dsA, rows) && AllIntact(hash, b, dsB, rows)
    ensures Merged(a, dsA, rows) == Merged(b, dsB, rows)
  {
    if rows == [] {
    } else {
      var last := rows[|rows| - 1];
      assert last in rows;
      SameRowsSameBytes(hash, a, b, dsA, dsB, rows[..|rows| - 1]);
    }
  }
}
