/** A verification job's row and chunk rows, as the worker updates them. */
module VerifyServices {
  import opened Wrappers
  import opened Hashing
  import opened HashPasses
  import opened VerifyJobs

  class JobRow {
    const chunkSize: nat
    var status: Status
    var processed: nat
    var chunks: seq<Chunk>
    var final: Option<Digest>
    var error: Option<Reason>
    var events: seq<Status>

    constructor (chunkSize: nat)
      ensures this.chunkSize == chunkSize && State() == Job(Queued, chunkSize, 0, [], None, None, [])
    {
      this.chunkSize := chunkSize;
      status, processed, chunks, final, error, events := Queued, 0, [], None, None, [];
    }

    function State(): Job
      reads this
    {
      Job(status, chunkSize, processed, chunks, final, error, events)
    }

    /** Mark the job failed and put the event on the chain, in one transaction. */
    method FailJob(reason: Reason, actual: Option<Digest>)
      modifies this
      ensures State() == Fail(old(State()), reason, actual)
    {
      status, error, final := Failed, Some(reason), actual;
      events := events + [Failed];
    }

    /** Reread every stored chunk, feeding its bytes to the running hash. */
    method RereadPrefix(hash: Bytes -> Digest, content: Content) returns (r: Result<Progress, Reason>)
      ensures r == Prefix(hash, content, State())
    {
      var at := Progress(0, [], 1);
      if processed == 0 {
        return Ok(at);
      }
      var k := 0;
      while k < |chunks|
        invariant 0 <= k <= |chunks|
        invariant Reread(hash, content, chunks, Progress(0, [], 1)) == Reread(hash, content, chunks[k..], at)
      {
        var c := chunks[k];
        assert chunks[k..][0] == c && chunks[k..][1..] == chunks[k + 1..];
        if c.offset != at.offset {
          return Err(NonContiguous);
        }
        var part := ReadAt(content(at.tick), c.offset, c.length);
        if part.None? {
          return Err(PrefixUnreadable);
        }
        if hash(part.value) != c.digest {
          return Err(PrefixModified);
        }
        at := Progress(at.offset + c.length, at.fed + part.value, at.tick + 1);
        k := k + 1;
      }
      assert chunks[k..] == [];
      if at.offset != processed {
        return Err(CoverMismatch);
      }
      r := Ok(at);
    }

    /** One chunk row, then the progress; false when the run ends here. */
    method HashChunk(hash: Bytes -> Digest, ev: Evidence, content: Content, halt: Halt,
        at: Progress) returns (r: Option<Progress>)
      requires chunkSize > 0 && at.offset < ev.size
      modifies this
      ensures Turn(hash, ev, content, halt, old(State()), at) == if r.Some? then Done(State(), r.value)
        else Halted(State())
    {
      if halt.Stop? {
        status := Interrupted;
        return None;
      }
      if halt.KillBefore? {
        return None;
      }
      var n := Piece(ev.size - at.offset, chunkSize);
      var part := ReadAt(content(at.tick), at.offset, n);
      if part.None? {
        FailJob(TailUnreadable, None);
        return None;
      }
      if exists k :: 0 <= k < |chunks| && chunks[k].offset == at.offset {
        FailJob(ChunkExists, None);
        return None;
      }
      chunks := chunks + [Chunk(at.offset, n, hash(part.value))];
      if halt.KillBetween? {
        return None;
      }
      processed := at.offset + n;
      if halt.KillAfter? {
        return None;
      }
      if halt.HookStop? {
        status := Interrupted;
        return None;
      }
      r := Some(Progress(at.offset + n, at.fed + part.value, at.tick + 1));
    }

    method HashTail(hash: Bytes -> Digest, ev: Evidence, content: Content, halts: nat -> Halt,
        start: Progress) returns (r: Option<Progress>)
      requires chunkSize > 0
      modifies this
      ensures Tail(hash, ev, content, halts, old(State()), start) == if r.Some? then Done(State(), r.value)
        else Halted(State())
    {
      var at := start;
      while at.offset < ev.size
        invariant Tail(hash, ev, content, halts, old(State()), start) == Tail(hash, ev, content, halts, State(), at)
        decreases ev.size - at.offset
      {
        var next := HashChunk(hash, ev, content, halts(at.offset), at);
        if next.None? {
          return None;
        }
        at := next.value;
      }
      r := Some(at);
    }

    method Run(hash: Bytes -> Digest, ev: Evidence, src: Source, halts: nat -> Halt)
      requires chunkSize > 0
      modifies this
      ensures State() == RunJob(hash, ev, src, halts, old(State()))
    {
      if status.Verified? || status.Failed? {
        return;
      }
      match src {
        case Unmounted => FailJob(NotMounted, None);
        case Unopenable => FailJob(OpenFailed, None);
        case Opened(dev, ino, content) =>
          if dev != ev.dev || ino != ev.ino {
            FailJob(IdentityChanged, None);
          } else if |content(0)| != ev.size {
            FailJob(SizeChanged, None);
          } else {
            RunOpened(hash, ev, content, halts);
          }
      }
    }

    method RunOpened(hash: Bytes -> Digest, ev: Evidence, content: Content, halts: nat -> Halt)
      requires chunkSize > 0
      modifies this
      ensures var job := old(State());
              State() ==
                match Prefix(hash, content, job)
                case Err(e) => Fail(job, e, None)
                case Ok(at) =>
                  match Tail(hash, ev, content, halts, job.(status := Running), at)
                  case Halted(j) => j
                  case Done(j, end) => if !halts(ev.size).Go? then j else Conclude(hash, ev, content, j, end)
    {
      var prefix := RereadPrefix(hash, content);
      if prefix.Err? {
        FailJob(prefix.error, None);
        return;
      }
      status := Running;
      var end := HashTail(hash, ev, content, halts, prefix.value);
      if end.None? || !halts(ev.size).Go? {
        return;
      }
      if |content(end.value.tick)| != ev.size {
        FailJob(ChangedDuring, None);
        return;
      }
      var actual := hash(end.value.fed);
      if actual != ev.digest {
        FailJob(DigestMismatch, Some(actual));
        return;
      }
      status, error, final := Verified, None, Some(actual);
      events := events + [Verified];
    }
  }
}
