/** Verification jobs that persist chunk digests and survive being stopped. */
module VerifyJobs {
  import opened Wrappers
  import opened Hashing
  import opened HashPasses

  datatype Status = Queued | Running | Interrupted | Verified | Failed

  datatype Reason =
    | NotMounted | OpenFailed | IdentityChanged | SizeChanged | NonContiguous | PrefixUnreadable | PrefixModified
    | CoverMismatch | TailUnreadable | ChunkExists | ChangedDuring | DigestMismatch

  datatype Chunk = Chunk(offset: nat, length: nat, digest: Digest)

  /** A job row with its chunk rows by offset; `events` lists the outcomes it has put on the case's chain. */
  datatype Job = Job(status: Status, chunkSize: nat, processed: nat, chunks: seq<Chunk>, final: Option<Digest>,
                     error: Option<Reason>, events: seq<Status>)

  datatype Evidence = Evidence(dev: nat, ino: nat, size: nat, digest: Digest)

  /** What opening the evidence gives: nothing, or an inode whose contents each later call may find different. */
  datatype Source = Unmounted | Unopenable | Opened(dev: nat, ino: nat, content: Content)

  /**
   What happens at an offset: go on, be told to stop before or after the chunk, or be killed before
   the chunk row, between the chunk row and the progress update, or after both.
   */
  datatype Halt = Go | Stop | HookStop | KillBefore | KillBetween | KillAfter

  predicate Terminal(job: Job) {
    job.status.Verified? || job.status.Failed?
  }

  /** One transaction marks the job failed and puts the event on the chain. */
  function Fail(job: Job, reason: Reason, final: Option<Digest>): Job {
    job.(status := Failed, error := Some(reason), final := final, events := job.events + [Failed])
  }

  function Pass(job: Job, final: Digest): Job {
    job.(status := Verified, error := None, final := Some(final), events := job.events + [Verified])
  }

  /** Bytes fed to the running hash, and the number of the next call on the file. */
  datatype Progress = Progress(offset: nat, fed: Bytes, tick: nat)

  /** Reread the processed prefix chunk by chunk. */
  function Reread(hash: Bytes -> Digest, content: Content, chunks: seq<Chunk>, at: Progress): Result<Progress, Reason>
    decreases |chunks|
  {
    if chunks == [] then Ok(at)
    else
      var c := chunks[0];
      if c.offset != at.offset then Err(NonContiguous)
      else
        match ReadAt(content(at.tick), c.offset, c.length)
        case None => Err(PrefixUnreadable)
        case Some(part) =>
          if hash(part) != c.digest then Err(PrefixModified)
          else Reread(hash, content, chunks[1..], Progress(at.offset + c.length, at.fed + part, at.tick + 1))
  }

  /** The prefix is reread when there is one, and has to end where the progress does. */
  function Prefix(hash: Bytes -> Digest, content: Content, job: Job): Result<Progress, Reason> {
    if job.processed == 0 then Ok(Progress(0, [], 1))
    else
      match Reread(hash, content, job.chunks, Progress(0, [], 1))
      case Err(e) => Err(e)
      case Ok(at) => if at.offset != job.processed then Err(CoverMismatch) else Ok(at)
  }

  datatype TailEnd = Done(job: Job, at: Progress) | Halted(job: Job)

  /** One turn of the loop over the unread tail: record a chunk, then the progress. */
  function Turn(hash: Bytes -> Digest, ev: Evidence, content: Content, halt: Halt, job: Job, at: Progress): (r: TailEnd)
    requires job.chunkSize > 0 && at.offset < ev.size
    ensures r.job.chunkSize == job.chunkSize
    ensures r.Done? ==>
      at.offset < r.at.offset <= ev.size && r.at.offset == at.offset + Piece(ev.size - at.offset, job.chunkSize)
    ensures r.Halted? && halt.Go? ==> r.job.status.Failed?
    ensures r.Done? ==> halt.Go?
  {
    if halt.Stop? then Halted(job.(status := Interrupted))
    else if halt.KillBefore? then Halted(job)
    else
      var n := Piece(ev.size - at.offset, job.chunkSize);
      match ReadAt(content(at.tick), at.offset, n)
      case None => Halted(Fail(job, TailUnreadable, None))
      case Some(part) =>
        // chunk rows are unique by job and offset
        if exists k :: 0 <= k < |job.chunks| && job.chunks[k].offset == at.offset then
          Halted(Fail(job, ChunkExists, None))
        else
          var stored := job.(chunks := job.chunks + [Chunk(at.offset, n, hash(part))]);
          var advanced := stored.(processed := at.offset + n);
          if halt.KillBetween? then Halted(stored)
          else if halt.KillAfter? then Halted(advanced)
          else if halt.HookStop? then Halted(advanced.(status := Interrupted))
          else Done(advanced, Progress(at.offset + n, at.fed + part, at.tick + 1))
  }

  /** Hash the unread tail. */
  function Tail(hash: Bytes -> Digest, ev: Evidence, content: Content, halts: nat -> Halt, job: Job,
      at: Progress): TailEnd
    requires job.chunkSize > 0
    decreases ev.size - at.offset
  {
    if at.offset >= ev.size then Done(job, at)
    else
      match Turn(hash, ev, content, halts(at.offset), job, at)
      case Halted(j) => Halted(j)
      case Done(j, next) => Tail(hash, ev, content, halts, j, next)
  }

  /** The last look at the file, and the comparison with the baseline. */
  function Conclude(hash: Bytes -> Digest, ev: Evidence, content: Content, job: Job, at: Progress): Job {
    if |content(at.tick)| != ev.size then Fail(job, ChangedDuring, None)
    else if hash(at.fed) != ev.digest then Fail(job, DigestMismatch, Some(hash(at.fed)))
    else Pass(job, hash(at.fed))
  }

  /** Run or resume a job. Dying after the last chunk is a halt at offset `ev.size`. */
  function RunJob(hash: Bytes -> Digest, ev: Evidence, src: Source, halts: nat -> Halt, job: Job): Job
    requires job.chunkSize > 0
  {
    if Terminal(job) then job
    else
      match src
      case Unmounted => Fail(job, NotMounted, None)
      case Unopenable => Fail(job, OpenFailed, None)
      case Opened(dev, ino, content) =>
        if dev != ev.dev || ino != ev.ino then Fail(job, IdentityChanged, None)
        else if |content(0)| != ev.size then Fail(job, SizeChanged, None)
        else
          match Prefix(hash, content, job)
          case Err(e) => Fail(job, e, None)
          case Ok(at) =>
            match Tail(hash, ev, content, halts, job.(status := Running), at)
            case Halted(j) => j
            case Done(j, end) => if !halts(ev.size).Go? then j else Conclude(hash, ev, content, j, end)
  }

  /** At startup a job that was running is taken for interrupted and queued again. */
  function Requeued(job: Job): Job {
    if job.status.Running? then job.(status := Interrupted) else job
  }

  datatype Attempt = Attempt(src: Source, halts: nat -> Halt)

  /** One run after another, with a restart before each. */
  function RunAll(hash: Bytes -> Digest, ev: Evidence, job: Job, attempts: seq<Attempt>): (r: Job)
    requires job.chunkSize > 0
    decreases |attempts|
  {
    if attempts == [] then job
    else
      RunKeepsSize(hash, ev, attempts[0].src, attempts[0].halts, Requeued(job));
      RunAll(hash, ev, RunJob(hash, ev, attempts[0].src, attempts[0].halts, Requeued(job)), attempts[1..])
  }

  /** A job under way, with the outcome on the chain if it has just failed. */
  ghost predicate Reports(before: Job, after: Job) {
    && after.chunkSize == before.chunkSize && !after.status.Verified?
    && after.events == before.events + if after.status.Failed? then [Failed] else []
  }

  lemma {:induction false} TailReports(hash: Bytes -> Digest, ev: Evidence, content: Content, halts: nat -> Halt,
      job: Job, at: Progress)
    requires job.chunkSize > 0 && !Terminal(job)
    ensures var r := Tail(hash, ev, content, halts, job, at);
            Reports(job, r.job) && (r.Done? ==> !Terminal(r.job))
    decreases ev.size - at.offset
  {
    if at.offset >= ev.size {
    } else {
      var turn := Turn(hash, ev, content, halts(at.offset), job, at);
      assert Reports(job, turn.job);
      if turn.Done? {
        TailReports(hash, ev, content, halts, turn.job, turn.at);
      }
    }
  }

  lemma RunKeepsSize(hash: Bytes -> Digest, ev: Evidence, src: Source, halts: nat -> Halt, job: Job)
    requires job.chunkSize > 0
    ensures RunJob(hash, ev, src, halts, job).chunkSize == job.chunkSize
  {
    if !Terminal(job) && src.Opened? && Prefix(hash, src.content, job).Ok? {
      TailReports(hash, ev, src.content, halts, job.(status := Running), Prefix(hash, src.content, job).value);
    }
  }

  // ---- One chain event per job

  ghost predicate EventsOk(job: Job) {
    job.events == if Terminal(job) then [job.status] else []
  }

  /** A job puts exactly one outcome on the chain, when it ends, however often it is run. */
  lemma RunEvents(hash: Bytes -> Digest, ev: Evidence, src: Source, halts: nat -> Halt, job: Job)
    requires job.chunkSize > 0 && EventsOk(job)
    ensures EventsOk(RunJob(hash, ev, src, halts, job))
    ensures Terminal(job) ==> RunJob(hash, ev, src, halts, job) == job
  {
    if !Terminal(job) && src.Opened? && Prefix(hash, src.content, job).Ok? {
      TailReports(hash, ev, src.content, halts, job.(status := Running), Prefix(hash, src.content, job).value);
    }
  }

  lemma {:induction false} OneEventPerJob(hash: Bytes -> Digest, ev: Evidence, job: Job, attempts: seq<Attempt>)
    requires job.chunkSize > 0 && EventsOk(job)
    ensures EventsOk(RunAll(hash, ev, job, attempts))
    ensures Terminal(job) ==> RunAll(hash, ev, job, attempts) == job
    decreases |attempts|
  {
    if attempts == [] {
    } else {
      RunEvents(hash, ev, attempts[0].src, attempts[0].halts, Requeued(job));
      RunKeepsSize(hash, ev, attempts[0].src, attempts[0].halts, Requeued(job));
      OneEventPerJob(hash, ev, RunJob(hash, ev, attempts[0].src, attempts[0].halts, Requeued(job)), attempts[1..]);
    }
  }

  // ---- What verified means, for any stored state and any file

  lemma {:induction false} RereadObserves(hash: Bytes -> Digest, content: Content, chunks: seq<Chunk>, at: Progress)
    requires |at.fed| == at.offset && at.tick > 0 && ReadBetween(content, at.fed, 1, at.tick)
    ensures var r := Reread(hash, content, chunks, at);
            r.Ok? ==> |r.value.fed| == r.value.offset && r.value.tick > 0
                      && ReadBetween(content, r.value.fed, 1, r.value.tick)
    decreases |chunks|
  {
    if chunks != [] && chunks[0].offset == at.offset && at.offset + chunks[0].length <= |content(at.tick)| {
      var c := chunks[0];
      var part := content(at.tick)[c.offset..c.offset + c.length];
      ReadMore(content, at.fed, 1, at.tick, c.length);
      RereadObserves(hash, content, chunks[1..], Progress(at.offset + c.length, at.fed + part, at.tick + 1));
    }
  }

  lemma {:induction false} TailObserves(hash: Bytes -> Digest, ev: Evidence, content: Content, halts: nat -> Halt,
      job: Job, at: Progress)
    requires job.chunkSize > 0 && |at.fed| == at.offset && at.tick > 0 && ReadBetween(content, at.fed, 1, at.tick)
    ensures var r := Tail(hash, ev, content, halts, job, at);
            && (r.Done? ==> |r.at.fed| == r.at.offset && r.at.tick > 0 && ReadBetween(content, r.at.fed, 1, r.at.tick))
            && (r.Done? ==> r.at.offset == if at.offset > ev.size then at.offset else ev.size)
    decreases ev.size - at.offset
  {
    if at.offset >= ev.size {
    } else {
      var turn := Turn(hash, ev, content, halts(at.offset), job, at);
      if turn.Done? {
        ReadMore(content, at.fed, 1, at.tick, Piece(ev.size - at.offset, job.chunkSize));
        TailObserves(hash, ev, content, halts, turn.job, turn.at);
      }
    }
  }

  /** The bytes a verifying run feeds: the registered size, unless the stored progress is already beyond it. */
  function FedSize(ev: Evidence, job: Job): nat {
    if job.processed > ev.size then job.processed else ev.size
  }

  /** Between the opening and call `last` the bytes were read, and both found the registered size. */
  ghost predicate ReadInFull(hash: Bytes -> Digest, ev: Evidence, content: Content, size: nat, fed: Bytes, last: nat) {
    && |fed| == size && hash(fed) == ev.digest
    && |content(0)| == ev.size && ReadBetween(content, fed, 1, last) && last > 0 && |content(last)| == ev.size
  }

  /**
   A run that verifies a job has opened the registered inode and fed the hash, in order, bytes it read at
   each position; their digest is the baseline, and the file had the registered size when it was opened and
   at the last look after all reads.
   */
  lemma VerifiedMeansRead(hash: Bytes -> Digest, ev: Evidence, src: Source, halts: nat -> Halt, job: Job)
    requires job.chunkSize > 0 && !Terminal(job)
    requires RunJob(hash, ev, src, halts, job).status.Verified?
    ensures src.Opened? && src.dev == ev.dev && src.ino == ev.ino
    ensures RunJob(hash, ev, src, halts, job).final == Some(ev.digest)
    ensures exists fed, last :: ReadInFull(hash, ev, src.content, FedSize(ev, job), fed, last)
  {
    if src.Opened? && Prefix(hash, src.content, job).Ok? {
      var at := Prefix(hash, src.content, job).value;
      RereadObserves(hash, src.content, job.chunks, Progress(0, [], 1));
      TailObserves(hash, ev, src.content, halts, job.(status := Running), at);
      TailReports(hash, ev, src.content, halts, job.(status := Running), at);
      var end := Tail(hash, ev, src.content, halts, job.(status := Running), at).at;
      assert ReadInFull(hash, ev, src.content, FedSize(ev, job), end.fed, end.tick);
    }
  }

  /**
   With a collision-free hash, what was read, in full and at its place, is the image the baseline was
   taken of; so no stored progress went beyond its registered size.
   */
  lemma VerifiedMeansOriginal(hash: Bytes -> Digest, ev: Evidence, src: Source, halts: nat -> Halt, job: Job,
      image: Bytes)
    requires Injective(hash) && ev.digest == hash(image)
    requires job.chunkSize > 0 && !Terminal(job)
    requires RunJob(hash, ev, src, halts, job).status.Verified?
    ensures src.Opened? && Observed(src.content, image) && |image| == FedSize(ev, job)
    ensures |src.content(0)| == ev.size
  {
    VerifiedMeansRead(hash, ev, src, halts, job);
    var fed, last :| ReadInFull(hash, ev, src.content, FedSize(ev, job), fed, last);
    assert fed == image;
    forall p | 0 <= p < |image|
      ensures Seen(src.content, p, image[p])
    {
      assert SeenBetween(src.content, p, fed[p], 1, last);
    }
  }

  // ---- Chunk rows

  /** The rows tile [from, to). */
  ghost predicate Tiles(chunks: seq<Chunk>, from: nat, to: nat)
    decreases |chunks|
  {
    if chunks == [] then from == to
    else chunks[0].offset == from && chunks[0].length > 0 && Tiles(chunks[1..], from + chunks[0].length, to)
  }

  lemma {:induction false} TilesMore(chunks: seq<Chunk>, from: nat, to: nat, c: Chunk)
    requires Tiles(chunks, from, to) && c.offset == to && c.length > 0
    ensures Tiles(chunks + [c], from, to + c.length)
    decreases |chunks|
  {
    if chunks != [] {
      assert (chunks + [c])[1..] == chunks[1..] + [c];
      TilesMore(chunks[1..], from + chunks[0].length, to, c);
    } else {
      assert (chunks + [c])[1..] == [];
    }
  }

  lemma {:induction false} TilesBelow(chunks: seq<Chunk>, from: nat, to: nat)
    requires Tiles(chunks, from, to)
    ensures from <= to
    ensures forall k | 0 <= k < |chunks| ::
      from <= chunks[k].offset && chunks[k].offset + chunks[k].length <= to && chunks[k].length > 0
    decreases |chunks|
  {
    if chunks == [] {
    } else {
      TilesBelow(chunks[1..], from + chunks[0].length, to);
      forall k | 0 <= k < |chunks|
        ensures from <= chunks[k].offset && chunks[k].offset + chunks[k].length <= to && chunks[k].length > 0
      {
        assert k > 0 ==> chunks[k] == chunks[1..][k - 1];
      }
    }
  }

  /** Rereading rows that tile ends where they do. */
  lemma {:induction false} RereadEnds(hash: Bytes -> Digest, content: Content, chunks: seq<Chunk>, at: Progress,
      to: nat)
    requires Tiles(chunks, at.offset, to)
    requires Reread(hash, content, chunks, at).Ok?
    ensures Reread(hash, content, chunks, at).value.offset == to
    decreases |chunks|
  {
    if chunks == [] {
    } else {
      var c := chunks[0];
      var part := ReadAt(content(at.tick), c.offset, c.length).value;
      RereadEnds(hash, content, chunks[1..], Progress(at.offset + c.length, at.fed + part, at.tick + 1), to);
    }
  }

  /** Where a process was killed between a chunk row and its progress update. */
  ghost predicate Torn(job: Job) {
    && job.chunks != []
    && Tiles(job.chunks, 0, job.processed + job.chunks[|job.chunks| - 1].length)
    && job.chunks[|job.chunks| - 1].offset == job.processed
  }

  ghost predicate Whole(job: Job) {
    Tiles(job.chunks, 0, job.processed)
  }

  /** Chunk rows tile the processed prefix, but for one more row after a kill in between. */
  ghost predicate RowsOk(job: Job, ev: Evidence) {
    job.chunkSize > 0 && job.processed <= ev.size && (Whole(job) || Torn(job))
  }

  lemma TurnRows(hash: Bytes -> Digest, ev: Evidence, content: Content, halt: Halt, job: Job, at: Progress)
    requires job.chunkSize > 0 && Whole(job) && at.offset == job.processed < ev.size
    ensures var r := Turn(hash, ev, content, halt, job, at);
            && RowsOk(r.job, ev)
            && (!halt.KillBetween? ==> Whole(r.job))
            && (r.Done? ==> r.at.offset == r.job.processed <= ev.size)
  {
    var n := Piece(ev.size - at.offset, job.chunkSize);
    var part := ReadAt(content(at.tick), at.offset, n);
    if part.Some? {
      var c := Chunk(at.offset, n, hash(part.value));
      TilesMore(job.chunks, 0, job.processed, c);
      assert (job.chunks + [c])[|job.chunks|] == c;
    }
  }

  lemma {:induction false} TailRows(hash: Bytes -> Digest, ev: Evidence, content: Content, halts: nat -> Halt, job: Job,
      at: Progress)
    requires job.chunkSize > 0 && Whole(job) && at.offset == job.processed <= ev.size
    ensures var r := Tail(hash, ev, content, halts, job, at);
            RowsOk(r.job, ev) && ((forall o :: !halts(o).KillBetween?) ==> Whole(r.job))
    decreases ev.size - at.offset
  {
    if at.offset >= ev.size {
    } else {
      TurnRows(hash, ev, content, halts(at.offset), job, at);
      var turn := Turn(hash, ev, content, halts(at.offset), job, at);
      if turn.Done? {
        TailRows(hash, ev, content, halts, turn.job, turn.at);
      }
    }
  }

  /** Whatever the file does and wherever the run dies, the rows tile the processed prefix, give or take a torn one. */
  lemma RunRows(hash: Bytes -> Digest, ev: Evidence, src: Source, halts: nat -> Halt, job: Job)
    requires job.chunkSize > 0 && Whole(job) && job.processed <= ev.size
    ensures RowsOk(RunJob(hash, ev, src, halts, job), ev)
    ensures (forall o :: !halts(o).KillBetween?) ==> Whole(RunJob(hash, ev, src, halts, job))
  {
    RunTouches(hash, ev, src, halts, job);
    if src.Opened? && Prefix(hash, src.content, job).Ok? {
      TailRows(hash, ev, src.content, halts, job.(status := Running), Prefix(hash, src.content, job).value);
    }
  }

  ghost predicate SameRows(a: Job, b: Job) {
    a.chunks == b.chunks && a.processed == b.processed && a.chunkSize == b.chunkSize
  }

  /** Only the tail changes rows and progress. */
  lemma RunTouches(hash: Bytes -> Digest, ev: Evidence, src: Source, halts: nat -> Halt, job: Job)
    requires job.chunkSize > 0
    ensures var r := RunJob(hash, ev, src, halts, job);
            || SameRows(r, job)
            || (src.Opened? && Prefix(hash, src.content, job).Ok?
                && SameRows(r, Tail(hash, ev, src.content, halts, job.(status := Running),
                  Prefix(hash, src.content, job).value).job))
  {
  }

  /** In a torn job the prefix is never accepted, or the first new row is refused: no row changes. */
  lemma TornStops(hash: Bytes -> Digest, ev: Evidence, src: Source, halts: nat -> Halt, job: Job)
    requires RowsOk(job, ev) && Torn(job) && job.processed < ev.size && !Terminal(job)
    ensures var r := RunJob(hash, ev, src, halts, job);
            SameRows(r, job) && !r.status.Verified?
  {
    if src.Opened? {
      if job.processed > 0 {
        if Reread(hash, src.content, job.chunks, Progress(0, [], 1)).Ok? {
          RereadEnds(hash, src.content, job.chunks, Progress(0, [], 1),
            job.processed + job.chunks[|job.chunks| - 1].length);
          TilesBelow(job.chunks, 0, job.processed + job.chunks[|job.chunks| - 1].length);
        }
      } else {
        assert job.chunks[|job.chunks| - 1].offset == 0;
      }
    }
  }

  /** What a kill between the two writes leaves behind. */
  ghost predicate Spoiled(ev: Evidence, job: Job) {
    RowsOk(job, ev) && Torn(job) && job.processed < ev.size && !job.status.Verified?
  }

  lemma SpoiledStays(hash: Bytes -> Digest, ev: Evidence, src: Source, halts: nat -> Halt, job: Job)
    requires Spoiled(ev, job)
    ensures Spoiled(ev, RunJob(hash, ev, src, halts, Requeued(job)))
  {
    if !Terminal(job) {
      TornStops(hash, ev, src, halts, Requeued(job));
    }
  }

  /** Such a job may fail but is never verified, whatever the file does, in any number of runs. */
  lemma {:induction false} TornNeverVerified(hash: Bytes -> Digest, ev: Evidence, job: Job, attempts: seq<Attempt>)
    requires Spoiled(ev, job)
    ensures Spoiled(ev, RunAll(hash, ev, job, attempts))
    decreases |attempts|
  {
    if attempts == [] {
    } else {
      var a := attempts[0];
      SpoiledStays(hash, ev, a.src, a.halts, job);
      TornNeverVerified(hash, ev, RunJob(hash, ev, a.src, a.halts, Requeued(job)), attempts[1..]);
    }
  }

  /** Rows end at one place only, so a torn job is not whole. */
  lemma {:induction false} TilesEnd(chunks: seq<Chunk>, from: nat, to: nat, other: nat)
    requires Tiles(chunks, from, to) && Tiles(chunks, from, other)
    ensures to == other
    decreases |chunks|
  {
    if chunks == [] {
    } else {
      TilesEnd(chunks[1..], from + chunks[0].length, to, other);
    }
  }

  lemma TornIsNotWhole(job: Job)
    requires Torn(job)
    ensures !Whole(job)
  {
    var end := job.processed + job.chunks[|job.chunks| - 1].length;
    TilesBelow(job.chunks, 0, end);
    if Whole(job) {
      TilesEnd(job.chunks, 0, job.processed, end);
    }
  }

  /** Run to its end, a torn job over an unchanged image fails. */
  lemma TornFails(hash: Bytes -> Digest, ev: Evidence, src: Source, halts: nat -> Halt, job: Job)
    requires RowsOk(job, ev) && Torn(job) && job.processed < ev.size && !Terminal(job)
    requires forall o :: halts(o).Go?
    ensures RunJob(hash, ev, src, halts, job).status.Failed?
  {
    TornStops(hash, ev, src, halts, job);
  }

  // ---- An image that does not change

  /** Rows hold the digests of the image's own pieces. */
  ghost predicate Records(hash: Bytes -> Digest, image: Bytes, chunks: seq<Chunk>) {
    forall k | 0 <= k < |chunks| ::
      chunks[k].offset + chunks[k].length <= |image|
      && chunks[k].digest == hash(image[chunks[k].offset..chunks[k].offset + chunks[k].length])
  }

  /** A job started and run so far over `image` without a kill between writes. */
  ghost predicate OnTrack(hash: Bytes -> Digest, ev: Evidence, image: Bytes, job: Job) {
    && job.chunkSize > 0 && job.processed <= |image| == ev.size
    && Whole(job) && Records(hash, image, job.chunks)
    && !job.status.Failed? && (job.status.Verified? ==> job.final == Some(hash(image)) && job.processed == ev.size)
  }

  lemma {:induction false} RereadStill(hash: Bytes -> Digest, content: Content, image: Bytes, chunks: seq<Chunk>,
      at: Progress, to: nat)
    requires Still(content, image) && Tiles(chunks, at.offset, to) && Records(hash, image, chunks)
    requires at.offset <= |image| && at.fed == image[..at.offset]
    ensures var r := Reread(hash, content, chunks, at);
            r.Ok? && r.value.offset == to <= |image| && r.value.fed == image[..to]
    decreases |chunks|
  {
    if chunks == [] {
    } else {
      var c := chunks[0];
      assert image[..at.offset] + image[c.offset..c.offset + c.length] == image[..at.offset + c.length];
      assert Records(hash, image, chunks[1..]);
      RereadStill(hash, content, image, chunks[1..],
                  Progress(at.offset + c.length, at.fed + image[c.offset..c.offset + c.length], at.tick + 1), to);
    }
  }

  lemma AdvancedOnTrack(hash: Bytes -> Digest, ev: Evidence, image: Bytes, job: Job, n: nat)
    requires OnTrack(hash, ev, image, job) && !Terminal(job) && 0 < n <= ev.size - job.processed
    ensures var c := Chunk(job.processed, n, hash(image[job.processed..job.processed + n]));
            OnTrack(hash, ev, image, job.(chunks := job.chunks + [c], processed := job.processed + n))
  {
    var c := Chunk(job.processed, n, hash(image[job.processed..job.processed + n]));
    TilesMore(job.chunks, 0, job.processed, c);
  }

  lemma NotThereYet(job: Job)
    requires Whole(job)
    ensures !exists k :: 0 <= k < |job.chunks| && job.chunks[k].offset == job.processed
  {
    TilesBelow(job.chunks, 0, job.processed);
  }

  lemma StatusOnTrack(hash: Bytes -> Digest, ev: Evidence, image: Bytes, job: Job, status: Status)
    requires OnTrack(hash, ev, image, job) && !status.Verified? && !status.Failed?
    ensures OnTrack(hash, ev, image, job.(status := status))
  {
  }

  /** A turn that can read its chunk and finds no row in its way. */
  lemma TurnIs(hash: Bytes -> Digest, ev: Evidence, content: Content, halt: Halt, job: Job, at: Progress, part: Bytes)
    requires job.chunkSize > 0 && at.offset < ev.size && !halt.KillBetween?
    requires ReadAt(content(at.tick), at.offset, Piece(ev.size - at.offset, job.chunkSize)) == Some(part)
    requires !exists k :: 0 <= k < |job.chunks| && job.chunks[k].offset == at.offset
    ensures var n := Piece(ev.size - at.offset, job.chunkSize);
            var advanced := job.(chunks := job.chunks + [Chunk(at.offset, n, hash(part))], processed := at.offset + n);
            Turn(hash, ev, content, halt, job, at) ==
              if halt.Stop? then Halted(job.(status := Interrupted))
              else if halt.KillBefore? then Halted(job)
              else if halt.KillAfter? then Halted(advanced)
              else if halt.HookStop? then Halted(advanced.(status := Interrupted))
              else Done(advanced, Progress(at.offset + n, at.fed + part, at.tick + 1))
  {
  }

  lemma TurnStill(hash: Bytes -> Digest, ev: Evidence, content: Content, halt: Halt, image: Bytes, job: Job,
      at: Progress)
    requires OnTrack(hash, ev, image, job) && !Terminal(job) && Still(content, image)
    requires at.offset == job.processed < ev.size && at.fed == image[..at.offset] && !halt.KillBetween?
    ensures var r := Turn(hash, ev, content, halt, job, at);
            && OnTrack(hash, ev, image, r.job) && !Terminal(r.job)
            && (r.Done? ==> r.at.offset == r.job.processed && r.at.fed == image[..r.at.offset])
            && (halt.Go? ==> r.Done?)
  {
    var n := Piece(ev.size - at.offset, job.chunkSize);
    var part := image[at.offset..at.offset + n];
    var advanced := job.(chunks := job.chunks + [Chunk(at.offset, n, hash(part))], processed := at.offset + n);
    AdvancedOnTrack(hash, ev, image, job, n);
    NotThereYet(job);
    TurnIs(hash, ev, content, halt, job, at, part);
    StatusOnTrack(hash, ev, image, job, Interrupted);
    StatusOnTrack(hash, ev, image, advanced, Interrupted);
    assert image[..at.offset] + part == image[..at.offset + n];
  }

  /** A kill between the chunk row and the progress update tears the job. */
  lemma TurnTears(hash: Bytes -> Digest, ev: Evidence, content: Content, image: Bytes, job: Job, at: Progress)
    requires OnTrack(hash, ev, image, job) && !Terminal(job) && Still(content, image)
    requires at.offset == job.processed < ev.size
    ensures var r := Turn(hash, ev, content, KillBetween, job, at);
            r.Halted? && Spoiled(ev, r.job) && !Terminal(r.job)
  {
    TurnRows(hash, ev, content, KillBetween, job, at);
    NotThereYet(job);
    var n := Piece(ev.size - at.offset, job.chunkSize);
    TilesMore(job.chunks, 0, job.processed, Chunk(at.offset, n, hash(image[at.offset..at.offset + n])));
  }

  /**
   Where progress stands after a run over a readable file that began at an offset; none after a kill
   between the writes.
   */
  function RunsTo(size: nat, chunkSize: nat, halts: nat -> Halt, offset: nat): Option<nat>
    requires chunkSize > 0
    decreases size - offset
  {
    if offset >= size then Some(offset)
    else
      var next := offset + Piece(size - offset, chunkSize);
      match halts(offset)
      case Stop => Some(offset)
      case KillBefore => Some(offset)
      case KillBetween => None
      case KillAfter => Some(next)
      case HookStop => Some(next)
      case Go => RunsTo(size, chunkSize, halts, next)
  }

  /** A job over an unchanged image either stands where its run got to, or was torn. */
  ghost predicate Stands(hash: Bytes -> Digest, ev: Evidence, image: Bytes, job: Job, to: Option<nat>) {
    if to.Some? then OnTrack(hash, ev, image, job) && job.processed == to.value else Spoiled(ev, job)
  }

  /** One turn ends the run where `RunsTo` says, or leaves the rest to the next. */
  lemma TurnStands(hash: Bytes -> Digest, ev: Evidence, content: Content, halts: nat -> Halt, image: Bytes, job: Job,
      at: Progress)
    requires OnTrack(hash, ev, image, job) && !Terminal(job) && Still(content, image)
    requires at.offset == job.processed < ev.size && at.fed == image[..at.offset]
    ensures var r := Turn(hash, ev, content, halts(at.offset), job, at);
            var to := RunsTo(ev.size, job.chunkSize, halts, at.offset);
            && !Terminal(r.job) && (halts(at.offset).Go? ==> r.Done?)
            && if r.Halted? then Stands(hash, ev, image, r.job, to)
               else
                 && OnTrack(hash, ev, image, r.job) && r.at.offset == r.job.processed
                   && r.at.fed == image[..r.at.offset]
                 && to == RunsTo(ev.size, job.chunkSize, halts, r.at.offset)
  {
    if halts(at.offset).KillBetween? {
      TurnTears(hash, ev, content, image, job, at);
    } else {
      TurnStill(hash, ev, content, halts(at.offset), image, job, at);
      TurnStops(hash, ev, content, halts(at.offset), image, job, at);
    }
  }

  lemma {:induction false} TailStill(hash: Bytes -> Digest, ev: Evidence, content: Content, halts: nat -> Halt,
      image: Bytes, job: Job, at: Progress)
    requires OnTrack(hash, ev, image, job) && !Terminal(job) && Still(content, image)
    requires at.offset == job.processed && at.fed == image[..at.offset]
    ensures var r := Tail(hash, ev, content, halts, job, at);
            && Stands(hash, ev, image, r.job, RunsTo(ev.size, job.chunkSize, halts, at.offset)) && !Terminal(r.job)
            && (r.Done? ==> r.at.fed == image && OnTrack(hash, ev, image, r.job) && r.job.processed == ev.size)
            && ((forall o :: halts(o).Go?) ==> r.Done?)
    decreases ev.size - at.offset
  {
    if at.offset < ev.size {
      TurnStands(hash, ev, content, halts, image, job, at);
      var turn := Turn(hash, ev, content, halts(at.offset), job, at);
      if turn.Done? {
        TailStill(hash, ev, content, halts, image, turn.job, turn.at);
      }
    } else {
      assert image[..at.offset] == image;
    }
  }

  /** Where the progress stands after one turn. */
  lemma TurnStops(hash: Bytes -> Digest, ev: Evidence, content: Content, halt: Halt, image: Bytes, job: Job,
      at: Progress)
    requires OnTrack(hash, ev, image, job) && !Terminal(job) && Still(content, image)
    requires at.offset == job.processed < ev.size && !halt.KillBetween?
    ensures var r := Turn(hash, ev, content, halt, job, at);
            && !Terminal(r.job)
            && r.job.processed == if halt.Stop? || halt.KillBefore? then at.offset
              else at.offset + Piece(ev.size - at.offset, job.chunkSize)
  {
    var n := Piece(ev.size - at.offset, job.chunkSize);
    NotThereYet(job);
    TurnIs(hash, ev, content, halt, job, at, image[at.offset..at.offset + n]);
  }

  ghost predicate Untouched(ev: Evidence, src: Source, image: Bytes) {
    src.Opened? && src.dev == ev.dev && src.ino == ev.ino && Still(src.content, image)
  }

  lemma RunOnTrack(hash: Bytes -> Digest, ev: Evidence, src: Source, halts: nat -> Halt, image: Bytes, job: Job)
    requires OnTrack(hash, ev, image, job) && Untouched(ev, src, image) && ev.digest == hash(image)
    ensures Stands(hash, ev, image, RunJob(hash, ev, src, halts, job),
      RunsTo(ev.size, job.chunkSize, halts, job.processed))
    ensures (forall o :: halts(o).Go?) ==> RunJob(hash, ev, src, halts, job).status.Verified?
  {
    if !Terminal(job) {
      assert image[..0] == [];
      RereadStill(hash, src.content, image, job.chunks, Progress(0, [], 1), job.processed);
      var at := Prefix(hash, src.content, job).value;
      assert at.fed == image[..at.offset] && at.offset == job.processed;
      TailStill(hash, ev, src.content, halts, image, job.(status := Running), at);
    }
  }

  /** Where progress stands after several runs; none once one was killed between the writes. */
  function AllRunTo(size: nat, chunkSize: nat, attempts: seq<Attempt>, offset: nat): Option<nat>
    requires chunkSize > 0
    decreases |attempts|
  {
    if attempts == [] then Some(offset)
    else
      match RunsTo(size, chunkSize, attempts[0].halts, offset)
      case None => None
      case Some(next) => AllRunTo(size, chunkSize, attempts[1..], next)
  }

  /** Over an unchanged image the chunk size and the halts alone say where a job stands after any runs. */
  lemma {:induction false} RunsStand(hash: Bytes -> Digest, ev: Evidence, image: Bytes, job: Job,
      attempts: seq<Attempt>)
    requires OnTrack(hash, ev, image, job) && ev.digest == hash(image)
    requires forall k | 0 <= k < |attempts| :: Untouched(ev, attempts[k].src, image)
    ensures Stands(hash, ev, image, RunAll(hash, ev, job, attempts),
      AllRunTo(ev.size, job.chunkSize, attempts, job.processed))
    ensures RunAll(hash, ev, job, attempts).chunkSize == job.chunkSize
    decreases |attempts|
  {
    if attempts == [] {
    } else {
      var a := attempts[0];
      var next := RunJob(hash, ev, a.src, a.halts, Requeued(job));
      assert OnTrack(hash, ev, image, Requeued(job));
      RunOnTrack(hash, ev, a.src, a.halts, image, Requeued(job));
      RunKeepsSize(hash, ev, a.src, a.halts, Requeued(job));
      RunAllKeepsSize(hash, ev, next, attempts[1..]);
      if RunsTo(ev.size, job.chunkSize, a.halts, job.processed).Some? {
        RunsStand(hash, ev, image, next, attempts[1..]);
      } else {
        TornNeverVerified(hash, ev, next, attempts[1..]);
      }
    }
  }

  lemma {:induction false} RunAllKeepsSize(hash: Bytes -> Digest, ev: Evidence, job: Job, attempts: seq<Attempt>)
    requires job.chunkSize > 0
    ensures RunAll(hash, ev, job, attempts).chunkSize == job.chunkSize
    decreases |attempts|
  {
    if attempts == [] {
    } else {
      RunKeepsSize(hash, ev, attempts[0].src, attempts[0].halts, Requeued(job));
      RunAllKeepsSize(hash, ev, RunJob(hash, ev, attempts[0].src, attempts[0].halts, Requeued(job)), attempts[1..]);
    }
  }

  /**
   Over an unchanged image, after any runs stopped or killed anywhere, the next full run verifies the
   job, with the digest of the whole image whatever the chunk size, exactly when no run was killed
   between a chunk row and its progress update; that is, exactly when the chunk rows end where the
   progress does.
   */
  lemma VerifiedIffNeverTorn(hash: Bytes -> Digest, ev: Evidence, image: Bytes, job: Job, attempts: seq<Attempt>,
      last: Attempt)
    requires OnTrack(hash, ev, image, job) && ev.digest == hash(image)
    requires forall k | 0 <= k < |attempts| :: Untouched(ev, attempts[k].src, image)
    requires Untouched(ev, last.src, image) && forall o :: last.halts(o).Go?
    ensures RunAll(hash, ev, job, attempts).chunkSize == job.chunkSize
    ensures var r := RunJob(hash, ev, last.src, last.halts, Requeued(RunAll(hash, ev, job, attempts)));
            && (r.status.Verified? <==> AllRunTo(ev.size, job.chunkSize, attempts, job.processed).Some?)
            && (r.status.Verified? <==> Whole(RunAll(hash, ev, job, attempts)))
            && (r.status.Verified? ==> r.final == Some(hash(image)))
  {
    var before := RunAll(hash, ev, job, attempts);
    RunsStand(hash, ev, image, job, attempts);
    if AllRunTo(ev.size, job.chunkSize, attempts, job.processed).Some? {
      assert OnTrack(hash, ev, image, Requeued(before));
      RunOnTrack(hash, ev, last.src, last.halts, image, Requeued(before));
      GoesThrough(ev.size, job.chunkSize, last.halts, before.processed);
    } else {
      TornIsNotWhole(before);
      SpoiledStays(hash, ev, last.src, last.halts, before);
    }
  }

  lemma {:induction false} GoesThrough(size: nat, chunkSize: nat, halts: nat -> Halt, offset: nat)
    requires chunkSize > 0 && offset <= size && forall o :: halts(o).Go?
    ensures RunsTo(size, chunkSize, halts, offset) == Some(size)
    decreases size - offset
  {
    if offset >= size {
    } else {
      GoesThrough(size, chunkSize, halts, offset + Piece(size - offset, chunkSize));
    }
  }

  /** A kill between the two writes of the first chunk of an empty-handed job: the smallest failing run. */
  lemma OneKillSpoils(hash: Bytes -> Digest, image: Bytes, chunkSize: nat, last: Attempt)
    requires chunkSize > 0 && image != []
    requires Untouched(Evidence(1, 1, |image|, hash(image)), last.src, image) && forall o :: last.halts(o).Go?
    ensures var ev := Evidence(1, 1, |image|, hash(image));
            var kill := Attempt(last.src, o => if o == 0 then KillBetween else Go);
            var job := Job(Queued, chunkSize, 0, [], None, None, []);
            && RunAll(hash, ev, job, [kill]).chunkSize == chunkSize
            && !RunJob(hash, ev, last.src, last.halts, Requeued(RunAll(hash, ev, job, [kill]))).status.Verified?
  {
    var ev := Evidence(1, 1, |image|, hash(image));
    var kill := Attempt(last.src, o => if o == 0 then KillBetween else Go);
    VerifiedIffNeverTorn(hash, ev, image, Job(Queued, chunkSize, 0, [], None, None, []), [kill], last);
  }

  // ---- An image changed while the job was down

  lemma {:induction false} RereadOther(hash: Bytes -> Digest, content: Content, image: Bytes, other: Bytes,
      chunks: seq<Chunk>, at: Progress, to: nat)
    requires Injective(hash) && Still(content, other) && |other| == |image|
    requires Tiles(chunks, at.offset, to) && Records(hash, image, chunks)
    ensures at.offset <= to && (chunks != [] ==> to <= |image|)
    ensures to <= |image| ==>
              if other[at.offset..to] == image[at.offset..to] then Reread(hash, content, chunks, at).Ok?
              else Reread(hash, content, chunks, at) == Err(PrefixModified)
    decreases |chunks|
  {
    if chunks == [] {
    } else {
      var c := chunks[0];
      var mid := c.offset + c.length;
      assert Records(hash, image, chunks[1..]);
      var next := Progress(mid, at.fed + other[c.offset..mid], at.tick + 1);
      RereadOther(hash, content, image, other, chunks[1..], next, to);
      if chunks[1..] == [] {
        assert to == mid;
      }
      RereadFirst(hash, content, image, other, chunks, at, to);
    }
  }

  /** The whole prefix passes exactly when the first chunk and the rest do. */
  lemma RereadFirst(hash: Bytes -> Digest, content: Content, image: Bytes, other: Bytes, chunks: seq<Chunk>,
      at: Progress, to: nat)
    requires Injective(hash) && Still(content, other) && |other| == |image|
    requires chunks != [] && chunks[0].offset == at.offset && Records(hash, image, chunks)
    requires var mid := chunks[0].offset + chunks[0].length;
             var rest := Reread(hash, content, chunks[1..],
                                Progress(mid, at.fed + other[at.offset..mid], at.tick + 1));
             && mid <= to <= |image|
             && if other[mid..to] == image[mid..to] then rest.Ok? else rest == Err(PrefixModified)
    ensures if other[at.offset..to] == image[at.offset..to] then Reread(hash, content, chunks, at).Ok?
            else Reread(hash, content, chunks, at) == Err(PrefixModified)
  {
    RereadOne(hash, content, image, other, chunks, at);
    SplitAt(image, other, at.offset, chunks[0].offset + chunks[0].length, to);
  }

  /** The first chunk passes exactly when its bytes are the image's. */
  lemma RereadOne(hash: Bytes -> Digest, content: Content, image: Bytes, other: Bytes, chunks: seq<Chunk>, at: Progress)
    requires Injective(hash) && Still(content, other) && |other| == |image|
    requires chunks != [] && chunks[0].offset == at.offset && Records(hash, image, chunks)
    ensures var c := chunks[0];
            var mid := c.offset + c.length;
            Reread(hash, content, chunks, at) ==
              if other[c.offset..mid] == image[c.offset..mid] then
                Reread(hash, content, chunks[1..], Progress(mid, at.fed + other[c.offset..mid], at.tick + 1))
              else Err(PrefixModified)
  {
    var c := chunks[0];
    assert hash(other[c.offset..c.offset + c.length]) == hash(image[c.offset..c.offset + c.length])
      ==> other[c.offset..c.offset + c.length] == image[c.offset..c.offset + c.length];
  }

  lemma SplitAt(a: Bytes, b: Bytes, from: nat, mid: nat, to: nat)
    requires from <= mid <= to <= |a| == |b|
    ensures a[from..to] == b[from..to] <==> a[from..mid] == b[from..mid] && a[mid..to] == b[mid..to]
  {
    assert a[from..to] == a[from..mid] + a[mid..to];
    assert b[from..to] == b[from..mid] + b[mid..to];
    assert a[from..to][..mid - from] == a[from..mid] && a[from..to][mid - from..] == a[mid..to];
    assert b[from..to][..mid - from] == b[from..mid] && b[from..to][mid - from..] == b[mid..to];
  }

  /** Resuming after any change that keeps the inode: the run verifies exactly when nothing changed. */
  lemma ChangeIsFound(hash: Bytes -> Digest, ev: Evidence, src: Source, halts: nat -> Halt, image: Bytes, other: Bytes,
      job: Job)
    requires Injective(hash) && OnTrack(hash, ev, image, job) && !Terminal(job) && ev.digest == hash(image)
    requires Untouched(ev, src, other) && forall o :: halts(o).Go?
    ensures RunJob(hash, ev, src, halts, job).status.Verified? <==> other == image
  {
    if other == image {
      RunOnTrack(hash, ev, src, halts, image, job);
    }
    if RunJob(hash, ev, src, halts, job).status.Verified? {
      VerifiedMeansOriginal(hash, ev, src, halts, job, image);
      assert |other| == ev.size == |image|;
      forall p | 0 <= p < |image|
        ensures image[p] == other[p]
      {
        assert Seen(src.content, p, image[p]);
      }
      assert image == other;
    }
  }

  /** The reasons a run can give once the file was found to be the registered one. */
  ghost predicate LaterReason(reason: Reason) {
    reason.NonContiguous? || reason.PrefixUnreadable? || reason.PrefixModified? || reason.CoverMismatch?
    || reason.TailUnreadable? || reason.ChunkExists? || reason.ChangedDuring? || reason.DigestMismatch?
  }

  /**
   A run reports that the evidence is not mounted, cannot be opened, is another file or has another size
   exactly when it finds it so; it then fails the job with its rows as they were.
   */
  lemma OpeningFailsIff(hash: Bytes -> Digest, ev: Evidence, src: Source, halts: nat -> Halt, job: Job)
    requires job.chunkSize > 0 && !Terminal(job) && job.error.None?
    ensures var r := RunJob(hash, ev, src, halts, job);
            var registered := src.Opened? && src.dev == ev.dev && src.ino == ev.ino;
            && (r.error == Some(NotMounted) <==> src.Unmounted?)
            && (r.error == Some(OpenFailed) <==> src.Unopenable?)
            && (r.error == Some(IdentityChanged) <==> src.Opened? && !registered)
            && (r.error == Some(SizeChanged) <==> registered && |src.content(0)| != ev.size)
            && (r.error.Some? && !LaterReason(r.error.value) ==> r.status.Failed? && r.final.None? && SameRows(r, job))
  {
    if src.Opened? {
      RereadReason(hash, src.content, job.chunks, Progress(0, [], 1));
      if Prefix(hash, src.content, job).Ok? {
        TailReason(hash, ev, src.content, halts, job.(status := Running), Prefix(hash, src.content, job).value);
      }
    }
  }

  lemma {:induction false} RereadReason(hash: Bytes -> Digest, content: Content, chunks: seq<Chunk>, at: Progress)
    ensures var r := Reread(hash, content, chunks, at);
            r.Err? ==> r.error.NonContiguous? || r.error.PrefixUnreadable? || r.error.PrefixModified?
    decreases |chunks|
  {
    if chunks != [] && chunks[0].offset == at.offset && at.offset + chunks[0].length <= |content(at.tick)| {
      var part := content(at.tick)[at.offset..at.offset + chunks[0].length];
      RereadReason(hash, content, chunks[1..], Progress(at.offset + chunks[0].length, at.fed + part, at.tick + 1));
    }
  }

  /** It reports a modified prefix exactly when a processed byte changed. */
  lemma PrefixChangeIsFound(hash: Bytes -> Digest, ev: Evidence, src: Source, halts: nat -> Halt, image: Bytes,
      other: Bytes, job: Job)
    requires Injective(hash) && OnTrack(hash, ev, image, job) && !Terminal(job) && job.error != Some(PrefixModified)
    requires Untouched(ev, src, other) && |other| == |image|
    ensures other[..job.processed] != image[..job.processed] <==>
      RunJob(hash, ev, src, halts, job).error == Some(PrefixModified)
  {
    RereadOther(hash, src.content, image, other, job.chunks, Progress(0, [], 1), job.processed);
    assert other[0..job.processed] == other[..job.processed] && image[0..job.processed] == image[..job.processed];
    if Prefix(hash, src.content, job).Ok? {
      TailReason(hash, ev, src.content, halts, job.(status := Running), Prefix(hash, src.content, job).value);
    }
    if job.processed > 0 && other[..job.processed] == image[..job.processed] {
      RereadEnds(hash, src.content, job.chunks, Progress(0, [], 1), job.processed);
    }
  }

  lemma {:induction false} TailReason(hash: Bytes -> Digest, ev: Evidence, content: Content, halts: nat -> Halt,
      job: Job, at: Progress)
    requires job.chunkSize > 0
    ensures var error := Tail(hash, ev, content, halts, job, at).job.error;
            error == job.error || error == Some(TailUnreadable) || error == Some(ChunkExists)
    decreases ev.size - at.offset
  {
    if at.offset >= ev.size {
    } else {
      var turn := Turn(hash, ev, content, halts(at.offset), job, at);
      if turn.Done? {
        TailReason(hash, ev, content, halts, turn.job, turn.at);
      }
    }
  }

  // ---- The reason recorded is true

  /** How far the first `k` rows reach if each starts where the one before ends. */
  function Reach(chunks: seq<Chunk>, k: nat): nat
    requires k <= |chunks|
  {
    if k == 0 then 0 else Reach(chunks, k - 1) + chunks[k - 1].length
  }

  /** The rows do not follow each other. */
  ghost predicate Gapped(chunks: seq<Chunk>) {
    exists k :: 0 <= k < |chunks| && chunks[k].offset != Reach(chunks, k)
  }

  /** Some read found the file too short for a stored row. */
  ghost predicate RowUnreadable(content: Content, chunks: seq<Chunk>) {
    exists k, t: nat :: 0 <= k < |chunks| && chunks[k].offset + chunks[k].length > |content(t)|
  }

  /** Some read found bytes with another digest than the stored row's. */
  ghost predicate RowModified(hash: Bytes -> Digest, content: Content, chunks: seq<Chunk>) {
    exists k, t: nat :: 0 <= k < |chunks| && Differs(hash, content(t), chunks[k])
  }

  ghost predicate Differs(hash: Bytes -> Digest, file: Bytes, c: Chunk) {
    c.offset + c.length <= |file| && hash(file[c.offset..c.offset + c.length]) != c.digest
  }

  /** What a recorded reason says of the stored rows and of the file as some read found it. */
  ghost predicate IsTrue(hash: Bytes -> Digest, ev: Evidence, src: Source, job: Job, reason: Reason,
      final: Option<Digest>)
    requires src.Opened?
  {
    match reason
    case NotMounted => false
    case OpenFailed => false
    case IdentityChanged => src.dev != ev.dev || src.ino != ev.ino
    case SizeChanged => |src.content(0)| != ev.size
    case NonContiguous => Gapped(job.chunks)
    case PrefixUnreadable => RowUnreadable(src.content, job.chunks)
    case PrefixModified => RowModified(hash, src.content, job.chunks)
    case CoverMismatch => !Gapped(job.chunks) && Reach(job.chunks, |job.chunks|) != job.processed
    case TailUnreadable => exists t: nat :: |src.content(t)| < ev.size
    case ChunkExists => RowAhead(job)
    case ChangedDuring => exists t: nat :: t > 0 && |src.content(t)| != ev.size
    case DigestMismatch => final.Some? && final.value != ev.digest
  }

  /** The first `k` rows follow each other. */
  ghost predicate Follow(chunks: seq<Chunk>, k: nat)
    requires k <= |chunks|
  {
    forall i | 0 <= i < k :: chunks[i].offset == Reach(chunks, i)
  }

  /** What is true when rereading gives this result. */
  ghost predicate RereadMeans(hash: Bytes -> Digest, content: Content, chunks: seq<Chunk>,
      r: Result<Progress, Reason>)
  {
    match r
    case Ok(end) => Follow(chunks, |chunks|) && end.offset == Reach(chunks, |chunks|)
    case Err(NonContiguous) => Gapped(chunks)
    case Err(PrefixUnreadable) => RowUnreadable(content, chunks)
    case Err(PrefixModified) => RowModified(hash, content, chunks)
    case Err(_) => false
  }

  lemma {:induction false} RereadTrue(hash: Bytes -> Digest, content: Content, chunks: seq<Chunk>, k: nat, at: Progress,
      r: Result<Progress, Reason>)
    requires k <= |chunks| && at.offset == Reach(chunks, k) && Follow(chunks, k)
    requires r == Reread(hash, content, chunks[k..], at)
    ensures RereadMeans(hash, content, chunks, r)
    decreases |chunks| - k
  {
    if k == |chunks| {
      assert chunks[k..] == [];
    } else {
      var next := RowTrue(hash, content, chunks, k, at, r);
      if next.Some? {
        RereadTrue(hash, content, chunks, k + 1, next.value, r);
      }
    }
  }

  /** Row `k` is refused for a reason that is true, or the rest decides. */
  lemma RowTrue(hash: Bytes -> Digest, content: Content, chunks: seq<Chunk>, k: nat, at: Progress,
      r: Result<Progress, Reason>) returns (next: Option<Progress>)
    requires k < |chunks| && at.offset == Reach(chunks, k) && r == Reread(hash, content, chunks[k..], at)
    ensures match next
            case None => RereadMeans(hash, content, chunks, r)
            case Some(p) =>
              && chunks[k].offset == at.offset && p.offset == Reach(chunks, k + 1)
              && r == Reread(hash, content, chunks[k + 1..], p)
  {
    var c := chunks[k];
    assert chunks[k..][0] == c && chunks[k..][1..] == chunks[k + 1..];
    var part := ReadAt(content(at.tick), c.offset, c.length);
    next := None;
    if c.offset == at.offset && part.Some? {
      if hash(part.value) != c.digest {
        assert Differs(hash, content(at.tick), c);
      } else {
        next := Some(Progress(at.offset + c.length, at.fed + part.value, at.tick + 1));
      }
    }
  }

  lemma PrefixTrue(hash: Bytes -> Digest, ev: Evidence, src: Source, job: Job)
    requires src.Opened?
    ensures var r := Prefix(hash, src.content, job);
            && (r.Err? ==> IsTrue(hash, ev, src, job, r.error, None))
            && (r.Ok? ==> r.value.offset == job.processed)
  {
    RereadTrue(hash, src.content, job.chunks, 0, Progress(0, [], 1),
      Reread(hash, src.content, job.chunks[0..], Progress(0, [], 1)));
    assert job.chunks[0..] == job.chunks;
  }

  /** A row stored at or beyond the progress. */
  ghost predicate RowAhead(job: Job) {
    exists k :: 0 <= k < |job.chunks| && job.chunks[k].offset >= job.processed
  }

  /** The rows are those a run began with, and some behind the offset it has reached. */
  ghost predicate Grown(start: Job, job: Job, offset: nat) {
    && |start.chunks| <= |job.chunks| && start.processed <= offset
    && (forall k | 0 <= k < |start.chunks| :: job.chunks[k] == start.chunks[k])
    && (forall k | |start.chunks| <= k < |job.chunks| :: start.processed <= job.chunks[k].offset < offset)
  }

  lemma {:induction false} TailTrue(hash: Bytes -> Digest, ev: Evidence, content: Content, halts: nat -> Halt,
      start: Job, job: Job, at: Progress)
    requires job.chunkSize > 0 && job.error.None? && Grown(start, job, at.offset)
    ensures var r := Tail(hash, ev, content, halts, job, at);
            && (r.job.error == Some(TailUnreadable) ==> exists t: nat :: |content(t)| < ev.size)
            && (r.job.error == Some(ChunkExists) ==> RowAhead(start))
    decreases ev.size - at.offset
  {
    if at.offset < ev.size {
      var turn := Turn(hash, ev, content, halts(at.offset), job, at);
      if turn.Done? {
        TailTrue(hash, ev, content, halts, start, turn.job, turn.at);
      } else if turn.job.error == Some(TailUnreadable) {
        assert |content(at.tick)| < ev.size;
      } else if turn.job.error == Some(ChunkExists) {
        var k :| 0 <= k < |job.chunks| && job.chunks[k].offset == at.offset;
        assert start.chunks[k].offset >= start.processed;
      }
    }
  }

  /**
   Whatever reason a run records is true: the file had another size when it was opened, the rows do not follow
   each other or do not end with the progress, a row could not be read or had another digest, a row was there
   already, or the file was shorter, or at the last look of another size, than registered.
   */
  lemma ReasonIsTrue(hash: Bytes -> Digest, ev: Evidence, src: Source, halts: nat -> Halt, job: Job)
    requires job.chunkSize > 0 && !Terminal(job) && job.error.None?
    requires RunJob(hash, ev, src, halts, job).error.Some? && src.Opened?
    ensures var r := RunJob(hash, ev, src, halts, job);
            r.status.Failed? && IsTrue(hash, ev, src, job, r.error.value, r.final)
  {
    PrefixTrue(hash, ev, src, job);
    if Prefix(hash, src.content, job).Ok? {
      var at := Prefix(hash, src.content, job).value;
      var running := job.(status := Running);
      RereadObserves(hash, src.content, job.chunks, Progress(0, [], 1));
      TailObserves(hash, ev, src.content, halts, running, at);
      TailTrue(hash, ev, src.content, halts, job, running, at);
      TailReason(hash, ev, src.content, halts, running, at);
      TailFails(hash, ev, src.content, halts, running, at);
    }
  }

  lemma {:induction false} TailFails(hash: Bytes -> Digest, ev: Evidence, content: Content, halts: nat -> Halt,
      job: Job, at: Progress)
    requires job.chunkSize > 0 && !Terminal(job) && job.error.None?
    ensures var r := Tail(hash, ev, content, halts, job, at);
            && (r.job.error.Some? <==> r.job.status.Failed?) && (r.Done? ==> r.job.error.None?)
    decreases ev.size - at.offset
  {
    if at.offset < ev.size {
      var turn := Turn(hash, ev, content, halts(at.offset), job, at);
      if turn.Done? {
        TailFails(hash, ev, content, halts, turn.job, turn.at);
      }
    }
  }

  /** After a restart no job is running, and nothing else about it differs. */
  lemma RestartStopsRunning(job: Job)
    ensures !Requeued(job).status.Running? && Requeued(job).(status := job.status) == job
    ensures !job.status.Running? ==> Requeued(job) == job
  {
  }
}
