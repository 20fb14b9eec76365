/** Reading and hashing a disk image in chunks, while it may change under the reader. */
module HashPasses {
  import opened Wrappers
  import opened Hashing

  /** The contents of an open file at each system call. */
  type Content = nat -> Bytes

  /** A positioned read; a short one is an error. */
  function ReadAt(file: Bytes, offset: nat, n: nat): (r: Option<Bytes>)
    ensures r.Some? <==> offset + n <= |file|
    ensures r.Some? ==> r.value == file[offset..offset + n]
  {
    if offset + n <= |file| then Some(file[offset..offset + n]) else None
  }

  /** Some call found byte `b` at position `p`. */
  ghost predicate Seen(content: Content, p: nat, b: bv8) {
    exists t: nat :: p < |content(t)| && content(t)[p] == b
  }

  ghost predicate Observed(content: Content, fed: Bytes) {
    forall p | 0 <= p < |fed| :: Seen(content, p, fed[p])
  }

  /** The byte was read at its place by one of the calls numbered `from` up to `to`. */
  ghost predicate SeenBetween(content: Content, p: nat, b: bv8, from: nat, to: nat) {
    exists t :: from <= t < to && p < |content(t)| && content(t)[p] == b
  }

  ghost predicate ReadBetween(content: Content, fed: Bytes, from: nat, to: nat) {
    forall p | 0 <= p < |fed| :: SeenBetween(content, p, fed[p], from, to)
  }

  lemma ReadMore(content: Content, fed: Bytes, from: nat, t: nat, n: nat)
    requires from <= t && ReadBetween(content, fed, from, t) && |fed| + n <= |content(t)|
    ensures ReadBetween(content, fed + content(t)[|fed|..|fed| + n], from, t + 1)
  {
    var longer := fed + content(t)[|fed|..|fed| + n];
    forall p | 0 <= p < |longer|
      ensures SeenBetween(content, p, longer[p], from, t + 1)
    {
      if p < |fed| {
        assert SeenBetween(content, p, fed[p], from, t);
      } else {
        assert content(t)[p] == longer[p];
      }
    }
  }

  /** Bytes of the given size and digest were read in order within a span of calls. */
  ghost predicate PassRead(hash: Bytes -> Digest, content: Content, size: nat, digest: Digest, from: nat, to: nat) {
    exists fed :: |fed| == size && digest == hash(fed) && ReadBetween(content, fed, from, to)
  }

  // ---- One pass

  datatype PassError = InvalidChunkSize | FileChanged

  datatype Pass = Pass(digest: Digest, next: nat)

  function Piece(left: nat, chunkSize: nat): nat {
    if left > chunkSize then chunkSize else left
  }

  /** The rest of a pass: `fed` has been hashed, and the next call is number `t`. */
  function PassFrom(hash: Bytes -> Digest, content: Content, size: nat, chunkSize: nat, fed: Bytes,
      t: nat): Result<Pass, PassError>
    requires chunkSize > 0
    decreases size - |fed|
  {
    if |fed| >= size then Ok(Pass(hash(fed), t))
    else
      match ReadAt(content(t), |fed|, Piece(size - |fed|, chunkSize))
      case None => Err(FileChanged)
      case Some(part) => PassFrom(hash, content, size, chunkSize, fed + part, t + 1)
  }

  function Hashed(hash: Bytes -> Digest, content: Content, size: nat, chunkSize: int, t: nat): Result<Pass, PassError> {
    if chunkSize <= 0 then Err(InvalidChunkSize) else PassFrom(hash, content, size, chunkSize, [], t)
  }

  method HashPass(hash: Bytes -> Digest, content: Content, size: nat, chunkSize: int, t: nat)
    returns (r: Result<Pass, PassError>)
    ensures r == Hashed(hash, content, size, chunkSize, t)
    ensures r.Ok? ==> r.value.next >= t && PassRead(hash, content, size, r.value.digest, t, r.value.next)
    ensures r == Err(InvalidChunkSize) <==> chunkSize <= 0
  {
    if chunkSize <= 0 {
      return Err(InvalidChunkSize);
    }
    var fed, now := [], t;
    while |fed| < size
      invariant PassSoFar(hash, content, size, chunkSize, t, fed, now)
      decreases size - |fed|
    {
      PassGoesOn(hash, content, size, chunkSize, t, fed, now);
      var part := ReadAt(content(now), |fed|, Piece(size - |fed|, chunkSize));
      if part.None? {
        return Err(FileChanged);
      }
      fed := fed + part.value;
      now := now + 1;
    }
    r := Ok(Pass(hash(fed), now));
    PassEnds(hash, content, size, chunkSize, t, fed, now);
  }

  /** A pass begun with call `t` has read `fed`, and what is left decides. */
  ghost predicate PassSoFar(hash: Bytes -> Digest, content: Content, size: nat, chunkSize: nat, t: nat, fed: Bytes,
      now: nat)
    requires chunkSize > 0
  {
    && |fed| <= size && t <= now && ReadBetween(content, fed, t, now)
    && Hashed(hash, content, size, chunkSize, t) == PassFrom(hash, content, size, chunkSize, fed, now)
  }

  /** One read of a pass. */
  lemma PassGoesOn(hash: Bytes -> Digest, content: Content, size: nat, chunkSize: nat, t: nat, fed: Bytes, now: nat)
    requires chunkSize > 0 && |fed| < size && PassSoFar(hash, content, size, chunkSize, t, fed, now)
    ensures match ReadAt(content(now), |fed|, Piece(size - |fed|, chunkSize))
            case None => Hashed(hash, content, size, chunkSize, t) == Err(FileChanged)
            case Some(part) => part != [] && PassSoFar(hash, content, size, chunkSize, t, fed + part, now + 1)
  {
    var n := Piece(size - |fed|, chunkSize);
    if ReadAt(content(now), |fed|, n).Some? {
      ReadMore(content, fed, t, now, n);
    }
  }

  lemma PassEnds(hash: Bytes -> Digest, content: Content, size: nat, chunkSize: nat, t: nat, fed: Bytes, now: nat)
    requires chunkSize > 0 && |fed| >= size && PassSoFar(hash, content, size, chunkSize, t, fed, now)
    ensures Hashed(hash, content, size, chunkSize, t) == Ok(Pass(hash(fed), now))
    ensures t <= now && PassRead(hash, content, size, hash(fed), t, now)
  {
  }

  ghost predicate Still(content: Content, image: Bytes) {
    forall t: nat :: content(t) == image
  }

  /** On a file that does not change the digest is the whole file's, whatever the chunk size. */
  lemma {:induction false} PassOfStill(hash: Bytes -> Digest, content: Content, image: Bytes, chunkSize: nat, done: nat,
      t: nat)
    requires chunkSize > 0 && Still(content, image) && done <= |image|
    ensures PassFrom(hash, content, |image|, chunkSize, image[..done], t).Ok?
    ensures PassFrom(hash, content, |image|, chunkSize, image[..done], t).value.digest == hash(image)
    decreases |image| - done
  {
    if done < |image| {
      var n := Piece(|image| - done, chunkSize);
      assert image[..done] + image[done..done + n] == image[..done + n];
      PassOfStill(hash, content, image, chunkSize, done + n, t + 1);
    } else {
      assert image[..done] == image;
    }
  }

  // ---- The baseline

  datatype Identity = Identity(dev: nat, ino: nat, size: nat, mtime: int, nlink: nat)

  /** Two passes with a stat before, between and after; `meta` gives everything but the size. */
  function Baseline(hash: Bytes -> Digest, content: Content, stat: nat -> Identity, before: Identity,
      chunkSize: int): Result<Digest, PassError> {
    match Hashed(hash, content, before.size, chunkSize, 1)
    case Err(e) => Err(e)
    case Ok(first) =>
      if stat(first.next) != before then Err(FileChanged)
      else
        match Hashed(hash, content, before.size, chunkSize, first.next + 1)
        case Err(e) => Err(e)
        case Ok(second) =>
          if first.digest != second.digest || stat(second.next) != before then Err(FileChanged)
          else Ok(first.digest)
  }

  method ComputeBaseline(hash: Bytes -> Digest, content: Content, stat: nat -> Identity, before: Identity,
      chunkSize: int)
    returns (r: Result<Digest, PassError>)
    ensures r == Baseline(hash, content, stat, before, chunkSize)
    ensures r.Ok? ==> exists mid, last :: TwoPasses(hash, content, stat, before, r.value, mid, last)
  {
    var first := HashPass(hash, content, before.size, chunkSize, 1);
    if first.Err? {
      return Err(first.error);
    }
    if stat(first.value.next) != before {
      return Err(FileChanged);
    }
    var second := HashPass(hash, content, before.size, chunkSize, first.value.next + 1);
    if second.Err? {
      return Err(second.error);
    }
    if first.value.digest != second.value.digest {
      return Err(FileChanged);
    }
    if stat(second.value.next) != before {
      return Err(FileChanged);
    }
    assert TwoPasses(hash, content, stat, before, first.value.digest, first.value.next, second.value.next);
    r := Ok(first.value.digest);
  }

  /** Two passes gave the digest, and the looks between and after them found the file's identity as it was before. */
  ghost predicate TwoPasses(hash: Bytes -> Digest, content: Content, stat: nat -> Identity, before: Identity,
      digest: Digest, mid: nat, last: nat) {
    && 1 <= mid < last && stat(mid) == before && stat(last) == before
    && PassRead(hash, content, before.size, digest, 1, mid)
    && PassRead(hash, content, before.size, digest, mid + 1, last)
  }

  /** A file that keeps its contents and its identity gets its own digest as baseline. */
  lemma BaselineOfStill(hash: Bytes -> Digest, content: Content, stat: nat -> Identity, before: Identity,
      chunkSize: int, image: Bytes)
    requires Still(content, image) && before.size == |image| && forall t :: stat(t) == before
    ensures Baseline(hash, content, stat, before, chunkSize) ==
      if chunkSize <= 0 then Err(InvalidChunkSize) else Ok(hash(image))
  {
    if chunkSize > 0 {
      PassOfStill(hash, content, image, chunkSize, 0, 1);
      var first := Hashed(hash, content, |image|, chunkSize, 1).value;
      PassOfStill(hash, content, image, chunkSize, 0, first.next + 1);
      assert image[..0] == [];
    }
  }

  /** A rewrite that one pass sees and the other does not is refused, however it hides from stat. */
  lemma TornReadRefused(hash: Bytes -> Digest, stat: nat -> Identity, before: Identity, chunkSize: int,
      content: Content, a: Bytes, b: Bytes, t: nat)
    requires Injective(hash) && chunkSize > 0 && a != b && |a| == |b| == before.size
    requires Hashed(hash, content, before.size, chunkSize, 1) == Ok(Pass(hash(a), t))
    requires Hashed(hash, content, before.size, chunkSize, t + 1).Ok? ==>
               Hashed(hash, content, before.size, chunkSize, t + 1).value.digest == hash(b)
    ensures Baseline(hash, content, stat, before, chunkSize) == Err(FileChanged)
  {
    NoOtherError(hash, content, before.size, chunkSize, [], t + 1);
    assert hash(a) != hash(b);
    assert Hashed(hash, content, before.size, chunkSize, t + 1) ==
      PassFrom(hash, content, before.size, chunkSize, [], t + 1);
  }

  lemma {:induction false} NoOtherError(hash: Bytes -> Digest, content: Content, size: nat, chunkSize: nat, fed: Bytes,
      t: nat)
    requires chunkSize > 0
    ensures PassFrom(hash, content, size, chunkSize, fed, t).Err? ==>
      PassFrom(hash, content, size, chunkSize, fed, t).error.FileChanged?
    decreases size - |fed|
  {
    if |fed| >= size {
    } else {
      var part := ReadAt(content(t), |fed|, Piece(size - |fed|, chunkSize));
      if part.Some? {
        NoOtherError(hash, content, size, chunkSize, fed + part.value, t + 1);
      }
    }
  }
}
