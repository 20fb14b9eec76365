/**
 Chunk arithmetic of a chunked upload: how many chunks a dataset is divided into and how many
 bytes each of them must have. Integers are 64-bit in the service, so the rounding-up division
 can wrap around; the model keeps that.
 */
module ChunkPlan {

  const INT64_MAX := 0x7fff_ffff_ffff_ffff

  /** Two's complement reduction to a signed 64-bit integer. */
  function Wrap64(x: int): (w: int)
    ensures -INT64_MAX - 1 <= w <= INT64_MAX
    ensures -INT64_MAX - 1 <= x <= INT64_MAX ==> w == x
  {
    var m := x % 0x1_0000_0000_0000_0000;
    if m <= INT64_MAX then m else m - 0x1_0000_0000_0000_0000
  }

  /** Integer division that truncates toward zero. */
  function Quotient(a: int, b: int): int
    requires b > 0
  {
    if a >= 0 then a / b else -((-a) / b)
  }

  function ChunkCount(total: int, chunk: int): int
    requires chunk > 0
  {
    Quotient(Wrap64(total + chunk - 1), chunk)
  }

  /** The exact size the service demands of chunk `i` out of `count`. */
  function ExpectedSize(total: int, chunk: int, count: int, i: int): int
  {
    if i == count - 1 then total - chunk * (count - 1) else chunk
  }

  /** Number of bytes in the first `n` chunks. */
  function PlannedBytes(total: int, chunk: int, count: int, n: nat): int
  {
    if n == 0 then 0 else PlannedBytes(total, chunk, count, n - 1) + ExpectedSize(total, chunk, count, n - 1)
  }

  /** The plan does what it is for: positive sizes, none above `chunk`, together exactly `total`. */
  ghost predicate Tiles(total: int, chunk: int, count: int)
  {
    && 0 < count
    && (forall i :: 0 <= i < count ==> 0 < ExpectedSize(total, chunk, count, i) <= chunk)
    && PlannedBytes(total, chunk, count, count) == total
  }

  lemma {:induction false} FullChunks(total: int, chunk: int, count: int, n: nat)
    requires n < count
    ensures PlannedBytes(total, chunk, count, n) == chunk * n
  {
    if n == 0 {
    } else {
      FullChunks(total, chunk, count, n - 1);
      assert chunk * n == chunk * (n - 1) + chunk;
    }
  }

  /** Whatever the sizes are, a positive number of chunks always adds up to the declared total. */
  lemma PlanTotal(total: int, chunk: int, count: int)
    requires 0 < count
    ensures PlannedBytes(total, chunk, count, count) == total
  {
    FullChunks(total, chunk, count, count - 1);
  }

  lemma RoundUp(total: int, chunk: int, count: int)
    requires 0 < total && 0 < chunk
    requires count == (total + chunk - 1) / chunk
    ensures 0 < count
    ensures chunk * (count - 1) < total <= chunk * count
  {
    var r := (total + chunk - 1) % chunk;
    assert total + chunk - 1 == chunk * count + r;
    assert chunk * (count - 1) == chunk * count - chunk;
  }

  lemma TilesWhen(total: int, chunk: int, count: int)
    requires 0 < count && 0 < chunk && chunk * (count - 1) < total <= chunk * count
    ensures Tiles(total, chunk, count)
  {
    PlanTotal(total, chunk, count);
    assert chunk * (count - 1) == chunk * count - chunk;
  }

  lemma QuotientNonNegative(a: int, b: int)
    requires a >= 0 && b > 0
    ensures a / b >= 0
  {
  }

  /**
   The chunk plan of an accepted creation request tiles the declared size exactly when the
   rounding-up sum fits in 64 bits.
   */
  lemma TilesIffNoWrap(total: int, chunk: int)
    requires 0 < total <= INT64_MAX && 0 < chunk <= INT64_MAX
    ensures Tiles(total, chunk, ChunkCount(total, chunk)) <==> total + chunk - 1 <= INT64_MAX
  {
    var count := ChunkCount(total, chunk);
    if total + chunk - 1 <= INT64_MAX {
      assert count == (total + chunk - 1) / chunk;
      RoundUp(total, chunk, count);
      TilesWhen(total, chunk, count);
    } else {
      var w := Wrap64(total + chunk - 1);
      assert w < 0;
      assert (-w) / chunk >= 0 by { QuotientNonNegative(-w, chunk); }
    }
  }

  /** The largest possible request: the sum wraps to -3, so no chunk at all is expected. */
  lemma WrapLosesEveryChunk()
    ensures ChunkCount(INT64_MAX, INT64_MAX) == 0
    ensures !Tiles(INT64_MAX, INT64_MAX, ChunkCount(INT64_MAX, INT64_MAX))
  {
    assert Wrap64(INT64_MAX + INT64_MAX - 1) == -3;
  }
}
