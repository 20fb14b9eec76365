/** Byte strings and their digests. */
module Hashing {
  type Bytes = seq<bv8>
  type Digest = string

  /** No two byte strings share a digest. */
  ghost predicate Injective(hash: Bytes -> Digest) {
    forall a, b :: hash(a) == hash(b) ==> a == b
  }
}
