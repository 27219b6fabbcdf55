/** SHA-256, uninterpreted. */
module Hashing {
  import opened Bytes

  type Digest = d: seq<byte> | |d| == 32 witness Zeros(32)
  type Hash = seq<byte> -> Digest

  /** No two of these inputs share a digest: a hypothesis on the inputs at hand. */
  ghost predicate CollisionFree(hash: Hash, inputs: set<seq<byte>>) {
    forall x, y :: x in inputs && y in inputs && hash(x) == hash(y) ==> x == y
  }
}
