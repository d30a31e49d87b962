/** Blocks and their identifiers.

    A block id is a digest whose first word is overwritten with the block number, so the number can
    be read back from the id.  Hashing is ideal here: the digest carries what was hashed, which makes
    ids injective and leaves no room for collisions. */
module Blocks {

  datatype Digest = NoDigest | Sha(previous: BlockId, timestamp: nat, transactions: seq<nat>)

  datatype BlockId = BlockId(num: nat, digest: Digest)

  /** The all-zero id: the "previous" of block 1. */
  const NULL_ID := BlockId(0, NoDigest)

  datatype Block = Block(previous: BlockId, timestamp: nat, transactions: seq<nat>) {

    function Num(): nat {
      previous.num + 1
    }

    function Id(): BlockId {
      BlockId(Num(), Sha(previous, timestamp, transactions))
    }
  }
}
