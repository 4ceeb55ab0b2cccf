/** The in-memory block sequence (src/blockchain/src/structures/chain.rs), read side. */
module Chain {
  import opened Wrappers
  import opened Structures

  datatype BlockchainError =
    | EmptyBlockchain
    | InvalidBlockchainLength(length: nat)
    | LaggingBlockchainData
    | IOError
    | SerializationError
    /** A peer request that ended in an error (`AnyhowError`). */
    | RequestFailed
    /** `last.ordinal + 1` past `u128::MAX`: the source's addition overflows. */
    | OrdinalOverflow

  /** Block `i` carries ordinal `i`. */
  ghost predicate OrdinalsMatch(blocks: seq<Block>) {
    forall i :: 0 <= i < |blocks| ==> blocks[i].header.ordinal == i
  }

  function GetBlockPosition(blocks: seq<Block>, ordinal: Ordinal): (r: Option<nat>)
    ensures r.Some? ==> r.value < |blocks| && blocks[r.value].header.ordinal == r.value == ordinal
    ensures OrdinalsMatch(blocks) ==> (r.Some? <==> ordinal < |blocks|)
    ensures ordinal < |blocks| && blocks[ordinal].header.ordinal == ordinal ==>
      (r.Some? <==> ordinal <= blocks[|blocks| - 1].header.ordinal)
  {
    if ordinal >= |blocks| then None
    else if ordinal > blocks[|blocks| - 1].header.ordinal then None
    else if blocks[ordinal].header.ordinal != ordinal then None
    else Some(ordinal)
  }

  function RetrieveBlocks(blocks: seq<Block>, start: Ordinal, end: Ordinal): (r: seq<Block>)
    ensures OrdinalsMatch(blocks) ==> r == if start <= end < |blocks| then blocks[start..end + 1] else []
    ensures r != [] <==> GetBlockPosition(blocks, start).Some? && GetBlockPosition(blocks, end).Some? && start <= end
    ensures r != [] ==> r == blocks[start..end + 1]
  {
    var from, to := GetBlockPosition(blocks, start), GetBlockPosition(blocks, end);
    if from.Some? && to.Some? && from.value <= to.value then
      blocks[from.value..to.value + 1]
    else
      []
  }
}
