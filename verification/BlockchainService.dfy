/** The object that holds one node's blockchain (src/blockchain_service/service.rs). */
module BlockchainService {
  import opened Wrappers
  import opened Structures
  import opened Chain
  import opened Persistence
  import NodeSpec

  /** Loading `head` and then what `r` gives. */
  ghost function Prepend(head: seq<Block>, r: Result<seq<Block>, BlockchainError>): Result<seq<Block>, BlockchainError> {
    if r.Ok? then Ok(head + r.value) else r
  }

  lemma PrependNothing(r: Result<seq<Block>, BlockchainError>)
    ensures Prepend([], r) == r
  {
    if r.Ok? {
      assert [] + r.value == r.value;
    }
  }

  lemma PrependOne(head: seq<Block>, b: Block, r: Result<seq<Block>, BlockchainError>)
    ensures Prepend(head, Prepend([b], r)) == Prepend(head + [b], r)
  {
    if r.Ok? {
      assert head + ([b] + r.value) == head + [b] + r.value;
    }
  }

  /** `Chain`, `Blockchain` and `BlockchainService` nest by value; here they are one object. */
  class BlockchainService {
    var blocks: seq<Block>
    var files: Files

    function State(): Node
      reads this
    {
      Node(blocks, files)
    }

    /** `init_other_blockchain_node`: an empty chain over whatever the directory holds. */
    constructor InitOther(files: Files)
      ensures State() == Node([], files)
    {
      blocks, this.files := [], files;
    }

    /** `init_first_blockchain_node`. */
    static method InitFirst(h: Hashing, files: Files, stamp: Stamp, os: SaveOutcome)
      returns (service: BlockchainService, r: Outcome)
      ensures fresh(service)
      ensures r.Ok? ==> Open(h, files, stamp, os) == Ok(service.State())
      ensures r.Err? ==> Open(h, files, stamp, os) == Err(r.error)
    {
      service := new BlockchainService.InitOther(files);
      r := service.LoadBlocks();
      PrependNothing(Load(files));
      if r.Ok? && service.blocks == [] {
        r := service.SaveBlock(Genesis(h, stamp), os);
      }
    }

    method LoadBlocks() returns (r: Outcome)
      modifies this`blocks
      ensures r.Ok? ==> Prepend(old(blocks), Load(files)) == Ok(blocks)
      ensures r.Err? ==> Load(files) == Err(r.error)
    {
      var ordinal := 0;
      ghost var loaded := [];
      PrependNothing(Load(files));
      while ordinal in files
        invariant blocks == old(blocks) + loaded
        invariant Load(files) == Prepend(loaded, LoadFrom(files, ordinal))
        decreases FilesFrom(files, ordinal)
      {
        match files[ordinal]
        case Torn =>
          return Err(SerializationError);
        case Whole(block) =>
          PrependOne(loaded, block, LoadFrom(files, ordinal + 1));
          blocks := blocks + [block];
          loaded := loaded + [block];
          assert ordinal in FilesFrom(files, ordinal) && ordinal !in FilesFrom(files, ordinal + 1);
          ordinal := ordinal + 1;
      }
      assert loaded + [] == loaded;
      r := Ok(Unit);
    }

    method SaveBlock(block: Block, os: SaveOutcome) returns (r: Outcome)
      modifies this
      ensures (State(), r) == Persistence.SaveBlock(old(State()), block, os)
    {
      var ordinal := block.header.ordinal;
      blocks := blocks + [block];
      var position := GetBlockPosition(blocks, ordinal);
      if position.None? {
        return Err(InvalidBlockchainLength(|blocks|));
      }
      match os {
        case OpenFailed => return Err(IOError);
        case WriteFailed =>
          files := files[ordinal := Torn];
          return Err(IOError);
        case SyncFailed =>
          files := files[ordinal := Whole(blocks[position.value])];
          return Err(IOError);
        case Saved =>
          files := files[ordinal := Whole(blocks[position.value])];
          return Ok(Unit);
      }
    }

    method AddPayload(h: Hashing, payload: Bytes, stamp: Stamp, os: SaveOutcome) returns (r: Outcome)
      modifies this
      ensures var (node, r') := NodeSpec.AddPayload(h, old(State()), payload, stamp, os);
        State() == node && r == r'
    {
      if blocks == [] {
        return Err(EmptyBlockchain);
      }
      var last := blocks[|blocks| - 1];
      if last.header.ordinal + 1 == U128_LIMIT {
        return Err(OrdinalOverflow);
      }
      r := SaveBlock(Successor(h, last, payload, stamp), os);
    }

    method AddBlock(ordinal: Ordinal, block: Block, os: SaveOutcome) returns (r: Outcome)
      modifies this
      ensures var (node, r') := NodeSpec.AddBlock(old(State()), ordinal, block, os);
        State() == node && r == r'
    {
      if blocks == [] {
        if ordinal == 0 {
          r := SaveBlock(block, os);
        } else {
          r := Ok(Unit);
        }
      } else {
        var expected := blocks[|blocks| - 1].header.ordinal + 1;
        if expected == U128_LIMIT {
          r := Err(OrdinalOverflow);
        } else if ordinal > expected {
          r := Err(LaggingBlockchainData);
        } else if ordinal < expected {
          r := Ok(Unit);
        } else {
          r := SaveBlock(block, os);
        }
      }
    }

    /** The two replies of the other peer are inputs. */
    method InitPullFromOthers(queried: Result<Ordinal, BlockchainError>, pulled: Result<seq<Block>, BlockchainError>,
                              oss: seq<SaveOutcome>)
      returns (r: Result<Ordinal, BlockchainError>)
      requires pulled.Ok? ==> |oss| == |pulled.value|
      modifies this
      ensures queried.Err? ==> r == queried && State() == old(State())
      ensures queried.Ok? && pulled.Err? ==> r == Err(pulled.error) && State() == old(State())
      ensures queried.Ok? && pulled.Ok? ==>
        var (node, r') := NodeSpec.AddAll(old(State()), pulled.value, oss);
        State() == node && r == if r'.Ok? then queried else Err(r'.error)
    {
      if queried.Err? {
        return queried;
      }
      if pulled.Err? {
        return Err(pulled.error);
      }
      var received := pulled.value;
      for i := 0 to |received|
        invariant NodeSpec.AddAll(old(State()), received, oss) == NodeSpec.AddFrom(State(), received, oss, i)
      {
        var added := AddBlock(received[i].header.ordinal, received[i], oss[i]);
        if added.Err? {
          return Err(added.error);
        }
      }
      r := queried;
    }

    /** `pull_blocks` of a node whose chain is well numbered is the slice asked for. */
    method PullBlocks(start: Ordinal, end: Ordinal) returns (r: seq<Block>)
      ensures r == RetrieveBlocks(blocks, start, end)
      ensures OrdinalsMatch(blocks) ==> r == if start <= end < |blocks| then blocks[start..end + 1] else []
    {
      r := RetrieveBlocks(blocks, start, end);
    }
  }
}
