/**
 The event loop of one node (src/blockchain_service/event.rs) and the start-up
 replay (pyrsia_node/src/main.rs), over the node's blockchain and log table.
 */
module EventLoop {
  import opened Wrappers
  import opened Structures
  import opened Chain
  import opened Persistence
  import opened TransparencyLog
  import B = BlockchainService
  import A = LogService
  import R = Replication
  import NodeSpec

  /** The logs of the single-transaction blocks, in order. */
  ghost function LogsOf(w: R.World, blocks: seq<Block>): seq<Log> {
    if blocks == [] then []
    else
      var log := R.LogOf(w, blocks[|blocks| - 1]);
      LogsOf(w, blocks[..|blocks| - 1]) + if log.Some? then [log.value] else []
  }

  /** The replay wrote the logs before block `k` and failed on that block. */
  ghost predicate StopsAt(w: R.World, before: Table, after: Table, pulled: seq<Block>, database: seq<bool>, k: nat)
    requires k < |pulled| == |database|
  {
    after == ReplayAll(before, LogsOf(w, pulled[..k])) && !R.HandleBlockAdded(w, after, pulled[k], database[k]).1
  }

  lemma {:induction false} ReplayAppend(t: Table, logs: seq<Log>, log: Log)
    ensures ReplayAll(t, logs + [log]) == WriteIfNotExists(ReplayAll(t, logs), log)
    decreases |logs|
  {
    if logs == [] {
      assert logs + [log] == [log] && [log][1..] == [];
    } else {
      assert (logs + [log])[1..] == logs[1..] + [log];
      ReplayAppend(WriteIfNotExists(t, logs[0]), logs[1..], log);
    }
  }

  class BlockchainEventLoop {
    const blockchain: B.BlockchainService
    const logs: A.TransparencyLogService

    constructor (blockchain: B.BlockchainService, logs: A.TransparencyLogService)
      ensures this.blockchain == blockchain && this.logs == logs
    {
      this.blockchain, this.logs := blockchain, logs;
    }

    /** `handle_block_added` of the artifact service. */
    method HandleBlockAdded(w: R.World, block: Block, database: bool) returns (ok: bool)
      requires logs.Valid()
      modifies logs
      ensures logs.Valid()
      ensures (logs.table, ok) == R.HandleBlockAdded(w, old(logs.table), block, database)
      ensures ok <==>
        || |block.transactions| != 1
        || (R.LogOf(w, block).Some? && (database || R.LogOf(w, block).value.id in old(logs.table)))
      ensures logs.table ==
        if ok && R.LogOf(w, block).Some? then WriteIfNotExists(old(logs.table), R.LogOf(w, block).value) else old(logs.table)
    {
      var payloads := FetchPayload(block);
      ok := true;
      if |payloads| == 1 {
        var log := w.parse(payloads[0]);
        if log.None? {
          return false;
        }
        ok := logs.WriteIfNotExists(log.value, database);
      }
    }

    /** The `HandleBlockBroadcast` event. */
    method HandleBlockBroadcast(w: R.World, ordinal: Ordinal, block: Block, os: SaveOutcome, database: bool) returns (ok: bool)
      requires logs.Valid()
      modifies blockchain, logs
      ensures logs.Valid()
      ensures var r := R.Replica(old(blockchain.State()), old(logs.table), R.Live, true, true);
        var r' := R.HandleBlockBroadcast(w, r, ordinal, block, os, database);
        blockchain.State() == r'.chain && logs.table == r'.table
      ensures ok <==>
        && NodeSpec.AddBlock(old(blockchain.State()), ordinal, block, os).1.Ok?
        && R.HandleBlockAdded(w, old(logs.table), block, database).1
      ensures NodeSpec.AddBlock(old(blockchain.State()), ordinal, block, os).1.Err? ==> logs.table == old(logs.table)
    {
      var added := blockchain.AddBlock(ordinal, block, os);
      if added.Err? {
        return false;
      }
      ok := HandleBlockAdded(w, block, database);
    }

    /** The `HandleQueryBlockOrdinal` event: an error on an empty chain, else the last ordinal. */
    method HandleQueryBlockOrdinal() returns (r: Result<Ordinal, BlockchainError>)
      ensures blockchain.blocks == [] <==> r == Err(InvalidBlockchainLength(0))
      ensures OrdinalsMatch(blockchain.blocks) && blockchain.blocks != [] ==> r.Ok? && r.value == |blockchain.blocks| - 1
      ensures r.Ok? ==> blockchain.blocks != [] && r.value == blockchain.blocks[|blockchain.blocks| - 1].header.ordinal
    {
      if blockchain.blocks == [] {
        r := Err(InvalidBlockchainLength(0));
      } else {
        r := Ok(blockchain.blocks[|blockchain.blocks| - 1].header.ordinal);
      }
    }

    /**
     The loop of `pull_block_from_other_nodes`: replays the pulled blocks into
     the log.  When it ends without an error the table is the replay of their
     logs, which does not depend on order or repetition; otherwise it stopped at
     the first block that could not be handled.
     */
    method ReplayPulled(w: R.World, pulled: seq<Block>, database: seq<bool>) returns (ok: bool)
      requires logs.Valid() && |database| == |pulled|
      modifies logs
      ensures logs.Valid()
      ensures ok ==> logs.table == ReplayAll(old(logs.table), LogsOf(w, pulled))
      ensures !ok ==> exists k :: 0 <= k < |pulled| && StopsAt(w, old(logs.table), logs.table, pulled, database, k)
    {
      for i := 0 to |pulled|
        invariant logs.Valid()
        invariant logs.table == ReplayAll(old(logs.table), LogsOf(w, pulled[..i]))
      {
        ok := HandleBlockAdded(w, pulled[i], database[i]);
        if !ok {
          assert StopsAt(w, old(logs.table), logs.table, pulled, database, i);
          return false;
        }
        assert pulled[..i + 1][..i] == pulled[..i];
        var log := R.LogOf(w, pulled[i]);
        if log.None? {
          assert LogsOf(w, pulled[..i]) + [] == LogsOf(w, pulled[..i]);
        } else {
          ReplayAppend(old(logs.table), LogsOf(w, pulled[..i]), log.value);
        }
      }
      assert pulled[..|pulled|] == pulled;
      ok := true;
    }
  }
}
