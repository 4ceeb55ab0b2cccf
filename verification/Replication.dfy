/**
 Replication of one writer's chain (src/blockchain_service/event.rs,
 src/blockchain_service/service.rs, pyrsia_node/src/main.rs).

 Node 0 is the only one that publishes: it writes rows to its own table and
 handles `AddBlock` events.  Its broadcasts are byte frames; any frame ever sent
 may reach any node at any later time, any number of times, or never.  Every other node pulls once after it starts and
 replays what it pulled into its log table.  A step is one event handled to
 completion, or one iteration of the start-up task.
 */
module Replication {
  import opened Wrappers
  import opened Structures
  import opened Chain
  import opened Persistence
  import opened Wire
  import opened NodeSpec
  import opened TransparencyLog
  import opened Jobs

  /** Hashing, the block encoding and the JSON encoding of a log. */
  datatype World = World(h: Hashing, codec: BlockCodec, render: Log -> Bytes, parse: Bytes -> Option<Log>)

  ghost predicate Faithful(w: World) {
    && SelfDelimiting(w.codec)
    && forall log: Log :: w.parse(w.render(log)) == Some(log)
  }

  /** The start-up task of a node. */
  datatype Task =
    | Waiting
    | Pulling(peer: nat, ordinal: Ordinal)
    | Pulled(ordinal: Ordinal)
    | Replaying(rest: seq<Block>)
    | Live
    | Stopped

  /** `saved` and `inserted` record that no save and no insert has failed since the node started. */
  datatype Replica = Replica(chain: Node, table: Table, task: Task, saved: bool, inserted: bool)

  /** `echoed` are the ids whose rows reached the writer's table in its own frames. */
  datatype System = System(nodes: seq<Replica>, frames: set<Bytes>, jobs: seq<Job>, echoed: set<string>)

  datatype Step =
    | Publish(origin: Origin, logs: seq<Log>)
    | WriteRow(job: nat, database: bool, stored: bool)
    | Append(job: nat, stamp: Stamp, os: SaveOutcome, gossiped: bool)
    | Deliver(node: nat, frame: Bytes, os: SaveOutcome, database: bool)
    | StartPull(node: nat, peer: nat)
    | AbortPull(node: nat)
    | FinishPull(node: nat, oss: seq<SaveOutcome>)
    | LocalPull(node: nat)
    | ReplayOne(node: nat, database: bool)
    | RestartReplica(node: nat)
    | RestartWriter(stamp: Stamp, os: SaveOutcome)

  // ------------------------------------------------------------ handlers of a node

  /** The log a block carries, if it is a single-transaction block with a readable payload. */
  function LogOf(w: World, block: Block): Option<Log> {
    var payloads := Payloads(block.transactions);
    if |payloads| == 1 then w.parse(payloads[0]) else None
  }

  /** `handle_block_added`: the new table, and whether it succeeded. */
  function HandleBlockAdded(w: World, table: Table, block: Block, database: bool): (Table, bool) {
    var payloads := Payloads(block.transactions);
    if |payloads| != 1 then (table, true)
    else match w.parse(payloads[0])
      case None => (table, false)
      case Some(log) =>
        if log.id in table then (table, true)
        else if database then (table[log.id := log], true)
        else (table, false)
  }

  /** What handling a block does to the log, for every block: only a single readable payload counts, and only its row is written. */
  lemma BlockAddedIs(w: World, table: Table, block: Block, database: bool)
    ensures var (table', ok) := HandleBlockAdded(w, table, block, database);
      && (|block.transactions| != 1 ==> ok && table' == table)
      && (|block.transactions| == 1 ==>
            var log := w.parse(block.transactions[0].payload);
            && (log.None? ==> !ok && table' == table)
            && (log.Some? ==>
                  && (ok <==> log.value.id in table || database)
                  && table' == if ok then WriteIfNotExists(table, log.value) else table))
  {
    PayloadAt(block.transactions, 0);
  }

  /** `HandleBlockBroadcast`: the log is touched only if the chain reports success. */
  function HandleBlockBroadcast(w: World, r: Replica, ordinal: Ordinal, block: Block, os: SaveOutcome, database: bool): Replica {
    var (chain, added) := AddBlock(r.chain, ordinal, block, os);
    if added.Err? then
      r.(chain := chain, saved := r.saved && chain == r.chain)
    else
      var (table, ok) := HandleBlockAdded(w, r.table, block, database);
      r.(chain := chain, table := table, inserted := r.inserted && ok)
  }

  /** What an `AddBlock` event leads to: the node, the frames, and whether the caller hears of a success. */
  datatype Appending = Appending(node: Replica, sent: set<Bytes>, ok: bool)

  /** The `AddBlock` event: only a saved block is broadcast, and a failed broadcast is an error as well. */
  function WriterAppend(w: World, r: Replica, log: Log, stamp: Stamp, os: SaveOutcome, gossiped: bool): Appending {
    var (chain, added) := AddPayload(w.h, r.chain, w.render(log), stamp, os);
    var sends := added.Ok? && chain.blocks != [] && gossiped;
    Appending(r.(chain := chain, saved := r.saved && added.Ok?),
              if sends then {BroadcastFrame(w.codec, chain.blocks[|chain.blocks| - 1])} else {},
              added.Ok? && gossiped)
  }

  /** `write_transparency_log` on the writer's own table. */
  function WriterInsert(r: Replica, log: Log, database: bool): Replica {
    if database && log.id !in r.table then r.(table := r.table[log.id := log]) else r.(inserted := false)
  }

  /** What a node does with one incoming frame. */
  function Receive(w: World, r: Replica, frame: Bytes, os: SaveOutcome, database: bool): Replica {
    match Decode(w.codec, frame)
    case Accepted(BroadcastBlock(ordinal, block)) => HandleBlockBroadcast(w, r, ordinal, block, os, database)
    case _ => r
  }

  /** The blocks a peer sends for a pull of `0..ordinal`, through both encodings. */
  function PullReply(w: World, peer: Replica, ordinal: Ordinal): seq<Block> {
    match Decode(w.codec, PullFrame(0, ordinal))
    case Accepted(PullBlocks(start, end)) =>
      var read := ReadBlocksReply(w.codec, BlocksReply(w.codec, RetrieveBlocks(peer.chain.blocks, start, end)));
      if read.Some? then read.value else []
    case _ => []
  }

  /** The highest ordinal a peer reports, through its encoding. */
  function QueryReply(peer: Replica): Ordinal
    requires peer.chain.blocks != []
  {
    var sent := SerializeOrdinal(peer.chain.blocks[|peer.chain.blocks| - 1].header.ordinal);
    DeserializeOrdinal(sent).value
  }

  function Replay(w: World, r: Replica, database: bool): Replica
    requires r.task.Replaying?
  {
    if r.task.rest == [] then r.(task := Live)
    else
      var (table, ok) := HandleBlockAdded(w, r.table, r.task.rest[0], database);
      r.(table := table, inserted := r.inserted && ok, task := if ok then Replaying(r.task.rest[1..]) else Stopped)
  }

  function CompletePull(r: Replica, ordinal: Ordinal, reply: seq<Block>, oss: seq<SaveOutcome>): Replica
    requires |oss| == |reply|
  {
    var (chain, added) := AddAll(r.chain, reply, oss);
    if added.Ok? then r.(chain := chain, task := Pulled(ordinal))
    else r.(chain := chain, task := Stopped, saved := false)
  }

  // -------------------------------------------------------------------- the system

  ghost function Writer(s: System): seq<Block>
    requires s.nodes != []
  {
    s.nodes[0].chain.blocks
  }

  ghost predicate Enabled(w: World, s: System, step: Step) {
    s.nodes != [] &&
    match step
    case Publish(origin, logs) => NewIds(s.jobs, logs) && Shape(Job(origin, logs, 0, 0, false))
    case WriteRow(j, _, _) => j < |s.jobs| && WritesNext(s.jobs[j])
    case Append(j, _, _, _) => j < |s.jobs| && AppendsNext(s.jobs[j])
    case Deliver(i, frame, _, _) => i < |s.nodes| && frame in s.frames && !s.nodes[i].task.Pulling?
    case StartPull(i, peer) =>
      && 1 <= i < |s.nodes| && peer < |s.nodes| && peer != i
      && s.nodes[i].task.Waiting? && !s.nodes[peer].task.Pulling? && s.nodes[peer].chain.blocks != []
    case AbortPull(i) => 1 <= i < |s.nodes| && (s.nodes[i].task.Waiting? || s.nodes[i].task.Pulling?)
    case FinishPull(i, oss) =>
      && 1 <= i < |s.nodes| && s.nodes[i].task.Pulling? && s.nodes[i].task.peer < |s.nodes|
      && var peer := s.nodes[s.nodes[i].task.peer];
        && !peer.task.Pulling? && |peer.chain.blocks| < U64_LIMIT
        && |oss| == |PullReply(w, peer, s.nodes[i].task.ordinal)|
    case LocalPull(i) => 1 <= i < |s.nodes| && s.nodes[i].task.Pulled?
    case ReplayOne(i, _) => 1 <= i < |s.nodes| && s.nodes[i].task.Replaying?
    case RestartReplica(i) => 1 <= i < |s.nodes|
    case RestartWriter(_, _) => s.nodes[0].saved
  }

  ghost predicate CarriesId(w: World, block: Block, id: string) {
    LogOf(w, block).Some? && LogOf(w, block).value.id == id
  }

  /** The node a step changes. */
  function Target(step: Step): nat {
    match step
    case Publish(_, _) => 0
    case WriteRow(_, _, _) => 0
    case Append(_, _, _, _) => 0
    case RestartWriter(_, _) => 0
    case Deliver(i, _, _, _) => i
    case StartPull(i, _) => i
    case AbortPull(i) => i
    case FinishPull(i, _) => i
    case LocalPull(i) => i
    case ReplayOne(i, _) => i
    case RestartReplica(i) => i
  }

  /** What the step makes of its target. */
  ghost function Changed(w: World, s: System, step: Step): Replica
    requires Enabled(w, s, step)
  {
    var r := s.nodes[Target(step)];
    match step
    case Publish(_, _) => r
    case WriteRow(j, database, _) => WriterInsert(r, NextRow(s.jobs[j]), database)
    case Append(j, stamp, os, gossiped) => WriterAppend(w, r, NextBlock(s.jobs[j]), stamp, os, gossiped).node
    case Deliver(_, frame, os, database) => Receive(w, r, frame, os, database)
    case StartPull(_, peer) => r.(task := Pulling(peer, QueryReply(s.nodes[peer])))
    case AbortPull(_) => r.(task := Stopped)
    case FinishPull(_, oss) => CompletePull(r, r.task.ordinal, PullReply(w, s.nodes[r.task.peer], r.task.ordinal), oss)
    case LocalPull(_) => r.(task := Replaying(RetrieveBlocks(r.chain.blocks, 1, r.task.ordinal)))
    case ReplayOne(_, database) => Replay(w, r, database)
    case RestartReplica(_) => r.(chain := Node([], r.chain.files), task := Waiting, saved := true, inserted := true)
    case RestartWriter(stamp, os) =>
      var reopened := Open(w.h, r.chain.files, stamp, os);
      if reopened.Ok? then r.(chain := reopened.value) else r
  }

  /** The frames a step sends. */
  ghost function Sent(w: World, s: System, step: Step): set<Bytes>
    requires Enabled(w, s, step)
  {
    match step
    case Append(j, stamp, os, gossiped) => WriterAppend(w, s.nodes[0], NextBlock(s.jobs[j]), stamp, os, gossiped).sent
    case _ => {}
  }

  function NextRow(job: Job): Log
    requires WritesNext(job)
  {
    job.logs[job.rows]
  }

  function NextBlock(job: Job): Log
    requires AppendsNext(job)
  {
    job.logs[job.blocks]
  }

  /** What the step makes of the writer's jobs. */
  ghost function JobsAfter(w: World, s: System, step: Step): seq<Job>
    requires Enabled(w, s, step)
  {
    match step
    case Publish(origin, logs) => s.jobs + [Job(origin, logs, 0, 0, false)]
    case WriteRow(j, database, stored) =>
      var inserted := database && NextRow(s.jobs[j]).id !in s.nodes[0].table;
      s.jobs[j := AfterRow(s.jobs[j], inserted, stored)]
    case Append(j, stamp, os, gossiped) =>
      var a := WriterAppend(w, s.nodes[0], NextBlock(s.jobs[j]), stamp, os, gossiped);
      s.jobs[j := AfterAppend(s.jobs[j], |a.node.chain.blocks| > |Writer(s)|, a.ok)]
    case RestartWriter(_, _) => StopAll(s.jobs)
    case _ => s.jobs
  }

  ghost function EchoedAfter(w: World, s: System, step: Step): set<string>
    requires Enabled(w, s, step)
  {
    if step.Deliver? && step.node == 0 then s.echoed + (Changed(w, s, step).table.Keys - s.nodes[0].table.Keys)
    else s.echoed
  }

  ghost function Next(w: World, s: System, step: Step): System
    requires Enabled(w, s, step)
  {
    System(s.nodes[Target(step) := Changed(w, s, step)], s.frames + Sent(w, s, step),
           JobsAfter(w, s, step), EchoedAfter(w, s, step))
  }

  ghost predicate Init(w: World, s: System) {
    && s.nodes != [] && s.frames == {} && s.jobs == [] && s.echoed == {}
    && (forall i :: 0 <= i < |s.nodes| ==> s.nodes[i].table == map[] && s.nodes[i].saved && s.nodes[i].inserted)
    && (forall i :: 1 <= i < |s.nodes| ==> s.nodes[i].chain.blocks == [] && s.nodes[i].task.Waiting?)
    && exists stamp :: Open(w.h, map[], stamp, Saved) == Ok(s.nodes[0].chain)
  }

  ghost predicate Legal(w: World, s: System, steps: seq<Step>)
    decreases |steps|
  {
    steps == [] || (Enabled(w, s, steps[0]) && Legal(w, Next(w, s, steps[0]), steps[1..]))
  }

  ghost function Run(w: World, s: System, steps: seq<Step>): System
    requires Legal(w, s, steps)
    decreases |steps|
  {
    if steps == [] then s else Run(w, Next(w, s, steps[0]), steps[1..])
  }

  // ------------------------------------------------------------------ the invariant

  ghost predicate InChain(c: seq<Block>, block: Block) {
    exists k :: 1 <= k < |c| && c[k] == block
  }

  ghost predicate HasRow(w: World, table: Table, block: Block) {
    LogOf(w, block).Some? && var log := LogOf(w, block).value; log.id in table && table[log.id] == log
  }

  /** The row was written for a block of the chain. */
  ghost predicate RowFrom(w: World, c: seq<Block>, id: string, log: Log) {
    log.id == id && exists k :: 1 <= k < |c| && LogOf(w, c[k]) == Some(log)
  }

  /** Every block after genesis carries a log, and no two carry one id. */
  ghost predicate LogsOk(w: World, c: seq<Block>) {
    && (forall k :: 1 <= k < |c| ==> LogOf(w, c[k]).Some?)
    && (forall j, k :: 1 <= j < k < |c| ==> LogOf(w, c[j]).value.id != LogOf(w, c[k]).value.id)
  }

  /** The start-up task still owes block `k` its row. */
  ghost predicate Owed(r: Replica, c: seq<Block>, k: nat)
    requires k < |c|
  {
    || (r.task.Pulled? && k <= r.task.ordinal)
    || (r.task.Replaying? && c[k] in r.task.rest)
  }

  ghost predicate TaskOk(w: World, c: seq<Block>, r: Replica) {
    var blocks := r.chain.blocks;
    && (r.task.Waiting? || r.task.Pulling? ==> blocks == [])
    && (r.task.Pulled? ==> blocks == [] || r.task.ordinal < |blocks|)
    && (r.task.Stopped? ==> blocks == [] || !r.saved || !r.inserted)
    && (r.task.Replaying? ==> forall b :: b in r.task.rest ==> InChain(blocks, b))
    && (r.saved && r.inserted ==>
          forall k :: 1 <= k < |blocks| && k < |c| ==> HasRow(w, r.table, c[k]) || Owed(r, c, k))
  }

  /** A node other than the writer. */
  ghost predicate NodeOk(w: World, c: seq<Block>, r: Replica) {
    && r.chain.blocks <= c
    && (forall id :: id in r.table ==> RowFrom(w, c, id, r.table[id]))
  }

  ghost predicate OnChain(w: World, c: seq<Block>, log: Log) {
    exists k :: 1 <= k < |c| && LogOf(w, c[k]) == Some(log)
  }

  /** The logs on the chain are those the jobs appended, and the writer's rows those they wrote or got back. */
  ghost predicate JobsOk(w: World, c: seq<Block>, t: Table, jobs: seq<Job>, echoed: set<string>) {
    && (forall j :: 0 <= j < |jobs| ==> Shape(jobs[j]))
    && UniqueIds(jobs)
    && (forall log :: Appended(jobs, log) <==> OnChain(w, c, log))
    && RowsOk(t, jobs, echoed)
  }

  ghost predicate FrameOk(w: World, c: seq<Block>, frame: Bytes) {
    exists k :: 1 <= k < |c| && frame == BroadcastFrame(w.codec, c[k])
  }

  ghost predicate ChainOk(w: World, c: seq<Block>) {
    c != [] && |c| <= U128_LIMIT && HashLinked(w.h, c) && LogsOk(w, c)
  }

  ghost predicate Inv(w: World, s: System) {
    && s.nodes != []
    && var c := Writer(s);
      && ChainOk(w, c)
      && Mirrors(s.nodes[0].chain) && GenesisSaved(s.nodes[0].chain)
      && (s.nodes[0].saved ==> FullyMirrors(s.nodes[0].chain))
      && (forall f :: f in s.frames ==> FrameOk(w, c, f))
      && (forall i :: 1 <= i < |s.nodes| ==> NodeOk(w, c, s.nodes[i]) && TaskOk(w, c, s.nodes[i]))
      && JobsOk(w, c, s.nodes[0].table, s.jobs, s.echoed)
  }

  // ------------------------------------------------------------ growth of the chain

  lemma NodeOkGrows(w: World, c: seq<Block>, d: seq<Block>, r: Replica)
    requires c <= d && NodeOk(w, c, r)
    ensures NodeOk(w, d, r)
  {
    forall id | id in r.table ensures RowFrom(w, d, id, r.table[id]) {
      var k :| 1 <= k < |c| && LogOf(w, c[k]) == Some(r.table[id]);
      assert d[k] == c[k];
    }
  }

  lemma TaskOkGrows(w: World, c: seq<Block>, d: seq<Block>, r: Replica)
    requires c <= d && r.chain.blocks <= c && TaskOk(w, c, r)
    ensures TaskOk(w, d, r)
  {
    if r.saved && r.inserted {
      forall k | 1 <= k < |r.chain.blocks| ensures HasRow(w, r.table, d[k]) || Owed(r, d, k) {
        assert d[k] == c[k] && k < |c|;
      }
    }
  }

  lemma FrameOkGrows(w: World, c: seq<Block>, d: seq<Block>, f: Bytes)
    requires c <= d && FrameOk(w, c, f)
    ensures FrameOk(w, d, f)
  {
    var k :| 1 <= k < |c| && f == BroadcastFrame(w.codec, c[k]);
    assert d[k] == c[k];
  }

  lemma OrdinalsOf(w: World, c: seq<Block>)
    requires HashLinked(w.h, c)
    ensures OrdinalsMatch(c)
  {
    forall i | 0 <= i < |c| ensures c[i].header.ordinal == i {
      LinkedOrdinals(w.h, c, i);
    }
  }

  /** A changed replica and nothing else. */
  lemma ReplicaStep(w: World, s: System, i: nat, r: Replica)
    requires Inv(w, s) && 1 <= i < |s.nodes|
    requires NodeOk(w, Writer(s), r) && TaskOk(w, Writer(s), r)
    ensures Inv(w, System(s.nodes[i := r], s.frames, s.jobs, s.echoed))
  {
  }

  // ------------------------------------------------------------------- step by step

  /** Writing the row of a block of the chain keeps the table sound and adds that row. */
  lemma RowWritten(w: World, c: seq<Block>, table: Table, k: nat, database: bool)
    requires LogsOk(w, c) && 1 <= k < |c|
    requires forall id :: id in table ==> RowFrom(w, c, id, table[id])
    ensures var (table', ok) := HandleBlockAdded(w, table, c[k], database);
      && (forall id :: id in table' ==> RowFrom(w, c, id, table'[id]))
      && (forall id :: id in table ==> id in table' && table'[id] == table[id])
      && (ok ==> HasRow(w, table', c[k]))
      && (database ==> ok)
  {
    var log := LogOf(w, c[k]).value;
    if log.id in table {
      var j :| 1 <= j < |c| && LogOf(w, c[j]) == Some(table[log.id]);
      assert LogOf(w, c[j]).value.id == log.id;
      assert j == k;
    } else {
      assert RowFrom(w, c, log.id, log);
    }
  }

  /** A frame of the network is the broadcast of a block under its own position. */
  lemma ReceiveIs(w: World, c: seq<Block>, r: Replica, frame: Bytes, os: SaveOutcome, database: bool) returns (k: nat)
    requires Faithful(w) && ChainOk(w, c) && FrameOk(w, c, frame)
    ensures 1 <= k < |c| && OrdinalsMatch(c) && frame == BroadcastFrame(w.codec, c[k])
    ensures Receive(w, r, frame, os, database) == HandleBlockBroadcast(w, r, k, c[k], os, database)
  {
    k :| 1 <= k < |c| && frame == BroadcastFrame(w.codec, c[k]);
    OrdinalsOf(w, c);
    BroadcastRoundTrip(w.codec, c[k]);
  }

  lemma BroadcastNodeOk(w: World, c: seq<Block>, r: Replica, k: nat, os: SaveOutcome, database: bool)
    requires ChainOk(w, c) && NodeOk(w, c, r) && 1 <= k < |c| && OrdinalsMatch(c)
    ensures var r' := HandleBlockBroadcast(w, r, k, c[k], os, database);
      && NodeOk(w, c, r')
      && (r.chain.blocks == [] || r.chain.blocks == c ==> r'.chain == r.chain && r'.saved == r.saved)
  {
    AddBlockFromPrefix(r.chain, c, k, os);
    RowWritten(w, c, r.table, k, database);
  }

  lemma RestStaysHeld(r: Replica, blocks: seq<Block>)
    requires r.chain.blocks <= blocks && r.task.Replaying? ==> forall b :: b in r.task.rest ==> InChain(r.chain.blocks, b)
    ensures r.chain.blocks <= blocks && r.task.Replaying? ==> forall b :: b in r.task.rest ==> InChain(blocks, b)
  {
    if r.chain.blocks <= blocks && r.task.Replaying? {
      forall b | b in r.task.rest ensures InChain(blocks, b) {
        var m :| 1 <= m < |r.chain.blocks| && r.chain.blocks[m] == b;
        assert blocks[m] == r.chain.blocks[m];
      }
    }
  }

  lemma ReceiveTaskOk(w: World, c: seq<Block>, r: Replica, k: nat, os: SaveOutcome, database: bool)
    requires ChainOk(w, c) && NodeOk(w, c, r) && 1 <= k < |c| && OrdinalsMatch(c)
    requires !r.task.Pulling? && TaskOk(w, c, r)
    ensures TaskOk(w, c, HandleBlockBroadcast(w, r, k, c[k], os, database))
  {
    var r' := HandleBlockBroadcast(w, r, k, c[k], os, database);
    var n := |r.chain.blocks|;
    AddBlockFromPrefix(r.chain, c, k, os);
    RowWritten(w, c, r.table, k, database);
    assert r'.task == r.task && (k == n || r'.chain == r.chain);
    RestStaysHeld(r, r'.chain.blocks);
    hide HandleBlockBroadcast, HandleBlockAdded, InChain;
    if r'.saved && r'.inserted {
      forall j | 1 <= j < |r'.chain.blocks| && j < |c| ensures HasRow(w, r'.table, c[j]) || Owed(r', c, j) {
        if j < n {
          assert HasRow(w, r.table, c[j]) || Owed(r, c, j);
        } else {
          assert j == k == n;
        }
      }
    }
  }

  /** What a peer holding a prefix sends is a prefix, through both encodings. */
  lemma PullReplyIsPrefix(w: World, c: seq<Block>, peer: Replica, ordinal: Ordinal)
    requires Faithful(w) && ChainOk(w, c) && peer.chain.blocks <= c && |peer.chain.blocks| < U64_LIMIT
    ensures var reply := PullReply(w, peer, ordinal);
      reply <= c && (reply != [] ==> |reply| == ordinal + 1)
  {
    OrdinalsOf(w, c);
    PullRoundTrip(w.codec, 0, ordinal);
    var sent := RetrieveBlocks(peer.chain.blocks, 0, ordinal);
    assert OrdinalsMatch(peer.chain.blocks);
    BlocksReplyRoundTrip(w.codec, sent);
  }

  lemma CompletePullOk(w: World, c: seq<Block>, r: Replica, ordinal: Ordinal, reply: seq<Block>, oss: seq<SaveOutcome>)
    requires ChainOk(w, c) && NodeOk(w, c, r) && TaskOk(w, c, r) && r.task.Pulling?
    requires reply <= c && (reply != [] ==> |reply| == ordinal + 1) && |oss| == |reply|
    ensures NodeOk(w, c, CompletePull(r, ordinal, reply, oss)) && TaskOk(w, c, CompletePull(r, ordinal, reply, oss))
  {
    OrdinalsOf(w, c);
    assert reply == c[..|oss|];
    AddFromKeepsPrefix(r.chain, c, oss, 0);
    var r' := CompletePull(r, ordinal, reply, oss);
    if reply == [] {
      assert r'.chain == r.chain;
    } else if r'.task.Pulled? {
      PulledNoFurther(r.chain, c, oss);
    }
  }

  /** From an empty chain, a completed pull of `|oss|` blocks leaves exactly those. */
  lemma PulledNoFurther(node: Node, c: seq<Block>, oss: seq<SaveOutcome>)
    requires OrdinalsMatch(c) && |oss| <= |c| <= U128_LIMIT && node.blocks == []
    ensures var (node', r) := AddFrom(node, c[..|oss|], oss, 0);
      |node'.blocks| <= |oss|
  {
    AddFromBounded(node, c, oss, 0);
  }

  lemma {:induction false} AddFromBounded(node: Node, c: seq<Block>, oss: seq<SaveOutcome>, i: nat)
    requires OrdinalsMatch(c) && i <= |oss| <= |c| <= U128_LIMIT && node.blocks == c[..i]
    ensures var (node', r) := AddFrom(node, c[..|oss|], oss, i);
      |node'.blocks| <= |oss|
    decreases |oss| - i
  {
    hide AddBlock, Mirrors;
    if i < |oss| {
      AddBlockFromPrefix(node, c, i, oss[i]);
      assert c[i].header.ordinal == i && c[..|oss|][i] == c[i];
      var (node', r) := AddBlock(node, i, c[i], oss[i]);
      if r.Ok? {
        AddFromBounded(node', c, oss, i + 1);
      }
    }
  }

  lemma LocalPullOk(w: World, c: seq<Block>, r: Replica)
    requires ChainOk(w, c) && NodeOk(w, c, r) && TaskOk(w, c, r) && r.task.Pulled?
    ensures TaskOk(w, c, r.(task := Replaying(RetrieveBlocks(r.chain.blocks, 1, r.task.ordinal))))
  {
    OrdinalsOf(w, c);
    var blocks, o := r.chain.blocks, r.task.ordinal;
    assert OrdinalsMatch(blocks);
    var rest := RetrieveBlocks(blocks, 1, o);
    forall b | b in rest ensures InChain(blocks, b) {
      var i :| 0 <= i < |rest| && rest[i] == b;
      assert blocks[i + 1] == b;
    }
    var r' := r.(task := Replaying(rest));
    if r.saved && r.inserted {
      forall k | 1 <= k < |blocks| && k < |c| ensures HasRow(w, r'.table, c[k]) || Owed(r', c, k) {
        if !HasRow(w, r.table, c[k]) {
          assert Owed(r, c, k);
          assert rest[k - 1] == blocks[k] == c[k];
        }
      }
    }
  }

  lemma ReplayOk(w: World, c: seq<Block>, r: Replica, database: bool)
    requires ChainOk(w, c) && NodeOk(w, c, r) && TaskOk(w, c, r) && r.task.Replaying?
    ensures NodeOk(w, c, Replay(w, r, database)) && TaskOk(w, c, Replay(w, r, database))
  {
    var rest := r.task.rest;
    var r' := Replay(w, r, database);
    if rest != [] {
      assert rest[0] in rest;
      var k :| 1 <= k < |r.chain.blocks| && r.chain.blocks[k] == rest[0];
      assert c[k] == rest[0];
      RowWritten(w, c, r.table, k, database);
      if r'.saved && r'.inserted {
        forall j | 1 <= j < |r'.chain.blocks| && j < |c| ensures HasRow(w, r'.table, c[j]) || Owed(r', c, j) {
          assert HasRow(w, r.table, c[j]) || c[j] in rest;
          assert c[j] in rest ==> c[j] == rest[0] || c[j] in rest[1..];
        }
      }
    }
  }

  /** The block an append makes carries the submitted log. */
  lemma AppendCarries(w: World, c: seq<Block>, d: seq<Block>, log: Log)
    requires Faithful(w) && LogsOk(w, c) && c != []
    requires |d| == |c| + 1 && c <= d && Payloads(d[|c|].transactions) == [w.render(log)]
    requires forall k :: 1 <= k < |c| ==> !CarriesId(w, c[k], log.id)
    ensures LogsOk(w, d)
  {
    assert LogOf(w, d[|c|]) == Some(log);
    forall k | 1 <= k < |d| ensures LogOf(w, d[k]).Some? {
      if k < |c| { assert d[k] == c[k]; }
    }
    forall j, k | 1 <= j < k < |d| ensures LogOf(w, d[j]).value.id != LogOf(w, d[k]).value.id {
      assert d[j] == c[j];
      if k < |c| { assert d[k] == c[k]; } else { assert !CarriesId(w, c[j], log.id); }
    }
  }

  /** An append to a sound chain, seen from the writer's node alone. */
  lemma AppendChainOk(w: World, node: Node, log: Log, stamp: Stamp, os: SaveOutcome)
    requires Faithful(w) && ChainOk(w, node.blocks) && Mirrors(node)
    requires forall k :: 1 <= k < |node.blocks| ==> !CarriesId(w, node.blocks[k], log.id)
    ensures var (node', added) := AddPayload(w.h, node, w.render(log), stamp, os);
      && Extends(w, node.blocks, node'.blocks, log) && ChainOk(w, node'.blocks) && Mirrors(node')
      && (FullyMirrors(node) && added.Ok? ==> FullyMirrors(node'))
      && (GenesisSaved(node) ==> GenesisSaved(node'))
      && (added.Ok? ==> |node'.blocks| > |node.blocks|)
  {
    OrdinalsOf(w, node.blocks);
    AddPayloadExtends(w.h, node, w.render(log), stamp, os);
    if |node.blocks| < U128_LIMIT {
      AppendCarries(w, node.blocks, AddPayload(w.h, node, w.render(log), stamp, os).0.blocks, log);
    }
  }

  /** The chain is the same, or has one more block, which carries the log. */
  ghost predicate Extends(w: World, c: seq<Block>, d: seq<Block>, log: Log) {
    c <= d && (d == c || (|d| == |c| + 1 && LogOf(w, d[|c|]) == Some(log)))
  }

  lemma OnChainAfter(w: World, c: seq<Block>, d: seq<Block>, log: Log, x: Log)
    requires c != [] && Extends(w, c, d, log)
    ensures OnChain(w, d, x) <==> OnChain(w, c, x) || (|d| > |c| && x == log)
  {
    if k :| 1 <= k < |c| && LogOf(w, c[k]) == Some(x) {
      assert d[k] == c[k];
    }
    if k :| 1 <= k < |d| && LogOf(w, d[k]) == Some(x) {
      assert k < |c| ==> d[k] == c[k];
    }
  }

  // ------------------------------------------------------------------ steps of the writer

  lemma FramesGrow(w: World, c: seq<Block>, d: seq<Block>, frames: set<Bytes>, sent: set<Bytes>)
    requires c != [] && c <= d && forall f :: f in frames ==> FrameOk(w, c, f)
    requires sent != {} ==> |d| > |c| && sent == {BroadcastFrame(w.codec, d[|d| - 1])}
    ensures forall f :: f in frames + sent ==> FrameOk(w, d, f)
  {
    forall f | f in frames + sent ensures FrameOk(w, d, f) {
      if f in frames {
        FrameOkGrows(w, c, d, f);
      } else {
        assert f == BroadcastFrame(w.codec, d[|d| - 1]);
      }
    }
  }

  lemma NodesGrow(w: World, c: seq<Block>, d: seq<Block>, nodes: seq<Replica>)
    requires c <= d
    requires forall i :: 1 <= i < |nodes| ==> NodeOk(w, c, nodes[i]) && TaskOk(w, c, nodes[i])
    ensures forall i :: 1 <= i < |nodes| ==> NodeOk(w, d, nodes[i]) && TaskOk(w, d, nodes[i])
  {
    forall i | 1 <= i < |nodes| ensures NodeOk(w, d, nodes[i]) && TaskOk(w, d, nodes[i]) {
      NodeOkGrows(w, c, d, nodes[i]);
      TaskOkGrows(w, c, d, nodes[i]);
    }
  }

  /** The writer's chain may have grown; its table and jobs agree with it again. */
  lemma WriterStep(w: World, s: System, r: Replica, sent: set<Bytes>, jobs: seq<Job>, echoed: set<string>)
    requires Inv(w, s)
    requires Writer(s) <= r.chain.blocks && ChainOk(w, r.chain.blocks)
    requires Mirrors(r.chain) && GenesisSaved(r.chain) && (r.saved ==> FullyMirrors(r.chain))
    requires sent != {} ==>
      |r.chain.blocks| > |Writer(s)| && sent == {BroadcastFrame(w.codec, r.chain.blocks[|r.chain.blocks| - 1])}
    requires JobsOk(w, r.chain.blocks, r.table, jobs, echoed)
    ensures Inv(w, System(s.nodes[0 := r], s.frames + sent, jobs, echoed))
  {
    hide JobsOk;
    FramesGrow(w, Writer(s), r.chain.blocks, s.frames, sent);
    NodesGrow(w, Writer(s), r.chain.blocks, s.nodes);
  }

  lemma NextNotOnChain(w: World, c: seq<Block>, t: Table, jobs: seq<Job>, echoed: set<string>, j: nat)
    requires JobsOk(w, c, t, jobs, echoed) && LogsOk(w, c) && j < |jobs| && AppendsNext(jobs[j])
    ensures forall k :: 1 <= k < |c| ==> !CarriesId(w, c[k], NextBlock(jobs[j]).id)
  {
    forall k | 1 <= k < |c| ensures !CarriesId(w, c[k], NextBlock(jobs[j]).id) {
      var log := LogOf(w, c[k]).value;
      assert OnChain(w, c, log);
      if log.id == NextBlock(jobs[j]).id {
        NextIsNew(jobs, j, jobs[j].blocks, log);
      }
    }
  }

  lemma AppendJobsOk(w: World, c: seq<Block>, d: seq<Block>, t: Table, jobs: seq<Job>, echoed: set<string>, j: nat, ok: bool)
    requires JobsOk(w, c, t, jobs, echoed) && c != [] && j < |jobs| && AppendsNext(jobs[j])
    requires Extends(w, c, d, NextBlock(jobs[j]))
    ensures JobsOk(w, d, t, jobs[j := AfterAppend(jobs[j], |d| > |c|, ok)], echoed)
  {
    var job := AfterAppend(jobs[j], |d| > |c|, ok);
    var jobs' := jobs[j := job];
    SameLogs(jobs, jobs');
    forall x ensures Appended(jobs', x) <==> OnChain(w, d, x) {
      AppendedAfter(jobs, j, job, 0, if |d| > |c| then 1 else 0, x);
      OnChainAfter(w, c, d, NextBlock(jobs[j]), x);
    }
    RowsOkAfterAppend(t, jobs, echoed, j, job, if |d| > |c| then 1 else 0);
  }

  lemma RowsOkAfterAppend(t: Table, jobs: seq<Job>, echoed: set<string>, j: nat, job: Job, db: nat)
    requires RowsOk(t, jobs, echoed) && j < |jobs| && Advances(jobs[j], job, 0, db) && db <= 1
    requires job.blocks <= |job.logs| && job.rows <= |job.logs|
    ensures RowsOk(t, jobs[j := job], echoed)
  {
    forall x ensures Written(jobs[j := job], x) == Written(jobs, x) && (Appended(jobs, x) ==> Appended(jobs[j := job], x)) {
      WrittenAfter(jobs, j, job, 0, db, x);
      AppendedAfter(jobs, j, job, 0, db, x);
    }
  }

  lemma AppendOk(w: World, s: System, j: nat, stamp: Stamp, os: SaveOutcome, gossiped: bool)
    requires Faithful(w) && Inv(w, s) && j < |s.jobs| && AppendsNext(s.jobs[j])
    ensures var a := WriterAppend(w, s.nodes[0], NextBlock(s.jobs[j]), stamp, os, gossiped);
      && Extends(w, Writer(s), a.node.chain.blocks, NextBlock(s.jobs[j]))
      && Inv(w, System(s.nodes[0 := a.node], s.frames + a.sent,
                       s.jobs[j := AfterAppend(s.jobs[j], |a.node.chain.blocks| > |Writer(s)|, a.ok)], s.echoed))
  {
    var c, t, log := Writer(s), s.nodes[0].table, NextBlock(s.jobs[j]);
    NextNotOnChain(w, c, t, s.jobs, s.echoed, j);
    AppendChainOk(w, s.nodes[0].chain, log, stamp, os);
    var a := WriterAppend(w, s.nodes[0], log, stamp, os, gossiped);
    var d := a.node.chain.blocks;
    AppendJobsOk(w, c, d, t, s.jobs, s.echoed, j, a.ok);
    hide JobsOk, ChainOk;
    WriterStep(w, s, a.node, a.sent, s.jobs[j := AfterAppend(s.jobs[j], |d| > |c|, a.ok)], s.echoed);
  }

  lemma InsertJobsOk(w: World, c: seq<Block>, t: Table, jobs: seq<Job>, echoed: set<string>, j: nat, inserted: bool, stored: bool)
    requires JobsOk(w, c, t, jobs, echoed) && j < |jobs| && WritesNext(jobs[j])
    requires inserted ==> NextRow(jobs[j]).id !in t
    ensures var log := NextRow(jobs[j]);
      JobsOk(w, c, if inserted then t[log.id := log] else t, jobs[j := AfterRow(jobs[j], inserted, stored)], echoed)
  {
    var log, job := NextRow(jobs[j]), AfterRow(jobs[j], inserted, stored);
    var jobs', dr := jobs[j := job], if inserted then 1 else 0;
    SameLogs(jobs, jobs');
    forall x ensures Appended(jobs', x) <==> Appended(jobs, x) {
      AppendedAfter(jobs, j, job, dr, 0, x);
    }
    RowsOkAfterInsert(t, jobs, echoed, j, job, inserted);
    hide RowsOk, Appended, OnChain, UniqueIds;
  }

  lemma RowsOkAfterInsert(t: Table, jobs: seq<Job>, echoed: set<string>, j: nat, job: Job, inserted: bool)
    requires RowsOk(t, jobs, echoed) && j < |jobs| && jobs[j].rows < |jobs[j].logs| && jobs[j].blocks <= |jobs[j].logs|
    requires Advances(jobs[j], job, if inserted then 1 else 0, 0)
    requires inserted ==> jobs[j].logs[jobs[j].rows].id !in t
    ensures var log := jobs[j].logs[jobs[j].rows];
      RowsOk(if inserted then t[log.id := log] else t, jobs[j := job], echoed)
  {
    var jobs', log, dr := jobs[j := job], jobs[j].logs[jobs[j].rows], if inserted then 1 else 0;
    forall x ensures Written(jobs', x) <==> Written(jobs, x) || (inserted && x == log) {
      WrittenAfter(jobs, j, job, dr, 0, x);
    }
    forall x ensures Appended(jobs', x) <==> Appended(jobs, x) {
      AppendedAfter(jobs, j, job, dr, 0, x);
    }
    hide Written, Appended;
  }

  lemma WriteRowOk(w: World, s: System, j: nat, database: bool, stored: bool)
    requires Inv(w, s) && j < |s.jobs| && WritesNext(s.jobs[j])
    ensures var log := NextRow(s.jobs[j]);
      var inserted := database && log.id !in s.nodes[0].table;
      Inv(w, System(s.nodes[0 := WriterInsert(s.nodes[0], log, database)], s.frames,
                    s.jobs[j := AfterRow(s.jobs[j], inserted, stored)], s.echoed))
  {
    var r, log := s.nodes[0], NextRow(s.jobs[j]);
    var inserted := database && log.id !in r.table;
    InsertJobsOk(w, Writer(s), r.table, s.jobs, s.echoed, j, inserted, stored);
    hide JobsOk, ChainOk;
    WriterStep(w, s, WriterInsert(r, log, database), {}, s.jobs[j := AfterRow(s.jobs[j], inserted, stored)], s.echoed);
    assert s.frames + {} == s.frames;
  }

  lemma PublishOk(w: World, s: System, job: Job)
    requires Inv(w, s) && NewIds(s.jobs, job.logs) && Shape(job) && job.rows == 0 && job.blocks == 0
    ensures Inv(w, System(s.nodes, s.frames, s.jobs + [job], s.echoed))
  {
    var jobs := s.jobs + [job];
    StartUnique(s.jobs, job);
    forall x ensures (Written(jobs, x) <==> Written(s.jobs, x)) && (Appended(jobs, x) <==> Appended(s.jobs, x)) {
      StartKeeps(s.jobs, job, x);
    }
    assert RowsOk(s.nodes[0].table, jobs, s.echoed);
    assert JobsOk(w, Writer(s), s.nodes[0].table, jobs, s.echoed);
  }

  lemma StopOk(w: World, s: System)
    requires Inv(w, s)
    ensures Inv(w, System(s.nodes, s.frames, StopAll(s.jobs), s.echoed))
  {
    var jobs := StopAll(s.jobs);
    SameLogs(s.jobs, jobs);
    forall x ensures (Written(jobs, x) <==> Written(s.jobs, x)) && (Appended(jobs, x) <==> Appended(s.jobs, x)) {
      StopKeeps(s.jobs, x);
    }
    assert RowsOk(s.nodes[0].table, jobs, s.echoed);
    assert JobsOk(w, Writer(s), s.nodes[0].table, jobs, s.echoed);
  }

  lemma EchoJobsOk(w: World, c: seq<Block>, t: Table, jobs: seq<Job>, echoed: set<string>, k: nat, database: bool)
    requires JobsOk(w, c, t, jobs, echoed) && LogsOk(w, c) && 1 <= k < |c|
    ensures var t' := HandleBlockAdded(w, t, c[k], database).0;
      JobsOk(w, c, t', jobs, echoed + (t'.Keys - t.Keys))
  {
    var log, t' := LogOf(w, c[k]).value, HandleBlockAdded(w, t, c[k], database).0;
    assert OnChain(w, c, log);
    if t' == t {
      assert echoed + (t'.Keys - t.Keys) == echoed;
    } else {
      assert echoed + (t'.Keys - t.Keys) == echoed + {log.id};
      assert RowsOk(t', jobs, echoed + {log.id});
    }
  }

  /** A frame that comes back to the writer leaves its chain alone. */
  lemma EchoIs(w: World, r: Replica, frame: Bytes, os: SaveOutcome, database: bool) returns (k: nat)
    requires Faithful(w) && ChainOk(w, r.chain.blocks) && FrameOk(w, r.chain.blocks, frame)
    ensures 1 <= k < |r.chain.blocks|
    ensures var r' := Receive(w, r, frame, os, database);
      && r'.chain == r.chain && r'.saved == r.saved
      && (r'.table == r.table || r'.table == HandleBlockAdded(w, r.table, r.chain.blocks[k], database).0)
  {
    k := ReceiveIs(w, r.chain.blocks, r, frame, os, database);
    AddBlockFromPrefix(r.chain, r.chain.blocks, k, os);
  }

  lemma WriterDeliverOk(w: World, s: System, frame: Bytes, os: SaveOutcome, database: bool)
    requires Faithful(w) && Inv(w, s) && frame in s.frames
    ensures var r := Receive(w, s.nodes[0], frame, os, database);
      && r.chain == s.nodes[0].chain
      && Inv(w, System(s.nodes[0 := r], s.frames, s.jobs, s.echoed + (r.table.Keys - s.nodes[0].table.Keys)))
  {
    var c, r := Writer(s), s.nodes[0];
    hide Receive, HandleBlockAdded, NodeOk, TaskOk, RowsOk, UniqueIds, HashLinked;
    var k := EchoIs(w, r, frame, os, database);
    EchoJobsOk(w, c, r.table, s.jobs, s.echoed, k, database);
    var r' := Receive(w, r, frame, os, database);
    assert r.table.Keys - r.table.Keys == {} && s.echoed + {} == s.echoed;
    hide JobsOk;
    WriterStep(w, s, r', {}, s.jobs, s.echoed + (r'.table.Keys - r.table.Keys));
    assert s.frames + {} == s.frames;
  }

  lemma WriterRestartOk(w: World, s: System, step: Step)
    requires Inv(w, s) && Enabled(w, s, step) && step.RestartWriter?
    ensures Next(w, s, step) == s.(jobs := StopAll(s.jobs))
  {
    RestartRestores(w.h, s.nodes[0].chain, step.stamp, step.os);
    assert s.nodes[0 := s.nodes[0]] == s.nodes;
    assert s.frames + {} == s.frames;
  }

  lemma ReplicaStepOk(w: World, s: System, step: Step)
    requires Faithful(w) && Inv(w, s) && Enabled(w, s, step) && 1 <= Target(step) < |s.nodes|
    ensures NodeOk(w, Writer(s), Changed(w, s, step)) && TaskOk(w, Writer(s), Changed(w, s, step))
  {
    var c, r := Writer(s), s.nodes[Target(step)];
    assert NodeOk(w, c, r) && TaskOk(w, c, r);
    match step
    case Deliver(_, frame, os, database) =>
      var k := ReceiveIs(w, c, r, frame, os, database);
      BroadcastNodeOk(w, c, r, k, os, database);
      ReceiveTaskOk(w, c, r, k, os, database);
    case FinishPull(_, oss) =>
      var peer := s.nodes[r.task.peer];
      assert r.task.peer > 0 ==> NodeOk(w, c, peer);
      PullReplyIsPrefix(w, c, peer, r.task.ordinal);
      CompletePullOk(w, c, r, r.task.ordinal, PullReply(w, peer, r.task.ordinal), oss);
    case LocalPull(_) => LocalPullOk(w, c, r);
    case ReplayOne(_, database) => ReplayOk(w, c, r, database);
    case _ =>
  }

  lemma WriterStepOk(w: World, s: System, step: Step)
    requires Faithful(w) && Inv(w, s) && Enabled(w, s, step) && Target(step) == 0
    ensures Inv(w, Next(w, s, step)) && Writer(s) <= Writer(Next(w, s, step))
  {
    hide JobsOk, ChainOk, NodeOk, TaskOk, FrameOk, Mirrors, FullyMirrors, WriterAppend, Receive;
    hide AfterRow, AfterAppend, NewIds;
    assert s.nodes[0 := s.nodes[0]] == s.nodes && s.frames + {} == s.frames;
    match step
    case Publish(origin, logs) => PublishOk(w, s, Job(origin, logs, 0, 0, false));
    case WriteRow(j, database, stored) => WriteRowOk(w, s, j, database, stored);
    case Append(j, stamp, os, gossiped) => AppendOk(w, s, j, stamp, os, gossiped);
    case RestartWriter(_, _) =>
      WriterRestartOk(w, s, step);
      StopOk(w, s);
    case Deliver(_, frame, os, database) => WriterDeliverOk(w, s, frame, os, database);
    case _ =>
  }

  /** Every step keeps the invariant, and the writer's chain only grows. */
  lemma StepKeepsInv(w: World, s: System, step: Step)
    requires Faithful(w) && Inv(w, s) && Enabled(w, s, step)
    ensures Inv(w, Next(w, s, step)) && Writer(s) <= Writer(Next(w, s, step))
  {
    if Target(step) == 0 {
      WriterStepOk(w, s, step);
    } else {
      ReplicaStepOk(w, s, step);
      ReplicaStep(w, s, Target(step), Changed(w, s, step));
      assert s.frames + {} == s.frames;
    }
  }

  lemma InitWriter(w: World, s: System)
    requires Init(w, s)
    ensures |Writer(s)| == 1 && ChainOk(w, Writer(s)) && FullyMirrors(s.nodes[0].chain)
  {
    var stamp :| Open(w.h, map[], stamp, Saved) == Ok(s.nodes[0].chain);
    OpenEmpty(w.h, stamp);
    GenesisIsLinked(w.h, stamp);
  }

  lemma InitInv(w: World, s: System)
    requires Init(w, s)
    ensures Inv(w, s)
  {
    InitWriter(w, s);
    var c := Writer(s);
    forall i | 1 <= i < |s.nodes| ensures NodeOk(w, c, s.nodes[i]) && TaskOk(w, c, s.nodes[i]) {
      assert s.nodes[i].table == map[];
    }
    assert s.nodes[0].table == map[];
    assert JobsOk(w, c, map[], [], {});
  }

  // ------------------------------------------------------------------ whole runs

  lemma {:induction false} RunKeepsInv(w: World, s: System, steps: seq<Step>)
    requires Faithful(w) && Inv(w, s) && Legal(w, s, steps)
    ensures Inv(w, Run(w, s, steps)) && Writer(s) <= Writer(Run(w, s, steps))
    ensures |Run(w, s, steps).nodes| == |s.nodes|
    decreases |steps|
  {
    if steps != [] {
      StepKeepsInv(w, s, steps[0]);
      RunKeepsInv(w, Next(w, s, steps[0]), steps[1..]);
    }
  }

  /** The chain of any node is a prefix of the writer's. */
  lemma HoldsPrefix(w: World, s: System, i: nat)
    requires Inv(w, s) && i < |s.nodes|
    ensures s.nodes[i].chain.blocks <= Writer(s)
  {
    assert i > 0 ==> NodeOk(w, Writer(s), s.nodes[i]);
  }

  /** Where the rows of a node come from. */
  lemma RowsComeFrom(w: World, s: System, i: nat, id: string)
    requires Inv(w, s) && i < |s.nodes| && id in s.nodes[i].table
    ensures var row := s.nodes[i].table[id];
      RowFrom(w, Writer(s), id, row) || (i == 0 && row.id == id && Written(s.jobs, row))
  {
    if i > 0 {
      assert NodeOk(w, Writer(s), s.nodes[i]);
    } else if !Written(s.jobs, s.nodes[0].table[id]) {
      assert OnChain(w, Writer(s), s.nodes[0].table[id]);
    }
  }

  /**
   Replication safety.  In every run, whatever is lost, repeated, reordered or
   not saved, every node holds a prefix of the writer's chain, that chain is
   hash-linked and numbered from zero, and every row at another node was
   written for one of its blocks.  The writer's own table may be ahead of its
   chain, but every row in it is one its jobs wrote or one of a block.
   */
  lemma ReplicationSafety(w: World, s: System, steps: seq<Step>, i: nat)
    requires Faithful(w) && Init(w, s) && Legal(w, s, steps) && i < |s.nodes|
    ensures var s' := Run(w, s, steps);
      && i < |s'.nodes|
      && var c, r := Writer(s'), s'.nodes[i];
        && r.chain.blocks <= c
        && HashLinked(w.h, c) && OrdinalsMatch(c)
        && forall id :: id in r.table ==>
             RowFrom(w, c, id, r.table[id]) || (i == 0 && r.table[id].id == id && Written(s'.jobs, r.table[id]))
  {
    InitInv(w, s);
    RunKeepsInv(w, s, steps);
    var s' := Run(w, s, steps);
    HoldsPrefix(w, s', i);
    OrdinalsOf(w, Writer(s'));
    forall id | id in s'.nodes[i].table
      ensures RowFrom(w, Writer(s'), id, s'.nodes[i].table[id])
        || (i == 0 && s'.nodes[i].table[id].id == id && Written(s'.jobs, s'.nodes[i].table[id]))
    {
      RowsComeFrom(w, s', i, id);
    }
  }

  lemma LiveHasRow(w: World, s: System, i: nat, k: nat)
    requires Inv(w, s) && 1 <= i < |s.nodes|
    requires var r := s.nodes[i]; r.task.Live? && r.saved && r.inserted && 1 <= k < |r.chain.blocks|
    ensures HasRow(w, s.nodes[i].table, s.nodes[i].chain.blocks[k])
  {
    assert NodeOk(w, Writer(s), s.nodes[i]) && TaskOk(w, Writer(s), s.nodes[i]);
    assert s.nodes[i].chain.blocks[k] == Writer(s)[k];
  }

  /**
   Log convergence.  A node whose start-up task has finished and where no save
   and no insert has failed has the row of every block after genesis it holds.
   */
  lemma LogConvergence(w: World, s: System, steps: seq<Step>, i: nat, k: nat)
    requires Faithful(w) && Init(w, s) && Legal(w, s, steps) && 1 <= i < |s.nodes|
    requires |Run(w, s, steps).nodes| == |s.nodes|
    requires var r := Run(w, s, steps).nodes[i]; r.task.Live? && r.saved && r.inserted && 1 <= k < |r.chain.blocks|
    ensures var r := Run(w, s, steps).nodes[i]; HasRow(w, r.table, r.chain.blocks[k])
  {
    InitInv(w, s);
    RunKeepsInv(w, s, steps);
    LiveHasRow(w, Run(w, s, steps), i, k);
  }

  lemma {:induction false} RunSplits(w: World, s: System, before: seq<Step>, after: seq<Step>)
    requires Legal(w, s, before + after)
    ensures Legal(w, s, before) && Legal(w, Run(w, s, before), after)
    ensures Run(w, s, before + after) == Run(w, Run(w, s, before), after)
    decreases |before|
  {
    hide Enabled, Next;
    if before == [] {
      assert before + after == after;
    } else {
      assert (before + after)[1..] == before[1..] + after;
      RunSplits(w, Next(w, s, before[0]), before[1..], after);
    }
  }

  /** The steps are legal and lead from one state to the other. */
  ghost predicate Reaches(w: World, s: System, steps: seq<Step>, s': System) {
    Legal(w, s, steps) && Run(w, s, steps) == s'
  }

  lemma OneStep(w: World, s: System, step: Step)
    requires Enabled(w, s, step)
    ensures Reaches(w, s, [step], Next(w, s, step))
  {
    hide Enabled, Next;
    assert [step][1..] == [];
    assert Run(w, Next(w, s, step), []) == Next(w, s, step);
  }

  lemma {:induction false} RunJoins(w: World, s: System, before: seq<Step>, s1: System, after: seq<Step>, s2: System)
    requires Reaches(w, s, before, s1) && Reaches(w, s1, after, s2)
    ensures Reaches(w, s, before + after, s2)
    decreases |before|
  {
    hide Enabled, Next;
    if before == [] {
      assert before + after == after;
    } else {
      assert (before + after)[1..] == before[1..] + after;
      RunJoins(w, Next(w, s, before[0]), before[1..], s1, after, s2);
    }
  }

  /** Starting a job changes nothing but the list of jobs. */
  lemma PublishStep(w: World, s: System, origin: Origin, logs: seq<Log>)
    requires Enabled(w, s, Publish(origin, logs))
    ensures Next(w, s, Publish(origin, logs)) == s.(jobs := s.jobs + [Job(origin, logs, 0, 0, false)])
  {
    assert s.nodes[0 := s.nodes[0]] == s.nodes && s.frames + {} == s.frames;
  }

  /**
   Agreement over time: whatever node `i` held at an earlier moment and node `j`
   holds at a later one, one of the two chains is a prefix of the other.
   */
  lemma AgreementOverTime(w: World, s: System, before: seq<Step>, after: seq<Step>, i: nat, j: nat)
    requires Faithful(w) && Init(w, s) && Legal(w, s, before + after) && i < |s.nodes| && j < |s.nodes|
    ensures Legal(w, s, before)
    ensures var s1, s2 := Run(w, s, before), Run(w, s, before + after);
      && |s1.nodes| == |s2.nodes| == |s.nodes|
      && var a, b := s1.nodes[i].chain.blocks, s2.nodes[j].chain.blocks;
        a <= b || b <= a
  {
    RunSplits(w, s, before, after);
    InitInv(w, s);
    RunKeepsInv(w, s, before);
    var s1 := Run(w, s, before);
    RunKeepsInv(w, s1, after);
    var s2 := Run(w, s1, after);
    HoldsPrefix(w, s1, i);
    HoldsPrefix(w, s2, j);
    PrefixesCompare(s1.nodes[i].chain.blocks, s2.nodes[j].chain.blocks, Writer(s2));
  }

  lemma PrefixesCompare(a: seq<Block>, b: seq<Block>, c: seq<Block>)
    requires a <= c && b <= c
    ensures a <= b || b <= a
  {
    assert a == c[..|a|] && b == c[..|b|];
  }
}
