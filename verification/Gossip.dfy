/**
 What a broadcast does (src/blockchain_service/service.rs and
 src/blockchain_service/event.rs): when it is sent, what it makes of a chain and
 of a log table, and that it brings a node up to date.
 */
module Gossip {
  import opened Wrappers
  import opened Structures
  import opened Chain
  import opened Persistence
  import opened Wire
  import opened NodeSpec
  import opened TransparencyLog
  import opened Jobs
  import opened Replication
  import opened Progress

  // ------------------------------------------------------------------------ sending

  /** An append adds the block of the log; it is sent, and reported as a success, exactly if it was saved and gossiped. */
  lemma AppendSends(w: World, r: Replica, log: Log, stamp: Stamp, os: SaveOutcome, gossiped: bool)
    requires Faithful(w) && ChainOk(w, r.chain.blocks) && |r.chain.blocks| < U128_LIMIT
    ensures var n, a := |r.chain.blocks|, WriterAppend(w, r, log, stamp, os, gossiped);
      && |a.node.chain.blocks| == n + 1 && r.chain.blocks <= a.node.chain.blocks
      && LogOf(w, a.node.chain.blocks[n]) == Some(log)
      && a.sent == (if os.Saved? && gossiped then {BroadcastFrame(w.codec, a.node.chain.blocks[n])} else {})
      && (a.ok <==> os.Saved? && gossiped)
      && a.node.table == r.table && a.node.task == r.task && (a.node.saved <==> r.saved && os.Saved?)
  {
    OrdinalsOf(w, r.chain.blocks);
    AddPayloadExtends(w.h, r.chain, w.render(log), stamp, os);
  }

  /** In the system: the frame of a saved and gossiped block is in the network, and its job moves on. */
  lemma AppendIsBroadcast(w: World, s: System, j: nat, stamp: Stamp)
    requires Faithful(w) && Inv(w, s) && j < |s.jobs| && AppendsNext(s.jobs[j]) && |Writer(s)| < U128_LIMIT
    ensures var n, s' := |Writer(s)|, Next(w, s, Step.Append(j, stamp, Saved, true));
      && Inv(w, s') && |s'.nodes| == |s.nodes| && |Writer(s')| == n + 1 && Writer(s) <= Writer(s')
      && LogOf(w, Writer(s')[n]) == Some(NextBlock(s.jobs[j]))
      && s'.frames == s.frames + {BroadcastFrame(w.codec, Writer(s')[n])}
      && s'.jobs == s.jobs[j := s.jobs[j].(blocks := s.jobs[j].blocks + 1)]
      && forall i :: 1 <= i < |s.nodes| ==> s'.nodes[i] == s.nodes[i]
  {
    hide WriterAppend, JobsOk, NodeOk, TaskOk, FrameOk, HashLinked, Mirrors, FullyMirrors;
    StepKeepsInv(w, s, Step.Append(j, stamp, Saved, true));
    AppendSends(w, s.nodes[0], NextBlock(s.jobs[j]), stamp, Saved, true);
  }

  lemma {:induction false} FramesStay(w: World, s: System, steps: seq<Step>)
    requires Legal(w, s, steps)
    ensures s.frames <= Run(w, s, steps).frames
    decreases |steps|
  {
    if steps != [] {
      FramesStay(w, Next(w, s, steps[0]), steps[1..]);
    }
  }

  // ---------------------------------------------------------------------- receiving

  /**
   What a frame does to the log table of a node: the row is handled exactly if
   the chain reports a success, which it does for a block the node has, for its
   next block if the save succeeds, and, on an empty chain, for any block.
   */
  lemma ReceiveTable(w: World, c: seq<Block>, r: Replica, k: nat, os: SaveOutcome, database: bool)
    requires Faithful(w) && ChainOk(w, c) && 1 <= k < |c| && r.chain.blocks <= c
    ensures var n, r' := |r.chain.blocks|, Receive(w, r, BroadcastFrame(w.codec, c[k]), os, database);
      var (table, ok) := HandleBlockAdded(w, r.table, c[k], database);
      if n < U128_LIMIT && (n == 0 || k < n || (k == n && os.Saved?)) then
        r'.table == table && r'.inserted == (r.inserted && ok) && r'.saved == r.saved
      else
        r'.table == r.table && r'.inserted == r.inserted && r'.saved == (r.saved && k != n)
  {
    OrdinalsOf(w, c);
    BroadcastRoundTrip(w.codec, c[k]);
    AddBlockFromPrefix(r.chain, c, k, os);
  }

  /** The receiver goes by the ordinal on the wire, whatever the block's header says. */
  lemma ReceiveGoesByWire(w: World, r: Replica, wire: Ordinal, block: Block, os: SaveOutcome, database: bool)
    requires Faithful(w)
    ensures Receive(w, r, [1] + SerializeOrdinal(wire) + w.codec.encode(block), os, database) ==
            HandleBlockBroadcast(w, r, wire, block, os, database)
  {
    CommandBytes();
    WireOrdinalIsIndependent(w.codec, wire, block);
  }

  /** A later block, or one whose save fails, leaves the table alone. */
  lemma RefusedLeavesTable(w: World, c: seq<Block>, r: Replica, k: nat, os: SaveOutcome, database: bool)
    requires Faithful(w) && ChainOk(w, c) && 1 <= k < |c| && r.chain.blocks <= c && r.chain.blocks != []
    requires k > |r.chain.blocks| || (k == |r.chain.blocks| && !os.Saved?)
    ensures Receive(w, r, BroadcastFrame(w.codec, c[k]), os, database).table == r.table
  {
    ReceiveTable(w, c, r, k, os, database);
  }

  /** A frame that is not a broadcast changes nothing. */
  lemma OtherFramesChangeNothing(w: World, r: Replica, frame: Bytes, os: SaveOutcome, database: bool)
    requires frame == [] || frame[0] != 1
    ensures Receive(w, r, frame, os, database) == r
  {
    DecodeOthers(w.codec, frame);
    CommandBytes();
  }

  /** An empty node takes the row of any block it is sent, and stays empty. */
  lemma EmptyNodeTakesRow(w: World, c: seq<Block>, r: Replica, k: nat, os: SaveOutcome)
    requires Faithful(w) && ChainOk(w, c) && 1 <= k < |c| && r.chain.blocks == [] && LogOf(w, c[k]).value.id !in r.table
    ensures var r' := Receive(w, r, BroadcastFrame(w.codec, c[k]), os, true);
      r'.chain == r.chain && HasRow(w, r'.table, c[k])
  {
    ReceiveTable(w, c, r, k, os, true);
    OrdinalsOf(w, c);
    BroadcastRoundTrip(w.codec, c[k]);
    AddBlockFromPrefix(r.chain, c, k, os);
  }

  // ------------------------------------------------------- rows are of blocks it holds

  /** The row is of a block the node holds. */
  ghost predicate RowHeld(w: World, r: Replica, row: Log) {
    exists k :: 1 <= k < |r.chain.blocks| && LogOf(w, r.chain.blocks[k]) == Some(row)
  }

  /** Every row the node has now and had not then is of a block it holds. */
  ghost predicate NewRowsHeld(w: World, before: Replica, after: Replica) {
    forall id :: id in after.table && (id !in before.table || after.table[id] != before.table[id]) ==>
      RowHeld(w, after, after.table[id])
  }

  lemma HandledRow(w: World, r: Replica, chain: Node, k: nat, database: bool)
    requires r.chain.blocks <= chain.blocks && 1 <= k < |chain.blocks|
    ensures NewRowsHeld(w, r, r.(chain := chain, table := HandleBlockAdded(w, r.table, chain.blocks[k], database).0))
  {
    BlockAddedIs(w, r.table, chain.blocks[k], database);
    PayloadAt(chain.blocks[k].transactions, 0);
    var r' := r.(chain := chain, table := HandleBlockAdded(w, r.table, chain.blocks[k], database).0);
    forall id | id in r'.table && (id !in r.table || r'.table[id] != r.table[id]) ensures RowHeld(w, r', r'.table[id]) {
      assert LogOf(w, r'.chain.blocks[k]) == Some(r'.table[id]);
    }
  }

  lemma ReceivedRow(w: World, c: seq<Block>, r: Replica, frame: Bytes, os: SaveOutcome, database: bool)
    requires Faithful(w) && ChainOk(w, c) && FrameOk(w, c, frame) && r.chain.blocks <= c
    requires r.chain.blocks != []
    ensures NewRowsHeld(w, r, Receive(w, r, frame, os, database))
  {
    var k := ReceiveIs(w, c, r, frame, os, database);
    var n, r' := |r.chain.blocks|, Receive(w, r, frame, os, database);
    ReceiveTable(w, c, r, k, os, database);
    AddBlockFromPrefix(r.chain, c, k, os);
    if n < U128_LIMIT && (k < n || (k == n && os.Saved?)) {
      assert r'.chain.blocks[k] == c[k];
      HandledRow(w, r, r'.chain, k, database);
      var same := r.(chain := r'.chain, table := HandleBlockAdded(w, r.table, c[k], database).0);
      assert same.table == r'.table && same.chain == r'.chain;
      hide HandleBlockAdded, Receive, LogOf;
      forall id | id in r'.table && (id !in r.table || r'.table[id] != r.table[id]) ensures RowHeld(w, r', r'.table[id]) {
        assert RowHeld(w, same, same.table[id]);
      }
    }
  }

  lemma NewRowsChain(w: World, a: Replica, b: Replica, c: Replica)
    requires NewRowsHeld(w, a, b) && NewRowsHeld(w, b, c) && b.chain.blocks <= c.chain.blocks
    requires forall id :: id in b.table ==> id in c.table && c.table[id] == b.table[id]
    ensures NewRowsHeld(w, a, c)
  {
    hide LogOf;
    forall id | id in c.table && (id !in a.table || c.table[id] != a.table[id]) ensures RowHeld(w, c, c.table[id]) {
      if id in b.table {
        assert RowHeld(w, b, b.table[id]);
        var k :| 1 <= k < |b.chain.blocks| && LogOf(w, b.chain.blocks[k]) == Some(b.table[id]);
        assert c.chain.blocks[k] == b.chain.blocks[k];
      }
    }
  }

  /** Rows are never taken back or changed by handling a block. */
  lemma HandlingKeepsRows(w: World, table: Table, block: Block, database: bool)
    ensures forall id :: id in table ==>
      var table' := HandleBlockAdded(w, table, block, database).0; id in table' && table'[id] == table[id]
  {
  }

  /** One step of a node that holds blocks: its new rows are of blocks it holds, its old rows stay. */
  lemma StepRowsHeld(w: World, s: System, step: Step, i: nat)
    requires Faithful(w) && Inv(w, s) && Enabled(w, s, step) && 1 <= i < |s.nodes| && !Restarts(step, i)
    requires s.nodes[i].chain.blocks != []
    ensures var r' := Next(w, s, step).nodes[i];
      && NewRowsHeld(w, s.nodes[i], r')
      && forall id :: id in s.nodes[i].table ==> id in r'.table && r'.table[id] == s.nodes[i].table[id]
  {
    var r := s.nodes[i];
    assert NodeOk(w, Writer(s), r) && TaskOk(w, Writer(s), r);
    if Target(step) == i {
      ChangedRowsHeld(w, s, step, i);
    }
  }

  lemma ChangedRowsHeld(w: World, s: System, step: Step, i: nat)
    requires Faithful(w) && Inv(w, s) && Enabled(w, s, step) && 1 <= i < |s.nodes| && Target(step) == i && !Restarts(step, i)
    requires s.nodes[i].chain.blocks != []
    ensures var r' := Changed(w, s, step);
      && NewRowsHeld(w, s.nodes[i], r')
      && forall id :: id in s.nodes[i].table ==> id in r'.table && r'.table[id] == s.nodes[i].table[id]
  {
    var c, r := Writer(s), s.nodes[i];
    assert NodeOk(w, c, r) && TaskOk(w, c, r);
    hide JobsOk, NodeOk, FrameOk, HashLinked, Receive, HandleBlockAdded, NewRowsHeld;
    if step.Deliver? {
      HoldsPrefix(w, s, i);
      ReceivedRow(w, c, r, step.frame, step.os, step.database);
      ReceivedKeepsRows(w, c, r, step.frame, step.os, step.database);
    } else if step.ReplayOne? {
      ReplayedRow(w, r, step.database);
    } else {
      SameTable(w, r, Changed(w, s, step));
    }
  }

  lemma SameTable(w: World, r: Replica, r': Replica)
    requires r'.table == r.table
    ensures NewRowsHeld(w, r, r')
  {
  }

  lemma ReceivedKeepsRows(w: World, c: seq<Block>, r: Replica, frame: Bytes, os: SaveOutcome, database: bool)
    requires Faithful(w) && ChainOk(w, c) && FrameOk(w, c, frame) && r.chain.blocks <= c
    ensures var r' := Receive(w, r, frame, os, database);
      forall id :: id in r.table ==> id in r'.table && r'.table[id] == r.table[id]
  {
    var k := ReceiveIs(w, c, r, frame, os, database);
    ReceiveTable(w, c, r, k, os, database);
    HandlingKeepsRows(w, r.table, c[k], database);
  }

  lemma ReplayedRow(w: World, r: Replica, database: bool)
    requires r.task.Replaying? && forall b :: b in r.task.rest ==> InChain(r.chain.blocks, b)
    ensures var r' := Replay(w, r, database);
      && NewRowsHeld(w, r, r')
      && forall id :: id in r.table ==> id in r'.table && r'.table[id] == r.table[id]
  {
    var r' := Replay(w, r, database);
    if r.task.rest != [] {
      assert r.task.rest[0] in r.task.rest;
      var k :| 1 <= k < |r.chain.blocks| && r.chain.blocks[k] == r.task.rest[0];
      HandledRow(w, r, r.chain, k, database);
      HandlingKeepsRows(w, r.table, r.task.rest[0], database);
      var same := r.(chain := r.chain, table := HandleBlockAdded(w, r.table, r.task.rest[0], database).0);
      assert same.table == r'.table && same.chain == r'.chain;
      hide HandleBlockAdded, LogOf;
      forall id | id in r'.table && (id !in r.table || r'.table[id] != r.table[id]) ensures RowHeld(w, r', r'.table[id]) {
        assert RowHeld(w, same, same.table[id]);
      }
    }
  }

  /**
   Over every run of a node that holds blocks, until it is restarted: every row
   its table gains is of a block it holds, and no row is lost or changed.
   */
  lemma {:induction false} RowsAreOfHeldBlocks(w: World, s: System, steps: seq<Step>, i: nat)
    requires Faithful(w) && Inv(w, s) && Legal(w, s, steps) && 1 <= i < |s.nodes| && s.nodes[i].chain.blocks != []
    requires forall k :: 0 <= k < |steps| ==> !Restarts(steps[k], i)
    ensures i < |Run(w, s, steps).nodes|
    ensures var r' := Run(w, s, steps).nodes[i];
      && NewRowsHeld(w, s.nodes[i], r')
      && forall id :: id in s.nodes[i].table ==> id in r'.table && r'.table[id] == s.nodes[i].table[id]
    decreases |steps|
  {
    RunKeepsInv(w, s, steps);
    if steps == [] {
      SameTable(w, s.nodes[i], s.nodes[i]);
    } else {
      var s1, rest := Next(w, s, steps[0]), steps[1..];
      HoldsPrefix(w, s, i);
      StepKeepsInv(w, s, steps[0]);
      StepRowsHeld(w, s, steps[0], i);
      ChainGrows(w, s, steps[0], i);
      forall k | 0 <= k < |rest| ensures !Restarts(rest[k], i) {
        assert rest[k] == steps[k + 1];
      }
      hide Inv, Next, Enabled, NewRowsHeld, Faithful;
      RowsAreOfHeldBlocks(w, s1, rest, i);
      ChainGrowsRun(w, s1, rest, i);
      NewRowsChain(w, s.nodes[i], s1.nodes[i], Run(w, s1, rest).nodes[i]);
    }
  }

  // ----------------------------------------------------------- catching up by gossip

  /** A node that can take frames takes this one. */
  lemma DeliverIs(w: World, s: System, i: nat, k: nat, os: SaveOutcome, database: bool)
    requires Faithful(w) && Inv(w, s) && 1 <= i < |s.nodes| && !s.nodes[i].task.Pulling? && s.nodes[i].chain.blocks != []
    requires 1 <= k < |Writer(s)| && BroadcastFrame(w.codec, Writer(s)[k]) in s.frames
    ensures var step := Deliver(i, BroadcastFrame(w.codec, Writer(s)[k]), os, database);
      && Enabled(w, s, step)
      && var s', n := Next(w, s, step), |s.nodes[i].chain.blocks|;
        && Inv(w, s') && |s'.nodes| == |s.nodes| && Writer(s') == Writer(s) && s'.frames == s.frames
        && s'.nodes[i].chain.blocks == (if k == n then Writer(s)[..n + 1] else s.nodes[i].chain.blocks)
        && s'.nodes[i].task == s.nodes[i].task
        && (os.Saved? && k <= n ==> s'.nodes[i].saved == s.nodes[i].saved)
        && (database && s.nodes[i].inserted ==> s'.nodes[i].inserted)
  {
    var c, r, frame := Writer(s), s.nodes[i], BroadcastFrame(w.codec, Writer(s)[k]);
    var step := Deliver(i, frame, os, database);
    StepKeepsInv(w, s, step);
    HoldsPrefix(w, s, i);
    GrowsIff(w, c, r, frame, os, database);
    ReceiveTable(w, c, r, k, os, database);
    assert LogsOk(w, c) && NodeOk(w, c, r);
    RowWritten(w, c, r.table, k, database);
    hide Receive, HandleBlockAdded, JobsOk, NodeOk, TaskOk, HashLinked;
    if |r.chain.blocks| < |c| && k != |r.chain.blocks| {
      FramesDiffer(w, c, k, |r.chain.blocks|) by { OrdinalsOf(w, c); }
    }
    assert s.frames + {} == s.frames;
  }

  /**
   The gossip counterpart of a pull: a node that held the writer's whole chain
   when a block was appended, saved and gossiped, and handles its frame at any
   later time, then holds that block too, even if its own save fails; and if it
   is up without a failure, it has the block's row.
   */
  lemma BroadcastCatchesUp(w: World, s: System, j: nat, stamp: Stamp, i: nat, mid: seq<Step>, os: SaveOutcome, database: bool)
    requires Faithful(w) && Inv(w, s) && j < |s.jobs| && AppendsNext(s.jobs[j]) && |Writer(s)| < U128_LIMIT
    requires 1 <= i < |s.nodes| && s.nodes[i].chain.blocks == Writer(s)
    requires Legal(w, Next(w, s, Step.Append(j, stamp, Saved, true)), mid) && forall k :: 0 <= k < |mid| ==> !Restarts(mid[k], i)
    ensures var n, s1 := |Writer(s)|, Next(w, s, Step.Append(j, stamp, Saved, true));
      && s1.nodes != [] && |Writer(s1)| == n + 1
      && var s2, step := Run(w, s1, mid), Deliver(i, BroadcastFrame(w.codec, Writer(s1)[n]), os, database);
        && Enabled(w, s2, step) && i < |Next(w, s2, step).nodes|
        && var r := Next(w, s2, step).nodes[i];
          && Writer(s1) <= r.chain.blocks
          && (r.task.Live? && r.saved && r.inserted ==> HasRow(w, r.table, Writer(s1)[n]))
  {
    assert Enabled(w, s, Step.Append(j, stamp, Saved, true)) && Writer(s) != [];
    hide Next, Legal, Run, Enabled, Inv, Faithful, HasRow, NextBlock;
    var n, s1 := |Writer(s)|, Next(w, s, Step.Append(j, stamp, Saved, true));
    AppendIsBroadcast(w, s, j, stamp);
    RunKeepsInv(w, s1, mid);
    FramesStay(w, s1, mid);
    ChainGrowsRun(w, s1, mid, i);
    AfterMid(w, s1, Run(w, s1, mid), i, n, os, database);
  }

  lemma AfterMid(w: World, s1: System, s2: System, i: nat, n: nat, os: SaveOutcome, database: bool)
    requires Faithful(w) && Inv(w, s1) && Inv(w, s2) && Writer(s1) <= Writer(s2) && 1 <= n < |Writer(s1)| && |Writer(s1)| == n + 1
    requires BroadcastFrame(w.codec, Writer(s1)[n]) in s2.frames && 1 <= i < |s2.nodes|
    requires Writer(s1)[..n] <= s2.nodes[i].chain.blocks
    ensures var step := Deliver(i, BroadcastFrame(w.codec, Writer(s1)[n]), os, database);
      && Enabled(w, s2, step) && i < |Next(w, s2, step).nodes|
      && var r := Next(w, s2, step).nodes[i];
        && Writer(s1) <= r.chain.blocks
        && (r.task.Live? && r.saved && r.inserted ==> HasRow(w, r.table, Writer(s1)[n]))
  {
    assert Writer(s2)[n] == Writer(s1)[n];
    BusyIsNotPulling(w, s2, i);
    HoldsPrefix(w, s2, i);
    DeliverIs(w, s2, i, n, os, database);
    var s3 := Next(w, s2, Deliver(i, BroadcastFrame(w.codec, Writer(s2)[n]), os, database));
    HoldsPrefix(w, s3, i);
    hide Next, Enabled, Inv;
    var r := s3.nodes[i];
    assert |r.chain.blocks| >= n + 1;
    assert r.chain.blocks[n] == Writer(s2)[n];
    if r.task.Live? && r.saved && r.inserted {
      LiveHasRow(w, s3, i, n);
    }
  }

  lemma BusyIsNotPulling(w: World, s: System, i: nat)
    requires Inv(w, s) && 1 <= i < |s.nodes| && s.nodes[i].chain.blocks != []
    ensures !s.nodes[i].task.Pulling?
  {
    assert TaskOk(w, Writer(s), s.nodes[i]);
  }

  /** The frames of every block the node lacks are in the network. */
  ghost predicate NothingMissed(w: World, s: System, i: nat) {
    && 1 <= i < |s.nodes| && s.nodes[i].chain.blocks != []
    && forall k :: |s.nodes[i].chain.blocks| <= k < |Writer(s)| ==> BroadcastFrame(w.codec, Writer(s)[k]) in s.frames
  }

  lemma StayPut(w: World, s: System)
    ensures Reaches(w, s, [], s)
  {
  }

  lemma GossipRound(w: World, s: System, i: nat) returns (step: Step, s': System)
    requires Faithful(w) && Inv(w, s) && NothingMissed(w, s, i) && |s.nodes[i].chain.blocks| < |Writer(s)|
    ensures step.Deliver? && Reaches(w, s, [step], s') && Inv(w, s') && NothingMissed(w, s', i)
    ensures |s'.nodes| == |s.nodes| && Writer(s') == Writer(s) && |s'.nodes[i].chain.blocks| == |s.nodes[i].chain.blocks| + 1
  {
    hide Reaches, Next, Enabled;
    var n := |s.nodes[i].chain.blocks|;
    BusyIsNotPulling(w, s, i);
    DeliverIs(w, s, i, n, Saved, true);
    hide Inv;
    step := Deliver(i, BroadcastFrame(w.codec, Writer(s)[n]), Saved, true);
    s' := Next(w, s, step);
    OneStep(w, s, step);
  }

  /**
   A node that missed nothing comes to hold the writer's whole chain by gossip
   alone.  With `MissedBlockStalls`, which says the opposite for the first block
   that is missing, this is exactly when gossip suffices.
   */
  lemma {:induction false} GossipSuffices(w: World, s: System, i: nat) returns (steps: seq<Step>, s': System)
    requires Faithful(w) && Inv(w, s) && NothingMissed(w, s, i)
    ensures Reaches(w, s, steps, s') && (forall k :: 0 <= k < |steps| ==> steps[k].Deliver?)
    ensures Inv(w, s') && |s'.nodes| == |s.nodes| && Writer(s') == Writer(s) && s'.nodes[i].chain.blocks == Writer(s)
    decreases |Writer(s)| - |s.nodes[i].chain.blocks|
  {
    HoldsPrefix(w, s, i);
    var n := |s.nodes[i].chain.blocks|;
    hide Next, Inv, Enabled, Reaches, NothingMissed;
    if n == |Writer(s)| {
      steps, s' := [], s;
      StayPut(w, s);
    } else {
      var step, s1 := GossipRound(w, s, i);
      var rest;
      rest, s' := GossipSuffices(w, s1, i);
      RunJoins(w, s, [step], s1, rest, s');
      steps := [step] + rest;
    }
  }

  // -------------------------------------------------------------- starting and restarting

  /** A restarted node forgets its chain and its task; its directory and its table stay. */
  lemma RestartForgets(w: World, s: System, i: nat)
    requires 1 <= i < |s.nodes|
    ensures Enabled(w, s, RestartReplica(i))
    ensures var r, r' := s.nodes[i], Next(w, s, RestartReplica(i)).nodes[i];
      r'.chain == Node([], r.chain.files) && r'.table == r.table && r'.task == Waiting && r'.saved && r'.inserted
  {
  }

  /** A pull that fails leaves chain and table alone, and the start-up task does not go on. */
  lemma AbortStops(w: World, s: System, i: nat)
    requires Enabled(w, s, AbortPull(i))
    ensures Next(w, s, AbortPull(i)).nodes[i] == s.nodes[i].(task := Stopped)
  {
  }

  /** A row that cannot be written ends the start-up task there, and leaves the table alone. */
  lemma ReplayFails(w: World, r: Replica, log: Log)
    requires r.task.Replaying? && r.task.rest != [] && LogOf(w, r.task.rest[0]) == Some(log) && log.id !in r.table
    ensures Replay(w, r, false) == r.(task := Stopped, inserted := false)
  {
    BlockAddedIs(w, r.table, r.task.rest[0], false);
    PayloadAt(r.task.rest[0].transactions, 0);
  }

  lemma {:induction false} ReplayCompletes(w: World, s: System, i: nat, m: nat) returns (steps: seq<Step>, s': System)
    requires Faithful(w) && Inv(w, s) && 1 <= i < |s.nodes| && s.nodes[i].task.Replaying? && |s.nodes[i].task.rest| == m
    ensures Reaches(w, s, steps, s') && Inv(w, s') && |s'.nodes| == |s.nodes| && |steps| == m + 1
    ensures s'.nodes[i].task.Live? && s'.nodes[i].chain == s.nodes[i].chain && s'.nodes[i].saved == s.nodes[i].saved
    ensures s.nodes[i].inserted ==> s'.nodes[i].inserted
    decreases m
  {
    var step := ReplayOne(i, true);
    ReplayStep(w, s, i);
    var s1 := Next(w, s, step);
    OneStep(w, s, step);
    hide Next, Inv, Enabled, Reaches;
    if m == 0 {
      steps, s' := [step], s1;
    } else {
      var rest;
      rest, s' := ReplayCompletes(w, s1, i, m - 1);
      RunJoins(w, s, [step], s1, rest, s');
      steps := [step] + rest;
    }
  }

  lemma ReplayStep(w: World, s: System, i: nat)
    requires Faithful(w) && Inv(w, s) && 1 <= i < |s.nodes| && s.nodes[i].task.Replaying?
    ensures Enabled(w, s, ReplayOne(i, true))
    ensures var r, s' := s.nodes[i], Next(w, s, ReplayOne(i, true));
      && Inv(w, s') && |s'.nodes| == |s.nodes|
      && s'.nodes[i].chain == r.chain && s'.nodes[i].saved == r.saved && (r.inserted ==> s'.nodes[i].inserted)
      && s'.nodes[i].task == if r.task.rest == [] then Live else Replaying(r.task.rest[1..])
  {
    StepKeepsInv(w, s, ReplayOne(i, true));
    var r := s.nodes[i];
    assert NodeOk(w, Writer(s), r) && TaskOk(w, Writer(s), r);
    hide JobsOk, HashLinked, FrameOk;
    if r.task.rest != [] {
      assert r.task.rest[0] in r.task.rest;
      var k :| 1 <= k < |r.chain.blocks| && r.chain.blocks[k] == r.task.rest[0];
      assert Writer(s)[k] == r.task.rest[0];
      RowWritten(w, Writer(s), r.table, k, true);
    }
  }

  /**
   Starting up: from a completed pull, the start-up task reaches its end in as
   many steps as there are blocks to replay, and if no save or insert failed the
   node then has the row of every block it holds.
   */
  lemma StartUpCompletes(w: World, s: System, i: nat) returns (steps: seq<Step>, s': System)
    requires Faithful(w) && Inv(w, s) && 1 <= i < |s.nodes| && s.nodes[i].task.Pulled?
    ensures Reaches(w, s, steps, s') && Inv(w, s') && |s'.nodes| == |s.nodes|
    ensures s'.nodes[i].task.Live? && s'.nodes[i].chain == s.nodes[i].chain
    ensures s.nodes[i].saved && s.nodes[i].inserted ==>
      forall k :: 1 <= k < |s'.nodes[i].chain.blocks| ==> HasRow(w, s'.nodes[i].table, s'.nodes[i].chain.blocks[k])
  {
    var step := LocalPull(i);
    assert Enabled(w, s, step);
    StepKeepsInv(w, s, step);
    var s1 := Next(w, s, step);
    OneStep(w, s, step);
    var rest;
    hide Next, Inv, Enabled, Reaches;
    rest, s' := ReplayCompletes(w, s1, i, |s1.nodes[i].task.rest|);
    RunJoins(w, s, [step], s1, rest, s');
    steps := [step] + rest;
    if s.nodes[i].saved && s.nodes[i].inserted {
      forall k | 1 <= k < |s'.nodes[i].chain.blocks| ensures HasRow(w, s'.nodes[i].table, s'.nodes[i].chain.blocks[k]) {
        LiveHasRow(w, s', i, k);
      }
    }
  }
}
