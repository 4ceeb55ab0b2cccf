/** When a running node's chain grows, and when it never does (src/blockchain_service/service.rs). */
module Progress {
  import opened Structures
  import opened Chain
  import opened Persistence
  import opened Wire
  import opened NodeSpec
  import opened TransparencyLog
  import opened Jobs
  import opened Replication

  /** Different blocks of a chain have different frames. */
  lemma FramesDiffer(w: World, c: seq<Block>, j: nat, k: nat)
    requires Faithful(w) && OrdinalsMatch(c) && j < |c| && k < |c| && j != k
    ensures BroadcastFrame(w.codec, c[j]) != BroadcastFrame(w.codec, c[k])
  {
    BroadcastRoundTrip(w.codec, c[j]);
    BroadcastRoundTrip(w.codec, c[k]);
  }

  /** A frame makes a node that holds blocks grow exactly if it carries the node's next block. */
  lemma GrowsIff(w: World, c: seq<Block>, r: Replica, frame: Bytes, os: SaveOutcome, database: bool)
    requires Faithful(w) && ChainOk(w, c) && FrameOk(w, c, frame) && r.chain.blocks <= c && r.chain.blocks != []
    ensures var n, r' := |r.chain.blocks|, Receive(w, r, frame, os, database);
      && (r'.chain.blocks != r.chain.blocks <==> n < |c| && frame == BroadcastFrame(w.codec, c[n]))
      && (r'.chain.blocks != r.chain.blocks ==> r'.chain.blocks == c[..n + 1])
      && r'.task == r.task
  {
    var n := |r.chain.blocks|;
    var k := ReceiveIs(w, c, r, frame, os, database);
    AddBlockFromPrefix(r.chain, c, k, os);
    if n < |c| && n != k {
      FramesDiffer(w, c, n, k);
    }
  }

  /** Node `i` holds some blocks, lacks the next one, and no frame carries that one. */
  ghost predicate Missed(w: World, s: System, i: nat) {
    && 1 <= i < |s.nodes|
    && var n, c := |s.nodes[i].chain.blocks|, Writer(s);
      1 <= n < |c| && BroadcastFrame(w.codec, c[n]) !in s.frames
  }

  ghost predicate Restarts(step: Step, i: nat) {
    step == RestartReplica(i)
  }

  /** What the writer sends is the frame of a block it did not have before. */
  lemma AppendSendsNew(w: World, r: Replica, log: Log, stamp: Stamp, os: SaveOutcome, gossiped: bool, n: nat)
    requires Faithful(w) && ChainOk(w, r.chain.blocks) && n < |r.chain.blocks|
    ensures var a := WriterAppend(w, r, log, stamp, os, gossiped);
      r.chain.blocks <= a.node.chain.blocks && BroadcastFrame(w.codec, r.chain.blocks[n]) !in a.sent
  {
    OrdinalsOf(w, r.chain.blocks);
    AddPayloadExtends(w.h, r.chain, w.render(log), stamp, os);
    var a := WriterAppend(w, r, log, stamp, os, gossiped);
    if a.sent != {} {
      var d := a.node.chain.blocks;
      assert d[n] == r.chain.blocks[n];
      FramesDiffer(w, d, n, |d| - 1);
    }
  }

  lemma SentIsNew(w: World, s: System, step: Step, n: nat)
    requires Faithful(w) && Inv(w, s) && Enabled(w, s, step) && n < |Writer(s)|
    ensures BroadcastFrame(w.codec, Writer(s)[n]) !in Sent(w, s, step)
  {
    hide WriterAppend;
    if step.Append? {
      AppendSendsNew(w, s.nodes[0], NextBlock(s.jobs[step.job]), step.stamp, step.os, step.gossiped, n);
    }
  }

  /** The node's own part of a step, while it lacks a block nobody sends. */
  lemma MissedNodeStays(w: World, s: System, step: Step, i: nat)
    requires Faithful(w) && Inv(w, s) && Enabled(w, s, step) && Missed(w, s, i) && !Restarts(step, i)
    ensures Next(w, s, step).nodes[i].chain.blocks == s.nodes[i].chain.blocks
  {
    var r := s.nodes[i];
    assert NodeOk(w, Writer(s), r) && TaskOk(w, Writer(s), r);
    if Target(step) == i && step.Deliver? {
      GrowsIff(w, Writer(s), r, step.frame, step.os, step.database);
    }
  }

  lemma MissedStep(w: World, s: System, step: Step, i: nat)
    requires Faithful(w) && Inv(w, s) && Enabled(w, s, step) && Missed(w, s, i) && !Restarts(step, i)
    ensures Missed(w, Next(w, s, step), i)
    ensures Next(w, s, step).nodes[i].chain.blocks == s.nodes[i].chain.blocks
  {
    MissedNodeStays(w, s, step, i);
    StepKeepsInv(w, s, step);
    SentIsNew(w, s, step, |s.nodes[i].chain.blocks|);
  }

  /**
   A missed block stalls a node for good: whatever else is appended, sent and
   delivered, its chain stays as it is until the node itself is restarted.
   */
  lemma {:induction false} MissedBlockStalls(w: World, s: System, steps: seq<Step>, i: nat)
    requires Faithful(w) && Inv(w, s) && Legal(w, s, steps) && Missed(w, s, i)
    requires forall k :: 0 <= k < |steps| ==> !Restarts(steps[k], i)
    ensures i < |Run(w, s, steps).nodes| && Run(w, s, steps).nodes[i].chain.blocks == s.nodes[i].chain.blocks
    decreases |steps|
  {
    if steps != [] {
      StepKeepsInv(w, s, steps[0]);
      MissedStep(w, s, steps[0], i);
      forall k | 0 <= k < |steps[1..]| ensures !Restarts(steps[1..][k], i) {
        assert steps[1..][k] == steps[k + 1];
      }
      MissedBlockStalls(w, Next(w, s, steps[0]), steps[1..], i);
    }
  }

  /**
   How it happens: the writer keeps a block whose save or broadcast failed but
   never sends it again, so every node that was up to date misses that block.
   */
  lemma UnsentBlockIsMissed(w: World, s: System, step: Step, i: nat)
    requires Faithful(w) && Inv(w, s) && Enabled(w, s, step) && |Writer(s)| < U128_LIMIT
    requires step.Append? && !(step.os.Saved? && step.gossiped)
    requires 1 <= i < |s.nodes| && s.nodes[i].chain.blocks == Writer(s)
    ensures Missed(w, Next(w, s, step), i)
  {
    hide WriterAppend, JobsOk, NodeOk, TaskOk, HashLinked, Mirrors, FullyMirrors;
    var c := Writer(s);
    var log := NextBlock(s.jobs[step.job]);
    var a := WriterAppend(w, s.nodes[0], log, step.stamp, step.os, step.gossiped);
    UnsentIsKept(w, s.nodes[0], log, step.stamp, step.os, step.gossiped);
    var d := a.node.chain.blocks;
    if BroadcastFrame(w.codec, d[|c|]) in s.frames {
      var k :| 1 <= k < |c| && BroadcastFrame(w.codec, d[|c|]) == BroadcastFrame(w.codec, c[k]);
      assert c[k] == d[k];
      FramesDiffer(w, d, |c|, k);
    }
  }

  lemma UnsentIsKept(w: World, r: Replica, log: Log, stamp: Stamp, os: SaveOutcome, gossiped: bool)
    requires ChainOk(w, r.chain.blocks) && |r.chain.blocks| < U128_LIMIT && !(os.Saved? && gossiped)
    ensures var a := WriterAppend(w, r, log, stamp, os, gossiped);
      && a.sent == {} && !a.ok
      && r.chain.blocks <= a.node.chain.blocks && |a.node.chain.blocks| == |r.chain.blocks| + 1
      && OrdinalsMatch(a.node.chain.blocks)
  {
    OrdinalsOf(w, r.chain.blocks);
    AddPayloadExtends(w.h, r.chain, w.render(log), stamp, os);
  }

  // -------------------------------------------------------------------- catching up

  /** A node's chain only grows, unless the node is restarted. */
  lemma ChainGrows(w: World, s: System, step: Step, i: nat)
    requires Faithful(w) && Inv(w, s) && Enabled(w, s, step) && i < |s.nodes| && !Restarts(step, i)
    ensures s.nodes[i].chain.blocks <= Next(w, s, step).nodes[i].chain.blocks
  {
    StepKeepsInv(w, s, step);
    if i > 0 && Target(step) == i {
      ReplicaGrows(w, s, step, i);
    }
  }

  lemma ReplicaGrows(w: World, s: System, step: Step, i: nat)
    requires Faithful(w) && Inv(w, s) && Enabled(w, s, step) && 1 <= i < |s.nodes| && Target(step) == i && !Restarts(step, i)
    ensures s.nodes[i].chain.blocks <= Changed(w, s, step).chain.blocks
  {
    assert NodeOk(w, Writer(s), s.nodes[i]);
    hide JobsOk, TaskOk, NodeOk, FrameOk, Receive, CompletePull, PullReply, HashLinked;
    match step
    case Deliver(_, frame, os, database) => ReceiveGrows(w, Writer(s), s.nodes[i], frame, os, database);
    case FinishPull(_, _) => PullingIsEmpty(w, s, i);
    case _ =>
  }

  lemma ReceiveGrows(w: World, c: seq<Block>, r: Replica, frame: Bytes, os: SaveOutcome, database: bool)
    requires Faithful(w) && ChainOk(w, c) && FrameOk(w, c, frame) && NodeOk(w, c, r)
    ensures r.chain.blocks <= Receive(w, r, frame, os, database).chain.blocks
  {
    var k := ReceiveIs(w, c, r, frame, os, database);
    AddBlockFromPrefix(r.chain, c, k, os);
  }

  /** Only its own reply, an abort or a restart ends the pull of a node. */
  ghost predicate Interferes(step: Step, i: nat, peer: nat) {
    || step == AbortPull(i)
    || (step.FinishPull? && step.node == i)
    || Restarts(step, i)
    || Restarts(step, peer)
  }

  lemma WaitStep(w: World, s: System, step: Step, i: nat, peer: nat)
    requires Faithful(w) && Inv(w, s) && Enabled(w, s, step) && 1 <= i < |s.nodes| && peer < |s.nodes|
    requires s.nodes[i].task.Pulling? && !Interferes(step, i, peer)
    ensures Next(w, s, step).nodes[i] == s.nodes[i]
    ensures s.nodes[peer].chain.blocks <= Next(w, s, step).nodes[peer].chain.blocks
  {
    ChainGrows(w, s, step, peer);
    hide Changed, Inv, JobsAfter, EchoedAfter, Sent;
    assert Target(step) != i;
  }

  lemma {:induction false} WaitRun(w: World, s: System, steps: seq<Step>, i: nat, peer: nat)
    requires Faithful(w) && Inv(w, s) && Legal(w, s, steps) && 1 <= i < |s.nodes| && peer < |s.nodes|
    requires s.nodes[i].task.Pulling? && forall k :: 0 <= k < |steps| ==> !Interferes(steps[k], i, peer)
    ensures var s' := Run(w, s, steps);
      && Inv(w, s') && |s'.nodes| == |s.nodes|
      && s'.nodes[i] == s.nodes[i] && s.nodes[peer].chain.blocks <= s'.nodes[peer].chain.blocks
    decreases |steps|
  {
    if steps != [] {
      StepKeepsInv(w, s, steps[0]);
      WaitStep(w, s, steps[0], i, peer);
      forall k | 0 <= k < |steps[1..]| ensures !Interferes(steps[1..][k], i, peer) {
        assert steps[1..][k] == steps[k + 1];
      }
      hide Next, Enabled, Inv;
      WaitRun(w, Next(w, s, steps[0]), steps[1..], i, peer);
    }
  }

  /** What a peer that still holds `c[..o + 1]` answers, and what an empty node makes of it. */
  lemma ReplyCatchesUp(w: World, c: seq<Block>, peer: Replica, r: Replica, o: Ordinal, oss: seq<SaveOutcome>)
    requires Faithful(w) && ChainOk(w, c) && peer.chain.blocks <= c && o < |peer.chain.blocks| < U64_LIMIT
    requires r.chain.blocks == [] && r.saved && |oss| == o + 1 && (forall k :: 0 <= k <= o ==> oss[k].Saved?)
    ensures PullReply(w, peer, o) == c[..o + 1]
    ensures var r' := CompletePull(r, o, c[..o + 1], oss);
      r'.chain.blocks == c[..o + 1] && r'.task == Pulled(o) && r'.saved && r'.table == r.table
  {
    OrdinalsOf(w, c);
    PullRoundTrip(w.codec, 0, o);
    assert OrdinalsMatch(peer.chain.blocks);
    var sent := RetrieveBlocks(peer.chain.blocks, 0, o);
    assert sent == c[..o + 1];
    BlocksReplyRoundTrip(w.codec, sent);
    hide Decode, ReadBlocksReply, BlocksReply, SelfDelimiting, HashLinked;
    assert oss[..|oss|] == oss;
    PulledAll(r.chain, c, oss);
  }

  lemma PulledAll(node: Node, c: seq<Block>, oss: seq<SaveOutcome>)
    requires OrdinalsMatch(c) && 0 < |oss| <= |c| <= U128_LIMIT && |oss| < U64_LIMIT && node.blocks == []
    requires forall k :: 0 <= k < |oss| ==> oss[k].Saved?
    ensures var (node', r) := AddAll(node, c[..|oss|], oss);
      node'.blocks == c[..|oss|] && r.Ok?
  {
    var d := c[..|oss|];
    CatchUp(node, d, |oss| - 1, oss);
    assert RetrieveBlocks(d, 0, |oss| - 1) == d;
  }

  lemma QueryIs(w: World, c: seq<Block>, peer: Replica)
    requires ChainOk(w, c) && peer.chain.blocks <= c && peer.chain.blocks != []
    ensures QueryReply(peer) == |peer.chain.blocks| - 1
  {
    OrdinalsOf(w, c);
    var o := peer.chain.blocks[|peer.chain.blocks| - 1].header.ordinal;
    OrdinalRoundTrip(o, []);
    assert SerializeOrdinal(o) + [] == SerializeOrdinal(o);
  }

  /** The first step of a pull fixes what will be asked for. */
  lemma StartPullIs(w: World, s: System, i: nat, peer: nat)
    requires Faithful(w) && Inv(w, s) && Enabled(w, s, StartPull(i, peer))
    ensures var s' := Next(w, s, StartPull(i, peer));
      && Inv(w, s') && |s'.nodes| == |s.nodes| && 1 <= i < |s.nodes| && peer < |s.nodes|
      && s'.nodes[i] == s.nodes[i].(task := Pulling(peer, |s.nodes[peer].chain.blocks| - 1))
      && s'.nodes[peer] == s.nodes[peer] && s.nodes[i].chain.blocks == []
  {
    StepKeepsInv(w, s, StartPull(i, peer));
    HoldsPrefix(w, s, peer);
    QueryIs(w, Writer(s), s.nodes[peer]);
    assert TaskOk(w, Writer(s), s.nodes[i]);
  }

  lemma FinishPullIs(w: World, s: System, i: nat, b: seq<Block>, oss: seq<SaveOutcome>)
    requires Faithful(w) && Inv(w, s) && Enabled(w, s, FinishPull(i, oss)) && b != []
    requires s.nodes[i].task.ordinal == |b| - 1 && b <= s.nodes[s.nodes[i].task.peer].chain.blocks
    requires s.nodes[i].saved && forall k :: 0 <= k < |oss| ==> oss[k].Saved?
    ensures var s' := Next(w, s, FinishPull(i, oss));
      && Inv(w, s') && |s'.nodes| == |s.nodes|
      && s'.nodes[i].chain.blocks == b && s'.nodes[i].task == Pulled(|b| - 1) && s'.nodes[i].saved
  {
    hide Next, JobsOk, TaskOk, NodeOk, FrameOk, PullReply, CompletePull, Mirrors, FullyMirrors, HashLinked, Faithful;
    StepKeepsInv(w, s, FinishPull(i, oss));
    FinishPullChanges(w, s, i, oss);
    var c, r := Writer(s), s.nodes[i];
    HoldsPrefix(w, s, r.task.peer);
    PullingIsEmpty(w, s, i);
    PrefixReply(w, c, s.nodes[r.task.peer], |b| - 1);
    ReplyCatchesUp(w, c, s.nodes[r.task.peer], r, |b| - 1, oss);
    assert c[..|b|] == b;
  }

  lemma FinishPullChanges(w: World, s: System, i: nat, oss: seq<SaveOutcome>)
    requires Enabled(w, s, FinishPull(i, oss))
    ensures var r, s' := s.nodes[i], Next(w, s, FinishPull(i, oss));
      && |s'.nodes| == |s.nodes|
      && s'.nodes[i] == CompletePull(r, r.task.ordinal, PullReply(w, s.nodes[r.task.peer], r.task.ordinal), oss)
  {
    hide PullReply, CompletePull;
  }

  lemma PullingIsEmpty(w: World, s: System, i: nat)
    requires Inv(w, s) && 1 <= i < |s.nodes| && s.nodes[i].task.Pulling?
    ensures s.nodes[i].chain.blocks == []
  {
    assert TaskOk(w, Writer(s), s.nodes[i]);
  }

  lemma PrefixReply(w: World, c: seq<Block>, peer: Replica, o: Ordinal)
    requires Faithful(w) && ChainOk(w, c) && peer.chain.blocks <= c && o < |peer.chain.blocks| < U64_LIMIT
    ensures |PullReply(w, peer, o)| == o + 1
  {
    ReplyCatchesUp(w, c, peer, Replica(Node([], map[]), map[], Waiting, true, true), o, seq(o + 1, i => Saved));
  }

  /**
   Catching up in a run: a node that pulls from a peer ends with exactly the
   chain that peer held when it was asked, whatever is appended, sent and
   delivered before the reply, if the peer stays up and the saves succeed.
   */
  lemma PullCatchesUp(w: World, s: System, i: nat, peer: nat, mid: seq<Step>, oss: seq<SaveOutcome>)
    requires Faithful(w) && Inv(w, s) && Enabled(w, s, StartPull(i, peer)) && s.nodes[i].saved
    requires Legal(w, Next(w, s, StartPull(i, peer)), mid + [FinishPull(i, oss)])
    requires forall k :: 0 <= k < |mid| ==> !Interferes(mid[k], i, peer)
    requires forall k :: 0 <= k < |oss| ==> oss[k].Saved?
    ensures var s' := Run(w, Next(w, s, StartPull(i, peer)), mid + [FinishPull(i, oss)]);
      && Inv(w, s') && |s'.nodes| == |s.nodes| && 1 <= i < |s.nodes| && peer < |s.nodes|
      && s'.nodes[i].chain.blocks == s.nodes[peer].chain.blocks
      && s'.nodes[i].task == Pulled(|s.nodes[peer].chain.blocks| - 1) && s'.nodes[i].saved
  {
    var b := s.nodes[peer].chain.blocks;
    StartPullIs(w, s, i, peer);
    var s1 := Next(w, s, StartPull(i, peer));
    var finish := FinishPull(i, oss);
    hide Next, Inv, Changed;
    RunSplits(w, s1, mid, [finish]);
    WaitRun(w, s1, mid, i, peer);
    var s2 := Run(w, s1, mid);
    FinishPullIs(w, s2, i, b, oss);
    OneStep(w, s2, finish);
  }

  lemma {:induction false} ChainGrowsRun(w: World, s: System, steps: seq<Step>, i: nat)
    requires Faithful(w) && Inv(w, s) && Legal(w, s, steps) && i < |s.nodes|
    requires forall k :: 0 <= k < |steps| ==> !Restarts(steps[k], i)
    ensures i < |Run(w, s, steps).nodes| && s.nodes[i].chain.blocks <= Run(w, s, steps).nodes[i].chain.blocks
    decreases |steps|
  {
    if steps != [] {
      StepKeepsInv(w, s, steps[0]);
      ChainGrows(w, s, steps[0], i);
      forall k | 0 <= k < |steps[1..]| ensures !Restarts(steps[1..][k], i) {
        assert steps[1..][k] == steps[k + 1];
      }
      hide Inv, Enabled, Changed;
      ChainGrowsRun(w, Next(w, s, steps[0]), steps[1..], i);
    }
  }

  /**
   Joining, from the question to the last row: after the pull, however the
   start-up task and broadcasts interleave, a node that is up with no failure
   holds every block its peer held when it was asked, and the row of each.
   */
  lemma JoinedNodeHasAll(w: World, s: System, i: nat, peer: nat, mid: seq<Step>, oss: seq<SaveOutcome>, after: seq<Step>)
    requires Faithful(w) && Inv(w, s) && Enabled(w, s, StartPull(i, peer)) && s.nodes[i].saved
    requires Legal(w, Next(w, s, StartPull(i, peer)), mid + [FinishPull(i, oss)])
    requires Legal(w, Run(w, Next(w, s, StartPull(i, peer)), mid + [FinishPull(i, oss)]), after)
    requires forall k :: 0 <= k < |mid| ==> !Interferes(mid[k], i, peer)
    requires forall k :: 0 <= k < |oss| ==> oss[k].Saved?
    requires forall k :: 0 <= k < |after| ==> !Restarts(after[k], i)
    ensures var b := s.nodes[peer].chain.blocks;
      var s' := Run(w, Run(w, Next(w, s, StartPull(i, peer)), mid + [FinishPull(i, oss)]), after);
      && i < |s'.nodes| && b <= s'.nodes[i].chain.blocks
      && (s'.nodes[i].task.Live? && s'.nodes[i].saved && s'.nodes[i].inserted ==>
            forall k :: 1 <= k < |b| ==> HasRow(w, s'.nodes[i].table, b[k]))
  {
    hide Next, Inv, Enabled, HasRow, Faithful;
    PullCatchesUp(w, s, i, peer, mid, oss);
    var s1 := Run(w, Next(w, s, StartPull(i, peer)), mid + [FinishPull(i, oss)]);
    ChainGrowsRun(w, s1, after, i);
    RunKeepsInv(w, s1, after);
    var s' := Run(w, s1, after);
    if s'.nodes[i].task.Live? && s'.nodes[i].saved && s'.nodes[i].inserted {
      forall k | 1 <= k < |s'.nodes[i].chain.blocks| ensures HasRow(w, s'.nodes[i].table, s'.nodes[i].chain.blocks[k]) {
        LiveHasRow(w, s', i, k);
      }
    }
  }
}
