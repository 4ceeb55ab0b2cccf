/** Why a writer may restart only after successful saves (src/blockchain/src/blockchain.rs). */
module Forks {
  import opened Wrappers
  import opened Structures
  import opened Chain
  import opened Persistence
  import opened NodeSpec
  import opened TransparencyLog
  import opened Jobs
  import opened Replication
  import opened Progress

  /**
   A writer that restarts over whatever directory it left behind.  It does not
   start exactly if it meets a torn file before a missing one.  Otherwise it
   loads a prefix of what it held, never an empty one, and the nodes still hold
   prefixes of its chain exactly if none of them is longer.
   */
  lemma RestartKeepsPrefixIff(w: World, s: System, stamp: Stamp, os: SaveOutcome)
    requires Inv(w, s)
    ensures var files := s.nodes[0].chain.files;
      var reopened := Open(w.h, files, stamp, os);
      && (reopened.Err? <==> exists k: nat :: TornAt(files, 0, k))
      && (reopened.Ok? ==>
            var loaded := reopened.value.blocks;
            && reopened.value.files == files && loaded != [] && loaded <= Writer(s)
            && ((forall i :: 0 <= i < |s.nodes| ==> s.nodes[i].chain.blocks <= loaded)
                  <==> forall i :: 0 <= i < |s.nodes| ==> |s.nodes[i].chain.blocks| <= |loaded|))
  {
    var chain := s.nodes[0].chain;
    LoadFailsIff(chain.files, 0);
    MirrorLoadsPrefix(chain, 0);
    assert chain.blocks[0..] == chain.blocks;
    if Load(chain.files).Ok? {
      var loaded := Load(chain.files).value;
      LoadExact(chain.files, loaded);
      hide Load, LoadFrom, JobsOk, TornAt;
      forall i | 0 <= i < |s.nodes| && |s.nodes[i].chain.blocks| <= |loaded|
        ensures s.nodes[i].chain.blocks <= loaded
      {
        HoldsPrefix(w, s, i);
        PrefixesCompare(s.nodes[i].chain.blocks, loaded, Writer(s));
      }
    }
  }

  /**
   The writer is reopened and appends `log`: at the first position node `i` has
   beyond the reloaded chain, the two hold different blocks, neither chain is a
   prefix of the other, and each side takes the other's block for a duplicate.
   */
  ghost predicate ForksWith(w: World, s: System, i: nat, again: Stamp, os: SaveOutcome, log: Log, stamp: Stamp, os': SaveOutcome) {
    s.nodes != [] && i < |s.nodes| &&
    var reopened, node := Open(w.h, s.nodes[0].chain.files, again, os), s.nodes[i].chain;
    reopened.Ok? &&
    var n, writer := |reopened.value.blocks|, AddPayload(w.h, reopened.value, w.render(log), stamp, os').0;
    && |writer.blocks| == n + 1 && n < |node.blocks| && n < U128_LIMIT
    && writer.blocks[n] != node.blocks[n]
    && !(writer.blocks <= node.blocks) && !(node.blocks <= writer.blocks)
    && (|node.blocks| < U128_LIMIT ==> AddBlock(node, n, writer.blocks[n], os') == (node, Ok(Unit)))
    && (n + 1 < U128_LIMIT ==> AddBlock(writer, n, node.blocks[n], os') == (writer, Ok(Unit)))
  }

  lemma PrefixIsLinked(h: Hashing, c: seq<Block>, n: nat)
    requires HashLinked(h, c) && n <= |c|
    ensures HashLinked(h, c[..n])
  {
    forall k | 0 <= k < n - 1 ensures Linked(c[..n][k], c[..n][k + 1]) {
      assert Linked(c[k], c[k + 1]);
    }
  }

  /**
   A writer that starts again with less than some node holds forks with its
   very next append, unless it appends the log that node has there.
   */
  lemma ForksAtNextAppend(w: World, s: System, i: nat, again: Stamp, os: SaveOutcome, log: Log, stamp: Stamp, os': SaveOutcome)
    requires Faithful(w) && Inv(w, s) && 1 <= i < |s.nodes| && Load(s.nodes[0].chain.files).Ok?
    requires var n := |Load(s.nodes[0].chain.files).value|;
      n < |s.nodes[i].chain.blocks| && LogOf(w, s.nodes[i].chain.blocks[n]) != Some(log)
    ensures ForksWith(w, s, i, again, os, log, stamp, os')
  {
    var c, node := Writer(s), s.nodes[i].chain;
    RestartKeepsPrefixIff(w, s, again, os);
    HoldsPrefix(w, s, i);
    LoadFailsIff(s.nodes[0].chain.files, 0);
    var loaded := Open(w.h, s.nodes[0].chain.files, again, os).value;
    hide Open, Load, JobsOk, NodeOk, TaskOk, TornAt, Mirrors, FullyMirrors;
    ForksFrom(w, c, loaded, node, log, stamp, os');
  }

  lemma ForksFrom(w: World, c: seq<Block>, loaded: Node, node: Node, log: Log, stamp: Stamp, os: SaveOutcome)
    requires Faithful(w) && HashLinked(w.h, c) && |c| <= U128_LIMIT
    requires loaded.blocks != [] && loaded.blocks <= c && node.blocks <= c && |loaded.blocks| < |node.blocks|
    requires LogOf(w, node.blocks[|loaded.blocks|]) != Some(log)
    ensures var n, writer := |loaded.blocks|, AddPayload(w.h, loaded, w.render(log), stamp, os).0;
      && |writer.blocks| == n + 1
      && writer.blocks[n] != node.blocks[n]
      && !(writer.blocks <= node.blocks) && !(node.blocks <= writer.blocks)
      && (|node.blocks| < U128_LIMIT ==> AddBlock(node, n, writer.blocks[n], os) == (node, Ok(Unit)))
      && (n + 1 < U128_LIMIT ==> AddBlock(writer, n, node.blocks[n], os) == (writer, Ok(Unit)))
  {
    var n := |loaded.blocks|;
    PrefixIsLinked(w.h, c, n);
    assert loaded.blocks == c[..n];
    OrdinalsOf(w, c);
    OrdinalsOf(w, loaded.blocks);
    AddPayloadExtends(w.h, loaded, w.render(log), stamp, os);
    var writer := AddPayload(w.h, loaded, w.render(log), stamp, os).0;
    assert LogOf(w, writer.blocks[n]) == Some(log);
    assert OrdinalsMatch(node.blocks);
    hide AddPayload, AddBlock, HashLinked, Mirrors, FullyMirrors, LogOf, OrdinalsMatch;
    if |node.blocks| < U128_LIMIT {
      DuplicateIsIgnored(node, n, writer.blocks[n], os);
    }
    if n + 1 < U128_LIMIT {
      DuplicateIsIgnored(writer, n, node.blocks[n], os);
    }
  }

  /** What an append does to the writer's directory. */
  lemma AppendFiles(w: World, r: Replica, log: Log, stamp: Stamp, os: SaveOutcome)
    requires Faithful(w) && ChainOk(w, r.chain.blocks) && |r.chain.blocks| < U128_LIMIT
    ensures var n, a := |r.chain.blocks|, WriterAppend(w, r, log, stamp, os, true);
      && |a.node.chain.blocks| == n + 1 && r.chain.blocks <= a.node.chain.blocks
      && a.node.task == r.task && a.ok == os.Saved? && LogOf(w, a.node.chain.blocks[n]) == Some(log)
      && (os.OpenFailed? ==> a.node.chain.files == r.chain.files)
      && (os.Saved? ==> a.node.chain.files == r.chain.files[n := Whole(a.node.chain.blocks[n])])
  {
    OrdinalsOf(w, r.chain.blocks);
    AddPayloadExtends(w.h, r.chain, w.render(log), stamp, os);
  }

  /** The steps that authorize a node. */
  function Authorizing(job: nat, log: Log, stamp: Stamp, os: SaveOutcome): seq<Step> {
    [Publish(Authorization, [log]), Step.Append(job, stamp, os, true)]
  }

  /** The replicas and the writer's task are as before, its chain is one block longer. */
  ghost predicate OneMore(s: System, s': System) {
    && s.nodes != [] && |s'.nodes| == |s.nodes| && (forall i :: 1 <= i < |s.nodes| ==> s'.nodes[i] == s.nodes[i])
    && s'.nodes[0].task == s.nodes[0].task
    && |Writer(s')| == |Writer(s)| + 1 && Writer(s) <= Writer(s')
  }

  lemma AppendStep(w: World, s: System, j: nat, stamp: Stamp, os: SaveOutcome)
    requires Faithful(w) && Inv(w, s) && |Writer(s)| < U128_LIMIT && j < |s.jobs| && AppendsNext(s.jobs[j])
    ensures Enabled(w, s, Step.Append(j, stamp, os, true))
    ensures var s' := Next(w, s, Step.Append(j, stamp, os, true));
      && Inv(w, s') && OneMore(s, s')
      && s'.jobs == s.jobs[j := AfterAppend(s.jobs[j], true, os.Saved?)]
      && LogOf(w, Writer(s')[|Writer(s)|]) == Some(NextBlock(s.jobs[j]))
      && (os.OpenFailed? ==> s'.nodes[0].chain.files == s.nodes[0].chain.files)
      && (os.Saved? ==> s'.nodes[0].chain.files == s.nodes[0].chain.files[|Writer(s)| := Whole(Writer(s')[|Writer(s)|])])
  {
    hide WriterAppend, JobsOk, NodeOk, TaskOk, FrameOk, HashLinked, Mirrors, FullyMirrors;
    StepKeepsInv(w, s, Step.Append(j, stamp, os, true));
    AppendFiles(w, s.nodes[0], NextBlock(s.jobs[j]), stamp, os);
  }

  lemma Authorize(w: World, s: System, log: Log, stamp: Stamp, os: SaveOutcome) returns (s': System)
    requires Faithful(w) && Inv(w, s) && |Writer(s)| < U128_LIMIT && log.operation.AddNode? && NewIds(s.jobs, [log])
    ensures Reaches(w, s, Authorizing(|s.jobs|, log, stamp, os), s')
    ensures Inv(w, s') && OneMore(s, s') && s'.jobs == s.jobs + [Job(Authorization, [log], 0, 1, !os.Saved?)]
    ensures LogOf(w, Writer(s')[|Writer(s)|]) == Some(log)
    ensures os.OpenFailed? ==> s'.nodes[0].chain.files == s.nodes[0].chain.files
    ensures os.Saved? ==> s'.nodes[0].chain.files == s.nodes[0].chain.files[|Writer(s)| := Whole(Writer(s')[|Writer(s)|])]
  {
    hide Reaches, Next, Inv, NewIds, Enabled;
    var publish, append := Publish(Authorization, [log]), Step.Append(|s.jobs|, stamp, os, true);
    var s1 := StartAuthorization(w, s, log);
    AppendStep(w, s1, |s.jobs|, stamp, os);
    s' := Next(w, s1, append);
    OneStep(w, s1, append);
    RunJoins(w, s, [publish], s1, [append], s');
    assert [publish] + [append] == Authorizing(|s.jobs|, log, stamp, os);
  }

  lemma StartAuthorization(w: World, s: System, log: Log) returns (s': System)
    requires Faithful(w) && Inv(w, s) && log.operation.AddNode? && NewIds(s.jobs, [log])
    ensures Reaches(w, s, [Publish(Authorization, [log])], s') && Inv(w, s')
    ensures s' == s.(jobs := s.jobs + [Job(Authorization, [log], 0, 0, false)])
  {
    hide Reaches, JobsOk, NodeOk, TaskOk, FrameOk, ChainOk, Mirrors, FullyMirrors, NewIds;
    assert Enabled(w, s, Publish(Authorization, [log]));
    PublishStep(w, s, Authorization, [log]);
    StepKeepsInv(w, s, Publish(Authorization, [log]));
    OneStep(w, s, Publish(Authorization, [log]));
    s' := Next(w, s, Publish(Authorization, [log]));
  }

  /** Node `i` pulls the whole chain from the writer. */
  lemma PullWhole(w: World, s: System, i: nat) returns (s': System)
    requires Faithful(w) && Inv(w, s) && 1 <= i < |s.nodes| && s.nodes[i].task.Waiting? && s.nodes[i].saved
    requires !s.nodes[0].task.Pulling? && |Writer(s)| == 3
    ensures Reaches(w, s, [StartPull(i, 0), FinishPull(i, [Saved, Saved, Saved])], s') && Inv(w, s')
    ensures |s'.nodes| == |s.nodes| && s'.nodes[0].chain == s.nodes[0].chain && s'.nodes[i].chain.blocks == Writer(s)
  {
    hide Reaches, JobsOk, NodeOk, TaskOk, FrameOk, ChainOk, Mirrors, FullyMirrors, Changed, JobsAfter, EchoedAfter, Sent;
    var pull, finish := StartPull(i, 0), FinishPull(i, [Saved, Saved, Saved]);
    assert Enabled(w, s, pull);
    StartPullIs(w, s, i, 0);
    var s1 := Next(w, s, pull);
    OneStep(w, s, pull);
    OthersUntouched(w, s, pull);
    s' := FinishWhole(w, s1, i);
    RunJoins(w, s, [pull], s1, [finish], s');
    assert [pull] + [finish] == [pull, finish];
  }

  lemma OthersUntouched(w: World, s: System, step: Step)
    requires Enabled(w, s, step) && Target(step) > 0
    ensures Next(w, s, step).nodes[0] == s.nodes[0]
  {
    hide Changed, JobsAfter, EchoedAfter, Sent;
  }

  lemma FinishWhole(w: World, s: System, i: nat) returns (s': System)
    requires Faithful(w) && Inv(w, s) && 1 <= i < |s.nodes| && s.nodes[i].task == Pulling(0, 2) && s.nodes[i].saved
    requires !s.nodes[0].task.Pulling? && |Writer(s)| == 3
    ensures Reaches(w, s, [FinishPull(i, [Saved, Saved, Saved])], s') && Inv(w, s')
    ensures |s'.nodes| == |s.nodes| && s'.nodes[0].chain == s.nodes[0].chain && s'.nodes[i].chain.blocks == Writer(s)
  {
    hide Reaches, PullReply, JobsOk, NodeOk, TaskOk, FrameOk, Mirrors, FullyMirrors, Changed, JobsAfter, EchoedAfter, Sent, Faithful;
    var finish := FinishPull(i, [Saved, Saved, Saved]);
    PrefixReply(w, Writer(s), s.nodes[0], 2);
    assert Enabled(w, s, finish);
    FinishPullIs(w, s, i, Writer(s), [Saved, Saved, Saved]);
    OthersUntouched(w, s, finish);
    OneStep(w, s, finish);
    s' := Next(w, s, finish);
  }

  /** The writer's directory gives back one block, and node 1 holds three. */
  ghost predicate Parted(s: System) {
    && |s.nodes| == 2 && |s.nodes[1].chain.blocks| == 3
    && Load(s.nodes[0].chain.files).Ok? && |Load(s.nodes[0].chain.files).value| == 1
  }

  /**
   Such a state is reachable: the writer loses one save, a node pulls the whole
   chain, and a restarted writer holds less than that node.  It then parts from
   the node with whatever it appends, unless that is the lost log itself.
   */
  lemma WriterRestartCanFork(w: World, s: System, first: Log, second: Log, stamp: Stamp)
    returns (steps: seq<Step>, s': System)
    requires Faithful(w) && Init(w, s) && |s.nodes| == 2 && s.nodes[0].task.Live?
    requires first.operation.AddNode? && second.operation.AddNode? && first.id != second.id
    ensures Reaches(w, s, steps, s') && Parted(s')
    ensures forall log, again, os, os' :: log != first ==> ForksWith(w, s', 1, again, os, log, stamp, os')
  {
    InitInv(w, s);
    InitWriter(w, s);
    hide Inv, Reaches, FullyMirrors, Load, Faithful;
    var s2;
    steps, s2 := TwoAuthorizations(w, s, first, second, stamp);
    s' := PullWhole(w, s2, 1);
    var rest := [StartPull(1, 0), FinishPull(1, [Saved, Saved, Saved])];
    RunJoins(w, s, steps, s2, rest, s');
    steps := steps + rest;
    forall log, again, os, os' | log != first ensures ForksWith(w, s', 1, again, os, log, stamp, os') {
      ForksAtNextAppend(w, s', 1, again, os, log, stamp, os');
    }
  }

  lemma TwoAuthorizations(w: World, s: System, first: Log, second: Log, stamp: Stamp)
    returns (steps: seq<Step>, s': System)
    requires Faithful(w) && Inv(w, s) && |Writer(s)| == 1 && FullyMirrors(s.nodes[0].chain) && s.jobs == []
    requires first.operation.AddNode? && second.operation.AddNode? && first.id != second.id
    ensures Reaches(w, s, steps, s')
    ensures Inv(w, s') && |s'.nodes| == |s.nodes| && |Writer(s')| == 3 && LogOf(w, Writer(s')[1]) == Some(first)
    ensures s'.nodes[0].task == s.nodes[0].task && forall i :: 1 <= i < |s.nodes| ==> s'.nodes[i] == s.nodes[i]
    ensures Load(s'.nodes[0].chain.files).Ok? && |Load(s'.nodes[0].chain.files).value| == 1
  {
    assert s.nodes != [];
    hide Reaches, Load, Inv, Faithful, NewIds;
    FirstFileOnly(s.nodes[0].chain);
    NewAmongNone(first);
    var s1 := Authorize(w, s, first, stamp, OpenFailed);
    FirstJobOnly(s1.jobs, first, second);
    s' := Authorize(w, s1, second, stamp, Saved);
    var a, b := Authorizing(0, first, stamp, OpenFailed), Authorizing(1, second, stamp, Saved);
    RunJoins(w, s, a, s1, b, s');
    steps := a + b;
    OneBlockLoads(s'.nodes[0].chain.files, Writer(s)[0]);
  }

  lemma FirstFileOnly(node: Node)
    requires FullyMirrors(node) && |node.blocks| == 1
    ensures 0 in node.files && node.files[0] == Whole(node.blocks[0]) && 1 !in node.files
  {
  }

  lemma OneBlockLoads(files: Files, block: Block)
    requires 0 in files && files[0] == Whole(block) && 1 !in files
    ensures Load(files) == Ok([block])
  {
    LoadExact(files, [block]);
  }

  lemma NewAmongNone(log: Log)
    ensures NewIds([], [log])
  {
  }

  lemma FirstJobOnly(jobs: seq<Job>, first: Log, second: Log)
    requires |jobs| == 1 && jobs[0].logs == [first] && first.id != second.id
    ensures NewIds(jobs, [second])
  {
    assert forall a :: Submitted(jobs, a) ==> a == first;
  }
}
