/**
 The writer's own table and its chain (src/transparency_log/log.rs,
 src/artifact_service/service.rs).  The writer does not learn its rows from
 blocks: a build result inserts them before its first block, an authorization
 after its block, and either half may fail.
 */
module WriterLog {
  import opened Wrappers
  import opened Structures
  import opened TransparencyLog
  import opened Jobs
  import opened Replication

  /** The table is exactly the rows of the blocks after genesis. */
  ghost predicate TableIsChain(w: World, c: seq<Block>, t: Table) {
    && (forall id :: id in t ==> RowFrom(w, c, id, t[id]))
    && (forall k :: 1 <= k < |c| ==> HasRow(w, t, c[k]))
  }

  ghost predicate AllSettled(s: System) {
    forall j :: 0 <= j < |s.jobs| ==> Settled(s.jobs[j], s.echoed)
  }

  /** A block comes from one log of one job; its row is at the writer if that job wrote it or its frame came back. */
  lemma BlockOfJob(w: World, s: System, k: nat) returns (j: nat, m: nat)
    requires Inv(w, s) && 1 <= k < |Writer(s)|
    ensures j < |s.jobs| && m < s.jobs[j].blocks <= |s.jobs[j].logs| && LogOf(w, Writer(s)[k]) == Some(s.jobs[j].logs[m])
    ensures HasRow(w, s.nodes[0].table, Writer(s)[k]) <==> m < s.jobs[j].rows || s.jobs[j].logs[m].id in s.echoed
  {
    var log := LogOf(w, Writer(s)[k]).value;
    assert OnChain(w, Writer(s), log);
    j, m :| LogAt(s.jobs, j, m, log) && m < s.jobs[j].blocks;
    assert Shape(s.jobs[j]);
    RowIffAppended(s.nodes[0].table, s.jobs, s.echoed, j, m);
  }

  lemma SettledGivesTable(w: World, s: System)
    requires Inv(w, s) && AllSettled(s)
    ensures TableIsChain(w, Writer(s), s.nodes[0].table)
  {
    var c, t := Writer(s), s.nodes[0].table;
    forall k | 1 <= k < |c| ensures HasRow(w, t, c[k]) {
      var j, m := BlockOfJob(w, s, k);
      assert Settled(s.jobs[j], s.echoed) && Shape(s.jobs[j]);
    }
    forall id | id in t ensures RowFrom(w, c, id, t[id]) {
      SettledRow(w, s, id);
    }
  }

  lemma SettledRow(w: World, s: System, id: string)
    requires Inv(w, s) && AllSettled(s) && id in s.nodes[0].table
    ensures RowFrom(w, Writer(s), id, s.nodes[0].table[id])
  {
    var row := s.nodes[0].table[id];
    RowsComeFrom(w, s, 0, id);
    if Written(s.jobs, row) {
      var j: nat, m: nat :| LogAt(s.jobs, j, m, row) && m < s.jobs[j].rows;
      assert Settled(s.jobs[j], s.echoed) && Shape(s.jobs[j]);
      assert Appended(s.jobs, row);
      assert OnChain(w, Writer(s), row);
    }
  }

  lemma UnsettledShows(w: World, s: System, j: nat)
    requires Inv(w, s) && j < |s.jobs| && !Settled(s.jobs[j], s.echoed)
    ensures !TableIsChain(w, Writer(s), s.nodes[0].table)
  {
    var c, t, job := Writer(s), s.nodes[0].table, s.jobs[j];
    assert Shape(job);
    var m := if job.origin.Build? then job.blocks else 0;
    var log := job.logs[m];
    RowIffAppended(t, s.jobs, s.echoed, j, m);
    if job.origin.Build? {
      assert Has(t, log) && !OnChain(w, c, log);
    } else {
      assert OnChain(w, c, log) && !Has(t, log);
      var k :| 1 <= k < |c| && LogOf(w, c[k]) == Some(log);
      assert !HasRow(w, t, c[k]);
    }
  }

  /**
   In every run, the writer's table is exactly the rows of its blocks if and
   only if no job is between its rows and its blocks: no build has written more
   rows than it appended blocks, and every authorization on the chain was
   inserted here or came back in its own frame.
   */
  lemma WriterTableIff(w: World, s: System, steps: seq<Step>)
    requires Faithful(w) && Init(w, s) && Legal(w, s, steps)
    ensures var s' := Run(w, s, steps);
      s'.nodes != [] && (TableIsChain(w, Writer(s'), s'.nodes[0].table) <==> AllSettled(s'))
  {
    InitInv(w, s);
    RunKeepsInv(w, s, steps);
    var s' := Run(w, s, steps);
    if AllSettled(s') {
      SettledGivesTable(w, s');
    } else {
      var j :| 0 <= j < |s'.jobs| && !Settled(s'.jobs[j], s'.echoed);
      UnsettledShows(w, s', j);
    }
  }

  /** Block `k` carries log `m` of job `j`, and has its row here exactly if that log was inserted or came back. */
  ghost predicate RowFollowsJob(w: World, s: System, k: nat, j: nat, m: nat)
    requires s.nodes != [] && k < |Writer(s)|
  {
    && j < |s.jobs| && m < |s.jobs[j].logs| && LogOf(w, Writer(s)[k]) == Some(s.jobs[j].logs[m])
    && (HasRow(w, s.nodes[0].table, Writer(s)[k]) <==> m < s.jobs[j].rows || s.jobs[j].logs[m].id in s.echoed)
  }

  ghost predicate WriterRow(w: World, s: System, k: nat)
    requires s.nodes != [] && k < |Writer(s)|
  {
    && (exists j: nat, m: nat :: RowFollowsJob(w, s, k, j, m))
    && (LogOf(w, Writer(s)[k]).Some? && LogOf(w, Writer(s)[k]).value.operation.AddArtifact? ==>
          HasRow(w, s.nodes[0].table, Writer(s)[k]))
  }

  lemma WriterRowHolds(w: World, s: System, k: nat)
    requires Inv(w, s) && 1 <= k < |Writer(s)|
    ensures WriterRow(w, s, k)
  {
    var j, m := BlockOfJob(w, s, k);
    assert Shape(s.jobs[j]);
    assert RowFollowsJob(w, s, k, j, m);
  }

  /**
   The writer's half of log convergence: every artifact block on its chain has
   its row, whatever failed; an authorization has it exactly if its insert
   succeeded or its frame came back.
   */
  lemma WriterConvergence(w: World, s: System, steps: seq<Step>, k: nat)
    requires Faithful(w) && Init(w, s) && Legal(w, s, steps)
    requires Run(w, s, steps).nodes != [] && 1 <= k < |Writer(Run(w, s, steps))|
    ensures WriterRow(w, Run(w, s, steps), k)
  {
    InitInv(w, s);
    RunKeepsInv(w, s, steps);
    WriterRowHolds(w, Run(w, s, steps), k);
  }

  // -------------------------------------------------------------- rows without a block

  /** A stopped job is never taken up again. */
  lemma {:induction false} StoppedStays(w: World, s: System, steps: seq<Step>, j: nat)
    requires Legal(w, s, steps) && j < |s.jobs| && s.jobs[j].stopped
    ensures j < |Run(w, s, steps).jobs| && Run(w, s, steps).jobs[j] == s.jobs[j]
    decreases |steps|
  {
    if steps != [] {
      StoppedStep(w, s, steps[0], j);
      StoppedStays(w, Next(w, s, steps[0]), steps[1..], j);
    }
  }

  lemma StoppedStep(w: World, s: System, step: Step, j: nat)
    requires Enabled(w, s, step) && j < |s.jobs| && s.jobs[j].stopped
    ensures j < |Next(w, s, step).jobs| && Next(w, s, step).jobs[j] == s.jobs[j]
  {
    hide WriterAppend, Changed, Sent, EchoedAfter;
    assert Next(w, s, step).jobs == JobsAfter(w, s, step);
  }

  /** A build that stopped between its rows and its blocks leaves a row without a block in every later state. */
  lemma FailedBuildLeavesRow(w: World, s: System, steps: seq<Step>, j: nat)
    requires Faithful(w) && Inv(w, s) && Legal(w, s, steps)
    requires j < |s.jobs| && s.jobs[j].stopped && s.jobs[j].origin.Build? && s.jobs[j].rows > s.jobs[j].blocks
    ensures s.jobs[j].rows <= |s.jobs[j].logs|
    ensures var s', log := Run(w, s, steps), s.jobs[j].logs[s.jobs[j].blocks];
      s'.nodes != [] && Has(s'.nodes[0].table, log) && !OnChain(w, Writer(s'), log)
  {
    assert Shape(s.jobs[j]);
    RunKeepsInv(w, s, steps);
    StoppedStays(w, s, steps, j);
    var s' := Run(w, s, steps);
    RowIffAppended(s'.nodes[0].table, s'.jobs, s'.echoed, j, s.jobs[j].blocks);
  }

  /** Such a state is reachable: the row is in, storing the artifact fails. */
  lemma RowWithoutBlock(w: World, s: System, log: Log) returns (s': System)
    requires Faithful(w) && Init(w, s) && log.operation.AddArtifact?
    ensures Reaches(w, s, [Publish(Build, [log]), WriteRow(0, true, false)], s')
    ensures Inv(w, s') && s'.jobs == [Job(Build, [log], 1, 0, true)] && s'.nodes[1..] == s.nodes[1..]
    ensures Has(s'.nodes[0].table, log) && !OnChain(w, Writer(s'), log)
  {
    hide Next, Enabled, Inv, Init, Reaches, Has, OnChain;
    var publish, write := Publish(Build, [log]), WriteRow(0, true, false);
    var s1 := FirstPublish(w, s, log);
    s' := WrittenOnce(w, s1, log);
    RunJoins(w, s, [publish], s1, [write], s');
    assert [publish] + [write] == [publish, write];
  }

  lemma FirstPublish(w: World, s: System, log: Log) returns (s': System)
    requires Faithful(w) && Init(w, s) && log.operation.AddArtifact?
    ensures Reaches(w, s, [Publish(Build, [log])], s')
    ensures Inv(w, s') && s'.jobs == [Job(Build, [log], 0, 0, false)] && log.id !in s'.nodes[0].table
    ensures s'.nodes == s.nodes
  {
    hide Reaches;
    InitInv(w, s);
    assert Enabled(w, s, Publish(Build, [log]));
    PublishStep(w, s, Build, [log]);
    s' := s.(jobs := s.jobs + [Job(Build, [log], 0, 0, false)]);
    StepKeepsInv(w, s, Publish(Build, [log]));
    OneStep(w, s, Publish(Build, [log]));
  }

  lemma WrittenOnce(w: World, s: System, log: Log) returns (s': System)
    requires Faithful(w) && Inv(w, s) && s.jobs == [Job(Build, [log], 0, 0, false)] && log.id !in s.nodes[0].table
    ensures Reaches(w, s, [WriteRow(0, true, false)], s')
    ensures Inv(w, s') && s'.jobs == [Job(Build, [log], 1, 0, true)] && s'.nodes[1..] == s.nodes[1..]
    ensures Has(s'.nodes[0].table, log) && !OnChain(w, Writer(s'), log)
  {
    hide Reaches, NodeOk, TaskOk, FrameOk, ChainOk;
    StepKeepsInv(w, s, WriteRow(0, true, false));
    s' := Next(w, s, WriteRow(0, true, false));
    RowIffAppended(s'.nodes[0].table, s'.jobs, s'.echoed, 0, 0);
    OneStep(w, s, WriteRow(0, true, false));
  }
}
