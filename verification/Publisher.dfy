/**
 The publishing operations (src/artifact_service/service.rs and
 src/transparency_log/log.rs) over the writer's table and chain.  Each is
 proved to be a run of the writer's steps in the replicated system.
 */
module Publisher {
  import opened Wrappers
  import opened Structures
  import opened Persistence
  import opened TransparencyLog
  import opened LogService
  import opened Jobs
  import opened Replication
  import NodeSpec
  import B = BlockchainService

  /** `NotStarted` and `NotRequested` are errors of the build service and of the network. */
  datatype BuildRequest =
    | NoAuthorizedNodes
    | AlreadyExists(error: GuardError)
    | StartedLocally
    | NotStarted
    | RequestedFrom(peer: string)
    | NotRequested(peer: string)

  /** What the system makes of one `add_block`: the block's stamp, its save and its broadcast. */
  datatype Outcome = Outcome(stamp: Stamp, os: SaveOutcome, gossiped: bool)

  /** The node a build request goes to. */
  ghost predicate Chooses(nodes: seq<string>, local: string, r: BuildRequest) {
    && (r.NoAuthorizedNodes? <==> nodes == [])
    && (r.StartedLocally? || r.NotStarted? ==> local in nodes)
    && (r.RequestedFrom? || r.NotRequested? ==> local !in nodes && nodes != [] && r.peer == nodes[|nodes| - 1])
  }

  // ------------------------------------------------------------- steps of one job

  lemma WriteRowIs(w: World, s: System, j: nat, database: bool, stored: bool)
    requires s.nodes != [] && j < |s.jobs| && WritesNext(s.jobs[j])
    ensures Enabled(w, s, WriteRow(j, database, stored))
    ensures var log, s' := NextRow(s.jobs[j]), Next(w, s, WriteRow(j, database, stored));
      var inserted := database && log.id !in s.nodes[0].table;
      && s'.nodes != [] && s'.nodes[0].chain == s.nodes[0].chain
      && s'.nodes[0].table == (if inserted then s.nodes[0].table[log.id := log] else s.nodes[0].table)
      && s'.jobs == s.jobs[j := AfterRow(s.jobs[j], inserted, stored)]
  {
  }

  lemma AppendIs(w: World, s: System, j: nat, o: Outcome)
    requires s.nodes != [] && j < |s.jobs| && AppendsNext(s.jobs[j])
    ensures Enabled(w, s, Step.Append(j, o.stamp, o.os, o.gossiped))
    ensures var log, s' := NextBlock(s.jobs[j]), Next(w, s, Step.Append(j, o.stamp, o.os, o.gossiped));
      var (chain, added) := NodeSpec.AddPayload(w.h, s.nodes[0].chain, w.render(log), o.stamp, o.os);
      && s'.nodes != [] && s'.nodes[0].chain == chain && s'.nodes[0].table == s.nodes[0].table
      && s'.jobs == s.jobs[j := AfterAppend(s.jobs[j], |chain.blocks| > |Writer(s)|, added.Ok? && o.gossiped)]
  {
  }

  lemma NoSteps(w: World, s: System)
    ensures Reaches(w, s, [], s)
  {
  }

  lemma Follow(w: World, s: System, steps: seq<Step>, s1: System, step: Step)
    requires Reaches(w, s, steps, s1) && Enabled(w, s1, step)
    ensures Reaches(w, s, steps + [step], Next(w, s1, step))
  {
    hide Reaches, Enabled, Next;
    OneStep(w, s1, step);
    RunJoins(w, s, steps, s1, [step], Next(w, s1, step));
  }

  lemma StartJob(w: World, s: System, origin: Origin, logs: seq<Log>) returns (s': System)
    requires s.nodes != [] && NewIds(s.jobs, logs) && Shape(Job(origin, logs, 0, 0, false))
    ensures Reaches(w, s, [Publish(origin, logs)], s')
    ensures s' == s.(jobs := s.jobs + [Job(origin, logs, 0, 0, false)])
  {
    hide Reaches;
    PublishStep(w, s, origin, logs);
    OneStep(w, s, Publish(origin, logs));
    s' := Next(w, s, Publish(origin, logs));
  }

  /** The state in which the objects are node 0 and job `j` has got this far. */
  ghost predicate At(s: System, chain: Node, table: Table, j: nat, job: Job) {
    s.nodes != [] && s.nodes[0].chain == chain && s.nodes[0].table == table && j < |s.jobs| && s.jobs[j] == job
  }

  /** Nothing but the publication itself. */
  ghost predicate StepsOf(steps: seq<Step>, j: nat) {
    forall step :: step in steps ==>
      step.Publish? || (step.WriteRow? && step.job == j) || (step.Append? && step.job == j)
  }

  ghost predicate AppendsOf(steps: seq<Step>, j: nat) {
    forall step :: step in steps ==> step.Append? && step.job == j
  }

  /** The block was saved and its frame handed to the network. */
  ghost predicate Fine(o: Outcome) {
    o.os.Saved? && o.gossiped
  }

  /** The chain grew by the blocks of the first `n` logs, in order. */
  ghost predicate Carries(w: World, before: seq<Block>, after: seq<Block>, logs: seq<Log>, n: nat) {
    && n <= |logs| && before <= after && |after| == |before| + n
    && forall i :: 0 <= i < n ==> Payloads(after[|before| + i].transactions) == [w.render(logs[i])]
  }

  lemma CarriesOneMore(w: World, before: seq<Block>, after: seq<Block>, more: seq<Block>, logs: seq<Log>, n: nat)
    requires Carries(w, before, after, logs, n) && n < |logs| && after <= more && |more| == |after| + 1
    requires Payloads(more[|after|].transactions) == [w.render(logs[n])]
    ensures Carries(w, before, more, logs, n + 1)
  {
    forall i | 0 <= i < n + 1 ensures Payloads(more[|before| + i].transactions) == [w.render(logs[i])] {
      if i < n {
        assert more[|before| + i] == after[|before| + i];
      }
    }
  }

  lemma NextIdIsFresh(t: Table, rows: seq<Log>, i: nat)
    requires Keyed(t) && FreshIds(t, rows) && i < |rows|
    ensures rows[i].id !in WithRows(t, rows[..i])
  {
    RowsAfter(t, rows, i);
  }

  /** With new ids, what stopped the rows is the database or the storage. */
  lemma StoppedByFailure(t: Table, rows: seq<Log>, database: seq<bool>, stored: seq<bool>, ok: bool, written: nat)
    requires Keyed(t) && FreshIds(t, rows) && |database| == |stored| == |rows| && written <= |rows| && (ok ==> written == |rows|)
    requires AllStored(database, stored, if written > 0 && !stored[written - 1] then written - 1 else written)
    requires !ok ==>
      || (written > 0 && !stored[written - 1])
      || (written < |rows| && (!database[written] || rows[written].id in WithRows(t, rows[..written])))
    requires ok && written > 0 ==> stored[written - 1]
    ensures ok <==> AllStored(database, stored, |rows|)
  {
    if written < |rows| {
      NextIdIsFresh(t, rows, written);
    }
  }

  /** The blocks of the first `i` logs are on the chain, and there is room for the others. */
  ghost predicate Advanced(w: World, start: seq<Block>, node: Node, logs: seq<Log>, i: nat) {
    i <= |logs| && NodeSpec.Room(node, |logs| - i) && Carries(w, start, node.blocks, logs, i)
  }

  /** One round of broadcasting, seen from the chain. */
  lemma RoundAppends(w: World, start: seq<Block>, held: Node, logs: seq<Log>, i: nat, o: Outcome)
    requires i < |logs| && Advanced(w, start, held, logs, i)
    ensures var (node, r) := NodeSpec.AddPayload(w.h, held, w.render(logs[i]), o.stamp, o.os);
      && Advanced(w, start, node, logs, i + 1)
      && |node.blocks| > |held.blocks| && (r.Ok? <==> o.os.Saved?)
  {
    NodeSpec.AddPayloadOnTop(w.h, held, w.render(logs[i]), o.stamp, o.os);
    var node := NodeSpec.AddPayload(w.h, held, w.render(logs[i]), o.stamp, o.os).0;
    CarriesOneMore(w, start, held.blocks, node.blocks, logs, i);
  }

  lemma AdvancedCarries(w: World, start: seq<Block>, node: Node, logs: seq<Log>, i: nat)
    requires Advanced(w, start, node, logs, i)
    ensures Carries(w, start, node.blocks, logs, i)
  {
  }

  lemma SavedIfOk(h: Hashing, node: Node, payload: Bytes, o: Outcome)
    ensures var (node', r) := NodeSpec.AddPayload(h, node, payload, o.stamp, o.os);
      r.Ok? ==> o.os.Saved? && |node'.blocks| > |node.blocks|
  {
  }

  /** The first `n` rows were written and what belongs to them was stored. */
  ghost predicate AllStored(database: seq<bool>, stored: seq<bool>, n: nat) {
    n <= |database| && n <= |stored| && forall k :: 0 <= k < n ==> database[k] && stored[k]
  }

  lemma StoredOneMore(database: seq<bool>, stored: seq<bool>, n: nat)
    requires AllStored(database, stored, n) && n < |database| && n < |stored|
    ensures AllStored(database, stored, n + 1) <==> database[n] && stored[n]
    ensures !(database[n] && stored[n]) ==> forall m :: n < m ==> !AllStored(database, stored, m)
  {
  }

  /** The first `n` blocks were saved and gossiped. */
  ghost predicate AllFine(outcomes: seq<Outcome>, n: nat) {
    n <= |outcomes| && forall k :: 0 <= k < n ==> Fine(outcomes[k])
  }

  lemma FineOneMore(outcomes: seq<Outcome>, n: nat)
    requires AllFine(outcomes, n) && n < |outcomes|
    ensures AllFine(outcomes, n + 1) <==> Fine(outcomes[n])
    ensures !Fine(outcomes[n]) ==> forall m :: n < m ==> !AllFine(outcomes, m)
  {
  }

  /**
   What a publication comes to: it succeeds exactly if every row, every artifact
   and every block goes through; the blocks appended are those of the first
   rows, in order; and a failure among the blocks is that of the last one.
   */
  ghost predicate Published(w: World, before: seq<Block>, after: seq<Block>, rows: seq<Log>, database: seq<bool>,
                            stored: seq<bool>, outcomes: seq<Outcome>, ok: bool, appended: nat) {
    && (ok <==> AllStored(database, stored, |rows|) && AllFine(outcomes, |rows|))
    && Carries(w, before, after, rows, appended)
    && (ok ==> appended == |rows|)
    && (!ok && appended == 0 ==> !AllStored(database, stored, |rows|))
    && (!ok && 0 < appended <= |outcomes| ==> !Fine(outcomes[appended - 1]) && AllFine(outcomes, appended - 1))
  }

  lemma ShowPublished(w: World, before: seq<Block>, after: seq<Block>, rows: seq<Log>, database: seq<bool>,
                      stored: seq<bool>, outcomes: seq<Outcome>, written: bool, ok: bool, appended: nat)
    requires |outcomes| == |rows| && (written <==> AllStored(database, stored, |rows|)) && appended <= |rows|
    requires Carries(w, before, after, rows, appended)
    requires !written ==> !ok && appended == 0
    requires written ==>
      && (ok <==> AllFine(outcomes, |rows|)) && (ok ==> appended == |rows|)
      && (!ok ==> appended > 0 && !Fine(outcomes[appended - 1]) && AllFine(outcomes, appended - 1))
    ensures Published(w, before, after, rows, database, stored, outcomes, ok, appended)
  {
  }

  lemma PublishedAreAdditions(pt: PackageType, package: string, artifacts: seq<BuildArtifact>, stamps: seq<Fresh>)
    requires |stamps| == |artifacts|
    ensures var rows := PublishedRows(pt, package, artifacts, stamps);
      |rows| == |artifacts| && Shape(Job(Build, rows, 0, 0, false))
  {
  }

  /** A run of appends of job `j`. */
  ghost predicate ByAppends(w: World, s: System, steps: seq<Step>, s': System, j: nat) {
    Reaches(w, s, steps, s') && AppendsOf(steps, j)
  }

  /** A run of steps of job `j`. */
  ghost predicate BySteps(w: World, s: System, steps: seq<Step>, s': System, j: nat) {
    Reaches(w, s, steps, s') && StepsOf(steps, j)
  }

  lemma FollowJob(w: World, s: System, steps: seq<Step>, s1: System, step: Step, j: nat)
    requires Enabled(w, s1, step)
    ensures ByAppends(w, s1, [], s1, j) && BySteps(w, s1, [], s1, j)
    ensures ByAppends(w, s, steps, s1, j) && step.Append? && step.job == j ==>
      ByAppends(w, s, steps + [step], Next(w, s1, step), j)
    ensures BySteps(w, s, steps, s1, j) && step.WriteRow? && step.job == j ==>
      BySteps(w, s, steps + [step], Next(w, s1, step), j)
  {
    NoSteps(w, s1);
    hide Reaches, Enabled, Next;
    if Reaches(w, s, steps, s1) {
      Follow(w, s, steps, s1, step);
    }
  }

  lemma JoinJob(w: World, s: System, steps: seq<Step>, s1: System, more: seq<Step>, s2: System, j: nat)
    requires Reaches(w, s, steps, s1) && StepsOf(steps, j) && (BySteps(w, s1, more, s2, j) || ByAppends(w, s1, more, s2, j))
    ensures Reaches(w, s, steps + more, s2) && StepsOf(steps + more, j)
  {
    hide Reaches;
    RunJoins(w, s, steps, s1, more, s2);
  }

  lemma NoJobSteps(w: World, s: System, j: nat)
    ensures ByAppends(w, s, [], s, j) && BySteps(w, s, [], s, j)
  {
    NoSteps(w, s);
  }

  class ArtifactService {
    const log: TransparencyLogService
    const blockchain: B.BlockchainService

    constructor (log: TransparencyLogService, blockchain: B.BlockchainService)
      ensures this.log == log && this.blockchain == blockchain
    {
      this.log, this.blockchain := log, blockchain;
    }

    /**
     `request_build`: builds on this node if it is authorized, else on the last
     authorized one, and in both cases only past the duplicate-build guard.
     `accepted` says whether the build service or the other node takes it on.
     */
    method RequestBuild(pt: PackageType, package: string, local: string, isPeer: string -> bool, accepted: bool)
      returns (r: BuildRequest)
      requires log.Valid()
      ensures exists nodes :: MayAuthorize(log.table, isPeer, nodes) && Chooses(nodes, local, r)
      ensures !r.NoAuthorizedNodes? && !r.AlreadyExists? ==> MayGuard(log.table, pt, package, true)
      ensures !r.NoAuthorizedNodes? && !r.AlreadyExists? ==> (accepted <==> r.StartedLocally? || r.RequestedFrom?)
      ensures r.AlreadyExists? ==> MayGuard(log.table, pt, package, false)
      ensures r.AlreadyExists? ==> exists read :: MayRead(log.table, pt, package, read) && Guard(read) == Err(r.error)
      ensures r.StartedLocally? || r.RequestedFrom? ==>
        AddedLast(log.table, if r.StartedLocally? then local else r.peer)
    {
      hide MayGuard, MayAuthorize, AddedLast;
      var nodes := log.GetAuthorizedNodes(isPeer);
      if nodes == [] {
        return NoAuthorizedNodes;
      }
      var peer := if local in nodes then local else nodes[|nodes| - 1];
      var guarded := log.VerifyPackageCanBeAdded(pt, package);
      if guarded.Err? {
        return AlreadyExists(guarded.error);
      }
      if local == peer {
        r := if accepted then StartedLocally else NotStarted;
      } else {
        r := if accepted then RequestedFrom(peer) else NotRequested(peer);
      }
    }

    /** One round of `broadcast_artifacts`. */
    method AppendOne(w: World, logs: seq<Log>, i: nat, o: Outcome, ghost start: seq<Block>,
                     ghost s: System, ghost steps: seq<Step>, ghost s1: System, ghost j: nat)
      returns (ok: bool, grew: bool, ghost more: seq<Step>, ghost s': System)
      requires i < |logs| && At(s1, blockchain.State(), log.table, j, Job(Build, logs, |logs|, i, false))
      requires ByAppends(w, s, steps, s1, j)
      modifies blockchain
      ensures ByAppends(w, s, more, s', j)
      ensures At(s', blockchain.State(), log.table, j, Job(Build, logs, |logs|, if grew then i + 1 else i, !ok))
      ensures ok ==> grew && Fine(o)
      ensures Advanced(w, start, old(blockchain.State()), logs, i) ==>
        grew && (ok <==> Fine(o)) && Advanced(w, start, blockchain.State(), logs, i + 1)
    {
      var before := |blockchain.blocks|;
      ghost var step := Step.Append(j, o.stamp, o.os, o.gossiped);
      AppendIs(w, s1, j, o);
      FollowJob(w, s, steps, s1, step, j);
      more, s' := steps + [step], Next(w, s1, step);
      hide Enabled, Next, Advanced, ByAppends, BySteps;
      if Advanced(w, start, blockchain.State(), logs, i) {
        RoundAppends(w, start, blockchain.State(), logs, i, o);
      }
      SavedIfOk(w.h, blockchain.State(), w.render(logs[i]), o);
      var r := blockchain.AddPayload(w.h, w.render(logs[i]), o.stamp, o.os);
      ok, grew := r.Ok? && o.gossiped, |blockchain.blocks| > before;
    }

    /** `broadcast_artifacts`: one block for each row, up to the first failure. */
    method BroadcastArtifacts(w: World, logs: seq<Log>, outcomes: seq<Outcome>, ghost s: System, ghost j: nat)
      returns (ok: bool, appended: nat, ghost steps: seq<Step>, ghost s': System)
      requires |outcomes| == |logs| && At(s, blockchain.State(), log.table, j, Job(Build, logs, |logs|, 0, false))
      modifies blockchain
      ensures appended <= |logs| && (ok ==> appended == |logs|)
      ensures ByAppends(w, s, steps, s', j)
      ensures At(s', blockchain.State(), log.table, j, Job(Build, logs, |logs|, appended, !ok))
      ensures NodeSpec.Room(old(blockchain.State()), |logs|) ==>
        && (ok <==> AllFine(outcomes, |logs|))
        && Advanced(w, old(blockchain.blocks), blockchain.State(), logs, appended)
        && (!ok ==> appended > 0 && !Fine(outcomes[appended - 1]) && AllFine(outcomes, appended - 1))
    {
      ghost var start := blockchain.blocks;
      ghost var roomy := NodeSpec.Room(blockchain.State(), |logs|);
      assert roomy ==> Advanced(w, start, blockchain.State(), logs, 0);
      assert AllFine(outcomes, 0);
      hide ByAppends, Advanced, At, Fine, AllFine;
      ok, appended, steps, s' := true, 0, [], s;
      NoJobSteps(w, s, j);
      for i := 0 to |logs|
        invariant appended == i && ByAppends(w, s, steps, s', j)
        invariant At(s', blockchain.State(), log.table, j, Job(Build, logs, |logs|, i, false))
        invariant AllFine(outcomes, i)
        invariant roomy ==> Advanced(w, start, blockchain.State(), logs, i)
      {
        FineOneMore(outcomes, i);
        var done, grew;
        done, grew, steps, s' := AppendOne(w, logs, i, outcomes[i], start, s, steps, s', j);
        appended := if grew then i + 1 else i;
        if !done {
          return false, appended, steps, s';
        }
      }
    }

    /** One round of the rows of a build result. */
    method WriteOne(w: World, rows: seq<Log>, i: nat, database: bool, stored: bool,
                    ghost s: System, ghost steps: seq<Step>, ghost s1: System, ghost j: nat)
      returns (inserted: bool, ghost more: seq<Step>, ghost s': System)
      requires log.Valid() && i < |rows| && At(s1, blockchain.State(), log.table, j, Job(Build, rows, i, 0, false))
      requires BySteps(w, s, steps, s1, j)
      modifies log
      ensures log.Valid() && (inserted <==> database && rows[i].id !in old(log.table))
      ensures log.table == if inserted then old(log.table)[rows[i].id := rows[i]] else old(log.table)
      ensures BySteps(w, s, more, s', j)
      ensures At(s', blockchain.State(), log.table, j, Job(Build, rows, if inserted then i + 1 else i, 0, !(inserted && stored)))
    {
      ghost var step := WriteRow(j, database, stored);
      WriteRowIs(w, s1, j, database, stored);
      FollowJob(w, s, steps, s1, step, j);
      more, s' := steps + [step], Next(w, s1, step);
      hide Enabled, Next, ByAppends, BySteps;
      inserted := log.WriteTransparencyLog(rows[i], database);
    }

    /** The rows of a build result: written, stored and provided one by one, up to the first failure. */
    method WriteRows(w: World, rows: seq<Log>, database: seq<bool>, stored: seq<bool>, ghost s: System, ghost j: nat)
      returns (ok: bool, written: nat, ghost steps: seq<Step>, ghost s': System)
      requires log.Valid() && |database| == |stored| == |rows|
      requires At(s, blockchain.State(), log.table, j, Job(Build, rows, 0, 0, false))
      modifies log
      ensures log.Valid() && written <= |rows| && (ok ==> written == |rows|)
      ensures log.table == WithRows(old(log.table), rows[..written])
      ensures !ok ==>
        || (written > 0 && !stored[written - 1])
        || (written < |rows| && (!database[written] || rows[written].id in log.table))
      ensures AllStored(database, stored, if written > 0 && !stored[written - 1] then written - 1 else written)
      ensures ok && written > 0 ==> stored[written - 1]
      ensures BySteps(w, s, steps, s', j)
      ensures At(s', blockchain.State(), log.table, j, Job(Build, rows, written, 0, !ok))
    {
      assert WithRows(log.table, rows[..0]) == log.table;
      assert AllStored(database, stored, 0);
      hide BySteps, At, WithRows, AllStored;
      ok, written, steps, s' := true, 0, [], s;
      NoJobSteps(w, s, j);
      for i := 0 to |rows|
        invariant written == i && log.Valid() && BySteps(w, s, steps, s', j)
        invariant log.table == WithRows(old(log.table), rows[..i])
        invariant AllStored(database, stored, i) && (i > 0 ==> stored[i - 1])
        invariant At(s', blockchain.State(), log.table, j, Job(Build, rows, i, 0, false))
      {
        WithRowsStep(old(log.table), rows, i);
        StoredOneMore(database, stored, i);
        var inserted;
        inserted, steps, s' := WriteOne(w, rows, i, database[i], stored[i], s, steps, s', j);
        if !inserted {
          return false, written, steps, s';
        }
        written := i + 1;
        if !stored[i] {
          return false, written, steps, s';
        }
      }
    }

    /**
     `handle_build_result`: all rows first, then one block for each, and it
     stops at the first failure of either.  What it did is a run of one job of
     the writer, which ends stopped exactly if the operation failed.
     */
    method HandleBuildResult(w: World, pt: PackageType, package: string, artifacts: seq<BuildArtifact>, stamps: seq<Fresh>,
                             database: seq<bool>, stored: seq<bool>, outcomes: seq<Outcome>, ghost s: System)
      returns (ok: bool, written: nat, appended: nat, ghost steps: seq<Step>, ghost s': System)
      requires log.Valid() && |stamps| == |artifacts| == |database| == |stored| == |outcomes|
      requires s.nodes != [] && s.nodes[0].chain == blockchain.State() && s.nodes[0].table == log.table
      requires NewIds(s.jobs, PublishedRows(pt, package, artifacts, stamps))
      modifies log, blockchain
      ensures log.Valid() && appended <= written <= |artifacts| && (appended > 0 ==> written == |artifacts|)
      ensures log.table == WithRows(old(log.table), PublishedRows(pt, package, artifacts, stamps)[..written])
      ensures ok ==> appended == |artifacts|
      ensures Reaches(w, s, steps, s') && StepsOf(steps, |s.jobs|)
      ensures At(s', blockchain.State(), log.table, |s.jobs|,
                 Job(Build, PublishedRows(pt, package, artifacts, stamps), written, appended, !ok))
      ensures var rows := PublishedRows(pt, package, artifacts, stamps);
        FreshIds(old(log.table), rows) && NodeSpec.Room(old(blockchain.State()), |rows|) ==>
          Published(w, old(blockchain.blocks), blockchain.blocks, rows, database, stored, outcomes, ok, appended)
    {
      var rows := PublishedRows(pt, package, artifacts, stamps);
      PublishedAreAdditions(pt, package, artifacts, stamps);
      hide *;
      ok, written, appended, steps, s' := PublishRows(w, rows, database, stored, outcomes, s);
    }

    /** The rows of a build result, then their blocks. */
    method PublishRows(w: World, rows: seq<Log>, database: seq<bool>, stored: seq<bool>, outcomes: seq<Outcome>, ghost s: System)
      returns (ok: bool, written: nat, appended: nat, ghost steps: seq<Step>, ghost s': System)
      requires log.Valid() && |database| == |stored| == |outcomes| == |rows|
      requires s.nodes != [] && s.nodes[0].chain == blockchain.State() && s.nodes[0].table == log.table
      requires NewIds(s.jobs, rows) && Shape(Job(Build, rows, 0, 0, false))
      modifies log, blockchain
      ensures log.Valid() && appended <= written <= |rows| && (appended > 0 ==> written == |rows|)
      ensures log.table == WithRows(old(log.table), rows[..written])
      ensures ok ==> appended == |rows|
      ensures Reaches(w, s, steps, s') && StepsOf(steps, |s.jobs|)
      ensures At(s', blockchain.State(), log.table, |s.jobs|, Job(Build, rows, written, appended, !ok))
      ensures FreshIds(old(log.table), rows) && NodeSpec.Room(old(blockchain.State()), |rows|) ==>
        Published(w, old(blockchain.blocks), blockchain.blocks, rows, database, stored, outcomes, ok, appended)
    {
      assert Carries(w, blockchain.blocks, blockchain.blocks, rows, 0);
      ghost var s1 := StartJob(w, s, Build, rows);
      assert StepsOf([Publish(Build, rows)], |s.jobs|);
      assert At(s1, blockchain.State(), log.table, |s.jobs|, Job(Build, rows, 0, 0, false));
      hide *;
      ghost var more, s2;
      appended := 0;
      ok, written, more, s2 := WriteRows(w, rows, database, stored, s1, |s.jobs|);
      JoinJob(w, s, [Publish(Build, rows)], s1, more, s2, |s.jobs|);
      steps, s' := [Publish(Build, rows)] + more, s2;
      ghost var stoppedAt := ok;
      if ok {
        ok, appended, more, s' := BroadcastArtifacts(w, rows, outcomes, s2, |s.jobs|);
        JoinJob(w, s, steps, s2, more, s', |s.jobs|);
        steps := steps + more;
      }
      if FreshIds(old(log.table), rows) && NodeSpec.Room(old(blockchain.State()), |rows|) {
        StoppedByFailure(old(log.table), rows, database, stored, stoppedAt, written);
        if stoppedAt {
          AdvancedCarries(w, old(blockchain.blocks), blockchain.State(), rows, appended);
        }
        ShowPublished(w, old(blockchain.blocks), blockchain.blocks, rows, database, stored, outcomes, stoppedAt, ok, appended);
      }
    }

    /**
     `add_authorized_node`: refuses a known node, then appends the block and
     only after it inserts the row.
     */
    method AddAuthorizedNode(w: World, node: string, id: string, timestamp: nat, key: string, o: Outcome, database: bool,
                             ghost s: System)
      returns (row: Log, refused: bool, ok: bool, ghost steps: seq<Step>, ghost s': System)
      requires log.Valid()
      requires s.nodes != [] && s.nodes[0].chain == blockchain.State() && s.nodes[0].table == log.table
      requires NewIds(s.jobs, [NewNodeLog(node, id, timestamp, key)])
      modifies log, blockchain
      ensures row == NewNodeLog(node, id, timestamp, key)
      ensures log.Valid() && MayVerify(old(log.table), node, refused)
      ensures refused ==> !ok && log.table == old(log.table) && blockchain.State() == old(blockchain.State()) && s' == s
      ensures Reaches(w, s, steps, s') && StepsOf(steps, |s.jobs|)
      ensures !refused ==>
        && s'.nodes != [] && s'.nodes[0].chain == blockchain.State() && s'.nodes[0].table == log.table
        && |s'.jobs| == |s.jobs| + 1 && s'.jobs[|s.jobs|].logs == [row] && s'.jobs[|s.jobs|].stopped == !ok
        && (ok ==> s'.jobs[|s.jobs|] == Job(Authorization, [row], 1, 1, false))
      ensures !refused && NodeSpec.Room(old(blockchain.State()), 1) && row.id !in old(log.table) ==>
        && (ok <==> Fine(o) && database)
        && Carries(w, old(blockchain.blocks), blockchain.blocks, [row], 1)
        && log.table == if ok then old(log.table)[row.id := row] else old(log.table)
    {
      hide Reaches;
      row := NewNodeLog(node, id, timestamp, key);
      refused := log.VerifyNodeDoesNotExist(node);
      ok, steps, s' := false, [], s;
      NoSteps(w, s);
      if !refused {
        ok, steps, s' := Authorize(w, row, o, database, s);
      }
    }

    /** The block, and after it the row. */
    method Authorize(w: World, row: Log, o: Outcome, database: bool, ghost s: System)
      returns (ok: bool, ghost steps: seq<Step>, ghost s': System)
      requires log.Valid() && row.operation.AddNode?
      requires s.nodes != [] && s.nodes[0].chain == blockchain.State() && s.nodes[0].table == log.table
      requires NewIds(s.jobs, [row])
      modifies log, blockchain
      ensures log.Valid() && Reaches(w, s, steps, s') && StepsOf(steps, |s.jobs|)
      ensures s'.nodes != [] && s'.nodes[0].chain == blockchain.State() && s'.nodes[0].table == log.table
      ensures |s'.jobs| == |s.jobs| + 1 && s'.jobs[|s.jobs|].logs == [row] && s'.jobs[|s.jobs|].stopped == !ok
      ensures ok ==> s'.jobs[|s.jobs|] == Job(Authorization, [row], 1, 1, false)
      ensures NodeSpec.Room(old(blockchain.State()), 1) && row.id !in old(log.table) ==>
        && (ok <==> Fine(o) && database)
        && Carries(w, old(blockchain.blocks), blockchain.blocks, [row], 1)
        && log.table == if ok then old(log.table)[row.id := row] else old(log.table)
    {
      hide Reaches, Enabled, Next, NewIds;
      ok := false;
      ghost var j := |s.jobs|;
      s' := StartJob(w, s, Authorization, [row]);
      steps := [Publish(Authorization, [row])];
      ghost var append := Step.Append(j, o.stamp, o.os, o.gossiped);
      AppendIs(w, s', j, o);
      Follow(w, s, steps, s', append);
      steps, s' := steps + [append], Next(w, s', append);
      if NodeSpec.Room(blockchain.State(), 1) {
        NodeSpec.AddPayloadOnTop(w.h, blockchain.State(), w.render(row), o.stamp, o.os);
      }
      var added := blockchain.AddPayload(w.h, w.render(row), o.stamp, o.os);
      if added.Ok? && o.gossiped {
        ghost var write := WriteRow(j, database, true);
        WriteRowIs(w, s', j, database, true);
        Follow(w, s, steps, s', write);
        steps, s' := steps + [write], Next(w, s', write);
        ok := log.WriteTransparencyLog(row, database);
      }
    }
  }
}
