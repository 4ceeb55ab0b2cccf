/**
 What the writer publishes (src/artifact_service/service.rs and
 src/transparency_log/log.rs): each build result and each authorized node is a
 job that writes rows to the writer's own table and appends blocks.
 */
module Jobs {
  import opened TransparencyLog

  /** A build result writes all its rows before its first block; an authorization appends its block first. */
  datatype Origin = Build | Authorization

  /** `rows` and `blocks` count how many of the logs, from the front, were written here and are on the chain. */
  datatype Job = Job(origin: Origin, logs: seq<Log>, rows: nat, blocks: nat, stopped: bool)

  predicate WritesNext(job: Job) {
    && !job.stopped && job.rows < |job.logs|
    && (if job.origin.Build? then job.blocks == 0 else job.blocks == 1)
  }

  predicate AppendsNext(job: Job) {
    && !job.stopped && job.blocks < |job.logs|
    && (job.origin.Build? ==> job.rows == |job.logs|)
  }

  /** The insert succeeded or not, and so did what follows it in the same round. */
  function AfterRow(job: Job, inserted: bool, stored: bool): Job {
    if inserted then job.(rows := job.rows + 1, stopped := !stored) else job.(stopped := true)
  }

  /** The chain grew or not, and the append was reported as a success or not. */
  function AfterAppend(job: Job, grew: bool, ok: bool): Job {
    job.(blocks := if grew then job.blocks + 1 else job.blocks, stopped := !ok)
  }

  /** A restart forgets every unfinished job. */
  function StopAll(jobs: seq<Job>): (r: seq<Job>)
    ensures |r| == |jobs| && forall j :: 0 <= j < |jobs| ==> r[j] == jobs[j].(stopped := true)
  {
    seq(|jobs|, j requires 0 <= j < |jobs| => jobs[j].(stopped := true))
  }

  ghost predicate Shape(job: Job) {
    && job.rows <= |job.logs| && job.blocks <= |job.logs|
    && (job.origin.Build? ==> job.blocks <= job.rows)
    && (job.origin.Build? && job.blocks > 0 ==> job.rows == |job.logs|)
    && (job.origin.Build? ==> forall k :: 0 <= k < |job.logs| ==> job.logs[k].operation.AddArtifact?)
    && (job.origin.Authorization? ==> |job.logs| == 1 && job.rows <= job.blocks && job.logs[0].operation.AddNode?)
  }

  ghost predicate LogAt(jobs: seq<Job>, j: nat, k: nat, log: Log) {
    j < |jobs| && k < |jobs[j].logs| && jobs[j].logs[k] == log
  }

  /** An id names one log of one job. */
  ghost predicate UniqueIds(jobs: seq<Job>) {
    forall j: nat, k: nat, a: Log, i: nat, m: nat, b: Log ::
      LogAt(jobs, j, k, a) && LogAt(jobs, i, m, b) && a.id == b.id ==> j == i && k == m
  }

  ghost predicate Submitted(jobs: seq<Job>, log: Log) {
    exists j: nat, k: nat :: LogAt(jobs, j, k, log)
  }

  ghost predicate Written(jobs: seq<Job>, log: Log) {
    exists j: nat, k: nat :: LogAt(jobs, j, k, log) && k < jobs[j].rows
  }

  ghost predicate Appended(jobs: seq<Job>, log: Log) {
    exists j: nat, k: nat :: LogAt(jobs, j, k, log) && k < jobs[j].blocks
  }

  /** Identifiers that no job has used. */
  ghost predicate NewIds(jobs: seq<Job>, logs: seq<Log>) {
    && (forall a, b :: Submitted(jobs, a) && b in logs ==> a.id != b.id)
    && (forall i, k :: 0 <= i < k < |logs| ==> logs[i].id != logs[k].id)
  }

  // ------------------------------------------------------------------ what steps do

  lemma SameLogs(jobs: seq<Job>, jobs': seq<Job>)
    requires |jobs'| == |jobs| && forall j :: 0 <= j < |jobs| ==> jobs'[j].logs == jobs[j].logs
    ensures UniqueIds(jobs) ==> UniqueIds(jobs')
    ensures forall j: nat, k: nat, log: Log :: LogAt(jobs', j, k, log) <==> LogAt(jobs, j, k, log)
  {
    assert forall j: nat, k: nat, log: Log :: LogAt(jobs', j, k, log) <==> LogAt(jobs, j, k, log);
  }

  lemma StopKeeps(jobs: seq<Job>, log: Log)
    ensures Written(StopAll(jobs), log) <==> Written(jobs, log)
    ensures Appended(StopAll(jobs), log) <==> Appended(jobs, log)
  {
    SameLogs(jobs, StopAll(jobs));
  }

  lemma StartKeeps(jobs: seq<Job>, job: Job, log: Log)
    requires job.rows == 0 && job.blocks == 0
    ensures Written(jobs + [job], log) <==> Written(jobs, log)
    ensures Appended(jobs + [job], log) <==> Appended(jobs, log)
  {
    var more := jobs + [job];
    if j: nat, k: nat :| LogAt(jobs, j, k, log) && k < jobs[j].rows {
      assert LogAt(more, j, k, log) && k < more[j].rows;
    }
    if j: nat, k: nat :| LogAt(jobs, j, k, log) && k < jobs[j].blocks {
      assert LogAt(more, j, k, log) && k < more[j].blocks;
    }
    if j: nat, k: nat :| LogAt(more, j, k, log) && k < more[j].rows {
      assert LogAt(jobs, j, k, log);
    }
    if j: nat, k: nat :| LogAt(more, j, k, log) && k < more[j].blocks {
      assert LogAt(jobs, j, k, log);
    }
  }

  lemma StartUnique(jobs: seq<Job>, job: Job)
    requires UniqueIds(jobs) && NewIds(jobs, job.logs)
    ensures UniqueIds(jobs + [job])
  {
    var more := jobs + [job];
    forall j: nat, k: nat, a: Log, i: nat, m: nat, b: Log
      | LogAt(more, j, k, a) && LogAt(more, i, m, b) && a.id == b.id
      ensures j == i && k == m
    {
      if j < |jobs| { assert LogAt(jobs, j, k, a); } else { assert a in job.logs; }
      if i < |jobs| { assert LogAt(jobs, i, m, b); } else { assert b in job.logs; }
    }
  }

  /** One job moves on: `dr` more rows and `db` more blocks. */
  ghost predicate Advances(job: Job, job': Job, dr: nat, db: nat) {
    job'.origin == job.origin && job'.logs == job.logs && job'.rows == job.rows + dr && job'.blocks == job.blocks + db
  }

  lemma WrittenAfter(jobs: seq<Job>, j: nat, job: Job, dr: nat, db: nat, log: Log)
    requires j < |jobs| && Advances(jobs[j], job, dr, db) && dr <= 1 && job.rows <= |job.logs|
    ensures Written(jobs[j := job], log) <==> Written(jobs, log) || (dr == 1 && log == job.logs[jobs[j].rows])
  {
    var jobs' := jobs[j := job];
    if dr == 1 && log == job.logs[jobs[j].rows] {
      assert LogAt(jobs', j, jobs[j].rows, log);
    }
    if i: nat, k: nat :| LogAt(jobs, i, k, log) && k < jobs[i].rows {
      assert LogAt(jobs', i, k, log) && k < jobs'[i].rows;
    }
    if i: nat, k: nat :| LogAt(jobs', i, k, log) && k < jobs'[i].rows {
      assert LogAt(jobs, i, k, log);
      assert k < jobs[i].rows || (i == j && k == jobs[j].rows);
    }
  }

  lemma AppendedAfter(jobs: seq<Job>, j: nat, job: Job, dr: nat, db: nat, log: Log)
    requires j < |jobs| && Advances(jobs[j], job, dr, db) && db <= 1 && job.blocks <= |job.logs|
    ensures Appended(jobs[j := job], log) <==> Appended(jobs, log) || (db == 1 && log == job.logs[jobs[j].blocks])
  {
    var jobs' := jobs[j := job];
    if db == 1 && log == job.logs[jobs[j].blocks] {
      assert LogAt(jobs', j, jobs[j].blocks, log);
    }
    if i: nat, k: nat :| LogAt(jobs, i, k, log) && k < jobs[i].blocks {
      assert LogAt(jobs', i, k, log) && k < jobs'[i].blocks;
    }
    if i: nat, k: nat :| LogAt(jobs', i, k, log) && k < jobs'[i].blocks {
      assert LogAt(jobs, i, k, log);
      assert k < jobs[i].blocks || (i == j && k == jobs[j].blocks);
    }
  }

  /** The log a job takes up next was neither written nor appended under its id before. */
  lemma NextIsNew(jobs: seq<Job>, j: nat, k: nat, log: Log)
    requires UniqueIds(jobs) && j < |jobs| && k < |jobs[j].logs| && jobs[j].logs[k].id == log.id
    ensures Written(jobs, log) ==> k < jobs[j].rows
    ensures Appended(jobs, log) ==> k < jobs[j].blocks
  {
    assert LogAt(jobs, j, k, jobs[j].logs[k]);
  }

  // ------------------------------------------------------------- the writer's table

  ghost predicate Has(t: Table, log: Log) {
    log.id in t && t[log.id] == log
  }

  /** The table is what the jobs wrote and what came back to the writer in its own frames. */
  ghost predicate RowsOk(t: Table, jobs: seq<Job>, echoed: set<string>) {
    && (forall log :: Written(jobs, log) ==> Has(t, log))
    && (forall id :: id in t ==> t[id].id == id && (Written(jobs, t[id]) || (id in echoed && Appended(jobs, t[id]))))
    && (forall id :: id in echoed ==> id in t)
  }

  /** The job's rows and blocks are the same logs, or its one row came back in its own frame. */
  ghost predicate Settled(job: Job, echoed: set<string>) {
    job.rows == job.blocks || (job.origin.Authorization? && job.logs != [] && job.logs[0].id in echoed)
  }

  lemma RowIffAppended(t: Table, jobs: seq<Job>, echoed: set<string>, j: nat, k: nat)
    requires UniqueIds(jobs) && RowsOk(t, jobs, echoed) && j < |jobs| && k < |jobs[j].logs|
    ensures var log := jobs[j].logs[k];
      && (Has(t, log) <==> k < jobs[j].rows || (log.id in echoed && k < jobs[j].blocks))
      && (Appended(jobs, log) <==> k < jobs[j].blocks)
      && (log.id in t ==> t[log.id] == log)
  {
    var log := jobs[j].logs[k];
    assert LogAt(jobs, j, k, log);
    if log.id in t {
      var row := t[log.id];
      NextIsNew(jobs, j, k, row);
      if i: nat, m: nat :| LogAt(jobs, i, m, row) {
        assert i == j && m == k;
      }
    }
    NextIsNew(jobs, j, k, log);
  }
}
