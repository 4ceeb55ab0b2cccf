/**
 From a client's request to its lookup in the replicated system
 (src/artifact_service/service.rs).  The duplicate-build guard looks at the
 requester's table when the build is requested; the build is published later,
 to the writer's table, without another look.
 */
module Requests {
  import opened Wrappers
  import opened Structures
  import opened TransparencyLog
  import opened LogService
  import opened Jobs
  import opened Replication
  import opened WriterLog
  import opened Identifiers
  import opened Publication
  import Strings

  /** The node runs without a failure and holds the writer's whole chain. */
  ghost predicate UpToDate(s: System, i: nat) {
    && 1 <= i < |s.nodes| && s.nodes[i].task.Live? && s.nodes[i].saved && s.nodes[i].inserted
    && s.nodes[i].chain.blocks == Writer(s)
  }

  /** No build that submitted such a log is between its rows and its blocks. */
  ghost predicate BuildsSettled(s: System, about: Log -> bool) {
    forall j: nat, k: nat, log: Log :: LogAt(s.jobs, j, k, log) && about(log) && s.jobs[j].origin.Build? ==>
      s.jobs[j].rows == s.jobs[j].blocks
  }

  // ------------------------------------------------------------ artifact rows of the nodes

  lemma Submits(w: World, s: System, row: Log) returns (j: nat, k: nat)
    requires Inv(w, s) && (Written(s.jobs, row) || Appended(s.jobs, row))
    ensures LogAt(s.jobs, j, k, row) && Shape(s.jobs[j])
    ensures row.operation == if s.jobs[j].origin.Build? then AddArtifact else AddNode
    ensures Written(s.jobs, row) <==> k < s.jobs[j].rows
    ensures Appended(s.jobs, row) <==> k < s.jobs[j].blocks
  {
    if Written(s.jobs, row) {
      j, k :| LogAt(s.jobs, j, k, row) && k < s.jobs[j].rows;
    } else {
      j, k :| LogAt(s.jobs, j, k, row) && k < s.jobs[j].blocks;
    }
    assert Shape(s.jobs[j]);
    NextIsNew(s.jobs, j, k, row);
  }

  /** Every row of every node was submitted by a job; nothing is ever removed. */
  lemma RowsAreSubmitted(w: World, s: System, i: nat, row: Log)
    requires Inv(w, s) && i < |s.nodes| && row in s.nodes[i].table.Values
    ensures Written(s.jobs, row) || Appended(s.jobs, row)
    ensures row.operation.AddArtifact? || row.operation.AddNode?
    ensures i > 0 ==> Appended(s.jobs, row)
  {
    var t := s.nodes[i].table;
    var id :| id in t && t[id] == row;
    RowsComeFrom(w, s, i, id);
    if RowFrom(w, Writer(s), id, row) {
      assert OnChain(w, Writer(s), row);
    }
    if i > 0 {
      assert OnChain(w, Writer(s), row);
    }
    var j, k := Submits(w, s, row);
  }

  /** The artifact rows at the writer are exactly those its builds wrote. */
  lemma WriterArtifactRows(w: World, s: System, row: Log)
    requires Inv(w, s) && row.operation.AddArtifact?
    ensures row in s.nodes[0].table.Values <==> Written(s.jobs, row)
  {
    if row in s.nodes[0].table.Values {
      RowsAreSubmitted(w, s, 0, row);
      var j, k := Submits(w, s, row);
    }
    if Written(s.jobs, row) {
      assert Has(s.nodes[0].table, row);
    }
  }

  /** An artifact row at another node is always at the writer too. */
  lemma ReplicaRowAtWriter(w: World, s: System, i: nat, row: Log)
    requires Inv(w, s) && 1 <= i < |s.nodes| && row in s.nodes[i].table.Values && row.operation.AddArtifact?
    ensures row in s.nodes[0].table.Values
  {
    RowsAreSubmitted(w, s, i, row);
    var j, k := Submits(w, s, row);
    WriterArtifactRows(w, s, row);
  }

  /** A row of the writer whose build is settled is at every node that is up to date. */
  lemma WriterRowAtReplica(w: World, s: System, i: nat, row: Log)
    requires Inv(w, s) && UpToDate(s, i) && row in s.nodes[0].table.Values && row.operation.AddArtifact?
    requires forall j: nat, k: nat :: LogAt(s.jobs, j, k, row) && s.jobs[j].origin.Build? ==> s.jobs[j].rows == s.jobs[j].blocks
    ensures row in s.nodes[i].table.Values
  {
    WriterArtifactRows(w, s, row);
    var j, k := Submits(w, s, row);
    assert OnChain(w, Writer(s), row);
    var m :| 1 <= m < |Writer(s)| && LogOf(w, Writer(s)[m]) == Some(row);
    LiveHasRow(w, s, i, m);
  }

  lemma SameRow(w: World, s: System, i: nat, row: Log)
    requires Inv(w, s) && UpToDate(s, i) && row.operation in {AddArtifact, RemoveArtifact}
    requires forall j: nat, k: nat :: LogAt(s.jobs, j, k, row) && s.jobs[j].origin.Build? ==> s.jobs[j].rows == s.jobs[j].blocks
    ensures row in s.nodes[i].table.Values <==> row in s.nodes[0].table.Values
  {
    if row in s.nodes[i].table.Values {
      RowsAreSubmitted(w, s, i, row);
      ReplicaRowAtWriter(w, s, i, row);
    }
    if row in s.nodes[0].table.Values {
      RowsAreSubmitted(w, s, 0, row);
      WriterRowAtReplica(w, s, i, row);
    }
  }

  /** A node that is up to date has the writer's artifact rows, for everything whose builds are settled. */
  lemma SameArtifactRows(w: World, s: System, i: nat, about: Log -> bool)
    requires Inv(w, s) && UpToDate(s, i) && BuildsSettled(s, about)
    ensures forall row :: about(row) && row.operation in {AddArtifact, RemoveArtifact} ==>
      (row in s.nodes[i].table.Values <==> row in s.nodes[0].table.Values)
  {
    forall row | about(row) && row.operation in {AddArtifact, RemoveArtifact}
      ensures row in s.nodes[i].table.Values <==> row in s.nodes[0].table.Values
    {
      SameRow(w, s, i, row);
    }
  }

  /**
   Guard agreement: at a node that is up to date, while no build of the package
   is between its rows and its blocks, the guard may answer exactly what it may
   answer at the writer.
   */
  lemma GuardAgrees(w: World, s: System, i: nat, pt: PackageType, package: string, passes: bool)
    requires Inv(w, s) && UpToDate(s, i) && BuildsSettled(s, log => IsArtifactOf(log, pt, package))
    ensures ArtifactRows(s.nodes[i].table, pt, package) == ArtifactRows(s.nodes[0].table, pt, package)
    ensures MayGuard(s.nodes[i].table, pt, package, passes) <==> MayGuard(s.nodes[0].table, pt, package, passes)
  {
    SameArtifactRows(w, s, i, log => IsArtifactOf(log, pt, package));
    assert ArtifactRows(s.nodes[i].table, pt, package) == ArtifactRows(s.nodes[0].table, pt, package);
    GuardOutcomes(s.nodes[i].table, pt, package);
    GuardOutcomes(s.nodes[0].table, pt, package);
  }

  /** Lookup agreement: likewise for what a client's node finds under an artifact id. */
  lemma LookupAgrees(w: World, s: System, i: nat, pt: PackageType, artifactId: string, hash: string)
    requires Inv(w, s) && UpToDate(s, i) && BuildsSettled(s, log => IsArtifactLog(log, pt, artifactId))
    ensures LookupRows(s.nodes[i].table, pt, artifactId) == LookupRows(s.nodes[0].table, pt, artifactId)
    ensures AlwaysFinds(s.nodes[i].table, pt, artifactId, hash) <==> AlwaysFinds(s.nodes[0].table, pt, artifactId, hash)
  {
    SameArtifactRows(w, s, i, log => IsArtifactLog(log, pt, artifactId));
    assert LookupRows(s.nodes[i].table, pt, artifactId) == LookupRows(s.nodes[0].table, pt, artifactId);
  }

  /** A guard that passes at such a node means the writer has no row of the package. */
  lemma PassedMeansFresh(w: World, s: System, i: nat, pt: PackageType, package: string)
    requires Inv(w, s) && UpToDate(s, i) && BuildsSettled(s, log => IsArtifactOf(log, pt, package))
    requires MayGuard(s.nodes[i].table, pt, package, true)
    ensures ArtifactRows(s.nodes[0].table, pt, package) == {}
  {
    GuardAgrees(w, s, i, pt, package, true);
    forall row | row in s.nodes[0].table.Values ensures !row.operation.RemoveArtifact? {
      RowsAreSubmitted(w, s, 0, row);
    }
    GuardMeansFresh(s.nodes[0].table, pt, package);
  }

  // --------------------------------------------------------- until the build is published

  /** The step writes a row of the package. */
  ghost predicate WritesAbout(s: System, step: Step, pt: PackageType, package: string) {
    step.WriteRow? && step.job < |s.jobs| && WritesNext(s.jobs[step.job]) && IsArtifactOf(NextRow(s.jobs[step.job]), pt, package)
  }

  /** No build of the package writes a row in the run. */
  ghost predicate QuietAbout(w: World, s: System, steps: seq<Step>, pt: PackageType, package: string)
    requires Legal(w, s, steps)
    decreases |steps|
  {
    steps == [] ||
    (!WritesAbout(s, steps[0], pt, package) && QuietAbout(w, Next(w, s, steps[0]), steps[1..], pt, package))
  }

  lemma WrittenStep(w: World, s: System, step: Step, row: Log)
    requires Inv(w, s) && Enabled(w, s, step) && Written(JobsAfter(w, s, step), row)
    ensures Written(s.jobs, row) || (step.WriteRow? && row == NextRow(s.jobs[step.job]))
  {
    hide WriterAppend, Written;
    match step
    case Publish(origin, logs) => StartKeeps(s.jobs, Job(origin, logs, 0, 0, false), row);
    case WriteRow(j, database, stored) =>
      var inserted := database && NextRow(s.jobs[j]).id !in s.nodes[0].table;
      WrittenAfter(s.jobs, j, AfterRow(s.jobs[j], inserted, stored), if inserted then 1 else 0, 0, row);
    case Append(j, stamp, os, gossiped) =>
      var a := WriterAppend(w, s.nodes[0], NextBlock(s.jobs[j]), stamp, os, gossiped);
      var grew := |a.node.chain.blocks| > |Writer(s)|;
      assert Shape(s.jobs[j]);
      WrittenAfter(s.jobs, j, AfterAppend(s.jobs[j], grew, a.ok), 0, if grew then 1 else 0, row);
    case RestartWriter(_, _) => StopKeeps(s.jobs, row);
    case _ =>
  }

  lemma FreshStep(w: World, s: System, step: Step, pt: PackageType, package: string)
    requires Faithful(w) && Inv(w, s) && Enabled(w, s, step) && !WritesAbout(s, step, pt, package)
    requires ArtifactRows(s.nodes[0].table, pt, package) == {}
    ensures Inv(w, Next(w, s, step)) && ArtifactRows(Next(w, s, step).nodes[0].table, pt, package) == {}
  {
    StepKeepsInv(w, s, step);
    var s' := Next(w, s, step);
    forall row | row in ArtifactRows(s'.nodes[0].table, pt, package) ensures row in ArtifactRows(s.nodes[0].table, pt, package) {
      FreshRow(w, s, step, row);
    }
  }

  /** A new artifact row at the writer is the one a job wrote in that step. */
  lemma FreshRow(w: World, s: System, step: Step, row: Log)
    requires Inv(w, s) && Enabled(w, s, step) && Inv(w, Next(w, s, step))
    requires row in Next(w, s, step).nodes[0].table.Values && row.operation in {AddArtifact, RemoveArtifact}
    ensures row.operation.AddArtifact?
    ensures row in s.nodes[0].table.Values || (step.WriteRow? && row == NextRow(s.jobs[step.job]))
  {
    var s' := Next(w, s, step);
    assert s'.jobs == JobsAfter(w, s, step);
    RowsAreSubmitted(w, s', 0, row);
    WriterArtifactRows(w, s', row);
    hide JobsAfter;
    WrittenStep(w, s, step, row);
    WriterArtifactRows(w, s, row);
  }

  /** A package without rows stays so through every run in which no build of it writes a row. */
  lemma {:induction false} StaysFresh(w: World, s: System, steps: seq<Step>, pt: PackageType, package: string)
    requires Faithful(w) && Inv(w, s) && Legal(w, s, steps) && QuietAbout(w, s, steps, pt, package)
    requires ArtifactRows(s.nodes[0].table, pt, package) == {}
    ensures Inv(w, Run(w, s, steps)) && ArtifactRows(Run(w, s, steps).nodes[0].table, pt, package) == {}
    decreases |steps|
  {
    if steps != [] {
      FreshStep(w, s, steps[0], pt, package);
      hide Inv, Next, Enabled, WritesAbout;
      StaysFresh(w, Next(w, s, steps[0]), steps[1..], pt, package);
    }
  }

  /**
   When the guard does its work: it passes at a node that is up to date while no
   build of the package is between its rows and its blocks, and none writes a
   row before this build is published.  Then the build is published to a table
   without any row of the package.
   */
  lemma GuardCarriesOver(w: World, s: System, i: nat, steps: seq<Step>, pt: PackageType, package: string)
    requires Faithful(w) && Inv(w, s) && UpToDate(s, i) && BuildsSettled(s, log => IsArtifactOf(log, pt, package))
    requires MayGuard(s.nodes[i].table, pt, package, true)
    requires Legal(w, s, steps) && QuietAbout(w, s, steps, pt, package)
    ensures Inv(w, Run(w, s, steps)) && ArtifactRows(Run(w, s, steps).nodes[0].table, pt, package) == {}
  {
    PassedMeansFresh(w, s, i, pt, package);
    StaysFresh(w, s, steps, pt, package);
  }

  /** The guard is not enough by itself: a reachable state where the writer has a row of the package and every requester passes. */
  lemma StaleRequesterPasses(w: World, s: System, log: Log, pt: PackageType) returns (s': System)
    requires Faithful(w) && Init(w, s) && log.operation.AddArtifact? && log.packageType == Some(pt)
    ensures Reaches(w, s, [Publish(Build, [log]), WriteRow(0, true, false)], s') && |s'.nodes| == |s.nodes| && s.nodes != []
    ensures !MayGuard(s'.nodes[0].table, pt, log.packageSpecificId, true)
    ensures forall i :: 1 <= i < |s.nodes| ==> MayGuard(s'.nodes[i].table, pt, log.packageSpecificId, true)
  {
    s' := RowWithoutBlock(w, s, log);
    assert |s'.nodes| == |s'.nodes[1..]| + 1 == |s.nodes|;
    var t := s'.nodes[0].table;
    forall row | row in t.Values ensures !row.operation.RemoveArtifact? {
      RowsAreSubmitted(w, s', 0, row);
    }
    assert t[log.id] == log && log in ArtifactRows(t, pt, log.packageSpecificId);
    hide Reaches, Inv, MayGuard;
    GuardMeansFresh(t, pt, log.packageSpecificId);
    forall i | 1 <= i < |s.nodes| ensures MayGuard(s'.nodes[i].table, pt, log.packageSpecificId, true) {
      assert s'.nodes[i] == s'.nodes[1..][i - 1] == s.nodes[1..][i - 1] == s.nodes[i];
      GuardMeansFresh(map[], pt, log.packageSpecificId);
    }
  }

  // ----------------------------------------------------------------------- end to end

  /** New ids in the jobs are new ids in the writer's table. */
  lemma NewIdsAreFresh(w: World, s: System, rows: seq<Log>)
    requires Inv(w, s) && NewIds(s.jobs, rows)
    ensures Keyed(s.nodes[0].table) && FreshIds(s.nodes[0].table, rows)
  {
    var t := s.nodes[0].table;
    forall id, k | id in t && 0 <= k < |rows| ensures rows[k].id != id {
      RowsAreSubmitted(w, s, 0, t[id]);
      var j, m := Submits(w, s, t[id]);
      assert Submitted(s.jobs, t[id]) && rows[k] in rows;
    }
  }

  /**
   Maven, end to end: the guard passed at a node that was up to date, with no
   build of the package under way or published before this one, and no other
   package in the writer's table collides.  Then every lookup after the
   publication returns the row with the hash of the download.
   */
  lemma MavenRequestIsFound(w: World, s: System, i: nat, steps: seq<Step>, fullPath: string, urls: seq<string>,
                            downloads: seq<Download>, k: nat, artifacts: seq<BuildArtifact>, stamps: seq<Fresh>)
    requires Parsed(Pieces(fullPath)).Ok? && Without(Pieces(fullPath)[..|Pieces(fullPath)| - 1], ':')
    requires Faithful(w) && Inv(w, s) && UpToDate(s, i)
    requires BuildsSettled(s, log => IsArtifactOf(log, Maven2, PackageSpecificId(Parsed(Pieces(fullPath)).value)))
    requires MayGuard(s.nodes[i].table, Maven2, PackageSpecificId(Parsed(Pieces(fullPath)).value), true)
    requires Legal(w, s, steps) && QuietAbout(w, s, steps, Maven2, PackageSpecificId(Parsed(Pieces(fullPath)).value))
    requires |urls| == |downloads| && k < |urls| && EndsInFile(urls[k], Parsed(Pieces(fullPath)).value.fileName)
    requires PublishedAll(Maven2, PackageSpecificId(Parsed(Pieces(fullPath)).value), urls, downloads) == Some(artifacts)
    requires OneContent(artifacts) && |stamps| == |artifacts|
    requires NewIds(Run(w, s, steps).jobs, PublishedRows(Maven2, PackageSpecificId(Parsed(Pieces(fullPath)).value), artifacts, stamps))
    requires Run(w, s, steps).nodes != [] && AllFromBuilds(Run(w, s, steps).nodes[0].table)
    requires CollidesOnlyWithItself(Run(w, s, steps).nodes[0].table, PackageSpecificId(Parsed(Pieces(fullPath)).value))
    ensures var c, t := Parsed(Pieces(fullPath)).value, Run(w, s, steps).nodes[0].table;
      && downloads[k].Some?
      && AlwaysFinds(WithRows(t, PublishedRows(Maven2, PackageSpecificId(c), artifacts, stamps)), Maven2,
                     MavenArtifactId(c), downloads[k].value)
  {
    hide Pieces, PublishedAll, PublishedRows, WithRows, AlwaysFinds, Inv, Unpreempted, MayGuard, QuietAbout, BuildsSettled, Faithful;
    var package := PackageSpecificId(Parsed(Pieces(fullPath)).value);
    GuardCarriesOver(w, s, i, steps, Maven2, package);
    var s' := Run(w, s, steps);
    var t := s'.nodes[0].table;
    NewIdsAreFresh(w, s', PublishedRows(Maven2, package, artifacts, stamps));
    FreshHasNoContender(t, package);
    MavenRequestFoundIff(fullPath, urls, downloads, k, artifacts, t, stamps);
  }

  /** The only package of the table that collides with this one is itself. */
  ghost predicate CollidesOnlyWithItself(t: Table, package: string) {
    forall row :: row in t.Values && row.operation.AddArtifact? && row.packageType == Some(Maven2) ==>
      (ShareIds(row.packageSpecificId, package) ==> row.packageSpecificId == package)
  }

  lemma FreshHasNoContender(t: Table, package: string)
    requires CollidesOnlyWithItself(t, package) && ArtifactRows(t, Maven2, package) == {}
    ensures NoContender(t, package)
  {
    forall row | row in t.Values && row.operation.AddArtifact? && row.packageType == Some(Maven2)
      ensures !ShareIds(row.packageSpecificId, package)
    {
      assert row !in ArtifactRows(t, Maven2, package);
    }
  }

  /**
   Docker, end to end, under the same conditions: every lookup by tag returns
   the row with the hash of the download, and every lookup by digest does if
   the old rows under the digest honour it.
   */
  lemma ManifestIsFound(w: World, s: System, i: nat, steps: seq<Step>, name: string, tag: string, urls: seq<string>,
                        downloads: seq<Download>, k: nat, artifacts: seq<BuildArtifact>, stamps: seq<Fresh>, hash: string)
    requires '@' !in name && '@' !in tag && ':' !in tag && ('/' in name || '/' !in tag)
    requires Faithful(w) && Inv(w, s) && UpToDate(s, i)
    requires BuildsSettled(s, log => IsArtifactOf(log, Docker, ManifestId(name, tag)))
    requires MayGuard(s.nodes[i].table, Docker, ManifestId(name, tag), true)
    requires Legal(w, s, steps) && QuietAbout(w, s, steps, Docker, ManifestId(name, tag))
    requires |urls| == |downloads| && k < |urls| && Strings.EndsWith(urls[k], "/manifest")
    requires downloads[k] == Some(hash) && '/' !in hash && '@' !in hash
    requires PublishedAll(Docker, ManifestId(name, tag), urls, downloads) == Some(artifacts)
    requires OneContent(artifacts) && |stamps| == |artifacts|
    requires NewIds(Run(w, s, steps).jobs, PublishedRows(Docker, ManifestId(name, tag), artifacts, stamps))
    requires Run(w, s, steps).nodes != [] && AllFromBuilds(Run(w, s, steps).nodes[0].table)
    ensures var t := Run(w, s, steps).nodes[0].table;
      var after, byDigest := WithRows(t, PublishedRows(Docker, ManifestId(name, tag), artifacts, stamps)), ManifestId(name, "sha256:" + hash);
      && AlwaysFinds(after, Docker, ManifestId(name, tag), hash)
      && (DigestHonoured(t, byDigest, hash) ==> AlwaysFinds(after, Docker, byDigest, hash))
  {
    hide ManifestId, PublishedAll, PublishedRows, WithRows, AlwaysFinds, Inv, Unpreempted, MayGuard, QuietAbout, BuildsSettled, Faithful;
    var package := ManifestId(name, tag);
    GuardCarriesOver(w, s, i, steps, Docker, package);
    var s' := Run(w, s, steps);
    NewIdsAreFresh(w, s', PublishedRows(Docker, package, artifacts, stamps));
    ManifestFoundIff(name, tag, urls, downloads, k, artifacts, s'.nodes[0].table, stamps, hash);
  }
}
