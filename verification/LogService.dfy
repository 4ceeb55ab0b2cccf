/**
 The services over the log table (src/transparency_log/log.rs and
 src/artifact_service/service.rs): reading, guarding and writing.
 */
module LogService {
  import opened Wrappers
  import opened TransparencyLog
  import opened Bags

  const U32_LIMIT: nat := 0x1_0000_0000

  // ---------------------------------------------------------------- publishing

  datatype BuildArtifact = BuildArtifact(artifactSpecificId: string, artifactHash: string)

  /** The random identifiers and the clock value one new log takes. */
  datatype Fresh = Fresh(id: string, artifactId: string, sourceId: string, timestamp: nat, nodeId: string, nodePublicKey: string)

  /** `TransparencyLog::from`, for one artifact out of `count`. */
  function NewArtifactLog(pt: PackageType, package: string, count: nat, a: BuildArtifact, f: Fresh): Log {
    Log(f.id, Some(pt), package, count % U32_LIMIT, a.artifactSpecificId, a.artifactHash, "", f.artifactId,
        f.sourceId, f.timestamp, AddArtifact, f.nodeId, f.nodePublicKey)
  }

  /** What a new log says about its artifact, its build and itself. */
  lemma NewArtifactLogSays(pt: PackageType, package: string, count: nat, a: BuildArtifact, f: Fresh)
    ensures var log := NewArtifactLog(pt, package, count, a, f);
      && IsAddedOf(log, pt, package) && IsArtifactLog(log, pt, a.artifactSpecificId) && log.artifactHash == a.artifactHash
      && (count < U32_LIMIT ==> log.numArtifacts == count) && log.sourceHash == ""
      && log.id == f.id && log.artifactId == f.artifactId && log.sourceId == f.sourceId
      && log.timestamp == f.timestamp && log.nodeId == f.nodeId && log.nodePublicKey == f.nodePublicKey
  {
  }

  /** The log of `add_authorized_node`. */
  function NewNodeLog(node: string, id: string, timestamp: nat, key: string): Log {
    Log(id, None, "", 0, "", "", "", "", "", timestamp, AddNode, node, key)
  }

  /** A node added later than anything said about it before is listed and refused from then on; other nodes and packages are not touched. */
  lemma AddedNodeIsListed(t: Table, node: string, id: string, timestamp: nat, key: string, rows: seq<Log>, refused: bool)
    requires Keyed(t) && id !in t && forall r :: r in NodeRows(t, node) ==> r.timestamp < timestamp
    requires var t' := t[id := NewNodeLog(node, id, timestamp, key)]; MayList(t', rows) && MayVerify(t', node, refused)
    ensures refused && Listed(rows, node)
    ensures NewNodeLog(node, id, timestamp, key).nodePublicKey == key && NewNodeLog(node, id, timestamp, key).id == id
    ensures var t' := t[id := NewNodeLog(node, id, timestamp, key)];
      && (forall other :: other != node ==> NodeRows(t', other) == NodeRows(t, other))
      && (forall pt, package :: ArtifactRows(t', pt, package) == ArtifactRows(t, pt, package))
  {
    var log := NewNodeLog(node, id, timestamp, key);
    var t' := t[id := log];
    ValuesAfterInsert(t, log);
    assert NodeRows(t', node) == NodeRows(t, node) + {log};
    assert Top(NodeRows(t', node)) == {log};
    AgreementWithoutTies(t', node, rows, refused);
    forall other | other != node ensures NodeRows(t', other) == NodeRows(t, other) {
    }
    forall pt, package ensures ArtifactRows(t', pt, package) == ArtifactRows(t, pt, package) {
    }
  }

  /** The rows a build result leads to, in order. */
  function PublishedRows(pt: PackageType, package: string, artifacts: seq<BuildArtifact>, stamps: seq<Fresh>): seq<Log>
    requires |stamps| == |artifacts|
  {
    seq(|artifacts|, i requires 0 <= i < |artifacts| =>
      NewArtifactLog(pt, package, |artifacts|, artifacts[i], stamps[i]))
  }

  function WithRows(t: Table, rows: seq<Log>): Table {
    if rows == [] then t else WithRows(t, rows[..|rows| - 1])[rows[|rows| - 1].id := rows[|rows| - 1]]
  }

  /** New, pairwise different ids. */
  ghost predicate FreshIds(t: Table, rows: seq<Log>) {
    && (forall i :: 0 <= i < |rows| ==> rows[i].id !in t)
    && (forall i, j :: 0 <= i < j < |rows| ==> rows[i].id != rows[j].id)
  }

  lemma WithRowsStep(t: Table, rows: seq<Log>, j: nat)
    requires j < |rows|
    ensures WithRows(t, rows[..j + 1]) == WithRows(t, rows[..j])[rows[j].id := rows[j]]
  {
    assert rows[..j + 1][..j] == rows[..j];
  }

  lemma {:induction false} RowsAfter(t: Table, rows: seq<Log>, j: nat)
    requires j <= |rows| && FreshIds(t, rows) && Keyed(t)
    ensures var t' := WithRows(t, rows[..j]);
      && Keyed(t')
      && t'.Values == t.Values + Elements(rows[..j])
      && forall i :: j <= i < |rows| ==> rows[i].id !in t'
  {
    if j > 0 {
      RowsAfter(t, rows, j - 1);
      WithRowsStep(t, rows, j - 1);
      var before, log := WithRows(t, rows[..j - 1]), rows[j - 1];
      assert rows[..j] == rows[..j - 1] + [log];
      assert Elements(rows[..j]) == Elements(rows[..j - 1]) + {log};
      ValuesAfterInsert(before, log);
    } else {
      assert Elements(rows[..j]) == {};
    }
  }

  lemma ValuesAfterInsert(t: Table, log: Log)
    requires log.id !in t
    ensures t[log.id := log].Values == t.Values + {log}
  {
    var t' := t[log.id := log];
    forall r | r in t.Values ensures r in t'.Values {
      var id :| id in t && t[id] == r;
      assert t'[id] == r;
    }
    assert t'[log.id] == log;
  }

  /** The table holds the rows `rows` of the package and no other. */
  lemma FreshPackageRows(t: Table, pt: PackageType, package: string, rows: seq<Log>, j: nat)
    requires Keyed(t) && ArtifactRows(t, pt, package) == {} && FreshIds(t, rows) && j <= |rows|
    requires forall r :: r in rows ==> IsAddedOf(r, pt, package)
    ensures var t' := WithRows(t, rows[..j]);
      && ArtifactRows(t', pt, package) == AddedRows(t', pt, package) == Elements(rows[..j])
      && |Elements(rows[..j])| == j
  {
    RowsAfter(t, rows, j);
    var t' := WithRows(t, rows[..j]);
    assert forall r :: r in t.Values && IsArtifactOf(r, pt, package) ==> r in ArtifactRows(t, pt, package);
    assert forall r :: r in rows[..j] ==> r in rows;
    assert ArtifactRows(t', pt, package) == Elements(rows[..j]);
    assert AddedRows(t', pt, package) == Elements(rows[..j]);
    DistinctCount(rows[..j]);
  }

  /**
   Publication progress.  While `j` of the `n` rows of a fresh package are
   written, every read of its latest logs reports the inconsistency for
   `0 < j < n` and gives all `n` rows at `j == n`; from the first row on the
   duplicate-build guard cannot pass.
   */
  lemma PublicationProgress(t: Table, pt: PackageType, package: string, artifacts: seq<BuildArtifact>, stamps: seq<Fresh>,
                            j: nat, r: ReadResult)
    requires |stamps| == |artifacts| < U32_LIMIT && j <= |artifacts|
    requires Keyed(t) && ArtifactRows(t, pt, package) == {}
    requires FreshIds(t, PublishedRows(pt, package, artifacts, stamps))
    requires MayRead(WithRows(t, PublishedRows(pt, package, artifacts, stamps)[..j]), pt, package, r)
    ensures var n := |artifacts|;
      && (j == 0 ==> r == Rows([]))
      && (0 < j < n ==> r == Inconsistent(n, j))
      && (0 < j == n ==> r.Rows? && GivesExactly(r.rows, PublishedRows(pt, package, artifacts, stamps)))
      && (Guard(r).Ok? <==> j == 0)
  {
    var rows := PublishedRows(pt, package, artifacts, stamps);
    PublishedShape(pt, package, artifacts, stamps);
    ReadAfterRows(t, pt, package, rows, j, r);
  }

  lemma PublishedShape(pt: PackageType, package: string, artifacts: seq<BuildArtifact>, stamps: seq<Fresh>)
    requires |stamps| == |artifacts| < U32_LIMIT
    ensures forall x :: x in PublishedRows(pt, package, artifacts, stamps) ==>
      IsAddedOf(x, pt, package) && x.numArtifacts == |artifacts|
  {
  }

  /** The same rows, each once, in some order. */
  ghost predicate GivesExactly(rows: seq<Log>, expected: seq<Log>) {
    |rows| == |expected| && Distinct(rows) && Elements(rows) == Elements(expected)
  }

  lemma ReadAfterRows(t: Table, pt: PackageType, package: string, rows: seq<Log>, j: nat, r: ReadResult)
    requires Keyed(t) && ArtifactRows(t, pt, package) == {} && FreshIds(t, rows) && j <= |rows|
    requires forall x :: x in rows ==> IsAddedOf(x, pt, package) && x.numArtifacts == |rows|
    requires MayRead(WithRows(t, rows[..j]), pt, package, r)
    ensures j == 0 ==> r == Rows([])
    ensures 0 < j < |rows| ==> r == Inconsistent(|rows|, j)
    ensures 0 < j == |rows| ==> r.Rows? && GivesExactly(r.rows, rows)
    ensures Guard(r).Ok? <==> j == 0
  {
    var t' := WithRows(t, rows[..j]);
    FreshPackageRows(t, pt, package, rows, j);
    if j == 0 {
      assert ArtifactRows(t', pt, package) == {};
    } else {
      assert rows[..j][0] in Elements(rows[..j]);
      var log :| log in Top(ArtifactRows(t', pt, package)) && ReadsFrom(t', pt, package, log, r);
      assert log in rows[..j] && log in rows;
      ReadOfWhole(t', pt, package, log, r, rows, j);
    }
  }

  lemma ReadOfWhole(t: Table, pt: PackageType, package: string, log: Log, r: ReadResult, rows: seq<Log>, j: nat)
    requires 0 < j <= |rows| && log.numArtifacts == |rows| && log in Elements(rows[..j]) && log.operation.AddArtifact?
    requires AddedRows(t, pt, package) == Elements(rows[..j]) && |Elements(rows[..j])| == j
    requires ReadsFrom(t, pt, package, log, r)
    ensures j < |rows| ==> r == Inconsistent(|rows|, j)
    ensures j == |rows| ==> r.Rows? && GivesExactly(r.rows, rows)
    ensures Guard(r).Err?
  {
    if j == |rows| {
      assert rows[..j] == rows;
      if |rows| == 1 {
        assert log == rows[0];
        assert Distinct(r.rows);
      }
      DistinctCount(r.rows);
      SubsetCount(Elements(r.rows), Elements(rows));
    }
  }

  // ---------------------------------------------------------------- the classes

  ghost function Matching(t: Table, p: Log -> bool): set<Log> {
    set r | r in t.Values && p(r)
  }

  /** The listed nodes whose id reads as a peer id. */
  function PeersOf(rows: seq<Log>, isPeer: string -> bool): (peers: seq<string>)
    ensures forall n :: n in peers <==> isPeer(n) && exists r :: r in rows && r.nodeId == n
  {
    if rows == [] then []
    else
      var last := rows[|rows| - 1].nodeId;
      var before := PeersOf(rows[..|rows| - 1], isPeer);
      assert rows == rows[..|rows| - 1] + [rows[|rows| - 1]];
      if isPeer(last) then before + [last] else before
  }

  /** One of the node's latest rows adds it. */
  ghost predicate AddedLast(t: Table, node: string) {
    exists r :: r in Top(NodeRows(t, node)) && r.operation.AddNode?
  }

  ghost predicate MayAuthorize(t: Table, isPeer: string -> bool, nodes: seq<string>) {
    exists rows :: MayList(t, rows) && nodes == PeersOf(rows, isPeer)
  }

  /** The peers of a list, in its order. */
  lemma {:induction false} PeersInOrder(a: seq<Log>, b: seq<Log>, isPeer: string -> bool)
    ensures PeersOf(a + b, isPeer) == PeersOf(a, isPeer) + PeersOf(b, isPeer)
    ensures |a| == 1 ==> PeersOf(a, isPeer) == if isPeer(a[0].nodeId) then [a[0].nodeId] else []
    decreases |b|
  {
    if b == [] {
      assert a + b == a;
    } else {
      var n := |b| - 1;
      assert (a + b)[..|a + b| - 1] == a + b[..n];
      PeersInOrder(a, b[..n], isPeer);
    }
    if |a| == 1 {
      assert a[..0] == [];
    }
  }

  class TransparencyLogService {
    var table: Table

    ghost predicate Valid()
      reads this
    {
      Keyed(table)
    }

    constructor ()
      ensures Valid() && table == map[]
    {
      table := map[];
    }

    /** `SELECT * ... WHERE p ORDER BY timestamp DESC LIMIT limit`; ties fall any way. */
    method Select(p: Log -> bool, limit: nat) returns (rows: seq<Log>)
      ensures SelectDesc(Matching(table, p), limit, rows)
    {
      var all := Matching(table, p);
      var left := set r | r in table.Values && p(r);
      rows := [];
      assert Elements(rows) == {} && Distinct(rows) && Descending(rows) && Dominates(rows, all);
      hide SelectDesc, Distinct, Descending, Dominates;
      while |rows| < limit && left != {}
        invariant left == all - Elements(rows) && Elements(rows) <= all
        invariant Distinct(rows) && Descending(rows) && Dominates(rows, all)
        invariant |rows| <= limit
        decreases left
      {
        ghost var top := TopExists(left);
        assert top in left && forall q :: q in left ==> q.timestamp <= top.timestamp;
        var r :| r in left && forall q :: q in left ==> q.timestamp <= r.timestamp;
        AppendTop(all, rows, r);
        rows := rows + [r];
        left := left - {r};
      }
      assert forall q :: q in all ==> q in left || q in Elements(rows);
      SelectDone(all, rows, limit);
    }

    /** `SELECT * ... WHERE p`, in any order. */
    method Query(p: Log -> bool) returns (rows: seq<Log>)
      ensures Elements(rows) == Matching(table, p)
    {
      var left := set r | r in table.Values && p(r);
      rows := [];
      while left != {}
        invariant left <= Matching(table, p) && Elements(rows) == Matching(table, p) - left
        decreases left
      {
        var r :| r in left;
        assert Elements(rows + [r]) == Elements(rows) + {r};
        rows := rows + [r];
        left := left - {r};
      }
    }

    /** `read_transparency_log`: the stable ascending sort followed by `next` picks a row with the smallest timestamp. */
    method ReadTransparencyLog(pt: PackageType, artifactId: string) returns (r: Result<Log, FindError>)
      ensures MayFind(LookupRows(table, pt, artifactId), r)
    {
      var records := Query(x => IsRecordOf(x, pt, artifactId));
      assert forall x :: x in records <==> x in Elements(records);
      var chosen: Option<Log> := None;
      for i := 0 to |records|
        invariant chosen.None? <==> forall k :: 0 <= k < i ==> !IsArtifactLog(records[k], pt, artifactId)
        invariant chosen.Some? ==> chosen.value in LookupRows(table, pt, artifactId)
        invariant chosen.Some? ==>
          forall k :: 0 <= k < i && IsArtifactLog(records[k], pt, artifactId) ==> chosen.value.timestamp <= records[k].timestamp
      {
        var record := records[i];
        assert record in records;
        if record.operation.AddArtifact? || record.operation.RemoveArtifact? {
          if chosen.None? || record.timestamp < chosen.value.timestamp {
            chosen := Some(record);
          }
        }
      }
      AllSeen(LookupRows(table, pt, artifactId), records);
      if chosen.None? {
        return Err(ArtifactNotFound);
      }
      assert chosen.value in Bottom(LookupRows(table, pt, artifactId));
      return FoundAs(chosen.value);
    }

    method SelectOthers(pt: PackageType, package: string, log: Log) returns (second: seq<Log>)
      requires Valid() && log in table.Values && log.numArtifacts > 1
      ensures SelectDesc(AddedRows(table, pt, package) - {log}, log.numArtifacts - 1, second)
    {
      hide SelectDesc;
      second := Select(x => IsAddedOf(x, pt, package) && x.id != log.id, log.numArtifacts - 1);
      OthersAreAllButOne(table, pt, package, log);
      assert Matching(table, x => IsAddedOf(x, pt, package) && x.id != log.id) == AddedRows(table, pt, package) - {log};
    }

    /** The second query of the read: the other additions of the package. */
    method ReadOthers(pt: PackageType, package: string, log: Log) returns (res: seq<Log>)
      requires Valid() && log in table.Values && log.numArtifacts > 1
      ensures SelectDesc(AddedRows(table, pt, package) - {log}, log.numArtifacts - 1, res)
    {
      var second := SelectOthers(pt, package, log);
      assert forall rec :: rec in second ==> rec in Elements(second);
      assert forall rec :: rec in second ==> rec.operation.AddArtifact?;
      hide SelectDesc, AddedRows, Elements;
      res := [];
      for i := 0 to |second|
        invariant res == second[..i]
      {
        var rec := second[i];
        assert rec in second;
        if !rec.operation.AddArtifact? {
          // The per-row inconsistency error of the source: its query selects additions only.
          assert false;
        }
        res := res + [rec];
      }
      assert second[..|second|] == second;
    }

    method ReadLastTransparencyLog(pt: PackageType, package: string) returns (r: ReadResult)
      requires Valid()
      ensures MayRead(table, pt, package, r)
    {
      ghost var artifactRows := ArtifactRows(table, pt, package);
      var res := Select(x => IsArtifactOf(x, pt, package), 1);
      assert Matching(table, x => IsArtifactOf(x, pt, package)) == artifactRows;
      FirstIsTop(artifactRows, 1, res);
      if res == [] {
        return Rows(res);
      }
      var log := res[0];
      assert res == [log] && log in artifactRows;
      if log.operation.AddArtifact? && log.numArtifacts > 1 {
        var second := ReadOthers(pt, package, log);
        AssembleRead(table, pt, package, log, second);
        res := res + second;
        if |res| != log.numArtifacts {
          r := Inconsistent(log.numArtifacts, |res|);
        } else {
          r := Rows(res);
        }
      } else {
        r := Rows(res);
      }
      assert log in Top(artifactRows) && ReadsFrom(table, pt, package, log, r);
    }

    /** Refuses on any addition or inconsistency; passes on no row and on a removal. */
    method VerifyPackageCanBeAdded(pt: PackageType, package: string) returns (r: Result<Unit, GuardError>)
      requires Valid()
      ensures MayGuard(table, pt, package, r.Ok?)
      ensures exists read :: MayRead(table, pt, package, read) && r == Guard(read)
      ensures r.Ok? ==>
        || ArtifactRows(table, pt, package) == {}
        || exists log :: log in Top(ArtifactRows(table, pt, package)) && log.operation.RemoveArtifact?
      ensures r.Err? ==> exists log :: log in Top(ArtifactRows(table, pt, package)) && log.operation.AddArtifact?
    {
      var res := ReadLastTransparencyLog(pt, package);
      r := Guard(res);
      GuardOutcomes(table, pt, package);
    }

    method VerifyNodeDoesNotExist(node: string) returns (refused: bool)
      ensures MayVerify(table, node, refused)
      ensures !Ambiguous(table, node) ==> forall rows :: MayList(table, rows) ==> (refused <==> Listed(rows, node))
    {
      var res := Select(x => IsNodeRow(x, node), 1);
      assert Matching(table, x => IsNodeRow(x, node)) == NodeRows(table, node);
      FirstIsTop(NodeRows(table, node), 1, res);
      if res == [] {
        refused := false;
      } else {
        refused := res[0].operation.AddNode?;
        assert res[0] in Top(NodeRows(table, node));
      }
      NodeAgreement(table, node);
    }

    /** `find_added_nodes`: group the node rows by node, take a latest row of each group. */
    method FindAddedNodes() returns (rows: seq<Log>)
      ensures MayList(table, rows)
      ensures forall node :: !Ambiguous(table, node) ==>
        forall refused :: MayVerify(table, node, refused) ==> (refused <==> Listed(rows, node))
    {
      var left := set r | r in table.Values && IsNodeRow(r, r.nodeId) :: r.nodeId;
      rows := [];
      while left != {}
        invariant left <= NodesOf(table)
        invariant ListsOver(table, NodesOf(table) - left, rows)
        decreases left
      {
        var node :| node in left;
        var group := Select(x => IsNodeRow(x, node), 1);
        assert Matching(table, x => IsNodeRow(x, node)) == NodeRows(table, node);
        FirstIsTop(NodeRows(table, node), 1, group);
        ghost var some :| some in table.Values && IsNodeRow(some, node);
        assert some in NodeRows(table, node);
        assert group[0] in NodeRows(table, node) && group[0].nodeId == node;
        ListGroupKeeps(table, NodesOf(table) - left, rows, group[0]);
        if group[0].operation.AddNode? {
          rows := rows + [group[0]];
        }
        assert NodesOf(table) - (left - {node}) == NodesOf(table) - left + {node};
        left := left - {node};
      }
      assert NodesOf(table) - left == NodesOf(table);
      forall node | !Ambiguous(table, node)
        ensures forall refused :: MayVerify(table, node, refused) ==> (refused <==> Listed(rows, node))
      {
        NodeAgreement(table, node);
      }
    }

    /** `get_authorized_nodes`: every node on it was added by one of its latest rows. */
    method GetAuthorizedNodes(isPeer: string -> bool) returns (nodes: seq<string>)
      ensures MayAuthorize(table, isPeer, nodes)
      ensures forall n :: n in nodes ==> isPeer(n) && AddedLast(table, n)
    {
      var rows := FindAddedNodes();
      nodes := [];
      for i := 0 to |rows|
        invariant nodes == PeersOf(rows[..i], isPeer)
      {
        assert rows[..i + 1][..i] == rows[..i];
        if isPeer(rows[i].nodeId) {
          nodes := nodes + [rows[i].nodeId];
        }
      }
      assert rows[..|rows|] == rows;
    }

    /** `write_transparency_log`: the insert fails on a known id or when the database does. */
    method WriteTransparencyLog(log: Log, database: bool) returns (ok: bool)
      requires Valid()
      modifies this
      ensures Valid()
      ensures ok <==> database && log.id !in old(table)
      ensures table == if ok then old(table)[log.id := log] else old(table)
    {
      ok := database && log.id !in table;
      if ok {
        table := table[log.id := log];
      }
    }

    /** `write_if_not_exists`. */
    method WriteIfNotExists(log: Log, database: bool) returns (ok: bool)
      requires Valid()
      modifies this
      ensures Valid()
      ensures ok <==> database || log.id in old(table)
      ensures table == if ok then TransparencyLog.WriteIfNotExists(old(table), log) else old(table)
    {
      ok := true;
      if log.id !in table {
        ok := WriteTransparencyLog(log, database);
      }
    }
  }

  lemma AllSeen(rows: set<Log>, records: seq<Log>)
    requires rows <= Elements(records)
    ensures forall x :: x in rows ==> exists k :: 0 <= k < |records| && records[k] == x
  {
  }

  lemma SelectDone(all: set<Log>, rows: seq<Log>, limit: nat)
    requires Elements(rows) <= all && Distinct(rows) && Descending(rows) && Dominates(rows, all)
    requires |rows| <= limit && (|rows| == limit || all <= Elements(rows))
    ensures SelectDesc(all, limit, rows)
  {
    DistinctCount(rows);
    SubsetCount(Elements(rows), all);
    if all <= Elements(rows) {
      assert Elements(rows) == all;
    }
  }

  lemma AppendTop(all: set<Log>, rows: seq<Log>, r: Log)
    requires Elements(rows) <= all && Distinct(rows) && Descending(rows) && Dominates(rows, all)
    requires r in all && r !in rows && forall q :: q in all && q !in Elements(rows) ==> q.timestamp <= r.timestamp
    ensures var rows' := rows + [r];
      && Elements(rows') == Elements(rows) + {r}
      && Distinct(rows') && Descending(rows') && Dominates(rows', all)
  {
    var rows' := rows + [r];
    forall q, x | q in all && q !in rows' && x in rows' ensures q.timestamp <= x.timestamp {
      assert q !in rows && q !in Elements(rows);
      assert x in rows || x == r;
    }
    forall i, j | 0 <= i < j < |rows'| ensures rows'[i] != rows'[j] && rows'[i].timestamp >= rows'[j].timestamp {
      assert rows'[i] in rows;
    }
  }

  lemma AssembleRead(t: Table, pt: PackageType, package: string, log: Log, second: seq<Log>)
    requires log in ArtifactRows(t, pt, package) && log.operation.AddArtifact? && log.numArtifacts > 1
    requires SelectDesc(AddedRows(t, pt, package) - {log}, log.numArtifacts - 1, second)
    ensures var n := |second| + 1;
      ReadsFrom(t, pt, package, log,
                if n != log.numArtifacts then Inconsistent(log.numArtifacts, n) else Rows([log] + second))
  {
    var added := AddedRows(t, pt, package);
    assert |added - {log}| == |added| - 1;
    if |added| >= log.numArtifacts {
      LogThenRest(added, log, second, log.numArtifacts);
    }
  }

  lemma OthersAreAllButOne(t: Table, pt: PackageType, package: string, log: Log)
    requires Keyed(t) && log in t.Values
    ensures (set r | r in t.Values && IsAddedOf(r, pt, package) && r.id != log.id) == AddedRows(t, pt, package) - {log}
  {
    forall r | r in t.Values && r.id == log.id ensures r == log {
      SameId(t, r, log);
    }
  }
}
