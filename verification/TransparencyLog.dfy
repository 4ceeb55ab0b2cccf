/**
 The transparency log table and its queries (src/transparency_log/log.rs).

 SQLite is a finite table keyed by `id`.  `ORDER BY timestamp` leaves the order
 of equal timestamps open, so a query is a relation between table and result.
 */
module TransparencyLog {
  import opened Wrappers

  datatype PackageType = Docker | Maven2

  datatype Operation = AddArtifact | RemoveArtifact | AddNode | RemoveNode

  datatype Log = Log(
    id: string,
    packageType: Option<PackageType>,
    packageSpecificId: string,
    numArtifacts: nat,
    packageSpecificArtifactId: string,
    artifactHash: string,
    sourceHash: string,
    artifactId: string,
    sourceId: string,
    timestamp: nat,
    operation: Operation,
    nodeId: string,
    nodePublicKey: string)

  type Table = map<string, Log>

  /** The primary key: a row is stored under its own id. */
  ghost predicate Keyed(t: Table) {
    forall id :: id in t ==> t[id].id == id
  }

  // ------------------------------------------------------------------- queries

  /** The rows of a set that attain its largest timestamp. */
  ghost function Top(s: set<Log>): set<Log> {
    set r | r in s && forall q :: q in s ==> q.timestamp <= r.timestamp
  }

  lemma {:induction false} TopExists(s: set<Log>) returns (r: Log)
    requires s != {}
    ensures r in Top(s)
    decreases |s|
  {
    r :| r in s;
    var rest := s - {r};
    if rest == {} {
      assert s == {r};
    } else {
      var m := TopExists(rest);
      assert forall q :: q in s ==> q == r || q in rest;
      if m.timestamp > r.timestamp {
        r := m;
      }
    }
  }

  ghost predicate Distinct(rows: seq<Log>) {
    forall i, j :: 0 <= i < j < |rows| ==> rows[i] != rows[j]
  }

  ghost function Elements(rows: seq<Log>): set<Log> {
    set r | r in rows
  }

  ghost predicate Descending(rows: seq<Log>) {
    forall i, j :: 0 <= i < j < |rows| ==> rows[i].timestamp >= rows[j].timestamp
  }

  /** No row left out of the result is later than one in it. */
  ghost predicate Dominates(rows: seq<Log>, s: set<Log>) {
    forall q, r :: q in s && q !in rows && r in rows ==> q.timestamp <= r.timestamp
  }

  /** `rows` is a result of selecting from `s` with `ORDER BY timestamp DESC LIMIT limit`. */
  ghost predicate SelectDesc(s: set<Log>, limit: nat, rows: seq<Log>) {
    && Distinct(rows)
    && Elements(rows) <= s
    && Descending(rows)
    && Dominates(rows, s)
    && |rows| == if |s| < limit then |s| else limit
  }

  lemma {:induction false} DistinctCount(rows: seq<Log>)
    requires Distinct(rows)
    ensures |Elements(rows)| == |rows|
  {
    if rows == [] {
      assert Elements(rows) == {};
    } else {
      var n := |rows| - 1;
      var init := rows[..n];
      DistinctCount(init);
      assert rows == init + [rows[n]];
      assert Elements(rows) == Elements(init) + {rows[n]};
      assert rows[n] !in init;
    }
  }

  /** The first row of a selection is a latest row, and there is one unless nothing matches. */
  lemma FirstIsTop(s: set<Log>, limit: nat, rows: seq<Log>)
    requires SelectDesc(s, limit, rows) && limit > 0
    ensures rows == [] <==> s == {}
    ensures rows != [] ==> rows[0] in Top(s)
  {
    if rows != [] {
      assert rows[0] in Elements(rows);
      forall q | q in s ensures q.timestamp <= rows[0].timestamp {
        if q in rows {
          var i :| 0 <= i < |rows| && rows[i] == q;
        }
      }
    }
  }

  /** Every selection has a result. */
  lemma {:induction false} SelectExists(s: set<Log>, limit: nat) returns (rows: seq<Log>)
    ensures SelectDesc(s, limit, rows)
  {
    if limit == 0 || s == {} {
      rows := [];
      assert Elements(rows) == {};
    } else {
      var r := TopExists(s);
      var rest := SelectExists(s - {r}, limit - 1);
      rows := [r] + rest;
      Prefixed(s, limit, r, rest);
    }
  }

  lemma PrefixedOrder(s: set<Log>, r: Log, rest: seq<Log>)
    requires r in Top(s) && Elements(rest) <= s - {r} && Distinct(rest) && Descending(rest)
    ensures Distinct([r] + rest) && Descending([r] + rest)
  {
    var rows := [r] + rest;
    forall i, j | 0 <= i < j < |rows| ensures rows[i] != rows[j] && rows[i].timestamp >= rows[j].timestamp {
      assert rows[j] == rest[j - 1] && rest[j - 1] in Elements(rest);
      if i > 0 {
        assert rows[i] == rest[i - 1];
      }
    }
  }

  lemma Prefixed(s: set<Log>, limit: nat, r: Log, rest: seq<Log>)
    requires limit > 0 && r in Top(s) && SelectDesc(s - {r}, limit - 1, rest)
    ensures SelectDesc(s, limit, [r] + rest)
  {
    var rows := [r] + rest;
    PrefixedOrder(s, r, rest);
    assert Elements(rows) == {r} + Elements(rest);
    assert |s - {r}| == |s| - 1;
    forall q, x | q in s && q !in rows && x in rows ensures q.timestamp <= x.timestamp {
      assert q != r && q in s - {r} && q !in rest;
      assert x == r || x in rest;
    }
  }

  // --------------------------------------------------- package rows and the guard

  predicate IsArtifactOf(r: Log, pt: PackageType, id: string) {
    r.operation in {AddArtifact, RemoveArtifact} && r.packageType == Some(pt) && r.packageSpecificId == id
  }

  predicate IsAddedOf(r: Log, pt: PackageType, id: string) {
    r.operation.AddArtifact? && r.packageType == Some(pt) && r.packageSpecificId == id
  }

  ghost function ArtifactRows(t: Table, pt: PackageType, id: string): set<Log> {
    set r | r in t.Values && IsArtifactOf(r, pt, id)
  }

  ghost function AddedRows(t: Table, pt: PackageType, id: string): set<Log> {
    set r | r in t.Values && IsAddedOf(r, pt, id)
  }

  datatype ReadResult = Rows(rows: seq<Log>) | Inconsistent(numArtifacts: nat, actual: nat)

  /** What the read may return once its first query has given `log`. */
  ghost predicate ReadsFrom(t: Table, pt: PackageType, id: string, log: Log, r: ReadResult) {
    var added := AddedRows(t, pt, id);
    if log.operation.AddArtifact? && log.numArtifacts > 1 then
      if |added| < log.numArtifacts then r == Inconsistent(log.numArtifacts, |added|)
      else
        && r.Rows? && |r.rows| == log.numArtifacts && r.rows[0] == log
        && Distinct(r.rows) && Elements(r.rows) <= added
        && SelectDesc(added - {log}, log.numArtifacts - 1, r.rows[1..])
    else r == Rows([log])
  }

  /** The results `read_last_transparency_log` may return. */
  ghost predicate MayRead(t: Table, pt: PackageType, id: string, r: ReadResult) {
    if ArtifactRows(t, pt, id) == {} then r == Rows([])
    else exists log :: log in Top(ArtifactRows(t, pt, id)) && ReadsFrom(t, pt, id, log, r)
  }

  datatype GuardError = ArtifactAlreadyExists | LogNotConsistent(numArtifacts: nat, actual: nat)

  /** `verify_package_can_be_added_to_transparency_logs` on what the read returned. */
  function Guard(r: ReadResult): Result<Unit, GuardError> {
    match r
    case Inconsistent(n, actual) => Err(LogNotConsistent(n, actual))
    case Rows(rows) =>
      if rows != [] && rows[0].operation.AddArtifact? then Err(ArtifactAlreadyExists) else Ok(Unit)
  }

  ghost predicate MayGuard(t: Table, pt: PackageType, id: string, passes: bool) {
    exists r :: MayRead(t, pt, id, r) && Guard(r).Ok? == passes
  }

  /** Given the latest row, the guard refuses exactly when that row adds the package. */
  lemma GuardFollowsLatest(t: Table, pt: PackageType, id: string, log: Log, r: ReadResult)
    requires log in ArtifactRows(t, pt, id) && ReadsFrom(t, pt, id, log, r)
    ensures Guard(r).Ok? <==> log.operation.RemoveArtifact?
  {
  }

  /** Which refusal it is: the inconsistency if rows of the latest publication are missing, else that the package exists. */
  lemma GuardRefusals(t: Table, pt: PackageType, id: string, log: Log, r: ReadResult)
    requires log in ArtifactRows(t, pt, id) && log.operation.AddArtifact? && ReadsFrom(t, pt, id, log, r)
    ensures Guard(r) == Err(
      if log.numArtifacts > 1 && |AddedRows(t, pt, id)| < log.numArtifacts
      then LogNotConsistent(log.numArtifacts, |AddedRows(t, pt, id)|) else ArtifactAlreadyExists)
  {
  }

  lemma ReadExists(t: Table, pt: PackageType, id: string, log: Log) returns (r: ReadResult)
    requires log in ArtifactRows(t, pt, id)
    ensures ReadsFrom(t, pt, id, log, r)
  {
    var added := AddedRows(t, pt, id);
    if log.operation.AddArtifact? && log.numArtifacts > 1 {
      if |added| < log.numArtifacts {
        r := Inconsistent(log.numArtifacts, |added|);
      } else {
        var rest := SelectExists(added - {log}, log.numArtifacts - 1);
        r := Rows([log] + rest);
        LogThenRest(added, log, rest, log.numArtifacts);
      }
    } else {
      r := Rows([log]);
    }
  }

  lemma LogThenRest(added: set<Log>, log: Log, rest: seq<Log>, n: nat)
    requires log in added && n > 1 && n <= |added| && SelectDesc(added - {log}, n - 1, rest)
    ensures var rows := [log] + rest;
      |rows| == n && Distinct(rows) && Elements(rows) <= added && rows[1..] == rest
  {
    var rows := [log] + rest;
    assert |added - {log}| == |added| - 1;
    assert forall q :: q in rest ==> q in Elements(rest);
    forall i, j | 0 <= i < j < |rows| ensures rows[i] != rows[j] {
      assert rows[j] == rest[j - 1] && rest[j - 1] in rest;
      if i > 0 { assert rows[i] == rest[i - 1]; }
    }
  }

  lemma GuardSound(t: Table, pt: PackageType, id: string, passes: bool)
    requires MayGuard(t, pt, id, passes)
    ensures var rows := ArtifactRows(t, pt, id);
      (rows == {} && passes) || exists log :: log in Top(rows) && (passes <==> log.operation.RemoveArtifact?)
  {
    var rows := ArtifactRows(t, pt, id);
    var r :| MayRead(t, pt, id, r) && Guard(r).Ok? == passes;
    if rows != {} {
      var log :| log in Top(rows) && ReadsFrom(t, pt, id, log, r);
      GuardFollowsLatest(t, pt, id, log, r);
    }
  }

  lemma GuardComplete(t: Table, pt: PackageType, id: string, log: Log)
    requires log in Top(ArtifactRows(t, pt, id))
    ensures MayGuard(t, pt, id, log.operation.RemoveArtifact?)
  {
    var r := ReadExists(t, pt, id, log);
    GuardFollowsLatest(t, pt, id, log, r);
    assert MayRead(t, pt, id, r);
  }

  /**
   The duplicate-build guard, on every table: it may pass exactly when the
   package has no artifact row or a removal attains the latest timestamp, and
   it may refuse exactly when an addition attains it.
   */
  lemma GuardOutcomes(t: Table, pt: PackageType, id: string)
    ensures var rows := ArtifactRows(t, pt, id);
      && (MayGuard(t, pt, id, true) <==> rows == {} || exists r :: r in Top(rows) && r.operation.RemoveArtifact?)
      && (MayGuard(t, pt, id, false) <==> exists r :: r in Top(rows) && r.operation.AddArtifact?)
  {
    var rows := ArtifactRows(t, pt, id);
    if MayGuard(t, pt, id, true) { GuardSound(t, pt, id, true); }
    if MayGuard(t, pt, id, false) { GuardSound(t, pt, id, false); }
    if rows == {} {
      assert MayRead(t, pt, id, Rows([])) && Guard(Rows([])).Ok?;
    }
    forall log | log in Top(rows) ensures MayGuard(t, pt, id, log.operation.RemoveArtifact?) {
      GuardComplete(t, pt, id, log);
    }
  }

  /** With no addition and removal tied at the latest timestamp, the guard has one verdict. */
  lemma GuardIsLatestOperation(t: Table, pt: PackageType, id: string, passes: bool)
    requires forall a, b :: a in Top(ArtifactRows(t, pt, id)) && b in Top(ArtifactRows(t, pt, id)) ==> a.operation == b.operation
    requires MayGuard(t, pt, id, passes)
    ensures passes <==> forall r :: r in Top(ArtifactRows(t, pt, id)) ==> r.operation.RemoveArtifact?
  {
    GuardOutcomes(t, pt, id);
    var rows := ArtifactRows(t, pt, id);
    if rows != {} {
      var log := TopExists(rows);
    }
  }

  // ------------------------------------------------------------ the earliest row

  predicate IsArtifactLog(r: Log, pt: PackageType, artifactId: string) {
    r.operation in {AddArtifact, RemoveArtifact} && r.packageType == Some(pt) && r.packageSpecificArtifactId == artifactId
  }

  /** The query of a lookup, which does not ask for the operation. */
  predicate IsRecordOf(r: Log, pt: PackageType, artifactId: string) {
    r.packageType == Some(pt) && r.packageSpecificArtifactId == artifactId
  }

  datatype FindError = ArtifactNotFound | InvalidOperation(id: string)

  /** The rows of a set that attain its smallest timestamp. */
  ghost function Bottom(s: set<Log>): set<Log> {
    set r | r in s && forall q :: q in s ==> r.timestamp <= q.timestamp
  }

  lemma {:induction false} BottomExists(s: set<Log>) returns (r: Log)
    requires s != {}
    ensures r in Bottom(s)
    decreases |s|
  {
    r :| r in s;
    var rest := s - {r};
    if rest == {} {
      assert s == {r};
    } else {
      var m := BottomExists(rest);
      assert forall q :: q in s ==> q == r || q in rest;
      if m.timestamp < r.timestamp {
        r := m;
      }
    }
  }

  /** The rows a lookup of an artifact considers. */
  ghost function LookupRows(t: Table, pt: PackageType, artifactId: string): set<Log> {
    set r | r in t.Values && IsArtifactLog(r, pt, artifactId)
  }

  function FoundAs(row: Log): Result<Log, FindError> {
    if row.operation.RemoveArtifact? then Err(InvalidOperation(row.id)) else Ok(row)
  }

  /** The results `read_transparency_log` may return: it takes an EARLIEST row. */
  ghost predicate MayFind(rows: set<Log>, r: Result<Log, FindError>) {
    if rows == {} then r == Err(ArtifactNotFound)
    else exists row :: row in Bottom(rows) && r == FoundAs(row)
  }

  /**
   A lookup gives the latest row, as its documentation says, if and only if all
   rows of the artifact have one timestamp.
   */
  lemma LookupIsLatestIff(t: Table, pt: PackageType, artifactId: string, r: Result<Log, FindError>)
    requires Keyed(t) && LookupRows(t, pt, artifactId) != {} && MayFind(LookupRows(t, pt, artifactId), r)
    ensures var rows := LookupRows(t, pt, artifactId);
      (exists row :: row in Top(rows) && r == FoundAs(row)) <==>
      forall p, q :: p in rows && q in rows ==> p.timestamp == q.timestamp
  {
    var rows := LookupRows(t, pt, artifactId);
    var found :| found in Bottom(rows) && r == FoundAs(found);
    if row :| row in Top(rows) && r == FoundAs(row) {
      assert row.id == found.id;
      assert row == found by { SameId(t, row, found); }
      assert forall q :: q in rows ==> found.timestamp <= q.timestamp <= found.timestamp;
    }
    if forall p, q :: p in rows && q in rows ==> p.timestamp == q.timestamp {
      assert found in Top(rows);
    }
  }

  lemma SameId(t: Table, a: Log, b: Log)
    requires Keyed(t) && a in t.Values && b in t.Values && a.id == b.id
    ensures a == b
  {
    var i :| i in t && t[i] == a;
    var k :| k in t && t[k] == b;
  }

  // ---------------------------------------------------------------- node rows

  predicate IsNodeRow(r: Log, node: string) {
    r.operation in {AddNode, RemoveNode} && r.nodeId == node
  }

  ghost function NodeRows(t: Table, node: string): set<Log> {
    set r | r in t.Values && IsNodeRow(r, node)
  }

  /** An addition and a removal of the node tie at its latest timestamp. */
  ghost predicate Ambiguous(t: Table, node: string) {
    exists a, b :: a in Top(NodeRows(t, node)) && b in Top(NodeRows(t, node)) && a.operation.AddNode? && b.operation.RemoveNode?
  }

  ghost predicate RemovalOnTop(t: Table, node: string) {
    exists q :: q in Top(NodeRows(t, node)) && q.operation.RemoveNode?
  }

  /** `verify_node_does_not_exist` may answer `refused`. */
  ghost predicate MayVerify(t: Table, node: string, refused: bool) {
    var rows := NodeRows(t, node);
    if rows == {} then !refused
    else exists r :: r in Top(rows) && (r.operation.AddNode? <==> refused)
  }

  ghost predicate Listed(rows: seq<Log>, node: string) {
    exists r :: r in rows && r.nodeId == node
  }

  ghost function NodesOf(t: Table): set<string> {
    set r | r in t.Values && IsNodeRow(r, r.nodeId) :: r.nodeId
  }

  /** The groups `nodes` have been listed: one latest row each, kept if it adds the node. */
  ghost predicate ListsOver(t: Table, nodes: set<string>, rows: seq<Log>) {
    && (forall r :: r in rows ==> r.nodeId in nodes && r.operation.AddNode? && r in Top(NodeRows(t, r.nodeId)))
    && (forall i, j :: 0 <= i < j < |rows| ==> rows[i].nodeId != rows[j].nodeId)
    && (forall n :: n in nodes && !Listed(rows, n) ==> RemovalOnTop(t, n))
  }

  /**
   The results of `find_added_nodes`: one row per node that attains the node's
   largest timestamp (SQLite's rule for a bare column beside `max`), kept if it
   adds the node.
   */
  ghost predicate MayList(t: Table, rows: seq<Log>) {
    ListsOver(t, NodesOf(t), rows)
  }

  /** One more group. */
  function ListGroup(rows: seq<Log>, chosen: Log): seq<Log> {
    if chosen.operation.AddNode? then rows + [chosen] else rows
  }

  lemma ListedAfter(rows: seq<Log>, chosen: Log, n: string)
    ensures Listed(ListGroup(rows, chosen), n) <==> Listed(rows, n) || (chosen.operation.AddNode? && chosen.nodeId == n)
  {
    var rows' := ListGroup(rows, chosen);
    if chosen.operation.AddNode? {
      assert rows'[|rows|] == chosen;
    }
    if Listed(rows, n) {
      var r :| r in rows && r.nodeId == n;
      assert r in rows';
    }
  }

  lemma ListGroupKeeps(t: Table, nodes: set<string>, rows: seq<Log>, chosen: Log)
    requires ListsOver(t, nodes, rows) && chosen.nodeId !in nodes
    requires chosen in Top(NodeRows(t, chosen.nodeId))
    ensures ListsOver(t, nodes + {chosen.nodeId}, ListGroup(rows, chosen))
  {
    var rows' := ListGroup(rows, chosen);
    forall n ensures Listed(rows', n) <==> Listed(rows, n) || (chosen.operation.AddNode? && chosen.nodeId == n) {
      ListedAfter(rows, chosen, n);
    }
    assert forall r :: r in rows' ==> r in rows || (r == chosen && chosen.operation.AddNode?);
    assert chosen in NodeRows(t, chosen.nodeId);
    forall i, j | 0 <= i < j < |rows'| ensures rows'[i].nodeId != rows'[j].nodeId {
      assert rows'[i] in rows;
    }
  }

  lemma AgreementWithoutTies(t: Table, node: string, rows: seq<Log>, refused: bool)
    requires !Ambiguous(t, node) && MayList(t, rows) && MayVerify(t, node, refused)
    ensures refused <==> Listed(rows, node)
  {
    var own := NodeRows(t, node);
    if own != {} {
      var any: Log :| any in own;
      assert any in t.Values && IsNodeRow(any, any.nodeId);
      assert node in NodesOf(t);
    }
  }

  /** A listing in which a chosen latest row speaks for its node. */
  lemma {:induction false} ListingExists(t: Table, pick: Log, nodes: set<string>) returns (rows: seq<Log>)
    requires pick in Top(NodeRows(t, pick.nodeId)) && nodes <= NodesOf(t)
    ensures ListsOver(t, nodes, rows)
    ensures pick.nodeId in nodes ==> (Listed(rows, pick.nodeId) <==> pick.operation.AddNode?)
    decreases |nodes|
  {
    if nodes == {} {
      rows := [];
    } else {
      var n :| n in nodes;
      var rest := ListingExists(t, pick, nodes - {n});
      var chosen := pick;
      if n != pick.nodeId {
        var some :| some in t.Values && IsNodeRow(some, n);
        assert some in NodeRows(t, n);
        chosen := TopExists(NodeRows(t, n));
      }
      assert chosen in NodeRows(t, n);
      rows := ListGroup(rest, chosen);
      ListGroupKeeps(t, nodes - {n}, rest, chosen);
      assert nodes - {n} + {n} == nodes;
      ListedAfter(rest, chosen, pick.nodeId);
    }
  }

  /**
   Authorized-node agreement: the check that a node does not exist and the
   list of nodes agree on every table and every tie-break if and only if no
   addition and removal of the node tie at its latest timestamp.
   */
  lemma NodeAgreement(t: Table, node: string)
    ensures (forall rows, refused :: MayList(t, rows) && MayVerify(t, node, refused) ==> (refused <==> Listed(rows, node)))
       <==> !Ambiguous(t, node)
  {
    if Ambiguous(t, node) {
      var a, b :| a in Top(NodeRows(t, node)) && b in Top(NodeRows(t, node)) && a.operation.AddNode? && b.operation.RemoveNode?;
      var rows := ListingExists(t, a, NodesOf(t));
      assert a in NodeRows(t, node) && a.nodeId == node && node in NodesOf(t);
      assert MayVerify(t, node, false);
      assert Listed(rows, node);
    } else {
      forall rows, refused | MayList(t, rows) && MayVerify(t, node, refused)
        ensures refused <==> Listed(rows, node)
      {
        AgreementWithoutTies(t, node, rows, refused);
      }
    }
  }

  // ------------------------------------------------------------------- writing

  /** `write_if_not_exists`. */
  function WriteIfNotExists(t: Table, log: Log): Table {
    if log.id in t then t else t[log.id := log]
  }

  function ReplayAll(t: Table, logs: seq<Log>): Table
    decreases |logs|
  {
    if logs == [] then t else ReplayAll(WriteIfNotExists(t, logs[0]), logs[1..])
  }

  /** One id names one log, in the table and in the logs. */
  ghost predicate IdsAgree(t: Table, logs: set<Log>) {
    && (forall a, b :: a in logs && b in logs && a.id == b.id ==> a == b)
    && (forall a :: a in logs && a.id in t ==> t[a.id] == a)
  }

  ghost function Ids(logs: seq<Log>): set<string> {
    set log | log in logs :: log.id
  }

  lemma ReplayStep(t: Table, logs: seq<Log>)
    requires Keyed(t) && IdsAgree(t, Elements(logs)) && logs != []
    ensures var t1 := WriteIfNotExists(t, logs[0]);
      && Keyed(t1) && IdsAgree(t1, Elements(logs[1..]))
      && t1.Keys == t.Keys + {logs[0].id} && t1[logs[0].id] == logs[0]
      && (forall id :: id in t ==> t1[id] == t[id])
      && Ids(logs) == {logs[0].id} + Ids(logs[1..])
  {
    assert logs[0] in Elements(logs) && Elements(logs[1..]) <= Elements(logs);
    assert forall log :: log in logs <==> log == logs[0] || log in logs[1..];
  }

  /** A replay loses no row, adds one row per new id, and stores no other content. */
  lemma {:induction false} ReplayContents(t: Table, logs: seq<Log>)
    requires Keyed(t) && IdsAgree(t, Elements(logs))
    ensures var t' := ReplayAll(t, logs);
      && Keyed(t')
      && t'.Keys == t.Keys + Ids(logs)
      && (forall id :: id in t ==> t'[id] == t[id])
      && (forall log :: log in logs ==> log.id in t' && t'[log.id] == log)
    decreases |logs|
  {
    hide Keyed, IdsAgree, WriteIfNotExists;
    if logs != [] {
      ReplayStep(t, logs);
      ReplayContents(WriteIfNotExists(t, logs[0]), logs[1..]);
      assert forall log :: log in logs ==> log == logs[0] || log in logs[1..];
    }
  }

  /**
   Log convergence: the table reached depends only on which logs arrived, not
   on their order or on repetitions.
   */
  lemma ReplayConverges(t: Table, xs: seq<Log>, ys: seq<Log>)
    requires Keyed(t) && IdsAgree(t, Elements(xs)) && Elements(xs) == Elements(ys)
    ensures ReplayAll(t, xs) == ReplayAll(t, ys)
  {
    ReplayContents(t, xs);
    ReplayContents(t, ys);
    assert forall log :: log in xs <==> log in Elements(xs);
    assert forall log :: log in ys <==> log in Elements(ys);
    var a, b := ReplayAll(t, xs), ReplayAll(t, ys);
    forall id | id in a ensures id in b && a[id] == b[id] {
      if id !in t {
        var log :| log in xs && log.id == id;
      }
    }
    forall id | id in b ensures id in a {
      if id !in t {
        var log :| log in ys && log.id == id;
      }
    }
  }
}
