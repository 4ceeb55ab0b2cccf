/**
 One node's blockchain (src/blockchain/src/blockchain.rs and
 src/blockchain_service/service.rs): what each operation does to the chain in
 memory and the directory.
 */
module NodeSpec {
  import opened Wrappers
  import opened Structures
  import opened Chain
  import opened Persistence

  /** `BlockchainService::add_block`. */
  function AddBlock(node: Node, ordinal: Ordinal, block: Block, os: SaveOutcome): (Node, Outcome) {
    if node.blocks == [] then
      if ordinal == 0 then SaveBlock(node, block, os) else (node, Ok(Unit))
    else
      var expected := node.blocks[|node.blocks| - 1].header.ordinal + 1;
      if expected == U128_LIMIT then (node, Err(OrdinalOverflow))
      else if ordinal > expected then (node, Err(LaggingBlockchainData))
      else if ordinal < expected then (node, Ok(Unit))
      else SaveBlock(node, block, os)
  }

  /** The chain half of `add_payload`: `Blockchain::add_block`. */
  function AddPayload(h: Hashing, node: Node, payload: Bytes, stamp: Stamp, os: SaveOutcome): (Node, Outcome) {
    if node.blocks == [] then (node, Err(EmptyBlockchain))
    else
      var last := node.blocks[|node.blocks| - 1];
      if last.header.ordinal + 1 == U128_LIMIT then (node, Err(OrdinalOverflow))
      else SaveBlock(node, Successor(h, last, payload, stamp), os)
  }

  /** The loop of `init_pull_from_others` from block `i` on: stops at the first error. */
  function AddFrom(node: Node, blocks: seq<Block>, oss: seq<SaveOutcome>, i: nat): (Node, Outcome)
    requires i <= |blocks| == |oss|
    decreases |blocks| - i
  {
    if i == |blocks| then (node, Ok(Unit))
    else
      var (node', r) := AddBlock(node, blocks[i].header.ordinal, blocks[i], oss[i]);
      if r.Err? then (node', r) else AddFrom(node', blocks, oss, i + 1)
  }

  function AddAll(node: Node, blocks: seq<Block>, oss: seq<SaveOutcome>): (Node, Outcome)
    requires |oss| == |blocks|
  {
    AddFrom(node, blocks, oss, 0)
  }

  // ------------------------------------------------------------------ one call

  lemma SuccessorIs(h: Hashing, last: Block, payload: Bytes, stamp: Stamp)
    requires last.header.ordinal + 1 < U128_LIMIT
    ensures var b := Successor(h, last, payload, stamp);
      b.header.ordinal == last.header.ordinal + 1 && Payloads(b.transactions) == [payload]
  {
    assert Successor(h, last, payload, stamp).transactions[1..] == [];
  }

  /** The block made on top of a well-numbered chain is saved in its place. */
  lemma AddPayloadExtends(h: Hashing, node: Node, payload: Bytes, stamp: Stamp, os: SaveOutcome)
    requires OrdinalsMatch(node.blocks) && HashLinked(h, node.blocks)
    ensures var (node', r) := AddPayload(h, node, payload, stamp, os);
      && node.blocks <= node'.blocks && OrdinalsMatch(node'.blocks) && HashLinked(h, node'.blocks)
      && (Mirrors(node) ==> Mirrors(node'))
      && (node.blocks != [] && |node.blocks| < U128_LIMIT ==>
            && |node'.blocks| == |node.blocks| + 1
            && Payloads(node'.blocks[|node.blocks|].transactions) == [payload]
            && r == if os.Saved? then Ok(Unit) else Err(IOError))
      && (FullyMirrors(node) && r.Ok? ==> FullyMirrors(node'))
      && (node.blocks == [] ==> node' == node && r == Err(EmptyBlockchain))
      && (|node.blocks| >= U128_LIMIT ==> node' == node && r == Err(OrdinalOverflow))
  {
    if node.blocks != [] {
      var last := node.blocks[|node.blocks| - 1];
      if last.header.ordinal + 1 < U128_LIMIT {
        var b := Successor(h, last, payload, stamp);
        SuccessorKeepsLink(h, node.blocks, payload, stamp);
        SuccessorIs(h, last, payload, stamp);
        SaveInPlace(node, b, os);
        hide HashLinked, Mirrors, FullyMirrors, Successor, SaveBlock;
      }
    }
  }

  /** A well-numbered chain with room for `n` more blocks. */
  ghost predicate Room(node: Node, n: nat) {
    node.blocks != [] && OrdinalsMatch(node.blocks) && |node.blocks| + n <= U128_LIMIT
  }

  /** With room, an append puts exactly one block with exactly that payload on top, and fails only if the save does. */
  lemma AddPayloadOnTop(h: Hashing, node: Node, payload: Bytes, stamp: Stamp, os: SaveOutcome)
    requires Room(node, 1)
    ensures var (node', r) := AddPayload(h, node, payload, stamp, os);
      && node.blocks <= node'.blocks && |node'.blocks| == |node.blocks| + 1 && OrdinalsMatch(node'.blocks)
      && Payloads(node'.blocks[|node.blocks|].transactions) == [payload]
      && r == if os.Saved? then Ok(Unit) else Err(IOError)
  {
    var b := Successor(h, node.blocks[|node.blocks| - 1], payload, stamp);
    SuccessorIs(h, node.blocks[|node.blocks| - 1], payload, stamp);
    SaveInPlace(node, b, os);
    hide Successor, SaveBlock, Mirrors, FullyMirrors;
  }

  /**
   A node whose chain is a prefix of `w` takes from `w[i]`, offered under
   ordinal `i`, exactly the block it lacks next, and nothing else changes.
   */
  lemma AddBlockFromPrefix(node: Node, w: seq<Block>, i: nat, os: SaveOutcome)
    requires OrdinalsMatch(w) && node.blocks <= w && i < |w| && |w| <= U128_LIMIT
    ensures var n := |node.blocks|;
      var (node', r) := AddBlock(node, i, w[i], os);
      && OrdinalsMatch(node.blocks)
      && (i != n || n == U128_LIMIT ==> node' == node)
      && (i == n ==> node'.blocks == w[..n + 1])
      && (n < U128_LIMIT ==>
            r == if 0 < n < i then Err(LaggingBlockchainData)
                 else if i == n && os != Saved then Err(IOError) else Ok(Unit))
      && (n == U128_LIMIT ==> r == Err(OrdinalOverflow))
      && (i == n && Mirrors(node) ==> Mirrors(node'))
  {
    var n := |node.blocks|;
    assert forall k :: 0 <= k < n ==> node.blocks[k] == w[k];
    if i == n {
      SaveInPlace(node, w[i], os);
      assert w[..n + 1] == node.blocks + [w[n]];
    }
  }

  /**
   The receiver goes by the wire ordinal.  A block offered under the next
   ordinal whose header says another one is kept in memory all the same: with a
   later header ordinal an error is reported, with an earlier one a success.
   */
  lemma MismatchedBlockStays(node: Node, block: Block, os: SaveOutcome)
    requires OrdinalsMatch(node.blocks) && |node.blocks| < U128_LIMIT && block.header.ordinal != |node.blocks|
    ensures var (node', r) := AddBlock(node, |node.blocks|, block, os);
      && node'.blocks == node.blocks + [block] && !OrdinalsMatch(node'.blocks)
      && (block.header.ordinal > |node.blocks| ==> r == Err(InvalidBlockchainLength(|node.blocks| + 1)) && node'.files == node.files)
      && (block.header.ordinal < |node.blocks| ==> (r.Ok? <==> os.Saved?))
  {
    SaveOutOfPlace(node, block, os);
    assert AddBlock(node, |node.blocks|, block, os) == SaveBlock(node, block, os);
    assert (node.blocks + [block])[|node.blocks|] == block;
  }

  /** A block at a position the chain has is taken for a duplicate: nothing changes and a success is reported. */
  lemma DuplicateIsIgnored(node: Node, k: nat, block: Block, os: SaveOutcome)
    requires OrdinalsMatch(node.blocks) && k < |node.blocks| < U128_LIMIT
    ensures AddBlock(node, k, block, os) == (node, Ok(Unit))
  {
  }

  /** The position of the first save at or after `from` that does not succeed. */
  function FirstFailure(oss: seq<SaveOutcome>, from: nat): (f: nat)
    ensures f <= |oss|
    ensures forall k :: from <= k < f ==> oss[k].Saved?
    ensures f < |oss| ==> f >= from && !oss[f].Saved?
    decreases |oss| - from
  {
    if from >= |oss| then |oss|
    else if !oss[from].Saved? then from
    else FirstFailure(oss, from + 1)
  }

  ghost function Max(a: nat, b: nat): nat { if a < b then b else a }

  /** The length a node of length `n` ends with when it pulls `|oss|` blocks. */
  ghost function PullLength(n: nat, oss: seq<SaveOutcome>): (l: nat)
    ensures l <= Max(n, |oss|)
  {
    var f := FirstFailure(oss, n);
    if f < |oss| then f + 1 else Max(n, |oss|)
  }

  ghost function PullResult(n: nat, oss: seq<SaveOutcome>): Outcome {
    if FirstFailure(oss, n) < |oss| then Err(IOError) else Ok(Unit)
  }

  lemma {:induction false} AddFromPrefix(node: Node, w: seq<Block>, oss: seq<SaveOutcome>, i: nat)
    requires OrdinalsMatch(w) && node.blocks <= w && |w| < U128_LIMIT
    requires i <= |node.blocks| && i <= |oss| <= |w|
    ensures var (node', r) := AddFrom(node, w[..|oss|], oss, i);
      && r == PullResult(|node.blocks|, oss)
      && node'.blocks == w[..PullLength(|node.blocks|, oss)]
    decreases |oss| - i
  {
    hide AddBlock, Mirrors;
    if i < |oss| {
      AddBlockFromPrefix(node, w, i, oss[i]);
      assert w[i].header.ordinal == i && w[..|oss|][i] == w[i];
      var (node', r) := AddBlock(node, i, w[i], oss[i]);
      assert w[..|oss|][i] == w[i];
      if i < |node.blocks| {
        AddFromPrefix(node, w, oss, i + 1);
      } else if oss[i].Saved? {
        AddFromPrefix(node', w, oss, i + 1);
      }
    }
  }

  /**
   Catch-up.  A node holding a prefix of `w` pulls the blocks `0..o` of `w`:
   if the saves it needs succeed it ends with the longer of the two prefixes;
   otherwise it stops right after the first block whose save failed.
   */
  lemma CatchUp(node: Node, w: seq<Block>, o: Ordinal, oss: seq<SaveOutcome>)
    requires OrdinalsMatch(w) && node.blocks <= w && |w| < U128_LIMIT
    requires o < |w| && |oss| == o + 1
    ensures var n := |node.blocks|;
      var pulled := RetrieveBlocks(w, 0, o);
      && |pulled| == |oss|
      && var (node', r) := AddAll(node, pulled, oss);
        && node.blocks <= node'.blocks <= w
        && (r.Ok? <==> forall k :: n <= k <= o ==> oss[k].Saved?)
        && (r.Ok? ==> |node'.blocks| == Max(n, o + 1))
        && (r.Err? ==> n < |node'.blocks| <= o + 1 && !oss[|node'.blocks| - 1].Saved?)
  {
    AddFromPrefix(node, w, oss, 0);
    assert RetrieveBlocks(w, 0, o) == w[..o + 1];
  }

  /** Whatever fails, a pull from a prefix of `w` leaves a prefix of `w`. */
  lemma {:induction false} AddFromKeepsPrefix(node: Node, w: seq<Block>, oss: seq<SaveOutcome>, i: nat)
    requires OrdinalsMatch(w) && node.blocks <= w && |w| <= U128_LIMIT
    requires i <= |node.blocks| && i <= |oss| <= |w|
    ensures var (node', r) := AddFrom(node, w[..|oss|], oss, i);
      && node.blocks <= node'.blocks <= w
      && (r.Ok? ==> |node'.blocks| >= |oss|)
    decreases |oss| - i
  {
    hide AddBlock, Mirrors;
    if i < |oss| {
      AddBlockFromPrefix(node, w, i, oss[i]);
      assert w[i].header.ordinal == i && w[..|oss|][i] == w[i];
      var (node', r) := AddBlock(node, w[i].header.ordinal, w[i], oss[i]);
      if r.Ok? {
        AddFromKeepsPrefix(node', w, oss, i + 1);
      }
    }
  }

  /**
   Why one writer: two nodes that append to the same chain part for good.  Each
   takes the other's block for a duplicate and reports success.
   */
  lemma TwoWritersPart(h: Hashing, a: Node, b: Node, p: Bytes, q: Bytes, s: Stamp, t: Stamp, os: SaveOutcome)
    requires OrdinalsMatch(a.blocks) && HashLinked(h, a.blocks) && a.blocks == b.blocks != []
    requires |a.blocks| + 1 < U128_LIMIT && p != q
    ensures var n := |a.blocks|;
      var a', b' := AddPayload(h, a, p, s, os).0, AddPayload(h, b, q, t, os).0;
      && |a'.blocks| == |b'.blocks| == n + 1
      && a'.blocks[n] != b'.blocks[n]
      && AddBlock(a', n, b'.blocks[n], os) == (a', Ok(Unit))
      && AddBlock(b', n, a'.blocks[n], os) == (b', Ok(Unit))
  {
    AddPayloadExtends(h, a, p, s, os);
    AddPayloadExtends(h, b, q, t, os);
  }
}
