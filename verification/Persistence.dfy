/**
 Saving and loading blocks (src/blockchain/src/structures/chain.rs and
 src/blockchain/src/blockchain.rs).

 The directory is a map from the number in a file's name to its content; the
 operating system's part in a save is an input.
 */
module Persistence {
  import opened Wrappers
  import opened Structures
  import opened Chain

  /** `Torn` is a file whose bytes do not deserialize. */
  datatype File = Whole(block: Block) | Torn

  type Files = map<nat, File>

  /** How the operating system treats one `save_block`. */
  datatype SaveOutcome = Saved | OpenFailed | WriteFailed | SyncFailed

  /** A `Blockchain`: the chain in memory and the directory it is saved in. */
  datatype Node = Node(blocks: seq<Block>, files: Files)

  type Outcome = Result<Unit, BlockchainError>

  /** `Blockchain::save_block`: the block is pushed first, and stays whatever the save does. */
  function SaveBlock(node: Node, block: Block, os: SaveOutcome): (Node, Outcome) {
    var blocks := node.blocks + [block];
    var o := block.header.ordinal;
    match GetBlockPosition(blocks, o)
    case None => (node.(blocks := blocks), Err(InvalidBlockchainLength(|blocks|)))
    case Some(p) =>
      match os
      case OpenFailed => (Node(blocks, node.files), Err(IOError))
      case WriteFailed => (Node(blocks, node.files[o := Torn]), Err(IOError))
      case SyncFailed => (Node(blocks, node.files[o := Whole(blocks[p])]), Err(IOError))
      case Saved => (Node(blocks, node.files[o := Whole(blocks[p])]), Ok(Unit))
  }

  ghost function FilesFrom(files: Files, i: nat): set<nat> {
    set k | k in files && k >= i
  }

  /** `Chain::load_blocks` from file `i` on. */
  function LoadFrom(files: Files, i: nat): (r: Result<seq<Block>, BlockchainError>)
    decreases FilesFrom(files, i)
  {
    if i !in files then Ok([])
    else match files[i]
      case Torn => Err(SerializationError)
      case Whole(b) =>
        assert i in FilesFrom(files, i) && i !in FilesFrom(files, i + 1);
        match LoadFrom(files, i + 1)
        case Err(e) => Err(e)
        case Ok(rest) => Ok([b] + rest)
  }

  function Load(files: Files): Result<seq<Block>, BlockchainError> {
    LoadFrom(files, 0)
  }

  /** `Blockchain::new`: load, and make the genesis block only if nothing was loaded. */
  function Open(h: Hashing, files: Files, stamp: Stamp, os: SaveOutcome): Result<Node, BlockchainError> {
    match Load(files)
    case Err(e) => Err(e)
    case Ok(blocks) =>
      if blocks != [] then Ok(Node(blocks, files))
      else
        var (node, r) := SaveBlock(Node([], files), Genesis(h, stamp), os);
        if r.Ok? then Ok(node) else Err(r.error)
  }

  // ------------------------------------------------------- what a load returns

  ghost predicate HoldsFrom(files: Files, blocks: seq<Block>, i: nat) {
    && (forall j :: i <= j < i + |blocks| ==> j in files && files[j] == Whole(blocks[j - i]))
    && i + |blocks| !in files
  }

  lemma {:induction false} LoadFromExact(files: Files, blocks: seq<Block>, i: nat)
    ensures LoadFrom(files, i) == Ok(blocks) <==> HoldsFrom(files, blocks, i)
    decreases FilesFrom(files, i)
  {
    if i in files {
      assert i in FilesFrom(files, i) && i !in FilesFrom(files, i + 1);
      if blocks != [] {
        LoadFromExact(files, blocks[1..], i + 1);
        if LoadFrom(files, i) == Ok(blocks) {
          assert blocks == [blocks[0]] + blocks[1..];
        }
        if files[i] == Whole(blocks[0]) && LoadFrom(files, i + 1) == Ok(blocks[1..]) {
          assert [blocks[0]] + blocks[1..] == blocks;
        }
      }
    }
  }

  /**
   A load returns exactly `blocks` if and only if every block has its whole
   file and no file carries the next number.
   */
  lemma LoadExact(files: Files, blocks: seq<Block>)
    ensures Load(files) == Ok(blocks)
       <==> (forall i :: 0 <= i < |blocks| ==> i in files && files[i] == Whole(blocks[i])) && |blocks| !in files
  {
    LoadFromExact(files, blocks, 0);
  }

  /** The first file that is not whole, from `i` on, is torn. */
  ghost predicate TornAt(files: Files, i: nat, k: nat) {
    && i <= k && k in files && files[k].Torn?
    && forall j :: i <= j < k ==> j in files && files[j].Whole?
  }

  /** A load fails exactly if it meets a torn file before a missing one. */
  lemma {:induction false} LoadFailsIff(files: Files, i: nat)
    ensures LoadFrom(files, i).Err? <==> exists k: nat :: TornAt(files, i, k)
    ensures LoadFrom(files, i).Err? ==> LoadFrom(files, i).error == SerializationError
    decreases FilesFrom(files, i)
  {
    if i in files {
      assert i in FilesFrom(files, i) && i !in FilesFrom(files, i + 1);
      if files[i].Torn? {
        assert TornAt(files, i, i);
      } else {
        LoadFailsIff(files, i + 1);
        var next := i + 1;
        if k: nat :| TornAt(files, next, k) { assert TornAt(files, i, k); }
        if k: nat :| TornAt(files, i, k) { assert TornAt(files, next, k); }
      }
    }
  }

  // ---------------------------------------------------- runs of one blockchain

  /** Every file belongs to a block in memory, and a whole one holds that block. */
  ghost predicate Mirrors(node: Node) {
    forall k :: k in node.files ==> k < |node.blocks| && (node.files[k].Whole? ==> node.files[k].block == node.blocks[k])
  }

  /** The first block has its whole file. */
  ghost predicate GenesisSaved(node: Node) {
    node.blocks != [] && 0 in node.files && node.files[0] == Whole(node.blocks[0])
  }

  /** Every block in memory has its whole file, and there is no other file. */
  ghost predicate FullyMirrors(node: Node) {
    Mirrors(node) && forall k :: 0 <= k < |node.blocks| ==> k in node.files && node.files[k].Whole?
  }

  /** A save in the right place never reports an invalid length; it fails only if the system does. */
  lemma SaveInPlace(node: Node, block: Block, os: SaveOutcome)
    requires OrdinalsMatch(node.blocks) && block.header.ordinal == |node.blocks|
    ensures var (node', r) := SaveBlock(node, block, os);
      && node'.blocks == node.blocks + [block] && OrdinalsMatch(node'.blocks)
      && (r == if os == Saved then Ok(Unit) else Err(IOError))
      && (forall k :: k != |node.blocks| ==> (k in node'.files <==> k in node.files))
      && (forall k :: k != |node.blocks| && k in node.files ==> node'.files[k] == node.files[k])
      && (os.OpenFailed? ==> node'.files == node.files)
      && (!os.OpenFailed? ==>
            |node.blocks| in node'.files && node'.files[|node.blocks|] == if os.WriteFailed? then Torn else Whole(block))
      && (Mirrors(node) ==> Mirrors(node'))
      && (FullyMirrors(node) && os.Saved? ==> FullyMirrors(node'))
  {
  }

  /**
   A block that does not belong at the end of the chain stays in memory.  With a
   later ordinal it is an error and no file is touched; with an earlier one the
   block already there is saved again, and a success is reported.
   */
  lemma SaveOutOfPlace(node: Node, block: Block, os: SaveOutcome)
    requires OrdinalsMatch(node.blocks) && block.header.ordinal != |node.blocks|
    ensures var (node', r) := SaveBlock(node, block, os);
      && node'.blocks == node.blocks + [block]
      && (block.header.ordinal > |node.blocks| ==> r == Err(InvalidBlockchainLength(|node.blocks| + 1)) && node'.files == node.files)
      && (block.header.ordinal < |node.blocks| ==>
            && !OrdinalsMatch(node'.blocks) && (r == if os.Saved? then Ok(Unit) else Err(IOError))
            && (os.Saved? ==> node'.files == node.files[block.header.ordinal := Whole(node.blocks[block.header.ordinal])]))
  {
  }

  /** One append: the block, and what the system does with its save. */
  datatype Append = Append(block: Block, os: SaveOutcome)

  function SaveAll(node: Node, appends: seq<Append>): Node
    decreases |appends|
  {
    if appends == [] then node
    else SaveAll(SaveBlock(node, appends[0].block, appends[0].os).0, appends[1..])
  }

  ghost predicate Numbered(appends: seq<Append>, first: nat) {
    forall i :: 0 <= i < |appends| ==> appends[i].block.header.ordinal == first + i
  }

  lemma {:induction false} SaveAllMirrors(node: Node, appends: seq<Append>)
    requires OrdinalsMatch(node.blocks) && Mirrors(node) && Numbered(appends, |node.blocks|)
    ensures Mirrors(SaveAll(node, appends)) && OrdinalsMatch(SaveAll(node, appends).blocks)
    ensures |SaveAll(node, appends).blocks| == |node.blocks| + |appends|
    ensures FullyMirrors(node) && (forall a :: a in appends ==> a.os.Saved?) ==> FullyMirrors(SaveAll(node, appends))
    decreases |appends|
  {
    if appends != [] {
      SaveInPlace(node, appends[0].block, appends[0].os);
      var node' := SaveBlock(node, appends[0].block, appends[0].os).0;
      assert Numbered(appends[1..], |node'.blocks|) by {
        forall i | 0 <= i < |appends[1..]| ensures appends[1..][i].block.header.ordinal == |node'.blocks| + i {
          assert appends[1..][i] == appends[i + 1];
        }
      }
      SaveAllMirrors(node', appends[1..]);
    }
  }

  lemma {:induction false} MirrorLoadsPrefix(node: Node, i: nat)
    requires Mirrors(node) && i <= |node.blocks|
    ensures var r := LoadFrom(node.files, i); r.Ok? ==> r.value <= node.blocks[i..]
    ensures (forall k :: k in node.files ==> node.files[k].Whole?) ==> LoadFrom(node.files, i).Ok?
    decreases |node.blocks| - i
  {
    if i in node.files {
      MirrorLoadsPrefix(node, i + 1);
      assert node.blocks[i..] == [node.blocks[i]] + node.blocks[i + 1..];
    }
  }

  /**
   Persistence of one run from an empty directory, whatever saves fail: a load
   gives a prefix of the chain in memory unless it stops at a torn file, and it
   gives all of it if and only if every block's file is whole.
   */
  lemma LoadAfterRun(appends: seq<Append>)
    requires Numbered(appends, 0)
    ensures var node := SaveAll(Node([], map[]), appends);
      && (Load(node.files).Ok? ==> Load(node.files).value <= node.blocks)
      && ((forall k :: k in node.files ==> node.files[k].Whole?) ==> Load(node.files).Ok?)
      && (Load(node.files) == Ok(node.blocks) <==> FullyMirrors(node))
      && ((forall a :: a in appends ==> a.os.Saved?) ==> FullyMirrors(node))
  {
    SaveAllMirrors(Node([], map[]), appends);
    var node := SaveAll(Node([], map[]), appends);
    MirrorLoadsPrefix(node, 0);
    assert node.blocks[0..] == node.blocks;
    LoadExact(node.files, node.blocks);
    assert |node.blocks| !in node.files;
  }

  /** The first start in an empty directory makes and saves the genesis block. */
  lemma OpenEmpty(h: Hashing, stamp: Stamp)
    ensures var genesis := Genesis(h, stamp);
      var node := Node([genesis], map[0 := Whole(genesis)]);
      Open(h, map[], stamp, Saved) == Ok(node) && FullyMirrors(node)
  {
    OpenWithoutFirst(h, map[], stamp, Saved);
  }

  /** Without a first file, whatever else is there, a start makes the genesis block, and fails if its save does. */
  lemma OpenWithoutFirst(h: Hashing, files: Files, stamp: Stamp, os: SaveOutcome)
    requires 0 !in files
    ensures var genesis := Genesis(h, stamp);
      Open(h, files, stamp, os) ==
      if os.Saved? then Ok(Node([genesis], files[0 := Whole(genesis)])) else Err(IOError)
  {
    assert Load(files) == Ok([]);
    assert [] + [Genesis(h, stamp)] == [Genesis(h, stamp)];
  }

  /** A restart over a complete directory gives back the chain and makes no genesis block. */
  lemma RestartRestores(h: Hashing, node: Node, stamp: Stamp, os: SaveOutcome)
    requires FullyMirrors(node) && node.blocks != []
    ensures Open(h, node.files, stamp, os) == Ok(node)
  {
    LoadExact(node.files, node.blocks);
  }

  /** One lost save leaves a gap: the load stops before it, whatever was saved later. */
  lemma GapCutsLoad(a: Block, lost: Block, stale: Block)
    requires a.header.ordinal == 0 && lost.header.ordinal == 1 && stale.header.ordinal == 2
    ensures
      var gap := SaveBlock(Node([a], map[0 := Whole(a)]), lost, OpenFailed).0;
      var node := SaveBlock(gap, stale, Saved).0;
      && node == Node([a, lost, stale], map[0 := Whole(a), 2 := Whole(stale)])
      && Load(node.files) == Ok([a])
  {
    assert SaveBlock(Node([a], map[0 := Whole(a)]), lost, OpenFailed).0 == Node([a, lost], map[0 := Whole(a)]);
    LoadExact(map[0 := Whole(a), 2 := Whole(stale)], [a]);
  }

  /**
   The load is not always a chain anybody held: after such a gap and a restart,
   one more append `c` makes the next load take up the stale file.
   */
  lemma StaleFileComesBack(a: Block, stale: Block, c: Block)
    requires c.header.ordinal == 1 && a.header.ordinal == 0
    ensures var node := SaveBlock(Node([a], map[0 := Whole(a), 2 := Whole(stale)]), c, Saved).0;
      node.blocks == [a, c] && Load(node.files) == Ok([a, c, stale])
  {
    var node := SaveBlock(Node([a], map[0 := Whole(a), 2 := Whole(stale)]), c, Saved).0;
    assert node.files == map[0 := Whole(a), 1 := Whole(c), 2 := Whole(stale)];
    LoadExact(node.files, [a, c, stale]);
  }
}
