/**
 Blocks, headers and the hash link (src/blockchain/src/structures).

 Keccak-256 over bincode is a pair of functions held in `Hashing`; nothing is
 assumed about them.  Clock, nonce and signature values are inputs.
 */
module Structures {

  type Byte = b: int | 0 <= b < 256

  type Bytes = seq<Byte>

  type Digest = Bytes

  type Address = Bytes

  /** One past the largest `u128`. */
  const U128_LIMIT: nat := 0x1_0000_0000_0000_0000_0000_0000_0000_0000

  type Ordinal = n: nat | n < U128_LIMIT

  datatype Transaction = Transaction(
    submitter: Address,
    timestamp: nat,
    payload: Bytes,
    nonce: nat,
    hash: Digest,
    signature: Bytes)

  datatype PartialHeader = PartialHeader(
    parentHash: Digest,
    transactionsHash: Digest,
    committer: Address,
    timestamp: nat,
    ordinal: Ordinal,
    nonce: nat)

  datatype Header = Header(
    parentHash: Digest,
    transactionsHash: Digest,
    committer: Address,
    timestamp: nat,
    ordinal: Ordinal,
    nonce: nat,
    hash: Digest)
  {
    function Partial(): PartialHeader {
      PartialHeader(parentHash, transactionsHash, committer, timestamp, ordinal, nonce)
    }
  }

  datatype Block = Block(header: Header, transactions: seq<Transaction>, signature: Bytes)

  /** `header` is `calculate_hash`, `transactions` the transaction root, `empty` the digest of no bytes. */
  datatype Hashing = Hashing(
    header: PartialHeader -> Digest,
    transactions: seq<Transaction> -> Digest,
    empty: Digest)

  /** What a new block takes from the clock, the random generator and the key pair. */
  datatype Stamp = Stamp(
    committer: Address,
    timestamp: nat,
    nonce: nat,
    signature: Bytes,
    transaction: Transaction)

  function NewHeader(h: Hashing, parentHash: Digest, transactionsHash: Digest, ordinal: Ordinal, stamp: Stamp): Header {
    var p := PartialHeader(parentHash, transactionsHash, stamp.committer, stamp.timestamp, ordinal, stamp.nonce);
    Header(parentHash, transactionsHash, stamp.committer, stamp.timestamp, ordinal, stamp.nonce, h.header(p))
  }

  function NewBlock(h: Hashing, parentHash: Digest, ordinal: Ordinal, transactions: seq<Transaction>, stamp: Stamp): Block {
    Block(NewHeader(h, parentHash, h.transactions(transactions), ordinal, stamp), transactions, stamp.signature)
  }

  function Genesis(h: Hashing, stamp: Stamp): Block {
    NewBlock(h, h.empty, 0, [stamp.transaction], stamp)
  }

  /** The block `Blockchain::add_block` makes on top of `last`: one transaction carrying the payload. */
  function Successor(h: Hashing, last: Block, payload: Bytes, stamp: Stamp): Block
    requires last.header.ordinal + 1 < U128_LIMIT
  {
    NewBlock(h, last.header.hash, last.header.ordinal + 1, [stamp.transaction.(payload := payload)], stamp)
  }

  /** A new block says who made it and when, with the nonce and signature it was given; its one transaction is the submitted one. */
  lemma NewBlockIsStamped(h: Hashing, last: Block, payload: Bytes, stamp: Stamp)
    requires last.header.ordinal + 1 < U128_LIMIT
    ensures forall b :: b in {Genesis(h, stamp), Successor(h, last, payload, stamp)} ==>
      && b.header.committer == stamp.committer && b.header.timestamp == stamp.timestamp
      && b.header.nonce == stamp.nonce && b.signature == stamp.signature
    ensures Genesis(h, stamp).transactions == [stamp.transaction]
    ensures var ts := Successor(h, last, payload, stamp).transactions;
      |ts| == 1 && ts[0].payload == payload && ts[0].(payload := stamp.transaction.payload) == stamp.transaction
  {
  }

  function Payloads(transactions: seq<Transaction>): seq<Bytes> {
    if transactions == [] then [] else [transactions[0].payload] + Payloads(transactions[1..])
  }

  lemma {:induction false} PayloadAt(ts: seq<Transaction>, i: nat)
    ensures |Payloads(ts)| == |ts| && (i < |ts| ==> Payloads(ts)[i] == ts[i].payload)
  {
    if ts != [] {
      PayloadAt(ts[1..], if i > 0 then i - 1 else 0);
    }
  }

  lemma {:induction false} PayloadsOfPrefix(ts: seq<Transaction>, n: nat)
    requires n < |ts|
    ensures Payloads(ts[..n + 1]) == Payloads(ts[..n]) + [ts[n].payload]
  {
    if n == 0 {
      assert ts[..1][1..] == [];
    } else {
      PayloadsOfPrefix(ts[1..], n - 1);
      assert ts[..n + 1][1..] == ts[1..][..n];
      assert ts[..n][1..] == ts[1..][..n - 1];
    }
  }

  /** `Block::fetch_payload`. */
  method FetchPayload(block: Block) returns (result: seq<Bytes>)
    ensures |result| == |block.transactions|
    ensures forall i :: 0 <= i < |result| ==> result[i] == block.transactions[i].payload
    ensures result == Payloads(block.transactions)
  {
    var ts := block.transactions;
    result := [];
    for i := 0 to |ts|
      invariant |result| == i
      invariant forall k :: 0 <= k < i ==> result[k] == ts[k].payload
      invariant result == Payloads(ts[..i])
    {
      PayloadsOfPrefix(ts, i);
      result := result + [ts[i].payload];
    }
    assert ts[..|ts|] == ts;
  }

  // ---------------------------------------------------------------- hash link

  /** The header hash and the transaction root are the ones the constructors compute. */
  ghost predicate Sealed(h: Hashing, b: Block) {
    && b.header.hash == h.header(b.header.Partial())
    && b.header.transactionsHash == h.transactions(b.transactions)
  }

  ghost predicate Linked(prev: Block, next: Block) {
    && next.header.parentHash == prev.header.hash
    && next.header.ordinal == prev.header.ordinal + 1
  }

  ghost predicate HashLinked(h: Hashing, blocks: seq<Block>) {
    && (forall i :: 0 <= i < |blocks| ==> Sealed(h, blocks[i]))
    && (blocks != [] ==> blocks[0].header.ordinal == 0 && blocks[0].header.parentHash == h.empty)
    && (forall i :: 0 <= i < |blocks| - 1 ==> Linked(blocks[i], blocks[i + 1]))
  }

  lemma GenesisIsLinked(h: Hashing, stamp: Stamp)
    ensures HashLinked(h, [Genesis(h, stamp)])
  {
  }

  /** Every block the writer appends keeps the whole chain hash-linked. */
  lemma SuccessorKeepsLink(h: Hashing, blocks: seq<Block>, payload: Bytes, stamp: Stamp)
    requires blocks != [] && HashLinked(h, blocks)
    requires blocks[|blocks| - 1].header.ordinal + 1 < U128_LIMIT
    ensures HashLinked(h, blocks + [Successor(h, blocks[|blocks| - 1], payload, stamp)])
  {
    var last := blocks[|blocks| - 1];
    var b := Successor(h, last, payload, stamp);
    var longer := blocks + [b];
    assert Sealed(h, b) && Linked(last, b);
    forall i | 0 <= i < |longer| - 1 ensures Linked(longer[i], longer[i + 1]) {
      if i < |blocks| - 1 {
        assert Linked(blocks[i], blocks[i + 1]);
      }
    }
  }

  /** A hash-linked chain numbers its blocks from zero without gaps. */
  lemma {:induction false} LinkedOrdinals(h: Hashing, blocks: seq<Block>, i: nat)
    requires HashLinked(h, blocks) && i < |blocks|
    ensures blocks[i].header.ordinal == i
  {
    if i > 0 {
      LinkedOrdinals(h, blocks, i - 1);
      assert Linked(blocks[i - 1], blocks[i - 1 + 1]);
    }
  }

  // ---------------------------------------------------------- tip commitment

  /** The two blocks exhibit two different inputs with one digest. */
  ghost predicate Collide(h: Hashing, a: Block, b: Block) {
    || (a.header.Partial() != b.header.Partial() && h.header(a.header.Partial()) == h.header(b.header.Partial()))
    || (a.transactions != b.transactions && h.transactions(a.transactions) == h.transactions(b.transactions))
  }

  /** The blocks `k` below the two tips collide. */
  ghost predicate CollideBelow(h: Hashing, c: seq<Block>, d: seq<Block>, k: nat) {
    k < |c| && k < |d| && Collide(h, c[|c| - 1 - k], d[|d| - 1 - k])
  }

  /** A collision sits at the same distance from the tips of the two chains. */
  ghost predicate CollisionAlong(h: Hashing, c: seq<Block>, d: seq<Block>) {
    exists k: nat :: CollideBelow(h, c, d, k)
  }

  /** Equal headers and equal transaction lists, block by block. */
  ghost predicate SameContent(c: seq<Block>, d: seq<Block>) {
    && |c| == |d|
    && forall i :: 0 <= i < |c| ==> c[i].header == d[i].header && c[i].transactions == d[i].transactions
  }

  lemma DropTipKeepsLink(h: Hashing, c: seq<Block>)
    requires c != [] && HashLinked(h, c)
    ensures HashLinked(h, c[..|c| - 1])
  {
    var d := c[..|c| - 1];
    forall i | 0 <= i < |d| - 1 ensures Linked(d[i], d[i + 1]) {
      assert Linked(c[i], c[i + 1]);
    }
  }

  /**
   The tip hash commits to the whole chain: two hash-linked chains with one tip
   hash agree on every header and every transaction list, or they exhibit a
   collision of the hash at a known position.
   */
  lemma {:induction false} TipCommitment(h: Hashing, c: seq<Block>, d: seq<Block>)
    requires HashLinked(h, c) && HashLinked(h, d) && c != [] && d != []
    requires c[|c| - 1].header.hash == d[|d| - 1].header.hash
    ensures SameContent(c, d) || CollisionAlong(h, c, d)
    decreases |c|
  {
    var a, b := c[|c| - 1], d[|d| - 1];
    assert Sealed(h, a) && Sealed(h, b);
    if Collide(h, a, b) {
      assert CollideBelow(h, c, d, 0);
    } else {
      LinkedOrdinals(h, c, |c| - 1);
      LinkedOrdinals(h, d, |d| - 1);
      assert |c| == |d| && a.header == b.header && a.transactions == b.transactions;
      if |c| > 1 {
        TipCommitmentBelow(h, c, d);
      }
    }
  }

  lemma TipOnTop(c: seq<Block>, d: seq<Block>)
    requires |c| == |d| > 0 && SameContent(c[..|c| - 1], d[..|d| - 1])
    requires c[|c| - 1].header == d[|d| - 1].header
    requires c[|c| - 1].transactions == d[|d| - 1].transactions
    ensures SameContent(c, d)
  {
    var n := |c|;
    forall i | 0 <= i < n
      ensures c[i].header == d[i].header && c[i].transactions == d[i].transactions
    {
      if i < n - 1 {
        assert c[..n - 1][i] == c[i] && d[..n - 1][i] == d[i];
      }
    }
  }

  lemma {:induction false} TipCommitmentBelow(h: Hashing, c: seq<Block>, d: seq<Block>)
    requires HashLinked(h, c) && HashLinked(h, d) && |c| == |d| > 1
    requires c[|c| - 1].header == d[|d| - 1].header
    requires c[|c| - 1].transactions == d[|d| - 1].transactions
    ensures SameContent(c, d) || CollisionAlong(h, c, d)
    decreases |c|, 0
  {
    var n := |c|;
    var c', d' := c[..n - 1], d[..n - 1];
    DropTipKeepsLink(h, c);
    DropTipKeepsLink(h, d);
    assert Linked(c[n - 2], c[n - 2 + 1]) && Linked(d[n - 2], d[n - 2 + 1]);
    TipCommitment(h, c', d');
    hide HashLinked, Linked, SameContent, CollisionAlong;
    if SameContent(c', d') {
      TipOnTop(c, d);
    } else {
      CollisionOneLower(h, c, d);
    }
  }

  lemma CollisionOneLower(h: Hashing, c: seq<Block>, d: seq<Block>)
    requires |c| == |d| > 1 && CollisionAlong(h, c[..|c| - 1], d[..|d| - 1])
    ensures CollisionAlong(h, c, d)
  {
    var n := |c|;
    var k: nat :| CollideBelow(h, c[..n - 1], d[..n - 1], k);
    assert c[..n - 1][n - 2 - k] == c[n - 1 - (k + 1)] && d[..n - 1][n - 2 - k] == d[n - 1 - (k + 1)];
    assert CollideBelow(h, c, d, k + 1);
  }
}
