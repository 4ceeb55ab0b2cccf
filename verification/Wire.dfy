/**
 The frames nodes exchange (src/blockchain_service/service.rs and
 pyrsia_node/src/network/handlers.rs).

 A frame is one command byte, then 16-byte little-endian ordinals, then a
 block.  The encoding of a block is a pair of functions: bincode is
 self-delimiting and ignores what follows a value.
 */
module Wire {
  import opened Wrappers
  import opened Structures

  const BLOCKCHAIN_COMMAND_LENGTH := 1
  const BLOCKCHAIN_ORDINAL_LENGTH := 16
  const U64_LIMIT: nat := 0x1_0000_0000_0000_0000

  datatype BlockCodec = BlockCodec(encode: Block -> Bytes, decode: Bytes -> Option<(Block, Bytes)>)

  ghost predicate SelfDelimiting(codec: BlockCodec) {
    forall b: Block, rest: Bytes :: codec.decode(codec.encode(b) + rest) == Some((b, rest))
  }

  // ------------------------------------------------------ little-endian numbers

  function LittleEndian(n: nat, size: nat): (r: Bytes)
    ensures |r| == size
  {
    if size == 0 then [] else [n % 256] + LittleEndian(n / 256, size - 1)
  }

  function Number(bytes: Bytes): nat {
    if bytes == [] then 0 else bytes[0] + 256 * Number(bytes[1..])
  }

  function Power256(size: nat): (r: nat)
    ensures r > 0
  {
    if size == 0 then 1 else 256 * Power256(size - 1)
  }

  lemma {:induction false} NumberOfLittleEndian(n: nat, size: nat)
    requires n < Power256(size)
    ensures Number(LittleEndian(n, size)) == n
  {
    if size > 0 {
      assert n / 256 < Power256(size - 1);
      NumberOfLittleEndian(n / 256, size - 1);
      assert LittleEndian(n, size)[1..] == LittleEndian(n / 256, size - 1);
    }
  }

  lemma {:induction false} LittleEndianOfNumber(bytes: Bytes)
    ensures Number(bytes) < Power256(|bytes|)
    ensures LittleEndian(Number(bytes), |bytes|) == bytes
  {
    if bytes != [] {
      LittleEndianOfNumber(bytes[1..]);
      var rest := Number(bytes[1..]);
      assert (bytes[0] + 256 * rest) / 256 == rest && (bytes[0] + 256 * rest) % 256 == bytes[0];
    }
  }

  lemma PowersOf256()
    ensures Power256(8) == U64_LIMIT && Power256(16) == U128_LIMIT
  {
    assert Power256(4) == 0x1_0000_0000;
    assert Power256(8) == 256 * 256 * 256 * 256 * Power256(4);
    assert Power256(12) == 256 * 256 * 256 * 256 * Power256(8);
    assert Power256(16) == 256 * 256 * 256 * 256 * Power256(12);
  }

  function SerializeOrdinal(o: Ordinal): (r: Bytes)
    ensures |r| == BLOCKCHAIN_ORDINAL_LENGTH
  {
    LittleEndian(o, BLOCKCHAIN_ORDINAL_LENGTH)
  }

  function DeserializeOrdinal(data: Bytes): (r: Option<Ordinal>)
    ensures r.Some? <==> |data| >= BLOCKCHAIN_ORDINAL_LENGTH
  {
    if |data| < BLOCKCHAIN_ORDINAL_LENGTH then None
    else
      LittleEndianOfNumber(data[..BLOCKCHAIN_ORDINAL_LENGTH]);
      PowersOf256();
      Some(Number(data[..BLOCKCHAIN_ORDINAL_LENGTH]))
  }

  /** Reading back an ordinal, whatever follows it; and every 16 bytes are some ordinal. */
  lemma OrdinalRoundTrip(o: Ordinal, rest: Bytes)
    ensures DeserializeOrdinal(SerializeOrdinal(o) + rest) == Some(o)
    ensures |rest| == BLOCKCHAIN_ORDINAL_LENGTH ==> SerializeOrdinal(DeserializeOrdinal(rest).value) == rest
  {
    var data := SerializeOrdinal(o) + rest;
    assert data[..BLOCKCHAIN_ORDINAL_LENGTH] == SerializeOrdinal(o);
    PowersOf256();
    NumberOfLittleEndian(o, BLOCKCHAIN_ORDINAL_LENGTH);
    if |rest| == BLOCKCHAIN_ORDINAL_LENGTH {
      assert rest[..BLOCKCHAIN_ORDINAL_LENGTH] == rest;
      LittleEndianOfNumber(rest);
    }
  }

  // ------------------------------------------------------------------- frames

  datatype Command = Broadcast | PushToPeer | PullFromPeer | QueryHighestBlockOrdinal

  function CommandByte(c: Command): Byte {
    match c
    case Broadcast => 1
    case PushToPeer => 2
    case PullFromPeer => 3
    case QueryHighestBlockOrdinal => 4
  }

  /** `BlockchainCommand::try_from`. */
  function CommandOf(value: Byte): (r: Option<Command>)
    ensures forall c :: r == Some(c) <==> CommandByte(c) == value
  {
    if value == 1 then Some(Broadcast)
    else if value == 2 then Some(PushToPeer)
    else if value == 3 then Some(PullFromPeer)
    else if value == 4 then Some(QueryHighestBlockOrdinal)
    else None
  }

  /** The four commands of the protocol, and nothing else is one. */
  lemma CommandBytes()
    ensures CommandOf(1) == Some(Broadcast) && CommandOf(2) == Some(PushToPeer)
    ensures CommandOf(3) == Some(PullFromPeer) && CommandOf(4) == Some(QueryHighestBlockOrdinal)
    ensures forall value: Byte :: value == 0 || value > 4 ==> CommandOf(value).None?
  {
  }

  datatype Request =
    | BroadcastBlock(ordinal: Ordinal, block: Block)
    | PullBlocks(start: Ordinal, end: Ordinal)
    | QueryOrdinal

  /** `Panics` stands for an out-of-range slice or the unwritten `PushToPeer` branch. */
  datatype Decoded = Accepted(request: Request) | Rejected | Panics

  /** The decoding half of `handle_incoming_blockchain_command`. */
  function Decode(codec: BlockCodec, data: Bytes): Decoded {
    if data == [] then Panics
    else match CommandOf(data[0])
      case None => Rejected
      case Some(Broadcast) =>
        if |data| < 17 then Panics
        else
          var ordinal, block := DeserializeOrdinal(data[1..17]), codec.decode(data[17..]);
          if ordinal.Some? && block.Some? then Accepted(BroadcastBlock(ordinal.value, block.value.0)) else Rejected
      case Some(PullFromPeer) =>
        if |data| < 17 then Panics
        else
          var start, end := DeserializeOrdinal(data[1..17]), DeserializeOrdinal(data[17..]);
          if start.Some? && end.Some? then Accepted(PullBlocks(start.value, end.value)) else Rejected
      case Some(QueryHighestBlockOrdinal) => Accepted(QueryOrdinal)
      case Some(PushToPeer) => Panics
  }

  function BroadcastFrame(codec: BlockCodec, block: Block): Bytes {
    [CommandByte(Broadcast)] + SerializeOrdinal(block.header.ordinal) + codec.encode(block)
  }

  function PullFrame(start: Ordinal, end: Ordinal): Bytes {
    [CommandByte(PullFromPeer)] + SerializeOrdinal(start) + SerializeOrdinal(end)
  }

  /** A broadcast is read back as its own block under the block's own header ordinal. */
  lemma BroadcastRoundTrip(codec: BlockCodec, block: Block)
    requires SelfDelimiting(codec)
    ensures Decode(codec, BroadcastFrame(codec, block)) == Accepted(BroadcastBlock(block.header.ordinal, block))
  {
    var data := BroadcastFrame(codec, block);
    assert data[1..17] == SerializeOrdinal(block.header.ordinal) + [];
    assert data[17..] == codec.encode(block) + [];
    OrdinalRoundTrip(block.header.ordinal, []);
  }

  lemma PullRoundTrip(codec: BlockCodec, start: Ordinal, end: Ordinal)
    ensures Decode(codec, PullFrame(start, end)) == Accepted(PullBlocks(start, end))
  {
    var data := PullFrame(start, end);
    assert data[1..17] == SerializeOrdinal(start) + [];
    assert data[17..] == SerializeOrdinal(end) + [];
    OrdinalRoundTrip(start, []);
    OrdinalRoundTrip(end, []);
  }

  /** Numbers are written with their lowest byte first. */
  lemma LowestByteFirst(n: nat, size: nat)
    requires size > 0
    ensures LittleEndian(n, size)[0] == n % 256 && LittleEndian(n, size)[1..] == LittleEndian(n / 256, size - 1)
  {
  }

  /** The layout of the frames: one command byte, ordinals of sixteen bytes, then the block. */
  lemma FrameLayout(codec: BlockCodec, block: Block, start: Ordinal, end: Ordinal)
    ensures var frame := BroadcastFrame(codec, block);
      && |frame| == 17 + |codec.encode(block)| && frame[0] == 1
      && frame[1..17] == LittleEndian(block.header.ordinal, 16) && frame[17..] == codec.encode(block)
    ensures var frame := PullFrame(start, end);
      && |frame| == 33 && frame[0] == 3
      && frame[1..17] == LittleEndian(start, 16) && frame[17..] == LittleEndian(end, 16)
  {
  }

  /** What the decoder does with everything that is not a well-formed frame. */
  lemma DecodeOthers(codec: BlockCodec, data: Bytes)
    ensures data == [] ==> Decode(codec, data) == Panics
    ensures data != [] && (data[0] == 0 || data[0] > 4) ==> Decode(codec, data) == Rejected
    ensures data != [] && data[0] == 2 ==> Decode(codec, data) == Panics
    ensures data != [] && data[0] == 4 ==> Decode(codec, data) == Accepted(QueryOrdinal)
    ensures 0 < |data| < 17 && (data[0] == 1 || data[0] == 3) ==> Decode(codec, data) == Panics
    ensures 17 <= |data| < 33 && data[0] == 3 ==> Decode(codec, data) == Rejected
    ensures 17 <= |data| && data[0] == 1 && codec.decode(data[17..]).None? ==> Decode(codec, data) == Rejected
  {
    CommandBytes();
  }

  /**
   Only the sender ties the wire ordinal to the header: a frame of the same
   shape around any other ordinal is accepted with that ordinal.
   */
  lemma WireOrdinalIsIndependent(codec: BlockCodec, wire: Ordinal, block: Block)
    requires SelfDelimiting(codec)
    ensures Decode(codec, [CommandByte(Broadcast)] + SerializeOrdinal(wire) + codec.encode(block))
         == Accepted(BroadcastBlock(wire, block))
  {
    var data := [CommandByte(Broadcast)] + SerializeOrdinal(wire) + codec.encode(block);
    assert data[1..17] == SerializeOrdinal(wire) + [];
    assert data[17..] == codec.encode(block) + [];
    OrdinalRoundTrip(wire, []);
  }

  /** The buffer `broadcast_blockchain` builds. */
  method BuildBroadcastFrame(codec: BlockCodec, block: Block) returns (buf: Bytes)
    requires SelfDelimiting(codec)
    ensures buf == BroadcastFrame(codec, block)
    ensures Decode(codec, buf) == Accepted(BroadcastBlock(block.header.ordinal, block))
  {
    buf := [];
    buf := buf + [CommandByte(Broadcast)];
    buf := buf + SerializeOrdinal(block.header.ordinal);
    buf := buf + codec.encode(block);
    BroadcastRoundTrip(codec, block);
  }

  // ------------------------------------------------------------- block replies

  function EncodeAll(codec: BlockCodec, blocks: seq<Block>): Bytes {
    if blocks == [] then [] else codec.encode(blocks[0]) + EncodeAll(codec, blocks[1..])
  }

  function DecodeAll(codec: BlockCodec, count: nat, data: Bytes): Option<seq<Block>> {
    if count == 0 then Some([])
    else match codec.decode(data)
      case None => None
      case Some((b, rest)) =>
        match DecodeAll(codec, count - 1, rest)
        case None => None
        case Some(bs) => Some([b] + bs)
  }

  /** The reply to a pull: a length as a 64-bit number, then the blocks. */
  function BlocksReply(codec: BlockCodec, blocks: seq<Block>): Bytes {
    LittleEndian(|blocks|, 8) + EncodeAll(codec, blocks)
  }

  function ReadBlocksReply(codec: BlockCodec, data: Bytes): Option<seq<Block>> {
    if |data| < 8 then None else DecodeAll(codec, Number(data[..8]), data[8..])
  }

  lemma {:induction false} DecodeAllOfEncodeAll(codec: BlockCodec, blocks: seq<Block>)
    requires SelfDelimiting(codec)
    ensures DecodeAll(codec, |blocks|, EncodeAll(codec, blocks)) == Some(blocks)
  {
    if blocks != [] {
      DecodeAllOfEncodeAll(codec, blocks[1..]);
      assert codec.decode(EncodeAll(codec, blocks)) == Some((blocks[0], EncodeAll(codec, blocks[1..])));
      assert [blocks[0]] + blocks[1..] == blocks;
    }
  }

  /** The layout of a reply: the number of blocks in eight bytes, then the blocks. */
  lemma ReplyLayout(codec: BlockCodec, blocks: seq<Block>)
    ensures var reply := BlocksReply(codec, blocks);
      |reply| >= 8 && reply[..8] == LittleEndian(|blocks|, 8) && reply[8..] == EncodeAll(codec, blocks)
  {
  }

  /** A reply that is cut off is not readable. */
  lemma ShortReplyIsUnreadable(codec: BlockCodec, data: Bytes)
    requires |data| < 8 || (Number(data[..8]) > 0 && codec.decode(data[8..]).None?)
    ensures ReadBlocksReply(codec, data).None?
  {
  }

  /** A pull reply is read back as the blocks that were sent. */
  lemma BlocksReplyRoundTrip(codec: BlockCodec, blocks: seq<Block>)
    requires SelfDelimiting(codec) && |blocks| < U64_LIMIT
    ensures ReadBlocksReply(codec, BlocksReply(codec, blocks)) == Some(blocks)
  {
    var data := BlocksReply(codec, blocks);
    assert data[..8] == LittleEndian(|blocks|, 8) && data[8..] == EncodeAll(codec, blocks);
    PowersOf256();
    NumberOfLittleEndian(|blocks|, 8);
    DecodeAllOfEncodeAll(codec, blocks);
  }
}
