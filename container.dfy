/**
 * The replay container: a zero-terminated watermark, a reserved 4-byte
 * field, the 16-byte header, the 20-byte subheader and then data blocks up
 * to the end of the file (src/lib.rs, `read_header`, `read_subheader`,
 * `read_blocks` and the start of `parse`).
 */
module Container {
  import opened Bytes

  datatype Header = Header(
    compressedSize: int,
    headerVersion: int,
    decompressedSize: int,
    compressedDataBlocks: int)

  datatype Subheader = Subheader(
    gameIdentifier: seq<byte>,  // four bytes; their UTF-8 reading is not modelled
    version: int,
    buildNo: int,
    replayLengthMs: int)

  /** One compressed chunk: its declared sizes and its raw content. */
  datatype DataBlock = DataBlock(size: nat, decompressedSize: nat, content: seq<byte>)

  datatype Container = Container(header: Header, subheader: Subheader, blocks: seq<DataBlock>)

  /** The signed 32-bit little-endian value at `pos` (which must be in the buffer). */
  function I32(data: seq<byte>, pos: nat): int
    requires pos + 4 <= |data|
  {
    Signed(LE(data[pos..pos + 4]), 4)
  }

  /** `read_header`: four signed 32-bit fields. */
  function HeaderAt(data: seq<byte>, pos: nat): (r: Result<Parsed<Header>>)
    ensures r.Ok? <==> pos + 16 <= |data|
    ensures r.Ok? ==> r.value.next == pos + 16 && r.value.value == Header(
      I32(data, pos), I32(data, pos + 4), I32(data, pos + 8), I32(data, pos + 12))
  {
    var compressedSize :- SIntAt(data, pos, 4);
    var headerVersion :- SIntAt(data, compressedSize.next, 4);
    var decompressedSize :- SIntAt(data, headerVersion.next, 4);
    var blocks :- SIntAt(data, decompressedSize.next, 4);
    Ok(Parsed(Header(compressedSize.value, headerVersion.value, decompressedSize.value, blocks.value), blocks.next))
  }

  /**
   * `read_subheader`: identifier (4), version (i32), build number (i16),
   * 2 skipped bytes, replay length (i32), 4 skipped bytes.
   */
  function SubheaderAt(data: seq<byte>, pos: nat): (r: Result<Parsed<Subheader>>)
    ensures r.Ok? <==> pos + 20 <= |data|
    ensures r.Ok? ==> r.value.next == pos + 20 && r.value.value == Subheader(
      data[pos..pos + 4], I32(data, pos + 4), Signed(LE(data[pos + 8..pos + 10]), 2), I32(data, pos + 12))
  {
    var identifier :- BytesAt(data, pos, 4);
    var version :- SIntAt(data, identifier.next, 4);
    var buildNo :- SIntAt(data, version.next, 2);
    var skip1 :- SeekAt(data, buildNo.next + 2);
    var replayLength :- SIntAt(data, skip1.next, 4);
    var skip2 :- SeekAt(data, replayLength.next + 4);
    Ok(Parsed(Subheader(identifier.value, version.value, buildNo.value, replayLength.value), skip2.next))
  }

  /** The 12-byte block header size field: `size` at offset 0, little-endian. */
  function DeclaredSize(data: seq<byte>, pos: nat): nat
    requires pos + 2 <= |data|
  {
    LE(data[pos..pos + 2])
  }

  /**
   * One iteration of `read_blocks`: a 12-byte block header (u16 size, i16,
   * u16 decompressed size, i32, i16) and then `size` content bytes.
   */
  function BlockAt(data: seq<byte>, pos: nat): (r: Result<Parsed<DataBlock>>)
    ensures r.Ok? <==> pos + 12 <= |data| && pos + 12 + DeclaredSize(data, pos) <= |data|
    ensures r.Ok? ==> var b := r.value.value;
      && b.size == DeclaredSize(data, pos)
      && b.decompressedSize == LE(data[pos + 4..pos + 6])
      && r.value.next == pos + 12 + b.size
      && b.content == data[pos + 12..r.value.next]
  {
    var size :- UIntAt(data, pos, 2);
    var reserved1 :- SIntAt(data, size.next, 2);
    var decompressedSize :- UIntAt(data, reserved1.next, 2);
    var reserved2 :- SIntAt(data, decompressedSize.next, 4);
    var reserved3 :- SIntAt(data, reserved2.next, 2);
    var content :- BytesAt(data, reserved3.next, size.value);
    Ok(Parsed(DataBlock(size.value, decompressedSize.value, content.value), content.next))
  }

  /** The bytes that `blocks` occupy in the container: 12 + size each. */
  function Span(blocks: seq<DataBlock>): nat
  {
    if blocks == [] then 0 else 12 + |blocks[0].content| + Span(blocks[1..])
  }

  lemma {:induction false} SpanAppend(a: seq<DataBlock>, b: DataBlock)
    ensures Span(a + [b]) == Span(a) + 12 + |b.content|
  {
    if a == [] {
      assert [] + [b] == [b];
    } else {
      assert (a + [b])[1..] == a[1..] + [b];
      SpanAppend(a[1..], b);
    }
  }

  /** `read_blocks`: blocks until the position reaches the end of the buffer. */
  function BlocksFrom(data: seq<byte>, pos: nat): (r: Result<Parsed<seq<DataBlock>>>)
    requires pos <= |data|
    ensures r.Ok? ==> r.value.next == |data| && pos + Span(r.value.value) == |data|
    ensures r.Ok? ==> forall i :: 0 <= i < |r.value.value| ==> r.value.value[i].size == |r.value.value[i].content|
    decreases |data| - pos
  {
    if pos >= |data| then Ok(Parsed([], pos))
    else
      var block :- BlockAt(data, pos);
      Prepend([block.value], BlocksFrom(data, block.next))
  }

  /** Where block `i` starts, relative to the first block. */
  function Offset(blocks: seq<DataBlock>, i: nat): nat
    requires i <= |blocks|
  {
    if i == 0 then 0 else 12 + |blocks[0].content| + Offset(blocks[1..], i - 1)
  }

  /** Block `b` has its 12-byte header at `at` and its content right after it, up to `after`. */
  ghost predicate LaidOut(data: seq<byte>, at: nat, b: DataBlock, after: nat)
  {
    && at + 12 + b.size == after <= |data|
    && b.content == data[at + 12..after]
  }

  /**
   * `blocks` tile the buffer from `pos` to its end: each block's header
   * starts where the previous block's content ends.
   */
  ghost predicate Tiled(data: seq<byte>, pos: nat, blocks: seq<DataBlock>)
    decreases |blocks|
  {
    if blocks == [] then pos == |data|
    else
      && LaidOut(data, pos, blocks[0], pos + 12 + blocks[0].size)
      && Tiled(data, pos + 12 + blocks[0].size, blocks[1..])
  }

  /** `read_blocks` returns blocks that tile the rest of the buffer. */
  lemma {:induction false} BlocksTile(data: seq<byte>, pos: nat)
    requires pos <= |data| && BlocksFrom(data, pos).Ok?
    ensures Tiled(data, pos, BlocksFrom(data, pos).value.value)
    decreases |data| - pos
  {
    if BlocksFrom(data, pos).value.value != [] {
      var first, rest := BlocksFromUnfold(data, pos);
      BlocksTile(data, first.next);
      TiledCons(data, pos, first.value, first.next, rest);
    }
  }

  lemma TiledCons(data: seq<byte>, pos: nat, b: DataBlock, after: nat, rest: seq<DataBlock>)
    requires LaidOut(data, pos, b, after) && Tiled(data, after, rest)
    ensures Tiled(data, pos, [b] + rest)
  {
    assert ([b] + rest)[1..] == rest;
  }

  /**
   * Blocks come back in stream order: in a tiling, block `i` starts where
   * the blocks before it end, and its content is the `size` bytes after its
   * 12-byte header.
   */
  lemma {:induction false} TiledInOrder(data: seq<byte>, pos: nat, blocks: seq<DataBlock>, i: nat)
    requires Tiled(data, pos, blocks) && i < |blocks|
    ensures LaidOut(data, pos + Offset(blocks, i), blocks[i], pos + Offset(blocks, i + 1))
    decreases i
  {
    if i > 0 {
      TiledInOrder(data, pos + 12 + blocks[0].size, blocks[1..], i - 1);
    }
  }

  /** A non-empty block list is its first block followed by the blocks after it. */
  lemma BlocksFromUnfold(data: seq<byte>, pos: nat) returns (first: Parsed<DataBlock>, rest: seq<DataBlock>)
    requires pos <= |data| && BlocksFrom(data, pos).Ok? && BlocksFrom(data, pos).value.value != []
    ensures BlockAt(data, pos) == Ok(first) && first.next <= |data|
    ensures LaidOut(data, pos, first.value, first.next)
    ensures BlocksFrom(data, first.next) == Ok(Parsed(rest, |data|))
    ensures BlocksFrom(data, pos).value.value == [first.value] + rest
  {
    first := BlockAt(data, pos).value;
    rest := BlocksFrom(data, first.next).value.value;
  }

  lemma SpanCons(b: DataBlock, s: seq<DataBlock>)
    ensures Span([b] + s) == 12 + |b.content| + Span(s)
  {
    assert ([b] + s)[1..] == s;
  }

  /**
   * The container walk of `parse` up to the list of blocks: watermark,
   * reserved i32, header, subheader, blocks.
   */
  function ContainerOf(raw: seq<byte>): (r: Result<Container>)
    ensures r.Ok? ==>
      var watermark := ZeroTerminatedAt(raw, 0);
      && watermark.Ok?
      && var h := watermark.value.next + 4;
      && HeaderAt(raw, h) == Ok(Parsed(r.value.header, h + 16))
      && SubheaderAt(raw, h + 16) == Ok(Parsed(r.value.subheader, h + 36))
      && BlocksFrom(raw, h + 36) == Ok(Parsed(r.value.blocks, |raw|))
      && h + 36 + Span(r.value.blocks) == |raw|
  {
    var watermark :- ZeroTerminatedAt(raw, 0);
    var reserved :- SIntAt(raw, watermark.next, 4);
    var header :- HeaderAt(raw, reserved.next);
    var subheader :- SubheaderAt(raw, header.next);
    var blocks :- BlocksFrom(raw, subheader.next);
    Ok(Container(header.value, subheader.value, blocks.value))
  }

  method ReadHeader(cur: Cursor) returns (r: Result<Header>)
    requires cur.Valid()
    modifies cur
    ensures cur.Valid() && cur.Follows(r, HeaderAt(cur.data, old(cur.pos)))
  {
    var compressedSize :- cur.ReadSInt(4);
    var headerVersion :- cur.ReadSInt(4);
    var decompressedSize :- cur.ReadSInt(4);
    var compressedDataBlocks :- cur.ReadSInt(4);
    return Ok(Header(compressedSize, headerVersion, decompressedSize, compressedDataBlocks));
  }

  method ReadSubheader(cur: Cursor) returns (r: Result<Subheader>)
    requires cur.Valid()
    modifies cur
    ensures cur.Valid() && cur.Follows(r, SubheaderAt(cur.data, old(cur.pos)))
  {
    var gameIdentifier :- cur.ReadBytes(4);
    var version :- cur.ReadSInt(4);
    var buildNo :- cur.ReadSInt(2);
    var _ :- cur.Seek(cur.pos + 2);
    var replayLengthMs :- cur.ReadSInt(4);
    var _ :- cur.Seek(cur.pos + 4);
    return Ok(Subheader(gameIdentifier, version, buildNo, replayLengthMs));
  }

  method ReadBlocks(cur: Cursor) returns (r: Result<seq<DataBlock>>)
    requires cur.Valid()
    modifies cur
    ensures cur.Valid() && cur.Follows(r, BlocksFrom(cur.data, old(cur.pos)))
  {
    ghost var start := cur.pos;
    var dataBlocks: seq<DataBlock> := [];
    PrependEmpty(BlocksFrom(cur.data, start));
    while cur.pos < |cur.data|
      invariant cur.Valid()
      invariant BlocksFrom(cur.data, start) == Prepend(dataBlocks, BlocksFrom(cur.data, cur.pos))
      decreases |cur.data| - cur.pos
    {
      ghost var here := cur.pos;
      var size :- cur.ReadUInt(2);
      var _ :- cur.ReadSInt(2);
      var decompressedSize :- cur.ReadUInt(2);
      var _ :- cur.ReadSInt(4);
      var _ :- cur.ReadSInt(2);
      var content :- cur.ReadBytes(size);
      var block := DataBlock(size, decompressedSize, content);
      assert BlockAt(cur.data, here) == Ok(Parsed(block, cur.pos));
      PrependTwice(dataBlocks, [block], BlocksFrom(cur.data, cur.pos));
      dataBlocks := dataBlocks + [block];
    }
    assert dataBlocks + [] == dataBlocks;
    return Ok(dataBlocks);
  }

  /** `parse` up to `read_blocks`, from the raw file bytes. */
  method ParseContainer(raw: seq<byte>) returns (r: Result<Container>)
    ensures r == ContainerOf(raw)
  {
    var b := new Cursor(raw);
    var _ :- b.ReadZeroTerminated();
    var _ :- b.ReadSInt(4);
    var header :- ReadHeader(b);
    var subheader :- ReadSubheader(b);
    var dataBlocks :- ReadBlocks(b);
    return Ok(Container(header, subheader, dataBlocks));
  }
}
