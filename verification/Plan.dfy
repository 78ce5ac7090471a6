/**
 What a reader finds in a file of back-to-back streams, item by item, and the state in which
 xz/reader.go expects each item. The block and index decoders of liblzma are abstract coders.
 */
module Plan {
  import opened Bytes
  import opened Format
  import opened Coding

  datatype Decoders = Decoders(
    sums: Sums,
    headerOk: seq<byte> -> bool,
    block: (nat, seq<byte>) -> Codec,   // by the stream's check and the block header
    index: Codec)

  ghost predicate GoodDecoders(d: Decoders) {
    (forall check, h :: GoodCodec(d.block(check, h))) && GoodCodec(d.index) && d.index.silent
  }

  datatype ReadState = AtStart | Header | Blocks | Index | Tail | Padding

  // A block begins with a header of `hs` bytes; `text` is what it decodes to.
  datatype Item =
    | Head(bytes: seq<byte>)
    | Blk(bytes: seq<byte>, hs: nat, text: seq<byte>)
    | Idx(bytes: seq<byte>)
    | Foot(bytes: seq<byte>)
    | Pad(bytes: seq<byte>)

  function BytesOf(items: seq<Item>): (s: seq<byte>)
  {
    if items == [] then [] else items[0].bytes + BytesOf(items[1..])
  }

  function TextOf(items: seq<Item>): (s: seq<byte>)
  {
    if items == [] then [] else (if items[0].Blk? then items[0].text else []) + TextOf(items[1..])
  }

  // Without its last c bytes, the file ends behind the header of a block and before the block's end.
  predicate CutsBlock(items: seq<Item>, c: nat)
  {
    items != [] &&
    var b, more := items[0], items[1..];
    || (b.Blk? && 0 < b.hs <= |b.bytes| && |BytesOf(more)| < c <= |BytesOf(more)| + |b.bytes| - b.hs)
    || CutsBlock(more, c)
  }

  lemma {:induction false} CutsWithin(items: seq<Item>, c: nat)
    requires CutsBlock(items, c)
    ensures c < |BytesOf(items)|
    decreases |items|
  {
    if CutsBlock(items[1..], c) { CutsWithin(items[1..], c); }
  }

  predicate LegalHead(d: Decoders, b: Item) {
    b.Head? && |b.bytes| == STREAM_HEADER_SIZE && ParseHeader(d.sums, b.bytes).Some?
  }

  function CodecOf(d: Decoders, check: nat, b: Item): (c: Codec)
    requires b.Blk? && b.hs <= |b.bytes|
  {
    d.block(check, b.bytes[..b.hs])
  }

  // The size of a block and of an index is a multiple of four (sections 3 and 4 of the .xz file format).
  predicate LegalBlock(d: Decoders, check: nat, b: Item) {
    && b.Blk? && |b.bytes| % 4 == 0 && b.bytes != [] && b.bytes[0] != 0
    && b.hs == 4 * (b.bytes[0] as int + 1) <= |b.bytes|
    && d.headerOk(b.bytes[..b.hs])
    && Extent(CodecOf(d, check, b), b.bytes[b.hs..])
    && b.text == CodecOf(d, check, b).out(b.bytes[b.hs..])
  }

  predicate LegalIndex(d: Decoders, b: Item) {
    b.Idx? && |b.bytes| % 4 == 0 && b.bytes != [] && b.bytes[0] == 0 && Extent(d.index, b.bytes)
  }

  predicate LegalFoot(d: Decoders, check: nat, backward: nat, b: Item) {
    b.Foot? && |b.bytes| == STREAM_HEADER_SIZE && ParseFooter(d.sums, b.bytes) == Some((check, backward))
  }

  predicate LegalPad(b: Item) {
    b.Pad? && |b.bytes| % 4 == 0 && b.bytes == Zeros(|b.bytes|)
  }

  // The items that may still come in a state; at least one stream is expected at first.
  predicate Legal(d: Decoders, state: ReadState, check: nat, backward: nat, items: seq<Item>)
    decreases |items|
  {
    if items == [] then state.Header? else
    var b, more := items[0], items[1..];
    match state
    case AtStart => LegalHead(d, b) && Legal(d, Blocks, ParseHeader(d.sums, b.bytes).value, 0, more)
    case Header => LegalHead(d, b) && Legal(d, Blocks, ParseHeader(d.sums, b.bytes).value, 0, more)
    case Blocks =>
      || (LegalBlock(d, check, b) && Legal(d, Blocks, check, 0, more))
      || (LegalIndex(d, b) && Legal(d, Tail, check, |b.bytes|, more))
    case Index => LegalIndex(d, b) && Legal(d, Tail, check, |b.bytes|, more)
    case Tail => LegalFoot(d, check, backward, b) && Legal(d, Padding, check, 0, more)
    case Padding => LegalPad(b) && Legal(d, Header, check, 0, more)
  }
}
