/**
 blockEncode (xz/writer.go:353-394): normal compression behind a reserved header, or a literal
 block when the output pipe has no room for that. The compressor is any function of the chunk.
 */
module Encoder {
  import opened Bytes
  import opened Format
  import opened Literal
  import opened Pipeline

  const CHUNK_LOWEST: nat := 0x1_0000
  const CHUNK_HIGHEST: nat := 0x4000_0000

  datatype Params = Params(
    sums: Sums, check: nat, dict: byte,
    chunkSize: nat,
    compress: seq<byte> -> seq<byte>)   // the LZMA2 data of a whole chunk

  // What NewWriterCustom makes of its arguments.
  predicate ValidParams(p: Params) {
    CheckSupported(p.check) && CHUNK_LOWEST <= p.chunkSize <= CHUNK_HIGHEST
  }

  // NewWriterCustom without streamed mode: it clamps the chunk size, and rejects other checks when it
  // sizes a literal block.
  function NewParams(sums: Sums, check: int, dict: byte, chunkSize: nat, compress: seq<byte> -> seq<byte>)
    : (r: Result<Params>)
  {
    if !CheckSupported(check) then OptionsError
    else
      Ok(Params(sums, check, dict,
                if chunkSize < CHUNK_LOWEST then CHUNK_LOWEST
                else if chunkSize > CHUNK_HIGHEST then CHUNK_HIGHEST
                else chunkSize,
                compress))
  }

  // Whatever the arguments are, the parameters are valid or the check is not one of four; and all
  // valid parameters can be had, those with chunks from 64 KiB to 1 GiB.
  lemma NewIsValid(sums: Sums, check: int, dict: byte, chunkSize: nat, compress: seq<byte> -> seq<byte>)
    ensures var r := NewParams(sums, check, dict, chunkSize, compress);
      && (r.Ok? <==> check == 0 || check == 1 || check == 4 || check == 10)
      && (r.Ok? ==> ValidParams(r.value) && r.value.check == check && r.value.compress == compress)
      && (r.Ok? ==> (r.value.chunkSize == chunkSize <==> 65536 <= chunkSize <= 1024 * 1024 * 1024))
    ensures check >= 0 ==>
      var p := Params(sums, check, dict, chunkSize, compress);
      ValidParams(p) <==> NewParams(sums, check, dict, chunkSize, compress) == Ok(p)
  {
  }

  // w.maxSize, the size of the output buffer.
  function MaxSize(p: Params): (n: nat)
  {
    TotalSizeOf(p.check, p.chunkSize)
  }

  // The header space reserved before compression; the two bounds are passed in this order.
  function Reserved(p: Params): (n: nat)
    ensures n % 4 == 0
  {
    HeaderSize(p.chunkSize, MaxSize(p))
  }

  lemma ChunkIsEncodable(p: Params, n: nat)
    requires ValidParams(p) && n <= p.chunkSize
    ensures Encodable(n) && MaxSize(p) <= VLI_MAX && CompSize(n) <= MaxSize(p) && Reserved(p) <= 28
  {
    assert CompSize(p.chunkSize) <= 0x1_0000_0000;
    CompSizeMono(n, p.chunkSize);
    HeaderSizeBound(CompSize(p.chunkSize), p.chunkSize);
    HeaderSizeBound(p.chunkSize, MaxSize(p));
  }

  // The literal fallback of a chunk always fits the output buffer, and that of a full chunk fills it.
  lemma LiteralFits(p: Params, chunk: seq<byte>)
    requires ValidParams(p) && |chunk| <= p.chunkSize
    ensures Encodable(|chunk|) && |LiteralBlock(p.sums, p.check, chunk)| <= MaxSize(p)
    ensures |chunk| == p.chunkSize ==> |LiteralBlock(p.sums, p.check, chunk)| == MaxSize(p)
  {
    ChunkIsEncodable(p, |chunk|);
    BlockLength(p.sums, p.check, chunk);
    TotalSizeMono(p.check, |chunk|, p.chunkSize);
  }

  // Whatever the actual sizes are, their header fits the reserved space, which the largest need.
  lemma ReservedSuffices(p: Params, compSize: nat, uncompSize: nat)
    requires compSize <= MaxSize(p) && uncompSize <= p.chunkSize
    ensures HeaderSize(compSize, uncompSize) <= Reserved(p) == HeaderSize(MaxSize(p), p.chunkSize)
  {
    VliSizeMono(compSize, MaxSize(p));
    VliSizeMono(uncompSize, p.chunkSize);
    HeaderSizeMono(VliSize(compSize) + VliSize(uncompSize), VliSize(p.chunkSize) + VliSize(MaxSize(p)));
  }

  // The whole block fits the output buffer: no short write is seen.
  predicate Fits(p: Params, chunk: seq<byte>) {
    var e := p.compress(chunk);
    Reserved(p) + |e| + Pad4(|e|) + CheckSize(p.check) <= MaxSize(p)
  }

  function NormalBlock(p: Params, chunk: seq<byte>): (b: Block)
    requires ValidParams(p) && |chunk| <= p.chunkSize && Fits(p, chunk)
  {
    var e := p.compress(chunk);
    ChunkIsEncodable(p, |chunk|);
    ReservedSuffices(p, |e|, |chunk|);
    Block(BlockHeader(p.sums, p.dict, Reserved(p), |e|, |chunk|)
            + e + Zeros(Pad4(|e|)) + CheckBytes(p.sums, p.check, chunk),
          Record(Reserved(p) + |e| + CheckSize(p.check), |chunk|))
  }

  function FallbackBlock(p: Params, chunk: seq<byte>): (b: Block)
    requires ValidParams(p) && |chunk| <= p.chunkSize
  {
    ChunkIsEncodable(p, |chunk|);
    var comp := CompSize(|chunk|);
    Block(LiteralBlock(p.sums, p.check, chunk), Record(TotalSizeOf(p.check, |chunk|) - Pad4(comp), |chunk|))
  }

  function EncodedBlock(p: Params, chunk: seq<byte>): (b: Block)
    requires ValidParams(p) && |chunk| <= p.chunkSize
  {
    if Fits(p, chunk) then NormalBlock(p, chunk) else FallbackBlock(p, chunk)
  }

  // The record describes the block: rounded up to four, the unpadded size is the block's length.
  lemma BlockMatchesRecord(p: Params, chunk: seq<byte>)
    requires ValidParams(p) && |chunk| <= p.chunkSize
    ensures var b := EncodedBlock(p, chunk);
      && |b.bytes| == RoundUp4(b.rec.unpadSize) && |b.bytes| <= MaxSize(p)
      && b.rec.uncompSize == |chunk| && ValidRecord(b.rec)
  {
    if Fits(p, chunk) {
      NormalMatches(p, chunk);
    } else {
      FallbackMatches(p, chunk);
    }
  }

  ghost predicate Matches(p: Params, chunk: seq<byte>, b: Block) {
    && |b.bytes| == RoundUp4(b.rec.unpadSize) && |b.bytes| <= MaxSize(p)
    && b.rec.uncompSize == |chunk| && ValidRecord(b.rec)
  }

  lemma NormalMatches(p: Params, chunk: seq<byte>)
    requires ValidParams(p) && |chunk| <= p.chunkSize && Fits(p, chunk)
    ensures Matches(p, chunk, NormalBlock(p, chunk))
  {
    hide HeaderSize, TotalSizeOf, CompSize, BlockHeader, CheckBytes, MaxSize;
    var e := p.compress(chunk);
    ChunkIsEncodable(p, |chunk|);
    ReservedSuffices(p, |e|, |chunk|);
    HeaderSizeBound(|e|, |chunk|);
    Pad4Shift(Reserved(p) + CheckSize(p.check), |e|);
    assert RoundUp4(Reserved(p) + |e| + CheckSize(p.check)) == Reserved(p) + |e| + CheckSize(p.check) + Pad4(|e|);
  }

  lemma FallbackMatches(p: Params, chunk: seq<byte>)
    requires ValidParams(p) && |chunk| <= p.chunkSize
    ensures Matches(p, chunk, FallbackBlock(p, chunk))
  {
    hide HeaderSize, TotalSizeOf, CompSize, LiteralBlock, MaxSize;
    var n := |chunk|;
    var comp := CompSize(n);
    ChunkIsEncodable(p, n);
    BlockLength(p.sums, p.check, chunk);
    LiteralFits(p, chunk);
    HeaderSizeBound(comp, n);
    Layout(p.check, n);
    Pad4Shift(HeaderSize(comp, n) + CheckSize(p.check), comp);
    assert RoundUp4(HeaderSize(comp, n) + comp + CheckSize(p.check)) == TotalSizeOf(p.check, n);
  }

  // What can be read from a block with a header of the size that its first byte gives, in numbers:
  // both sizes, zeros up to a multiple of four, the checksum of the chunk at the end; and the
  // unpadded size, which leaves out the zeros.
  ghost predicate Anatomy(c: Sums, check: nat, chunk: seq<byte>, b: Block) {
    var s, n := b.bytes, |b.bytes|;
    && n > 0 && 4 * (s[0] as int + 1) <= n
    && var hs := 4 * (s[0] as int + 1);
    && ParseBlockHeader(c, s[..hs]).Some?
    && var (comp, uncomp, dict) := ParseBlockHeader(c, s[..hs]).value;
    && var sum := if check == 1 then 4 else if check == 4 then 8 else if check == 10 then 32 else 0;
    && uncomp == b.rec.uncompSize == |chunk| && b.rec.unpadSize == hs + comp + sum
    && n % 4 == 0 && 0 <= n - b.rec.unpadSize < 4
    && (forall i :: hs + comp <= i < n - sum ==> s[i] == 0)
    && (check == 1 ==> s[n - 4..] == c.crc32(chunk))
    && (check == 4 ==> s[n - 8..] == c.crc64(chunk))
    && (check == 10 ==> s[n - 32..] == c.sha256(chunk))
  }

  lemma HasAnatomy(c: Sums, check: nat, dict: byte, size: nat, e: seq<byte>, chunk: seq<byte>, b: Block)
    requires HeaderHolds(size, |e|, |chunk|)
    requires b.bytes == BlockHeader(c, dict, size, |e|, |chunk|) + e + Zeros(Pad4(|e|)) + CheckBytes(c, check, chunk)
    requires b.rec == Record(size + |e| + CheckSize(check), |chunk|)
    ensures Anatomy(c, check, chunk, b)
  {
    hide HeaderHolds, ParseBlockHeader;
    var head, pad, sum := BlockHeader(c, dict, size, |e|, |chunk|), Zeros(Pad4(|e|)), CheckBytes(c, check, chunk);
    BlockHeaderInverse(c, head, |e|, |chunk|, dict);
    hide BlockHeader;
    assert b.bytes[0] == head[0] && b.bytes[..size] == head;
    var n := |b.bytes|;
    assert b.bytes[n - |sum|..] == sum;
    assert b.bytes[size + |e|..n - |sum|] == pad;
    Pad4Shift(size + CheckSize(check), |e|);
  }

  // Of either kind of block: what it says of itself is true, and so is its record.
  lemma BlockAnatomy(p: Params, chunk: seq<byte>)
    requires ValidParams(p) && |chunk| <= p.chunkSize
    ensures Anatomy(p.sums, p.check, chunk, EncodedBlock(p, chunk))
  {
    hide Anatomy, HeaderSize, CompSize, Stored, BlockHeader, CheckBytes, MaxSize;
    ChunkIsEncodable(p, |chunk|);
    var b := EncodedBlock(p, chunk);
    if Fits(p, chunk) {
      var e := p.compress(chunk);
      ReservedSuffices(p, |e|, |chunk|);
      HasAnatomy(p.sums, p.check, p.dict, Reserved(p), e, chunk, b);
    } else {
      var e := Stored(chunk);
      StoredSize(chunk);
      Layout(p.check, |chunk|);
      HeaderSizeBound(|e|, |chunk|);
      HasAnatomy(p.sums, p.check, LITERAL_DICT, HeaderSize(|e|, |chunk|), e, chunk, b);
    }
  }

  // No block is longer than the literal block of a full chunk, and a chunk is compressed if and only
  // if its block then is no longer than that. So a block is never much longer than a chunk.
  lemma NoBlockIsLonger(p: Params, chunk: seq<byte>, full: seq<byte>)
    requires ValidParams(p) && |chunk| <= p.chunkSize == |full|
    ensures Encodable(|full|)
    ensures |EncodedBlock(p, chunk).bytes| <= |LiteralBlock(p.sums, p.check, full)|
    ensures Fits(p, chunk) <==>
      RoundUp4(Reserved(p) + |p.compress(chunk)| + CheckSize(p.check)) <= |LiteralBlock(p.sums, p.check, full)|
    ensures |LiteralBlock(p.sums, p.check, full)| <= |full| + 3 * ((|full| + 65535) / 65536) + 64
  {
    hide HeaderSize, LiteralBlock, EncodedBlock, CompSize, MaxSize;
    LiteralFits(p, full);
    LargestIs(p);
    BlockMatchesRecord(p, chunk);
    Pad4Shift(Reserved(p) + CheckSize(p.check), |p.compress(chunk)|);
  }

  lemma LargestIs(p: Params)
    requires ValidParams(p)
    ensures MaxSize(p) <= p.chunkSize + 3 * ((p.chunkSize + 65535) / 65536) + 64
  {
    hide HeaderSize;
    ChunkIsEncodable(p, p.chunkSize);
    HeaderSizeBound(CompSize(p.chunkSize), p.chunkSize);
  }

  // The header of either kind of block tells the sizes of the data behind it.
  lemma HeaderTellsSizes(p: Params, chunk: seq<byte>)
    requires ValidParams(p) && |chunk| <= p.chunkSize
    ensures var b := EncodedBlock(p, chunk).bytes; var hs := HeaderSize(CompSize(|chunk|), |chunk|);
      if Fits(p, chunk) then
        && ParseBlockHeader(p.sums, b[..Reserved(p)]) == Some((|p.compress(chunk)|, |chunk|, p.dict))
        && p.compress(chunk) <= b[Reserved(p)..]
      else
        && ParseBlockHeader(p.sums, b[..hs]) == Some((CompSize(|chunk|), |chunk|, LITERAL_DICT))
        && ParseStored(b[hs..]) == Some((chunk, CompSize(|chunk|)))
  {
    ChunkIsEncodable(p, |chunk|);
    if Fits(p, chunk) {
      hide TotalSizeOf, CompSize, MaxSize, CheckBytes, ParseBlockHeader, BlockHeader;
      var e := p.compress(chunk);
      ReservedSuffices(p, |e|, |chunk|);
      var head := BlockHeader(p.sums, p.dict, Reserved(p), |e|, |chunk|);
      var tail := e + Zeros(Pad4(|e|)) + CheckBytes(p.sums, p.check, chunk);
      BlockHeaderInverse(p.sums, head, |e|, |chunk|, p.dict);
      assert EncodedBlock(p, chunk).bytes == head + tail;
      Cut(head, tail);
    } else {
      hide ParseStored, LiteralBlock;
      BlockRoundTrip(p.sums, p.check, chunk);
    }
  }

  // The header of a literal block has the length that its first byte gives, so the block tells the
  // size of its data.
  function SizeInside(c: Sums, b: seq<byte>): (n: Option<nat>)
  {
    if b == [] || |b| < 4 * (b[0] as int + 1) then None else
    match ParseBlockHeader(c, b[..4 * (b[0] as int + 1)])
    case None => None
    case Some((comp, uncomp, dict)) => Some(uncomp)
  }

  lemma LiteralTellsSize(p: Params, chunk: seq<byte>)
    requires ValidParams(p) && |chunk| <= p.chunkSize
    ensures SizeInside(p.sums, FallbackBlock(p, chunk).bytes) == Some(|chunk|)
  {
    hide MaxSize, TotalSizeOf, CompSize, HeaderSize, CheckBytes, Stored, ParseBlockHeader, BlockHeader;
    ChunkIsEncodable(p, |chunk|);
    HeaderSizeBound(CompSize(|chunk|), |chunk|);
    BlockRoundTrip(p.sums, p.check, chunk);
    var head := Header(p.sums, |chunk|);
    assert FallbackBlock(p, chunk).bytes[0] == head[0];
  }

  // A literal block made from the first k bytes of a chunk has the bytes of the chunk's literal
  // block only if those are all: the fallback is right exactly when the input pipe holds the
  // whole chunk.
  lemma FallbackNeedsWholeChunk(p: Params, chunk: seq<byte>, k: nat)
    requires ValidParams(p) && |chunk| <= p.chunkSize && k <= |chunk|
    ensures FallbackBlock(p, chunk[..k]).bytes == FallbackBlock(p, chunk).bytes <==> k == |chunk|
  {
    hide FallbackBlock;
    LiteralTellsSize(p, chunk[..k]);
    LiteralTellsSize(p, chunk);
    if k == |chunk| {
      assert chunk[..k] == chunk;
    }
  }

  // ---------- the Writer's configuration ----------

  function Enc(p: Params, chunk: seq<byte>): (b: Block)
    requires ValidParams(p)
  {
    if |chunk| <= p.chunkSize then EncodedBlock(p, chunk) else Block([], Record(UNPADDED_SIZE_MIN, 0))
  }

  // Index and footer; the footer cannot be encoded when the index is too large for it.
  function Trailer(p: Params, rs: seq<Record>): (s: seq<byte>)
    requires ValidParams(p)
  {
    var index := IndexBytes(p.sums, rs);
    if |index| <= BACKWARD_SIZE_MAX then index + Footer(p.sums, p.check, |index|) else index
  }

  function ConfigOf(p: Params, maxWorkers: nat): (cfg: Config)
    requires ValidParams(p)
  {
    Config(p.chunkSize, maxWorkers, c => Enc(p, c), StreamHeader(p.sums, p.check), rs => Trailer(p, rs))
  }

  lemma ConfigIsGood(p: Params, maxWorkers: nat)
    requires ValidParams(p) && maxWorkers > 0
    ensures GoodConfig(ConfigOf(p, maxWorkers))
  {
    var cfg := ConfigOf(p, maxWorkers);
    forall c: seq<byte>
      ensures cfg.enc(c).rec.unpadSize > 0
    {
      if |c| <= p.chunkSize {
        BlockMatchesRecord(p, c);
        assert cfg.enc(c) == EncodedBlock(p, c);
      }
    }
  }
}
