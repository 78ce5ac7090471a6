/** Whole files in numbers, as sections 1.2 and 2 to 4 of the .xz file format lay them out. */
module KnownFiles {
  import opened Bytes
  import opened Format
  import opened Chunks
  import opened Literal
  import opened Pipeline
  import opened Encoder
  import opened WriterFile
  import opened IndexWalk

  // What the digits of a variable-length integer amount to.
  function Value(s: seq<byte>): (v: nat)
  {
    if s == [] then 0 else s[0] % 128 + 128 * Value(s[1..])
  }

  // Every byte but the last has its high bit set, and the last is not a superfluous zero.
  lemma {:induction false} VliInDigits(v: nat)
    ensures var s := Vli(v); var last := |s| - 1;
      && Value(s) == v && (forall i :: 0 <= i < last ==> s[i] >= 128)
      && s[last] < 128 && (last > 0 ==> s[last] > 0)
    decreases v
  {
    if v >= 128 {
      VliInDigits(v / 128);
      var s, t := Vli(v), Vli(v / 128);
      assert s[1..] == t;
      assert forall i :: 0 < i < |s| ==> s[i] == t[i - 1];
    }
  }

  // A stream header, and a footer behind the smallest index and behind the largest.
  lemma HeaderInNumbers(c: Sums, check: nat)
    requires check < 16
    ensures StreamHeader(c, check) == [0xFD, 0x37, 0x7A, 0x58, 0x5A, 0, 0, check] + c.crc32([0, check])
    ensures Footer(c, check, 8) == c.crc32([1, 0, 0, 0, 0, check]) + [1, 0, 0, 0, 0, check, 0x59, 0x5A]
    ensures Footer(c, check, 0x4_0000_0000) ==
      c.crc32([255, 255, 255, 255, 0, check]) + [255, 255, 255, 255, 0, check, 0x59, 0x5A]
  {
    assert LE32(1) + [0, check] == [1, 0, 0, 0, 0, check];
    assert LE32(0xFFFF_FFFF) + [0, check] == [255, 255, 255, 255, 0, check];
  }

  // The decoder of the index takes no block of fewer than five bytes.
  lemma RecordsInNumbers(c: Sums, rs: seq<Record>)
    requires |rs| <= 0x7FFF_FFFF_FFFF_FFFF
    ensures ParseIndex(c, IndexBytes(c, rs)) == Some(rs) <==> forall i :: 0 <= i < |rs| ==>
      5 <= rs[i].unpadSize <= 0x7FFF_FFFF_FFFF_FFFC && rs[i].uncompSize <= 0x7FFF_FFFF_FFFF_FFFF
  {
    IndexInverse(c, IndexBytes(c, rs), rs);
    hide ParseIndex, IndexBytes;
    if ParseIndex(c, IndexBytes(c, rs)) == Some(rs) { assert ValidRecords(rs); }
    if forall i :: 0 <= i < |rs| ==> ValidRecord(rs[i]) { assert ValidRecords(rs); }
  }

  // An empty file: no blocks, an index of no records, and a footer that says that it has eight bytes.
  lemma EmptyFile(p: Params, w: nat)
    requires ValidParams(p)
    ensures SyncFile(ConfigOf(p, w), []) ==
      [0xFD, 0x37, 0x7A, 0x58, 0x5A, 0, 0, p.check] + p.sums.crc32([0, p.check])
      + ([0, 0, 0, 0] + p.sums.crc32([0, 0, 0, 0]))
      + (p.sums.crc32([1, 0, 0, 0, 0, p.check]) + [1, 0, 0, 0, 0, p.check, 0x59, 0x5A])
  {
    HeaderInNumbers(p.sums, p.check);
    assert IndexBody([]) == [0, 0, 0, 0];
    assert IndexBytes(p.sums, []) == [0, 0, 0, 0] + p.sums.crc32([0, 0, 0, 0]);
    assert Split([], p.chunkSize) == [];
    hide StreamHeader, Footer, IndexBytes, IndexBody;
    assert BlockBytes(ConfigOf(p, w), []) == [] && Records(ConfigOf(p, w), []) == [];
  }

  // The header of a block, with four bytes more than it needs.
  lemma BlockHeaderInNumbers(c: Sums, dict: byte)
    ensures HeaderHolds(16, 300, 1) && HeaderHolds(12, 5, 1)
    ensures var s := [3, 0xC0, 0xAC, 2, 1, 0x21, 1, dict, 0, 0, 0, 0];
      BlockHeader(c, dict, 16, 300, 1) == s + c.crc32(s)
    ensures var s := [2, 0xC0, 5, 1, 0x21, 1, dict, 0];
      BlockHeader(c, dict, 12, 5, 1) == s + c.crc32(s)
  {
    assert Vli(300) == [0xAC, 2] && Vli(1) == [1] && Vli(5) == [5];
    assert VliSize(300) == 2;
    assert HeaderHolds(16, 300, 1);
    assert HeaderBody(dict, 16, 300, 1) == [0xAC, 2, 1, 0x21, 1, dict, 0, 0, 0, 0];
    assert HeaderBody(dict, 12, 5, 1) == [5, 1, 0x21, 1, dict, 0];
    hide HeaderBody;
    assert [3, 0xC0] + HeaderBody(dict, 16, 300, 1) == [3, 0xC0, 0xAC, 2, 1, 0x21, 1, dict, 0, 0, 0, 0];
    assert [2, 0xC0] + HeaderBody(dict, 12, 5, 1) == [2, 0xC0, 5, 1, 0x21, 1, dict, 0];
  }

  // An index of two blocks: number of records, then unpadded and uncompressed size of each.
  lemma IndexInNumbers(c: Sums)
    ensures var s := [0, 2, 0xAC, 2, 5, 25, 1, 0]; IndexBytes(c, [Record(300, 5), Record(25, 1)]) == s + c.crc32(s)
    ensures var s := [0, 1, 25, 1]; IndexBytes(c, [Record(25, 1)]) == s + c.crc32(s)
  {
    assert Vli(300) == [0xAC, 2];
    var one, two := Record(300, 5), Record(25, 1);
    assert RecordBytes(one) == [0xAC, 2, 5] && RecordBytes(two) == [25, 1];
    assert [one, two][1..] == [two] && [two][1..] == [];
    assert RecordsBytes([two]) == [25, 1];
    assert RecordsBytes([one, two]) == [0xAC, 2, 5, 25, 1];
    hide RecordsBytes, RecordBytes;
    assert [0] + Vli(2) + RecordsBytes([one, two]) == [0, 2, 0xAC, 2, 5, 25, 1];
    assert [0] + Vli(1) + RecordsBytes([two]) == [0, 1, 25, 1];
    assert IndexBody([one, two]) == [0, 2, 0xAC, 2, 5, 25, 1, 0];
    assert IndexBody([two]) == [0, 1, 25, 1];
  }

  // A block of one byte that does not compress: header, stored byte, zeros, checksum.
  lemma OneByteBlock(p: Params, x: byte)
    requires ValidParams(p) && p.check == 4 && !Fits(p, [x])
    ensures var head := [2, 0xC0, 5, 1, 0x21, 1, 22, 0];
      EncodedBlock(p, [x]) == Block(
        head + p.sums.crc32(head) + [1, 0, 0, x, 0] + [0, 0, 0] + p.sums.crc64([x]), Record(25, 1))
  {
    ChunkIsEncodable(p, 1);
    BlockHeaderInNumbers(p.sums, LITERAL_DICT);
    StoredInNumbers([x]);
    assert CompSize(1) == 5 && HeaderSize(5, 1) == 12 && Zeros(3) == [0, 0, 0];
    assert Header(p.sums, 1) == BlockHeader(p.sums, LITERAL_DICT, 12, 5, 1);
    hide BlockHeader, Header, Stored, HeaderSize;
    assert Stored([x]) == [1, 0, 0, x, 0];
  }

  // The whole file of such a byte.
  lemma OneByteFile(p: Params, w: nat, x: byte)
    requires ValidParams(p) && p.check == 4 && !Fits(p, [x])
    ensures var head := [2, 0xC0, 5, 1, 0x21, 1, 22, 0];
      SyncFile(ConfigOf(p, w), [x]) ==
        [0xFD, 0x37, 0x7A, 0x58, 0x5A, 0, 0, 4] + p.sums.crc32([0, 4])
        + (head + p.sums.crc32(head) + [1, 0, 0, x, 0] + [0, 0, 0] + p.sums.crc64([x]))
        + ([0, 1, 25, 1] + p.sums.crc32([0, 1, 25, 1])
           + (p.sums.crc32([1, 0, 0, 0, 0, 4]) + [1, 0, 0, 0, 0, 4, 0x59, 0x5A]))
  {
    hide EncodedBlock, StreamHeader, Footer, IndexBytes, SyncFile;
    OneByteBlock(p, x);
    HeaderInNumbers(p.sums, 4);
    IndexInNumbers(p.sums);
    OneChunkFile(p, w, [x]);
  }

  // The parts of a file of one chunk.
  lemma OneChunkFile(p: Params, w: nat, chunk: seq<byte>)
    requires ValidParams(p) && 0 < |chunk| <= p.chunkSize
    ensures var b := EncodedBlock(p, chunk);
      SyncFile(ConfigOf(p, w), chunk) == StreamHeader(p.sums, p.check) + b.bytes + Trailer(p, [b.rec])
  {
    hide EncodedBlock, StreamHeader, Trailer, BlockBytes, Records, Split;
    var cfg := ConfigOf(p, w);
    OneChunk(cfg, chunk);
    assert cfg.enc(chunk) == EncodedBlock(p, chunk);
  }

  lemma OneChunk(cfg: Config, chunk: seq<byte>)
    requires 0 < |chunk| <= cfg.size
    ensures Split(chunk, cfg.size) == [chunk]
    ensures BlockBytes(cfg, [chunk]) == cfg.enc(chunk).bytes && Records(cfg, [chunk]) == [cfg.enc(chunk).rec]
  {
    assert [chunk][..0] == [];
    BlockBytesPush(cfg, [], chunk);
    assert [] + [chunk] == [chunk];
    FlatOne(chunk);
    SplitExact([chunk], chunk, cfg.size);
  }

  // The walk finds four zero bytes behind a file.
  lemma ZeroWordWalks(p: Params, w: nat, data: seq<byte>)
    requires ValidParams(p) && IndexFits(p, data)
    ensures var f := SyncFile(ConfigOf(p, w), data) + [0, 0, 0, 0];
      Walk(p.sums, EndIsFine, f, |f|) == Some([Stream(p.check, FileRecords(p, data), 4)])
  {
    hide SyncFile, Walk, IndexFits, FileRecords;
    assert [0, 0, 0, 0] == Zeros(4);
    FileWalks(p, w, data, 4);
  }
}
