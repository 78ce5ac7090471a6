/** The file that the Writer leaves behind, seen by the backward walk. */
module WriterFile {
  import opened Bytes
  import opened Format
  import opened Chunks
  import opened Pipeline
  import opened Encoder
  import opened IndexWalk
  import PipelineTheorems

  // The index that a Writer with these parameters builds for this data.
  function FileRecords(p: Params, data: seq<byte>): (rs: seq<Record>)
    requires ValidParams(p)
  {
    Records(ConfigOf(p, 1), Split(data, p.chunkSize))
  }

  // Close fails when the footer cannot hold the size of the index.
  predicate IndexFits(p: Params, data: seq<byte>)
    requires ValidParams(p)
  {
    |IndexBytes(p.sums, FileRecords(p, data))| <= BACKWARD_SIZE_MAX
  }

  predicate SmallParts(p: Params, parts: seq<seq<byte>>) {
    forall i :: 0 <= i < |parts| ==> |parts[i]| <= p.chunkSize
  }

  // The unpadded sizes, rounded up to four, add up to the block bytes written.
  lemma {:induction false} BlocksFill(p: Params, w: nat, parts: seq<seq<byte>>)
    requires ValidParams(p) && SmallParts(p, parts)
    ensures |BlockBytes(ConfigOf(p, w), parts)| == TotalSize(Records(ConfigOf(p, w), parts))
    decreases |parts|
  {
    if parts != [] {
      var n := |parts| - 1;
      var cfg := ConfigOf(p, w);
      BlocksFill(p, w, parts[..n]);
      BlockMatchesRecord(p, parts[n]);
      hide EncodedBlock, MaxSize;
      assert cfg.enc(parts[n]) == EncodedBlock(p, parts[n]);
      assert Records(cfg, parts)[..n] == Records(cfg, parts[..n]);
    }
  }

  lemma RecordsValid(p: Params, w: nat, parts: seq<seq<byte>>)
    requires ValidParams(p) && SmallParts(p, parts)
    ensures forall i :: 0 <= i < |parts| ==> ValidRecord(Records(ConfigOf(p, w), parts)[i])
  {
    forall i | 0 <= i < |parts|
      ensures ValidRecord(Records(ConfigOf(p, w), parts)[i])
    {
      BlockMatchesRecord(p, parts[i]);
    }
  }

  // Every record takes at least two bytes of the index and at most eighteen.
  lemma {:induction false} RecordsWeigh(rs: seq<Record>)
    ensures 2 * |rs| <= |RecordsBytes(rs)|
    ensures (forall i :: 0 <= i < |rs| ==> ValidRecord(rs[i])) ==> |RecordsBytes(rs)| <= 18 * |rs|
    decreases |rs|
  {
    if rs != [] {
      RecordsWeigh(rs[1..]);
      if ValidRecord(rs[0]) {
        NineGroups();
        VliSizeBound(rs[0].unpadSize, 9);
        VliSizeBound(rs[0].uncompSize, 9);
      }
    }
  }

  lemma RecordsFew(c: Sums, rs: seq<Record>)
    requires |IndexBytes(c, rs)| <= BACKWARD_SIZE_MAX
    ensures |rs| <= VLI_MAX
  {
    RecordsWeigh(rs);
  }

  // The walk over a finished file, with padding behind it or not, finds one stream, with the
  // records that the Writer appended.
  lemma FileWalks(p: Params, w: nat, data: seq<byte>, padding: nat)
    requires ValidParams(p) && IndexFits(p, data) && padding % 4 == 0
    ensures var f := SyncFile(ConfigOf(p, w), data) + Zeros(padding);
      Walk(p.sums, EndIsFine, f, |f|) == Some([Stream(p.check, FileRecords(p, data), padding)])
  {
    var cfg := ConfigOf(p, w);
    var parts := Split(data, p.chunkSize);
    var rs := FileRecords(p, data);
    SplitCuts(data, p.chunkSize);
    BlocksFill(p, w, parts);
    RecordsValid(p, 1, parts);
    RecordsFew(p.sums, rs);
    assert Records(cfg, parts) == rs;
    hide Records, BlockBytes, Split, TotalSize, IndexBytes, Footer, StreamHeader, Walk, Zeros;
    var s := Stream(p.check, rs, padding);
    var blocks := BlockBytes(cfg, parts);
    var f := SyncFile(cfg, data) + Zeros(padding);
    assert WellFormed(p.sums, s, blocks);
    assert f == StreamBytes(p.sums, s, blocks) by {
      Assoc(StreamHeader(p.sums, p.check) + blocks, IndexBytes(p.sums, rs),
            Footer(p.sums, p.check, |IndexBytes(p.sums, rs)|));
    }
    assert f[0..|f|] == f && f[..|f|] == f && f[..0] == [];
    assert Lays(p.sums, [], [], []);
    LaysLast(p.sums, f, 0, |f|, [s], [blocks]);
    WalkInvertsLayout(p.sums, f, |f|, [s]);
  }

  // ---------- several files in one ----------

  // A file that a Writer has written, and the padding behind it.
  datatype Piece = Piece(p: Params, data: seq<byte>, padding: nat)

  ghost predicate GoodPieces(c: Sums, pieces: seq<Piece>) {
    forall i :: 0 <= i < |pieces| ==>
      && ValidParams(pieces[i].p) && pieces[i].p.sums == c && pieces[i].padding % 4 == 0
      && IndexFits(pieces[i].p, pieces[i].data)
  }

  function PieceBytes(x: Piece): (f: seq<byte>)
    requires ValidParams(x.p)
  {
    SyncFile(ConfigOf(x.p, 1), x.data) + Zeros(x.padding)
  }

  function PiecesBytes(c: Sums, pieces: seq<Piece>): (f: seq<byte>)
    requires GoodPieces(c, pieces)
  {
    if pieces == [] then [] else PieceBytes(pieces[0]) + PiecesBytes(c, pieces[1..])
  }

  function PiecesText(pieces: seq<Piece>): (data: seq<byte>)
  {
    if pieces == [] then [] else pieces[0].data + PiecesText(pieces[1..])
  }

  function PiecesStreams(c: Sums, pieces: seq<Piece>): (ss: seq<Stream>)
    requires GoodPieces(c, pieces)
  {
    if pieces == [] then []
    else
      [Stream(pieces[0].p.check, FileRecords(pieces[0].p, pieces[0].data), pieces[0].padding)]
      + PiecesStreams(c, pieces[1..])
  }

  // The walk over files that are concatenated, with padding between them, finds the streams,
  // records and paddings of all of them in order.
  lemma {:induction false} PiecesWalk(c: Sums, pieces: seq<Piece>)
    requires GoodPieces(c, pieces)
    ensures Walk(c, EndIsFine, PiecesBytes(c, pieces), |PiecesBytes(c, pieces)|) == Some(PiecesStreams(c, pieces))
    decreases |pieces|
  {
    if pieces != [] {
      var x := pieces[0];
      FileWalks(x.p, 1, x.data, x.padding);
      PiecesWalk(c, pieces[1..]);
      hide Walk, IndexFits, FileRecords, SyncFile;
      WalkConcatenates(c, PieceBytes(x), PiecesBytes(c, pieces[1..]),
        [Stream(x.p.check, FileRecords(x.p, x.data), x.padding)], PiecesStreams(c, pieces[1..]));
    }
  }

  // The number of workers does not show in the file, nor does the way in which the data is split
  // over calls of Write, nor anything that the scheduler does.
  lemma WorkersDoNotShow(p: Params, v: nat, w: nat, one: seq<seq<byte>>, other: seq<seq<byte>>,
                         run: seq<Label>, walk: seq<Label>)
    requires ValidParams(p) && v > 0 && w > 0 && Flat(one) == Flat(other)
    requires Runs(ConfigOf(p, v), Init(ConfigOf(p, v), one), run)
    requires Runs(ConfigOf(p, w), Init(ConfigOf(p, w), other), walk)
    ensures var s := After(ConfigOf(p, v), Init(ConfigOf(p, v), one), run);
      var t := After(ConfigOf(p, w), Init(ConfigOf(p, w), other), walk);
      && (s.user.Finished? && t.user.Finished? ==> s.sent == t.sent && s.index == t.index)
      && (s.user.Finished? ==> t.sent <= s.sent)
  {
    ConfigIsGood(p, v);
    ConfigIsGood(p, w);
    PipelineTheorems.AsyncRefinesSync(ConfigOf(p, v), one, run);
    PipelineTheorems.AsyncRefinesSync(ConfigOf(p, w), other, walk);
    SameFile(p, v, w, Flat(one));
    hide Runs, After, Init, SyncFile, Records, Split;
  }

  lemma SameFile(p: Params, v: nat, w: nat, data: seq<byte>)
    requires ValidParams(p)
    ensures Records(ConfigOf(p, v), Split(data, p.chunkSize)) == Records(ConfigOf(p, w), Split(data, p.chunkSize))
    ensures SyncFile(ConfigOf(p, v), data) == SyncFile(ConfigOf(p, w), data)
  {
    hide Split, Enc, Trailer;
    SameBlocks(p, v, w, Split(data, p.chunkSize));
    assert Records(ConfigOf(p, v), Split(data, p.chunkSize)) == Records(ConfigOf(p, w), Split(data, p.chunkSize));
  }

  lemma {:induction false} SameBlocks(p: Params, v: nat, w: nat, parts: seq<seq<byte>>)
    requires ValidParams(p)
    ensures BlockBytes(ConfigOf(p, v), parts) == BlockBytes(ConfigOf(p, w), parts)
    decreases |parts|
  {
    if parts != [] {
      SameBlocks(p, v, w, parts[..|parts| - 1]);
    }
  }

  lemma BlockSizes(p: Params, data: seq<byte>, j: nat)
    requires ValidParams(p) && j < |Split(data, p.chunkSize)|
    ensures var b := Enc(p, Split(data, p.chunkSize)[j]);
      && b.rec == FileRecords(p, data)[j] && |b.bytes| == RoundUp4(b.rec.unpadSize)
      && b.rec.uncompSize == |Split(data, p.chunkSize)[j]|
  {
    var parts := Split(data, p.chunkSize);
    SplitCuts(data, p.chunkSize);
    BlockMatchesRecord(p, parts[j]);
    hide EncodedBlock, Split, MaxSize;
    assert Enc(p, parts[j]) == EncodedBlock(p, parts[j]);
  }

  // Block j begins where the records before it say, and is what the encoder made of chunk j.
  lemma BlockLands(p: Params, w: nat, data: seq<byte>, j: nat)
    requires ValidParams(p) && j < |Split(data, p.chunkSize)|
    ensures var f := SyncFile(ConfigOf(p, w), data);
      var off := STREAM_HEADER_SIZE + TotalSize(FileRecords(p, data)[..j]);
      var b := Enc(p, Split(data, p.chunkSize)[j]);
      && off + |b.bytes| <= |f| && f[off..off + |b.bytes|] == b.bytes
      && b.rec == FileRecords(p, data)[j] && |b.bytes| == RoundUp4(b.rec.unpadSize)
      && b.rec.uncompSize == |Split(data, p.chunkSize)[j]|
  {
    hide Split, TotalSize, Enc, Trailer, SyncFile, BlockBytes, FileRecords, RoundUp4;
    BlockSizes(p, data, j);
    BlocksBefore(p, w, data, j);
    FileBlock(ConfigOf(p, w), data, j);
  }

  lemma BlocksBefore(p: Params, w: nat, data: seq<byte>, j: nat)
    requires ValidParams(p) && j <= |Split(data, p.chunkSize)|
    ensures |FileRecords(p, data)| == |Split(data, p.chunkSize)|
    ensures |BlockBytes(ConfigOf(p, w), Split(data, p.chunkSize)[..j])| == TotalSize(FileRecords(p, data)[..j])
  {
    var parts := Split(data, p.chunkSize);
    SplitCuts(data, p.chunkSize);
    BlocksFill(p, w, parts[..j]);
    assert Records(ConfigOf(p, w), parts[..j]) == FileRecords(p, data)[..j];
  }

  lemma FileBlock(cfg: Config, data: seq<byte>, j: nat)
    requires cfg.size > 0 && j < |Split(data, cfg.size)|
    ensures var parts := Split(data, cfg.size); var b := cfg.enc(parts[j]).bytes;
      var off := |cfg.header| + |BlockBytes(cfg, parts[..j])|;
      off + |b| <= |SyncFile(cfg, data)| && SyncFile(cfg, data)[off..off + |b|] == b
  {
    hide Split;
    var parts := Split(data, cfg.size);
    BlockBytesPrefix(cfg, parts, j + 1);
    assert parts[..j + 1] == parts[..j] + [parts[j]];
    BlockBytesPush(cfg, parts[..j], parts[j]);
    hide Records, BlockBytes;
    Inside(cfg.header, BlockBytes(cfg, parts[..j]), cfg.enc(parts[j]).bytes, BlockBytes(cfg, parts),
      cfg.trailer(Records(cfg, parts)));
  }

  lemma Inside(head: seq<byte>, before: seq<byte>, b: seq<byte>, blocks: seq<byte>, tail: seq<byte>)
    requires before + b <= blocks
    ensures var off := |head| + |before|; var f := head + blocks + tail;
      off + |b| <= |f| && f[off..off + |b|] == b
  {
    assert before + b == blocks[..|before + b|];
    assert b == blocks[|before|..|before| + |b|];
  }

  // The footer can hold the size of the index of any 32 TiB.
  lemma SmallDataFits(p: Params, data: seq<byte>)
    requires ValidParams(p) && |data| <= 0x2000_0000_0000
    ensures IndexFits(p, data)
  {
    var parts := Split(data, p.chunkSize);
    SplitCuts(data, p.chunkSize);
    RecordsValid(p, 1, parts);
    SplitCount(data, p.chunkSize);
    hide Records, Split, IndexBytes;
    Quotient(|data|, p.chunkSize, |parts|);
    IndexSmall(p.sums, FileRecords(p, data));
  }

  // Some data is too large for its index: every chunk takes at least two bytes of it.
  lemma LargeDataDoesNotFit(p: Params, data: seq<byte>)
    requires ValidParams(p) && |data| > p.chunkSize * 0x2_0000_0000
    ensures !IndexFits(p, data)
  {
    var k := |Split(data, p.chunkSize)|;
    SplitCount(data, p.chunkSize);
    hide Split, Records;
    if k <= 0x2_0000_0000 { Product(p.chunkSize, k, 0x2_0000_0000); }
    RecordsWeigh(FileRecords(p, data));
  }

  lemma Product(n: nat, a: nat, b: nat)
    requires a <= b
    ensures n * a <= n * b
  {
  }

  lemma Quotient(total: nat, n: nat, k: nat)
    requires n >= 0x1_0000 && n * k < total + n && total <= 0x2000_0000_0000
    ensures k <= 0x2000_0000
  {
    assert k > 0 ==> n * k == n * (k - 1) + n;
    if k > 0x2000_0000 { Product(n, 0x2000_0000, k - 1); }
  }

  lemma IndexSmall(c: Sums, rs: seq<Record>)
    requires |rs| <= 0x2000_0000 && forall i :: 0 <= i < |rs| ==> ValidRecord(rs[i])
    ensures |IndexBytes(c, rs)| <= BACKWARD_SIZE_MAX
  {
    RecordsWeigh(rs);
    NineGroups();
    VliSizeBound(|rs|, 9);
    hide Vli, VliSize, RecordsBytes, Pow128;
  }

  lemma {:induction false} SplitCount(data: seq<byte>, n: nat)
    requires n > 0
    ensures |data| <= n * |Split(data, n)| < |data| + n
    decreases |data|
  {
    if |data| > n {
      SplitCount(data[n..], n);
      assert |Split(data, n)| == 1 + |Split(data[n..], n)|;
    }
  }

  // The asynchronous Writer: whatever the scheduler does, the finished file is walked back to the
  // records that were appended while it was written.
  lemma AsyncFileWalks(p: Params, maxWorkers: nat, script: seq<seq<byte>>, run: seq<Label>)
    requires ValidParams(p) && maxWorkers > 0 && IndexFits(p, Flat(script))
    requires var cfg := ConfigOf(p, maxWorkers); Runs(cfg, Init(cfg, script), run)
    ensures var cfg := ConfigOf(p, maxWorkers);
      var s := After(cfg, Init(cfg, script), run);
      s.user.Finished? ==> Walk(p.sums, EndIsFine, s.sent, |s.sent|) == Some([Stream(p.check, s.index, 0)])
  {
    var cfg := ConfigOf(p, maxWorkers);
    ConfigIsGood(p, maxWorkers);
    PipelineTheorems.AsyncRefinesSync(cfg, script, run);
    FileWalks(p, maxWorkers, Flat(script), 0);
    var f := SyncFile(cfg, Flat(script));
    assert f + Zeros(0) == f;
    assert Records(cfg, Split(Flat(script), p.chunkSize)) == FileRecords(p, Flat(script));
    hide Runs, After, Init, SyncFile, Walk, Records, Split;
  }
}
