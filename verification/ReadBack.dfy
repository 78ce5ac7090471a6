/** From Writer to Reader: reading back what was written. */
module ReadBack {
  import opened Bytes
  import opened Format
  import opened Chunks
  import opened Literal
  import opened Pipeline
  import opened Encoder
  import opened WriterFile
  import opened Coding
  import Process
  import opened Plan
  import Readers
  import PipelineTheorems

  function HeaderLength(b: seq<byte>): (n: nat)
    requires b != []
  {
    4 * (b[0] as int + 1)
  }

  // Blocks are multiples of four bytes, and begin with the size of their header, which is not zero;
  // a zero would announce the index.
  lemma BlockShows(p: Params, chunk: seq<byte>)
    requires ValidParams(p) && |chunk| <= p.chunkSize
    ensures var b := EncodedBlock(p, chunk).bytes;
      b != [] && b[0] != 0 && HeaderLength(b) <= |b| && |b| % 4 == 0
  {
    hide MaxSize, TotalSizeOf, CompSize, HeaderSize, CheckBytes, Stored;
    BlockMatchesRecord(p, chunk);
    ChunkIsEncodable(p, |chunk|);
    if Fits(p, chunk) {
      ReservedSuffices(p, |p.compress(chunk)|, |chunk|);
    } else {
      HeaderSizeBound(CompSize(|chunk|), |chunk|);
    }
  }

  // What is asked of liblzma: its decoders undo the encoding, and see where it ends.
  ghost predicate Decodes(p: Params, d: Decoders)
    requires ValidParams(p)
  {
    && d.sums == p.sums && GoodDecoders(d)
    && (forall rs: seq<Record> :: ValidRecords(rs) ==> Extent(d.index, IndexBytes(p.sums, rs)))
    && (forall chunk: seq<byte> :: 0 < |chunk| <= p.chunkSize ==> DecodesBlock(p, d, chunk))
  }

  ghost predicate DecodesBlock(p: Params, d: Decoders, chunk: seq<byte>)
    requires ValidParams(p) && |chunk| <= p.chunkSize
  {
    var b := EncodedBlock(p, chunk).bytes;
    b != [] && HeaderLength(b) <= |b| ==>
      && d.headerOk(b[..HeaderLength(b)])
      && var c := d.block(p.check, b[..HeaderLength(b)]);
      Extent(c, b[HeaderLength(b)..]) && c.out(b[HeaderLength(b)..]) == chunk
  }

  function BlockItem(p: Params, chunk: seq<byte>): (b: Item)
    requires ValidParams(p)
  {
    var e := Enc(p, chunk).bytes;
    Blk(e, if e == [] then 0 else HeaderLength(e), chunk)
  }

  function BlockItems(p: Params, parts: seq<seq<byte>>, tail: seq<Item>): (items: seq<Item>)
    requires ValidParams(p)
  {
    if parts == [] then tail else [BlockItem(p, parts[0])] + BlockItems(p, parts[1..], tail)
  }

  function TailItems(p: Params, rs: seq<Record>, padding: nat, more: seq<Item>): (items: seq<Item>)
    requires ValidParams(p) && |IndexBytes(p.sums, rs)| <= BACKWARD_SIZE_MAX
  {
    var index := IndexBytes(p.sums, rs);
    [Idx(index), Foot(Footer(p.sums, p.check, |index|)), Pad(Zeros(padding))] + more
  }

  // What the Writer's file consists of, with padding and other streams behind it.
  function FilePlan(p: Params, data: seq<byte>, padding: nat, more: seq<Item>): (items: seq<Item>)
    requires ValidParams(p) && IndexFits(p, data)
  {
    [Head(StreamHeader(p.sums, p.check))]
    + BlockItems(p, Split(data, p.chunkSize), TailItems(p, FileRecords(p, data), padding, more))
  }

  lemma {:induction false} BlockBytesFront(cfg: Config, parts: seq<seq<byte>>)
    requires parts != []
    ensures BlockBytes(cfg, parts) == cfg.enc(parts[0]).bytes + BlockBytes(cfg, parts[1..])
    decreases |parts|
  {
    var n := |parts| - 1;
    if n > 0 {
      BlockBytesFront(cfg, parts[..n]);
      assert parts[..n][1..] == parts[1..][..n - 1];
      Assoc(cfg.enc(parts[0]).bytes, BlockBytes(cfg, parts[1..][..n - 1]), cfg.enc(parts[n]).bytes);
    } else {
      assert BlockBytes(cfg, parts[..0]) == [] == BlockBytes(cfg, parts[1..]);
    }
  }

  lemma {:induction false} BlocksLaid(p: Params, w: nat, parts: seq<seq<byte>>, tail: seq<Item>)
    requires ValidParams(p)
    ensures BytesOf(BlockItems(p, parts, tail)) == BlockBytes(ConfigOf(p, w), parts) + BytesOf(tail)
    ensures TextOf(BlockItems(p, parts, tail)) == Flat(parts) + TextOf(tail)
    decreases |parts|
  {
    hide Enc;
    var cfg := ConfigOf(p, w);
    if parts != [] {
      BlocksLaid(p, w, parts[1..], tail);
      BlockBytesFront(cfg, parts);
      FlatPop(parts);
      hide BlockBytes, Flat;
      Assoc(cfg.enc(parts[0]).bytes, BlockBytes(cfg, parts[1..]), BytesOf(tail));
      Assoc(parts[0], Flat(parts[1..]), TextOf(tail));
      var items := BlockItems(p, parts, tail);
      assert items[1..] == BlockItems(p, parts[1..], tail);
    }
  }

  lemma {:induction false} BlocksLegal(p: Params, d: Decoders, parts: seq<seq<byte>>, tail: seq<Item>)
    requires ValidParams(p) && Decodes(p, d) && Legal(d, Blocks, p.check, 0, tail)
    requires forall i :: 0 <= i < |parts| ==> 0 < |parts[i]| <= p.chunkSize
    ensures Legal(d, Blocks, p.check, 0, BlockItems(p, parts, tail))
    decreases |parts|
  {
    hide Extent, EncodedBlock, GoodDecoders;
    if parts != [] {
      BlocksLegal(p, d, parts[1..], tail);
      BlockShows(p, parts[0]);
      assert DecodesBlock(p, d, parts[0]);
      var items := BlockItems(p, parts, tail);
      assert LegalBlock(d, p.check, items[0]);
      assert items[1..] == BlockItems(p, parts[1..], tail);
    }
  }

  // A header may follow streams of any check.
  lemma AnyCheck(d: Decoders, a: nat, b: nat, items: seq<Item>)
    ensures Legal(d, Header, a, 0, items) == Legal(d, Header, b, 0, items)
    ensures items != [] ==> Legal(d, AtStart, a, 0, items) == Legal(d, Header, b, 0, items)
  {
  }

  lemma TailLegal(p: Params, d: Decoders, rs: seq<Record>, padding: nat, more: seq<Item>)
    requires ValidParams(p) && Decodes(p, d) && ValidRecords(rs) && |IndexBytes(p.sums, rs)| <= BACKWARD_SIZE_MAX
    requires padding % 4 == 0 && Legal(d, Header, 0, 0, more)
    ensures Legal(d, Blocks, p.check, 0, TailItems(p, rs, padding, more))
  {
    hide Extent, GoodDecoders, DecodesBlock;
    AnyCheck(d, 0, p.check, more);
    var index := IndexBytes(p.sums, rs);
    hide IndexBytes;
    var foot := Footer(p.sums, p.check, |index|);
    FooterInverse(p.sums, foot, p.check, |index|);
    hide Footer, ParseFooter;
    TailLegalNow(p, d, index, foot, padding, more);
  }

  lemma TailLegalNow(p: Params, d: Decoders, index: seq<byte>, foot: seq<byte>, padding: nat, more: seq<Item>)
    requires LegalIndex(d, Idx(index)) && LegalFoot(d, p.check, |index|, Foot(foot)) && padding % 4 == 0
    requires Legal(d, Header, p.check, 0, more)
    ensures Legal(d, Blocks, p.check, 0, [Idx(index), Foot(foot), Pad(Zeros(padding))] + more)
  {
    hide Extent, Zeros, ParseFooter;
    var pad, tail, all := [Pad(Zeros(padding))] + more, [Foot(foot), Pad(Zeros(padding))] + more,
      [Idx(index), Foot(foot), Pad(Zeros(padding))] + more;
    assert all[1..] == tail && tail[1..] == pad && pad[1..] == more;
    assert Legal(d, Padding, p.check, 0, pad);
    assert Legal(d, Tail, p.check, |index|, tail);
  }

  lemma TailLaid(p: Params, rs: seq<Record>, padding: nat, more: seq<Item>)
    requires ValidParams(p) && |IndexBytes(p.sums, rs)| <= BACKWARD_SIZE_MAX
    ensures var tail := TailItems(p, rs, padding, more); var index := IndexBytes(p.sums, rs);
      && TextOf(tail) == TextOf(more)
      && BytesOf(tail) == index + (Footer(p.sums, p.check, |index|) + (Zeros(padding) + BytesOf(more)))
  {
    hide IndexBytes, Footer, Zeros;
    var tail := TailItems(p, rs, padding, more);
    var pad := [tail[2]] + more;
    assert tail[1..][1..] == pad && pad[1..] == more;
    assert BytesOf(pad) == Zeros(padding) + BytesOf(more) && TextOf(pad) == TextOf(more);
    assert TextOf(tail[1..]) == TextOf(more);
  }

  // The file is one legal stream, and its text is the data.
  lemma FileIsLegal(p: Params, d: Decoders, w: nat, data: seq<byte>, padding: nat, more: seq<Item>)
    requires ValidParams(p) && Decodes(p, d) && IndexFits(p, data) && padding % 4 == 0 && Legal(d, Header, 0, 0, more)
    ensures var plan := FilePlan(p, data, padding, more);
      && Legal(d, AtStart, 0, 0, plan) && Legal(d, Header, 0, 0, plan)
      && BytesOf(plan) == SyncFile(ConfigOf(p, w), data) + Zeros(padding) + BytesOf(more)
      && TextOf(plan) == data + TextOf(more) && GoodDecoders(d)
  {
    var parts, rs := Split(data, p.chunkSize), FileRecords(p, data);
    var tail := TailItems(p, rs, padding, more);
    SplitCuts(data, p.chunkSize);
    PartsLegal(p, d, data, padding, more);
    BlocksLaid(p, w, parts, tail);
    TailLaid(p, rs, padding, more);
    hide BlockItems, TailItems, BytesOf, TextOf, Legal, GoodDecoders, BlockBytes, StreamHeader, Zeros;
    HeadLegal(p, d, BlockItems(p, parts, tail));
    FileBytes(p, w, data, Zeros(padding), BytesOf(more));
  }

  lemma PartsLegal(p: Params, d: Decoders, data: seq<byte>, padding: nat, more: seq<Item>)
    requires ValidParams(p) && Decodes(p, d) && IndexFits(p, data) && padding % 4 == 0 && Legal(d, Header, 0, 0, more)
    ensures Legal(d, Blocks, p.check, 0,
                  BlockItems(p, Split(data, p.chunkSize), TailItems(p, FileRecords(p, data), padding, more)))
  {
    hide DecodesBlock, Extent, GoodDecoders, IndexBytes, EncodedBlock, Legal, TailItems;
    var parts, rs := Split(data, p.chunkSize), FileRecords(p, data);
    SplitCuts(data, p.chunkSize);
    RecordsValid(p, 1, parts);
    RecordsFew(p.sums, rs);
    TailLegal(p, d, rs, padding, more);
    BlocksLegal(p, d, parts, TailItems(p, rs, padding, more));
  }

  lemma FileBytes(p: Params, w: nat, data: seq<byte>, pad: seq<byte>, rest: seq<byte>)
    requires ValidParams(p) && IndexFits(p, data)
    ensures var index := IndexBytes(p.sums, FileRecords(p, data));
      SyncFile(ConfigOf(p, w), data) + pad + rest == StreamHeader(p.sums, p.check)
        + (BlockBytes(ConfigOf(p, w), Split(data, p.chunkSize))
           + (index + (Footer(p.sums, p.check, |index|) + (pad + rest))))
  {
    var parts := Split(data, p.chunkSize);
    var index := IndexBytes(p.sums, FileRecords(p, data));
    assert Records(ConfigOf(p, w), parts) == FileRecords(p, data);
    hide StreamHeader, Footer, Split, BlockBytes, IndexBytes;
    Regroup(StreamHeader(p.sums, p.check), BlockBytes(ConfigOf(p, w), parts), index,
            Footer(p.sums, p.check, |index|), pad, rest);
  }

  lemma Regroup<T>(a: seq<T>, b: seq<T>, c: seq<T>, d: seq<T>, e: seq<T>, f: seq<T>)
    ensures a + b + (c + d) + e + f == a + (b + (c + (d + (e + f))))
  {
  }

  lemma HeadLegal(p: Params, d: Decoders, items: seq<Item>)
    requires ValidParams(p) && d.sums == p.sums && Legal(d, Blocks, p.check, 0, items)
    ensures var plan := [Head(StreamHeader(p.sums, p.check))] + items;
      && Legal(d, AtStart, 0, 0, plan) && Legal(d, Header, 0, 0, plan)
      && BytesOf(plan) == StreamHeader(p.sums, p.check) + BytesOf(items) && TextOf(plan) == TextOf(items)
  {
    var head := StreamHeader(p.sums, p.check);
    var plan := [Head(head)] + items;
    HeaderInverse(p.sums, head, p.check);
    hide StreamHeader, ParseHeader;
    assert plan[1..] == items;
  }

  // What the asynchronous Writer has sent when Close returns, read back in slices of any sizes,
  // is what was given to Write, and then the end.
  method WriteThenRead(p: Params, d: Decoders, maxWorkers: nat, ghost script: seq<seq<byte>>, ghost run: seq<Label>,
                       file: seq<byte>, sizes: seq<nat>) returns (data: seq<byte>, err: Readers.Error)
    requires ValidParams(p) && Decodes(p, d) && maxWorkers > 0 && IndexFits(p, Flat(script))
    requires Runs(ConfigOf(p, maxWorkers), Init(ConfigOf(p, maxWorkers), script), run)
    requires After(ConfigOf(p, maxWorkers), Init(ConfigOf(p, maxWorkers), script), run).user.Finished?
    requires file == After(ConfigOf(p, maxWorkers), Init(ConfigOf(p, maxWorkers), script), run).sent
    requires sizes != [] && forall i :: 0 <= i < |sizes| ==> sizes[i] > 0
    ensures err.NoError? || err.EndOfFile?
    ensures err.EndOfFile? ==> data == Flat(script)
    ensures err.NoError? ==> |data| == Process.Sum(sizes) && data < Flat(script)
    ensures Process.Sum(sizes) >= |Flat(script)| ==> err.EndOfFile?
  {
    hide Runs, After, Init, SyncFile, Split, Records, Legal, BytesOf, TextOf, Decodes, FilePlan, IndexFits;
    ghost var plan := FilePlan(p, Flat(script), 0, []);
    assert file == SyncFile(ConfigOf(p, maxWorkers), Flat(script)) by {
      ConfigIsGood(p, maxWorkers);
      PipelineTheorems.AsyncRefinesSync(ConfigOf(p, maxWorkers), script, run);
    }
    NothingMore(d);
    FileIsLegal(p, d, maxWorkers, Flat(script), 0, []);
    assert file + Zeros(0) + [] == file && Flat(script) + [] == Flat(script);
    var src := new Source(file, AnyWay);
    assert file + [] == file;
    var r := new Readers.SyncReader(d, src, plan, []);
    data, err := Readers.ReadMany(r, sizes);
  }

  lemma NothingMore(d: Decoders)
    ensures Legal(d, Header, 0, 0, []) && BytesOf([]) == [] && TextOf([]) == []
  {
  }

  // ---------- several files in one ----------

  function PiecesPlan(c: Sums, pieces: seq<Piece>): (items: seq<Item>)
    requires GoodPieces(c, pieces)
  {
    if pieces == [] then []
    else FilePlan(pieces[0].p, pieces[0].data, pieces[0].padding, PiecesPlan(c, pieces[1..]))
  }

  ghost predicate DecodesAll(c: Sums, d: Decoders, pieces: seq<Piece>)
    requires GoodPieces(c, pieces)
  {
    GoodDecoders(d) && forall i :: 0 <= i < |pieces| ==> Decodes(pieces[i].p, d)
  }

  // Concatenated files with padding between them are one legal sequence of streams.
  lemma {:induction false} PiecesAreLegal(c: Sums, d: Decoders, pieces: seq<Piece>)
    requires GoodPieces(c, pieces) && DecodesAll(c, d, pieces)
    ensures var plan := PiecesPlan(c, pieces);
      && Legal(d, Header, 0, 0, plan) && (pieces != [] ==> Legal(d, AtStart, 0, 0, plan))
      && BytesOf(plan) == PiecesBytes(c, pieces) && TextOf(plan) == PiecesText(pieces)
    decreases |pieces|
  {
    if pieces == [] {
      NothingMore(d);
    } else {
      var x := pieces[0];
      OneAndMore(c, d, pieces);
      hide Legal, BytesOf, TextOf, FilePlan, Decodes, GoodDecoders, SyncFile, IndexFits,
        GoodPieces, DecodesAll, Zeros, ValidParams;
      PiecesAreLegal(c, d, pieces[1..]);
      FileIsLegal(x.p, d, 1, x.data, x.padding, PiecesPlan(c, pieces[1..]));
    }
  }

  lemma OneAndMore(c: Sums, d: Decoders, pieces: seq<Piece>)
    requires GoodPieces(c, pieces) && DecodesAll(c, d, pieces) && pieces != []
    ensures var x := pieces[0]; ValidParams(x.p) && IndexFits(x.p, x.data) && x.padding % 4 == 0 && Decodes(x.p, d)
    ensures GoodPieces(c, pieces[1..]) && DecodesAll(c, d, pieces[1..])
  {
    hide IndexFits, Decodes, GoodDecoders;
  }

  // Any number of written files, concatenated with padding between them, read back as all the data
  // in order.
  method ReadPieces(c: Sums, d: Decoders, ghost pieces: seq<Piece>, file: seq<byte>, sizes: seq<nat>)
    returns (data: seq<byte>, err: Readers.Error)
    requires GoodPieces(c, pieces) && DecodesAll(c, d, pieces) && pieces != [] && file == PiecesBytes(c, pieces)
    requires sizes != [] && forall i :: 0 <= i < |sizes| ==> sizes[i] > 0
    ensures err.NoError? || err.EndOfFile?
    ensures err.EndOfFile? ==> data == PiecesText(pieces)
    ensures err.NoError? ==> |data| == Process.Sum(sizes) && data < PiecesText(pieces)
    ensures Process.Sum(sizes) >= |PiecesText(pieces)| ==> err.EndOfFile?
  {
    data, err := ReadCut(c, d, pieces, file, [], sizes);
  }

  // Wherever such a file is cut, what is read is a part of the data. When it is cut in the middle
  // of a block, the reader does not call that a bad format: the source ends, or the coder starves.
  method ReadCut(c: Sums, d: Decoders, ghost pieces: seq<Piece>, file: seq<byte>, ghost cut: seq<byte>, sizes: seq<nat>)
    returns (data: seq<byte>, err: Readers.Error)
    requires GoodPieces(c, pieces) && DecodesAll(c, d, pieces) && pieces != [] && file + cut == PiecesBytes(c, pieces)
    requires sizes != [] && forall i :: 0 <= i < |sizes| ==> sizes[i] > 0
    ensures data <= PiecesText(pieces) && !err.ClosedPipe?
    ensures err.NoError? ==> |data| == Process.Sum(sizes) && data != PiecesText(pieces)
    ensures Process.Sum(sizes) >= |PiecesText(pieces)| ==> !err.NoError?
    ensures CutsBlock(PiecesPlan(c, pieces), |cut|) ==> !err.BadFormat?
    ensures cut == [] ==> err.NoError? || (err.EndOfFile? && data == PiecesText(pieces))
  {
    hide Legal, BytesOf, TextOf, PiecesPlan, PiecesBytes, PiecesText, GoodPieces, Decodes, CutsBlock;
    PiecesAreLegal(c, d, pieces);
    var src := new Source(file, AnyWay);
    var r := new Readers.SyncReader(d, src, PiecesPlan(c, pieces), cut);
    data, err := Readers.ReadMany(r, sizes);
  }
}
