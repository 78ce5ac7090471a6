/** The synchronous block path of the Writer as it runs (xz/writer.go:169-224, 339-394). */
module Sync {
  import opened Bytes
  import opened Format
  import opened Chunks
  import opened Literal
  import opened Pipeline
  import opened Encoder

  // A LineMono pipe of the buffered-pipe library: filled from the front, read after Close.
  class LinePipe {
    const buf: array<byte>
    var wr: nat
    var closed: bool

    ghost predicate Valid()
      reads this
    {
      wr <= buf.Length
    }

    ghost function Contents(): (s: seq<byte>)
      requires Valid()
      reads this, buf
    {
      buf[..wr]
    }

    constructor (capacity: nat)
      ensures Valid() && fresh(buf) && buf.Length == capacity && Contents() == [] && !closed && wr == 0
    {
      buf := new byte[capacity];
      wr, closed := 0, false;
    }

    // Writes what fits; a short write is reported when that is not all.
    method Write(data: seq<byte>) returns (n: nat, short: bool)
      requires Valid() && !closed
      modifies this`wr, buf
      ensures Valid() && n == Min(|data|, buf.Length - old(wr)) && short == (n < |data|)
      ensures Contents() == old(Contents()) + data[..n]
    {
      n := Min(|data|, buf.Length - wr);
      forall i | 0 <= i < n {
        buf[wr + i] := data[i];
      }
      wr := wr + n;
      short := n < |data|;
    }

    method WriteMark(n: nat)
      requires Valid() && wr + n <= buf.Length
      modifies this`wr
      ensures Valid() && wr == old(wr) + n
    {
      wr := wr + n;
    }

    method Rollback()
      modifies this`wr
      ensures Valid() && wr == 0
    {
      wr := 0;
    }

    method Close()
      modifies this`closed
      ensures closed
    {
      closed := true;
    }

    method Reset()
      modifies this`wr, this`closed
      ensures Valid() && wr == 0 && !closed
    {
      wr, closed := 0, false;
    }
  }

  // The underlying writer: it accepts `limit` bytes in all and then fails.
  class Sink {
    const limit: nat
    var received: seq<byte>

    constructor (limit: nat)
      ensures this.limit == limit && received == []
    {
      this.limit, received := limit, [];
    }

    method Write(s: seq<byte>) returns (ok: bool)
      modifies this
      ensures old(received) <= received <= old(received) + s
      ensures ok ==> received == old(received) + s
      ensures |old(received)| + |s| <= limit ==> ok
    {
      ok := |received| + |s| <= limit;
      var n := if ok then |s| else if |received| <= limit then limit - |received| else 0;
      received := received + s[..n];
    }
  }

  // What follows the header of a normal block.
  function Body(p: Params, chunk: seq<byte>): (s: seq<byte>)
  {
    var e := p.compress(chunk);
    e + Zeros(Pad4(|e|)) + CheckBytes(p.sums, p.check, chunk)
  }

  // stream.ProcessPipe twice: the whole chunk goes through the compressor into the output pipe,
  // part of the result while the chunk is read and the rest when the stream is finished. The pipe
  // reports a short write in either call when its room runs out.
  method Process(p: Params, chunk: seq<byte>, wrBuf: LinePipe) returns (short: bool)
    requires ValidParams(p) && |chunk| <= p.chunkSize && wrBuf.Valid() && wrBuf.wr == Reserved(p) && !wrBuf.closed
    requires wrBuf.buf.Length == MaxSize(p)
    modifies wrBuf`wr, wrBuf.buf
    ensures wrBuf.Valid() && short == !Fits(p, chunk)
    ensures !short ==> wrBuf.wr == |NormalBlock(p, chunk).bytes| >= Reserved(p)
    ensures !short ==> wrBuf.Contents()[Reserved(p)..] == Body(p, chunk)
  {
    hide MaxSize, TotalSizeOf, HeaderSize, CheckBytes, BlockHeader;
    ghost var was := wrBuf.Contents();
    var all := Body(p, chunk);
    var k: nat :| k <= |all|;
    var n, m, late;
    n, short := wrBuf.Write(all[..k]);
    m, late := wrBuf.Write(all[k..]);
    short := short || late;
    if !short {
      assert wrBuf.Contents() == was + all[..k] + all[k..];
      assert wrBuf.Contents() == was + all;
    }
  }

  // blockEncode. The output pipe is empty; afterwards it holds the block.
  method BlockEncode(p: Params, wrBuf: LinePipe, rdBuf: LinePipe) returns (rec: Record)
    requires ValidParams(p) && rdBuf.Valid() && rdBuf.closed && rdBuf.buf.Length == p.chunkSize
    requires wrBuf.Valid() && !wrBuf.closed && wrBuf.wr == 0 && wrBuf.buf.Length == MaxSize(p)
    requires wrBuf != rdBuf && wrBuf.buf != rdBuf.buf && Reserved(p) <= MaxSize(p)
    modifies wrBuf`wr, wrBuf.buf
    ensures wrBuf.Valid() && wrBuf.Contents() == EncodedBlock(p, rdBuf.Contents()).bytes
    ensures rec == EncodedBlock(p, rdBuf.Contents()).rec
  {
    hide MaxSize, TotalSizeOf, HeaderSize, CheckBytes, BlockHeader, LiteralBlock, CompSize, Reserved;
    var headerSize := Reserved(p);
    wrBuf.WriteMark(headerSize);
    var chunk := rdBuf.buf[..rdBuf.wr];
    var doLiteral := Process(p, chunk, wrBuf);
    if doLiteral {
      rec := EncodeLiteral(p, chunk, wrBuf);
    } else {
      rec := WriteHeader(p, chunk, wrBuf);
    }
  }

  // Encode a literal block if the data is incompressible.
  method EncodeLiteral(p: Params, input: seq<byte>, wrBuf: LinePipe) returns (rec: Record)
    requires ValidParams(p) && |input| <= p.chunkSize && wrBuf.Valid() && wrBuf.buf.Length == MaxSize(p)
    modifies wrBuf`wr, wrBuf.buf
    ensures wrBuf.Valid() && wrBuf.Contents() == FallbackBlock(p, input).bytes && rec == FallbackBlock(p, input).rec
  {
    hide TotalSizeOf, CompSize, LiteralBlock, Stored;
    ChunkIsEncodable(p, |input|);
    TotalSizeMono(p.check, |input|, p.chunkSize);
    var r := LiteralBlockEncode(p.sums, p.check, input, wrBuf.buf);
    var cnt, pad := r.value.0, r.value.1;
    Layout(p.check, |input|);
    rec := Record(cnt - pad, |input|);
    wrBuf.Rollback();
    wrBuf.WriteMark(cnt);
  }

  // Write the normal header into the reserved space.
  method WriteHeader(p: Params, chunk: seq<byte>, wrBuf: LinePipe) returns (rec: Record)
    requires ValidParams(p) && |chunk| <= p.chunkSize && Fits(p, chunk) && wrBuf.Valid()
    requires wrBuf.wr == |NormalBlock(p, chunk).bytes| && Reserved(p) <= wrBuf.wr
    requires wrBuf.Contents()[Reserved(p)..] == Body(p, chunk)
    modifies wrBuf.buf
    ensures wrBuf.Contents() == NormalBlock(p, chunk).bytes && rec == NormalBlock(p, chunk).rec
  {
    hide MaxSize, TotalSizeOf, HeaderSize, CheckBytes, CompSize;
    var e := p.compress(chunk);
    ChunkIsEncodable(p, |chunk|);
    ReservedSuffices(p, |e|, |chunk|);
    ghost var rest := wrBuf.Contents()[Reserved(p)..];
    var header := BlockHeader(p.sums, p.dict, Reserved(p), |e|, |chunk|);
    forall i | 0 <= i < |header| {
      wrBuf.buf[i] := header[i];
    }
    assert wrBuf.Contents()[Reserved(p)..] == rest;
    assert wrBuf.Contents()[..Reserved(p)] == header;
    assert wrBuf.Contents() == header + rest;
    rec := Record(Reserved(p) + |e| + CheckSize(p.check), |chunk|);
  }

  datatype Error = NoError | ClosedPipe | SinkError | IndexError

  class SyncWriter {
    const p: Params
    const sink: Sink
    const rdBuf: LinePipe
    const wrBuf: LinePipe
    var index: seq<Record>
    var closed: bool
    ghost var data: seq<byte>             // all bytes accepted by Write
    ghost var chunks: seq<seq<byte>>      // chunks that have been encoded

    ghost function Cfg(): (cfg: Config)
      requires ValidParams(p)
    {
      ConfigOf(p, 1)
    }

    ghost predicate Buffers()
      reads rdBuf, wrBuf
    {
      && ValidParams(p) && Reserved(p) <= MaxSize(p)
      && rdBuf != wrBuf && rdBuf.buf != wrBuf.buf
      && rdBuf.Valid() && !rdBuf.closed && rdBuf.buf.Length == p.chunkSize
      && wrBuf.Valid() && !wrBuf.closed && wrBuf.wr == 0 && wrBuf.buf.Length == MaxSize(p)
    }

    // Full chunks have been written out; what comes after them is in rdBuf.
    ghost predicate Written()
      requires Buffers()
      reads this, sink, rdBuf, rdBuf.buf, wrBuf
    {
      && (forall i :: 0 <= i < |chunks| ==> |chunks[i]| == p.chunkSize)
      && data == Flat(chunks) + rdBuf.Contents()
      && sink.received == Cfg().header + BlockBytes(Cfg(), chunks)
      && index == Records(Cfg(), chunks)
    }

    // What has been accepted is full chunks, and each has its record.
    ghost predicate OnlyFull()
      reads this
    {
      ValidParams(p) && |data| == p.chunkSize * |index| && index == Records(Cfg(), Split(data, p.chunkSize))
    }

    ghost predicate Valid()
      reads this, sink, rdBuf, rdBuf.buf, wrBuf
    {
      !closed && Buffers() && Written() && (chunks != [] ==> rdBuf.wr > 0)
    }

    // The header has been written by NewWriter.
    constructor (p: Params, sink: Sink)
      requires ValidParams(p) && sink.received == StreamHeader(p.sums, p.check)
      ensures Valid() && this.p == p && this.sink == sink && data == []
      ensures fresh(rdBuf) && fresh(wrBuf) && fresh(rdBuf.buf) && fresh(wrBuf.buf)
    {
      this.p, this.sink := p, sink;
      rdBuf := new LinePipe(p.chunkSize);
      wrBuf := new LinePipe(MaxSize(p));
      index, closed, data, chunks := [], false, [], [];
      new;
      ReservedFits(p);
    }

    // rdBuf holds a chunk; it is encoded, recorded and written out, and rdBuf is emptied.
    method BlockEncodeSync() returns (ok: bool)
      requires Buffers() && Written()
      modifies this`index, this`chunks, sink, rdBuf, wrBuf, wrBuf.buf
      ensures Buffers() && rdBuf.wr == 0 && sink.received <= old(sink.received) + Cfg().enc(old(rdBuf.Contents())).bytes
      ensures ok ==> sink.received == old(sink.received) + Cfg().enc(old(rdBuf.Contents())).bytes
      ensures index == old(index) + [Cfg().enc(old(rdBuf.Contents())).rec]
      ensures chunks == old(chunks) + [old(rdBuf.Contents())]
      ensures |old(sink.received)| + |Cfg().enc(old(rdBuf.Contents())).bytes| <= sink.limit ==> ok
    {
      hide MaxSize, Reserved, EncodedBlock, BlockBytes, Records;
      ghost var chunk := rdBuf.Contents();
      rdBuf.Close();
      var rec := BlockEncode(p, wrBuf, rdBuf);
      index := index + [rec];
      chunks := chunks + [chunk];
      wrBuf.Close();
      ok := sink.Write(wrBuf.buf[..wrBuf.wr]);
      wrBuf.Reset();
      rdBuf.Reset();
    }

    // Encodes the chunk in rdBuf; `more` is what the user has yet to write.
    method Flush(ghost more: seq<byte>) returns (ok: bool)
      requires Buffers() && Written() && rdBuf.wr > 0 && (more != [] ==> rdBuf.wr == p.chunkSize)
      modifies this`index, this`chunks, sink, rdBuf, wrBuf, wrBuf.buf
      ensures Buffers() && rdBuf.wr == 0 && sink.received <= SyncFile(Cfg(), data + more)
      ensures ok && old(rdBuf.wr) == p.chunkSize ==> Written()
      ensures old(rdBuf.wr) == p.chunkSize ==> OnlyFull()
      ensures ok && more == [] ==>
        sink.received == SyncBody(Cfg(), data) && index == Records(Cfg(), Split(data, p.chunkSize))
      ensures |SyncFile(Cfg(), data + more)| <= sink.limit ==> ok
    {
      hide MaxSize, Reserved, EncodedBlock, Enc, Trailer;
      ghost var parts, c := chunks, rdBuf.Contents();
      Flushed(p, parts, c, more);
      BlockBytesPush(Cfg(), parts, c);
      FlatPush(parts, c);
      Assoc(Cfg().header, BlockBytes(Cfg(), parts), Cfg().enc(c).bytes);
      Assoc(Flat(parts), c, more);
      if |c| == p.chunkSize { FullChunks(parts + [c], p.chunkSize); }
      hide BlockBytes, Records, SyncBody, SyncFile, Split;
      ok := BlockEncodeSync();
      assert rdBuf.Contents() == [];
    }

    lemma SentNow(more: seq<byte>)
      requires Buffers() && Written()
      ensures sink.received <= SyncFile(Cfg(), data + more)
    {
      SentSoFar(p, chunks, rdBuf.Contents(), more);
    }

    method Write(d: seq<byte>) returns (cnt: nat, err: Error)
      requires closed || Valid()
      modifies this`index, this`chunks, this`data, sink, rdBuf, rdBuf.buf, wrBuf, wrBuf.buf
      ensures old(closed) ==> err.ClosedPipe? && cnt == 0 && sink.received == old(sink.received)
      ensures !old(closed) ==> ValidParams(p) && (err.NoError? || err.SinkError?)
      ensures err.NoError? ==> Valid() && cnt == |d|
      ensures cnt <= |d| && data == old(data) + d[..cnt]
      ensures err.SinkError? ==> OnlyFull()
      ensures !old(closed) ==> sink.received <= SyncFile(Cfg(), old(data) + d)
      ensures !old(closed) && |SyncFile(Cfg(), old(data) + d)| <= sink.limit ==> err.NoError?
    {
      if closed { return 0, ClosedPipe; }
      cnt, err := WriteBlocks(d);
    }

    // The synchronous blocks branch of Write.
    method WriteBlocks(d: seq<byte>) returns (cnt: nat, err: Error)
      requires Valid()
      modifies this`index, this`chunks, this`data, sink, rdBuf, rdBuf.buf, wrBuf, wrBuf.buf
      ensures ValidParams(p) && (err.NoError? || err.SinkError?)
      ensures err.NoError? ==> Valid() && cnt == |d|
      ensures cnt <= |d| && data == old(data) + d[..cnt]
      ensures err.SinkError? ==> OnlyFull()
      ensures sink.received <= SyncFile(Cfg(), old(data) + d)
      ensures |SyncFile(Cfg(), old(data) + d)| <= sink.limit ==> err.NoError?
    {
      SentNow(d);
      ghost var file := SyncFile(Cfg(), data + d);
      hide Buffers, Written, SyncFile, ConfigOf, MaxSize, Reserved, OnlyFull;
      cnt := 0;
      var ok := true;
      while ok && cnt < |d|
        invariant ValidParams(p) && !closed && cnt <= |d| && Buffers() && (ok ==> Written())
        invariant data == old(data) + d[..cnt]
        invariant !ok ==> OnlyFull()
        invariant ok ==> cnt < |d| || (chunks != [] ==> rdBuf.wr > 0)
        invariant sink.received <= file
        invariant |file| <= sink.limit ==> ok
        decreases ok, |d| - cnt, rdBuf.wr
      {
        Resume(old(data), d, cnt);
        var rdCnt;
        rdCnt, ok := Round(d[cnt..]);
        cnt := cnt + rdCnt;
      }
      assert d[..|d|] == d;
      err := if ok then NoError else SinkError;
    }

    // One round of the loop in Write: fill rdBuf, and encode its chunk after a short write.
    method Round(d: seq<byte>) returns (n: nat, ok: bool)
      requires Buffers() && Written() && d != [] && sink.received <= SyncFile(Cfg(), data + d)
      modifies this`index, this`chunks, this`data, sink, rdBuf, rdBuf.buf, wrBuf, wrBuf.buf
      ensures n <= |d| && Buffers() && (ok ==> Written()) && data == old(data) + d[..n]
      ensures !ok ==> OnlyFull()
      ensures ok ==> n > 0 || rdBuf.wr < old(rdBuf.wr)
      ensures ok && n == |d| ==> rdBuf.wr > 0
      ensures sink.received <= SyncFile(Cfg(), old(data) + d)
      ensures |SyncFile(Cfg(), old(data) + d)| <= sink.limit ==> ok
    {
      hide MaxSize, Reserved, BlockBytes, Records, SyncFile, ConfigOf, Flat, OnlyFull;
      var short;
      n, short := Fill(d);
      ok := true;
      if short {
        assert old(data) + d == data + d[n..];
        ok := Flush(d[n..]);
      }
    }

    // rdBuf takes what it has room for.
    method Fill(d: seq<byte>) returns (n: nat, short: bool)
      requires Buffers() && Written()
      modifies this`data, rdBuf`wr, rdBuf.buf
      ensures Buffers() && Written() && n == Min(|d|, p.chunkSize - old(rdBuf.wr)) && short == (n < |d|)
      ensures rdBuf.wr == old(rdBuf.wr) + n && data == old(data) + d[..n]
    {
      hide MaxSize, Reserved, BlockBytes, Records, ConfigOf;
      n, short := rdBuf.Write(d);
      data := data + d[..n];
    }

    // Close writes the last chunk, the index and the footer; a second Close does nothing.
    method Close() returns (err: Error)
      requires closed || Valid()
      modifies this`index, this`chunks, this`closed, sink, rdBuf, wrBuf, wrBuf.buf
      ensures closed
      ensures old(closed) ==> err.NoError? && sink.received == old(sink.received)
      ensures !old(closed) ==> ValidParams(p) && sink.received <= SyncFile(Cfg(), data)
      ensures !old(closed) && !err.SinkError? ==>
        && sink.received == SyncFile(Cfg(), data)
        && index == Records(Cfg(), Split(data, p.chunkSize))
        && (err.IndexError? <==> |IndexBytes(p.sums, index)| > BACKWARD_SIZE_MAX)
      ensures !old(closed) && |SyncFile(Cfg(), data)| <= sink.limit ==> !err.SinkError?
      ensures !err.ClosedPipe?
    {
      if closed { return NoError; }
      hide MaxSize, Reserved, BlockBytes, IndexBytes, Footer, Flat, SyncFile, SyncBody, ConfigOf, Records, Split;
      closed := true;
      ghost var file := SyncFile(Cfg(), data);
      AllSplit(p, chunks, rdBuf.Contents());
      SentSoFar(p, chunks, rdBuf.Contents(), []);
      assert data + [] == data;
      if rdBuf.wr > 0 {
        var ok := Flush([]);
        if !ok { return SinkError; }
      }
      err := Finish(file);
    }

    // The index and the footer behind the blocks.
    method Finish(ghost file: seq<byte>) returns (err: Error)
      requires ValidParams(p) && sink.received == SyncBody(Cfg(), data)
      requires index == Records(Cfg(), Split(data, p.chunkSize))
      requires file == SyncFile(Cfg(), data)
      modifies sink
      ensures sink.received <= file
      ensures !err.SinkError? ==>
        sink.received == file && (err.IndexError? <==> |IndexBytes(p.sums, index)| > BACKWARD_SIZE_MAX)
      ensures |file| <= sink.limit ==> !err.SinkError?
      ensures !err.ClosedPipe?
    {
      hide MaxSize, Reserved, BlockBytes, IndexBytes, Footer, Split, Records, SyncBody;
      var ib := IndexBytes(p.sums, index);
      assert file == sink.received + Trailer(p, index);
      var ok := sink.Write(ib);
      if !ok { return SinkError; }
      if |ib| > BACKWARD_SIZE_MAX { return IndexError; }
      var footer := Footer(p.sums, p.check, |ib|);
      Assoc(old(sink.received), ib, footer);
      ok := sink.Write(footer);
      err := if ok then NoError else SinkError;
    }
  }

  // The chunk about to be flushed is the next chunk of the data.
  lemma NextChunk(p: Params, parts: seq<seq<byte>>, c: seq<byte>, more: seq<byte>)
    requires ValidParams(p) && (forall i :: 0 <= i < |parts| ==> |parts[i]| == p.chunkSize)
    requires 0 < |c| <= p.chunkSize && (more != [] ==> |c| == p.chunkSize)
    ensures var all := Split(Flat(parts) + c + more, p.chunkSize);
      && |parts| < |all| && all[..|parts| + 1] == parts + [c]
      && (more == [] ==> parts + [c] == Split(Flat(parts) + c, p.chunkSize))
  {
    SplitFront(parts, c + more, p.chunkSize);
    Assoc(Flat(parts), c, more);
    assert more == [] ==> c + more == c;
    hide Flat;
  }

  lemma Flushed(p: Params, parts: seq<seq<byte>>, c: seq<byte>, more: seq<byte>)
    requires ValidParams(p) && (forall i :: 0 <= i < |parts| ==> |parts[i]| == p.chunkSize)
    requires 0 < |c| <= p.chunkSize && (more != [] ==> |c| == p.chunkSize)
    ensures var cfg := ConfigOf(p, 1);
      && cfg.header + BlockBytes(cfg, parts + [c]) <= SyncFile(cfg, Flat(parts) + c + more)
      && (more == [] ==> parts + [c] == Split(Flat(parts) + c, p.chunkSize))
  {
    hide Split, Flat, BlockBytes, Records, Enc, Trailer;
    NextChunk(p, parts, c, more);
    BlockBytesPrefix(ConfigOf(p, 1), Split(Flat(parts) + c + more, p.chunkSize), |parts| + 1);
  }

  // Full chunks are the cut of what they make up.
  lemma FullChunks(parts: seq<seq<byte>>, n: nat)
    requires n > 0 && forall i :: 0 <= i < |parts| ==> |parts[i]| == n
    ensures Split(Flat(parts), n) == parts && |Flat(parts)| == n * |parts|
  {
    SplitFront(parts, [], n);
    assert Flat(parts) + [] == Flat(parts);
    FullLength(parts, n);
    hide Flat;
  }

  lemma {:induction false} FullLength(parts: seq<seq<byte>>, n: nat)
    requires forall i :: 0 <= i < |parts| ==> |parts[i]| == n
    ensures |Flat(parts)| == n * |parts|
    decreases |parts|
  {
    if parts != [] {
      FullLength(parts[..|parts| - 1], n);
      assert n * |parts| == n * (|parts| - 1) + n;
    }
  }

  lemma Resume<T>(was: seq<T>, d: seq<T>, cnt: nat)
    requires cnt <= |d|
    ensures was + d[..cnt] + d[cnt..] == was + d
    ensures forall n :: 0 <= n <= |d| - cnt ==> was + d[..cnt] + d[cnt..][..n] == was + d[..cnt + n]
  {
  }

  lemma ChunksSoFar(p: Params, parts: seq<seq<byte>>, c: seq<byte>, more: seq<byte>)
    requires ValidParams(p) && (forall i :: 0 <= i < |parts| ==> |parts[i]| == p.chunkSize)
    ensures var all := Split(Flat(parts) + c + more, p.chunkSize); |parts| <= |all| && all[..|parts|] == parts
  {
    SplitFront(parts, c + more, p.chunkSize);
    Assoc(Flat(parts), c, more);
    hide Flat;
  }

  lemma SentSoFar(p: Params, parts: seq<seq<byte>>, c: seq<byte>, more: seq<byte>)
    requires ValidParams(p) && (forall i :: 0 <= i < |parts| ==> |parts[i]| == p.chunkSize)
    ensures var cfg := ConfigOf(p, 1);
      cfg.header + BlockBytes(cfg, parts) <= SyncFile(cfg, Flat(parts) + c + more)
  {
    hide Split, Flat, BlockBytes, Records, Enc, Trailer;
    ChunksSoFar(p, parts, c, more);
    BlockBytesPrefix(ConfigOf(p, 1), Split(Flat(parts) + c + more, p.chunkSize), |parts|);
  }

  lemma AllSplit(p: Params, parts: seq<seq<byte>>, c: seq<byte>)
    requires ValidParams(p) && (forall i :: 0 <= i < |parts| ==> |parts[i]| == p.chunkSize)
    ensures var cfg := ConfigOf(p, 1);
      c == [] ==> parts == Split(Flat(parts) + c, p.chunkSize)
                  && SyncBody(cfg, Flat(parts) + c) == cfg.header + BlockBytes(cfg, parts)
  {
    SplitFront(parts, c, p.chunkSize);
  }

  lemma ReservedFits(p: Params)
    requires ValidParams(p)
    ensures Reserved(p) <= MaxSize(p)
  {
    ChunkIsEncodable(p, p.chunkSize);
    hide HeaderSize;
  }
}
