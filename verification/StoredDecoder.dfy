/**
 Decoders that exist for literal blocks and the index, made from the parsers. With them the
 assumption that ReadBack makes of liblzma holds whenever the data is incompressible.
 */
module StoredDecoder {
  import opened Bytes
  import opened Format
  import opened Literal
  import opened Encoder
  import opened Coding
  import opened Frames
  import opened Plan
  import opened ReadBack

  // ---------- literal blocks ----------

  function StoredFrame(check: int, x: seq<byte>): (r: Option<seq<byte>>)
  {
    match ParseStored(x)
    case None => None
    case Some((data, n)) => if |x| == n + Pad4(n) + CheckSize(check) then Some(data) else None
  }

  lemma {:induction false} StoredPrefix(x: seq<byte>, y: seq<byte>)
    requires x <= y && ParseStored(x).Some?
    ensures ParseStored(y) == ParseStored(x)
    decreases |x|
  {
    if x[0] != END_MARKER {
      var k := 256 * (x[1] as int) + x[2] as int + 1;
      StoredPrefix(x[3 + k..], y[3 + k..]);
      assert x[3..3 + k] == y[3..3 + k];
    }
  }

  // A literal block behind its header is one frame.
  lemma StoredExtent(check: int, data: seq<byte>, tail: seq<byte>)
    requires |tail| == Pad4(|Stored(data)|) + CheckSize(check)
    ensures var c := FrameCodec(x => StoredFrame(check, x), false); var s := Stored(data) + tail;
      Extent(c, s) && c.out(s) == data
  {
    var f := x => StoredFrame(check, x);
    var s := Stored(data) + tail;
    StoredRoundTrip(data, tail);
    forall i | 0 <= i < |s|
      ensures f(s[..i]).None?
    {
      if ParseStored(s[..i]).Some? {
        StoredPrefix(s[..i], s);
      }
    }
    FirstFrameIs(f, s, 0);
  }

  // ---------- the decoders ----------

  function StoredDecoders(c: Sums): (d: Decoders)
  {
    Decoders(c, h => true, (check, h) => FrameCodec(x => StoredFrame(check, x), false), IndexCodec(c))
  }

  // When no chunk can be compressed, these decoders read what the Writer wrote.
  lemma StoredDecodes(p: Params)
    requires ValidParams(p) && forall chunk: seq<byte> :: !Fits(p, chunk)
    ensures Decodes(p, StoredDecoders(p.sums))
  {
    hide Extent, GoodCodec, EncodedBlock, FrameCodec;
    var d := StoredDecoders(p.sums);
    IndexCodecIsGood(p.sums);
    assert GoodCodec(d.index) && d.index.silent;
    forall check: nat, h: seq<byte>
      ensures GoodCodec(d.block(check, h))
    {
      FrameCodecIsGood(x => StoredFrame(check, x), false);
    }
    forall rs: seq<Record> | ValidRecords(rs)
      ensures Extent(d.index, IndexBytes(p.sums, rs))
    {
      IndexExtent(p.sums, rs);
    }
    forall chunk: seq<byte> | 0 < |chunk| <= p.chunkSize
      ensures DecodesBlock(p, d, chunk)
    {
      StoredBlock(p, chunk);
    }
  }

  lemma StoredBlock(p: Params, chunk: seq<byte>)
    requires ValidParams(p) && |chunk| <= p.chunkSize && !Fits(p, chunk)
    ensures DecodesBlock(p, StoredDecoders(p.sums), chunk)
  {
    ChunkIsEncodable(p, |chunk|);
    StoredSize(chunk);
    var n := CompSize(|chunk|);
    var head := Literal.Header(p.sums, |chunk|);
    var tail := Zeros(Pad4(n)) + CheckBytes(p.sums, p.check, chunk);
    hide CompSize, Stored, FrameCodec, Extent;
    assert EncodedBlock(p, chunk).bytes == head + (Stored(chunk) + tail);
    assert HeaderLength(EncodedBlock(p, chunk).bytes) == |head|;
    Cut(head, Stored(chunk) + tail);
    StoredExtent(p.check, chunk, tail);
  }
}
