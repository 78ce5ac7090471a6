/**
 When Process (lib/base.go:103-155) stops short of the end: BUF_ERROR after destinations of size
 zero, and the end of a source that does not go on beyond the coder's input.
 */
module Endings {
  import opened Bytes
  import opened Coding
  import opened Process

  const BUFFER_SIZE: nat := 0x1_0000

  // ---------- destinations of size zero ----------

  // The coder has eaten its input and has more to give than the output buffer holds.
  ghost predicate Overfull(z: CodingStream)
    reads z, z.coder, z.outBuf, z.outBuf.buf, z.inBuf
  {
    && z.Valid() && z.coder.codec.done(z.coder.eaten)
    && |z.coder.codec.out(z.coder.eaten)| > |z.delivered| + z.outBuf.buf.Length
  }

  lemma OverfullIsNotDone(z: CodingStream)
    requires Overfull(z)
    ensures !z.coder.Done() && !z.coder.codec.bad(z.coder.eaten)
    ensures |z.coder.made| == |z.delivered| + z.outBuf.len && z.coder.made < z.coder.codec.out(z.coder.eaten)
  {
  }

  // A destination of size zero takes nothing; while the buffer is not full, more gets into it.
  method Nibble(z: CodingStream, src: Source)
    requires Overfull(z)
    modifies z`delivered, z.coder, z.inBuf, z.inBuf.buf, z.outBuf, z.outBuf.buf, src
    ensures Overfull(z) && z.coder.eaten == old(z.coder.eaten) && z.delivered == old(z.delivered)
    ensures old(z.outBuf.len) < z.outBuf.buf.Length ==> z.outBuf.len > old(z.outBuf.len)
    ensures old(z.Full()) ==> z.Full() && !z.Live()
  {
    hide Ring.Contents, Coder.Valid, Coder.Done, Running, GoodCodec;
    OverfullIsNotDone(z);
    var none := new Dest(0);
    var outCnt, inCnt, st;
    ghost var x;
    outCnt, inCnt, st, x := z.Process(none, src);
    assert z.delivered == old(z.delivered);
    OverfullIsNotDone(z);
  }

  // Destinations of size zero fill the buffer and then make the coder starve, and the next call,
  // although its destination takes all that is buffered, fails with output missing.
  method ZeroSizesStarve(z: CodingStream, src: Source) returns (st: Status)
    requires Overfull(z)
    modifies z`delivered, z.coder, z.inBuf, z.inBuf.buf, z.outBuf, z.outBuf.buf, src
    ensures z.Valid() && st.NoProgress? && z.coder.eaten == old(z.coder.eaten)
    ensures z.delivered == z.coder.made < z.coder.codec.out(z.coder.eaten)
  {
    hide Ring.Contents, Coder.Valid, Coder.Done, Running, GoodCodec;
    var cap := z.outBuf.buf.Length;
    while z.outBuf.len < cap
      invariant Overfull(z) && z.coder.eaten == old(z.coder.eaten) && z.outBuf.len <= cap
      decreases cap - z.outBuf.len
    {
      Nibble(z, src);
    }
    Nibble(z, src);
    OverfullIsNotDone(z);
    var dst := new Dest(cap);
    var outCnt, inCnt;
    ghost var x;
    ghost var made := z.coder.made;
    outCnt, inCnt, st, x := z.Process(dst, src);
    assert !z.Truncated(src);
    assert z.delivered == made;
  }

  // ---------- sources that end with the coder's input ----------

  // The input is complete with its last byte and not before.
  ghost predicate Exact(z: CodingStream, src: Source)
    requires z.inBuf.Valid()
    reads z.coder, z.inBuf, z.inBuf.buf, src
  {
    z.coder.codec.done(z.Input(src)) && Running(z.coder.codec, z.Input(src))
  }

  lemma EndsWithInput(z: CodingStream, src: Source)
    requires z.Valid() && Exact(z, src)
    ensures !z.Truncated(src) && !z.coder.codec.bad(z.coder.eaten)
    ensures Ends(z.coder.codec, z.coder.eaten) ==> z.coder.eaten == z.Input(src)
    ensures z.Exhausted(src) ==> z.coder.eaten == z.Input(src)
    ensures z.delivered <= z.coder.made <= z.coder.codec.out(z.Input(src))
  {
    var all := z.Input(src);
    assert z.coder.eaten <= all;
    if z.Exhausted(src) { assert z.coder.eaten == all; }
    if Ends(z.coder.codec, z.coder.eaten) { OnlyEnd(z.coder.codec, z.coder.eaten, all); }
  }

  // One call with a destination that has room for everything ends the stream, or reports the end
  // of the source.
  method LargeCall(z: CodingStream, src: Source, room: nat) returns (st: Status)
    requires z.Valid() && z.Live() && Exact(z, src) && room >= |z.coder.codec.out(z.Input(src))|
    modifies z`delivered, z.coder, z.inBuf, z.inBuf.buf, z.outBuf, z.outBuf.buf, src
    ensures z.Valid() && z.Live() && (st.End? || st.Eof?) && z.Input(src) == old(z.Input(src)) == z.coder.eaten
    ensures z.delivered == z.coder.made && (st.End? ==> z.coder.Done())
    ensures old(z.coder.eaten) != z.Input(src) ==>
      |z.coder.made| <= Most(z.coder.codec, z.Input(src)) + 2 * z.outBuf.buf.Length
    ensures old(z.Hasty(src, false)) ==> st.Eof?
  {
    hide Ring.Contents, Coder.Valid, Running, GoodCodec, CodingStream.Hasty, Most;
    var dst := new Dest(room);
    var outCnt, inCnt;
    ghost var x;
    outCnt, inCnt, st, x := z.Process(dst, src);
    EndsWithInput(z, src);
  }

  // Whatever the coder does: when the last byte of the input brings more than two buffers of
  // output, Process reports the end of the source with output missing.
  method EofLosesOutput(z: CodingStream, src: Source, room: nat) returns (st: Status)
    requires z.Valid() && z.Live() && Exact(z, src) && room >= |z.coder.codec.out(z.Input(src))|
    requires z.coder.eaten != z.Input(src)
    requires |z.coder.codec.out(z.Input(src))| > Most(z.coder.codec, z.Input(src)) + 2 * z.outBuf.buf.Length
    modifies z`delivered, z.coder, z.inBuf, z.inBuf.buf, z.outBuf, z.outBuf.buf, src
    ensures z.Valid() && z.Live() && st.Eof? && z.coder.eaten == z.Input(src) == old(z.Input(src))
    ensures z.delivered == z.coder.made < z.coder.codec.out(z.coder.eaten)
  {
    hide Ring.Contents, Running, Most;
    st := LargeCall(z, src, room);
    EndsWithInput(z, src);
  }

  // And for every codec and every such input there are a coder and a reader, which do nothing
  // wrong, with which Process reports the end of the source and never the end of the stream. So
  // only a source that goes on beyond the coder's input is safe (Process.Pump).
  method EveryExactSourceCanEndEarly(codec: Codec, all: seq<byte>, room: nat) returns (st: Status)
    requires GoodCodec(codec) && all != [] && codec.done(all) && Running(codec, all) && room >= |codec.out(all)|
    ensures st.Eof?
  {
    hide Ring.Contents, GoodCodec;
    var coder := new Coder.Lazy(codec);
    var outBuf := new Ring(BUFFER_SIZE);
    var inBuf := new Ring(BUFFER_SIZE);
    var z := new CodingStream(coder, outBuf, inBuf);
    var src := new Source(all, WithLast);
    assert z.Input(src) == all;
    st := LargeCall(z, src, room);
  }

  // A caller that goes on after the end of the source gets everything, and then the end: no more
  // calls are needed than there are bytes, and two.
  method GoOn(z: CodingStream, src: Source, sizes: seq<nat>) returns (got: seq<byte>, st: Status)
    requires z.Valid() && z.Live() && Exact(z, src) && Positive(sizes) && sizes != []
    modifies z`delivered, z.coder, z.inBuf, z.inBuf.buf, z.outBuf, z.outBuf.buf, src
    ensures z.Valid() && z.Live() && z.Input(src) == old(z.Input(src)) && z.delivered == old(z.delivered) + got
    ensures st.End? || st.ShortWrite? || st.Eof?
    ensures st.End? ==> z.delivered == z.coder.codec.out(z.Input(src))
    ensures |sizes| >= |z.coder.codec.out(z.Input(src))| + 2 ==> st.End?
  {
    hide Ring.Contents, Coder.Valid, Running, GoodCodec, CodingStream.Hasty, Most, Content, Stop;
    got, st := [], ShortWrite;
    ghost var all := z.Input(src);
    var i := 0;
    while i < |sizes| && !st.End?
      invariant i <= |sizes| && z.Valid() && z.Live() && z.Input(src) == all && z.delivered == old(z.delivered) + got
      invariant st.End? || st.ShortWrite? || st.Eof?
      invariant st.End? ==> z.coder.Done() && z.outBuf.len == 0
      invariant !st.End? ==> i <= |got| + (if z.coder.eaten == all then 1 else 0)
      decreases |sizes| - i, !st.End?
    {
      EndsWithInput(z, src);
      var part;
      part, st := Another(z, src, sizes[i]);
      got := got + part;
      i := i + 1;
    }
    EndsWithInput(z, src);
  }

  // Each further call delivers at least one byte, or eats the last of the input, or ends.
  method Another(z: CodingStream, src: Source, size: nat) returns (part: seq<byte>, st: Status)
    requires z.Valid() && z.Live() && Exact(z, src) && size > 0
    modifies z`delivered, z.coder, z.inBuf, z.inBuf.buf, z.outBuf, z.outBuf.buf, src
    ensures z.Valid() && z.Live() && z.Input(src) == old(z.Input(src)) && z.delivered == old(z.delivered) + part
    ensures st.End? || st.ShortWrite? || st.Eof?
    ensures st.End? ==> z.coder.Done() && z.outBuf.len == 0
    ensures old(z.coder.eaten) <= z.coder.eaten
    ensures !st.End? ==> |part| > 0 || (z.coder.eaten == z.Input(src) && old(z.coder.eaten) != z.Input(src))
  {
    hide Ring.Contents, Coder.Valid, Running, GoodCodec, CodingStream.Hasty, Most;
    EndsWithInput(z, src);
    var dst := new Dest(size);
    var outCnt, inCnt;
    ghost var x;
    outCnt, inCnt, st, x := z.Process(dst, src);
    EndsWithInput(z, src);
    part := dst.received;
  }

  // ---------- arguments with which Process does not return ----------

  // A nil source, and a coder that needs more input: once the coder has got nowhere, a turn of the
  // loop changes nothing and does not return.
  method NilSourceSpins(z: CodingStream, dst: Dest) returns (r: Option<Status>)
    requires z.Valid() && dst.Valid() && z.inBuf.len == z.outBuf.len == 0 && z.coder.stalled
    requires z.coder.made == z.coder.codec.out(z.coder.eaten) && !Ends(z.coder.codec, z.coder.eaten)
    modifies z`delivered, z.coder, z.inBuf`pos, z.inBuf`len, z.outBuf, z.outBuf.buf, dst
    ensures r.None? && z.Valid() && z.inBuf.len == z.outBuf.len == 0 && z.coder.stalled
    ensures z.coder.eaten == old(z.coder.eaten) && z.coder.made == old(z.coder.made)
    ensures z.delivered == old(z.delivered) && dst.received == old(dst.received)
  {
    hide Ring.Contents, Running, GoodCodec;
    var input, room, n, m, st, k, short;
    ghost var was := z.coder.eaten;
    input, room, n, m, st := z.Turn(null);
    assert z.coder.eaten == was && m == 0;
    st := Cleared(st, false, true, input, room);
    k, short := z.Deliver(dst);
    r := Switch(short, st, false, z.outBuf.len, z.inBuf.len);
  }

  // A nil destination, and a coder that has more to give than the buffer holds: the same.
  method NilDestinationSpins(z: CodingStream, src: Source) returns (r: Option<Status>)
    requires Overfull(z) && z.Full() && z.inBuf.len > 0 && z.coder.stalled
    modifies z.coder, z.inBuf`pos, z.inBuf`len, z.outBuf`len, z.outBuf.buf
    ensures r.None? && Overfull(z) && z.Full() && z.inBuf.len == old(z.inBuf.len) && z.coder.stalled
    ensures z.coder.eaten == old(z.coder.eaten) && z.coder.made == old(z.coder.made)
  {
    hide Ring.Contents, Running, GoodCodec;
    ghost var was := z.coder.eaten;
    OverfullIsNotDone(z);
    var input, room, n, m, st;
    input, room, n, m, st := z.Turn(src);
    z.AtEnd(was);
    OverfullIsNotDone(z);
    st := Cleared(st, true, false, input, room);
    r := Switch(false, st, false, z.outBuf.len, z.inBuf.len);
  }

  // ---------- two inputs ----------

  // Two full buffers of zeros and one more, on an input of one byte.
  function Flood(x: seq<byte>): (t: seq<byte>)
  {
    if x == [] then [] else Zeros(2 * BUFFER_SIZE + 1)
  }

  function FloodCodec(): (c: Codec)
    ensures c.done([1]) && c.out([1]) == Flood([1]) && c.out([]) == []
  {
    Codec(x => Flood(x), x => x != [], x => false, false)
  }

  lemma FloodIsGood()
    ensures GoodCodec(FloodCodec()) && Running(FloodCodec(), [1]) && Most(FloodCodec(), [1]) == 0
    ensures |Flood([1])| == 2 * BUFFER_SIZE + 1
  {
    assert [1][..0] == [];
  }

  method FloodIsLost() returns (st: Status, left: nat)
    ensures st.Eof? && left > 0
  {
    hide Ring.Contents, GoodCodec, Running, Most, FloodCodec, Flood;
    FloodIsGood();
    var coder := new Coder(FloodCodec());
    var outBuf := new Ring(BUFFER_SIZE);
    var inBuf := new Ring(BUFFER_SIZE);
    var z := new CodingStream(coder, outBuf, inBuf);
    var src := new Source([1], AnyWay);
    assert z.Input(src) == [1];
    st := EofLosesOutput(z, src, 2 * BUFFER_SIZE + 1);
    left := |Flood([1])| - |coder.made|;
  }

  // A coder that needs no input and has one byte more than the buffer holds.
  function FullCodec(): (c: Codec)
  {
    Codec(x => Zeros(BUFFER_SIZE + 1), x => true, x => false, false)
  }

  lemma FullIsGood()
    ensures GoodCodec(FullCodec()) && FullCodec().done([]) && |FullCodec().out([])| == BUFFER_SIZE + 1
  {
  }

  method ZeroSizesFail() returns (st: Status, left: nat)
    ensures st.NoProgress? && left > 0
  {
    hide Ring.Contents, GoodCodec, FullCodec;
    FullIsGood();
    var coder := new Coder(FullCodec());
    var outBuf := new Ring(BUFFER_SIZE);
    var inBuf := new Ring(BUFFER_SIZE);
    var z := new CodingStream(coder, outBuf, inBuf);
    var src := new Source([1], AnyWay);
    st := ZeroSizesStarve(z, src);
    left := BUFFER_SIZE + 1 - |coder.made|;
  }
}
