/** The synchronous Reader (xz/reader.go:97-172, 230-251). */
module Readers {
  import opened Bytes
  import opened Format
  import opened Coding
  import opened Process
  import opened Plan

  datatype Error = NoError | ClosedPipe | EndOfFile | BadFormat | CoderError

  const BUFFER_SIZE: nat := 0x1_0000

  class SyncReader {
    const d: Decoders
    const rd: Source
    const rdBuf: Ring
    const wrBuf: Ring
    var closed: bool
    var state: ReadState
    var check: nat
    var backward: nat
    var stream: CodingStream?

    // What is missing at the end of the source; nothing, unless the file has been cut.
    ghost const cut: seq<byte>

    // The block in progress and what it decodes to, and what comes after it.
    ghost var body: seq<byte>
    ghost var text: seq<byte>
    ghost var items: seq<Item>

    // What has been taken from the source for the caller and not used.
    ghost function Ahead(): (s: seq<byte>)
      requires rdBuf.Valid()
      reads rdBuf, rdBuf.buf, rd
    {
      rdBuf.Contents() + rd.rest
    }

    ghost predicate Buffers()
      reads rdBuf, wrBuf
    {
      && rdBuf != wrBuf && rdBuf.buf != wrBuf.buf && rdBuf.Valid() && wrBuf.Valid()
      && rdBuf.buf.Length == wrBuf.buf.Length == BUFFER_SIZE && GoodDecoders(d)
    }

    // No block is in progress: the items are what lies ahead, and the state expects them. As all
    // items are multiples of four bytes, the ring is turned by a multiple of four.
    ghost predicate Between()
      requires Buffers()
      reads this, rd, rdBuf, rdBuf.buf, wrBuf
    {
      stream == null && wrBuf.len == 0 && Ahead() + cut == BytesOf(items) && rdBuf.pos % 4 == 0
      && Legal(d, state, check, if state.Tail? then backward else 0, items)
    }

    // A block is in progress.
    ghost predicate InBlock()
      requires Buffers()
      reads this, rd, rdBuf, rdBuf.buf, wrBuf, wrBuf.buf, stream, if stream == null then {} else {stream.coder}
    {
      && stream != null && state.Blocks? && stream.inBuf == rdBuf && stream.outBuf == wrBuf && stream.Valid()
      && stream.Offset() == 0 && |body| % 4 == 0
      && Extent(stream.coder.codec, body) && text == stream.coder.codec.out(body)
      && stream.Input(rd) + cut == body + BytesOf(items) && Legal(d, Blocks, check, 0, items)
    }

    // Too little is left for what has to come next.
    ghost predicate Torn()
      requires Buffers()
      reads this, rd, rdBuf, rdBuf.buf, wrBuf
    {
      var n := |Ahead()|;
      stream == null &&
      match state
      case AtStart => n < STREAM_HEADER_SIZE
      case Header => 0 < n < STREAM_HEADER_SIZE
      case Blocks => n == 0 || (Ahead()[0] != 0 && n < 4 * (Ahead()[0] as int + 1))
      case Index => false
      case Tail => n < STREAM_HEADER_SIZE
      case Padding => 0 < n < 4
    }

    // The source ends inside the data of a block that is in progress or still to come.
    ghost predicate MidBlock()
      reads this
    {
      CutsBlock(items, |cut|) || (stream != null && |BytesOf(items)| < |cut|)
    }

    // Between items, what lies ahead ends in a block only if the next item is complete, or is a
    // block whose header is.
    lemma TornElsewhere()
      requires Buffers() && Between() && (Torn() || Ahead() == [])
      ensures !MidBlock()
    {
      hide Ring.Contents, Extent;
      if CutsBlock(items, |cut|) {
        CutsWithin(items, |cut|);
        Front(items, Ahead() + cut);
        if Ahead() != [] { assert Ahead()[0] == (Ahead() + cut)[0]; }
        if CutsBlock(items[1..], |cut|) {
          CutsWithin(items[1..], |cut|);
          if state.Padding? { HeadOrEnd(d, Header, check, items[1..]); }
          if CutsBlock(items[1..][1..], |cut|) { CutsWithin(items[1..][1..], |cut|); }
        }
      }
    }

    // What the caller is still to get.
    ghost function Remaining(): (s: seq<byte>)
      reads this, stream
    {
      (if stream != null && |stream.delivered| <= |text| then text[|stream.delivered|..] else []) + TextOf(items)
    }

    // readFull(size) will return no more than what it is asked for: what the buffer will hold
    // either is that much, or does not wrap around before it.
    ghost predicate Whole(size: nat)
      requires Buffers()
      reads rd, rdBuf, rdBuf.buf, wrBuf
    {
      var cap := rdBuf.buf.Length;
      var ready := if rdBuf.len < size then Min(cap, |Ahead()|) else rdBuf.len;
      size <= Min(ready, cap - rdBuf.pos) || size == ready
    }

    // NewReader; `plan` is what the source holds, apart from the bytes that have been cut off.
    constructor (d: Decoders, rd: Source, ghost plan: seq<Item>, ghost cut: seq<byte>)
      requires GoodDecoders(d) && rd.rest + cut == BytesOf(plan) && Legal(d, AtStart, 0, 0, plan)
      ensures Valid() && Fluent() && !closed && this.d == d && this.rd == rd && this.cut == cut
      ensures items == plan && Remaining() == TextOf(plan)
      ensures fresh(rdBuf) && fresh(rdBuf.buf) && fresh(wrBuf) && fresh(wrBuf.buf) && stream == null
    {
      this.d, this.rd, this.cut := d, rd, cut;
      rdBuf := new Ring(BUFFER_SIZE);
      wrBuf := new Ring(BUFFER_SIZE);
      closed, state, check, backward, stream := false, AtStart, 0, 0, null;
      body, text, items := [], [], plan;
    }

    // The first bytes that are ready, at least `size` of them. When they wrap around the end of
    // the buffer, all of them are returned, and not only the first `size`.
    method ReadFull(size: nat, doMark: bool, canEOF: bool) returns (r: seq<byte>, err: Error)
      requires Buffers() && 0 < size <= 1024
      modifies rd, rdBuf, rdBuf.buf
      ensures Buffers() && (err.NoError? || err.EndOfFile? || err.BadFormat?)
      ensures err.NoError? <==> size <= old(|Ahead()|)
      ensures err.EndOfFile? <==> old(Ahead()) == [] && canEOF
      ensures Ahead() == if err.NoError? && doMark then old(Ahead()[size..]) else old(Ahead())
      ensures err.NoError? ==> size <= |r| && r <= old(Ahead())
      ensures err.NoError? ==> (|r| == size <==> old(Whole(size))) && (!doMark ==> rdBuf.len >= size)
      ensures rdBuf.pos == old(rdBuf.pos) || (err.NoError? && doMark
        && (rdBuf.pos == old(rdBuf.pos) + size || rdBuf.pos == old(rdBuf.pos) + size - BUFFER_SIZE))
    {
      hide Ring.Contents;
      if rdBuf.len < size {
        ReadFrom();
      }
      var lo, hi := rdBuf.ReadSlices();
      var ready := |lo| + |hi|;
      if ready == 0 && canEOF { return [], EndOfFile; }
      if ready < size { return [], BadFormat; }
      if doMark {
        rdBuf.ReadMark(size);
      }
      err := NoError;
      r := if |lo| >= size then lo[..size] else lo + hi;
    }

    // rdBuf.ReadFrom(rd): until the buffer is full or the source ends.
    method ReadFrom()
      requires Buffers()
      modifies rd, rdBuf`len, rdBuf.buf
      ensures Buffers() && Ahead() == old(Ahead())
      ensures rdBuf.len == Min(rdBuf.buf.Length, |Ahead()|) && rdBuf.pos == old(rdBuf.pos)
      ensures rdBuf.len == rdBuf.buf.Length || rd.rest == []
    {
      hide Ring.Contents;
      var eof := false;
      while !eof && rdBuf.len < rdBuf.buf.Length
        invariant Buffers() && Ahead() == old(Ahead()) && (eof ==> rd.rest == [])
        decreases !eof, rdBuf.buf.Length - rdBuf.len
      {
        var s;
        s, eof := rd.Read(rdBuf.WriteRoom());
        rdBuf.Push(s);
      }
    }

    // A header or footer: the first `size` bytes and no more, wherever the ring wraps.
    method ReadItem(size: nat, canEOF: bool) returns (s: seq<byte>, err: Error)
      requires Buffers() && rdBuf.pos % 4 == size % 4 == 0 && 0 < size <= 1024
      modifies rd, rdBuf, rdBuf.buf
      ensures Buffers() && rdBuf.pos % 4 == 0
      ensures err == if size <= |old(Ahead())| then NoError
        else if old(Ahead()) == [] && canEOF then EndOfFile else BadFormat
      ensures if err.NoError? then s == old(Ahead()[..size]) && Ahead() == old(Ahead()[size..])
        else Ahead() == old(Ahead())
    {
      hide Ring.Contents, GoodDecoders;
      ghost var ahead := Ahead();
      s, err := ReadFull(size, true, canEOF);
      if err.NoError? {
        assert s[..size] == ahead[..size];
        s := s[..size];
      }
    }

    // readInit and readHeader, on any source: the next twelve bytes are the header of some check, or
    // the format is bad. End of file only if a stream has been read before.
    method TakeHeader() returns (err: Error)
      requires Buffers() && (state.AtStart? || state.Header?) && rdBuf.pos % 4 == 0
      modifies this`state, this`check, rd, rdBuf, rdBuf.buf
      ensures Buffers() && rdBuf.pos % 4 == 0
      ensures Ahead() == if |old(Ahead())| < 12 then old(Ahead()) else old(Ahead()[12..])
      ensures |old(Ahead())| < 12 ==> err == if old(Ahead()) == [] && old(state.Header?) then EndOfFile else BadFormat
      ensures |old(Ahead())| >= 12 ==>
        if err.NoError? then check < 16 && old(Ahead()[..12]) == StreamHeader(d.sums, check)
        else err.BadFormat? && forall k: nat :: k < 16 ==> old(Ahead()[..12]) != StreamHeader(d.sums, k)
      ensures if err.NoError? then state.Blocks? else state == old(state) && check == old(check)
    {
      hide Ring.Contents, GoodDecoders, ParseHeader, StreamHeader;
      var header;
      header, err := ReadItem(STREAM_HEADER_SIZE, !state.AtStart?);
      if !err.NoError? { return; }
      forall k: nat | k < 16
        ensures ParseHeader(d.sums, header) == Some(k) <==> header == StreamHeader(d.sums, k)
      {
        HeaderInverse(d.sums, header, k);
      }
      var flags := ParseHeader(d.sums, header);
      if flags.None? { return BadFormat; }
      check := flags.value;
      state := Blocks;
    }

    // The same where the items say what comes.
    method DoHeader() returns (err: Error)
      requires Buffers() && (state.AtStart? || state.Header?) && Between()
      modifies this`state, this`check, this`items, rd, rdBuf, rdBuf.buf
      ensures Buffers() && Between() && Remaining() == old(Remaining()) && MidBlock() == old(MidBlock())
      ensures EndsHere(err) && (err.NoError? || (err.EndOfFile? && state.Header?) || err.BadFormat?)
      ensures err.NoError? ==> state.Blocks? && old(items) != [] && items == old(items)[1..]
      ensures cut == [] ==> !err.BadFormat? && (err.EndOfFile? ==> Remaining() == [])
    {
      hide Ring.Contents, GoodDecoders, ParseHeader, StreamHeader;
      HeadOrEnd(d, state, check, items);
      ghost var ahead := Ahead();
      if |ahead| >= 12 {
        Front(items, ahead + cut);
        assert ahead[..12] == (ahead + cut)[..12] == items[0].bytes;
        assert ahead[12..] + cut == (ahead + cut)[12..];
        ghost var k := ParseHeader(d.sums, items[0].bytes).value;
        HeaderInverse(d.sums, items[0].bytes, k);
      }
      err := TakeHeader();
      if !err.NoError? {
        TornElsewhere();
        return;
      }
      HeaderInverse(d.sums, items[0].bytes, check);
      items := items[1..];
    }

    // readBlock without a block in progress: the index comes next, or a block is begun.
    method StartBlock() returns (err: Error)
      requires Buffers() && Between() && state.Blocks?
      modifies this`state, this`stream, this`body, this`text, this`items, rd, rdBuf, rdBuf.buf
      ensures Buffers() && Remaining() == old(Remaining()) && MidBlock() == old(MidBlock())
      ensures err.NoError? || (err.BadFormat? && Between() && state.Blocks? && Torn() && cut != [])
      ensures stream == null && err.NoError? ==> state.Index? && Between()
      ensures stream == null ==> items == old(items)
      ensures stream != null ==> err.NoError? && fresh(stream) && fresh(stream.coder) && InBlock() && stream.Live()
      ensures stream != null ==> old(items) != [] && items == old(items)[1..]
    {
      hide Ring.Contents, LegalBlock, LegalIndex;
      ghost var ahead := Ahead();
      Front(items, ahead + cut);
      BlockOrIndex(d, check, items);
      var first;
      first, err := ReadFull(1, false, false);
      if !err.NoError? { return; }
      var val := first[0];
      assert val == ahead[0] == (ahead + cut)[0] == items[0].bytes[0];
      if val == 0 {
        state := Index;
      } else {
        err := BeginBlock(val);
      }
    }

    // The header of a block whose first byte is val, on any source: all of it and acceptable, or the
    // format is bad.
    method TakeBlockHeader(val: byte) returns (header: seq<byte>, err: Error)
      requires Buffers() && rdBuf.pos % 4 == 0
      modifies rd, rdBuf, rdBuf.buf
      ensures Buffers() && rdBuf.pos % 4 == 0 && (err.NoError? || err.BadFormat?)
      ensures var size := 4 * (val as int + 1);
        if |old(Ahead())| < size then err.BadFormat? && Ahead() == old(Ahead())
        else header == old(Ahead()[..size]) && Ahead() == old(Ahead()[size..]) && (err.NoError? <==> d.headerOk(header))
    {
      header, err := ReadItem(4 * (val as int + 1), false);
      if err.NoError? && !d.headerOk(header) {
        err := BadFormat;
      }
    }

    method BeginBlock(val: byte) returns (err: Error)
      requires Buffers() && Between() && state.Blocks? && items != [] && LegalBlock(d, check, items[0])
      requires Ahead() != [] && val == items[0].bytes[0] == Ahead()[0] && Legal(d, Blocks, check, 0, items[1..])
      modifies this`stream, this`body, this`text, this`items, rd, rdBuf, rdBuf.buf
      ensures Buffers() && Remaining() == old(Remaining()) && MidBlock() == old(MidBlock())
      ensures err.NoError? ==> stream != null && fresh(stream) && fresh(stream.coder) && InBlock() && stream.Live()
      ensures err.NoError? ==> items == old(items)[1..]
      ensures !err.NoError? ==> err.BadFormat? && Between() && Torn() && cut != [] && items == old(items)
    {
      hide Ring.Contents, Legal, Extent, BytesOf, TextOf, Running, GoodCodec, Coder.Valid, Coder.Done;
      ghost var ahead, b := Ahead(), items[0];
      Front(items, ahead + cut);
      if b.hs <= |ahead| { Parts(ahead, cut, b.bytes, BytesOf(items[1..]), b.hs, ahead); }
      var header;
      header, err := TakeBlockHeader(val);
      if !err.NoError? { return; }
      var coder := new Coder(d.block(check, header));
      hide GoodDecoders;
      Install(coder);
    }

    // r.stream = the decoder of the block at hand
    method Install(coder: Coder)
      requires Buffers() && stream == null && wrBuf.len == 0 && state.Blocks? && items != [] && rdBuf.pos % 4 == 0
      requires LegalBlock(d, check, items[0]) && Legal(d, Blocks, check, 0, items[1..])
      requires Ahead() + cut == items[0].bytes[items[0].hs..] + BytesOf(items[1..])
      requires coder.Valid() && coder.codec == CodecOf(d, check, items[0])
      requires coder.eaten == coder.made == [] && !coder.stalled
      modifies this`stream, this`body, this`text, this`items
      ensures Buffers() && Remaining() == old(Remaining()) && items == old(items)[1..] && MidBlock() == old(MidBlock())
      ensures stream != null && fresh(stream) && stream.coder == coder && InBlock() && stream.Live()
    {
      hide Ring.Contents, Legal, Extent, BytesOf, TextOf, Running, GoodCodec, Coder.Valid, Coder.Done, GoodDecoders;
      FrontText(items);
      stream := new CodingStream(coder, wrBuf, rdBuf);
      body, text, items := items[0].bytes[items[0].hs..], items[0].text, items[1..];
      assert text[0..] == text;
    }

    // readIndex
    method DoIndex() returns (err: Error)
      requires Buffers() && Between() && state.Index?
      modifies this`state, this`backward, this`items, rd, rdBuf, rdBuf.buf, wrBuf, wrBuf.buf
      ensures Buffers() && Remaining() == old(Remaining()) && wrBuf.len == 0 && MidBlock() == old(MidBlock())
      ensures err.NoError? ==> Between() && state.Tail? && old(items) != [] && items == old(items)[1..]
      ensures !err.NoError? ==> err.EndOfFile? && Ahead() == [] && cut != [] && !MidBlock()
      ensures !err.NoError? ==> state.Index? && items == old(items)
    {
      hide Ring.Contents, Extent, BytesOf, TextOf;
      Front(items, Ahead() + cut);
      FrontText(items);
      MoreComes(d, Tail, check, |items[0].bytes|, items[1..]);
      var size;
      size, err := RunIndex(items[0].bytes, BytesOf(items[1..]));
      if CutsBlock(items[1..], |cut|) { CutsWithin(items[1..], |cut|); }
      if !err.NoError? { return; }
      backward := size;
      items := items[1..];
      state := Tail;
    }

    // The index decoder on any source: it eats the index and nothing else, or the index is corrupt, or
    // the source ends.
    method TakeIndex() returns (size: nat, err: Error, ghost eaten: seq<byte>)
      requires Buffers() && wrBuf.len == 0
      modifies rd, rdBuf, rdBuf.buf, wrBuf, wrBuf.buf
      ensures Buffers() && wrBuf.len == 0 && old(Ahead()) == eaten + Ahead() && size == |eaten|
      ensures Running(d.index, eaten) && (rdBuf.pos - old(rdBuf.pos) - size) % 4 == 0
      ensures err.NoError? || err.EndOfFile? || err.CoderError?
      ensures err.NoError? ==> d.index.done(eaten)
      ensures err.CoderError? <==> d.index.bad(eaten)
      ensures err.EndOfFile? ==> Ahead() == []
    {
      hide Ring.Contents, Extent, Running, GoodCodec, Ends;
      var coder := new Coder(d.index);
      var index := new CodingStream(coder, wrBuf, rdBuf);
      assert index.Input(rd) == Ahead();
      var outCnt, inCnt, st;
      ghost var x;
      outCnt, inCnt, st, x := index.Process(null, rd);
      size, eaten := |index.coder.eaten|, index.coder.eaten;
      Assoc(eaten, rdBuf.Contents(), rd.rest);
      err := if st.End? then NoError else if st.Eof? then EndOfFile else CoderError;
      if index.Exhausted(rd) { assert Ahead() == []; }
    }

    // The same where the items say what comes.
    method RunIndex(ghost b: seq<byte>, ghost more: seq<byte>) returns (size: nat, err: Error)
      requires Buffers() && wrBuf.len == 0 && Ahead() + cut == b + more && more != [] && Extent(d.index, b)
      requires rdBuf.pos % 4 == |b| % 4 == 0
      modifies rd, rdBuf, rdBuf.buf, wrBuf, wrBuf.buf
      ensures Buffers() && wrBuf.len == 0
      ensures err.NoError? ==> Ahead() + cut == more && size == |b| && rdBuf.pos % 4 == 0
      ensures !err.NoError? ==> err.EndOfFile? && Ahead() == [] && cut != [] && |cut| >= |more|
    {
      hide Ring.Contents, Running, GoodCodec;
      ghost var eaten;
      size, err, eaten := TakeIndex();
      Assoc(eaten, Ahead(), cut);
      Eaten(d.index, eaten, Ahead() + cut, b, more);
    }

    // readFooter, on any source: the next twelve bytes are the footer that goes with the header and the
    // index that have been read, or the format is bad.
    method TakeFooter() returns (err: Error)
      requires Buffers() && state.Tail? && rdBuf.pos % 4 == 0
      modifies this`state, rd, rdBuf, rdBuf.buf
      ensures Buffers() && rdBuf.pos % 4 == 0 && (err.NoError? || err.BadFormat?)
      ensures Ahead() == if |old(Ahead())| < 12 then old(Ahead()) else old(Ahead()[12..])
      ensures err.NoError? <==>
        && |old(Ahead())| >= 12 && check < 16 && backward % 4 == 0 && 4 <= backward <= BACKWARD_SIZE_MAX
        && old(Ahead()[..12]) == Footer(d.sums, check, backward)
      ensures state == if err.NoError? then Padding else old(state)
    {
      hide Ring.Contents, GoodDecoders, ParseFooter, Footer;
      var footer;
      footer, err := ReadItem(STREAM_HEADER_SIZE, false);
      if !err.NoError? { return; }
      if check < 16 && backward % 4 == 0 && 4 <= backward <= BACKWARD_SIZE_MAX {
        FooterInverse(d.sums, footer, check, backward);
      }
      if ParseFooter(d.sums, footer) != Some((check, backward)) { return BadFormat; }
      state := Padding;
    }

    // The same where the items say what comes.
    method DoFooter() returns (err: Error)
      requires Buffers() && Between() && state.Tail?
      modifies this`state, this`items, rd, rdBuf, rdBuf.buf
      ensures Buffers() && Between() && Remaining() == old(Remaining()) && MidBlock() == old(MidBlock())
      ensures err.NoError? ==> state.Padding? && old(items) != [] && items == old(items)[1..]
      ensures EndsHere(err) && (err.NoError? || (err.BadFormat? && cut != []))
    {
      hide Ring.Contents, TextOf, GoodDecoders, ParseFooter, Footer;
      FrontText(items);
      ghost var ahead := Ahead();
      Front(items, ahead + cut);
      if |ahead| >= 12 {
        assert ahead[..12] == (ahead + cut)[..12] == items[0].bytes;
        assert ahead[12..] + cut == (ahead + cut)[12..];
        FooterInverse(d.sums, items[0].bytes, check, backward);
      }
      hide BytesOf;
      err := TakeFooter();
      if !err.NoError? {
        TornElsewhere();
        return;
      }
      items := items[1..];
    }

    // From a position that is a multiple of four, four bytes never wrap around.
    lemma WordsAreWhole()
      requires Buffers() && rdBuf.pos % 4 == 0 && |Ahead()| >= 4
      ensures Whole(4)
    {
      assert rdBuf.buf.Length - rdBuf.pos >= 4;
    }

    // One word of padding.
    method PaddingWord() returns (ok: bool, err: Error)
      requires Buffers() && rdBuf.pos % 4 == 0
      modifies rd, rdBuf, rdBuf.buf
      ensures Buffers() && (err.NoError? || err.EndOfFile? || err.BadFormat?)
      ensures err.EndOfFile? <==> old(Ahead()) == []
      ensures err.NoError? <==> old(|Ahead()|) >= 4
      ensures Ahead() == if err.NoError? && ok then old(Ahead()[4..]) else old(Ahead())
      ensures err.NoError? ==> (ok <==> old(Ahead()[..4]) == Zeros(4))
      ensures rdBuf.pos % 4 == 0
    {
      hide Ring.Contents;
      if |Ahead()| >= 4 { WordsAreWhole(); }
      var padding;
      padding, err := ReadFull(4, false, true);
      ok := padding == Zeros(4);
      assert err.NoError? ==> padding[..4] == Ahead()[..4];
      if err.NoError? && ok {
        rdBuf.ReadMark(4);
      }
    }

    // Once round the loop of readPadding: the item shrinks by a word, or is used up.
    method SkipWord() returns (ok: bool, err: Error)
      requires Buffers() && Between() && state.Padding?
      modifies this`items, rd, rdBuf, rdBuf.buf
      ensures Buffers() && Between() && Remaining() == old(Remaining()) && MidBlock() == old(MidBlock())
      ensures old(items) != [] && items != [] && items[1..] == old(items)[1..]
      ensures err.NoError? ==> if ok then |items[0].bytes| < old(|items[0].bytes|) else items[0].bytes == []
      ensures EndsHere(err) && (err.NoError? || err.EndOfFile? || err.BadFormat?)
      ensures cut == [] ==> !err.BadFormat? && (err.EndOfFile? ==> Remaining() == [])
    {
      hide Ring.Contents, Legal, BytesOf, TextOf, Zeros, CutsBlock, GoodDecoders;
      PadCases(d, check, items);
      ghost var ahead := Ahead();
      ok, err := PaddingWord();
      if !err.NoError? {
        TornElsewhere();
        return;
      }
      assert ahead[..4] == (ahead + cut)[..4] && ahead[4..] + cut == (ahead + cut)[4..];
      if ok {
        ghost var next := [Pad(items[0].bytes[4..])] + items[1..];
        assert next[1..] == items[1..];
        PadCases(d, check, next);
        items := next;
      }
    }

    // readPadding
    method DoPadding() returns (err: Error)
      requires Buffers() && Between() && state.Padding?
      modifies this`state, this`items, rd, rdBuf, rdBuf.buf
      ensures Buffers() && Between() && Remaining() == old(Remaining()) && MidBlock() == old(MidBlock())
      ensures err.NoError? ==> state.Header? && old(items) != [] && items == old(items)[1..]
      ensures EndsHere(err) && (err.NoError? || (state.Padding? && (err.EndOfFile? || err.BadFormat?)))
      ensures cut == [] ==> !err.BadFormat? && (err.EndOfFile? ==> Remaining() == [])
    {
      hide Ring.Contents, Legal, BytesOf, TextOf, Zeros, CutsBlock, GoodDecoders;
      err := NoError;
      var ok := true;
      PadCases(d, check, items);
      while ok
        invariant Buffers() && Between() && state.Padding? && Remaining() == old(Remaining())
        invariant MidBlock() == old(MidBlock())
        invariant items != [] && items[1..] == old(items)[1..] && err.NoError? && (!ok ==> items[0].bytes == [])
        decreases ok, |items[0].bytes|
      {
        ok, err := SkipWord();
        if !err.NoError? { return; }
      }
      PadCases(d, check, items);
      items := items[1..];
      state := Header;
    }

    // Process on the block in progress, on any source: `full` says that dst can take no more of it.
    // Without an error it has come to its end, and all of it has been delivered.
    method TakeBlock(dst: Dest) returns (err: Error, full: bool, ghost x: seq<byte>)
      requires Buffers() && dst.Valid() && stream != null && stream.inBuf == rdBuf && stream.outBuf == wrBuf
      requires stream.Valid()
      modifies stream, stream.coder, rd, rdBuf, rdBuf.buf, wrBuf, wrBuf.buf, dst
      ensures Buffers() && dst.Valid() && stream.Valid() && stream.Input(rd) == old(stream.Input(rd))
      ensures stream.Offset() == old(stream.Offset()) && stream.delivered == old(stream.delivered) + x
      ensures dst.received == old(dst.received) + x && (full <==> wrBuf.len > 0)
      ensures full ==> err.NoError? && |dst.received| == dst.cap
      ensures !full && err.NoError? ==> stream.coder.Done()
      ensures !full && stream.coder.codec.bad(stream.coder.eaten) ==> err.CoderError?
      ensures err.NoError? || err.EndOfFile? || err.CoderError?
      ensures err.EndOfFile? ==> stream.Exhausted(rd)
      ensures err.CoderError? && !stream.coder.codec.bad(stream.coder.eaten) ==>
        !old(stream.Live()) || (old(stream.coder.stalled) && stream.Exhausted(rd))
      ensures old(|dst.received|) < dst.cap || old(wrBuf.len) < wrBuf.buf.Length ==> stream.Live()
    {
      hide Ring.Contents, Extent, Running, GoodCodec, Coder.Valid, Coder.Done, Ends, CodingStream.Hasty,
        CodingStream.Input;
      var outCnt, inCnt, st;
      outCnt, inCnt, st, x := stream.Process(dst, rd);
      full := st.ShortWrite?;
      err := if st.End? || full then NoError else if st.Eof? then EndOfFile else CoderError;
    }

    // The same where the items say what comes.
    method RunCoder(dst: Dest) returns (err: Error, full: bool, ghost x: seq<byte>)
      requires Buffers() && InBlock() && dst.Valid()
      modifies stream, stream.coder, rd, rdBuf, rdBuf.buf, wrBuf, wrBuf.buf, dst
      ensures Buffers() && dst.Valid() && dst.received == old(dst.received) + x && old(Remaining()) == x + Remaining()
      ensures full ==> err.NoError? && |dst.received| == dst.cap && Remaining() != []
      ensures if err.NoError? && !full
        then wrBuf.len == 0 && Ahead() + cut == BytesOf(items) && rdBuf.pos % 4 == 0 && Remaining() == TextOf(items)
        else InBlock()
      ensures err.NoError? || err.EndOfFile? || err.CoderError?
      ensures err.EndOfFile? ==> Ahead() == [] && cut != [] && wrBuf.len == 0
      ensures err.CoderError? ==> !old(stream.Live()) || (old(stream.coder.stalled) && Ahead() == [] && cut != [])
      ensures old(|dst.received|) < dst.cap || old(wrBuf.len) < wrBuf.buf.Length ==> stream.Live()
    {
      hide Ring.Contents, Legal, BytesOf, TextOf, Extent, CutsBlock, GoodDecoders, CodingStream.Valid, Coder.Done,
        CodingStream.Live, CodingStream.Input;
      MoreComes(d, Blocks, check, 0, items);
      BlockOutcome(stream, rd, body, BytesOf(items), cut);
      ghost var was := |stream.delivered|;
      err, full, x := TakeBlock(dst);
      BlockOutcome(stream, rd, body, BytesOf(items), cut);
      Delivered(text, was, x);
      if stream.Exhausted(rd) { assert Ahead() == []; }
    }

    // readBlock with a block in progress.
    method RunBlock(dst: Dest) returns (err: Error, full: bool, ghost x: seq<byte>)
      requires Buffers() && InBlock() && dst.Valid()
      modifies this`stream, stream, stream.coder, rd, rdBuf, rdBuf.buf, wrBuf, wrBuf.buf, dst
      ensures Buffers() && dst.Valid() && dst.received == old(dst.received) + x && old(Remaining()) == x + Remaining()
      ensures (stream == null || stream == old(stream)) && MidBlock() == old(MidBlock())
      ensures full ==> err.NoError? && InBlock() && |dst.received| == dst.cap && Remaining() != []
      ensures err.NoError? && !full ==> stream == null && Between()
      ensures !err.NoError? ==> InBlock() && (err.EndOfFile? || err.CoderError?)
      ensures err.EndOfFile? ==> Ahead() == [] && cut != [] && wrBuf.len == 0
      ensures err.CoderError? ==> !old(stream.Live()) || (old(stream.coder.stalled) && Ahead() == [] && cut != [])
      ensures full && (old(|dst.received|) < dst.cap || old(wrBuf.len) < wrBuf.buf.Length) ==> stream.Live()
    {
      hide Ring.Contents, Legal, BytesOf, TextOf, Extent, CutsBlock, GoodDecoders, CodingStream.Valid;
      err, full, x := RunCoder(dst);
      if err.NoError? && !full {
        stream := null;
      }
    }

    // What may be called between two Reads.
    ghost predicate Valid()
      reads this, rd, rdBuf, rdBuf.buf, wrBuf, wrBuf.buf, stream, if stream == null then {} else {stream.coder}
    {
      Buffers() && (Between() || InBlock())
    }

    // Where reading may end: too little is left, or nothing is left between streams, inside a block
    // or inside an index. There the decoder has eaten part of the index.
    ghost predicate EndsHere(err: Error)
      requires Buffers()
      reads this, rd, rdBuf, rdBuf.buf, wrBuf, wrBuf.buf, stream, if stream == null then {} else {stream.coder}
    {
      match err
      case NoError => true
      case BadFormat => Between() && Torn() && !MidBlock()
      case EndOfFile => Ahead() == [] && !Torn() && if MidBlock() then InBlock() else Valid() || state.Index?
      case CoderError => Ahead() == [] && InBlock()
      case ClosedPipe => false
    }

    // A source from which nothing has been cut ends with the last item.
    ghost predicate EndsWell(err: Error, fluent: bool)
      requires Buffers()
      reads this, rd, rdBuf, rdBuf.buf, wrBuf, wrBuf.buf, stream, if stream == null then {} else {stream.coder}
    {
      cut == [] ==>
        !err.BadFormat? && (err.EndOfFile? ==> Valid() && Remaining() == []) && (err.CoderError? ==> !fluent)
    }

    // Room for the coder has not been lacking twice.
    ghost predicate Fluent()
      reads this, wrBuf, stream, if stream == null then {} else {stream.coder}
    {
      stream != null ==> stream.coder.stalled ==> wrBuf.len < wrBuf.buf.Length
    }

    ghost function Rank(): (n: nat)
      reads this
    {
      if stream != null then 2 else if state.Blocks? then 1 else 0
    }

    // readBlock
    method DoBlock(dst: Dest) returns (err: Error, full: bool, ghost x: seq<byte>)
      requires Buffers() && (Between() || InBlock()) && state.Blocks? && dst.Valid()
      modifies this, stream, if stream == null then {} else {stream.coder}, rd, rdBuf, rdBuf.buf, wrBuf, wrBuf.buf, dst
      ensures Buffers() && dst.Valid() && dst.received == old(dst.received) + x && old(Remaining()) == x + Remaining()
      ensures closed == old(closed) && (items == old(items) || (old(items) != [] && items == old(items)[1..]))
      ensures MidBlock() == old(MidBlock())
      ensures if full then err.NoError? && InBlock() else err.NoError? ==> stream == null && Between()
      ensures (stream == null || stream == old(stream) || fresh(stream)) && fresh(Coders() - old(Coders()))
      ensures full ==> Remaining() != [] && |dst.received| == dst.cap
      ensures full && (old(wrBuf.len) < wrBuf.buf.Length || old(|dst.received|) < dst.cap) ==> Fluent()
      ensures err.NoError? && !full ==> |items| < old(|items|) || (items == old(items) && Rank() < old(Rank()))
      ensures EndsHere(err) || (err.CoderError? && !old(Fluent()))
      ensures EndsWell(err, old(Fluent())) && (err.EndOfFile? ==> Fluent())
    {
      hide Ring.Contents, Legal, BytesOf, TextOf, CutsBlock, GoodDecoders;
      err, full, x := NoError, false, [];
      if stream == null {
        err := StartBlock();
        if !err.NoError? { TornElsewhere(); }
      }
      if stream != null {
        err, full, x := RunBlock(dst);
      }
    }

    ghost function Coders(): (r: set<object>)
      reads this
    {
      if stream == null then {} else {stream.coder}
    }

    // Once round the loop of Read.
    method Advance(dst: Dest) returns (err: Error, full: bool, ghost x: seq<byte>)
      requires Buffers() && (Between() || InBlock()) && dst.Valid()
      modifies this, stream, Coders(), rd, rdBuf, rdBuf.buf, wrBuf, wrBuf.buf, dst
      ensures Buffers() && dst.Valid() && dst.received == old(dst.received) + x && old(Remaining()) == x + Remaining()
      ensures closed == old(closed) && MidBlock() == old(MidBlock())
      ensures full ==> err.NoError? && InBlock() && Remaining() != [] && |dst.received| == dst.cap
      ensures (stream == null || stream == old(stream) || fresh(stream)) && fresh(Coders() - old(Coders()))
      ensures full && (old(wrBuf.len) < wrBuf.buf.Length || old(|dst.received|) < dst.cap) ==> Fluent()
      ensures err.NoError? && !full ==> stream == null && wrBuf.len == 0 && Between()
      ensures err.NoError? && !full ==> |items| < old(|items|) || (|items| == old(|items|) && Rank() < old(Rank()))
      ensures EndsHere(err) || (err.CoderError? && !old(Fluent()))
      ensures EndsWell(err, old(Fluent())) && (err.EndOfFile? ==> Fluent())
    {
      hide Ring.Contents, Legal, BytesOf, TextOf, CutsBlock, Remaining, MidBlock;
      full, x := false, [];
      match state
      case AtStart => err := DoHeader();
      case Header => err := DoHeader();
      case Blocks => err, full, x := DoBlock(dst);
      case Index => err := DoIndex();
      case Tail => err := DoFooter();
      case Padding => err := DoPadding();
    }

    // Read into a slice of the given size. A full slice ends the call without an error.
    method Read(size: nat) returns (data: seq<byte>, err: Error)
      requires closed || Valid()
      modifies this, stream, Coders(), rd, rdBuf, rdBuf.buf, wrBuf, wrBuf.buf
      ensures old(closed) ==> err.ClosedPipe? && data == [] && unchanged(this)
      ensures !old(closed) ==>
        !closed && Buffers() && old(Remaining()) == data + Remaining() && MidBlock() == old(MidBlock())
      ensures err.NoError? ==> Valid() && |data| == size && Remaining() != []
      ensures !old(closed) ==> EndsWell(err, old(Fluent())) && (EndsHere(err) || (err.CoderError? && !old(Fluent())))
      ensures (err.NoError? && size > 0) || err.EndOfFile? ==> Fluent()
      ensures (stream == null || stream == old(stream) || fresh(stream)) && fresh(Coders() - old(Coders()))
    {
      hide Between, InBlock, Remaining, Buffers;
      if closed { return [], ClosedPipe; }
      data, err := ReadBlocks(size);
    }

    // The loop of Read.
    method ReadBlocks(size: nat) returns (data: seq<byte>, err: Error)
      requires Valid()
      modifies this, stream, Coders(), rd, rdBuf, rdBuf.buf, wrBuf, wrBuf.buf
      ensures closed == old(closed) && Buffers() && old(Remaining()) == data + Remaining()
      ensures MidBlock() == old(MidBlock())
      ensures err.NoError? ==> Valid() && |data| == size && Remaining() != []
      ensures EndsWell(err, old(Fluent())) && (EndsHere(err) || (err.CoderError? && !old(Fluent())))
      ensures (err.NoError? && size > 0) || err.EndOfFile? ==> Fluent()
      ensures (stream == null || stream == old(stream) || fresh(stream)) && fresh(Coders() - old(Coders()))
    {
      hide Between, InBlock, Remaining, Rank, MidBlock, EndsHere;
      var dst := new Dest(size);
      ghost var x;
      var full;
      err, full, x := Advance(dst);
      while !full && err.NoError?
        invariant closed == old(closed) && Buffers() && dst.Valid() && old(Remaining()) == dst.received + Remaining()
        invariant MidBlock() == old(MidBlock())
        invariant (stream == null || stream == old(stream) || fresh(stream)) && fresh(Coders() - old(Coders()))
        invariant full ==> err.NoError? && InBlock() && Remaining() != [] && |dst.received| == size
        invariant full && size > 0 ==> Fluent()
        invariant err.NoError? && !full ==> stream == null && wrBuf.len == 0 && Between()
        invariant err.EndOfFile? ==> Fluent()
        invariant EndsWell(err, old(Fluent())) && (EndsHere(err) || (err.CoderError? && !old(Fluent())))
        decreases !full && err.NoError?, |items|, Rank()
      {
        err, full, x := Advance(dst);
      }
      data := dst.received;
    }

    method Close()
      modifies this`closed
      ensures closed
    {
      closed := true;
    }
  }

  // Reading with slices of any sizes gives the contents of all blocks in order, and then the end. If
  // the source has been cut, anywhere, it gives a part of them, and the place where too little is
  // left decides how it ends.
  method ReadMany(r: SyncReader, sizes: seq<nat>) returns (data: seq<byte>, err: Error)
    requires !r.closed && r.Valid() && r.Fluent()
    requires sizes != [] && forall i :: 0 <= i < |sizes| ==> sizes[i] > 0
    modifies r, r.stream, r.Coders(), r.rd, r.rdBuf, r.rdBuf.buf, r.wrBuf, r.wrBuf.buf
    ensures !r.closed && r.Buffers() && old(r.Remaining()) == data + r.Remaining() && r.MidBlock() == old(r.MidBlock())
    ensures err.NoError? ==> r.Valid() && r.Fluent() && |data| == Sum(sizes) && r.Remaining() != []
    ensures Sum(sizes) >= |old(r.Remaining())| ==> !err.NoError?
    ensures r.EndsHere(err)
    ensures r.cut == [] ==> r.Valid() && (err.NoError? || (err.EndOfFile? && r.Remaining() == []))
  {
    hide SyncReader.Between, SyncReader.InBlock, SyncReader.Fluent, SyncReader.Remaining, SyncReader.Buffers,
      SyncReader.MidBlock;
    data, err := [], NoError;
    var i := 0;
    while i < |sizes| && err.NoError?
      invariant i <= |sizes| && !r.closed && r.Buffers() && old(r.Remaining()) == data + r.Remaining()
      invariant r.MidBlock() == old(r.MidBlock())
      invariant err.NoError? ==> r.Valid() && r.Fluent()
      invariant err.NoError? ==> |data| == Sum(sizes[..i]) && (i > 0 ==> r.Remaining() != [])
      invariant r.EndsHere(err)
      invariant r.cut == [] ==> r.Valid() && (err.NoError? || (err.EndOfFile? && r.Remaining() == []))
      invariant r.stream == null || r.stream == old(r.stream) || fresh(r.stream)
      invariant fresh(r.Coders() - old(r.Coders()))
    {
      var part;
      part, err := r.Read(sizes[i]);
      data := data + part;
      assert sizes[..i + 1][..i] == sizes[..i];
      i := i + 1;
    }
    assert sizes[..|sizes|] == sizes;
  }

  // Where a stream may begin, its header comes next, or nothing.
  lemma HeadOrEnd(d: Decoders, state: ReadState, check: nat, items: seq<Item>)
    requires Legal(d, state, check, 0, items) && (state.AtStart? || state.Header?)
    ensures items != [] ==> LegalHead(d, items[0]) && |BytesOf(items)| >= STREAM_HEADER_SIZE
    ensures items == [] ==> state.Header? && TextOf(items) == BytesOf(items) == []
  {
  }

  lemma Delivered<T>(text: seq<T>, was: nat, x: seq<T>)
    requires was + |x| <= |text| && text[was..was + |x|] == x
    ensures text[was..] == x + text[was + |x|..]
  {
  }

  // What padding looks like from its first word.
  ghost predicate PadFacts(d: Decoders, check: nat, items: seq<Item>) {
    && items != [] && LegalPad(items[0]) && Legal(d, Header, check, 0, items[1..])
    && TextOf(items) == TextOf(items[1..]) && (forall c: nat :: CutsBlock(items, c) == CutsBlock(items[1..], c))
    && var ahead, n := BytesOf(items), |items[0].bytes|;
    && (ahead == [] ==> items == [Pad([])] && TextOf(items) == [])
    && (ahead != [] ==> |ahead| >= 4 && (ahead[..4] == Zeros(4) <==> n >= 4))
    && (n == 0 ==> BytesOf(items[1..]) == ahead)
    && (n >= 4 ==>
      var next := [Pad(items[0].bytes[4..])] + items[1..];
      Legal(d, Padding, check, 0, next) && BytesOf(next) == ahead[4..] && TextOf(next) == TextOf(items))
  }

  lemma PadCases(d: Decoders, check: nat, items: seq<Item>)
    requires Legal(d, Padding, check, 0, items)
    ensures PadFacts(d, check, items)
  {
    var ahead, n := BytesOf(items), |items[0].bytes|;
    Front(items, ahead);
    assert items == [items[0]] + items[1..];
    if n == 0 {
      if items[1..] != [] {
        Front(items[1..], ahead);
        NotZeros(d, items[1]);
      }
    } else {
      var next := [Pad(items[0].bytes[4..])] + items[1..];
      assert next[1..] == items[1..];
      assert ahead[..4] == items[0].bytes[..4] == Zeros(4);
      assert items[0].bytes == items[0].bytes[..4] + next[0].bytes;
      hide Legal, BytesOf;
      PadLess(d, check, items, next);
    }
  }

  lemma PadLess(d: Decoders, check: nat, items: seq<Item>, next: seq<Item>)
    requires Legal(d, Padding, check, 0, items) && next != [] && next[1..] == items[1..] && items[0].bytes != []
    requires next[0] == Pad(items[0].bytes[4..])
    ensures Legal(d, Padding, check, 0, next) && BytesOf(next) == BytesOf(items)[4..] && TextOf(next) == TextOf(items)
  {
    var b, more := items[0].bytes, BytesOf(items[1..]);
    assert (b + more)[4..] == b[4..] + more;
    assert b[4..] == Zeros(|b| - 4);
  }

  lemma NotZeros(d: Decoders, b: Item)
    requires LegalHead(d, b)
    ensures b.bytes[..4] != Zeros(4)
  {
    assert b.bytes[..6][0] == b.bytes[..4][0] == 0xFD;
  }

  // The first item of a plan lies in front.
  lemma Front(items: seq<Item>, ahead: seq<byte>)
    requires items != [] && ahead == BytesOf(items)
    ensures ahead == items[0].bytes + BytesOf(items[1..])
    ensures |items[0].bytes| <= |ahead| && ahead[..|items[0].bytes|] == items[0].bytes
    ensures ahead[|items[0].bytes|..] == BytesOf(items[1..])
  {
  }

  // After the header of a stream comes a block or the index, told apart by the first byte.
  lemma BlockOrIndex(d: Decoders, check: nat, items: seq<Item>)
    requires Legal(d, Blocks, check, 0, items)
    ensures items != [] && items[0].bytes != []
    ensures if items[0].bytes[0] == 0 then Legal(d, Index, check, 0, items)
      else LegalBlock(d, check, items[0]) && Legal(d, Blocks, check, 0, items[1..])
  {
  }

  // Blocks and index are always followed by something.
  lemma MoreComes(d: Decoders, state: ReadState, check: nat, backward: nat, items: seq<Item>)
    requires Legal(d, state, check, backward, items) && (state.Blocks? || state.Tail?)
    ensures BytesOf(items) != []
  {
    Front(items, BytesOf(items));
  }

  // A coder whose input ends where other bytes begin does not go beyond its end.
  lemma Eaten(c: Codec, eaten: seq<byte>, held: seq<byte>, body: seq<byte>, more: seq<byte>)
    requires GoodCodec(c) && Running(c, eaten) && Extent(c, body) && eaten + held == body + more
    ensures |eaten| <= |body| && |held| >= |more| && c.out(eaten) <= c.out(body)
    ensures Ends(c, eaten) ==> eaten == body && held == more
    ensures !c.bad(eaten)
  {
    hide Stop, Content, Running;
    ExtentStops(c, body, more);
    MadeOf(c, eaten, body + more);
    if |eaten| == |body| {
      Cut(eaten, held);
      Cut(body, more);
    }
    hide GoodCodec;
    if c.bad(eaten) { NotBoth(c, body); }
  }

  // What the return of Process means for such a coder, when some of its input may have been cut off.
  lemma BlockOutcome(z: CodingStream, src: Source, body: seq<byte>, more: seq<byte>, cut: seq<byte>)
    requires z.Valid() && z.Input(src) + cut == body + more && more != [] && Extent(z.coder.codec, body)
    ensures z.Exhausted(src) ==> cut != [] && |cut| >= |more|
    ensures !z.coder.codec.bad(z.coder.eaten)
    ensures z.coder.Done() ==> z.coder.eaten == body && z.inBuf.Contents() + src.rest + cut == more
    ensures z.delivered <= z.coder.codec.out(body)
    ensures z.coder.Done() && z.outBuf.len == 0 ==> z.delivered == z.coder.codec.out(body)
    ensures z.outBuf.len > 0 ==> |z.delivered| < |z.coder.codec.out(body)|
  {
    hide Ring.Contents, Running, GoodCodec;
    var held := z.inBuf.Contents() + src.rest + cut;
    assert z.Input(src) + cut == z.coder.eaten + held;
    Eaten(z.coder.codec, z.coder.eaten, held, body, more);
  }

  lemma NotBoth(c: Codec, x: seq<byte>)
    requires GoodCodec(c) && c.done(x)
    ensures !c.bad(x)
  {
  }

  lemma ExtentStops(c: Codec, body: seq<byte>, more: seq<byte>)
    requires Extent(c, body)
    ensures Stop(c, body + more, 0) == |body| && Content(c, body + more) == c.out(body)
  {
    StopFrom(c, body, body + more, 0);
    Cut(body, more);
  }

  lemma Parts<T>(ahead: seq<T>, cut: seq<T>, b: seq<T>, more: seq<T>, n: nat, r: seq<T>)
    requires ahead + cut == b + more && n <= |b| && n <= |r| && r <= ahead
    ensures r[..n] == b[..n] && ahead[n..] + cut == b[n..] + more
  {
    assert r[..n] == (ahead + cut)[..n];
    assert (ahead + cut)[n..] == ahead[n..] + cut;
  }

  lemma FrontText(items: seq<Item>)
    requires items != []
    ensures TextOf(items) == (if items[0].Blk? then items[0].text else []) + TextOf(items[1..])
  {
  }
}
