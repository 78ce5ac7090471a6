/**
 The walk over a file from its end (xz/index.go:12-94): padding, footer, index, blocks and header
 of the last stream, then of the stream before it, until position 0.
 */
module IndexWalk {
  import opened Bytes
  import opened Format
  import opened Coding
  import opened Frames
  import Process

  const BUFFER_SIZE: nat := 0x1_0000

  // What the combined index keeps of one stream.
  datatype Stream = Stream(check: nat, records: seq<Record>, padding: nat)

  // unrollIndex hands the result of Process to errs.Panic, which lets only Ok pass. AsWritten takes
  // that literally; EndIsFine lets the end of the index stream pass too, as xz/reader.go does.
  datatype Policy = EndIsFine | AsWritten

  predicate Passes(policy: Policy, st: Status) {
    st.Ok? || (policy.EndIsFine? && st.End?)
  }

  // ---------- the layout of a file (sections 2, 2.1 and 2.2 of the .xz file format) ----------

  predicate WellFormed(c: Sums, s: Stream, blocks: seq<byte>) {
    && s.check < 16 && s.padding % 4 == 0
    && ValidRecords(s.records) && |IndexBytes(c, s.records)| <= BACKWARD_SIZE_MAX
    && |blocks| == TotalSize(s.records)
  }

  function StreamBytes(c: Sums, s: Stream, blocks: seq<byte>): (b: seq<byte>)
    requires WellFormed(c, s, blocks)
  {
    var index := IndexBytes(c, s.records);
    StreamHeader(c, s.check) + blocks + index + Footer(c, s.check, |index|) + Zeros(s.padding)
  }

  // f is these streams one after the other; bodies[i] is what the blocks of stream i consist of.
  ghost predicate Lays(c: Sums, f: seq<byte>, ss: seq<Stream>, bodies: seq<seq<byte>>)
    decreases |ss|
  {
    if ss == [] || bodies == [] then ss == [] && bodies == [] && f == []
    else
      var n := |ss| - 1;
      && |bodies| == |ss| && WellFormed(c, ss[n], bodies[n])
      && var last := StreamBytes(c, ss[n], bodies[n]);
      |last| <= |f| && f[|f| - |last|..] == last && Lays(c, f[..|f| - |last|], ss[..n], bodies[..n])
  }

  ghost predicate IsFile(c: Sums, f: seq<byte>, ss: seq<Stream>) {
    exists bodies: seq<seq<byte>> :: Lays(c, f, ss, bodies)
  }

  // ---------- the steps of the walk ----------

  // Reading outside of the file, before its start as well, is an error.
  function ReadAt(f: seq<byte>, off: int, n: nat): (r: Option<seq<byte>>)
    ensures r.Some? ==> |r.value| == n
  {
    if 0 <= off <= |f| - n then Some(f[off..off + n]) else None
  }

  function Padding(f: seq<byte>, pos: int): (r: Option<nat>)
    ensures r.Some? ==> pos - r.value >= 4 && pos <= |f|
    decreases pos
  {
    match ReadAt(f, pos - 4, 4)
    case None => None
    case Some(buf) =>
      if buf != Zeros(4) then Some(0) else
      Longer(4, Padding(f, pos - 4))
  }

  ghost predicate IsPadding(f: seq<byte>, pos: int, n: nat) {
    && n % 4 == 0 && n + 4 <= pos <= |f|
    && f[pos - n..pos] == Zeros(n) && f[pos - n - 4..pos - n] != Zeros(4)
  }

  function Longer(m: nat, r: Option<nat>): (t: Option<nat>)
  {
    if r.None? then None else Some(m + r.value)
  }

  function UnrollFooter(c: Sums, f: seq<byte>, pos: int): (r: Option<(nat, nat)>)
  {
    match ReadAt(f, pos - STREAM_HEADER_SIZE, STREAM_HEADER_SIZE)
    case None => None
    case Some(buf) => ParseFooter(c, buf)
  }

  function UnrollIndex(c: Sums, policy: Policy, f: seq<byte>, pos: int, size: nat): (r: Option<seq<Record>>)
  {
    match ReadAt(f, pos - size, size)
    case None => None
    case Some(buf) => if Passes(policy, End) then ParseIndex(c, buf) else None
  }

  function UnrollHeader(c: Sums, f: seq<byte>, pos: int): (r: Option<nat>)
    ensures r.Some? ==> STREAM_HEADER_SIZE <= pos <= |f|
  {
    match ReadAt(f, pos - STREAM_HEADER_SIZE, STREAM_HEADER_SIZE)
    case None => None
    case Some(buf) => ParseHeader(c, buf)
  }

  // prevStreamIndex: the last stream before pos and the position where it begins.
  function PrevStream(c: Sums, policy: Policy, f: seq<byte>, pos: int): (r: Option<(Stream, nat)>)
    ensures r.Some? ==> r.value.1 < pos <= |f|
  {
    match Padding(f, pos)
    case None => None
    case Some(padding) =>
      match UnrollFooter(c, f, pos - padding)
      case None => None
      case Some((check, backward)) =>
        var end := pos - padding - STREAM_HEADER_SIZE;
        match UnrollIndex(c, policy, f, end, backward)
        case None => None
        case Some(records) =>
          var start := end - backward - TotalSize(records);
          if UnrollHeader(c, f, start) != Some(check) then None
          else Some((Stream(check, records, padding), start - STREAM_HEADER_SIZE))
  }

  // decodeIndex: the streams before pos, in the order of the file. Nothing before 0 is no stream.
  function Walk(c: Sums, policy: Policy, f: seq<byte>, pos: int): (r: Option<seq<Stream>>)
    decreases pos
  {
    if pos <= 0 then Some([]) else
    match PrevStream(c, policy, f, pos)
    case None => None
    case Some((s, start)) =>
      Cat(Walk(c, policy, f, start), [s])
  }

  function Cat(r: Option<seq<Stream>>, later: seq<Stream>): (t: Option<seq<Stream>>)
  {
    if r.None? then None else Some(r.value + later)
  }

  // ---------- the loops ----------

  method UnrollPadding(f: seq<byte>, pos: int) returns (r: Option<nat>)
    ensures r == Padding(f, pos)
  {
    var padding := 0;
    var ok := true;
    while ok
      invariant padding >= 0 && (padding > 0 ==> pos >= padding)
      invariant ok ==> Padding(f, pos) == Longer(padding, Padding(f, pos - padding))
      invariant !ok ==> Padding(f, pos) == Some(padding)
      decreases ok, pos - padding
    {
      var buf := ReadAt(f, pos - padding - 4, 4);
      if buf.None? { return None; }
      ok := buf.value == Zeros(4);
      if ok {
        padding := padding + 4;
      }
    }
    r := Some(padding);
  }

  // The index decoder on a section of the file: how Process returns, and what has been eaten.
  method DecodeSection(c: Sums, buf: seq<byte>) returns (st: Status, eaten: seq<byte>)
    ensures !st.Ok? && eaten <= buf
    ensures st.End? ==> ParseIndex(c, eaten).Some?
    ensures ParseIndex(c, buf).Some? ==> st.End? && eaten == buf
  {
    hide ParseIndex, Ring.Contents, GoodCodec, IndexCodec, Coder.Valid, Running;
    IndexCodecIsGood(c);
    var coder := new Coder(IndexCodec(c));
    var outBuf := new Ring(BUFFER_SIZE);
    var inBuf := new Ring(BUFFER_SIZE);
    var stream := new Process.CodingStream(coder, outBuf, inBuf);
    var section := new Source(buf, Alone);
    assert stream.Input(section) == buf;
    var outCnt, inCnt;
    ghost var x;
    outCnt, inCnt, st, x := stream.Process(null, section);
    eaten := coder.eaten;
    IndexEnds(c, eaten, buf);
    if stream.Exhausted(section) { assert eaten == buf; }
  }

  // unrollIndex as it runs.
  method ReadIndex(c: Sums, policy: Policy, f: seq<byte>, pos: int, size: nat) returns (r: Option<seq<Record>>)
    ensures r == UnrollIndex(c, policy, f, pos, size)
  {
    hide ParseIndex;
    var buf := ReadAt(f, pos - size, size);
    if buf.None? { return None; }
    var st, eaten := DecodeSection(c, buf.value);
    IndexEnds(c, eaten, buf.value);
    if !Passes(policy, st) { return None; }
    if |eaten| != size { return None; }
    r := ParseIndex(c, eaten);
  }

  // The decoder has come to its end in a section exactly if that is an index and has been eaten.
  lemma IndexEnds(c: Sums, eaten: seq<byte>, buf: seq<byte>)
    requires eaten <= buf
    ensures ParseIndex(c, eaten).Some? && ParseIndex(c, buf).Some? ==> eaten == buf
    ensures |eaten| == |buf| ==> eaten == buf
  {
    hide ParseIndex;
    if ParseIndex(c, eaten).Some? && ParseIndex(c, buf).Some? {
      IndexPrefixFree(c, eaten, buf);
    }
  }

  // prevStreamIndex as it runs.
  method PrevStreamIndex(c: Sums, policy: Policy, f: seq<byte>, pos: int) returns (r: Option<(Stream, nat)>)
    ensures r == PrevStream(c, policy, f, pos)
  {
    hide Padding, UnrollFooter, UnrollIndex, UnrollHeader, TotalSize;
    var padding := UnrollPadding(f, pos);
    if padding.None? { return None; }
    var footer := UnrollFooter(c, f, pos - padding.value);
    if footer.None? { return None; }
    var (check, backward) := footer.value;
    var end := pos - padding.value - STREAM_HEADER_SIZE;
    var records := ReadIndex(c, policy, f, end, backward);
    if records.None? { return None; }
    var start := end - backward - TotalSize(records.value);   // skip the blocks
    var header := UnrollHeader(c, f, start);
    if header != Some(check) { return None; }
    r := Some((Stream(check, records.value, padding.value), start - STREAM_HEADER_SIZE));
  }

  // The index found so far is appended to that of the stream before it.
  method DecodeIndex(c: Sums, policy: Policy, f: seq<byte>, size: int) returns (r: Option<seq<Stream>>)
    ensures r == Walk(c, policy, f, size)
  {
    hide PrevStream;
    var pos := size;
    var index := [];
    assert forall ss: seq<Stream> :: ss + index == ss;
    while pos > 0
      invariant Walk(c, policy, f, size) == Cat(Walk(c, policy, f, pos), index)
      decreases pos
    {
      var prev := PrevStreamIndex(c, policy, f, pos);
      if prev.None? { return None; }
      ghost var later := index;
      index := [prev.value.0] + index;
      pos := prev.value.1;
      assert forall ss: seq<Stream> :: ss + [prev.value.0] + later == ss + index;
    }
    assert [] + index == index;
    r := Some(index);
  }

  // ---------- one stream ----------

  lemma LastWord(f: seq<byte>, pos: int, n: nat)
    requires 4 <= n <= pos <= |f|
    ensures f[pos - n..pos] == Zeros(n) <==> f[pos - n..pos - 4] == Zeros(n - 4) && f[pos - 4..pos] == Zeros(4)
  {
    var word := f[pos - n..pos];
    assert word[..n - 4] == f[pos - n..pos - 4] && word[n - 4..] == f[pos - 4..pos];
    assert Zeros(n)[..n - 4] == Zeros(n - 4) && Zeros(n)[n - 4..] == Zeros(4);
    assert word == word[..n - 4] + word[n - 4..] && Zeros(n) == Zeros(n - 4) + Zeros(4);
  }

  // Padding is what it says: zero words, then a word that is not zero.
  lemma {:induction false} PaddingIs(f: seq<byte>, pos: int, n: nat)
    ensures Padding(f, pos) == Some(n) <==> IsPadding(f, pos, n)
    decreases pos
  {
    PaddingStep(f, pos);
    hide Zeros, Padding, IsPadding;
    if 4 <= pos <= |f| && 4 <= n <= pos {
      LastWord(f, pos, n);
      PaddingShift(f, pos, n);
      PaddingIs(f, pos - 4, n - 4);
    } else {
      PaddingNone(f, pos, n);
    }
  }

  lemma PaddingStep(f: seq<byte>, pos: int)
    ensures Padding(f, pos) ==
      if 4 <= pos <= |f|
      then (if f[pos - 4..pos] == Zeros(4) then Longer(4, Padding(f, pos - 4)) else Some(0))
      else None
  {
  }

  lemma PaddingNone(f: seq<byte>, pos: int, n: nat)
    requires pos < 4 || pos > |f| || n < 4 || n > pos
    ensures IsPadding(f, pos, n) <==> 4 <= pos <= |f| && n == 0 && f[pos - 4..pos] != Zeros(4)
  {
    if 4 <= pos <= |f| && n == 0 {
      assert f[pos..pos] == [] == Zeros(0);
    }
  }

  lemma PaddingShift(f: seq<byte>, pos: int, n: nat)
    requires 4 <= n <= pos <= |f|
    requires f[pos - n..pos] == Zeros(n) <==> f[pos - n..pos - 4] == Zeros(n - 4) && f[pos - 4..pos] == Zeros(4)
    ensures IsPadding(f, pos, n) <==> IsPadding(f, pos - 4, n - 4) && f[pos - 4..pos] == Zeros(4)
  {
    hide Zeros;
  }

  // f[start..pos] is a stream, and blocks is what lies between its header and its index.
  ghost predicate StreamAt(c: Sums, f: seq<byte>, start: int, pos: int, s: Stream, blocks: seq<byte>) {
    WellFormed(c, s, blocks) && 0 <= start <= pos <= |f| && f[start..pos] == StreamBytes(c, s, blocks)
  }

  lemma Found(c: Sums, f: seq<byte>, pos: int) returns (blocks: seq<byte>)
    requires PrevStream(c, EndIsFine, f, pos).Some?
    ensures var (s, start) := PrevStream(c, EndIsFine, f, pos).value; StreamAt(c, f, start, pos, s, blocks)
  {
    hide IndexBytes, ParseIndex, ParseFooter, ParseHeader, Footer, StreamHeader, TotalSize, Padding;
    var (s, start) := PrevStream(c, EndIsFine, f, pos).value;
    var end := pos - s.padding;
    var (check, backward) := UnrollFooter(c, f, end).value;
    var low := end - STREAM_HEADER_SIZE - backward;
    blocks := f[start + STREAM_HEADER_SIZE..low];
    PaddingIs(f, pos, s.padding);
    FooterInverse(c, f[end - STREAM_HEADER_SIZE..end], check, backward);
    IndexInverse(c, f[low..end - STREAM_HEADER_SIZE], s.records);
    HeaderInverse(c, f[start..start + STREAM_HEADER_SIZE], check);
    FiveParts(f, start, start + STREAM_HEADER_SIZE, low, end - STREAM_HEADER_SIZE, end, pos);
  }

  lemma FiveParts(f: seq<byte>, start: nat, a: nat, b: nat, c: nat, d: nat, pos: nat)
    requires start <= a <= b <= c <= d <= pos <= |f|
    ensures f[start..pos] == f[start..a] + f[a..b] + f[b..c] + f[c..d] + f[d..pos]
  {
    assert f[start..b] == f[start..a] + f[a..b];
    assert f[start..c] == f[start..b] + f[b..c];
    assert f[start..d] == f[start..c] + f[c..d];
    assert f[start..pos] == f[start..d] + f[d..pos];
  }

  lemma FooterNotZero(c: Sums, check: nat, backward: nat)
    requires check < 16 && backward % 4 == 0 && 4 <= backward <= BACKWARD_SIZE_MAX
    ensures Footer(c, check, backward)[8..] != Zeros(4)
  {
    assert Footer(c, check, backward)[8..][3] == 0x5A;
  }

  lemma IsFound(c: Sums, f: seq<byte>, start: int, pos: int, s: Stream, blocks: seq<byte>)
    requires StreamAt(c, f, start, pos, s, blocks)
    ensures PrevStream(c, EndIsFine, f, pos) == Some((s, start))
  {
    hide IndexBytes, ParseIndex, ParseFooter, ParseHeader, Footer, StreamHeader, TotalSize, Padding;
    var index := IndexBytes(c, s.records);
    var head, foot, pad := StreamHeader(c, s.check), Footer(c, s.check, |index|), Zeros(s.padding);
    var a := start + STREAM_HEADER_SIZE;
    var b := a + |blocks|;
    var d := b + |index|;
    var e := d + STREAM_HEADER_SIZE;
    Slices(f, start, pos, head, blocks, index, foot, pad);
    FooterNotZero(c, s.check, |index|);
    assert f[e - 4..e] == foot[8..];
    PaddingIs(f, pos, s.padding);
    FooterInverse(c, f[d..e], s.check, |index|);
    IndexInverse(c, f[b..d], s.records);
    HeaderInverse(c, f[start..a], s.check);
  }

  // Where the parts of a stream lie.
  lemma Slices(f: seq<byte>, start: nat, pos: nat, head: seq<byte>, blocks: seq<byte>, index: seq<byte>,
               foot: seq<byte>, pad: seq<byte>)
    requires start <= pos <= |f| && f[start..pos] == head + blocks + index + foot + pad
    ensures var a := start + |head|; var b := a + |blocks|; var d := b + |index|; var e := d + |foot|;
      && e + |pad| == pos && f[start..a] == head && f[a..b] == blocks && f[b..d] == index
      && f[d..e] == foot && f[e..pos] == pad
  {
    var s := f[start..pos];
    var a := |head|;
    var b := a + |blocks|;
    var d := b + |index|;
    var e := d + |foot|;
    assert s[..a] == head && s[a..b] == blocks && s[b..d] == index && s[d..e] == foot && s[e..] == pad;
    SubSlice(f, start, pos, 0, a);
    SubSlice(f, start, pos, a, b);
    SubSlice(f, start, pos, b, d);
    SubSlice(f, start, pos, d, e);
    SubSlice(f, start, pos, e, |s|);
  }

  lemma SubSlice<T>(f: seq<T>, start: nat, pos: nat, i: nat, j: nat)
    requires start + i <= start + j <= pos <= |f|
    ensures f[start..pos][i..j] == f[start + i..start + j]
  {
    var s := f[start..pos];
    var t := f[start + i..start + j];
    assert |s[i..j]| == |t|;
    assert forall k :: 0 <= k < |t| ==> s[i..j][k] == t[k];
  }

  // ---------- the whole file ----------

  // The walk reads back the layout, and accepts nothing else: for any bytes whatever, it returns
  // these streams if and only if what lies before pos consists of them.
  lemma WalkInvertsLayout(c: Sums, f: seq<byte>, pos: int, ss: seq<Stream>)
    ensures 0 <= pos <= |f| ==> (Walk(c, EndIsFine, f, pos) == Some(ss) <==> IsFile(c, f[..pos], ss))
    ensures pos > |f| ==> Walk(c, EndIsFine, f, pos) == None
    ensures pos <= 0 ==> Walk(c, EndIsFine, f, pos) == Some([])
  {
    if pos > |f| {
      assert PrevStream(c, EndIsFine, f, pos) == None;
    } else if pos > 0 {
      hide Walk, Lays;
      if Walk(c, EndIsFine, f, pos) == Some(ss) {
        var bodies := WalkIsLaid(c, f, pos, ss);
      }
      if IsFile(c, f[..pos], ss) {
        var bodies :| Lays(c, f[..pos], ss, bodies);
        LaidIsWalked(c, f, pos, ss, bodies);
      }
    } else if pos == 0 {
      assert Lays(c, f[..0], [], []);
    }
  }

  // Files can be concatenated, and so are the indices that are found.
  lemma WalkConcatenates(c: Sums, f: seq<byte>, g: seq<byte>, ss: seq<Stream>, ts: seq<Stream>)
    requires Walk(c, EndIsFine, f, |f|) == Some(ss) && Walk(c, EndIsFine, g, |g|) == Some(ts)
    ensures Walk(c, EndIsFine, f + g, |f + g|) == Some(ss + ts)
  {
    hide Walk, Lays;
    assert f[..|f|] == f && g[..|g|] == g && (f + g)[..|f + g|] == f + g;
    var a := WalkIsLaid(c, f, |f|, ss);
    var b := WalkIsLaid(c, g, |g|, ts);
    LaysConcatenates(c, f, ss, a, g, ts, b);
    LaidIsWalked(c, f + g, |f + g|, ss + ts, a + b);
  }

  lemma {:induction false} LaysConcatenates(c: Sums, f: seq<byte>, ss: seq<Stream>, a: seq<seq<byte>>,
                                            g: seq<byte>, ts: seq<Stream>, b: seq<seq<byte>>)
    requires Lays(c, f, ss, a) && Lays(c, g, ts, b)
    ensures Lays(c, f + g, ss + ts, a + b)
    decreases |ts|
  {
    hide StreamBytes, WellFormed;
    LaysLengths(c, f, ss, a);
    LaysLengths(c, g, ts, b);
    if ts == [] {
      assert f + g == f && ss + ts == ss && a + b == a;
    } else {
      var n, m := |ts| - 1, |b| - 1;
      var k := |g| - |StreamBytes(c, ts[n], b[n])|;
      LaysConcatenates(c, f, ss, a, g[..k], ts[..n], b[..m]);
      hide Lays;
      Joined(f, g, k);
      Joined(ss, ts, n);
      Joined(a, b, m);
      assert StreamAt(c, f + g, |f| + k, |f + g|, ts[n], b[m]);
      assert (f + g)[..|f + g|] == f + g;
      LaysLast(c, f + g, |f| + k, |f + g|, ss + ts, a + b);
    }
  }

  lemma Joined<T>(f: seq<T>, g: seq<T>, k: nat)
    requires k <= |g|
    ensures (f + g)[..|f| + k] == f + g[..k] && (f + g)[|f| + k..|f + g|] == g[k..]
  {
  }

  lemma {:induction false} WalkIsLaid(c: Sums, f: seq<byte>, pos: nat, ss: seq<Stream>) returns (bodies: seq<seq<byte>>)
    requires pos <= |f| && Walk(c, EndIsFine, f, pos) == Some(ss)
    ensures Lays(c, f[..pos], ss, bodies)
    decreases pos
  {
    hide PrevStream, StreamBytes, WellFormed;
    bodies := [];
    if pos > 0 {
      var (s, start) := PrevStream(c, EndIsFine, f, pos).value;
      var blocks := Found(c, f, pos);
      var n := |ss| - 1;
      Cut(ss[..n], [s]);
      bodies := WalkIsLaid(c, f, start, ss[..n]);
      Cut(bodies, [blocks]);
      bodies := bodies + [blocks];
      LaysLast(c, f, start, pos, ss, bodies);
    }
  }

  lemma LaysLast(c: Sums, f: seq<byte>, start: nat, pos: nat, ss: seq<Stream>, bodies: seq<seq<byte>>)
    requires ss != [] && bodies != []
    requires StreamAt(c, f, start, pos, ss[|ss| - 1], bodies[|bodies| - 1])
    requires Lays(c, f[..start], ss[..|ss| - 1], bodies[..|bodies| - 1])
    ensures Lays(c, f[..pos], ss, bodies)
  {
    hide StreamBytes, WellFormed;
    LaysLengths(c, f[..start], ss[..|ss| - 1], bodies[..|bodies| - 1]);
    assert f[..pos][start..] == f[start..pos] && f[..pos][..start] == f[..start];
  }

  lemma LaysLengths(c: Sums, f: seq<byte>, ss: seq<Stream>, bodies: seq<seq<byte>>)
    requires Lays(c, f, ss, bodies)
    ensures |ss| == |bodies|
  {
  }

  lemma {:induction false} LaidIsWalked(c: Sums, f: seq<byte>, pos: nat, ss: seq<Stream>, bodies: seq<seq<byte>>)
    requires pos <= |f| && Lays(c, f[..pos], ss, bodies)
    ensures Walk(c, EndIsFine, f, pos) == Some(ss)
    decreases pos
  {
    hide PrevStream, StreamBytes, WellFormed;
    if ss != [] && bodies != [] {
      var n := |ss| - 1;
      var last := StreamBytes(c, ss[n], bodies[n]);
      var start := pos - |last|;
      assert f[..pos][start..] == f[start..pos] && f[..pos][..start] == f[..start];
      assert StreamAt(c, f, start, pos, ss[n], bodies[n]);
      IsFound(c, f, start, pos, ss[n], bodies[n]);
      LaidIsWalked(c, f, start, ss[..n], bodies[..n]);
      assert ss == ss[..n] + [ss[n]];
    }
  }

  // Process never returns Ok when it has a source (DecodeSection), so taken literally, the walk
  // rejects every file that is not empty.
  lemma AsWrittenRejects(c: Sums, f: seq<byte>, ss: seq<Stream>)
    ensures Walk(c, AsWritten, f, |f|) == Some(ss) <==> f == [] && ss == []
  {
  }
}
