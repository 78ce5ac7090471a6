/** Sizing and framing of literal blocks (xz/literal.go). */
module Literal {
  import opened Bytes
  import opened Format

  const LITERAL_CHUNK_SIZE: nat := 0x1_0000
  const CHUNK_MARKER: byte := 1
  const END_MARKER: byte := 0
  const LITERAL_DICT: byte := 22   // an 8 MiB dictionary, the default preset

  datatype Result<+T> = Ok(value: T) | OptionsError

  predicate CheckSupported(check: int) {
    check == CHECK_NONE || check == CHECK_CRC32 || check == CHECK_CRC64 || check == CHECK_SHA256
  }

  function CheckSize(check: int): (n: nat)
  {
    if check == CHECK_CRC32 then 4 else if check == CHECK_CRC64 then 8 else if check == CHECK_SHA256 then 32 else 0
  }

  function CheckBytes(c: Sums, check: int, data: seq<byte>): (s: seq<byte>)
    ensures |s| == CheckSize(check)
  {
    if check == CHECK_CRC32 then c.crc32(data)
    else if check == CHECK_CRC64 then c.crc64(data)
    else if check == CHECK_SHA256 then c.sha256(data)
    else []
  }

  // ---------- sizes ----------

  function CompSize(uncompSize: nat): (n: nat)
  {
    var numChunks := (uncompSize + LITERAL_CHUNK_SIZE - 1) / LITERAL_CHUNK_SIZE;
    uncompSize + numChunks * 3 + 1
  }

  // literalBlockSize of a supported check.
  function TotalSizeOf(check: int, uncompSize: nat): (n: nat)
  {
    var compSize := CompSize(uncompSize);
    HeaderSize(compSize, uncompSize) + compSize + (4 - compSize % 4) % 4 + CheckSize(check)
  }

  lemma CompSizeMono(a: nat, b: nat)
    requires a <= b
    ensures CompSize(a) <= CompSize(b)
  {
  }

  // A shorter chunk never needs a larger literal block.
  lemma TotalSizeMono(check: int, a: nat, b: nat)
    requires a <= b
    ensures TotalSizeOf(check, a) <= TotalSizeOf(check, b)
  {
    var x, y := CompSize(a), CompSize(b);
    CompSizeMono(a, b);
    VliSizeMono(a, b);
    VliSizeMono(x, y);
    HeaderSizeMono(VliSize(x) + VliSize(a), VliSize(y) + VliSize(b));
    RoundUp4Mono(x, y);
    hide CompSize, HeaderSizeOf, VliSize;
    assert TotalSizeOf(check, a) == HeaderSize(x, a) + RoundUp4(x) + CheckSize(check);
    assert TotalSizeOf(check, b) == HeaderSize(y, b) + RoundUp4(y) + CheckSize(check);
  }

  // ---------- framing ----------

  function BE16(n: nat): (s: seq<byte>)
    requires n < 0x1_0000
    ensures |s| == 2
  {
    [n / 256, n % 256]
  }

  // Uncompressed LZMA2 chunks of up to 64 KiB, then the end marker.
  function Stored(data: seq<byte>): (s: seq<byte>)
    decreases |data|
  {
    if data == [] then [END_MARKER]
    else
      var k := Min(|data|, LITERAL_CHUNK_SIZE);
      [CHUNK_MARKER] + BE16(k - 1) + data[..k] + Stored(data[k..])
  }

  // What an LZMA2 decoder reads from stored chunks: the data and the bytes consumed.
  function ParseStored(s: seq<byte>): (r: Option<(seq<byte>, nat)>)
    ensures r.Some? ==> r.value.1 <= |s|
    decreases |s|
  {
    if s == [] then None
    else if s[0] == END_MARKER then Some(([], 1))
    else if s[0] != CHUNK_MARKER || |s| < 3 then None
    else
      var hi: int, lo: int := s[1], s[2];
      var k := 256 * hi + lo + 1;
      if |s| < 3 + k then None else
      match ParseStored(s[3 + k..])
      case None => None
      case Some((rest, n)) => Some((s[3..3 + k] + rest, 3 + k + n))
  }

  lemma BE16Value(n: nat)
    requires n < 0x1_0000
    ensures 256 * (BE16(n)[0] as int) + BE16(n)[1] as int == n
  {
  }

  lemma Framed(head: seq<byte>, mid: seq<byte>, tail: seq<byte>)
    requires |head| == 3
    ensures var s := head + mid + tail;
      && |s| >= 3 + |mid| && s[0] == head[0] && s[1] == head[1] && s[2] == head[2]
      && s[3..3 + |mid|] == mid && s[3 + |mid|..] == tail
  {
  }

  function Frame(chunk: seq<byte>): (s: seq<byte>)
    requires 0 < |chunk| <= LITERAL_CHUNK_SIZE
    ensures |s| == 3 + |chunk|
  {
    [CHUNK_MARKER] + BE16(|chunk| - 1) + chunk
  }

  lemma StoredUnfold(data: seq<byte>, rest: seq<byte>, k: nat)
    requires data != [] && k == Min(|data|, LITERAL_CHUNK_SIZE)
    ensures Stored(data) + rest == Frame(data[..k]) + (Stored(data[k..]) + rest)
  {
    Assoc(Frame(data[..k]), Stored(data[k..]), rest);
  }

  lemma StoredStep(data: seq<byte>, rest: seq<byte>, k: nat)
    requires data != [] && k == Min(|data|, LITERAL_CHUNK_SIZE)
    ensures var s := Stored(data) + rest;
      && |s| >= 3 + k && s[0] == CHUNK_MARKER && 256 * (s[1] as int) + s[2] as int + 1 == k
      && s[3..3 + k] == data[..k] && s[3 + k..] == Stored(data[k..]) + rest
  {
    hide Stored, BE16;
    StoredUnfold(data, rest, k);
    BE16Value(k - 1);
    Framed([CHUNK_MARKER] + BE16(k - 1), data[..k], Stored(data[k..]) + rest);
  }

  // Decoding the framing of any data, of any length, gives the data back and ends at its end.
  lemma {:induction false} StoredRoundTrip(data: seq<byte>, rest: seq<byte>)
    ensures ParseStored(Stored(data) + rest) == Some((data, |Stored(data)|))
    decreases |data|
  {
    if data != [] {
      var k := Min(|data|, LITERAL_CHUNK_SIZE);
      StoredStep(data, rest, k);
      StoredRoundTrip(data[k..], rest);
      assert data == data[..k] + data[k..];
    }
  }

  // The loop writes as many chunks as the ceiling division says.
  lemma {:induction false} StoredSize(data: seq<byte>)
    ensures |Stored(data)| == CompSize(|data|)
    decreases |data|
  {
    if data != [] {
      var k := Min(|data|, LITERAL_CHUNK_SIZE);
      StoredSize(data[k..]);
    }
  }

  // The framing in numbers: a chunk is marked by 1, and has its size less one in two bytes; the end
  // is marked by 0.
  lemma StoredInNumbers(data: seq<byte>)
    requires |data| <= 65536
    ensures Stored(data) == (if data == [] then [] else [1, (|data| - 1) / 256, (|data| - 1) % 256]) + data + [0]
  {
    hide Stored, Frame;
    StoredNil();
    if data != [] {
      StoredFirst(data, |data|);
      FrameInNumbers(data);
      assert data[..|data|] == data && data[|data|..] == [];
    }
  }

  lemma MoreInNumbers(data: seq<byte>)
    requires |data| > 65536
    ensures Stored(data) == [1, 255, 255] + data[..65536] + Stored(data[65536..])
  {
    hide Stored, Frame;
    StoredFirst(data, 65536);
    FrameInNumbers(data[..65536]);
  }

  lemma StoredFirst(data: seq<byte>, k: nat)
    requires data != [] && k == Min(|data|, LITERAL_CHUNK_SIZE)
    ensures Stored(data) == Frame(data[..k]) + Stored(data[k..])
  {
  }

  lemma FrameInNumbers(chunk: seq<byte>)
    requires 0 < |chunk| <= LITERAL_CHUNK_SIZE
    ensures Frame(chunk) == [1, (|chunk| - 1) / 256, (|chunk| - 1) % 256] + chunk
    ensures |chunk| == 65536 ==> Frame(chunk) == [1, 255, 255] + chunk
  {
    assert [CHUNK_MARKER] + BE16(|chunk| - 1) == [1, (|chunk| - 1) / 256, (|chunk| - 1) % 256];
  }

  // ---------- the block ----------

  // Sizes that liblzma can represent.
  predicate Encodable(n: nat) {
    CompSize(n) <= VLI_MAX
  }

  function Header(c: Sums, n: nat): (s: seq<byte>)
    requires Encodable(n)
    ensures |s| == HeaderSize(CompSize(n), n)
  {
    HeaderSizeBound(CompSize(n), n);
    BlockHeader(c, LITERAL_DICT, HeaderSize(CompSize(n), n), CompSize(n), n)
  }

  function LiteralBlock(c: Sums, check: int, data: seq<byte>): (s: seq<byte>)
    requires Encodable(|data|)
  {
    Header(c, |data|) + Stored(data) + Zeros(Pad4(CompSize(|data|))) + CheckBytes(c, check, data)
  }

  lemma BlockLength(c: Sums, check: int, data: seq<byte>)
    requires Encodable(|data|)
    ensures |LiteralBlock(c, check, data)| == TotalSizeOf(check, |data|)
  {
    StoredSize(data);
  }

  // A reader of the block finds the sizes in its header and the data behind it.
  lemma BlockRoundTrip(c: Sums, check: int, data: seq<byte>)
    requires Encodable(|data|)
    ensures var hs := HeaderSize(CompSize(|data|), |data|);
      && ParseBlockHeader(c, LiteralBlock(c, check, data)[..hs]) == Some((CompSize(|data|), |data|, LITERAL_DICT))
      && ParseStored(LiteralBlock(c, check, data)[hs..]) == Some((data, CompSize(|data|)))
  {
    var n := |data|;
    var head := Header(c, n);
    var tail := Zeros(Pad4(CompSize(n))) + CheckBytes(c, check, data);
    assert LiteralBlock(c, check, data) == head + (Stored(data) + tail);
    Cut(head, Stored(data) + tail);
    HeaderSizeBound(CompSize(n), n);
    BlockHeaderInverse(c, head, CompSize(n), n, LITERAL_DICT);
    StoredRoundTrip(data, tail);
    StoredSize(data);
  }

  // ---------- literalBlockEncode ----------

  // Copy s to output[at..]; what lies from `total` on is left alone.
  method PutBytes(output: array<byte>, at: nat, s: seq<byte>, ghost total: nat)
    requires at + |s| <= total <= output.Length
    modifies output
    ensures output[..at + |s|] == old(output[..at]) + s
    ensures output[total..] == old(output[total..])
  {
    forall i | 0 <= i < |s| {
      output[at + i] := s[i];
    }
  }

  // Rounding the end of the data up to four is rounding the compressed size up to four.
  lemma Layout(check: int, n: nat)
    ensures var hs, comp := HeaderSize(CompSize(n), n), CompSize(n);
      && TotalSizeOf(check, n) == hs + comp + Pad4(comp) + CheckSize(check)
      && Pad4(hs + comp) == Pad4(comp)
  {
    hide HeaderSize, CompSize;
  }

  method LiteralBlockEncode(c: Sums, check: int, input: seq<byte>, output: array<byte>) returns (r: Result<(nat, nat)>)
    requires Encodable(|input|)
    requires CheckSupported(check) ==> output.Length >= TotalSizeOf(check, |input|)
    modifies output
    ensures r.Ok? <==> check == 0 || check == 1 || check == 4 || check == 10
    ensures !CheckSupported(check) ==> r.OptionsError? && output[..] == old(output[..])
    ensures CheckSupported(check) ==> r == Ok((TotalSizeOf(check, |input|), Pad4(CompSize(|input|))))
    ensures CheckSupported(check) ==> output[..TotalSizeOf(check, |input|)] == LiteralBlock(c, check, input)
    ensures CheckSupported(check) ==>
      output[TotalSizeOf(check, |input|)..] == old(output[TotalSizeOf(check, |input|)..])
  {
    hide TotalSizeOf, CompSize, HeaderSize, Stored, Header, CheckBytes;
    if !CheckSupported(check) { return OptionsError; }
    ghost var total := TotalSizeOf(check, |input|);
    var header := Header(c, |input|);
    StoredSize(input);
    Layout(check, |input|);
    PutBytes(output, 0, header, total);
    assert output[..|header|] == header;
    var cnt := PutStored(input, output, |header|, total);
    var pad := PutPad(output, cnt, total);
    cnt := cnt + pad;
    PutBytes(output, cnt, CheckBytes(c, check, input), total);
    cnt := cnt + CheckSize(check);
    r := Ok((cnt, pad));
  }

  // The padding loop.
  method PutPad(output: array<byte>, start: nat, ghost total: nat) returns (pad: nat)
    requires start + Pad4(start) <= total <= output.Length
    modifies output
    ensures pad == Pad4(start) && output[..start + pad] == old(output[..start]) + Zeros(pad)
    ensures output[total..] == old(output[total..])
  {
    var cnt := start;
    pad := 0;
    while cnt % 4 > 0
      invariant cnt == start + pad <= start + Pad4(start)
      invariant output[..cnt] == old(output[..start]) + Zeros(pad)
      invariant output[total..] == old(output[total..])
      decreases start + 4 - cnt
    {
      PutBytes(output, cnt, [0], total);
      pad, cnt := pad + 1, cnt + 1;
    }
  }

  // The chunk loop and the end marker.
  method PutStored(input: seq<byte>, output: array<byte>, start: nat, ghost total: nat) returns (cnt: nat)
    requires start + |Stored(input)| <= total <= output.Length
    modifies output
    ensures cnt == start + |Stored(input)|
    ensures output[..cnt] == old(output[..start]) + Stored(input)
    ensures output[total..] == old(output[total..])
  {
    hide Stored, Frame;
    StoredNil();
    cnt := start;
    var inCnt := 0;
    ghost var done := [];
    while inCnt < |input|
      invariant 0 <= inCnt && cnt == start + |done|
      invariant Stored(input) == done + Stored(input[Min(inCnt, |input|)..])
      invariant output[..cnt] == old(output[..start]) + done
      invariant output[total..] == old(output[total..])
      decreases |input| - inCnt
    {
      var chunk := input[inCnt..];
      if |chunk| > LITERAL_CHUNK_SIZE {
        chunk := chunk[..LITERAL_CHUNK_SIZE];
      }
      ChunkStored(input, inCnt, chunk, done);
      PutChunk(output, cnt, chunk, total);
      done := done + Frame(chunk);
      cnt := cnt + 1 + 2 + |chunk|;
      inCnt := inCnt + LITERAL_CHUNK_SIZE;
    }
    assert input[Min(inCnt, |input|)..] == [];
    PutBytes(output, cnt, [END_MARKER], total);
    cnt := cnt + 1;
  }

  lemma StoredNil()
    ensures Stored([]) == [END_MARKER]
  {
  }

  lemma ChunkStored(input: seq<byte>, inCnt: nat, chunk: seq<byte>, done: seq<byte>)
    requires inCnt < |input| && chunk == input[inCnt..][..Min(|input| - inCnt, LITERAL_CHUNK_SIZE)]
    requires Stored(input) == done + Stored(input[inCnt..])
    ensures Stored(input) == done + Frame(chunk) + Stored(input[Min(inCnt + LITERAL_CHUNK_SIZE, |input|)..])
    ensures |done| + |Frame(chunk)| < |Stored(input)|
  {
    var left := input[inCnt..];
    assert left[|chunk|..] == input[Min(inCnt + LITERAL_CHUNK_SIZE, |input|)..];
    assert Stored(left) == Frame(chunk) + Stored(left[|chunk|..]);
    Assoc(done, Frame(chunk), Stored(left[|chunk|..]));
    assert |Stored(left[|chunk|..])| > 0;
  }

  // Marker, size and data of one chunk.
  method PutChunk(output: array<byte>, cnt: nat, chunk: seq<byte>, ghost total: nat)
    requires 0 < |chunk| <= LITERAL_CHUNK_SIZE && cnt + 3 + |chunk| <= total <= output.Length
    modifies output
    ensures output[..cnt + 3 + |chunk|] == old(output[..cnt]) + Frame(chunk)
    ensures output[total..] == old(output[total..])
  {
    PutBytes(output, cnt, [CHUNK_MARKER], total);
    var size := (|chunk| - 1) % 0x1_0000;   // the conversion to uint16
    PutBytes(output, cnt + 1, BE16(size), total);
    PutBytes(output, cnt + 3, chunk, total);
  }
}
