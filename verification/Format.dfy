/**
 The pieces of the .xz file format that the writer emits and the readers parse:
 variable-length integers (section 1.2), stream header and footer (2.1), block header (3.1)
 and index (4). The bytes are concrete; the checksums are arbitrary functions of known length.
 */
module Format {
  import opened Bytes

  type Word = s: seq<byte> | |s| == 4 witness [0, 0, 0, 0]
  type Word64 = s: seq<byte> | |s| == 8 witness [0, 0, 0, 0, 0, 0, 0, 0]
  type Digest = s: seq<byte> | |s| == 32 witness seq(32, _ => 0)

  // The checksum functions of liblzma and crypto/sha256.
  datatype Sums = Sums(crc32: seq<byte> -> Word, crc64: seq<byte> -> Word64, sha256: seq<byte> -> Digest)

  const CHECK_NONE: nat := 0
  const CHECK_CRC32: nat := 1
  const CHECK_CRC64: nat := 4
  const CHECK_SHA256: nat := 10

  const STREAM_HEADER_SIZE: nat := 12
  const VLI_MAX: nat := 0x7FFF_FFFF_FFFF_FFFF
  const UNPADDED_SIZE_MIN: nat := 5
  const UNPADDED_SIZE_MAX: nat := 0x7FFF_FFFF_FFFF_FFFC
  const BACKWARD_SIZE_MAX: nat := 0x4_0000_0000

  function Pad4(n: nat): (p: nat)
    ensures p < 4 && (n + p) % 4 == 0
  {
    (4 - n % 4) % 4
  }

  function RoundUp4(n: nat): (r: nat)
    ensures r % 4 == 0 && n <= r < n + 4
  {
    n + Pad4(n)
  }

  lemma Pad4Shift(a: nat, b: nat)
    requires a % 4 == 0
    ensures Pad4(a + b) == Pad4(b)
  {
  }

  lemma RoundUp4Mono(a: nat, b: nat)
    requires a <= b
    ensures RoundUp4(a) <= RoundUp4(b)
  {
  }

  // ---------- variable-length integers ----------

  function Vli(v: nat): (s: seq<byte>)
    ensures s != [] && |s| == VliSize(v)
  {
    if v < 128 then [v] else [v % 128 + 128] + Vli(v / 128)
  }

  function VliSize(v: nat): (n: nat)
    ensures n >= 1
  {
    if v < 128 then 1 else 1 + VliSize(v / 128)
  }

  // At most k bytes; only the first byte of an integer may be the last one and zero.
  function ParseVli(s: seq<byte>, k: nat): (r: Option<(nat, nat)>)
    ensures r.Some? ==> 1 <= r.value.1 <= |s|
    decreases k
  {
    if s == [] || k == 0 then None
    else if s[0] < 128 then
      if s[0] == 0 && k < 9 then None else Some((s[0], 1))
    else
      match ParseVli(s[1..], k - 1)
      case None => None
      case Some((v, n)) => Some((s[0] - 128 + 128 * v, n + 1))
  }

  function Pow128(k: nat): (p: nat)
    ensures p >= 1
  {
    if k == 0 then 1 else 128 * Pow128(k - 1)
  }

  lemma NineGroups()
    ensures Pow128(9) == VLI_MAX + 1
  {
    assert Pow128(3) == 0x20_0000;
    assert Pow128(6) == 0x400_0000_0000;
  }

  lemma {:induction false} VliRoundTrip(v: nat, k: nat, rest: seq<byte>)
    requires v < Pow128(k) && (v > 0 || k == 9)
    ensures ParseVli(Vli(v) + rest, k) == Some((v, |Vli(v)|))
    decreases k
  {
    var s := Vli(v) + rest;
    if v >= 128 {
      assert s[1..] == Vli(v / 128) + rest;
      VliRoundTrip(v / 128, k - 1, rest);
    }
  }

  lemma {:induction false} VliCanonical(s: seq<byte>, k: nat)
    requires k <= 9 && ParseVli(s, k).Some?
    ensures ParseVli(s, k).value.0 < Pow128(k)
    ensures ParseVli(s, k).value.0 == 0 ==> k == 9
    ensures Vli(ParseVli(s, k).value.0) == s[..ParseVli(s, k).value.1]
    decreases k
  {
    if s[0] < 128 {
      assert Pow128(k) >= 128;
    } else {
      VliCanonical(s[1..], k - 1);
      var (v, n) := ParseVli(s[1..], k - 1).value;
      assert (s[0] - 128 + 128 * v) / 128 == v && (s[0] - 128 + 128 * v) % 128 == s[0] - 128;
      assert s[..n + 1] == [s[0]] + s[1..][..n];
    }
  }

  lemma {:induction false} VliSizeMono(a: nat, b: nat)
    requires a <= b
    ensures VliSize(a) <= VliSize(b)
  {
    if b >= 128 && a >= 128 {
      VliSizeMono(a / 128, b / 128);
    }
  }

  // ---------- fixed-width integers ----------

  function LE32(n: nat): (s: Word)
    requires n < 0x1_0000_0000
  {
    [n % 256, n / 256 % 256, n / 0x1_0000 % 256, n / 0x100_0000]
  }

  function ParseLE32(s: Word): (n: nat)
    ensures n < 0x1_0000_0000
  {
    var a: int, b: int, c: int, d: int := s[0], s[1], s[2], s[3];
    a + 256 * b + 0x1_0000 * c + 0x100_0000 * d
  }

  lemma LE32RoundTrip(n: nat)
    requires n < 0x1_0000_0000
    ensures ParseLE32(LE32(n)) == n
  {
    var a, b, c := n / 256, n / 0x1_0000, n / 0x100_0000;
    assert n == 256 * a + n % 256 && a == 256 * b + a % 256 && b == 256 * c + b % 256;
  }

  lemma LE32Canonical(s: Word)
    ensures LE32(ParseLE32(s)) == s
  {
    var a: int, b: int, c: int, d: int := s[0], s[1], s[2], s[3];
    var n: int := ParseLE32(s);
    Quotients(n, b + 256 * c + 0x1_0000 * d, c + 256 * d, d);
    LowDigit(a, b + 256 * c + 0x1_0000 * d);
    LowDigit(b, c + 256 * d);
    LowDigit(c, d);
    assert LE32(n) == [a, b, c, d];
  }

  lemma Quotients(n: nat, one: nat, two: nat, three: nat)
    requires 256 * one <= n < 256 * one + 256
    requires 0x1_0000 * two <= n < 0x1_0000 * two + 0x1_0000
    requires 0x100_0000 * three <= n < 0x100_0000 * three + 0x100_0000
    ensures n / 256 == one && n / 0x1_0000 == two && n / 0x100_0000 == three
  {
  }

  lemma LowDigit(a: nat, more: nat)
    requires a < 256
    ensures (a + 256 * more) % 256 == a
  {
  }

  // ---------- stream header and footer ----------

  function StreamHeader(c: Sums, check: nat): (s: seq<byte>)
    requires check < 16
    ensures |s| == STREAM_HEADER_SIZE
  {
    [0xFD, 0x37, 0x7A, 0x58, 0x5A, 0x00] + [0, check] + c.crc32([0, check])
  }

  function ParseHeader(c: Sums, s: seq<byte>): (r: Option<nat>)
    requires |s| == STREAM_HEADER_SIZE
    ensures r.Some? ==> r.value < 16
  {
    if s[..6] == [0xFD, 0x37, 0x7A, 0x58, 0x5A, 0x00] && s[6] == 0 && s[7] < 16 && s[8..] == c.crc32(s[6..8])
    then Some(s[7]) else None
  }

  lemma HeaderInverse(c: Sums, s: seq<byte>, check: nat)
    requires |s| == STREAM_HEADER_SIZE && check < 16
    ensures ParseHeader(c, s) == Some(check) <==> s == StreamHeader(c, check)
  {
    var h := StreamHeader(c, check);
    assert h[..6] == [0xFD, 0x37, 0x7A, 0x58, 0x5A, 0x00] && h[6..8] == [0, check] && h[8..] == c.crc32([0, check]);
    if ParseHeader(c, s) == Some(check) {
      assert s == s[..6] + s[6..8] + s[8..];
      assert s[6..8] == [0, check];
    }
  }

  function Footer(c: Sums, check: nat, backward: nat): (s: seq<byte>)
    requires check < 16 && backward % 4 == 0 && 4 <= backward <= BACKWARD_SIZE_MAX
    ensures |s| == STREAM_HEADER_SIZE
  {
    var body := LE32(backward / 4 - 1) + [0, check];
    c.crc32(body) + body + [0x59, 0x5A]
  }

  function ParseFooter(c: Sums, s: seq<byte>): (r: Option<(nat, nat)>)
    requires |s| == STREAM_HEADER_SIZE
    ensures r.Some? ==> r.value.0 < 16 && r.value.1 % 4 == 0 && 4 <= r.value.1 <= BACKWARD_SIZE_MAX
  {
    if s[10..] == [0x59, 0x5A] && s[..4] == c.crc32(s[4..10]) && s[8] == 0 && s[9] < 16
    then Some((s[9], 4 * (ParseLE32(s[4..8]) + 1))) else None
  }

  lemma FooterInverse(c: Sums, s: seq<byte>, check: nat, backward: nat)
    requires |s| == STREAM_HEADER_SIZE && check < 16
    requires backward % 4 == 0 && 4 <= backward <= BACKWARD_SIZE_MAX
    ensures ParseFooter(c, s) == Some((check, backward)) <==> s == Footer(c, check, backward)
  {
    var f := Footer(c, check, backward);
    var le: Word := LE32(backward / 4 - 1);
    var body := le + [0, check];
    assert f[4..10] == body && f[..4] == c.crc32(body) && f[4..8] == le && f[10..] == [0x59, 0x5A];
    LE32RoundTrip(backward / 4 - 1);
    if ParseFooter(c, s) == Some((check, backward)) {
      LE32Canonical(s[4..8]);
      assert s[4..8] == le;
      assert s[4..10] == s[4..8] + [s[8], s[9]];
      assert s == s[..4] + s[4..10] + s[10..];
    }
  }

  // ---------- block header ----------

  const LZMA2_FLAGS_SIZE: nat := 3

  // Size byte, flag byte, both sizes, the LZMA2 filter flags and a CRC32, rounded up to a multiple of four.
  function HeaderSize(compSize: nat, uncompSize: nat): (n: nat)
    ensures n % 4 == 0
  {
    HeaderSizeOf(VliSize(compSize) + VliSize(uncompSize))
  }

  function HeaderSizeOf(vliBytes: nat): (n: nat)
    ensures n % 4 == 0
  {
    RoundUp4(1 + 1 + vliBytes + LZMA2_FLAGS_SIZE + 4)
  }

  lemma HeaderSizeMono(a: nat, b: nat)
    requires a <= b
    ensures HeaderSizeOf(a) <= HeaderSizeOf(b)
  {
    RoundUp4Mono(9 + a, 9 + b);
  }

  lemma {:induction false} VliSizeBound(v: nat, k: nat)
    requires 1 <= k && v < Pow128(k)
    ensures VliSize(v) <= k
    decreases k
  {
    if v >= 128 {
      assert Pow128(k) == 128 * Pow128(k - 1);
      VliSizeBound(v / 128, k - 1);
    }
  }

  lemma HeaderSizeBound(compSize: nat, uncompSize: nat)
    requires compSize <= VLI_MAX && uncompSize <= VLI_MAX
    ensures 12 <= HeaderSize(compSize, uncompSize) <= 28
  {
    NineGroups();
    VliSizeBound(compSize, 9);
    VliSizeBound(uncompSize, 9);
  }

  // A header of this size has room for the sizes.
  predicate HeaderHolds(size: nat, compSize: nat, uncompSize: nat) {
    && compSize <= VLI_MAX && uncompSize <= VLI_MAX
    && size % 4 == 0 && HeaderSize(compSize, uncompSize) <= size <= 1024
  }

  // What lies between the first two bytes and the CRC32: both sizes, the LZMA2 filter, and zeros.
  function HeaderBody(dict: byte, size: nat, compSize: nat, uncompSize: nat): (s: seq<byte>)
    requires HeaderHolds(size, compSize, uncompSize)
    ensures |s| == size - 6
  {
    var sizes := Vli(compSize) + Vli(uncompSize);
    sizes + ([0x21, 0x01, dict] + Zeros(size - 9 - |sizes|))
  }

  // The header occupies `size` bytes; liblzma fills the space it does not need with zeros.
  function BlockHeader(c: Sums, dict: byte, size: nat, compSize: nat, uncompSize: nat): (s: seq<byte>)
    requires HeaderHolds(size, compSize, uncompSize)
    ensures |s| == size && s[0] != 0 && size == 4 * (s[0] as int + 1)
  {
    HeaderSizeBound(compSize, uncompSize);
    var padded := [size / 4 - 1, 0xC0] + HeaderBody(dict, size, compSize, uncompSize);
    padded + c.crc32(padded)
  }

  // Two sizes, and the number of bytes they take.
  function ParseSizes(s: seq<byte>): (r: Option<(nat, nat, nat)>)
    ensures r.Some? ==> r.value.2 <= |s|
  {
    match ParseVli(s, 9)
    case None => None
    case Some((comp, n)) =>
      match ParseVli(s[n..], 9)
      case None => None
      case Some((uncomp, m)) => Some((comp, uncomp, n + m))
  }

  // A header that has both sizes and the LZMA2 filter and no other: the sizes and the dictionary.
  function ParseBlockHeader(c: Sums, s: seq<byte>): (r: Option<(nat, nat, byte)>)
  {
    if |s| < 8 || |s| > 1024 || |s| % 4 != 0 || s[0] != |s| / 4 - 1 || s[1] != 0xC0
      || s[|s| - 4..] != c.crc32(s[..|s| - 4])
    then None else ParseHeaderBody(s[2..|s| - 4])
  }

  function ParseHeaderBody(body: seq<byte>): (r: Option<(nat, nat, byte)>)
  {
    match ParseSizes(body)
    case None => None
    case Some((comp, uncomp, n)) =>
      var rest := body[n..];
      if |rest| >= 3 && rest[..2] == [0x21, 0x01] && rest[3..] == Zeros(|rest| - 3)
      then Some((comp, uncomp, rest[2])) else None
  }

  lemma SizesRoundTrip(compSize: nat, uncompSize: nat, rest: seq<byte>)
    requires compSize <= VLI_MAX && uncompSize <= VLI_MAX
    ensures ParseSizes(Vli(compSize) + Vli(uncompSize) + rest)
      == Some((compSize, uncompSize, |Vli(compSize) + Vli(uncompSize)|))
  {
    hide ParseVli, Vli, VliSize, Pow128;
    NineGroups();
    var one, two := Vli(compSize), Vli(uncompSize);
    Assoc(one, two, rest);
    Cut(one, two + rest);
    VliRoundTrip(compSize, 9, two + rest);
    VliRoundTrip(uncompSize, 9, rest);
  }

  lemma SizesCanonical(s: seq<byte>)
    requires ParseSizes(s).Some?
    ensures var (comp, uncomp, n) := ParseSizes(s).value;
      comp <= VLI_MAX && uncomp <= VLI_MAX && Vli(comp) + Vli(uncomp) == s[..n]
  {
    hide ParseVli, Vli, VliSize, Pow128;
    NineGroups();
    VliCanonical(s, 9);
    var n := ParseVli(s, 9).value.1;
    VliCanonical(s[n..], 9);
    var m := ParseVli(s[n..], 9).value.1;
    assert s[..n] + s[n..][..m] == s[..n + m];
  }

  lemma HeaderBodyInverse(body: seq<byte>, compSize: nat, uncompSize: nat, dict: byte)
    requires |body| % 4 == 2 && |body| <= 1018
    ensures ParseHeaderBody(body) == Some((compSize, uncompSize, dict)) <==>
      HeaderHolds(|body| + 6, compSize, uncompSize) && body == HeaderBody(dict, |body| + 6, compSize, uncompSize)
  {
    hide ParseSizes, Vli, VliSize, Zeros;
    if ParseHeaderBody(body) == Some((compSize, uncompSize, dict)) {
      SizesCanonical(body);
      var n := ParseSizes(body).value.2;
      var rest := body[n..];
      assert rest == rest[..2] + [rest[2]] + rest[3..];
      assert body == body[..n] + rest;
    }
    if HeaderHolds(|body| + 6, compSize, uncompSize) && body == HeaderBody(dict, |body| + 6, compSize, uncompSize) {
      var sizes := Vli(compSize) + Vli(uncompSize);
      var rest := [0x21, 0x01, dict] + Zeros(|body| - 3 - |sizes|);
      SizesRoundTrip(compSize, uncompSize, rest);
      Cut(sizes, rest);
      assert rest[..2] == [0x21, 0x01] && rest[3..] == Zeros(|rest| - 3);
    }
  }

  // Decoding a block header gives sizes and a dictionary exactly if it is their encoding, whatever
  // space was reserved for it.
  lemma BlockHeaderInverse(c: Sums, s: seq<byte>, compSize: nat, uncompSize: nat, dict: byte)
    ensures ParseBlockHeader(c, s) == Some((compSize, uncompSize, dict)) <==>
      HeaderHolds(|s|, compSize, uncompSize) && s == BlockHeader(c, dict, |s|, compSize, uncompSize)
  {
    hide ParseHeaderBody, HeaderBody, HeaderSize, Vli;
    if 8 <= |s| <= 1024 && |s| % 4 == 0 {
      var body, sum := s[2..|s| - 4], s[|s| - 4..];
      HeaderBodyInverse(body, compSize, uncompSize, dict);
      assert s[..|s| - 4] == [s[0], s[1]] + body;
      assert s == s[..|s| - 4] + sum;
    }
    if HeaderHolds(|s|, compSize, uncompSize) { HeaderSizeBound(compSize, uncompSize); }
  }

  // ---------- index ----------

  datatype Record = Record(unpadSize: nat, uncompSize: nat)

  // An encoded block and the record that the index keeps of it.
  datatype Block = Block(bytes: seq<byte>, rec: Record)

  predicate ValidRecord(r: Record) {
    UNPADDED_SIZE_MIN <= r.unpadSize <= UNPADDED_SIZE_MAX && r.uncompSize <= VLI_MAX
  }

  predicate ValidRecords(rs: seq<Record>) {
    |rs| <= VLI_MAX && forall i :: 0 <= i < |rs| ==> ValidRecord(rs[i])
  }

  // Bytes that the blocks of these records occupy (lzma_index_total_size).
  function TotalSize(rs: seq<Record>): (n: nat)
  {
    if rs == [] then 0 else TotalSize(rs[..|rs| - 1]) + RoundUp4(rs[|rs| - 1].unpadSize)
  }

  function RecordBytes(r: Record): (s: seq<byte>)
    ensures |s| >= 2
  {
    Vli(r.unpadSize) + Vli(r.uncompSize)
  }

  function RecordsBytes(rs: seq<Record>): (s: seq<byte>)
  {
    if rs == [] then [] else RecordBytes(rs[0]) + RecordsBytes(rs[1..])
  }

  function IndexBody(rs: seq<Record>): (s: seq<byte>)
    ensures |s| % 4 == 0 && |s| >= 4 && s[0] == 0
  {
    var body := [0] + Vli(|rs|) + RecordsBytes(rs);
    body + Zeros(Pad4(|body|))
  }

  function IndexBytes(c: Sums, rs: seq<Record>): (s: seq<byte>)
    ensures |s| % 4 == 0 && |s| >= 8 && s[0] == 0
  {
    IndexBody(rs) + c.crc32(IndexBody(rs))
  }

  function ParseRecord(s: seq<byte>): (r: Option<(Record, nat)>)
    ensures r.Some? ==> r.value.1 <= |s| && ValidRecord(r.value.0)
  {
    match ParseVli(s, 9)
    case None => None
    case Some((unpad, a)) =>
      match ParseVli(s[a..], 9)
      case None => None
      case Some((uncomp, b)) =>
        if ValidRecord(Record(unpad, uncomp)) then Some((Record(unpad, uncomp), a + b)) else None
  }

  // The first n records of s and the number of bytes they take.
  function ParseRecords(s: seq<byte>, n: nat): (r: Option<(seq<Record>, nat)>)
    ensures r.Some? ==> |r.value.0| == n && r.value.1 <= |s|
    ensures r.Some? ==> forall i :: 0 <= i < n ==> ValidRecord(r.value.0[i])
    decreases n
  {
    if n == 0 then Some(([], 0)) else
    match ParseRecord(s)
    case None => None
    case Some((one, a)) =>
      match ParseRecords(s[a..], n - 1)
      case None => None
      case Some((rs, m)) => Some(([one] + rs, a + m))
  }

  // Succeeds only when the index takes the whole of s.
  function ParseIndex(c: Sums, s: seq<byte>): (r: Option<seq<Record>>)
    ensures r.Some? ==> ValidRecords(r.value)
  {
    if s == [] || s[0] != 0 then None else
    match ParseVli(s[1..], 9)
    case None => None
    case Some((n, a)) =>
      NineGroups(); VliCanonical(s[1..], 9);
      match ParseRecords(s[1 + a..], n)
      case None => None
      case Some((rs, m)) =>
        var used := 1 + a + m;
        var end := used + Pad4(used);
        if |s| == end + 4 && s[used..end] == Zeros(end - used) && s[end..] == c.crc32(s[..end])
        then Some(rs) else None
  }

  lemma RecordRoundTrip(r: Record, rest: seq<byte>)
    requires ValidRecord(r)
    ensures ParseRecord(RecordBytes(r) + rest) == Some((r, |RecordBytes(r)|))
  {
    hide ParseVli, Vli;
    NineGroups();
    var one, two := Vli(r.unpadSize), Vli(r.uncompSize);
    Assoc(one, two, rest);
    VliRoundTrip(r.unpadSize, 9, two + rest);
    Cut(one, two + rest);
    VliRoundTrip(r.uncompSize, 9, rest);
  }

  lemma RecordCanonical(s: seq<byte>)
    requires ParseRecord(s).Some?
    ensures RecordBytes(ParseRecord(s).value.0) == s[..ParseRecord(s).value.1]
  {
    hide ParseVli, Vli;
    var (unpad, a) := ParseVli(s, 9).value;
    var (uncomp, b) := ParseVli(s[a..], 9).value;
    VliCanonical(s, 9);
    VliCanonical(s[a..], 9);
    assert s[..a + b] == s[..a] + s[a..][..b];
  }

  lemma {:induction false} RecordsRoundTrip(rs: seq<Record>, rest: seq<byte>)
    requires forall i :: 0 <= i < |rs| ==> ValidRecord(rs[i])
    ensures ParseRecords(RecordsBytes(rs) + rest, |rs|) == Some((rs, |RecordsBytes(rs)|))
    decreases |rs|
  {
    hide ParseVli, Vli, ParseRecord, RecordBytes;
    if rs != [] {
      var one, more := RecordBytes(rs[0]), RecordsBytes(rs[1..]);
      Assoc(one, more, rest);
      RecordRoundTrip(rs[0], more + rest);
      Cut(one, more + rest);
      RecordsRoundTrip(rs[1..], rest);
      assert rs == [rs[0]] + rs[1..];
    }
  }

  lemma {:induction false} RecordsCanonical(s: seq<byte>, n: nat)
    requires ParseRecords(s, n).Some?
    ensures RecordsBytes(ParseRecords(s, n).value.0) == s[..ParseRecords(s, n).value.1]
    decreases n
  {
    hide ParseVli, Vli, ParseRecord, RecordBytes;
    if n > 0 {
      var (one, a) := ParseRecord(s).value;
      var (rs, m) := ParseRecords(s[a..], n - 1).value;
      RecordCanonical(s);
      RecordsCanonical(s[a..], n - 1);
      Cut([one], rs);
      assert s[..a + m] == s[..a] + s[a..][..m];
    }
  }

  // The index decoder inverts the index encoder, and accepts nothing else.
  lemma IndexInverse(c: Sums, s: seq<byte>, rs: seq<Record>)
    ensures ParseIndex(c, s) == Some(rs) <==> ValidRecords(rs) && s == IndexBytes(c, rs)
  {
    if ParseIndex(c, s) == Some(rs) {
      IndexCanonical(c, s);
    }
    if ValidRecords(rs) && s == IndexBytes(c, rs) {
      IndexRoundTrip(c, rs);
    }
  }

  lemma IndexCanonical(c: Sums, s: seq<byte>)
    requires ParseIndex(c, s).Some?
    ensures s == IndexBytes(c, ParseIndex(c, s).value)
  {
    hide ParseVli, Vli, ParseRecords, RecordsBytes;
    var (n, a) := ParseVli(s[1..], 9).value;
    var (rs, m) := ParseRecords(s[1 + a..], n).value;
    VliCanonical(s[1..], 9);
    RecordsCanonical(s[1 + a..], n);
    var used := 1 + a + m;
    var end := used + Pad4(used);
    assert s[..used] == [0] + s[1..][..a] + s[1 + a..][..m];
    assert s[..end] == s[..used] + s[used..end];
    assert IndexBody(rs) == s[..end];
    assert s == s[..end] + s[end..];
  }

  lemma IndexRoundTrip(c: Sums, rs: seq<Record>)
    requires ValidRecords(rs)
    ensures ParseIndex(c, IndexBytes(c, rs)) == Some(rs)
  {
    hide ParseVli, Vli, ParseRecords, RecordsBytes, Pad4, Pow128;
    NineGroups();
    var s := IndexBytes(c, rs);
    var cnt, recs := Vli(|rs|), RecordsBytes(rs);
    var body := [0] + cnt + recs;
    var pad, crc := Zeros(Pad4(|body|)), c.crc32(IndexBody(rs));
    IndexParts(s, cnt, recs, pad, crc);
    VliRoundTrip(|rs|, 9, recs + (pad + crc));
    RecordsRoundTrip(rs, pad + crc);
  }

  // What lies behind each part of an index.
  lemma IndexParts(s: seq<byte>, cnt: seq<byte>, recs: seq<byte>, pad: seq<byte>, crc: seq<byte>)
    requires s == [0] + cnt + recs + pad + crc
    ensures var used := 1 + |cnt| + |recs|; var end := used + |pad|;
      && s[1..] == cnt + (recs + (pad + crc)) && s[1 + |cnt|..] == recs + (pad + crc)
      && s[used..end] == pad && s[..end] == [0] + cnt + recs + pad && s[end..] == crc
  {
    assert s == [0] + (cnt + (recs + (pad + crc)));
    assert s == ([0] + cnt) + (recs + (pad + crc));
    Cut([0] + cnt, recs + (pad + crc));
  }
}
