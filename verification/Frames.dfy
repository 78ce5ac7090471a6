/**
 Coders that are made from parsers: a coder that waits for a whole frame. The index decoder is one,
 since no index is the beginning of another.
 */
module Frames {
  import opened Bytes
  import opened Format
  import opened Coding

  // The text of the first complete frame in x, looking from length k on.
  function FirstFrame(f: seq<byte> -> Option<seq<byte>>, x: seq<byte>, k: nat): (t: seq<byte>)
    requires k <= |x|
    decreases |x| - k
  {
    if f(x[..k]).Some? then f(x[..k]).value
    else if k == |x| then [] else FirstFrame(f, x, k + 1)
  }

  // A coder that waits for a whole frame.
  function FrameCodec(f: seq<byte> -> Option<seq<byte>>, silent: bool): (c: Codec)
  {
    Codec(x => FirstFrame(f, x, 0), x => f(x).Some?, x => false, silent)
  }

  lemma {:induction false} FirstFrameGrows(f: seq<byte> -> Option<seq<byte>>, x: seq<byte>, y: seq<byte>, k: nat)
    requires x <= y && k <= |x|
    ensures FirstFrame(f, x, k) <= FirstFrame(f, y, k)
    decreases |x| - k
  {
    assert x[..k] == y[..k];
    if k < |x| {
      FirstFrameGrows(f, x, y, k + 1);
    }
  }

  lemma {:induction false} FirstFrameIs(f: seq<byte> -> Option<seq<byte>>, s: seq<byte>, k: nat)
    requires k <= |s| && f(s).Some? && forall i :: k <= i < |s| ==> f(s[..i]).None?
    ensures FirstFrame(f, s, k) == f(s).value
    decreases |s| - k
  {
    if k < |s| {
      FirstFrameIs(f, s, k + 1);
    } else {
      assert s[..k] == s;
    }
  }

  lemma {:induction false} NoFrame(f: seq<byte> -> Option<seq<byte>>, x: seq<byte>, k: nat)
    requires k <= |x| && forall s :: f(s).Some? ==> f(s).value == []
    ensures FirstFrame(f, x, k) == []
    decreases |x| - k
  {
    if k < |x| {
      NoFrame(f, x, k + 1);
    }
  }

  lemma FrameCodecIsGood(f: seq<byte> -> Option<seq<byte>>, silent: bool)
    requires silent ==> forall s :: f(s).Some? ==> f(s).value == []
    ensures GoodCodec(FrameCodec(f, silent))
  {
    var c := FrameCodec(f, silent);
    forall x: seq<byte>, y: seq<byte> | x <= y
      ensures c.out(x) <= c.out(y)
    {
      FirstFrameGrows(f, x, y, 0);
    }
    if silent {
      forall x: seq<byte>
        ensures c.out(x) == []
      {
        NoFrame(f, x, 0);
      }
    }
  }

  // ---------- the index ----------

  function IndexFrame(c: Sums, x: seq<byte>): (r: Option<seq<byte>>)
  {
    if ParseIndex(c, x).Some? then Some([]) else None
  }

  function IndexCodec(c: Sums): (r: Codec)
  {
    FrameCodec(x => IndexFrame(c, x), true)
  }

  lemma IndexCodecIsGood(c: Sums)
    ensures GoodCodec(IndexCodec(c)) && IndexCodec(c).silent
    ensures forall x :: IndexCodec(c).done(x) <==> ParseIndex(c, x).Some?
    ensures forall x :: !IndexCodec(c).bad(x)
  {
    hide ParseIndex;
    FrameCodecIsGood(x => IndexFrame(c, x), true);
  }

  lemma {:induction false} VliPrefix(x: seq<byte>, y: seq<byte>, k: nat)
    requires x <= y && ParseVli(x, k).Some?
    ensures ParseVli(y, k) == ParseVli(x, k)
    decreases k
  {
    if x[0] >= 128 {
      VliPrefix(x[1..], y[1..], k - 1);
    }
  }

  lemma RecordPrefix(x: seq<byte>, y: seq<byte>)
    requires x <= y && ParseRecord(x).Some?
    ensures ParseRecord(y) == ParseRecord(x)
  {
    hide ParseVli;
    VliPrefix(x, y, 9);
    var a := ParseVli(x, 9).value.1;
    VliPrefix(x[a..], y[a..], 9);
  }

  lemma {:induction false} RecordsPrefix(x: seq<byte>, y: seq<byte>, n: nat)
    requires x <= y && ParseRecords(x, n).Some?
    ensures ParseRecords(y, n) == ParseRecords(x, n)
    decreases n
  {
    hide ParseRecord;
    if n > 0 {
      RecordPrefix(x, y);
      var a := ParseRecord(x).value.1;
      RecordsPrefix(x[a..], y[a..], n - 1);
    }
  }

  // No index is the beginning of another.
  lemma IndexPrefixFree(c: Sums, x: seq<byte>, y: seq<byte>)
    requires x <= y && ParseIndex(c, x).Some? && ParseIndex(c, y).Some?
    ensures x == y
  {
    hide ParseVli, ParseRecords;
    VliPrefix(x[1..], y[1..], 9);
    var (n, a) := ParseVli(x[1..], 9).value;
    RecordsPrefix(x[1 + a..], y[1 + a..], n);
  }

  lemma IndexExtent(c: Sums, rs: seq<Record>)
    requires ValidRecords(rs)
    ensures Extent(IndexCodec(c), IndexBytes(c, rs))
  {
    hide ParseIndex, IndexBytes;
    var s := IndexBytes(c, rs);
    IndexInverse(c, s, rs);
    forall i | 0 <= i < |s|
      ensures IndexFrame(c, s[..i]).None?
    {
      if ParseIndex(c, s[..i]).Some? {
        IndexPrefixFree(c, s[..i], s);
      }
    }
  }
}
