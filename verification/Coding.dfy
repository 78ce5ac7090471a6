/**
 The buffered coding loop of lib/base.go:103-155 over an abstract liblzma coder. The coder may
 eat and make as little as it likes in one call; what it makes is determined by what it has
 eaten. Sources hand over their bytes in pieces of any size, destinations fill up.
 */
module Coding {
  import opened Bytes

  // ---------- coders ----------

  // out(x) is all that can be made from input x, done(x) says that x is complete, bad(x) that it
  // is corrupt. A silent coder, like the index decoder, never makes anything.
  datatype Codec = Codec(out: seq<byte> -> seq<byte>, done: seq<byte> -> bool, bad: seq<byte> -> bool, silent: bool)

  ghost predicate GoodCodec(c: Codec) {
    && (forall x, y :: x <= y ==> c.out(x) <= c.out(y))
    && (forall x :: !(c.done(x) && c.bad(x)))
    && (c.silent ==> forall x :: c.out(x) == [])
  }

  predicate Ends(c: Codec, x: seq<byte>) {
    c.done(x) || c.bad(x)
  }

  // The coder eats nothing beyond the end.
  predicate Running(c: Codec, x: seq<byte>) {
    forall k :: 0 <= k < |x| ==> !Ends(c, x[..k])
  }

  // The coder's input ends with the last byte of s and not before.
  predicate Extent(c: Codec, s: seq<byte>) {
    c.done(s) && Running(c, s)
  }

  // How much of s the coder eats, having eaten the first k bytes.
  function Stop(c: Codec, s: seq<byte>, k: nat): (n: nat)
    requires k <= |s|
    ensures k <= n <= |s|
    decreases |s| - k
  {
    if k == |s| || Ends(c, s[..k]) then k else Stop(c, s, k + 1)
  }

  // What s decodes to.
  function Content(c: Codec, s: seq<byte>): (t: seq<byte>)
  {
    c.out(s[..Stop(c, s, 0)])
  }

  lemma {:induction false} StopFrom(c: Codec, x: seq<byte>, s: seq<byte>, k: nat)
    requires k <= |x| && x <= s && Running(c, x)
    ensures |x| <= Stop(c, s, k) && (Ends(c, x) ==> |x| == Stop(c, s, k))
    decreases |x| - k
  {
    assert s[..k] == x[..k];
    if k < |x| {
      StopFrom(c, x, s, k + 1);
    } else {
      assert s[..k] == x;
    }
  }

  // What has been made of a part of s is a part of what s decodes to, and all of it at the end.
  lemma MadeOf(c: Codec, x: seq<byte>, s: seq<byte>)
    requires GoodCodec(c) && x <= s && Running(c, x)
    ensures |x| <= Stop(c, s, 0) && c.out(x) <= Content(c, s)
    ensures Ends(c, x) ==> c.out(x) == Content(c, s) && |x| == Stop(c, s, 0)
  {
    StopFrom(c, x, s, 0);
    assert x <= s[..Stop(c, s, 0)];
  }

  datatype Status = Ok | End | Fail | NoProgress | ShortWrite | Eof

  // lzma_code on one stream. A second call in a row that gets nowhere is a BUF_ERROR. A lazy coder
  // makes nothing, and does not tell the end, in a call in which it eats.
  class Coder {
    const codec: Codec
    const lazy: bool
    var eaten: seq<byte>
    var made: seq<byte>
    var stalled: bool
    ghost var told: Status    // what the last call returned

    ghost predicate Valid()
      reads this
    {
      && GoodCodec(codec) && Running(codec, eaten) && made <= codec.out(eaten)
      && (stalled ==> !Done() && !codec.bad(eaten))
    }

    // All has been eaten and made.
    ghost predicate Done()
      reads this
    {
      codec.done(eaten) && made == codec.out(eaten)
    }

    constructor (codec: Codec)
      requires GoodCodec(codec)
      ensures Valid() && this.codec == codec && eaten == [] && made == [] && !stalled
    {
      var some: bool := *;
      lazy := some;
      this.codec, eaten, made, stalled, told := codec, [], [], false, Ok;
    }

    constructor Lazy(codec: Codec)
      requires GoodCodec(codec)
      ensures Valid() && this.codec == codec && eaten == [] && made == [] && !stalled && lazy
    {
      this.codec, lazy, eaten, made, stalled, told := codec, true, [], [], false, Ok;
    }

    // The coder has a reason to get nowhere: it needs room, or it needs input.
    ghost predicate Stuck(input: seq<byte>, room: nat)
      reads this
    {
      || (room == 0 && (made != codec.out(eaten) || (!Ends(codec, eaten) && !codec.silent)))
      || (input == [] && made == codec.out(eaten) && !Ends(codec, eaten))
    }

    method Code(input: seq<byte>, room: nat) returns (out: seq<byte>, n: nat, st: Status)
      requires Valid()
      modifies this
      ensures Valid() && n <= |input| && |out| <= room
      ensures eaten == old(eaten) + input[..n] && made == old(made) + out
      ensures (st.Ok? || st.End? || st.Fail? || st.NoProgress?) && told == st
      ensures st.End? ==> Done()
      ensures st.Fail? <==> codec.bad(eaten)
      ensures st.NoProgress? ==> n == 0 && out == []
      ensures (st.Ok? || st.NoProgress?) && n == 0 && out == [] ==>
        old(Stuck(input, room)) && st.NoProgress? == old(stalled)
      ensures stalled <==> n == 0 && out == [] && (st.Ok? || st.NoProgress?)
      ensures lazy && n > 0 ==> out == [] && !st.End?
    {
      var hungry := input != [] && !Ends(codec, eaten) && made == codec.out(eaten) && (room > 0 || codec.silent);
      OneMore(codec, eaten, input);
      assert eaten + input[..0] == eaten;
      n :| 0 <= n <= |input| && Running(codec, eaten + input[..n]) && (hungry ==> n > 0);
      assert eaten <= eaten + input[..n];
      var all := codec.out(eaten + input[..n]);
      var most := if lazy && n > 0 then 0 else Min(room, |all| - |made|);
      var m :| 0 <= m <= most && (n == 0 && most > 0 ==> m > 0);
      out := all[|made|..|made| + m];
      assert made + out == all[..|made| + m];
      eaten, made := eaten + input[..n], made + out;
      if codec.bad(eaten) {
        st := Fail;
      } else if n == 0 && out == [] {
        st := if codec.done(eaten) && made == all then End else if stalled then NoProgress else Ok;
      } else {
        var now: bool := *;
        st := if now && !(lazy && n > 0) && codec.done(eaten) && made == all then End else Ok;
      }
      stalled := n == 0 && out == [] && (st.Ok? || st.NoProgress?);
      told := st;
    }
  }

  lemma OneMore(c: Codec, x: seq<byte>, input: seq<byte>)
    requires Running(c, x)
    ensures input != [] && !Ends(c, x) ==> Running(c, x + input[..1])
  {
    if input != [] && !Ends(c, x) {
      var y := x + input[..1];
      assert forall k :: 0 <= k < |x| ==> y[..k] == x[..k];
      assert y[..|x|] == x;
    }
  }

  // ---------- buffers, sources, destinations ----------

  // A buffered pipe in RingPoll mode. Only the first of the two slices it offers is used here.
  class Ring {
    const buf: array<byte>
    var pos: nat
    var len: nat

    ghost predicate Valid()
      reads this
    {
      pos < buf.Length && len <= buf.Length
    }

    ghost function Contents(): (s: seq<byte>)
      requires Valid()
      reads this, buf
      ensures |s| == len
    {
      if pos + len <= buf.Length then buf[pos..pos + len] else buf[pos..] + buf[..pos + len - buf.Length]
    }

    constructor (capacity: nat)
      requires capacity > 0
      ensures Valid() && fresh(buf) && buf.Length == capacity && len == pos == 0
    {
      buf := new byte[capacity];
      pos, len := 0, 0;
    }

    method ReadSlice() returns (s: seq<byte>)
      requires Valid()
      ensures s <= Contents() && |s| == Min(len, buf.Length - pos)
    {
      s := buf[pos..pos + Min(len, buf.Length - pos)];
    }

    method ReadSlices() returns (lo: seq<byte>, hi: seq<byte>)
      requires Valid()
      ensures lo + hi == Contents() && lo <= Contents() && |lo| == Min(len, buf.Length - pos)
    {
      if pos + len <= buf.Length {
        lo, hi := buf[pos..pos + len], [];
      } else {
        lo, hi := buf[pos..], buf[..pos + len - buf.Length];
      }
    }

    // The size of the first write slice.
    function WriteRoom(): (n: nat)
      requires Valid()
      reads this
      ensures n <= buf.Length - len && (n == 0 <==> len == buf.Length)
    {
      if pos + len < buf.Length then buf.Length - (pos + len) else buf.Length - len
    }

    // Fill part of the write slice and mark it.
    method Push(s: seq<byte>)
      requires Valid() && |s| <= WriteRoom()
      modifies this`len, buf
      ensures Valid() && len == old(len) + |s| && Contents() == old(Contents()) + s
    {
      var at := if pos + len < buf.Length then pos + len else pos + len - buf.Length;
      forall i | 0 <= i < |s| {
        buf[at + i] := s[i];
      }
      len := len + |s|;
    }

    method ReadMark(n: nat)
      requires Valid() && n <= len
      modifies this`pos, this`len
      ensures Valid() && len == old(len) - n && Contents() == old(Contents())[n..]
      ensures pos == old(pos) + n || pos == old(pos) + n - buf.Length
    {
      ghost var rest := Contents()[n..];
      if pos + len <= buf.Length {
        assert rest == buf[pos + n..pos + len];
      } else if pos + n < buf.Length {
        assert rest == buf[pos + n..] + buf[..pos + len - buf.Length];
      } else {
        assert rest == buf[pos + n - buf.Length..pos + len - buf.Length];
      }
      pos := if pos + n < buf.Length then pos + n else pos + n - buf.Length;
      len := len - n;
    }
  }

  // How a reader reports that it has ended: in a read of its own, with its last bytes, or either way.
  datatype Ending = Alone | WithLast | AnyWay

  // An io.Reader: some of its bytes at a time.
  class Source {
    const ending: Ending
    var rest: seq<byte>

    constructor (rest: seq<byte>, ending: Ending)
      ensures this.rest == rest && this.ending == ending
    {
      this.rest, this.ending := rest, ending;
    }

    method Read(room: nat) returns (s: seq<byte>, eof: bool)
      requires room > 0
      modifies this`rest
      ensures old(rest) == s + rest && |s| <= room
      ensures eof ==> rest == []
      ensures s == [] ==> eof
      ensures ending.Alone? && eof ==> s == []
      ensures ending.WithLast? && rest == [] ==> eof
    {
      var most := Min(room, |rest|);
      var n :| 0 <= n <= most && (most > 0 ==> n > 0);
      s, rest := rest[..n], rest[n..];
      var early: bool := *;
      eof := s == [] || (rest == [] && (ending.WithLast? || (ending.AnyWay? && early)));
    }
  }

  // An io.Writer that takes `cap` bytes in all, such as a LineMono pipe over the caller's slice.
  class Dest {
    const cap: nat
    var received: seq<byte>

    ghost predicate Valid()
      reads this
    {
      |received| <= cap
    }

    constructor (cap: nat)
      ensures Valid() && this.cap == cap && received == []
    {
      this.cap, received := cap, [];
    }

    method Write(s: seq<byte>) returns (n: nat, short: bool)
      requires Valid()
      modifies this
      ensures Valid() && n == Min(|s|, cap - old(|received|)) && short == (n < |s|)
      ensures received == old(received) + s[..n]
    {
      n := Min(|s|, cap - |received|);
      received := received + s[..n];
      short := n < |s|;
    }
  }
}
