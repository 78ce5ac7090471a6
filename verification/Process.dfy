/** Stream.Process (lib/base.go:103-155): input buffer, coder, output buffer, round and round. */
module Process {
  import opened Bytes
  import opened Coding

  // A BUF_ERROR is taken back when there was input and room: feed more.
  function Cleared(st: Status, noDst: bool, noSrc: bool, input: seq<byte>, room: nat): (t: Status)
  {
    if (noSrc || input != []) && (noDst || room > 0) && st.NoProgress? then Ok else st
  }

  // The switch at the end of the loop: what Process returns, if it does.
  function Switch(short: bool, st: Status, err: bool, outLen: nat, inLen: nat): (r: Option<Status>)
  {
    if short then Some(ShortWrite)
    else if !st.Ok? && outLen == 0 then Some(st)
    else if err && outLen == 0 && inLen == 0 then Some(Eof)
    else None
  }

  class CodingStream {
    const coder: Coder
    const inBuf: Ring
    const outBuf: Ring
    ghost var delivered: seq<byte>    // what destinations have received from this stream

    ghost predicate Valid()
      reads this, coder, inBuf, outBuf, outBuf.buf
    {
      && inBuf != outBuf && inBuf.buf != outBuf.buf
      && coder.Valid() && inBuf.Valid() && outBuf.Valid()
      && coder.made == delivered + outBuf.Contents()
    }

    // A new coder with its buffers; the input buffer may hold what an earlier coder has left.
    constructor (coder: Coder, outBuf: Ring, inBuf: Ring)
      requires inBuf != outBuf && inBuf.buf != outBuf.buf && inBuf.Valid() && outBuf.Valid() && outBuf.len == 0
      requires coder.Valid() && coder.made == [] && !coder.stalled
      ensures Valid() && this.coder == coder && this.inBuf == inBuf && this.outBuf == outBuf
      ensures delivered == [] && Live()
    {
      this.coder, this.inBuf, this.outBuf, delivered := coder, inBuf, outBuf, [];
    }

    // All the input there is, in order: eaten, buffered, still in the source.
    ghost function Input(src: Source?): (s: seq<byte>)
      requires inBuf.Valid()
      reads coder, inBuf, inBuf.buf, src
    {
      coder.eaten + inBuf.Contents() + (if src == null then [] else src.rest)
    }

    ghost predicate Full()
      reads outBuf
    {
      outBuf.len == outBuf.buf.Length
    }

    // The last call of the coder has not got nowhere for want of room.
    ghost predicate Live()
      reads coder, outBuf
    {
      coder.stalled ==> !Full()
    }

    ghost predicate Blocked(dst: Dest)
      reads outBuf, dst
    {
      Full() && |dst.received| == dst.cap
    }

    // What the coder has eaten and made, in bytes.
    ghost function Work(): (n: nat)
      reads coder
    {
      |coder.eaten| + |coder.made|
    }

    // How far the ring of the input buffer has turned beyond what the coder has eaten.
    ghost function Offset(): (o: int)
      reads coder, inBuf
    {
      (inBuf.pos - |coder.eaten|) % 4
    }

    ghost predicate Quartered()
    {
      inBuf.buf.Length % 4 == 0
    }

    ghost predicate Exhausted(src: Source?)
      reads inBuf, src
    {
      inBuf.len == 0 && src != null && src.rest == []
    }

    // A nil destination goes with a coder that makes nothing, a nil source with one that needs no
    // more input; otherwise the loop would not end.
    ghost predicate Matches(dst: Dest?, src: Source?)
      reads coder, outBuf, dst
    {
      && (if dst == null then outBuf.len == 0 && coder.codec.silent else dst.Valid())
      && (src == null ==> Ends(coder.codec, coder.eaten))
    }

    // What the returned status says.
    ghost predicate Outcome(st: Status, dst: Dest?, src: Source?)
      reads coder, inBuf, outBuf, dst, src
    {
      match st
      case Ok => dst == null && src == null
      case End => coder.Done() && outBuf.len == 0
      case Fail => coder.codec.bad(coder.eaten) && outBuf.len == 0
      case ShortWrite => dst != null && |dst.received| == dst.cap && outBuf.len > 0
      case Eof => Exhausted(src) && outBuf.len == 0
      case NoProgress => outBuf.len == 0
    }

    // Read into an empty input buffer until there is something in it or the source ends.
    method Fill(src: Source, err0: bool) returns (n: nat, err: bool)
      requires Valid() && (err0 ==> src.rest == [])
      modifies inBuf`len, inBuf.buf, src`rest
      ensures Valid() && Input(src) == old(Input(src)) && n == old(|src.rest|) - |src.rest|
      ensures (err ==> src.rest == []) && (err || inBuf.len > 0) && (err0 ==> err)
      ensures src.ending.Alone? && err && !err0 ==> old(Left(src)) == 0
      ensures src.ending.WithLast? && (old(src.rest) == [] ==> err0) && src.rest == [] ==> err
    {
      hide Ring.Contents, Coder.Valid;
      n, err := 0, err0;
      while !err && inBuf.len == 0
        invariant Valid() && Input(src) == old(Input(src)) && n == old(|src.rest|) - |src.rest|
        invariant (err ==> src.rest == []) && (err0 ==> err)
        invariant src.ending.Alone? && err && !err0 ==> old(Left(src)) == 0
        invariant src.ending.WithLast? && (old(src.rest) == [] ==> err0) && src.rest == [] ==> err
        invariant inBuf.len == 0 ==> old(inBuf.len) == 0 && (err || src.rest == old(src.rest))
        decreases !err, inBuf.len == 0
      {
        var s;
        s, err := src.Read(inBuf.WriteRoom());
        inBuf.Push(s);
        n := n + |s|;
      }
    }

    // Input bytes that the coder has yet to eat.
    ghost function Left(src: Source?): (n: nat)
      reads inBuf, src
    {
      inBuf.len + (if src == null then 0 else |src.rest|)
    }

    // One call of the coder, from the first read slice to the first write slice. It ate n bytes
    // and made m.
    method Turn(ghost src: Source?) returns (input: seq<byte>, room: nat, n: nat, m: nat, st: Status)
      requires Valid()
      modifies coder, inBuf`pos, inBuf`len, outBuf`len, outBuf.buf
      ensures Valid() && Input(src) == old(Input(src))
      ensures input == [] <==> old(inBuf.len) == 0
      ensures room == 0 <==> old(Full())
      ensures inBuf.len == old(inBuf.len) - n && outBuf.len == old(outBuf.len) + m && m <= room
      ensures |coder.made| == |old(coder.made)| + m && old(coder.made) <= coder.made
      ensures |coder.eaten| == |old(coder.eaten)| + n && old(coder.eaten) <= coder.eaten
      ensures st.Ok? || st.NoProgress? ==>
        (coder.stalled <==> n + m == 0)
        && (n + m == 0 ==> old(coder.Stuck(input, room)) && st.NoProgress? == old(coder.stalled))
      ensures st.NoProgress? ==> n + m == 0
      ensures (st.Ok? || st.NoProgress? || st.Fail? || (st.End? && coder.Done())) && coder.told == st
      ensures st.End? || st.Fail? ==> !coder.stalled
      ensures st.Fail? <==> coder.codec.bad(coder.eaten)
      ensures coder.lazy && n > 0 ==> !st.End?
      ensures inBuf.pos == old(inBuf.pos) + n || inBuf.pos == old(inBuf.pos) + n - inBuf.buf.Length
    {
      hide Ring.Contents, Coder.Valid, Coder.Stuck, Coder.Done, Ring.WriteRoom;
      input := inBuf.ReadSlice();
      room := outBuf.WriteRoom();
      var out;
      out, n, st := coder.Code(input, room);
      inBuf.ReadMark(n);
      outBuf.Push(out);
      m := |out|;
    }

    // Write the first read slice out, or as much of it as the destination takes.
    method Hand(dst: Dest) returns (k: nat, short: bool)
      requires Valid() && dst.Valid() && outBuf.len > 0
      modifies outBuf`pos, outBuf`len, dst, this`delivered
      ensures Valid() && dst.Valid() && k <= old(outBuf.len) && outBuf.Contents() == old(outBuf.Contents())[k..]
      ensures dst.received == old(dst.received) + old(outBuf.Contents())[..k]
      ensures delivered == old(delivered) + old(outBuf.Contents())[..k]
      ensures if short then |dst.received| == dst.cap && outBuf.len > 0 else k > 0
    {
      hide Ring.Contents, Coder.Valid;
      var s := outBuf.ReadSlice();
      k, short := dst.Write(s);
      outBuf.ReadMark(k);
      delivered := delivered + s[..k];
      assert s[..k] == old(outBuf.Contents())[..k];
      assert coder.made == old(delivered) + (old(outBuf.Contents())[..k] + old(outBuf.Contents())[k..]);
    }

    // Write out what the output buffer holds, until the destination takes no more.
    method Deliver(dst: Dest) returns (m: nat, short: bool)
      requires Valid() && dst.Valid()
      modifies outBuf`pos, outBuf`len, dst, this`delivered
      ensures Valid() && dst.Valid() && m <= old(outBuf.len) && outBuf.len == old(outBuf.len) - m
      ensures dst.received == old(dst.received) + old(outBuf.Contents())[..m]
      ensures delivered == old(delivered) + old(outBuf.Contents())[..m]
      ensures if short then |dst.received| == dst.cap && outBuf.len > 0 else outBuf.len == 0
    {
      hide Ring.Contents, Ring.Valid, Coder.Valid;
      m, short := 0, false;
      ghost var all := outBuf.Contents();
      while !short && outBuf.len > 0
        invariant Valid() && dst.Valid() && m <= |all| && outBuf.Contents() == all[m..]
        invariant dst.received == old(dst.received) + all[..m] && delivered == old(delivered) + all[..m]
        invariant short ==> |dst.received| == dst.cap && outBuf.len > 0
        decreases !short, outBuf.len
      {
        var k;
        k, short := Hand(dst);
        Further(all, m, k);
        m := m + k;
      }
    }

    // The coder has nothing left to take when it has come to the end.
    lemma AtEnd(was: seq<byte>)
      requires coder.Valid() && was <= coder.eaten && Ends(coder.codec, was)
      ensures coder.eaten == was
    {
      assert coder.eaten[..|was|] == was;
    }

    lemma Bounded(src: Source?)
      requires Valid()
      ensures |coder.made| <= |coder.codec.out(Input(src))|
    {
      assert coder.eaten <= Input(src);
    }

    // The coder got nowhere: it neither ate nor made anything.
    twostate predicate Idle()
      reads coder
    {
      coder.eaten == old(coder.eaten) && coder.made == old(coder.made)
    }

    // All the input has been eaten, and the coder needs more.
    ghost predicate Truncated(src: Source?)
      reads coder, inBuf, src
    {
      Exhausted(src) && !Ends(coder.codec, coder.eaten)
    }

    lemma NotYet(src: Source?)
      requires Valid()
      ensures coder.eaten != Input(src) ==> |coder.made| <= Most(coder.codec, Input(src))
    {
      var all := Input(src);
      if coder.eaten != all {
        assert coder.eaten <= all && |coder.eaten| < |all|;
        assert coder.eaten <= all[..|all| - 1];
      }
    }

    // One call of the coder, with the BUF_ERROR taken back that only means that more is to come.
    // It never is taken back for a call that got nowhere twice.
    method Step(dst: Dest?, src: Source?, ghost err: bool) returns (st: Status)
      requires Valid() && Matches(dst, src) && (dst != null || src != null)
      requires src != null && inBuf.len == 0 ==> err && src.rest == []
      modifies coder, inBuf`pos, inBuf`len, outBuf`len, outBuf.buf
      ensures Valid() && Input(src) == old(Input(src)) && (src == null ==> Ends(coder.codec, coder.eaten))
      ensures dst == null ==> outBuf.len == 0 && coder.codec.silent
      ensures !st.ShortWrite? && !st.Eof? && coder.told == st
      ensures old(coder.eaten) <= coder.eaten && old(coder.made) <= coder.made
      ensures |coder.made| <= |old(coder.made)| + outBuf.buf.Length
      ensures inBuf.len - old(inBuf.len) == |old(coder.eaten)| - |coder.eaten|
      ensures outBuf.len - old(outBuf.len) == |coder.made| - |old(coder.made)|
      ensures st.End? ==> coder.Done()
      ensures st.Fail? <==> coder.codec.bad(coder.eaten)
      ensures st.NoProgress? ==> Idle() && old(coder.stalled) && (!old(Live()) || (err && Truncated(src)))
      ensures coder.stalled ==> Idle()
      ensures old(Full()) ==> coder.made == old(coder.made)
      ensures st.Ok? ==> !Idle() || (!old(coder.stalled) && coder.stalled)
      ensures dst != null && old(Full()) && coder.eaten == old(coder.eaten) && !coder.Done() && !st.Fail? ==>
        coder.stalled && (old(coder.stalled) ==> st.NoProgress?)
      ensures coder.codec.done(old(coder.eaten)) ==> coder.eaten == old(coder.eaten)
      ensures coder.codec.done(old(coder.eaten)) && !old(Full()) && !old(coder.Done()) ==> !Idle()
      ensures old(coder.Done()) ==> st.End?
      ensures coder.lazy && coder.eaten != old(coder.eaten) ==> !st.End?
      ensures Quartered() ==> Offset() == old(Offset())
    {
      hide Ring.Contents;
      var input, room, n, m;
      ghost var was := coder.eaten;
      input, room, n, m, st := Turn(src);
      if Ends(coder.codec, was) { AtEnd(was); }
      st := Cleared(st, dst == null, src == null, input, room);
    }

    // Once round the loop, up to the switch. The bytes sent are `x`.
    method Round(dst: Dest?, src: Source?, err0: bool)
      returns (st: Status, err: bool, short: bool, outCnt: nat, inCnt: nat, ghost x: seq<byte>)
      requires Valid() && Matches(dst, src) && (dst != null || src != null) && (err0 ==> src != null && src.rest == [])
      modifies this`delivered, coder, inBuf, inBuf.buf, outBuf, outBuf.buf, dst, src
      ensures Valid() && Matches(dst, src) && Input(src) == old(Input(src)) && (err ==> src != null && src.rest == [])
      ensures delivered == old(delivered) + x && |x| == outCnt
      ensures dst != null ==> dst.received == old(dst.received) + x
      ensures src != null ==> inCnt == old(|src.rest|) - |src.rest|
      ensures if short then dst != null && |dst.received| == dst.cap && outBuf.len > 0 else outBuf.len == 0
      ensures !st.ShortWrite? && !st.Eof? && coder.told == st
      ensures old(coder.eaten) <= coder.eaten && old(coder.made) <= coder.made
      ensures |coder.made| <= |old(coder.made)| + outBuf.buf.Length
      ensures Left(src) - old(Left(src)) == |old(coder.eaten)| - |coder.eaten|
      ensures st.End? ==> coder.Done()
      ensures st.Fail? <==> coder.codec.bad(coder.eaten)
      ensures st.NoProgress? ==> Idle() && old(coder.stalled) && (!old(Live()) || (err && Truncated(src)))
      ensures coder.stalled ==> Idle()
      ensures old(Full()) ==> coder.made == old(coder.made)
      ensures st.Ok? ==> !Idle() || (!old(coder.stalled) && coder.stalled)
      ensures dst != null && old(Full()) && coder.eaten == old(coder.eaten) && !coder.Done() && !st.Fail? ==>
        coder.stalled && (old(coder.stalled) ==> st.NoProgress?)
      ensures coder.codec.done(old(coder.eaten)) ==> coder.eaten == old(coder.eaten)
      ensures coder.codec.done(old(coder.eaten)) && !old(Full()) && !old(coder.Done()) ==> !Idle()
      ensures old(coder.Done()) ==> st.End?
      ensures coder.lazy && coder.eaten != old(coder.eaten) ==> !st.End?
      ensures Quartered() ==> Offset() == old(Offset())
      ensures src != null && old(Left(src)) == 0 ==> err
      ensures src != null && src.ending.Alone? && err && !err0 ==> old(Left(src)) == 0
      ensures src != null && src.ending.WithLast? && (old(src.rest) == [] ==> err0) && src.rest == [] ==> err
    {
      hide Ring.Contents, Coder.Valid;
      err, short, outCnt, inCnt, x := err0, false, 0, 0, [];
      if src != null {
        inCnt, err := Fill(src, err0);
      }
      st := Step(dst, src, err);
      if dst != null {
        ghost var held := outBuf.Contents();
        outCnt, short := Deliver(dst);
        x := held[..outCnt];
      }
    }

    // The source has reported its end with its last bytes, and the input ends where the coder does.
    ghost predicate Hasty(src: Source?, err: bool)
      requires inBuf.Valid()
      reads coder, inBuf, inBuf.buf, src
    {
      && src != null && coder.lazy && src.ending.WithLast? && Running(coder.codec, Input(src))
      && coder.eaten != Input(src) && (src.rest == [] ==> err)
    }

    // Once round the loop, with the switch at its end.
    method Lap(dst: Dest?, src: Source?, err0: bool)
      returns (stop: bool, st: Status, err: bool, outCnt: nat, inCnt: nat, ghost x: seq<byte>)
      requires Valid() && Matches(dst, src) && (dst != null || src != null) && (err0 ==> src != null && src.rest == [])
      modifies this`delivered, coder, inBuf, inBuf.buf, outBuf, outBuf.buf, dst, src
      ensures Valid() && Matches(dst, src) && Input(src) == old(Input(src)) && (err ==> src != null && src.rest == [])
      ensures delivered == old(delivered) + x && |x| == outCnt
      ensures dst != null ==> dst.received == old(dst.received) + x
      ensures src != null ==> inCnt == old(|src.rest|) - |src.rest|
      ensures old(coder.eaten) <= coder.eaten && old(coder.made) <= coder.made
      ensures |coder.made| <= |old(coder.made)| + outBuf.buf.Length
      ensures Quartered() ==> Offset() == old(Offset())
      ensures if stop then Outcome(st, dst, src) else outBuf.len == 0
      ensures stop ==> st == (if outBuf.len > 0 then ShortWrite else if coder.told.Ok? then Eof else coder.told)
      ensures st.Fail? <==> coder.codec.bad(coder.eaten) && outBuf.len == 0
      ensures st.NoProgress? ==> stop && Idle() && (!old(Live()) || Truncated(src)) && (dst == null ==> Truncated(src))
      ensures st.NoProgress? ==> old(coder.stalled)
      ensures src != null && !stop && coder.stalled ==> Left(src) > 0
      ensures dst != null && !Truncated(src) ==> (st.NoProgress? <==> !old(Live()) && Idle() && outBuf.len == 0)
      ensures dst != null && coder.codec.done(old(coder.eaten)) ==>
        (st.NoProgress? <==> !old(Live()) && old(outBuf.len) <= dst.cap - old(|dst.received|))
      ensures dst != null ==> (!Live() <==> Starves(dst))
      ensures !stop && !old(Live()) ==> Work() > old(Work())
      ensures !stop ==> st.Ok? && !old(coder.Done()) && (dst != null ==> !old(Blocked(dst)))
      ensures coder.codec.done(old(coder.eaten)) ==> coder.eaten == old(coder.eaten)
      ensures coder.codec.done(old(coder.eaten)) && !old(Full()) && !old(coder.Done()) ==> Work() > old(Work())
      ensures src != null && old(coder.eaten) == Input(src) ==> stop
      ensures old(coder.Done()) ==> st.End? || st.ShortWrite?
      ensures old(Hasty(src, err0)) ==> !st.End? && (!stop ==> Hasty(src, err))
      ensures src != null && src.ending.Alone? && !err0 ==>
        (!stop ==> !err) && (dst == null && st.Eof? ==> Truncated(src))
      ensures !stop ==>
        || Left(src) < old(Left(src))
        || (Left(src) == old(Left(src)) && |coder.made| > |old(coder.made)|)
        || (Left(src) == old(Left(src)) && |coder.made| == |old(coder.made)| && !old(coder.stalled) && coder.stalled)
    {
      hide Ring.Contents, Coder.Valid, Running;
      var short;
      Settled();
      ghost var all := Input(src);
      st, err, short, outCnt, inCnt, x := Round(dst, src, err0);
      if Running(coder.codec, all) && Ends(coder.codec, coder.eaten) { OnlyEnd(coder.codec, coder.eaten, all); }
      Settled();
      var r := Switch(short, st, err, outBuf.len, inBuf.len);
      stop := r.Some?;
      if stop {
        st := r.value;
      }
    }

    // A coder that has got nowhere is not done, and a silent one is as soon as it has eaten all.
    lemma Settled()
      requires coder.Valid()
      ensures coder.stalled ==> !coder.Done() && !coder.codec.bad(coder.eaten)
      ensures coder.codec.silent && coder.codec.done(coder.eaten) ==> coder.Done()
    {
    }

    // The destination has no room, the buffer is full, and the coder does not eat.
    twostate predicate Starves(dst: Dest)
      reads this, coder, outBuf, dst
    {
      && old(Blocked(dst)) && coder.eaten == old(coder.eaten)
      && !coder.Done() && !coder.codec.bad(coder.eaten)
    }

    // A further turn of the loop: the output buffer is empty.
    method Next(dst: Dest?, src: Source?, err0: bool)
      returns (stop: bool, st: Status, err: bool, outCnt: nat, inCnt: nat, ghost x: seq<byte>)
      requires Valid() && Matches(dst, src) && (dst != null || src != null) && (err0 ==> src != null && src.rest == [])
      requires outBuf.len == 0
      modifies this`delivered, coder, inBuf, inBuf.buf, outBuf, outBuf.buf, dst, src
      ensures Valid() && Matches(dst, src) && Input(src) == old(Input(src)) && (err ==> src != null && src.rest == [])
      ensures delivered == old(delivered) + x && |x| == outCnt
      ensures dst != null ==> dst.received == old(dst.received) + x
      ensures src != null ==> inCnt == old(|src.rest|) - |src.rest|
      ensures old(coder.eaten) <= coder.eaten && old(coder.made) <= coder.made
      ensures |coder.made| <= |old(coder.made)| + outBuf.buf.Length
      ensures |coder.made| <= |coder.codec.out(Input(src))|
      ensures Quartered() ==> Offset() == old(Offset())
      ensures if stop then Outcome(st, dst, src) else outBuf.len == 0
      ensures stop ==> st == (if outBuf.len > 0 then ShortWrite else if coder.told.Ok? then Eof else coder.told)
      ensures st.Fail? <==> coder.codec.bad(coder.eaten) && outBuf.len == 0
      ensures Live() && (st.NoProgress? ==> Truncated(src))
      ensures src != null && st.NoProgress? ==> old(coder.stalled) && old(Left(src)) == 0
      ensures src != null && !stop && coder.stalled ==> Left(src) > 0
      ensures coder.codec.done(old(coder.eaten)) ==> coder.eaten == old(coder.eaten) && !st.NoProgress?
      ensures src != null && old(coder.eaten) == Input(src) ==> stop
      ensures src != null && coder.eaten != Input(src) ==> |coder.made| <= Most(coder.codec, Input(src))
      ensures old(Hasty(src, err0)) ==> !st.End? && (!stop ==> Hasty(src, err))
      ensures src != null && src.ending.Alone? && !err0 ==>
        (!stop ==> !err) && (dst == null && st.Eof? ==> Truncated(src))
      ensures !stop ==>
        || Left(src) < old(Left(src))
        || (Left(src) == old(Left(src)) && |coder.made| > |old(coder.made)|)
        || (Left(src) == old(Left(src)) && |coder.made| == |old(coder.made)| && !old(coder.stalled) && coder.stalled)
    {
      hide Ring.Contents, Coder.Valid, Running, Hasty, Outcome, GoodCodec, Offset;
      stop, st, err, outCnt, inCnt, x := Lap(dst, src, err0);
      Bounded(src);
      NotYet(src);
    }

    // The further turns of the loop, each with an empty output buffer.
    method Laps(dst: Dest?, src: Source?, err0: bool) returns (outCnt: nat, inCnt: nat, st: Status, ghost x: seq<byte>)
      requires Valid() && Matches(dst, src) && (dst != null || src != null) && (err0 ==> src != null && src.rest == [])
      requires outBuf.len == 0
      modifies this`delivered, coder, inBuf, inBuf.buf, outBuf, outBuf.buf, dst, src
      ensures Valid() && Matches(dst, src) && Input(src) == old(Input(src)) && Outcome(st, dst, src)
      ensures st == if outBuf.len > 0 then ShortWrite else if coder.told.Ok? then Eof else coder.told
      ensures st.Fail? <==> coder.codec.bad(coder.eaten) && outBuf.len == 0
      ensures delivered == old(delivered) + x && |x| == outCnt
      ensures dst != null ==> dst.received == old(dst.received) + x
      ensures src != null ==> inCnt == old(|src.rest|) - |src.rest|
      ensures old(coder.eaten) <= coder.eaten && old(coder.made) <= coder.made
      ensures Quartered() ==> Offset() == old(Offset())
      ensures Live() && (st.NoProgress? ==> Truncated(src))
      ensures src != null && (old(coder.stalled) ==> old(Left(src)) > 0) ==> !st.NoProgress?
      ensures coder.codec.done(old(coder.eaten)) ==> coder.eaten == old(coder.eaten) && !st.NoProgress?
      ensures src != null && old(coder.eaten) != Input(src) ==>
        |coder.made| <= Most(coder.codec, Input(src)) + 2 * outBuf.buf.Length
      ensures src != null && old(coder.eaten) == Input(src) ==> |coder.made| <= |old(coder.made)| + outBuf.buf.Length
      ensures old(Hasty(src, err0)) ==> !st.End?
      ensures src != null && src.ending.Alone? && !err0 && dst == null && st.Eof? ==> Truncated(src)
    {
      hide Ring.Contents, Coder.Valid, Running, Hasty, Truncated, Outcome, GoodCodec, Offset, Ends, Matches, Starves,
        Most, Input;
      outCnt, inCnt, st, x := 0, 0, Ok, [];
      var rdErr, stop := err0, false;
      ghost var all := Input(src);
      ghost var cap := outBuf.buf.Length;
      ghost var most, limit := |coder.codec.out(all)|, if src == null then 0 else Most(coder.codec, Input(src));
      Bounded(src);
      NotYet(src);
      while !stop
        invariant Valid() && Matches(dst, src) && Input(src) == all && |coder.made| <= most
        invariant rdErr ==> src != null && src.rest == []
        invariant src != null ==> inCnt == old(|src.rest|) - |src.rest|
        invariant delivered == old(delivered) + x && |x| == outCnt
        invariant dst != null ==> dst.received == old(dst.received) + x
        invariant old(coder.eaten) <= coder.eaten && old(coder.made) <= coder.made
        invariant Quartered() ==> Offset() == old(Offset())
        invariant if stop then Outcome(st, dst, src) else outBuf.len == 0
        invariant stop ==> st == (if outBuf.len > 0 then ShortWrite else if coder.told.Ok? then Eof else coder.told)
        invariant stop ==> (st.Fail? <==> coder.codec.bad(coder.eaten) && outBuf.len == 0)
        invariant Live() && (st.NoProgress? ==> Truncated(src))
        invariant src != null && (old(coder.stalled) ==> old(Left(src)) > 0) ==>
          !st.NoProgress? && (!stop && coder.stalled ==> Left(src) > 0)
        invariant coder.codec.done(old(coder.eaten)) ==> coder.eaten == old(coder.eaten) && !st.NoProgress?
        invariant src != null && old(coder.eaten) == all ==>
          |coder.made| <= |old(coder.made)| + (if stop then cap else 0) && (!stop ==> coder.eaten == all)
        invariant src != null && old(coder.eaten) != all ==>
          |coder.made| <= limit + (if stop then cap + cap else if coder.eaten == all then cap else 0)
        invariant old(Hasty(src, err0)) ==> !st.End? && (!stop ==> Hasty(src, rdErr))
        invariant src != null && src.ending.Alone? && !err0 ==>
          (!stop ==> !rdErr) && (dst == null && st.Eof? ==> Truncated(src))
        decreases !stop, Left(src), most - |coder.made|, !coder.stalled
      {
        var n, m;
        ghost var y;
        stop, st, rdErr, m, n, y := Next(dst, src, rdErr);
        outCnt, inCnt, x := outCnt + m, inCnt + n, x + y;
      }
    }

    lemma Nothing(dst: Dest?, src: Source?)
      ensures dst == null && src == null ==> Outcome(Ok, dst, src)
    {
    }

    // The loop. Its first turn is set apart, for only that can find the output buffer full. `x` is
    // what this call has delivered.
    method Process(dst: Dest?, src: Source?) returns (outCnt: nat, inCnt: nat, st: Status, ghost x: seq<byte>)
      requires Valid() && Matches(dst, src)
      modifies this`delivered, coder, inBuf, inBuf.buf, outBuf, outBuf.buf, dst, src
      // nothing is lost or reordered
      ensures Valid() && Matches(dst, src) && Outcome(st, dst, src) && Input(src) == old(Input(src))
      ensures delivered == old(delivered) + x && |x| == outCnt
      ensures dst != null ==> dst.received == old(dst.received) + x
      ensures src != null ==> inCnt == old(|src.rest|) - |src.rest|
      ensures old(coder.eaten) <= coder.eaten && old(coder.made) <= coder.made
      ensures Quartered() ==> Offset() == old(Offset())
      // a short write comes before what the coder has told, and that before the end of the source
      ensures dst != null || src != null ==>
        st == if outBuf.len > 0 then ShortWrite else if coder.told.Ok? then Eof else coder.told
      ensures dst != null || src != null ==> (st.Fail? <==> coder.codec.bad(coder.eaten) && outBuf.len == 0)
      // BUF_ERROR comes out if and only if the coder had starved, gets nowhere again, and the
      // destination takes all that is buffered, or if the source is truncated
      ensures dst != null && !Truncated(src) ==> (st.NoProgress? <==> !old(Live()) && Idle() && outBuf.len == 0)
      ensures dst == null && st.NoProgress? ==> Truncated(src)
      ensures src != null && st.NoProgress? ==> old(coder.stalled)
      ensures dst != null && coder.codec.done(old(coder.eaten)) ==>
        (st.NoProgress? <==> !old(Live()) && old(outBuf.len) <= dst.cap - old(|dst.received|))
      ensures dst != null ==> (!Live() <==> Starves(dst))
      ensures coder.codec.done(old(coder.eaten)) && !old(Full()) && !old(coder.Done()) && dst != null ==>
        Work() > old(Work())
      ensures old(coder.Done()) && dst != null ==> st.End? || st.ShortWrite?
      ensures coder.codec.done(old(coder.eaten)) ==> coder.eaten == old(coder.eaten)
      // what can be lost when the source ends
      ensures src != null && old(coder.eaten) != Input(src) ==>
        |coder.made| <= Most(coder.codec, Input(src)) + 2 * outBuf.buf.Length
      ensures old(Hasty(src, false)) ==> !st.End?
      ensures src != null && src.ending.Alone? && dst == null && st.Eof? ==> Truncated(src)
    {
      hide Ring.Contents, Coder.Valid, Running, Hasty, Outcome, GoodCodec, Offset, Truncated, Most, Ends, Live, Full,
        Blocked, Matches, Input;
      Nothing(dst, src);
      if src == null && dst == null { return 0, 0, Ok, []; }
      NotYet(src);
      var stop, rdErr;
      stop, st, rdErr, outCnt, inCnt, x := Lap(dst, src, false);
      NotYet(src);
      if !stop {
        var n, m;
        ghost var y;
        m, n, st, y := Laps(dst, src, rdErr);
        outCnt, inCnt, x := outCnt + m, inCnt + n, x + y;
      }
    }
  }

  // What can be made before the last byte of the input has been eaten.
  function Most(c: Codec, all: seq<byte>): (n: nat)
  {
    if all == [] then 0 else |c.out(all[..|all| - 1])|
  }

  lemma OnlyEnd(c: Codec, x: seq<byte>, all: seq<byte>)
    requires Running(c, all) && x <= all && Ends(c, x)
    ensures x == all
  {
    assert all[..|x|] == x;
  }

  function Sum(sizes: seq<nat>): (n: nat)
  {
    if sizes == [] then 0 else Sum(sizes[..|sizes| - 1]) + sizes[|sizes| - 1]
  }

  // What a stream has delivered is a part of what its input decodes to; while there is input
  // beyond the end, the source is not exhausted; at the end all has been delivered.
  lemma DeliveredSoFar(z: CodingStream, src: Source)
    requires z.Valid()
    ensures var c := z.coder.codec;
      && z.delivered <= z.coder.made <= c.out(z.coder.eaten) <= Content(c, z.Input(src))
      && (Stop(c, z.Input(src), 0) < |z.Input(src)| ==> !z.Exhausted(src))
      && (z.coder.Done() && z.outBuf.len == 0 ==> z.delivered == Content(c, z.Input(src)))
      && (z.outBuf.len > 0 ==> |z.delivered| < |Content(c, z.Input(src))|)
      && (c.bad(z.coder.eaten) ==> c.bad(z.Input(src)[..Stop(c, z.Input(src), 0)]))
  {
    var c, all := z.coder.codec, z.Input(src);
    assert z.coder.eaten <= all;
    MadeOf(c, z.coder.eaten, all);
    if c.bad(z.coder.eaten) {
      assert z.coder.eaten == all[..|z.coder.eaten|];
    }
    hide Ring.Contents, Stop, Content;
  }

  predicate Positive(sizes: seq<nat>) {
    forall i :: 0 <= i < |sizes| ==> sizes[i] > 0
  }

  // The input ends where the coder does, or before.
  predicate EndsThere(c: Codec, all: seq<byte>) {
    Stop(c, all, 0) == |all|
  }

  // What a return of Process says about the whole input.
  ghost predicate Sound(z: CodingStream, src: Source, st: Status)
    requires z.inBuf.Valid()
    reads z, z.coder, z.inBuf, z.inBuf.buf, z.outBuf, src
  {
    var c, all := z.coder.codec, z.Input(src);
    var end := all[..Stop(c, all, 0)];
    && z.delivered <= Content(c, all)
    && (st.ShortWrite? ==> |z.delivered| < |Content(c, all)|)
    && (st.End? ==> z.delivered == Content(c, all) && c.done(end) && !c.bad(end))
    && (st.Fail? ==> c.bad(end) && z.delivered == z.coder.made)
    && (st.Eof? ==> EndsThere(c, all) && z.coder.eaten == all && z.outBuf.len == 0 && !c.bad(end))
    && (z.Truncated(src) ==> EndsThere(c, all) && !Ends(c, all) && !c.bad(end))
  }

  lemma IsSound(z: CodingStream, src: Source, dst: Dest, st: Status)
    requires z.Valid() && z.Outcome(st, dst, src)
    requires st.Fail? <==> z.coder.codec.bad(z.coder.eaten) && z.outBuf.len == 0
    ensures Sound(z, src, st) && !st.Ok? && (st.ShortWrite? ==> |dst.received| == dst.cap)
  {
    DeliveredSoFar(z, src);
    var c, all := z.coder.codec, z.Input(src);
    if z.Exhausted(src) {
      assert z.coder.eaten == all == all[..|all|];
      MadeOf(c, all, all);
    }
    if z.coder.Done() {
      MadeOf(c, z.coder.eaten, all);
      assert z.coder.eaten == all[..|z.coder.eaten|];
    }
    hide Ring.Contents, Stop, Content;
  }

  // Calling Process again and again with destinations of any sizes, until it returns something else
  // than a short write, delivers what one call with a large destination would: a part of the
  // content, and all of it once the destinations have room. A source that goes on beyond the
  // coder's end never makes it stop early, and only a destination of size zero can make it starve.
  method Pump(z: CodingStream, src: Source, sizes: seq<nat>) returns (got: seq<byte>, st: Status)
    requires z.Valid() && sizes != []
    modifies z`delivered, z.coder, z.inBuf, z.inBuf.buf, z.outBuf, z.outBuf.buf, src
    ensures z.Valid() && z.Input(src) == old(z.Input(src)) && z.delivered == old(z.delivered) + got
    ensures Sound(z, src, st) && !st.Ok?
    ensures st.ShortWrite? ==> |got| == Sum(sizes)
    ensures old(|z.delivered|) + Sum(sizes) >= |Content(z.coder.codec, z.Input(src))| ==> !st.ShortWrite?
    ensures st.NoProgress? ==> !old(z.Live()) || !Positive(sizes) || z.Truncated(src)
    ensures Positive(sizes) ==> z.Live()
    // corrupt input is reported as such, and not as the end of the source
    ensures old(z.Live()) && Positive(sizes) && !st.ShortWrite? ==>
      (st.Fail? <==> z.coder.codec.bad(z.Input(src)[..Stop(z.coder.codec, z.Input(src), 0)]))
  {
    hide Ring.Contents, Coder.Valid, Stop, Content, EndsThere, CodingStream.Truncated, CodingStream.Outcome,
      CodingStream.Live, CodingStream.Input, Coder.Done;
    got, st := [], ShortWrite;
    ghost var all := z.Input(src);
    var i := 0;
    while i < |sizes| && st.ShortWrite?
      invariant i <= |sizes| && z.Valid() && z.Input(src) == all && z.delivered == old(z.delivered) + got
      invariant if i > 0 then Sound(z, src, st) && !st.Ok? else st.ShortWrite?
      invariant st.ShortWrite? ==> |got| == Sum(sizes[..i])
      invariant st.NoProgress? ==> !old(z.Live()) || !Positive(sizes) || z.Truncated(src)
      invariant Positive(sizes) && (i > 0 || old(z.Live())) ==> z.Live()
      invariant !z.Live() ==> !old(z.Live()) || !Positive(sizes)
      decreases |sizes| - i, st.ShortWrite?
    {
      var dst := new Dest(sizes[i]);
      var outCnt, inCnt;
      ghost var x;
      outCnt, inCnt, st, x := z.Process(dst, src);
      IsSound(z, src, dst, st);
      got := got + dst.received;
      assert sizes[..i + 1][..i] == sizes[..i];
      i := i + 1;
    }
    assert sizes[..|sizes|] == sizes;
  }

  lemma Further<T>(all: seq<T>, m: nat, k: nat)
    requires m + k <= |all|
    ensures all[..m] + all[m..][..k] == all[..m + k] && all[m..][k..] == all[m + k..]
    ensures forall was: seq<T> :: was + all[..m] + all[m..][..k] == was + all[..m + k]
  {
    assert all[..m] + all[m..][..k] == all[..m + k];
    forall was: seq<T>
      ensures was + all[..m] + all[m..][..k] == was + all[..m + k]
    {
      assert was + all[..m] + all[m..][..k] == was + (all[..m] + all[m..][..k]);
    }
  }
}
