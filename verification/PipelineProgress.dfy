/** The asynchronous Writer never deadlocks and every run of it is finite. */
module PipelineProgress {
  import opened Bytes
  import opened Format
  import opened Pool
  import opened Pipeline
  import opened PipelineInv
  import opened PipelineSteps

  // Close has returned, or the underlying writer has failed.
  predicate Ended(s: State) {
    s.user.Finished? || s.out.Failed?
  }

  // ---------- some thread can move ----------

  // The user can move unless it sleeps in getWriter or waits for the writer routine.
  lemma UserMoves(cfg: Config, data: seq<byte>, s: State) returns (l: Label)
    requires Inv(cfg, data, s) && !s.user.Finished?
    requires !(Asking(s.user, s.open) && s.next in s.inp.wrSleep)
    requires !(s.user.Awaiting? && !s.out.Done?)
    ensures Enabled(cfg, s, l)
  {
    hide InputInv, OutputInv, CodeInv, SentInv, CloseInv, CapInv;
    match s.user
    case Between => l := if s.script == [] then UserClose else UserBegin;
    case Closing => l := UserClosePool;
    case Awaiting => l := UserFinish;
    case Writing(rest) =>
      if rest == [] {
        l := UserReturn;
      } else if s.open {
        assert |s.chunks[s.next - 1]| <= cfg.size;
        l := UserPut;
      } else {
        var pick := SomePick(s.inp.free);
        l := UserTake(pick);
      }
  }

  // A worker can move unless it sleeps at getReader or in getWriter with its chunk.
  lemma WorkerMoves(cfg: Config, data: seq<byte>, s: State, i: int) returns (l: Label)
    requires Inv(cfg, data, s) && !s.open
    requires i in s.busy && !(s.busy[i].Taken? && i in s.outp.wrSleep)
    ensures Enabled(cfg, s, l)
  {
    LengthIs(cfg, data, s);
    hide UserInv, OutputInv, CodeInv, SentInv, CloseInv, CapInv;
    BusyBelow(s.next, Asking(s.user, s.open), s.inp, s.busy.Keys, i);
    hide InputInv;
    match s.busy[i]
    case Taken =>
      var pick := SomePick(s.outp.free);
      l := WorkOut(i, pick);
    case Coding => l := WorkCode(i);
    case Coded =>
      var wake := SomePick(s.inp.wrSleep);
      l := WorkReturn(i, wake);
  }

  lemma EmittedIsEncoded(cfg: Config, data: seq<byte>, s: State)
    requires Inv(cfg, data, s) && s.out.Emit? && forall i :: i in s.busy ==> !s.busy[i].Coding?
    ensures Holds(s)
  {
    hide UserInv, InputInv, CloseInv, CapInv;
    assert Acquired(s.next, s.inp.ready, s.busy, s.upto - 1) by { hide CodeInv, SentInv; }
    hide OutputInv;
    assert Encoded(s.next, s.inp.ready, s.busy, s.upto - 1);
  }

  lemma GivenIsHeld(cfg: Config, data: seq<byte>, s: State)
    requires Inv(cfg, data, s)
    ensures s.out.Give? ==> s.upto > 0 && s.upto - 1 in s.outs
    ensures s.out.Check? ==> s.outp.closed
  {
    hide UserInv, InputInv, OutputInv, CodeInv, CapInv;
  }

  // The writer routine can move unless it sleeps, waits for a block to be encoded, or is done.
  lemma OutMoves(cfg: Config, data: seq<byte>, s: State) returns (l: Label)
    requires Inv(cfg, data, s) && !s.out.Failed? && !s.out.Done?
    requires forall i :: i in s.busy ==> !s.busy[i].Coding?
    requires !(s.out.Await? && s.outp.rdWoken == 0)
    ensures Enabled(cfg, s, l)
  {
    hide UserInv, InputInv, OutputInv, CodeInv, SentInv, CloseInv, CapInv;
    GivenIsHeld(cfg, data, s);
    match s.out
    case Ask => l := OutAsk;
    case Await => l := OutWake;
    case Emit(off) =>
      EmittedIsEncoded(cfg, data, s);
      l := if off < |s.outs[s.upto - 1].bytes| then OutEmit(1) else OutEnd;
    case Give(bad) =>
      var wake := SomePick(s.outp.wrSleep);
      l := OutGive(wake);
    case Check =>
      var pick := SomePick(s.outp.ready);
      l := OutCheck(pick);
  }

  // Nobody but sleepers and goroutines that wait for another goroutine is left.
  ghost predicate AllSleep(s: State) {
    && s.mon == 6 && !s.closer.Firing? && !s.open
    && ((Asking(s.user, s.open) && s.next in s.inp.wrSleep) || (s.user.Awaiting? && !s.out.Done?))
    && s.idle == 0 && s.inp.rdWoken == 0
    && (forall i :: i in s.busy ==> s.busy[i].Taken? && i in s.outp.wrSleep)
    && s.out.Await? && s.outp.rdWoken == 0
    && !(s.closer.Waiting? && Spawned(s) > 0 && Spawned(s) == s.exited)
  }

  // A worker without a chunk is awake as long as a chunk is queued: there are as many workers
  // as input pipes, and a queued pipe is one that no worker holds.
  lemma QueuedHasReader(cfg: Config, data: seq<byte>, s: State)
    requires Inv(cfg, data, s) && s.mon == 6 && s.inp.ready != {}
    ensures s.idle > 0 || s.inp.rdWoken > 0
  {
    hide UserInv, OutputInv, CodeInv, SentInv, WritersServed;
    assert |s.inp.ready| >= 1;
    assert s.exited == 0;
    assert s.inp.len == |s.inp.free| + |s.inp.ready| + |s.busy.Keys|;
    assert |s.busy.Keys| == |s.busy|;
  }

  // While the writer routine sleeps and no worker is past its getWriter, the awaited chunk is
  // still queued: the worker that holds it would not be asleep.
  lemma AwaitedIsQueued(cfg: Config, data: seq<byte>, s: State)
    requires Inv(cfg, data, s) && s.out.Await? && s.outp.rdWoken == 0 && s.upto < s.next
    requires forall i :: i in s.busy ==> s.busy[i].Taken? && i in s.outp.wrSleep
    ensures s.upto in s.inp.ready
  {
    hide UserInv, InputInv, CodeInv, SentInv, CloseInv, CapInv, Conserved, Room;
    assert !Acquired(s.next, s.inp.ready, s.busy, s.upto);
  }

  lemma AllAcquired(cfg: Config, data: seq<byte>, s: State)
    requires Inv(cfg, data, s) && AllSleep(s)
    ensures s.upto >= s.next
  {
    hide UserInv, InputInv, OutputInv, CodeInv, SentInv, CapInv, CloseInv;
    if s.upto < s.next {
      AwaitedIsQueued(cfg, data, s);
      QueuedHasReader(cfg, data, s);
    }
  }

  lemma NothingHeld(cfg: Config, data: seq<byte>, s: State)
    requires Inv(cfg, data, s) && AllSleep(s) && s.upto >= s.next
    ensures s.busy.Keys == {} && s.inp.ready == {} && !s.outp.closed
  {
    hide UserInv, CodeInv, SentInv, CloseInv, CapInv, Conserved, WritersServed;
    assert forall i :: i in s.inp.ready ==> 0 <= i < s.next;
    assert forall i :: i in s.busy.Keys ==> 0 <= i < s.next;
    assert forall i :: 0 <= i < s.upto ==> Acquired(s.next, s.inp.ready, s.busy, i);
    assert forall i :: i in s.inp.ready ==> Acquired(s.next, s.inp.ready, s.busy, i);
    assert forall i :: i !in s.inp.ready;
    assert forall i :: i in s.busy.Keys ==> Acquired(s.next, s.inp.ready, s.busy, i);
    assert forall i :: i !in s.busy.Keys;
  }

  // With nothing held or queued the pool has room, so a sleeping user has been notified.
  lemma UserAwake(cfg: Config, data: seq<byte>, s: State)
    requires Inv(cfg, data, s) && s.mon == 6 && s.busy.Keys == {} && s.inp.ready == {}
    ensures s.next !in s.inp.wrSleep
  {
    hide UserInv, OutputInv, CodeInv, SentInv, CloseInv;
    if s.next in s.inp.wrSleep {
      assert s.inp.len == |s.inp.free|;
      assert Room(s.inp) > 0;
      assert |s.inp.wrWoken| > 0;
      var j := SomePick(s.inp.wrWoken);
    }
  }

  lemma NotAllSleep(cfg: Config, data: seq<byte>, s: State)
    requires Inv(cfg, data, s)
    ensures !AllSleep(s)
  {
    if AllSleep(s) {
      AllAcquired(cfg, data, s);
      NothingHeld(cfg, data, s);
      UserAwake(cfg, data, s);
      AllGone(cfg, data, s);
    }
  }

  lemma AllGone(cfg: Config, data: seq<byte>, s: State)
    requires Inv(cfg, data, s) && s.user.Awaiting? && s.idle == 0 && s.inp.rdWoken == 0
    requires s.busy.Keys == {} && s.mon == 6
    ensures Spawned(s) == s.exited > 0 && (s.outp.closed || !s.closer.Fired?)
  {
    hide UserInv, OutputInv, CodeInv, SentInv, WritersServed, Conserved;
    assert |s.busy| == |s.busy.Keys|;
  }

  lemma Progress(cfg: Config, data: seq<byte>, s: State) returns (l: Label)
    requires Inv(cfg, data, s) && !Ended(s)
    ensures Enabled(cfg, s, l)
  {
    hide UserInv, InputInv, OutputInv, CodeInv, SentInv, CapInv;
    if s.mon < 6 {
      l := MonStep;
    } else if s.closer.Firing? {
      l := CloserFire;
    } else if s.open || !((Asking(s.user, s.open) && s.next in s.inp.wrSleep) || (s.user.Awaiting? && !s.out.Done?)) {
      OpenIsWriting(cfg, data, s);
      l := UserMoves(cfg, data, s);
    } else if s.idle > 0 || s.inp.rdWoken > 0 {
      var pick := SomePick(s.inp.ready);
      l := WorkTake(s.idle == 0, pick);
    } else if i :| i in s.busy && !(s.busy[i].Taken? && i in s.outp.wrSleep) {
      l := WorkerMoves(cfg, data, s, i);
    } else if s.closer.Waiting? && Spawned(s) > 0 && Spawned(s) == s.exited {
      l := CloserWake;
    } else {
      NotAllSleep(cfg, data, s);
      assert !s.out.Done?;
      assert s.mon == 6 by { MonBound(cfg, data, s); }
      l := OutMoves(cfg, data, s);
    }
  }

  lemma MonBound(cfg: Config, data: seq<byte>, s: State)
    requires Inv(cfg, data, s)
    ensures s.mon <= 6
  {
  }

  lemma OpenIsWriting(cfg: Config, data: seq<byte>, s: State)
    requires Inv(cfg, data, s)
    ensures s.open ==> s.user.Between? || s.user.Writing?
  {
  }
}
