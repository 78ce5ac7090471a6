/** The invariant of the asynchronous Writer holds in every reachable state. */
module PipelineSteps {
  import opened Bytes
  import opened Format
  import opened Pool
  import opened Pipeline
  import opened PipelineInv

  // ---------- the user ----------

  lemma KeepBegin(cfg: Config, data: seq<byte>, s: State)
    requires Inv(cfg, data, s) && Enabled(cfg, s, UserBegin)
    ensures Inv(cfg, data, Apply(cfg, s, UserBegin))
  {
    hide UserInv, InputInv, OutputInv, CodeInv, SentInv;
    UserBegins(cfg, data, s.script, s.next, s.open, s.chunks);
    InputAsks(s.next, s.inp, s.busy.Keys, Asking(Writing(s.script[0]), s.open));
  }

  lemma KeepReturn(cfg: Config, data: seq<byte>, s: State)
    requires Inv(cfg, data, s) && Enabled(cfg, s, UserReturn)
    ensures Inv(cfg, data, Apply(cfg, s, UserReturn))
  {
    hide UserInv, InputInv, OutputInv, CodeInv, SentInv;
    assert UserInv(cfg, data, s.script, Between, s.next, s.open, s.chunks) by {
      UserReturns(cfg, data, s.script, s.next, s.open, s.chunks);
    }
  }

  lemma KeepTake(cfg: Config, data: seq<byte>, s: State, pick: int)
    requires Inv(cfg, data, s) && Enabled(cfg, s, UserTake(pick))
    ensures Inv(cfg, data, Apply(cfg, s, UserTake(pick)))
  {
    hide UserInv, InputInv, OutputInv, CodeInv, SentInv, CapInv;
    InputTaken(s.next, s.inp, s.busy.Keys, pick);
    if WriterOutcome(s.inp, s.next).Got? {
      UserTakes(cfg, data, s.script, s.user, s.next, s.chunks);
      TakeGrows(cfg, data, s);
    }
  }

  lemma TakeGrows(cfg: Config, data: seq<byte>, s: State)
    requires Inv(cfg, data, s) && Asking(s.user, s.open)
    ensures CodeInv(cfg, s.next + 1, s.inp.ready + {s.next}, s.busy, s.outs, s.chunks + [[]], true)
    ensures SentInv(cfg, s.chunks + [[]], true, s.outs, s.out, s.upto, s.index, s.sent, false)
    ensures OutputInv(s.next + 1, s.inp.ready + {s.next}, s.busy, s.outp, s.upto, Current(s.out, s.upto), s.out.Await?)
  {
    hide UserInv, InputInv, OutputInv, CodeInv, SentInv, CapInv;
    assert !s.user.Finished?;
    hide CloseInv;
    var chunks, ready := s.chunks + [[]], s.inp.ready + {s.next};
    LengthIs(cfg, data, s);
    assert forall i :: Acquired(s.next, s.inp.ready, s.busy, i) <==> Acquired(s.next + 1, ready, s.busy, i);
    hide Acquired;
    ChunksTaken(s.chunks);
    CodeGrows(cfg, s.next, s.inp.ready, s.busy, s.outs, s.chunks, false, ready, chunks, true);
    SentGrows(cfg, s.chunks, false, chunks, true, s.outs, s.out, s.upto, s.index, s.sent, false);
    OutputSame(s.next, s.inp.ready, s.busy, s.next + 1, ready, s.busy, s.outp, s.upto,
               Current(s.out, s.upto), s.out.Await?);
  }

  lemma KeepPut(cfg: Config, data: seq<byte>, s: State)
    requires Inv(cfg, data, s) && Enabled(cfg, s, UserPut)
    ensures Inv(cfg, data, Apply(cfg, s, UserPut))
  {
    hide UserInv, InputInv, OutputInv, CodeInv, SentInv;
    LengthIs(cfg, data, s);
    var last := s.next - 1;
    var n := Min(|s.user.rest|, cfg.size - |s.chunks[last]|);
    var open := n == |s.user.rest|;
    var chunks := s.chunks[last := s.chunks[last] + s.user.rest[..n]];
    UserPuts(cfg, data, s.script, s.user, s.next, s.chunks, n, chunks[last]);
    InputAsks(s.next, s.inp, s.busy.Keys, Asking(Writing(s.user.rest[n..]), open));
    assert Grows(s.chunks, true, chunks, open);
    CodeGrows(cfg, s.next, s.inp.ready, s.busy, s.outs, s.chunks, true, s.inp.ready, chunks, open);
    SentGrows(cfg, s.chunks, true, chunks, open, s.outs, s.out, s.upto, s.index, s.sent, false);
  }

  lemma KeepClose(cfg: Config, data: seq<byte>, s: State)
    requires Inv(cfg, data, s) && Enabled(cfg, s, UserClose)
    ensures Inv(cfg, data, Apply(cfg, s, UserClose))
  {
    hide UserInv, InputInv, OutputInv, CodeInv, SentInv;
    UserCloses(cfg, data, s.next, s.open, s.chunks);
    LengthIs(cfg, data, s);
    assert Grows(s.chunks, s.open, s.chunks, false);
    CodeGrows(cfg, s.next, s.inp.ready, s.busy, s.outs, s.chunks, s.open, s.inp.ready, s.chunks, false);
    SentGrows(cfg, s.chunks, s.open, s.chunks, false, s.outs, s.out, s.upto, s.index, s.sent, false);
  }

  lemma KeepClosePool(cfg: Config, data: seq<byte>, s: State)
    requires Inv(cfg, data, s) && Enabled(cfg, s, UserClosePool)
    ensures Inv(cfg, data, Apply(cfg, s, UserClosePool))
  {
    hide UserInv, InputInv, OutputInv, CodeInv, SentInv;
    UserRests(cfg, data, s.script, Closing, Awaiting, s.next, s.open, s.chunks);
    InputClosed(s.next, s.inp, s.busy.Keys);
  }

  lemma KeepFinish(cfg: Config, data: seq<byte>, s: State)
    requires Inv(cfg, data, s) && Enabled(cfg, s, UserFinish)
    ensures Inv(cfg, data, Apply(cfg, s, UserFinish))
  {
    hide UserInv, InputInv, OutputInv, CodeInv, SentInv;
    UserRests(cfg, data, s.script, Awaiting, Finished, s.next, s.open, s.chunks);
    SentFinished(cfg, s.chunks, s.open, s.outs, s.upto, s.index, s.sent);
  }

  // ---------- workers ----------

  // Chunk pick moves from the queue to a worker; no output pipe is involved.
  lemma ChunkTaken(cfg: Config, data: seq<byte>, s: State, pick: int)
    requires Inv(cfg, data, s) && pick in s.inp.ready
    ensures OutputInv(s.next, s.inp.ready - {pick}, s.busy[pick := Taken], s.outp, s.upto,
                      Current(s.out, s.upto), s.out.Await?)
    ensures CodeInv(cfg, s.next, s.inp.ready - {pick}, s.busy[pick := Taken], s.outs, s.chunks, s.open)
    ensures s.busy[pick := Taken].Keys == s.busy.Keys + {pick} && |s.busy[pick := Taken]| == |s.busy| + 1
  {
    hide UserInv, InputInv, OutputInv, CodeInv, SentInv, CloseInv, CapInv;
    ReadyBelow(s.next, Asking(s.user, s.open), s.inp, s.busy.Keys);
    var ready, busy := s.inp.ready - {pick}, s.busy[pick := Taken];
    assert busy.Keys == s.busy.Keys + {pick};
    CardPush(s.busy.Keys, pick);
    SameAcquired(s.next, s.inp.ready, s.busy, ready, busy, pick);
    OutputSame(s.next, s.inp.ready, s.busy, s.next, ready, busy, s.outp, s.upto, Current(s.out, s.upto), s.out.Await?);
    CodeSame(cfg, s.next, s.inp.ready, s.busy, s.outs, s.chunks, s.open, ready, busy);
  }

  lemma FetchGotKeeps(cfg: Config, data: seq<byte>, s: State, woken: bool, pick: int)
    requires Inv(cfg, data, s) && (if woken then s.inp.rdWoken > 0 else s.idle > 0) && pick in s.inp.ready
    ensures Inv(cfg, data, FetchInput(s, woken, pick))
  {
    hide UserInv, InputInv, OutputInv, CodeInv, SentInv;
    InputRead(s.next, Asking(s.user, s.open), s.inp, s.busy.Keys, woken, pick);
    ChunkTaken(cfg, data, s, pick);
    var t := FetchInput(s, woken, pick);
    assert t.inp.ready == s.inp.ready - {pick} && t.busy == s.busy[pick := Taken];
    assert Spawned(t) == Spawned(s);
    hide Spawned;
  }

  lemma FetchNoneKeeps(cfg: Config, data: seq<byte>, s: State, woken: bool, pick: int)
    requires Inv(cfg, data, s) && (if woken then s.inp.rdWoken > 0 else s.idle > 0) && s.inp.ready == {}
    ensures Inv(cfg, data, FetchInput(s, woken, pick))
  {
    hide UserInv, InputInv, OutputInv, CodeInv, SentInv;
    InputRead(s.next, Asking(s.user, s.open), s.inp, s.busy.Keys, woken, pick);
    var t := FetchInput(s, woken, pick);
    assert t.inp.ready == s.inp.ready && t.outp == s.outp && t.busy == s.busy;
  }

  lemma FetchInputKeeps(cfg: Config, data: seq<byte>, s: State, woken: bool, pick: int)
    requires Inv(cfg, data, s) && (if woken then s.inp.rdWoken > 0 else s.idle > 0) && PopChoice(s.inp.ready, pick)
    ensures Inv(cfg, data, FetchInput(s, woken, pick))
  {
    hide Inv, FetchInput;
    if s.inp.ready != {} {
      FetchGotKeeps(cfg, data, s, woken, pick);
    } else {
      FetchNoneKeeps(cfg, data, s, woken, pick);
    }
  }

  lemma KeepWorkTake(cfg: Config, data: seq<byte>, s: State, woken: bool, pick: int)
    requires Inv(cfg, data, s) && Enabled(cfg, s, WorkTake(woken, pick))
    ensures Inv(cfg, data, Apply(cfg, s, WorkTake(woken, pick)))
  {
    hide Inv, FetchInput;
    FetchInputKeeps(cfg, data, s, woken, pick);
  }

  lemma AskOutputKeeps(cfg: Config, data: seq<byte>, s: State, i: int, pick: int)
    requires Inv(cfg, data, s) && i in s.busy && s.busy[i].Taken? && i !in s.outp.wrSleep
    requires PopChoice(s.outp.free, pick)
    ensures Inv(cfg, data, AskOutput(s, i, pick))
  {
    hide UserInv, InputInv, OutputInv, CodeInv, SentInv;
    assert !s.outp.closed;
    BusyBelow(s.next, Asking(s.user, s.open), s.inp, s.busy.Keys, i);
    OutputWritten(s.next, s.inp.ready, s.busy, s.outp, s.upto, Current(s.out, s.upto), s.out.Await?, i, pick);
    if WriterOutcome(s.outp, i).Got? {
      var busy := s.busy[i := Coding];
      assert busy.Keys == s.busy.Keys;
      assert forall j :: Encoded(s.next, s.inp.ready, s.busy, j) <==> Encoded(s.next, s.inp.ready, busy, j);
      CodeSame(cfg, s.next, s.inp.ready, s.busy, s.outs, s.chunks, s.open, s.inp.ready, busy);
    }
  }

  lemma KeepWorkOut(cfg: Config, data: seq<byte>, s: State, i: int, pick: int)
    requires Inv(cfg, data, s) && Enabled(cfg, s, WorkOut(i, pick))
    ensures Inv(cfg, data, Apply(cfg, s, WorkOut(i, pick)))
  {
    hide Inv, AskOutput;
    AskOutputKeeps(cfg, data, s, i, pick);
  }

  lemma KeepWorkCode(cfg: Config, data: seq<byte>, s: State, i: int)
    requires Inv(cfg, data, s) && Enabled(cfg, s, WorkCode(i))
    ensures Inv(cfg, data, Apply(cfg, s, WorkCode(i)))
  {
    hide UserInv, InputInv, OutputInv, CodeInv, SentInv;
    BusyBelow(s.next, Asking(s.user, s.open), s.inp, s.busy.Keys, i);
    var busy := s.busy[i := Coded];
    assert busy.Keys == s.busy.Keys;
    assert forall j :: Acquired(s.next, s.inp.ready, s.busy, j) <==> Acquired(s.next, s.inp.ready, busy, j);
    OutputSame(s.next, s.inp.ready, s.busy, s.next, s.inp.ready, busy, s.outp, s.upto,
               Current(s.out, s.upto), s.out.Await?);
    CodeCodes(cfg, s.next, s.inp.ready, s.busy, s.outs, s.chunks, s.open, i);
    SentCodes(cfg, s.chunks, s.open, s.outs, i, s.out, s.upto, s.index, s.sent, s.user.Finished?);
  }

  lemma ReturnInputKeeps(cfg: Config, data: seq<byte>, s: State, i: int, wake: int)
    requires Inv(cfg, data, s) && i in s.busy && s.busy[i].Coded? && WakeChoice(s.inp, wake)
    ensures Inv(cfg, data, ReturnInput(s, i, wake))
  {
    hide UserInv, InputInv, OutputInv, CodeInv, SentInv;
    BusyBelow(s.next, Asking(s.user, s.open), s.inp, s.busy.Keys, i);
    InputRestored(s.next, Asking(s.user, s.open), s.inp, s.busy.Keys, i, wake);
    var busy := s.busy - {i};
    assert busy.Keys == s.busy.Keys - {i};
    CardDrop(s.busy.Keys, i);
    assert forall j :: Acquired(s.next, s.inp.ready, s.busy, j) <==> Acquired(s.next, s.inp.ready, busy, j);
    OutputSame(s.next, s.inp.ready, s.busy, s.next, s.inp.ready, busy, s.outp, s.upto,
               Current(s.out, s.upto), s.out.Await?);
    CodeSame(cfg, s.next, s.inp.ready, s.busy, s.outs, s.chunks, s.open, s.inp.ready, busy);
  }

  lemma KeepWorkReturn(cfg: Config, data: seq<byte>, s: State, i: int, wake: int)
    requires Inv(cfg, data, s) && Enabled(cfg, s, WorkReturn(i, wake))
    ensures Inv(cfg, data, Apply(cfg, s, WorkReturn(i, wake)))
  {
    hide Inv, ReturnInput;
    ReturnInputKeeps(cfg, data, s, i, wake);
  }

  // ---------- the writer routine ----------

  lemma KeepLook(cfg: Config, data: seq<byte>, s: State, q: Pool, woken: bool)
    requires Inv(cfg, data, s) && (s.out.Ask? || s.out.Await?)
    requires OutputLooked(s.next, s.inp.ready, s.busy, q, s.upto, woken)
    requires q.closed == s.outp.closed && q.cap == s.outp.cap
    ensures Inv(cfg, data, Look(s.(outp := q), woken))
  {
    hide UserInv, InputInv, OutputInv, CodeInv, SentInv;
    OutputLook(s.next, s.inp.ready, s.busy, q, s.upto, woken);
    match TakeIdxOutcome(q, s.upto)
    case Got =>
      LengthIs(cfg, data, s);
      SentLooks(cfg, s.chunks, s.open, s.outs, s.out, s.upto, s.index, s.sent);
    case Refused =>
      AllTaken(s.next, s.inp.ready, s.busy, q, s.upto, woken);
      SentWaits(cfg, s.chunks, s.open, s.outs, s.out, Check, s.upto, s.index, s.sent);
    case _ =>
      SentWaits(cfg, s.chunks, s.open, s.outs, s.out, Await, s.upto, s.index, s.sent);
  }

  lemma KeepOutAsk(cfg: Config, data: seq<byte>, s: State)
    requires Inv(cfg, data, s) && Enabled(cfg, s, OutAsk)
    ensures Inv(cfg, data, Apply(cfg, s, OutAsk))
  {
    hide UserInv, InputInv, OutputInv, CodeInv, SentInv;
    WaitIdxIs(s.next, s.inp.ready, s.busy, s.outp, s.upto);
    OutputAnnounced(s.next, s.inp.ready, s.busy, s.outp, s.upto);
    KeepLook(cfg, data, s, Announce(s.outp, s.upto), false);
  }

  lemma KeepOutWake(cfg: Config, data: seq<byte>, s: State)
    requires Inv(cfg, data, s) && Enabled(cfg, s, OutWake)
    ensures Inv(cfg, data, Apply(cfg, s, OutWake))
  {
    hide UserInv, InputInv, OutputInv, CodeInv, SentInv;
    OutputWoken(s.next, s.inp.ready, s.busy, s.outp, s.upto);
    KeepLook(cfg, data, s, s.outp, true);
  }

  lemma KeepOutSend(cfg: Config, data: seq<byte>, s: State, l: Label)
    requires l.OutEmit? || l.OutFail? || l.OutEnd?
    requires Inv(cfg, data, s) && Enabled(cfg, s, l)
    ensures Inv(cfg, data, Apply(cfg, s, l))
  {
    hide UserInv, InputInv, OutputInv, CodeInv, SentInv, CapInv, CloseInv;
    hide Sent, Listed, Complete, Settled;
    var n := if l.OutEnd? then 0 else l.n;
    var out := if l.OutEmit? then Emit(s.out.off + n) else Give(l.OutFail?);
    CloseSends(s.user, s.inp.closed, s.inp.ready, s.busy.Keys, s.exited, s.closer, s.outp.closed, s.out, out,
               s.upto, s.next);
    SentEmits(cfg, s.chunks, s.open, s.outs, s.out.off, n, s.upto, s.index, s.sent);
  }

  lemma GiveOutputKeeps(cfg: Config, data: seq<byte>, s: State, wake: int)
    requires Inv(cfg, data, s) && s.out.Give? && s.upto > 0 && s.upto - 1 in s.outs && WakeChoice(s.outp, wake)
    ensures Inv(cfg, data, GiveOutput(s, wake))
  {
    hide UserInv, InputInv, OutputInv, CodeInv, SentInv;
    OutputGiven(s.next, s.inp.ready, s.busy, s.outp, s.upto, s.upto - 1, wake);
    ActiveIs(s.next, s.inp.ready, s.busy, s.outp, s.upto, Current(s.out, s.upto), s.out.Await?);
    OutsAre(cfg, s.chunks, s.open, s.outs, s.out, s.upto, s.index, s.sent, s.user.Finished?);
    SentGiven(cfg, s.chunks, s.open, s.outs, s.out.bad, s.upto, s.index, s.sent);
  }

  lemma KeepOutGive(cfg: Config, data: seq<byte>, s: State, wake: int)
    requires Inv(cfg, data, s) && Enabled(cfg, s, OutGive(wake))
    ensures Inv(cfg, data, Apply(cfg, s, OutGive(wake)))
  {
    hide Inv, GiveOutput;
    GiveOutputKeeps(cfg, data, s, wake);
  }

  lemma KeepOutCheck(cfg: Config, data: seq<byte>, s: State, pick: int)
    requires Inv(cfg, data, s) && Enabled(cfg, s, OutCheck(pick))
    ensures Inv(cfg, data, Apply(cfg, s, OutCheck(pick)))
  {
    hide UserInv, InputInv, OutputInv, CodeInv, SentInv;
    NoneReady(s.next, s.inp.ready, s.busy, s.outp);
    SentChecks(cfg, s.chunks, s.open, s.outs, s.upto, s.index, s.sent, s.user.Finished?);
  }

  // ---------- monitor and closer ----------

  lemma KeepMon(cfg: Config, data: seq<byte>, s: State)
    requires Inv(cfg, data, s) && Enabled(cfg, s, MonStep)
    ensures Inv(cfg, data, Apply(cfg, s, MonStep))
  {
    hide UserInv, InputInv, OutputInv, CodeInv, SentInv;
    if s.mon == 0 || s.mon == 3 {
      InputResized(s.next, Asking(s.user, s.open), s.inp, s.busy.Keys, if s.mon == 0 then 1 else cfg.maxWorkers);
    } else if s.mon == 1 || s.mon == 4 {
      OutputResized(s.next, s.inp.ready, s.busy, s.outp, s.upto, Current(s.out, s.upto), s.out.Await?,
                    if s.mon == 1 then 1 else cfg.maxWorkers);
    }
  }

  lemma KeepCloserWake(cfg: Config, data: seq<byte>, s: State)
    requires Inv(cfg, data, s) && Enabled(cfg, s, CloserWake)
    ensures Inv(cfg, data, Apply(cfg, s, CloserWake))
  {
    hide UserInv, InputInv, OutputInv, CodeInv, SentInv;
    assert s.busy.Keys == {};
  }

  lemma KeepCloserFire(cfg: Config, data: seq<byte>, s: State)
    requires Inv(cfg, data, s) && Enabled(cfg, s, CloserFire)
    ensures Inv(cfg, data, Apply(cfg, s, CloserFire))
  {
    hide UserInv, InputInv, OutputInv, CodeInv, SentInv;
    OutputClosed(s.next, s.inp.ready, s.busy, s.outp, s.upto, Current(s.out, s.upto), s.out.Await?);
  }

  // ---------- every run ----------

  lemma StepKeeps(cfg: Config, data: seq<byte>, s: State, l: Label)
    requires Inv(cfg, data, s) && Enabled(cfg, s, l)
    ensures Inv(cfg, data, Apply(cfg, s, l))
  {
    hide Inv, Enabled, Apply;
    match l
    case UserBegin => KeepBegin(cfg, data, s);
    case UserReturn => KeepReturn(cfg, data, s);
    case UserTake(pick) => KeepTake(cfg, data, s, pick);
    case UserPut => KeepPut(cfg, data, s);
    case UserClose => KeepClose(cfg, data, s);
    case UserClosePool => KeepClosePool(cfg, data, s);
    case UserFinish => KeepFinish(cfg, data, s);
    case WorkTake(woken, pick) => KeepWorkTake(cfg, data, s, woken, pick);
    case WorkOut(i, pick) => KeepWorkOut(cfg, data, s, i, pick);
    case WorkCode(i) => KeepWorkCode(cfg, data, s, i);
    case WorkReturn(i, wake) => KeepWorkReturn(cfg, data, s, i, wake);
    case OutAsk => KeepOutAsk(cfg, data, s);
    case OutWake => KeepOutWake(cfg, data, s);
    case OutEmit(n) => KeepOutSend(cfg, data, s, l);
    case OutFail(n) => KeepOutSend(cfg, data, s, l);
    case OutEnd => KeepOutSend(cfg, data, s, l);
    case OutGive(wake) => KeepOutGive(cfg, data, s, wake);
    case OutCheck(pick) => KeepOutCheck(cfg, data, s, pick);
    case MonStep => KeepMon(cfg, data, s);
    case CloserWake => KeepCloserWake(cfg, data, s);
    case CloserFire => KeepCloserFire(cfg, data, s);
  }

  lemma {:induction false} RunKeeps(cfg: Config, data: seq<byte>, s: State, run: seq<Label>)
    requires Inv(cfg, data, s) && Runs(cfg, s, run)
    ensures Inv(cfg, data, After(cfg, s, run))
    decreases |run|
  {
    hide Inv, Enabled, Apply;
    if run != [] {
      StepKeeps(cfg, data, s, run[0]);
      RunKeeps(cfg, data, Apply(cfg, s, run[0]), run[1..]);
    }
  }
}
