/** The main results about every run of the asynchronous Writer. */
module PipelineTheorems {
  import opened Bytes
  import opened Format
  import opened Chunks
  import opened Pool
  import opened Pipeline
  import opened PipelineInv
  import opened PipelineSteps
  import opened PipelineProgress
  import opened PipelineRuns

  lemma ReachInv(cfg: Config, script: seq<seq<byte>>, run: seq<Label>)
    requires GoodConfig(cfg) && Runs(cfg, Init(cfg, script), run)
    ensures Inv(cfg, Flat(script), After(cfg, Init(cfg, script), run))
  {
    InitInv(cfg, script);
    RunKeeps(cfg, Flat(script), Init(cfg, script), run);
  }

  // Whatever the scheduler does, and even if the underlying writer fails, the bytes sent and the
  // records appended are the beginning of the synchronous path's; when Close has returned they
  // are all of them. No call into a pool panics or is refused.
  lemma AsyncRefinesSync(cfg: Config, script: seq<seq<byte>>, run: seq<Label>)
    requires GoodConfig(cfg) && Runs(cfg, Init(cfg, script), run)
    ensures var s := After(cfg, Init(cfg, script), run);
      && s.sent <= SyncFile(cfg, Flat(script))
      && s.index <= Records(cfg, Split(Flat(script), cfg.size))
      && (s.user.Finished? ==> s.sent == SyncFile(cfg, Flat(script))
                               && s.index == Records(cfg, Split(Flat(script), cfg.size)))
      && !s.crashed && !s.user.Broken?
  {
    hide Inv, Runs, After, Init, Apply, Enabled, SyncFile, Split, Records;
    var s := After(cfg, Init(cfg, script), run);
    ReachInv(cfg, script, run);
    SentWithin(cfg, Flat(script), s);
    NotBroken(cfg, Flat(script), s);
  }

  lemma NotBroken(cfg: Config, data: seq<byte>, s: State)
    requires Inv(cfg, data, s)
    ensures !s.crashed && !s.user.Broken?
  {
  }

  // In every reachable state that is not at an end, some goroutine can take a step.
  lemma NoDeadlock(cfg: Config, script: seq<seq<byte>>, run: seq<Label>)
    requires GoodConfig(cfg) && Runs(cfg, Init(cfg, script), run)
    requires !Ended(After(cfg, Init(cfg, script), run))
    ensures exists l :: Enabled(cfg, After(cfg, Init(cfg, script), run), l)
  {
    ReachInv(cfg, script, run);
    var l := Progress(cfg, Flat(script), After(cfg, Init(cfg, script), run));
  }

  lemma {:induction false} RunDown(cfg: Config, data: seq<byte>, s: State, run: seq<Label>)
    requires Inv(cfg, data, s) && Runs(cfg, s, run) && Measure(cfg, data, s) >= 0
    ensures Measure(cfg, data, After(cfg, s, run)) + |run| <= Measure(cfg, data, s)
    decreases |run|
  {
    hide Inv, Enabled, Apply, Measure;
    if run != [] {
      StepDown(cfg, data, s, run[0]);
      StepKeeps(cfg, data, s, run[0]);
      RunDown(cfg, data, Apply(cfg, s, run[0]), run[1..]);
    }
  }

  // No run is longer than this, whatever pop, Signal and the scheduler choose.
  function Bound(cfg: Config, script: seq<seq<byte>>): (b: int)
    requires cfg.size > 0
  {
    Measure(cfg, Flat(script), Init(cfg, script))
  }

  lemma MeasureBound(cfg: Config, data: seq<byte>, s: State)
    requires Inv(cfg, data, s)
    ensures Measure(cfg, data, s) >= 0
  {
    AsleepBound(cfg, data, s);
    StageBound(cfg, data, s);
    hide Inv, Stage, Sleepers;
    Times(0, Stage(cfg, data, s), cfg.maxWorkers + 3);
  }

  lemma EveryRunIsFinite(cfg: Config, script: seq<seq<byte>>, run: seq<Label>)
    requires GoodConfig(cfg) && Runs(cfg, Init(cfg, script), run)
    ensures |run| <= Bound(cfg, script)
  {
    var s := Init(cfg, script);
    InitInv(cfg, script);
    ReachInv(cfg, script, run);
    MeasureBound(cfg, Flat(script), s);
    MeasureBound(cfg, Flat(script), After(cfg, s, run));
    hide Inv, Measure;
    RunDown(cfg, Flat(script), s, run);
  }

  // ---------- only the underlying writer can make a run fail ----------

  predicate Troubled(s: State) {
    s.out.Failed? || s.out == Give(true)
  }

  lemma TroubleStep(cfg: Config, data: seq<byte>, s: State, l: Label)
    requires Inv(cfg, data, s) && Enabled(cfg, s, l) && !Troubled(s) && !l.OutFail?
    ensures !Troubled(Apply(cfg, s, l))
  {
    hide UserInv, InputInv, OutputInv, CodeInv, SentInv, CapInv, GetWriter, TakeAny, TakeIdx, Restore,
      SetCapacity, Close, Announce;
    if l.OutCheck? {
      NoneReady(s.next, s.inp.ready, s.busy, s.outp);
    }
  }

  lemma {:induction false} TroubleRun(cfg: Config, data: seq<byte>, s: State, run: seq<Label>)
    requires Inv(cfg, data, s) && Runs(cfg, s, run) && !Troubled(s)
    requires forall l :: l in run ==> !l.OutFail?
    ensures !Troubled(After(cfg, s, run))
    decreases |run|
  {
    hide Inv, Enabled, Apply, Troubled;
    if run != [] {
      assert run[0] in run;
      TroubleStep(cfg, data, s, run[0]);
      StepKeeps(cfg, data, s, run[0]);
      TroubleRun(cfg, data, Apply(cfg, s, run[0]), run[1..]);
    }
  }

  lemma InitCalm(cfg: Config, script: seq<seq<byte>>)
    requires GoodConfig(cfg)
    ensures Inv(cfg, Flat(script), Init(cfg, script)) && !Troubled(Init(cfg, script))
  {
    hide Inv;
    InitInv(cfg, script);
  }

  // A run in which the underlying writer does not fail, and that cannot be continued, has made
  // Close return with the whole synchronous file written, and has started maxWorkers workers. In
  // particular the sanity check at the end of the writer routine never fails.
  lemma MaximalRunFinishes(cfg: Config, script: seq<seq<byte>>, run: seq<Label>)
    requires GoodConfig(cfg) && Runs(cfg, Init(cfg, script), run)
    requires forall l :: l in run ==> !l.OutFail?
    requires forall l :: !Enabled(cfg, After(cfg, Init(cfg, script), run), l)
    ensures var s := After(cfg, Init(cfg, script), run);
      && s.user.Finished? && s.sent == SyncFile(cfg, Flat(script))
      && Spawned(s) == s.inp.cap == s.outp.cap == cfg.maxWorkers
  {
    hide Inv, Runs, After, Init, Apply, Enabled, SyncFile, Split, Records, Spawned;
    InitCalm(cfg, script);
    var s := After(cfg, Init(cfg, script), run);
    ReachInv(cfg, script, run);
    AllSpawned(cfg, Flat(script), s);
    TroubleRun(cfg, Flat(script), Init(cfg, script), run);
    if !Ended(s) {
      NoDeadlock(cfg, script, run);
    }
    AsyncRefinesSync(cfg, script, run);
  }

  // When the monitor has nothing left to do, all workers have been started.
  lemma AllSpawned(cfg: Config, data: seq<byte>, s: State)
    requires Inv(cfg, data, s) && !Enabled(cfg, s, MonStep)
    ensures Spawned(s) == s.inp.cap == s.outp.cap == cfg.maxWorkers
  {
    hide UserInv, InputInv, OutputInv, CodeInv, SentInv, CloseInv;
  }

  // ---------- what holds at every moment ----------

  // Pipes are conserved, no two goroutines hold one pipe, no wakeup is lost.
  lemma PoolsSound(cfg: Config, script: seq<seq<byte>>, run: seq<Label>)
    requires GoodConfig(cfg) && Runs(cfg, Init(cfg, script), run)
    ensures var s := After(cfg, Init(cfg, script), run);
      && Conserved(s.inp) && Conserved(s.outp)
      && s.inp.active == s.busy.Keys && |s.outp.active| <= 1
      && WritersServed(s.inp) && AnyReadersServed(s.inp)
      && WritersServed(s.outp) && IdxReaderServed(s.outp)
      && s.inp.len <= s.inp.cap && s.outp.len <= s.outp.cap + 1
  {
    hide Inv, Runs, After, Init, Apply, Enabled, Conserved, WritersServed, AnyReadersServed, IdxReaderServed;
    ReachInv(cfg, script, run);
    PoolsSoundNow(cfg, Flat(script), After(cfg, Init(cfg, script), run));
  }

  lemma PoolsSoundNow(cfg: Config, data: seq<byte>, s: State)
    requires Inv(cfg, data, s)
    ensures Conserved(s.inp) && Conserved(s.outp)
    ensures s.inp.active == s.busy.Keys && |s.outp.active| <= 1
    ensures WritersServed(s.inp) && AnyReadersServed(s.inp)
    ensures WritersServed(s.outp) && IdxReaderServed(s.outp)
    ensures s.inp.len <= s.inp.cap && s.outp.len <= s.outp.cap + 1
  {
    hide UserInv, CodeInv, SentInv, CloseInv, CapInv, Conserved, WritersServed, AnyReadersServed, IdxReaderServed;
  }

  // No input pipe is ever dropped, so no more are made than the capacity, which is at most maxWorkers.
  lemma InputPipesStay(cfg: Config, data: seq<byte>, s: State, l: Label)
    requires Inv(cfg, data, s) && Enabled(cfg, s, l)
    ensures var t := Apply(cfg, s, l);
      s.inp.len <= t.inp.len <= cfg.maxWorkers && (t.inp.len > s.inp.len ==> s.inp.free == {})
  {
    hide Inv, Apply, Enabled;
    StepKeeps(cfg, data, s, l);
    InputCapped(cfg, data, s);
    InputCapped(cfg, data, Apply(cfg, s, l));
    InputPipesStep(cfg, s, l);
  }

  lemma InputCapped(cfg: Config, data: seq<byte>, s: State)
    requires Inv(cfg, data, s)
    ensures s.inp.len <= s.inp.cap <= cfg.maxWorkers
  {
    hide UserInv, OutputInv, CodeInv, SentInv, CloseInv;
  }

  lemma InputPipesStep(cfg: Config, s: State, l: Label)
    requires Enabled(cfg, s, l) && s.inp.len <= s.inp.cap
    ensures var t := Apply(cfg, s, l); s.inp.len <= t.inp.len && (t.inp.len > s.inp.len ==> s.inp.free == {})
  {
    hide TakeIdx, Announce, TakeIdxOutcome;
  }

  // The output pool is closed only when no chunk is left anywhere before it, even if all workers
  // that had been started were gone before the monitor started more.
  lemma DrainedWhenClosed(cfg: Config, script: seq<seq<byte>>, run: seq<Label>)
    requires GoodConfig(cfg) && Runs(cfg, Init(cfg, script), run)
    ensures var s := After(cfg, Init(cfg, script), run);
      s.outp.closed ==>
        s.inp.closed && s.inp.ready == {} && s.busy == map[] && forall i :: 0 <= i < s.next ==> i in s.outs
  {
    hide Inv, Runs, After, Init, Apply, Enabled;
    ReachInv(cfg, script, run);
    if After(cfg, Init(cfg, script), run).outp.closed {
      DrainedNow(cfg, Flat(script), After(cfg, Init(cfg, script), run));
    }
  }

  lemma DrainedNow(cfg: Config, data: seq<byte>, s: State)
    requires Inv(cfg, data, s) && s.outp.closed
    ensures s.inp.closed && s.inp.ready == {} && s.busy == map[] && forall i :: 0 <= i < s.next ==> i in s.outs
  {
    hide UserInv, InputInv, OutputInv, SentInv, CapInv;
    assert s.busy.Keys == {};
    assert forall i :: 0 <= i < s.next ==> Encoded(s.next, s.inp.ready, s.busy, i);
  }

  // ---------- chunks in flight ----------

  ghost function Interval(lo: int, hi: int): (r: set<int>)
    requires lo <= hi
    ensures |r| == hi - lo && forall i :: i in r <==> lo <= i < hi
    decreases hi - lo
  {
    if lo == hi then {} else Interval(lo, hi - 1) + {hi - 1}
  }

  lemma UnionCard<T>(a: set<T>, b: set<T>)
    ensures |a + b| <= |a| + |b|
  {
    var c := b - a;
    assert a + b == a + c;
    SubsetCard(c, b);
  }

  // Chunks accepted from Write whose pipes the writer routine has not yet given back.
  function InFlight(s: State): (n: int)
  {
    s.next - (if s.out.Emit? || s.out.Give? then s.upto - 1 else s.upto)
  }

  lemma MemoryBound(cfg: Config, script: seq<seq<byte>>, run: seq<Label>)
    requires GoodConfig(cfg) && Runs(cfg, Init(cfg, script), run)
    ensures var s := After(cfg, Init(cfg, script), run);
      InFlight(s) <= s.inp.cap + s.outp.cap + 1 <= 2 * cfg.maxWorkers + 1
  {
    hide Inv, Runs, After, Init, Apply, Enabled, Conserved, WritersServed, AnyReadersServed, IdxReaderServed;
    ReachInv(cfg, script, run);
    MemoryNow(cfg, Flat(script), After(cfg, Init(cfg, script), run));
  }

  lemma MemoryNow(cfg: Config, data: seq<byte>, s: State)
    requires Inv(cfg, data, s)
    ensures InFlight(s) <= s.inp.cap + s.outp.cap + 1 <= 2 * cfg.maxWorkers + 1
  {
    var lo := s.next - InFlight(s);
    PoolsSoundNow(cfg, data, s);
    InFlightPlaces(cfg, data, s, lo);
    hide UserInv, InputInv, OutputInv, CodeInv, SentInv, CloseInv;
    SubsetCard(Interval(lo, s.next), s.inp.ready + s.inp.active + (s.outp.ready + s.outp.active));
    UnionCard(s.inp.ready + s.inp.active, s.outp.ready + s.outp.active);
    UnionCard(s.inp.ready, s.inp.active);
    UnionCard(s.outp.ready, s.outp.active);
  }

  lemma InFlightPlaces(cfg: Config, data: seq<byte>, s: State, lo: int)
    requires Inv(cfg, data, s) && lo == s.next - InFlight(s)
    ensures lo <= s.next
    ensures Interval(lo, s.next) <= s.inp.ready + s.inp.active + (s.outp.ready + s.outp.active)
  {
    hide UserInv, CodeInv, SentInv, CloseInv, CapInv, Conserved, WritersServed, IdxReaderServed, AnyReadersServed;
    assert lo <= s.next by {
      assert s.upto <= s.next;
    }
    forall i | lo <= i < s.next
      ensures i in s.inp.ready + s.inp.active + (s.outp.ready + s.outp.active)
    {
      if i >= s.upto && i !in s.inp.ready && i !in s.busy.Keys {
        assert Acquired(s.next, s.inp.ready, s.busy, i);
      }
    }
  }
}
