/**
 The asynchronous Writer (xz/writer.go:135-332, xz/pool.go:232-278) as a transition system.
 The threads are the user (a script of Write calls, then Close), the workers, the writer
 routine, the monitor and the routine that waits for the worker group. One label is one atomic
 step of one thread; everything the scheduler, map iteration, Signal and the underlying writer
 may choose is part of the label, so Apply is a function.

 Workers are alike, so the state counts those that are at getReader and records, for each
 chunk held by a worker, how far that worker is.
 */
module Pipeline {
  import opened Bytes
  import opened Format
  import opened Chunks
  import opened Pool

  datatype Config = Config(
    size: nat,                          // w.chunkSize
    maxWorkers: nat,
    enc: seq<byte> -> Block,            // blockEncode on a whole chunk
    header: seq<byte>,
    trailer: seq<Record> -> seq<byte>)  // index and footer

  // blockEncode never reports an unpadded size of zero, the value that means "not set".
  ghost predicate GoodConfig(cfg: Config) {
    cfg.size > 0 && cfg.maxWorkers > 0 && forall c :: cfg.enc(c).rec.unpadSize > 0
  }

  datatype User =
    | Between                  // no call in progress
    | Writing(rest: seq<byte>) // in Write, with this much of the argument left
    | Closing                  // in Close, the last pipe is closed
    | Awaiting                 // in Close, the input pool is closed, receiving from errChan
    | Finished
    | Broken                   // getWriter returned nil

  datatype Phase = Taken | Coding | Coded

  datatype Out =
    | Ask                          // about to call getReader(upto)
    | Await                        // in getReader(upto), asleep or woken
    | Emit(off: nat)               // holds pipe upto-1, has written off bytes of it
    | Give(bad: bool)              // about to append the record and restore the pipe
    | Check                        // the final getReader(-1)
    | Done
    | Failed

  datatype Closer = Waiting | Firing | Fired

  datatype State = State(
    script: seq<seq<byte>>, user: User,
    next: nat, open: bool,              // w.idx, w.pipe != nil
    chunks: seq<seq<byte>>,             // what input pipe i has received
    inp: Pool, outp: Pool,
    idle: nat, busy: map<int, Phase>, exited: nat,
    outs: map<int, Block>,              // output pipes that a worker has closed
    mon: nat, closer: Closer,
    out: Out, upto: nat,                // writer routine, output pipes it has been given
    index: seq<Record>, sent: seq<byte>,
    crashed: bool)                      // some call panicked

  function Init(cfg: Config, script: seq<seq<byte>>): (s: State)
  {
    State(script, Between, 0, false, [], NEW, NEW, 0, map[], 0, map[], 0, Waiting, Ask, 0, [], cfg.header, false)
  }

  // len(wp.workers): all workers ever started.
  function Spawned(s: State): (n: nat)
  {
    s.idle + s.inp.rdSleep + s.inp.rdWoken + |s.busy| + s.exited
  }

  // Input pipe i has been closed by the user.
  predicate Complete(chunks: seq<seq<byte>>, open: bool, i: int) {
    0 <= i < |chunks| && !(open && i == |chunks| - 1)
  }

  datatype Label =
    | UserBegin | UserReturn
    | UserTake(pick: int)
    | UserPut
    | UserClose | UserClosePool | UserFinish
    | WorkTake(woken: bool, pick: int)
    | WorkOut(i: int, pick: int)
    | WorkCode(i: int)
    | WorkReturn(i: int, wake: int)
    | OutAsk
    | OutWake
    | OutEmit(n: nat) | OutFail(n: nat) | OutEnd
    | OutGive(wake: int)
    | OutCheck(pick: int)
    | MonStep
    | CloserWake | CloserFire

  // The block that the writer routine holds.
  predicate Holds(s: State) {
    s.out.Emit? && s.upto > 0 && s.upto - 1 in s.outs && s.out.off <= |s.outs[s.upto - 1].bytes|
  }

  predicate Enabled(cfg: Config, s: State, l: Label) {
    !s.crashed &&
    match l
    case UserBegin => s.user.Between? && s.script != []
    case UserReturn => s.user == Writing([])
    case UserTake(pick) =>
      s.user.Writing? && s.user.rest != [] && !s.open && s.next !in s.inp.wrSleep && PopChoice(s.inp.free, pick)
    case UserPut =>
      && s.user.Writing? && s.user.rest != [] && s.open && |s.chunks| > 0
      && |s.chunks[|s.chunks| - 1]| <= cfg.size
    case UserClose => s.user.Between? && s.script == []
    case UserClosePool => s.user.Closing?
    case UserFinish => s.user.Awaiting? && s.out.Done?
    case WorkTake(woken, pick) => (if woken then s.inp.rdWoken > 0 else s.idle > 0) && PopChoice(s.inp.ready, pick)
    case WorkOut(i, pick) => i in s.busy && s.busy[i].Taken? && i !in s.outp.wrSleep && PopChoice(s.outp.free, pick)
    case WorkCode(i) => i in s.busy && s.busy[i].Coding? && Complete(s.chunks, s.open, i)
    case WorkReturn(i, wake) => i in s.busy && s.busy[i].Coded? && WakeChoice(s.inp, wake)
    case OutAsk => s.out.Ask?
    case OutWake => s.out.Await? && s.outp.rdWoken > 0
    case OutEmit(n) => Holds(s) && 0 < n <= |s.outs[s.upto - 1].bytes| - s.out.off
    case OutFail(n) => Holds(s) && n < |s.outs[s.upto - 1].bytes| - s.out.off
    case OutEnd => Holds(s) && s.out.off == |s.outs[s.upto - 1].bytes|
    case OutGive(wake) => s.out.Give? && s.upto > 0 && s.upto - 1 in s.outs && WakeChoice(s.outp, wake)
    case OutCheck(pick) => s.out.Check? && PopChoice(s.outp.ready, pick) && !TakeAnyOutcome(s.outp).Asleep?
    case MonStep => s.mon < 6
    case CloserWake => s.closer.Waiting? && Spawned(s) > 0 && Spawned(s) == s.exited
    case CloserFire => s.closer.Firing?
  }

  // The writer routine looks for pipe upto, at the call or after a wakeup.
  function Look(s: State, woken: bool): (t: State)
    requires woken ==> s.outp.rdWoken > 0
  {
    var o := TakeIdxOutcome(s.outp, s.upto);
    s.(outp := TakeIdx(s.outp, s.upto, woken),
       upto := if o.Got? then s.upto + 1 else s.upto,
       out := if o.Got? then Emit(0) else if o.Refused? then Check else Await)
  }

  // One step of the monitor: setCapacity(1), then setCapacity(maxWorkers). Each sets the input
  // pool's capacity, then the output pool's, then starts workers one by one.
  function Monitor(cfg: Config, s: State): (t: State)
  {
    var goal := if s.mon < 3 then 1 else cfg.maxWorkers;
    var spawn := s.mon % 3 == 2 && Spawned(s) < goal;
    s.(mon := if spawn then s.mon else s.mon + 1,
       idle := if spawn then s.idle + 1 else s.idle,
       inp := if s.mon % 3 == 0 then SetCapacity(s.inp, goal) else s.inp,
       outp := if s.mon % 3 == 1 then SetCapacity(s.outp, goal) else s.outp)
  }

  function Crash(s: State): (t: State)
  {
    s.(crashed := true)
  }

  // The user asks for the next input pipe.
  function AskInput(s: State, pick: int): (t: State)
  {
    var o := WriterOutcome(s.inp, s.next);
    if o.Panicked? then Crash(s)
    else s.(inp := GetWriter(s.inp, s.next, pick),
            next := if o.Got? then s.next + 1 else s.next,
            open := if o.Got? then true else s.open,
            chunks := if o.Got? then s.chunks + [[]] else s.chunks,
            user := if o.Refused? then Broken else s.user)
  }

  // A worker takes any chunk, leaves because there will be none, or sleeps.
  function FetchInput(s: State, woken: bool, pick: int): (t: State)
    requires if woken then s.inp.rdWoken > 0 else s.idle > 0
  {
    var o := TakeAnyOutcome(s.inp);
    s.(inp := TakeAny(s.inp, woken, pick),
       idle := if woken then s.idle else s.idle - 1,
       busy := if o.Got? then s.busy[pick := Taken] else s.busy,
       exited := if o.Refused? then s.exited + 1 else s.exited)
  }

  // The worker of chunk i asks for an output pipe; when it gets none it skips the encoding.
  function AskOutput(s: State, i: int, pick: int): (t: State)
  {
    var o := WriterOutcome(s.outp, i);
    if o.Panicked? then Crash(s)
    else s.(outp := GetWriter(s.outp, i, pick),
            busy := if o.Got? then s.busy[i := Coding] else if o.Refused? then s.busy[i := Coded] else s.busy)
  }

  function ReturnInput(s: State, i: int, wake: int): (t: State)
  {
    if i !in s.inp.active then Crash(s)
    else s.(busy := s.busy - {i}, idle := s.idle + 1, inp := Restore(s.inp, i, wake))
  }

  // The writer routine appends the record and gives the pipe back, after an error as well.
  function GiveOutput(s: State, wake: int): (t: State)
    requires s.out.Give? && s.upto - 1 in s.outs
  {
    if s.upto - 1 !in s.outp.active then Crash(s) else
    var r := s.outs[s.upto - 1].rec;
    s.(index := if r.unpadSize != 0 then s.index + [r] else s.index,
       outp := Restore(s.outp, s.upto - 1, wake),
       out := if s.out.bad then Failed else Ask)
  }

  function Apply(cfg: Config, s: State, l: Label): (t: State)
    requires Enabled(cfg, s, l)
  {
    match l
    case UserBegin => s.(script := s.script[1..], user := Writing(s.script[0]))
    case UserReturn => s.(user := Between)
    case UserTake(pick) => AskInput(s, pick)
    case UserPut =>
      var last := |s.chunks| - 1;
      var n := Min(|s.user.rest|, cfg.size - |s.chunks[last]|);
      s.(chunks := s.chunks[last := s.chunks[last] + s.user.rest[..n]],
         user := Writing(s.user.rest[n..]),
         open := n == |s.user.rest|)   // a short write closes the pipe
    case UserClose => s.(open := false, user := Closing)
    case UserClosePool => s.(user := Awaiting, inp := Close(s.inp))
    case UserFinish => s.(user := Finished, sent := s.sent + cfg.trailer(s.index))
    case WorkTake(woken, pick) => FetchInput(s, woken, pick)
    case WorkOut(i, pick) => AskOutput(s, i, pick)
    case WorkCode(i) => s.(busy := s.busy[i := Coded], outs := s.outs[i := cfg.enc(s.chunks[i])])
    case WorkReturn(i, wake) => ReturnInput(s, i, wake)
    case OutAsk =>
      if s.outp.waitIdx >= 0 then Crash(s) else Look(s.(outp := Announce(s.outp, s.upto)), false)
    case OutWake => Look(s, true)
    case OutEmit(n) =>
      s.(sent := s.sent + s.outs[s.upto - 1].bytes[s.out.off..s.out.off + n], out := Emit(s.out.off + n))
    case OutFail(n) =>
      s.(sent := s.sent + s.outs[s.upto - 1].bytes[s.out.off..s.out.off + n], out := Give(true))
    case OutEnd => s.(out := Give(false))
    case OutGive(wake) => GiveOutput(s, wake)
    case OutCheck(pick) =>
      s.(outp := TakeAny(s.outp, false, pick), out := if TakeAnyOutcome(s.outp).Refused? then Done else Failed)
    case MonStep => Monitor(cfg, s)
    case CloserWake => s.(closer := Firing)
    case CloserFire => s.(closer := Fired, outp := Close(s.outp))
  }

  // Every label of a run is enabled where it is applied.
  predicate Runs(cfg: Config, s: State, run: seq<Label>)
    decreases |run|
  {
    run == [] || (Enabled(cfg, s, run[0]) && Runs(cfg, Apply(cfg, s, run[0]), run[1..]))
  }

  function After(cfg: Config, s: State, run: seq<Label>): (t: State)
    requires Runs(cfg, s, run)
    decreases |run|
  {
    if run == [] then s else After(cfg, Apply(cfg, s, run[0]), run[1..])
  }

  // ---------- the synchronous reference ----------

  function BlockBytes(cfg: Config, chunks: seq<seq<byte>>): (all: seq<byte>)
  {
    if chunks == [] then []
    else BlockBytes(cfg, chunks[..|chunks| - 1]) + cfg.enc(chunks[|chunks| - 1]).bytes
  }

  function Records(cfg: Config, chunks: seq<seq<byte>>): (rs: seq<Record>)
    ensures |rs| == |chunks|
  {
    seq(|chunks|, i requires 0 <= i < |chunks| => cfg.enc(chunks[i]).rec)
  }

  function SyncBody(cfg: Config, data: seq<byte>): (file: seq<byte>)
    requires cfg.size > 0
  {
    cfg.header + BlockBytes(cfg, Split(data, cfg.size))
  }

  // What the synchronous block path writes for this data.
  function SyncFile(cfg: Config, data: seq<byte>): (file: seq<byte>)
    requires cfg.size > 0
  {
    SyncBody(cfg, data) + cfg.trailer(Records(cfg, Split(data, cfg.size)))
  }

  lemma {:induction false} BlockBytesPrefix(cfg: Config, parts: seq<seq<byte>>, k: nat)
    requires k <= |parts|
    ensures BlockBytes(cfg, parts[..k]) <= BlockBytes(cfg, parts)
    decreases |parts|
  {
    if k == |parts| {
      assert parts[..k] == parts;
    } else {
      var front := parts[..|parts| - 1];
      BlockBytesPrefix(cfg, front, k);
      assert front[..k] == parts[..k];
    }
  }

  lemma BlockBytesPush(cfg: Config, parts: seq<seq<byte>>, chunk: seq<byte>)
    ensures BlockBytes(cfg, parts + [chunk]) == BlockBytes(cfg, parts) + cfg.enc(chunk).bytes
    ensures Records(cfg, parts + [chunk]) == Records(cfg, parts) + [cfg.enc(chunk).rec]
  {
    assert (parts + [chunk])[..|parts|] == parts;
  }

  // Full chunks at the front of the data are the first chunks of its cut.
  lemma SplitFront(parts: seq<seq<byte>>, rest: seq<byte>, n: nat)
    requires n > 0 && forall i :: 0 <= i < |parts| ==> |parts[i]| == n
    ensures Split(Flat(parts) + rest, n) == parts + Split(rest, n)
  {
    var tail := Split(rest, n);
    SplitCuts(rest, n);
    FlatCat(parts, tail);
    CutUnique(parts + tail, Flat(parts) + rest, n);
  }
}
