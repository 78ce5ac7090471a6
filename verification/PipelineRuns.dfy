/**
 Whole runs of the asynchronous Writer: what it sends agrees with the synchronous path at every
 moment, no run is longer than a bound fixed by the data, and a run that cannot go on and has
 met no error has sent the synchronous file.
 */
module PipelineRuns {
  import opened Bytes
  import opened Format
  import opened Chunks
  import opened Pool
  import opened Pipeline
  import opened PipelineInv
  import opened PipelineSteps
  import opened PipelineProgress

  // ---------- chunks and blocks against the synchronous path ----------

  // The last chunk, which may be open, and what is still to be written.
  lemma LastChunk(cfg: Config, data: seq<byte>, script: seq<seq<byte>>, user: User, next: nat, open: bool,
                  chunks: seq<seq<byte>>)
    requires UserInv(cfg, data, script, user, next, open, chunks) && next > 0
    ensures |chunks| == next
    ensures var front, last, rem := chunks[..next - 1], chunks[next - 1], Rest(user) + Flat(script);
      && (forall i :: 0 <= i < |front| ==> |front[i]| == cfg.size) && |last| <= cfg.size && last + rem != []
      && data == Flat(front) + (last + rem) && (open || |last| == cfg.size || rem == [])
      && (user.Closing? || user.Awaiting? || user.Finished? ==> rem == [])
  {
    var front, last, rem := chunks[..next - 1], chunks[next - 1], Rest(user) + Flat(script);
    assert chunks == front + [last];
    FlatPush(front, last);
    Assoc(Flat(front) + last, Rest(user), Flat(script));
    Assoc(Flat(front), last, rem);
  }

  // However Write cuts its arguments, the chunks are those of Split.
  lemma ChunksFollow(cfg: Config, data: seq<byte>, script: seq<seq<byte>>, user: User, next: nat, open: bool,
                     chunks: seq<seq<byte>>)
    requires UserInv(cfg, data, script, user, next, open, chunks) && cfg.size > 0
    ensures next <= |Split(data, cfg.size)|
    ensures forall i :: Complete(chunks, open, i) ==> chunks[i] == Split(data, cfg.size)[i]
    ensures user.Closing? || user.Awaiting? || user.Finished? ==> chunks == Split(data, cfg.size)
  {
    if next == 0 {
      assert chunks == [];
    } else {
      LastChunk(cfg, data, script, user, next, open, chunks);
      hide UserInv, Split, Flat, Rest;
      var front, last, rem := chunks[..next - 1], chunks[next - 1], Rest(user) + Flat(script);
      FrontAndTail(cfg, front, last, rem);
      assert chunks == front + [last];
    }
  }

  // Full chunks in front of what is not yet cut.
  lemma FrontAndTail(cfg: Config, front: seq<seq<byte>>, last: seq<byte>, rem: seq<byte>)
    requires cfg.size > 0 && last + rem != [] && |last| <= cfg.size
    requires forall i :: 0 <= i < |front| ==> |front[i]| == cfg.size
    ensures var parts := Split(Flat(front) + (last + rem), cfg.size);
      && |front| < |parts| && parts[..|front|] == front
      && (|last| == cfg.size || rem == [] ==> parts[|front|] == last)
      && (rem == [] ==> parts == front + [last])
  {
    var tail := Split(last + rem, cfg.size);
    FlatCat(front, tail);
    SplitCuts(last + rem, cfg.size);
    CutUnique(front + tail, Flat(front) + (last + rem), cfg.size);
    if rem == [] {
      assert last + rem == last;
    }
  }

  // Blocks of chunks that are complete are blocks of the synchronous file.
  lemma SentUpTo(cfg: Config, data: seq<byte>, s: State, k: nat)
    requires Inv(cfg, data, s) && k <= |s.chunks| && forall i :: 0 <= i < k ==> Complete(s.chunks, s.open, i)
    ensures k <= |Split(data, cfg.size)| && s.chunks[..k] == Split(data, cfg.size)[..k]
    ensures Sent(cfg, s.chunks, k) <= SyncBody(cfg, data)
    ensures Listed(cfg, s.chunks, k) == Records(cfg, Split(data, cfg.size))[..k]
  {
    hide InputInv, OutputInv, CodeInv, SentInv, CloseInv, CapInv;
    var parts := Split(data, cfg.size);
    ChunksFollow(cfg, data, s.script, s.user, s.next, s.open, s.chunks);
    LengthIs(cfg, data, s);
    hide UserInv;
    assert s.chunks[..k] == parts[..k];
    BlockBytesPrefix(cfg, parts, k);
  }

  // What the writer routine has put out is the beginning of what the synchronous path puts out.
  lemma SentWithin(cfg: Config, data: seq<byte>, s: State)
    requires Inv(cfg, data, s)
    ensures s.sent <= SyncFile(cfg, data)
    ensures s.index <= Records(cfg, Split(data, cfg.size))
    ensures s.user.Finished? ==> s.sent == SyncFile(cfg, data) && s.index == Records(cfg, Split(data, cfg.size))
  {
    hide UserInv, InputInv, OutputInv, CodeInv, CapInv;
    LengthIs(cfg, data, s);
    var k := Settled(s.out, s.upto);
    assert 0 <= k <= |s.chunks| && forall i :: 0 <= i < k ==> Complete(s.chunks, s.open, i);
    SentUpTo(cfg, data, s, k);
    if s.user.Finished? {
      FinishedAll(cfg, data, s);
    } else {
      BodySent(cfg, data, s, k);
    }
  }

  lemma FinishedAll(cfg: Config, data: seq<byte>, s: State)
    requires Inv(cfg, data, s) && s.user.Finished?
    ensures s.sent == SyncFile(cfg, data) && s.index == Records(cfg, Split(data, cfg.size))
  {
    hide InputInv, OutputInv, CodeInv, CapInv;
    LengthIs(cfg, data, s);
    ChunksFollow(cfg, data, s.script, s.user, s.next, s.open, s.chunks);
    assert s.chunks[..s.next] == s.chunks;
  }

  lemma BodySent(cfg: Config, data: seq<byte>, s: State, k: nat)
    requires Inv(cfg, data, s) && !s.user.Finished? && k == Settled(s.out, s.upto) && k <= |s.chunks|
    requires Sent(cfg, s.chunks, k) <= SyncBody(cfg, data)
    requires k <= |Split(data, cfg.size)| && Listed(cfg, s.chunks, k) == Records(cfg, Split(data, cfg.size))[..k]
    ensures s.sent <= SyncBody(cfg, data)
    ensures s.index <= Records(cfg, Split(data, cfg.size))
  {
    hide UserInv, InputInv, OutputInv, CodeInv, CapInv, CloseInv, Sent, Listed, SyncBody, Records, Split, BlockBytes;
    if s.out.Emit? || s.out.Give? {
      SentNext(cfg, s.chunks, s.upto - 1);
      if s.out.Emit? && s.out.off > 0 {
        var b := cfg.enc(s.chunks[s.upto - 1]).bytes;
        assert s.sent + b[s.out.off..] == Sent(cfg, s.chunks, k);
      }
    }
  }

  // ---------- a measure that every step decreases ----------

  function UserRank(user: User): (n: nat)
  {
    match user
    case Between => 3
    case Writing(_) => 4
    case Closing => 2
    case Awaiting => 1
    case _ => 0
  }

  function UserM(n: int, script: seq<seq<byte>>, user: User, next: int, open: bool): (m: int)
  {
    2 * |script| + |Flat(script)| + (if user.Writing? then |user.rest| else 0) + UserRank(user)
    + 2 * (n - next) + (if open then 1 else 0)
  }

  function Weight(next: int, ready: set<int>, busy: map<int, Phase>, i: int): (w: nat)
  {
    if i >= next then 5
    else if i in ready then 4
    else if i in busy then (match busy[i] case Taken => 3 case Coding => 2 case Coded => 1)
    else 0
  }

  function WorkM(n: nat, next: int, ready: set<int>, busy: map<int, Phase>): (m: nat)
  {
    if n == 0 then 0 else WorkM(n - 1, next, ready, busy) + Weight(next, ready, busy, n - 1)
  }

  lemma {:induction false} WorkDown(n: nat, next: int, ready: set<int>, busy: map<int, Phase>,
                                    next': int, ready': set<int>, busy': map<int, Phase>, i: int)
    requires forall j :: 0 <= j < n ==> Weight(next', ready', busy', j) <= Weight(next, ready, busy, j)
    requires 0 <= i < n ==> Weight(next', ready', busy', i) < Weight(next, ready, busy, i)
    ensures WorkM(n, next', ready', busy') <= WorkM(n, next, ready, busy)
    ensures 0 <= i < n ==> WorkM(n, next', ready', busy') < WorkM(n, next, ready, busy)
    decreases n
  {
    hide Weight;
    if n > 0 {
      WorkDown(n - 1, next, ready, busy, next', ready', busy', i);
    }
  }

  function OutRank(out: Out): (n: nat)
  {
    match out
    case Emit(_) => 5
    case Give(_) => 4
    case Ask => 3
    case Await => 2
    case Check => 1
    case _ => 0
  }

  function OutM(n: int, out: Out, upto: int): (m: int)
  {
    6 * (n - upto) + OutRank(out)
  }

  function CtlM(cfg: Config, mon: nat, spawned: nat, exited: nat, closer: Closer): (m: int)
  {
    6 - mon + cfg.maxWorkers - spawned + cfg.maxWorkers - exited
    + (match closer case Waiting => 2 case Firing => 1 case Fired => 0)
  }

  function Count(cfg: Config, data: seq<byte>): (n: nat)
    requires cfg.size > 0
  {
    |Split(data, cfg.size)|
  }

  function SendM(cfg: Config, data: seq<byte>, sent: seq<byte>): (m: int)
    requires cfg.size > 0
  {
    |SyncFile(cfg, data)| - |sent|
  }

  // Work left for all threads together.
  function Stage(cfg: Config, data: seq<byte>, s: State): (m: int)
    requires cfg.size > 0
  {
    SendM(cfg, data, s.sent) + UserM(Count(cfg, data), s.script, s.user, s.next, s.open)
    + WorkM(Count(cfg, data), s.next, s.inp.ready, s.busy) + OutM(Count(cfg, data), s.out, s.upto)
    + CtlM(cfg, s.mon, Spawned(s), s.exited, s.closer)
  }

  function Sleepers(s: State): (n: nat)
  {
    |s.inp.wrSleep| + s.inp.rdSleep + |s.outp.wrSleep| + s.outp.rdSleep
  }

  // Going to sleep is a step too, so sleepers count as well.
  function Measure(cfg: Config, data: seq<byte>, s: State): (m: int)
    requires cfg.size > 0
  {
    Stage(cfg, data, s) * (cfg.maxWorkers + 3) + cfg.maxWorkers + 2 - Sleepers(s)
  }

  lemma SubsetCard<T>(a: set<T>, b: set<T>)
    requires a <= b
    ensures |a| <= |b|
  {
    var c := b - a;
    assert b == a + c;
  }

  lemma AsleepBound(cfg: Config, data: seq<byte>, s: State)
    requires Inv(cfg, data, s)
    ensures Sleepers(s) <= cfg.maxWorkers + 2
  {
    hide UserInv, CodeInv, SentInv, CloseInv, Conserved, WritersServed, AnyReadersServed, IdxReaderServed, Acquired;
    assert forall i :: i in s.inp.wrSleep ==> i == s.next;
    assert forall i :: i in s.outp.wrSleep ==> i in s.busy.Keys;
    SubsetCard(s.inp.wrSleep, {s.next});
    SubsetCard(s.outp.wrSleep, s.busy.Keys);
    assert |s.busy.Keys| == |s.busy|;
  }

  lemma StageBound(cfg: Config, data: seq<byte>, s: State)
    requires Inv(cfg, data, s)
    ensures Stage(cfg, data, s) >= 0 && s.upto <= s.next <= Count(cfg, data)
  {
    SentWithin(cfg, data, s);
    ChunksFollow(cfg, data, s.script, s.user, s.next, s.open, s.chunks);
    hide UserInv, InputInv, CodeInv, SentInv, CloseInv;
    assert s.upto <= s.next by { hide CapInv; }
    hide OutputInv;
  }

  // The step does some work, or one goroutine goes to sleep and nothing else happens.
  ghost predicate Down(cfg: Config, data: seq<byte>, s: State, t: State)
    requires cfg.size > 0
  {
    Stage(cfg, data, t) < Stage(cfg, data, s)
    || (Stage(cfg, data, t) == Stage(cfg, data, s) && Sleepers(t) == Sleepers(s) + 1)
  }

  lemma UserDown(cfg: Config, data: seq<byte>, s: State, l: Label)
    requires l.UserBegin? || l.UserReturn? || l.UserPut? || l.UserClose? || l.UserClosePool? || l.UserFinish?
    requires Inv(cfg, data, s) && Enabled(cfg, s, l)
    ensures Down(cfg, data, s, Apply(cfg, s, l))
  {
    LengthIs(cfg, data, s);
    hide UserInv, InputInv, OutputInv, CodeInv, SentInv, CloseInv, CapInv, Count, SyncFile, WorkM, OutM, CtlM, UserM;
    var t := Apply(cfg, s, l);
    var n := Count(cfg, data);
    assert UserM(n, t.script, t.user, t.next, t.open) < UserM(n, s.script, s.user, s.next, s.open) by {
      UserMDown(cfg, n, s, l);
    }
    assert t.inp.ready == s.inp.ready && t.busy == s.busy && t.out == s.out && t.upto == s.upto;
    assert t.mon == s.mon && Spawned(t) == Spawned(s) && t.exited == s.exited && t.closer == s.closer;
    assert |t.sent| >= |s.sent|;
    hide Apply, Enabled, Spawned;
  }

  lemma UserMDown(cfg: Config, n: nat, s: State, l: Label)
    requires l.UserBegin? || l.UserReturn? || l.UserPut? || l.UserClose? || l.UserClosePool? || l.UserFinish?
    requires Enabled(cfg, s, l)
    ensures var t := Apply(cfg, s, l);
      UserM(n, t.script, t.user, t.next, t.open) < UserM(n, s.script, s.user, s.next, s.open)
  {
    if l.UserBegin? {
      FlatPop(s.script);
    }
  }

  // The parts of the state that Stage reads, except the workers' share.
  ghost predicate SameButWork(s: State, t: State) {
    && t.sent == s.sent && t.out == s.out && t.upto == s.upto
    && t.mon == s.mon && Spawned(t) == Spawned(s) && t.exited == s.exited && t.closer == s.closer
  }

  lemma WorkDecides(cfg: Config, data: seq<byte>, s: State, t: State)
    requires cfg.size > 0 && SameButWork(s, t)
    requires UserM(Count(cfg, data), t.script, t.user, t.next, t.open)
      + WorkM(Count(cfg, data), t.next, t.inp.ready, t.busy)
      < UserM(Count(cfg, data), s.script, s.user, s.next, s.open)
      + WorkM(Count(cfg, data), s.next, s.inp.ready, s.busy)
    ensures Down(cfg, data, s, t)
  {
    hide Count, SendM, WorkM, OutM, CtlM, UserM, Spawned, Sleepers;
  }

  lemma TakeGotDown(cfg: Config, data: seq<byte>, s: State, pick: int)
    requires cfg.size > 0 && !s.open && WriterOutcome(s.inp, s.next).Got?
    ensures Down(cfg, data, s, AskInput(s, pick))
  {
    hide Count, SendM, WorkM, OutM, CtlM, UserM, Down, Sleepers;
    var n := Count(cfg, data);
    TakeWeights(n, s.next, s.inp.ready, s.busy);
    UserMTake(n, s.script, s.user, s.next);
    WorkDecides(cfg, data, s, AskInput(s, pick));
  }

  lemma TakeSleepDown(cfg: Config, data: seq<byte>, s: State, pick: int)
    requires cfg.size > 0 && s.next !in s.inp.wrSleep && WriterOutcome(s.inp, s.next).Asleep?
    ensures Down(cfg, data, s, AskInput(s, pick))
  {
    hide Count, SendM, WorkM, OutM, CtlM, UserM, Down;
    CardPush(s.inp.wrSleep, s.next);
    SleepDown(cfg, data, s, AskInput(s, pick));
  }

  lemma SleepDown(cfg: Config, data: seq<byte>, s: State, t: State)
    requires cfg.size > 0 && SameButWork(s, t) && Sleepers(t) == Sleepers(s) + 1
    requires t.script == s.script && t.user == s.user && t.next == s.next && t.open == s.open
    requires t.inp.ready == s.inp.ready && t.busy == s.busy
    ensures Down(cfg, data, s, t)
  {
    hide Count, SendM, WorkM, OutM, CtlM, UserM, Spawned, Sleepers;
  }

  lemma UserMTake(n: nat, script: seq<seq<byte>>, user: User, next: nat)
    ensures UserM(n, script, user, next + 1, true) < UserM(n, script, user, next, false)
  {
  }

  lemma TakeWeights(n: nat, next: nat, ready: set<int>, busy: map<int, Phase>)
    ensures WorkM(n, next + 1, ready + {next}, busy) <= WorkM(n, next, ready, busy)
  {
    WorkDown(n, next, ready, busy, next + 1, ready + {next}, busy, next);
  }

  lemma NotRefused(cfg: Config, data: seq<byte>, s: State)
    requires Inv(cfg, data, s)
    ensures s.user.Writing? ==> !s.inp.closed
    ensures s.busy != map[] ==> !s.outp.closed
  {
    hide UserInv, InputInv, OutputInv, CodeInv, SentInv, CapInv;
    if s.busy.Keys == {} {
      assert s.busy == map[];
    }
  }

  lemma FetchDown(cfg: Config, data: seq<byte>, s: State, woken: bool, pick: int)
    requires cfg.size > 0 && (if woken then s.inp.rdWoken > 0 else s.idle > 0) && PopChoice(s.inp.ready, pick)
    requires forall i :: i in s.inp.ready ==> 0 <= i < s.next <= Count(cfg, data) && i !in s.busy
    ensures Down(cfg, data, s, FetchInput(s, woken, pick))
  {
    hide Count, SendM, WorkM, OutM, UserM, CtlM, Down, SameButWork;
    var t := FetchInput(s, woken, pick);
    if TakeAnyOutcome(s.inp).Got? {
      FetchGotDown(cfg, data, s, woken, pick);
    } else if TakeAnyOutcome(s.inp).Asleep? {
      assert SameButWork(s, t) by { FetchSame(s, woken, pick); }
      SleepDown(cfg, data, s, t);
    } else {
      assert SameButWork(s, t.(exited := s.exited, idle := t.idle + 1)) by { FetchSame(s, woken, pick); }
      ExitDown(cfg, data, s, t);
    }
  }

  lemma FetchSame(s: State, woken: bool, pick: int)
    requires if woken then s.inp.rdWoken > 0 else s.idle > 0
    requires PopChoice(s.inp.ready, pick) && (TakeAnyOutcome(s.inp).Got? ==> pick !in s.busy)
    ensures var t := FetchInput(s, woken, pick);
      if TakeAnyOutcome(s.inp).Refused? then SameButWork(s, t.(exited := s.exited, idle := t.idle + 1))
      else SameButWork(s, t)
  {
    if TakeAnyOutcome(s.inp).Got? {
      var busy := s.busy[pick := Taken];
      assert busy.Keys == s.busy.Keys + {pick};
      CardPush(s.busy.Keys, pick);
    }
  }

  lemma FetchGotDown(cfg: Config, data: seq<byte>, s: State, woken: bool, pick: int)
    requires cfg.size > 0 && (if woken then s.inp.rdWoken > 0 else s.idle > 0)
    requires TakeAnyOutcome(s.inp).Got? && pick in s.inp.ready
    requires 0 <= pick < s.next <= Count(cfg, data) && pick !in s.busy
    ensures Down(cfg, data, s, FetchInput(s, woken, pick))
  {
    FetchSame(s, woken, pick);
    hide Count, SendM, WorkM, OutM, UserM, CtlM, Down, SameButWork;
    var busy := s.busy[pick := Taken];
    WorkDown(Count(cfg, data), s.next, s.inp.ready, s.busy, s.next, s.inp.ready - {pick}, busy, pick);
    WorkDecides(cfg, data, s, FetchInput(s, woken, pick));
  }

  lemma ExitDown(cfg: Config, data: seq<byte>, s: State, t: State)
    requires cfg.size > 0 && SameButWork(s, t.(exited := s.exited, idle := t.idle + 1)) && t.exited == s.exited + 1
    requires t.script == s.script && t.user == s.user && t.next == s.next && t.open == s.open
    requires t.inp.ready == s.inp.ready && t.busy == s.busy
    ensures Down(cfg, data, s, t)
  {
    hide Count, SendM, WorkM, OutM, UserM, Sleepers;
  }

  lemma AskOutputDown(cfg: Config, data: seq<byte>, s: State, i: int, pick: int)
    requires cfg.size > 0 && i in s.busy && s.busy[i].Taken? && i !in s.outp.wrSleep
    requires 0 <= i < s.next <= Count(cfg, data) && i !in s.inp.ready
    requires WriterOutcome(s.outp, i).Got? || WriterOutcome(s.outp, i).Asleep?
    ensures Down(cfg, data, s, AskOutput(s, i, pick))
  {
    hide Count, SendM, WorkM, OutM, UserM, CtlM, Down;
    if WriterOutcome(s.outp, i).Got? {
      var busy := s.busy[i := Coding];
      assert busy.Keys == s.busy.Keys;
      WorkDown(Count(cfg, data), s.next, s.inp.ready, s.busy, s.next, s.inp.ready, busy, i);
      WorkDecides(cfg, data, s, AskOutput(s, i, pick));
    } else {
      CardPush(s.outp.wrSleep, i);
      SleepDown(cfg, data, s, AskOutput(s, i, pick));
    }
  }

  lemma CodeDown(cfg: Config, data: seq<byte>, s: State, i: int)
    requires cfg.size > 0 && i in s.busy && s.busy[i].Coding? && 0 <= i < |s.chunks|
    requires 0 <= i < s.next <= Count(cfg, data) && i !in s.inp.ready
    ensures Down(cfg, data, s, s.(busy := s.busy[i := Coded], outs := s.outs[i := cfg.enc(s.chunks[i])]))
  {
    hide Count, SendM, WorkM, OutM, UserM, CtlM;
    var busy := s.busy[i := Coded];
    assert busy.Keys == s.busy.Keys;
    WorkDown(Count(cfg, data), s.next, s.inp.ready, s.busy, s.next, s.inp.ready, busy, i);
  }

  lemma ReturnDown(cfg: Config, data: seq<byte>, s: State, i: int, wake: int)
    requires cfg.size > 0 && i in s.busy && s.busy[i].Coded? && i in s.inp.active
    requires 0 <= i < s.next <= Count(cfg, data) && i !in s.inp.ready
    ensures Down(cfg, data, s, ReturnInput(s, i, wake))
  {
    hide Count, SendM, WorkM, OutM, UserM, CtlM;
    var busy := s.busy - {i};
    assert busy.Keys == s.busy.Keys - {i};
    CardDrop(s.busy.Keys, i);
    WorkDown(Count(cfg, data), s.next, s.inp.ready, s.busy, s.next, s.inp.ready, busy, i);
  }

  lemma WorkerDown(cfg: Config, data: seq<byte>, s: State, l: Label)
    requires l.UserTake? || l.WorkTake? || l.WorkOut? || l.WorkCode? || l.WorkReturn?
    requires Inv(cfg, data, s) && Enabled(cfg, s, l)
    ensures Down(cfg, data, s, Apply(cfg, s, l))
  {
    StageBound(cfg, data, s);
    NotRefused(cfg, data, s);
    hide UserInv, InputInv, OutputInv, CodeInv, SentInv, CloseInv, CapInv, Count, Down,
      AskInput, AskOutput, FetchInput, ReturnInput;
    match l
    case UserTake(pick) =>
      InputTaken(s.next, s.inp, s.busy.Keys, pick);
      if WriterOutcome(s.inp, s.next).Got? {
        TakeGotDown(cfg, data, s, pick);
      } else {
        TakeSleepDown(cfg, data, s, pick);
      }
    case WorkTake(woken, pick) =>
      ReadyBelow(s.next, Asking(s.user, s.open), s.inp, s.busy.Keys);
      FetchDown(cfg, data, s, woken, pick);
    case WorkOut(i, pick) =>
      BusyBelow(s.next, Asking(s.user, s.open), s.inp, s.busy.Keys, i);
      OutputWritten(s.next, s.inp.ready, s.busy, s.outp, s.upto, Current(s.out, s.upto), s.out.Await?, i, pick);
      AskOutputDown(cfg, data, s, i, pick);
    case WorkCode(i) =>
      BusyBelow(s.next, Asking(s.user, s.open), s.inp, s.busy.Keys, i);
      CodeDown(cfg, data, s, i);
    case WorkReturn(i, wake) =>
      BusyBelow(s.next, Asking(s.user, s.open), s.inp, s.busy.Keys, i);
      ReturnDown(cfg, data, s, i, wake);
  }

  // The next pipe comes, the pool is at its end, or the writer routine sleeps.
  lemma LookDown(cfg: Config, data: seq<byte>, s: State, q: Pool, woken: bool)
    requires cfg.size > 0 && (woken ==> q.rdWoken > 0) && (if woken then s.out.Await? && q == s.outp else s.out.Ask?)
    ensures Down(cfg, data, s, Look(s.(outp := q), woken))
  {
    hide Count, SendM, WorkM, UserM, CtlM;
  }

  // The writer routine's own share decides.
  lemma OutDecides(cfg: Config, data: seq<byte>, s: State, t: State)
    requires cfg.size > 0
    requires t.script == s.script && t.user == s.user && t.next == s.next && t.open == s.open
    requires t.inp == s.inp && t.busy == s.busy && t.idle == s.idle && t.exited == s.exited
    requires t.mon == s.mon && t.closer == s.closer
    requires |t.sent| >= |s.sent| && OutRank(t.out) + 6 * s.upto <= OutRank(s.out) + 6 * t.upto
    requires |t.sent| > |s.sent| || OutRank(t.out) + 6 * s.upto < OutRank(s.out) + 6 * t.upto
    ensures Down(cfg, data, s, t)
  {
    hide Count, WorkM, UserM, CtlM, SyncFile, Sleepers, OutRank;
  }

  lemma OutDown(cfg: Config, data: seq<byte>, s: State, l: Label)
    requires l.OutAsk? || l.OutWake? || l.OutEmit? || l.OutFail? || l.OutEnd? || l.OutGive? || l.OutCheck?
    requires cfg.size > 0 && Enabled(cfg, s, l) && !Apply(cfg, s, l).crashed
    ensures Down(cfg, data, s, Apply(cfg, s, l))
  {
    hide Down, Look;
    var t := Apply(cfg, s, l);
    if l.OutAsk? {
      LookDown(cfg, data, s, Announce(s.outp, s.upto), false);
    } else if l.OutWake? {
      LookDown(cfg, data, s, s.outp, true);
    } else {
      OutDecides(cfg, data, s, t);
    }
  }

  lemma CtlDown(cfg: Config, data: seq<byte>, s: State, l: Label)
    requires l.MonStep? || l.CloserWake? || l.CloserFire?
    requires cfg.size > 0 && Enabled(cfg, s, l)
    ensures Down(cfg, data, s, Apply(cfg, s, l))
  {
    hide Down, CtlM, Monitor;
    var t := Apply(cfg, s, l);
    assert CtlM(cfg, t.mon, Spawned(t), t.exited, t.closer) < CtlM(cfg, s.mon, Spawned(s), s.exited, s.closer) by {
      if l.MonStep? { MonDown(cfg, s); } else { CloserDown(cfg, s, l); }
    }
    assert l.MonStep? ==> SameButCtl(s, t) by {
      MonSame(cfg, s);
    }
    CtlDecides(cfg, data, s, t);
  }

  ghost predicate SameButCtl(s: State, t: State) {
    && t.sent == s.sent && t.out == s.out && t.upto == s.upto
    && t.script == s.script && t.user == s.user && t.next == s.next && t.open == s.open
    && t.inp.ready == s.inp.ready && t.busy == s.busy
  }

  lemma CtlDecides(cfg: Config, data: seq<byte>, s: State, t: State)
    requires cfg.size > 0 && SameButCtl(s, t)
    requires CtlM(cfg, t.mon, Spawned(t), t.exited, t.closer) < CtlM(cfg, s.mon, Spawned(s), s.exited, s.closer)
    ensures Down(cfg, data, s, t)
  {
    hide Count, SendM, WorkM, OutM, CtlM, UserM, Spawned, Sleepers;
  }

  lemma MonSame(cfg: Config, s: State)
    ensures SameButCtl(s, Monitor(cfg, s))
  {
  }

  lemma MonDown(cfg: Config, s: State)
    requires s.mon < 6
    ensures var t := Monitor(cfg, s);
      CtlM(cfg, t.mon, Spawned(t), t.exited, t.closer) < CtlM(cfg, s.mon, Spawned(s), s.exited, s.closer)
  {
  }

  lemma CloserDown(cfg: Config, s: State, l: Label)
    requires (l.CloserWake? || l.CloserFire?) && Enabled(cfg, s, l)
    ensures var t := Apply(cfg, s, l);
      CtlM(cfg, t.mon, Spawned(t), t.exited, t.closer) < CtlM(cfg, s.mon, Spawned(s), s.exited, s.closer)
  {
  }

  // Every step, waiting or not, decreases the measure.
  lemma StepDown(cfg: Config, data: seq<byte>, s: State, l: Label)
    requires Inv(cfg, data, s) && Enabled(cfg, s, l)
    ensures 0 <= Measure(cfg, data, Apply(cfg, s, l)) < Measure(cfg, data, s)
  {
    var t := Apply(cfg, s, l);
    StepKeeps(cfg, data, s, l);
    AsleepBound(cfg, data, s);
    AsleepBound(cfg, data, t);
    StageBound(cfg, data, t);
    assert Down(cfg, data, s, t) by {
      hide Inv, Enabled, Apply, Down;
      match l {
        case UserTake(_) => WorkerDown(cfg, data, s, l);
        case WorkTake(_, _) => WorkerDown(cfg, data, s, l);
        case WorkOut(_, _) => WorkerDown(cfg, data, s, l);
        case WorkCode(_) => WorkerDown(cfg, data, s, l);
        case WorkReturn(_, _) => WorkerDown(cfg, data, s, l);
        case MonStep => CtlDown(cfg, data, s, l);
        case CloserWake => CtlDown(cfg, data, s, l);
        case CloserFire => CtlDown(cfg, data, s, l);
        case UserBegin => UserDown(cfg, data, s, l);
        case UserReturn => UserDown(cfg, data, s, l);
        case UserPut => UserDown(cfg, data, s, l);
        case UserClose => UserDown(cfg, data, s, l);
        case UserClosePool => UserDown(cfg, data, s, l);
        case UserFinish => UserDown(cfg, data, s, l);
        case _ => OutDown(cfg, data, s, l);
      }
    }
    hide Inv, Enabled, Apply, Stage, Sleepers;
    Weigh(Stage(cfg, data, s), Stage(cfg, data, t), Sleepers(s), Sleepers(t), cfg.maxWorkers);
  }

  lemma Weigh(a: int, b: int, x: int, y: int, w: nat)
    requires 0 <= b && 0 <= x <= w + 2 && 0 <= y <= w + 2
    requires b < a || (b == a && y == x + 1)
    ensures 0 <= b * (w + 3) + w + 2 - y < a * (w + 3) + w + 2 - x
  {
    if b < a {
      Times(b + 1, a, w + 3);
      assert (b + 1) * (w + 3) == b * (w + 3) + (w + 3);
    }
  }

  lemma Times(a: int, b: int, k: nat)
    requires a <= b
    ensures a * k <= b * k
  {
  }
}
