/**
 What every step of the asynchronous Writer keeps. The invariant has seven parts; each names
 only the fields it speaks of, so that a step that leaves them alone keeps it at once.
 */
module PipelineInv {
  import opened Bytes
  import opened Format
  import opened Chunks
  import opened Pool
  import opened Pipeline

  // ---------- the user's side ----------

  ghost function Rest(user: User): (r: seq<byte>)
  {
    if user.Writing? then user.rest else []
  }

  // Chunks are cut as the specification says, and no byte is lost.
  ghost predicate UserInv(cfg: Config, data: seq<byte>, script: seq<seq<byte>>, user: User,
                          next: nat, open: bool, chunks: seq<seq<byte>>)
  {
    && !user.Broken?
    && |chunks| == next
    && (forall i :: 0 <= i < next ==> |chunks[i]| <= cfg.size)
    && (forall i :: 0 <= i < next - 1 ==> |chunks[i]| == cfg.size)
    && (forall i :: 0 <= i < next ==> chunks[i] != [] || (i == next - 1 && open && Rest(user) != []))
    && (open ==> next > 0)
    && ((user.Between? || user.Writing?) && !open && next > 0 ==> |chunks[next - 1]| == cfg.size)
    && (user.Closing? || user.Awaiting? || user.Finished? ==> script == [] && !open)
    && Flat(chunks) + Rest(user) + Flat(script) == data
  }

  lemma UserBegins(cfg: Config, data: seq<byte>, script: seq<seq<byte>>, next: nat, open: bool, chunks: seq<seq<byte>>)
    requires UserInv(cfg, data, script, Between, next, open, chunks) && script != []
    ensures UserInv(cfg, data, script[1..], Writing(script[0]), next, open, chunks)
  {
    FlatPop(script);
    Assoc(Flat(chunks), script[0], Flat(script[1..]));
  }

  lemma UserTakes(cfg: Config, data: seq<byte>, script: seq<seq<byte>>, user: User, next: nat, chunks: seq<seq<byte>>)
    requires UserInv(cfg, data, script, user, next, false, chunks) && user.Writing? && user.rest != []
    ensures UserInv(cfg, data, script, user, next + 1, true, chunks + [[]])
  {
    FlatPush(chunks, []);
  }

  lemma UserPuts(cfg: Config, data: seq<byte>, script: seq<seq<byte>>, user: User, next: nat, chunks: seq<seq<byte>>,
                 n: nat, last: seq<byte>)
    requires UserInv(cfg, data, script, user, next, true, chunks) && user.Writing? && user.rest != [] && cfg.size > 0
    requires n == Min(|user.rest|, cfg.size - |chunks[next - 1]|) && last == chunks[next - 1] + user.rest[..n]
    ensures UserInv(cfg, data, script, Writing(user.rest[n..]), next, n == |user.rest|, chunks[next - 1 := last])
  {
    Refilled(chunks, last);
    Assoc(Flat(chunks[..next - 1]) + chunks[next - 1], user.rest[..n], user.rest[n..]);
    Assoc(Flat(chunks[..next - 1]), chunks[next - 1], user.rest[..n]);
    assert user.rest == user.rest[..n] + user.rest[n..];
    hide Flat;
  }

  // The last chunk is filled up.
  lemma Refilled(chunks: seq<seq<byte>>, last: seq<byte>)
    requires chunks != []
    ensures var k := |chunks| - 1;
      Flat(chunks) == Flat(chunks[..k]) + chunks[k] && Flat(chunks[k := last]) == Flat(chunks[..k]) + last
  {
    var k := |chunks| - 1;
    assert chunks[k := last] == chunks[..k] + [last];
    FlatPush(chunks[..k], last);
  }

  lemma UserReturns(cfg: Config, data: seq<byte>, script: seq<seq<byte>>, next: nat, open: bool, chunks: seq<seq<byte>>)
    requires UserInv(cfg, data, script, Writing([]), next, open, chunks)
    ensures UserInv(cfg, data, script, Between, next, open, chunks)
  {
  }

  lemma UserCloses(cfg: Config, data: seq<byte>, next: nat, open: bool, chunks: seq<seq<byte>>)
    requires UserInv(cfg, data, [], Between, next, open, chunks)
    ensures UserInv(cfg, data, [], Closing, next, false, chunks)
  {
  }

  lemma UserRests(cfg: Config, data: seq<byte>, script: seq<seq<byte>>, user: User, user': User, next: nat, open: bool,
                  chunks: seq<seq<byte>>)
    requires UserInv(cfg, data, script, user, next, open, chunks)
    requires (user.Closing? && user'.Awaiting?) || (user.Awaiting? && user'.Finished?)
    ensures UserInv(cfg, data, script, user', next, open, chunks)
  {
  }

  // ---------- the input pool ----------

  // The user is in Write, needs a pipe and has none.
  ghost predicate Asking(user: User, open: bool) {
    user.Writing? && user.rest != [] && !open
  }

  ghost predicate InputInv(next: nat, asking: bool, p: Pool, held: set<int>)
  {
    && p.active == held
    && (forall i :: i in p.ready ==> 0 <= i < next && i !in held)
    && (forall i :: i in p.free ==> 0 <= i < next && i !in held)
    && (forall i :: i in held ==> 0 <= i < next)
    && (forall i :: i in p.wrSleep || i in p.wrWoken ==> i == next && asking)
    && p.waitIdx == -1 && p.len <= p.cap
    && Conserved(p) && WritersServed(p) && AnyReadersServed(p)
  }

  lemma InputTaken(next: nat, p: Pool, held: set<int>, pick: int)
    requires InputInv(next, true, p, held) && next !in p.wrSleep && PopChoice(p.free, pick)
    ensures !WriterOutcome(p, next).Panicked?
    ensures InputInv(if WriterOutcome(p, next).Got? then next + 1 else next, !WriterOutcome(p, next).Got?,
                     GetWriter(p, next, pick), held)
  {
    hide Conserved, WritersServed, AnyReadersServed, Room;
    GetWriterConserves(p, next, pick);
    GetWriterServesWriters(p, next, pick);
    GetWriterServesReaders(p, next, pick);
  }

  lemma InputAsks(next: nat, p: Pool, held: set<int>, asking: bool)
    requires InputInv(next, false, p, held)
    ensures InputInv(next, asking, p, held)
  {
  }

  lemma InputRead(next: nat, asking: bool, p: Pool, held: set<int>, woken: bool, pick: int)
    requires InputInv(next, asking, p, held) && (woken ==> p.rdWoken > 0) && PopChoice(p.ready, pick)
    ensures InputInv(next, asking, TakeAny(p, woken, pick), if TakeAnyOutcome(p).Got? then held + {pick} else held)
  {
    hide Conserved, WritersServed, AnyReadersServed, Room;
    TakeAnyKeeps(p, woken, pick);
  }

  lemma InputRestored(next: nat, asking: bool, p: Pool, held: set<int>, i: int, wake: int)
    requires InputInv(next, asking, p, held) && i in held && WakeChoice(p, wake)
    ensures InputInv(next, asking, Restore(p, i, wake), held - {i})
  {
    hide Conserved, WritersServed, AnyReadersServed, Room;
    RestoreConserves(p, i, wake);
    RestoreServesWriters(p, i, wake);
    RestoreServesReaders(p, i, wake);
  }

  lemma InputResized(next: nat, asking: bool, p: Pool, held: set<int>, cnt: int)
    requires InputInv(next, asking, p, held) && p.cap <= cnt
    ensures InputInv(next, asking, SetCapacity(p, cnt), held)
  {
    hide Conserved, WritersServed, AnyReadersServed, Room;
    SetCapacityKeeps(p, cnt);
  }

  lemma InputClosed(next: nat, p: Pool, held: set<int>)
    requires InputInv(next, false, p, held)
    ensures InputInv(next, false, Close(p), held)
  {
    hide Conserved, WritersServed, AnyReadersServed, Room;
    CloseKeeps(p);
  }

  lemma ReadyBelow(next: nat, asking: bool, p: Pool, held: set<int>)
    requires InputInv(next, asking, p, held)
    ensures forall i :: i in p.ready ==> 0 <= i < next && i !in held
  {
  }

  lemma BusyBelow(next: nat, asking: bool, p: Pool, held: set<int>, i: int)
    requires InputInv(next, asking, p, held) && i in held
    ensures 0 <= i < next && i !in p.ready && i in p.active
  {
  }

  // ---------- the output pool ----------

  // Chunk i has been given an output pipe.
  ghost predicate Acquired(next: nat, ready: set<int>, busy: map<int, Phase>, i: int) {
    0 <= i < next && i !in ready && !(i in busy && busy[i].Taken?)
  }

  ghost function Current(out: Out, upto: nat): (c: set<int>)
  {
    if out.Emit? || out.Give? then {upto - 1} else {}
  }

  ghost predicate OutputInv(next: nat, ready: set<int>, busy: map<int, Phase>, q: Pool, upto: nat, cur: set<int>,
                            waits: bool)
  {
    && upto <= next
    && (forall i :: 0 <= i < upto ==> Acquired(next, ready, busy, i))
    && (forall i :: i in q.ready <==> Acquired(next, ready, busy, i) && upto <= i)
    && q.active == cur
    && (forall i :: i in q.free || i in cur ==> 0 <= i < upto)
    && (forall i :: i in q.free ==> i !in cur)
    && (forall i :: i in q.wrSleep || i in q.wrWoken ==> i in busy && busy[i].Taken?)
    && q.waitIdx == (if waits then upto else -1)
    && q.rdSleep + q.rdWoken == (if waits then 1 else 0)
    && Conserved(q) && WritersServed(q) && IdxReaderServed(q)
    && q.len <= q.cap + 1
    && (q.len == q.cap + 1 ==> (waits && upto in q.ready) || cur != {})
    && (waits ==> cur == {})
  }

  // Steps that give out no output pipe.
  lemma OutputSame(next: nat, ready: set<int>, busy: map<int, Phase>,
                   next': nat, ready': set<int>, busy': map<int, Phase>,
                   q: Pool, upto: nat, cur: set<int>, waits: bool)
    requires OutputInv(next, ready, busy, q, upto, cur, waits) && next <= next'
    requires forall i :: Acquired(next, ready, busy, i) <==> Acquired(next', ready', busy', i)
    requires forall i :: i in busy && busy[i].Taken? && i in q.wrSleep + q.wrWoken ==> i in busy' && busy'[i].Taken?
    ensures OutputInv(next', ready', busy', q, upto, cur, waits)
  {
    hide Acquired, Conserved, WritersServed, IdxReaderServed;
  }

  lemma OutputWritten(next: nat, ready: set<int>, busy: map<int, Phase>, q: Pool, upto: nat, cur: set<int>, waits: bool,
                      i: int, pick: int)
    requires OutputInv(next, ready, busy, q, upto, cur, waits) && !q.closed
    requires i in busy && busy[i].Taken? && 0 <= i < next && i !in ready && i !in q.wrSleep && PopChoice(q.free, pick)
    ensures WriterOutcome(q, i).Got? || WriterOutcome(q, i).Asleep?
    ensures OutputInv(next, ready, if WriterOutcome(q, i).Got? then busy[i := Coding] else busy,
                      GetWriter(q, i, pick), upto, cur, waits)
  {
    hide Conserved, WritersServed, IdxReaderServed, Room;
    assert !Acquired(next, ready, busy, i);
    assert i >= upto && i !in q.ready && i !in q.free && i !in cur;
    GetWriterConserves(q, i, pick);
    GetWriterServesWriters(q, i, pick);
    GetWriterServesReaders(q, i, pick);
    if WriterOutcome(q, i).Got? {
      OutputGot(next, ready, busy, q, upto, cur, waits, i, pick);
    }
  }

  lemma OutputGot(next: nat, ready: set<int>, busy: map<int, Phase>, q: Pool, upto: nat, cur: set<int>, waits: bool,
                  i: int, pick: int)
    requires OutputInv(next, ready, busy, q, upto, cur, waits) && WriterOutcome(q, i).Got?
    requires i in busy && busy[i].Taken? && 0 <= i < next && i !in ready && i !in q.wrSleep && PopChoice(q.free, pick)
    requires upto <= i && Conserved(GetWriter(q, i, pick)) && WritersServed(GetWriter(q, i, pick))
    requires IdxReaderServed(GetWriter(q, i, pick))
    ensures OutputInv(next, ready, busy[i := Coding], GetWriter(q, i, pick), upto, cur, waits)
  {
    hide Conserved, WritersServed, IdxReaderServed, Room;
    var busy' := busy[i := Coding];
    assert forall j :: j != i ==> (Acquired(next, ready, busy', j) <==> Acquired(next, ready, busy, j));
    assert Acquired(next, ready, busy', i) && !Acquired(next, ready, busy, i);
  }

  lemma SameHealth(q: Pool, n: nat)
    ensures Conserved(q.(rdWoken := n)) <==> Conserved(q)
    ensures WritersServed(q.(rdWoken := n)) <==> WritersServed(q)
  {
  }

  lemma OutputAnnounced(next: nat, ready: set<int>, busy: map<int, Phase>, q: Pool, upto: nat)
    requires OutputInv(next, ready, busy, q, upto, {}, false)
    ensures OutputLooked(next, ready, busy, Announce(q, upto), upto, false)
  {
    hide Acquired, Conserved, WritersServed, Room;
    AnnounceKeeps(q, upto);
    SameHealth(Announce(q, upto), 1);
  }

  // The writer routine holds the mutex and is about to look for pipe upto.
  ghost predicate OutputLooked(next: nat, ready: set<int>, busy: map<int, Phase>, q: Pool, upto: nat, woken: bool)
  {
    && q.rdWoken == (if woken then 1 else 0)
    && q.rdSleep == 0
    && OutputInv(next, ready, busy, q.(rdWoken := 1), upto, {}, true)
  }

  lemma OutputLook(next: nat, ready: set<int>, busy: map<int, Phase>, q: Pool, upto: nat, woken: bool)
    requires OutputLooked(next, ready, busy, q, upto, woken)
    ensures TakeIdxOutcome(q, upto).Got? ==> upto < next
    ensures TakeIdxOutcome(q, upto).Got? ==>
      OutputInv(next, ready, busy, TakeIdx(q, upto, woken), upto + 1, {upto}, false)
    ensures TakeIdxOutcome(q, upto).Refused? ==> OutputInv(next, ready, busy, TakeIdx(q, upto, woken), upto, {}, false)
    ensures TakeIdxOutcome(q, upto).Asleep? ==> OutputInv(next, ready, busy, TakeIdx(q, upto, woken), upto, {}, true)
  {
    LookHealthy(next, ready, busy, q, upto, woken);
    if TakeIdxOutcome(q, upto).Got? {
      LookGot(next, ready, busy, q, upto, woken);
    } else {
      LookNone(next, ready, busy, q, upto, woken);
    }
    hide OutputInv, OutputLooked, TakeIdx, Healthy;
  }

  ghost predicate Healthy(q: Pool) {
    Conserved(q) && WritersServed(q) && IdxReaderServed(q)
  }

  lemma LookHealthy(next: nat, ready: set<int>, busy: map<int, Phase>, q: Pool, upto: nat, woken: bool)
    requires OutputLooked(next, ready, busy, q, upto, woken)
    ensures Healthy(TakeIdx(q, upto, woken))
  {
    hide Conserved, WritersServed, Room, Acquired, TakeIdx;
    SameHealth(q, 1);
    TakeIdxKeeps(q, upto, woken);
  }

  lemma LookGot(next: nat, ready: set<int>, busy: map<int, Phase>, q: Pool, upto: nat, woken: bool)
    requires OutputLooked(next, ready, busy, q, upto, woken) && upto in q.ready && Healthy(TakeIdx(q, upto, woken))
    ensures upto < next && OutputInv(next, ready, busy, TakeIdx(q, upto, woken), upto + 1, {upto}, false)
  {
    hide Conserved, WritersServed, IdxReaderServed, Room;
    assert Acquired(next, ready, busy, upto);
    assert upto < next;
    hide Acquired;
  }

  lemma LookNone(next: nat, ready: set<int>, busy: map<int, Phase>, q: Pool, upto: nat, woken: bool)
    requires OutputLooked(next, ready, busy, q, upto, woken) && upto !in q.ready && Healthy(TakeIdx(q, upto, woken))
    ensures OutputInv(next, ready, busy, TakeIdx(q, upto, woken), upto, {}, TakeIdxOutcome(q, upto).Asleep?)
  {
    hide Conserved, WritersServed, IdxReaderServed, Room, Acquired;
  }

  lemma OutputGiven(next: nat, ready: set<int>, busy: map<int, Phase>, q: Pool, upto: nat, i: int, wake: int)
    requires OutputInv(next, ready, busy, q, upto, {i}, false) && WakeChoice(q, wake)
    ensures OutputInv(next, ready, busy, Restore(q, i, wake), upto, {}, false)
  {
    hide Conserved, WritersServed, IdxReaderServed, Room, Acquired;
    RestoreConserves(q, i, wake);
    RestoreServesWriters(q, i, wake);
    RestoreServesReaders(q, i, wake);
  }

  lemma OutputResized(next: nat, ready: set<int>, busy: map<int, Phase>, q: Pool, upto: nat, cur: set<int>,
                      waits: bool, cnt: int)
    requires OutputInv(next, ready, busy, q, upto, cur, waits) && q.cap <= cnt
    ensures OutputInv(next, ready, busy, SetCapacity(q, cnt), upto, cur, waits)
  {
    hide Conserved, WritersServed, IdxReaderServed, Room, Acquired;
    SetCapacityKeeps(q, cnt);
  }

  lemma OutputClosed(next: nat, ready: set<int>, busy: map<int, Phase>, q: Pool, upto: nat, cur: set<int>, waits: bool)
    requires OutputInv(next, ready, busy, q, upto, cur, waits)
    ensures OutputInv(next, ready, busy, Close(q), upto, cur, waits)
  {
    hide Conserved, WritersServed, IdxReaderServed, Room, Acquired;
    CloseKeeps(q);
  }

  lemma SameAcquired(next: nat, ready: set<int>, busy: map<int, Phase>, ready': set<int>, busy': map<int, Phase>,
                     i: int)
    requires i in ready && i !in busy && ready' == ready - {i} && busy' == busy[i := Taken]
    ensures forall j :: Acquired(next, ready, busy, j) <==> Acquired(next, ready', busy', j)
    ensures forall j :: Encoded(next, ready, busy, j) <==> Encoded(next, ready', busy', j)
  {
  }

  // When pipe upto is refused, every chunk has been written.
  lemma AllTaken(next: nat, ready: set<int>, busy: map<int, Phase>, q: Pool, upto: nat, woken: bool)
    requires OutputLooked(next, ready, busy, q, upto, woken) && upto !in q.ready
    requires ready == {} && busy.Keys == {}
    ensures upto == next
  {
    assert upto < next ==> Acquired(next, ready, busy, upto);
  }

  lemma WaitIdxIs(next: nat, ready: set<int>, busy: map<int, Phase>, q: Pool, upto: nat)
    requires OutputInv(next, ready, busy, q, upto, {}, false)
    ensures q.waitIdx == -1
  {
  }

  lemma OutputWoken(next: nat, ready: set<int>, busy: map<int, Phase>, q: Pool, upto: nat)
    requires OutputInv(next, ready, busy, q, upto, {}, true) && q.rdWoken > 0
    ensures OutputLooked(next, ready, busy, q, upto, true)
  {
    hide Acquired, Conserved, WritersServed;
    assert q.(rdWoken := 1) == q;
  }

  lemma ActiveIs(next: nat, ready: set<int>, busy: map<int, Phase>, q: Pool, upto: nat, cur: set<int>, waits: bool)
    requires OutputInv(next, ready, busy, q, upto, cur, waits)
    ensures q.active == cur
  {
  }

  lemma NoneReady(next: nat, ready: set<int>, busy: map<int, Phase>, q: Pool)
    requires OutputInv(next, ready, busy, q, next, {}, false)
    ensures q.ready == {}
  {
    hide Conserved, WritersServed, IdxReaderServed;
    assert forall i :: i !in q.ready;
  }

  // ---------- encoded blocks ----------

  // The worker of chunk i is done encoding.
  ghost predicate Encoded(next: nat, ready: set<int>, busy: map<int, Phase>, i: int) {
    Acquired(next, ready, busy, i) && !(i in busy && busy[i].Coding?)
  }

  ghost predicate CodeInv(cfg: Config, next: nat, ready: set<int>, busy: map<int, Phase>, outs: map<int, Block>,
                          chunks: seq<seq<byte>>, open: bool)
  {
    && |chunks| == next
    && (forall i :: i in outs <==> Encoded(next, ready, busy, i))
    && (forall i :: i in outs ==> Complete(chunks, open, i) && outs[i] == cfg.enc(chunks[i]))
  }

  // Chunks may be added, and the open one may grow or be closed.
  ghost predicate Grows(chunks: seq<seq<byte>>, open: bool, chunks': seq<seq<byte>>, open': bool)
  {
    && |chunks| <= |chunks'|
    && (forall i :: Complete(chunks, open, i) ==> Complete(chunks', open', i) && chunks'[i] == chunks[i])
  }

  lemma CodeGrows(cfg: Config, next: nat, ready: set<int>, busy: map<int, Phase>, outs: map<int, Block>,
                  chunks: seq<seq<byte>>, open: bool, ready': set<int>, chunks': seq<seq<byte>>, open': bool)
    requires CodeInv(cfg, next, ready, busy, outs, chunks, open) && Grows(chunks, open, chunks', open')
    requires forall i :: 0 <= i < next ==> (i in ready' <==> i in ready)
    requires forall i :: next <= i < |chunks'| ==> i in ready'
    ensures CodeInv(cfg, |chunks'|, ready', busy, outs, chunks', open')
  {
    assert forall i :: Encoded(next, ready, busy, i) <==> Encoded(|chunks'|, ready', busy, i);
  }

  lemma CodeSame(cfg: Config, next: nat, ready: set<int>, busy: map<int, Phase>, outs: map<int, Block>,
                 chunks: seq<seq<byte>>, open: bool, ready': set<int>, busy': map<int, Phase>)
    requires CodeInv(cfg, next, ready, busy, outs, chunks, open)
    requires forall i :: Encoded(next, ready, busy, i) <==> Encoded(next, ready', busy', i)
    ensures CodeInv(cfg, next, ready', busy', outs, chunks, open)
  {
  }

  lemma CodeCodes(cfg: Config, next: nat, ready: set<int>, busy: map<int, Phase>, outs: map<int, Block>,
                  chunks: seq<seq<byte>>, open: bool, i: int)
    requires CodeInv(cfg, next, ready, busy, outs, chunks, open)
    requires i in busy && busy[i].Coding? && 0 <= i < next && i !in ready && Complete(chunks, open, i)
    ensures CodeInv(cfg, next, ready, busy[i := Coded], outs[i := cfg.enc(chunks[i])], chunks, open)
  {
    var busy' := busy[i := Coded];
    assert forall j :: j != i ==> (Encoded(next, ready, busy, j) <==> Encoded(next, ready, busy', j));
    assert Encoded(next, ready, busy', i);
  }

  lemma ChunksTaken(chunks: seq<seq<byte>>)
    ensures Grows(chunks, false, chunks + [[]], true)
  {
  }

  // ---------- what the writer routine has sent ----------

  // Blocks of the first n chunks behind the stream header.
  ghost function Sent(cfg: Config, chunks: seq<seq<byte>>, n: int): (all: seq<byte>)
    requires 0 <= n <= |chunks|
  {
    cfg.header + BlockBytes(cfg, chunks[..n])
  }

  ghost function Listed(cfg: Config, chunks: seq<seq<byte>>, n: int): (rs: seq<Record>)
    requires 0 <= n <= |chunks|
  {
    Records(cfg, chunks[..n])
  }

  // Chunks whose blocks are known to be encoded.
  ghost function Settled(out: Out, upto: nat): (n: int)
  {
    match out
    case Emit(off) => if off == 0 then upto - 1 else upto
    case _ => upto
  }

  ghost predicate SentInv(cfg: Config, chunks: seq<seq<byte>>, open: bool, outs: map<int, Block>, out: Out, upto: nat,
                          index: seq<Record>, sent: seq<byte>, finished: bool)
  {
    && 0 <= upto <= |chunks| && (out.Emit? || out.Give? ==> upto > 0)
    && (forall i :: i in outs ==> Complete(chunks, open, i) && outs[i] == cfg.enc(chunks[i]))
    && (forall i :: 0 <= i < Settled(out, upto) ==> i in outs)
    && (match out
        case Emit(off) =>
          && index == Listed(cfg, chunks, upto - 1)
          && off <= |cfg.enc(chunks[upto - 1]).bytes|
          && sent == Sent(cfg, chunks, upto - 1) + cfg.enc(chunks[upto - 1]).bytes[..off]
        case Give(bad) =>
          && index == Listed(cfg, chunks, upto - 1)
          && (if bad then sent <= Sent(cfg, chunks, upto) else sent == Sent(cfg, chunks, upto))
        case Failed => index == Listed(cfg, chunks, upto) && sent <= Sent(cfg, chunks, upto)
        case _ => index == Listed(cfg, chunks, upto)
                  && sent == Sent(cfg, chunks, upto) + (if finished then cfg.trailer(index) else []))
  }

  lemma SentNext(cfg: Config, chunks: seq<seq<byte>>, n: int)
    requires 0 <= n < |chunks|
    ensures Sent(cfg, chunks, n + 1) == Sent(cfg, chunks, n) + cfg.enc(chunks[n]).bytes
    ensures Listed(cfg, chunks, n + 1) == Listed(cfg, chunks, n) + [cfg.enc(chunks[n]).rec]
  {
    assert chunks[..n + 1][..n] == chunks[..n];
    Assoc(cfg.header, BlockBytes(cfg, chunks[..n]), cfg.enc(chunks[n]).bytes);
  }

  lemma SentGrows(cfg: Config, chunks: seq<seq<byte>>, open: bool, chunks': seq<seq<byte>>, open': bool,
                  outs: map<int, Block>, out: Out, upto: nat, index: seq<Record>, sent: seq<byte>, finished: bool)
    requires SentInv(cfg, chunks, open, outs, out, upto, index, sent, finished) && Grows(chunks, open, chunks', open')
    ensures SentInv(cfg, chunks', open', outs, out, upto, index, sent, finished)
  {
    hide BlockBytes, Records;
    var k := Settled(out, upto);
    assert forall i :: 0 <= i < k ==> chunks'[i] == chunks[i] by {
      assert forall i :: 0 <= i < k ==> Complete(chunks, open, i);
    }
    assert chunks'[..k] == chunks[..k];
    if out.Emit? && out.off > 0 {
      assert chunks'[..upto - 1] == chunks[..upto - 1];
    }
    if out.Give? {
      assert chunks'[..upto - 1] == chunks[..upto - 1];
    }
  }

  lemma SentEmits(cfg: Config, chunks: seq<seq<byte>>, open: bool, outs: map<int, Block>, off: nat, n: nat, upto: nat,
                  index: seq<Record>, sent: seq<byte>)
    requires SentInv(cfg, chunks, open, outs, Emit(off), upto, index, sent, false)
    requires upto - 1 in outs && off + n <= |outs[upto - 1].bytes|
    ensures SentInv(cfg, chunks, open, outs, Emit(off + n), upto, index,
                    sent + outs[upto - 1].bytes[off..off + n], false)
    ensures SentInv(cfg, chunks, open, outs, Give(true), upto, index,
                    sent + outs[upto - 1].bytes[off..off + n], false)
    ensures off == |outs[upto - 1].bytes| ==> SentInv(cfg, chunks, open, outs, Give(false), upto, index, sent, false)
  {
    hide BlockBytes, Records, Sent, Listed;
    var b := outs[upto - 1].bytes;
    assert b[..off] + b[off..off + n] == b[..off + n];
    assert b == b[..off + n] + b[off + n..];
    SentNext(cfg, chunks, upto - 1);
    var now := sent + b[off..off + n];
    assert now == Sent(cfg, chunks, upto - 1) + b[..off + n];
    assert now <= Sent(cfg, chunks, upto);
  }

  lemma SentGiven(cfg: Config, chunks: seq<seq<byte>>, open: bool, outs: map<int, Block>, bad: bool, upto: nat,
                  index: seq<Record>, sent: seq<byte>)
    requires SentInv(cfg, chunks, open, outs, Give(bad), upto, index, sent, false)
    ensures SentInv(cfg, chunks, open, outs, if bad then Failed else Ask, upto,
                    index + [cfg.enc(chunks[upto - 1]).rec], sent, false)
  {
    SentNext(cfg, chunks, upto - 1);
  }

  lemma SentLooks(cfg: Config, chunks: seq<seq<byte>>, open: bool, outs: map<int, Block>, out: Out, upto: nat,
                  index: seq<Record>, sent: seq<byte>)
    requires SentInv(cfg, chunks, open, outs, out, upto, index, sent, false) && (out.Ask? || out.Await?)
    requires upto < |chunks|
    ensures SentInv(cfg, chunks, open, outs, Emit(0), upto + 1, index, sent, false)
  {
  }

  lemma SentWaits(cfg: Config, chunks: seq<seq<byte>>, open: bool, outs: map<int, Block>, out: Out, out': Out,
                  upto: nat, index: seq<Record>, sent: seq<byte>)
    requires SentInv(cfg, chunks, open, outs, out, upto, index, sent, false) && (out.Ask? || out.Await?)
    requires out'.Await? || out'.Check?
    ensures SentInv(cfg, chunks, open, outs, out', upto, index, sent, false)
  {
  }

  lemma SentCodes(cfg: Config, chunks: seq<seq<byte>>, open: bool, outs: map<int, Block>, i: int, out: Out, upto: nat,
                  index: seq<Record>, sent: seq<byte>, finished: bool)
    requires SentInv(cfg, chunks, open, outs, out, upto, index, sent, finished) && Complete(chunks, open, i)
    ensures SentInv(cfg, chunks, open, outs[i := cfg.enc(chunks[i])], out, upto, index, sent, finished)
  {
  }

  lemma SentChecks(cfg: Config, chunks: seq<seq<byte>>, open: bool, outs: map<int, Block>, upto: nat,
                   index: seq<Record>, sent: seq<byte>, finished: bool)
    requires SentInv(cfg, chunks, open, outs, Check, upto, index, sent, finished)
    ensures SentInv(cfg, chunks, open, outs, Done, upto, index, sent, finished)
  {
  }

  lemma SentFinished(cfg: Config, chunks: seq<seq<byte>>, open: bool, outs: map<int, Block>, upto: nat,
                     index: seq<Record>, sent: seq<byte>)
    requires SentInv(cfg, chunks, open, outs, Done, upto, index, sent, false)
    ensures SentInv(cfg, chunks, open, outs, Done, upto, index, sent + cfg.trailer(index), true)
  {
  }

  lemma OutsAre(cfg: Config, chunks: seq<seq<byte>>, open: bool, outs: map<int, Block>, out: Out, upto: nat,
                index: seq<Record>, sent: seq<byte>, finished: bool)
    requires SentInv(cfg, chunks, open, outs, out, upto, index, sent, finished)
    ensures forall i :: i in outs ==> 0 <= i < |chunks| && outs[i] == cfg.enc(chunks[i])
  {
  }

  // ---------- shutdown ----------

  ghost predicate CloseInv(user: User, inClosed: bool, ready: set<int>, held: set<int>, exited: nat, closer: Closer,
                           outClosed: bool, out: Out, upto: nat, next: nat)
  {
    && (inClosed <==> user.Awaiting? || user.Finished?)
    && (exited > 0 ==> inClosed && ready == {})
    && (!closer.Waiting? ==> inClosed && ready == {} && held == {})
    && (outClosed <==> closer.Fired?)
    && (out.Check? || out.Done? ==> outClosed && upto == next)
    && (user.Finished? ==> out.Done?)
  }

  lemma CloseSends(user: User, inClosed: bool, ready: set<int>, held: set<int>, exited: nat, closer: Closer,
                   outClosed: bool, out: Out, out': Out, upto: nat, next: nat)
    requires CloseInv(user, inClosed, ready, held, exited, closer, outClosed, out, upto, next)
    requires out.Emit? && (out'.Emit? || out'.Give?)
    ensures CloseInv(user, inClosed, ready, held, exited, closer, outClosed, out', upto, next) && !user.Finished?
  {
  }

  // ---------- capacities, workers and the monitor's progress ----------

  ghost predicate CapInv(cfg: Config, mon: nat, spawned: nat, inCap: int, outCap: int)
  {
    && mon <= 6 && cfg.maxWorkers > 0
    && inCap == (if mon == 0 then 0 else if mon <= 3 then 1 else cfg.maxWorkers)
    && outCap == (if mon <= 1 then 0 else if mon <= 4 then 1 else cfg.maxWorkers)
    && (mon <= 1 ==> spawned == 0)
    && (mon == 2 ==> spawned <= 1)
    && (3 <= mon <= 4 ==> spawned == 1)
    && (mon == 5 ==> 1 <= spawned <= cfg.maxWorkers)
    && (mon == 6 ==> spawned == cfg.maxWorkers)
  }

  // ---------- the whole ----------

  ghost predicate Inv(cfg: Config, data: seq<byte>, s: State) {
    && GoodConfig(cfg) && !s.crashed
    && UserInv(cfg, data, s.script, s.user, s.next, s.open, s.chunks)
    && InputInv(s.next, Asking(s.user, s.open), s.inp, s.busy.Keys)
    && OutputInv(s.next, s.inp.ready, s.busy, s.outp, s.upto, Current(s.out, s.upto), s.out.Await?)
    && CodeInv(cfg, s.next, s.inp.ready, s.busy, s.outs, s.chunks, s.open)
    && SentInv(cfg, s.chunks, s.open, s.outs, s.out, s.upto, s.index, s.sent, s.user.Finished?)
    && CloseInv(s.user, s.inp.closed, s.inp.ready, s.busy.Keys, s.exited, s.closer, s.outp.closed, s.out, s.upto,
                s.next)
    && CapInv(cfg, s.mon, Spawned(s), s.inp.cap, s.outp.cap)
  }

  lemma LengthIs(cfg: Config, data: seq<byte>, s: State)
    requires Inv(cfg, data, s)
    ensures |s.chunks| == s.next && (s.open ==> s.next > 0)
    ensures forall i :: i in s.inp.ready ==> 0 <= i < s.next
  {
  }

  lemma NewPools()
    ensures InputInv(0, false, NEW, {})
    ensures OutputInv(0, {}, map[], NEW, 0, {}, false)
  {
  }

  lemma InitInv(cfg: Config, script: seq<seq<byte>>)
    requires GoodConfig(cfg)
    ensures Inv(cfg, Flat(script), Init(cfg, script))
  {
    NewPools();
    hide InputInv, OutputInv;
    var s := Init(cfg, script);
    assert s.chunks[..0] == [];
    assert Flat([]) + [] + Flat(script) == Flat(script);
  }
}
