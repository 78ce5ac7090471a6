/**
 The pipe pool of xz/pool.go as atomic steps on a value. Each function is one critical section:
 from the moment a goroutine holds the mutex until it releases it, by returning or by sleeping
 in Wait. A goroutine that waits to write is named by the index it asks for; goroutines that
 wait to read are only counted. A sleeping goroutine is one that no Signal or Broadcast has
 reached; a woken one still has to take the mutex and look again.
 */
module Pool {

  datatype Pool = Pool(
    len: int, cap: int, closed: bool,
    free: set<int>, ready: set<int>, active: set<int>,
    waitIdx: int,
    wrSleep: set<int>, wrWoken: set<int>,
    rdSleep: nat, rdWoken: nat)

  const NEW := Pool(0, 0, false, {}, {}, {}, -1, {}, {}, 0, 0)

  // ---------- condition variables ----------

  // Signal on wrCond; `wake` is the sleeper it reaches.
  function SignalWriter(p: Pool, wake: int): (q: Pool)
  {
    if wake in p.wrSleep then p.(wrSleep := p.wrSleep - {wake}, wrWoken := p.wrWoken + {wake}) else p
  }

  function WakeWriters(p: Pool): (q: Pool)
  {
    p.(wrSleep := {}, wrWoken := p.wrWoken + p.wrSleep)
  }

  function SignalReader(p: Pool): (q: Pool)
  {
    if p.rdSleep > 0 then p.(rdSleep := p.rdSleep - 1, rdWoken := p.rdWoken + 1) else p
  }

  function WakeReaders(p: Pool): (q: Pool)
  {
    p.(rdSleep := 0, rdWoken := p.rdWoken + p.rdSleep)
  }

  // Signal reaches a sleeper whenever there is one.
  predicate WakeChoice(p: Pool, wake: int) {
    p.wrSleep != {} ==> wake in p.wrSleep
  }

  // ---------- getWriter ----------

  datatype Outcome = Got | Asleep | Refused | Panicked

  predicate WriterMustWait(p: Pool, idx: int) {
    !p.closed && idx != p.waitIdx && p.free == {} && p.len >= p.cap
  }

  function WriterOutcome(p: Pool, idx: int): (o: Outcome)
  {
    if idx < 0 then Panicked
    else if WriterMustWait(p, idx) then Asleep
    else if p.closed then Refused
    else if idx in p.ready then Panicked
    else Got
  }

  predicate PopChoice(free: set<int>, pick: int) {
    free != {} ==> pick in free
  }

  function GetWriter(p: Pool, idx: int, pick: int): (q: Pool)
    requires !WriterOutcome(p, idx).Panicked?
  {
    var w := p.(wrWoken := p.wrWoken - {idx});
    match WriterOutcome(p, idx)
    case Asleep => w.(wrSleep := p.wrSleep + {idx})
    case Refused => w
    case Got =>
      var r := if p.free == {} then w.(len := p.len + 1) else w.(free := p.free - {pick});
      SignalReader(r.(ready := p.ready + {idx}))
  }

  // A duplicate index is a panic, but only after a pipe has been found for it.
  function Leak(p: Pool, idx: int, pick: int): (q: Pool)
  {
    var w := p.(wrWoken := p.wrWoken - {idx});
    if p.free == {} then w.(len := p.len + 1) else w.(free := p.free - {pick})
  }

  // ---------- getReader ----------

  // Any pipe; `woken` says that the caller returns from Wait.
  function TakeAnyOutcome(p: Pool): (o: Outcome)
  {
    if p.ready != {} then Got else if p.closed then Refused else Asleep
  }

  function TakeAny(p: Pool, woken: bool, pick: int): (q: Pool)
    requires woken ==> p.rdWoken > 0
  {
    var r := if woken then p.(rdWoken := p.rdWoken - 1) else p;
    match TakeAnyOutcome(p)
    case Asleep => r.(rdSleep := p.rdSleep + 1)
    case Refused => r
    case Got => r.(ready := p.ready - {pick}, active := p.active + {pick})
  }

  // One given pipe: the first look announces the index, so that its writer may exceed the capacity.
  function Announce(p: Pool, idx: int): (q: Pool)
  {
    WakeWriters(p.(waitIdx := idx))
  }

  function TakeIdxOutcome(p: Pool, idx: int): (o: Outcome)
  {
    if idx in p.ready then Got else if p.closed then Refused else Asleep
  }

  function TakeIdx(p: Pool, idx: int, woken: bool): (q: Pool)
    requires woken ==> p.rdWoken > 0
  {
    var r := if woken then p.(rdWoken := p.rdWoken - 1) else p;
    match TakeIdxOutcome(p, idx)
    case Asleep => r.(rdSleep := p.rdSleep + 1)
    case Refused => r.(waitIdx := -1)
    case Got => r.(waitIdx := -1, ready := p.ready - {idx}, active := p.active + {idx})
  }

  // ---------- restore, setCapacity, close ----------

  function Restore(p: Pool, idx: int, wake: int): (q: Pool)
  {
    var r := p.(active := p.active - {idx});
    if p.cap >= p.len then SignalWriter(r.(free := p.free + {idx}), wake) else r.(len := p.len - 1)
  }

  function SetCapacity(p: Pool, cnt: int): (q: Pool)
  {
    WakeWriters(p.(cap := cnt))
  }

  function Close(p: Pool): (q: Pool)
  {
    WakeReaders(WakeWriters(p.(closed := true)))
  }

  // ---------- what every step keeps ----------

  function Spare(p: Pool): (n: nat)
  {
    if p.cap > p.len then p.cap - p.len else 0
  }

  // What writers may still take without waiting.
  function Room(p: Pool): (n: nat)
  {
    |p.free| + Spare(p)
  }

  // Every pipe is in exactly one set, and all of them are counted.
  ghost predicate Conserved(p: Pool) {
    && p.free !! p.ready && p.free !! p.active && p.ready !! p.active
    && p.len == |p.free| + |p.ready| + |p.active|
  }

  // No wakeup of a writer is lost.
  ghost predicate WritersServed(p: Pool) {
    && p.wrSleep !! p.wrWoken
    && (forall i :: i in p.wrSleep ==> i >= 0)
    && (p.wrSleep != {} ==>
      !p.closed && p.waitIdx !in p.wrSleep && |p.wrWoken| >= Room(p))
  }

  // No wakeup of a reader is lost, when all readers take any pipe.
  predicate AnyReadersServed(p: Pool) {
    p.rdSleep > 0 ==> !p.closed && p.rdWoken >= |p.ready|
  }

  // No wakeup of the reader is lost, when there is one and it asks for a given pipe.
  predicate IdxReaderServed(p: Pool) {
    && p.rdSleep + p.rdWoken <= 1
    && (p.rdSleep > 0 ==> !p.closed && p.waitIdx >= 0 && p.waitIdx !in p.ready)
  }

  // An index that no pipe of the pool bears.
  predicate Fresh(p: Pool, idx: int) {
    idx !in p.free && idx !in p.ready && idx !in p.active
  }

  lemma SomePick(s: set<int>) returns (pick: int)
    ensures s != {} ==> pick in s
  {
    pick := 0;
    if p :| p in s {
      pick := p;
    } else {
      assert forall x :: x !in s;
      assert s == {};
    }
  }

  lemma CardPush<T>(s: set<T>, x: T)
    requires x !in s
    ensures |s + {x}| == |s| + 1
  {
  }

  lemma CardDrop<T>(s: set<T>, x: T)
    ensures x in s ==> |s - {x}| == |s| - 1
    ensures x !in s ==> |s - {x}| == |s|
  {
    if x !in s { assert s - {x} == s; }
  }

  lemma GetWriterConserves(p: Pool, idx: int, pick: int)
    requires !WriterOutcome(p, idx).Panicked? && PopChoice(p.free, pick)
    requires Fresh(p, idx) && Conserved(p)
    ensures Conserved(GetWriter(p, idx, pick))
  {
    if WriterOutcome(p, idx).Got? {
      FreshConserves(p, idx, pick);
    }
  }

  lemma GetWriterRoom(p: Pool, idx: int, pick: int)
    requires WriterOutcome(p, idx).Got? && PopChoice(p.free, pick)
    ensures Room(GetWriter(p, idx, pick)) == if Room(p) > 0 then Room(p) - 1 else 0
  {
    CardDrop(p.free, pick);
    if p.free != {} {
      assert GetWriter(p, idx, pick).free == p.free - {pick};
    }
  }

  // One waiter fewer needs at most one place fewer.
  lemma OneLeaves(p: Pool, q: Pool, idx: int)
    requires WritersServed(p)
    requires q.closed == p.closed && q.waitIdx == p.waitIdx
    requires q.wrSleep == p.wrSleep && q.wrWoken == p.wrWoken - {idx}
    requires Room(q) == if Room(p) > 0 then Room(p) - 1 else 0
    ensures WritersServed(q)
  {
    hide Room;
    CardDrop(p.wrWoken, idx);
  }

  lemma WriterWaits(p: Pool, idx: int, pick: int)
    requires WritersServed(p) && idx !in p.wrSleep
    requires WriterOutcome(p, idx).Asleep? || WriterOutcome(p, idx).Refused?
    ensures WritersServed(GetWriter(p, idx, pick))
  {
    var q := GetWriter(p, idx, pick);
    assert q.wrWoken == p.wrWoken - {idx};
    if WriterOutcome(p, idx).Asleep? {
      assert q.wrSleep == p.wrSleep + {idx} && Room(q) == 0;
    }
  }

  lemma GetWriterServesWriters(p: Pool, idx: int, pick: int)
    requires !WriterOutcome(p, idx).Panicked? && PopChoice(p.free, pick) && idx !in p.wrSleep
    requires WritersServed(p)
    ensures WritersServed(GetWriter(p, idx, pick))
  {
    hide WritersServed, Room;
    if WriterOutcome(p, idx).Got? {
      GetWriterRoom(p, idx, pick);
      OneLeaves(p, GetWriter(p, idx, pick), idx);
    } else {
      WriterWaits(p, idx, pick);
    }
  }

  lemma GetWriterServesReaders(p: Pool, idx: int, pick: int)
    requires !WriterOutcome(p, idx).Panicked?
    ensures AnyReadersServed(p) ==> AnyReadersServed(GetWriter(p, idx, pick))
    ensures IdxReaderServed(p) ==> IdxReaderServed(GetWriter(p, idx, pick))
  {
    if idx !in p.ready { CardPush(p.ready, idx); }
  }

  // A reused index breaks conservation exactly when an idle or an active pipe still bears it.
  lemma ConservedIffFresh(p: Pool, idx: int, pick: int)
    requires WriterOutcome(p, idx).Got? && PopChoice(p.free, pick) && Conserved(p)
    ensures Conserved(GetWriter(p, idx, pick)) <==>
      idx !in p.active && (idx in p.free ==> pick == idx)
  {
    if idx !in p.active && (idx in p.free ==> pick == idx) {
      FreshConserves(p, idx, pick);
    } else {
      ReuseShares(p, idx, pick);
    }
  }

  lemma ReuseShares(p: Pool, idx: int, pick: int)
    requires WriterOutcome(p, idx).Got? && PopChoice(p.free, pick)
    requires idx in p.active || (idx in p.free && pick != idx)
    ensures !Conserved(GetWriter(p, idx, pick))
  {
    var q := GetWriter(p, idx, pick);
    assert idx in q.ready && (idx in q.active || idx in q.free);
  }

  // The pipe found for a duplicate index is lost: it is counted, and in no set.
  lemma LeakLoses(p: Pool, idx: int, pick: int)
    requires idx >= 0 && WriterOutcome(p, idx).Panicked? && PopChoice(p.free, pick) && Conserved(p)
    ensures var q := Leak(p, idx, pick); !Conserved(q) && q.len == |q.free| + |q.ready| + |q.active| + 1
  {
    CardDrop(p.free, pick);
  }

  lemma FreshConserves(p: Pool, idx: int, pick: int)
    requires WriterOutcome(p, idx).Got? && PopChoice(p.free, pick) && Conserved(p)
    requires idx !in p.active && (idx in p.free ==> pick == idx)
    ensures Conserved(GetWriter(p, idx, pick))
  {
    GotPipe(p, idx, pick);
    hide GetWriter, WriterOutcome, WriterMustWait;
    Moved(p.free, p.ready, p.active, idx, pick);
  }

  lemma GotPipe(p: Pool, idx: int, pick: int)
    requires WriterOutcome(p, idx).Got? && PopChoice(p.free, pick)
    ensures var q := GetWriter(p, idx, pick);
      && idx !in p.ready && q.ready == p.ready + {idx} && q.active == p.active && q.free == p.free - {pick}
      && q.len == if p.free == {} then p.len + 1 else p.len
  {
  }

  lemma Moved(free: set<int>, ready: set<int>, active: set<int>, idx: int, pick: int)
    requires free !! ready && free !! active && ready !! active && (free != {} ==> pick in free)
    requires idx !in ready && idx !in active && (idx in free ==> pick == idx)
    ensures free - {pick} !! ready + {idx} && free - {pick} !! active && ready + {idx} !! active
    ensures |free - {pick}| + |ready + {idx}| == |free| + |ready| + if free == {} then 1 else 0
  {
    CardDrop(free, pick);
    CardPush(ready, idx);
  }

  lemma TakeAnyKeeps(p: Pool, woken: bool, pick: int)
    requires woken ==> p.rdWoken > 0
    requires PopChoice(p.ready, pick)
    ensures WritersServed(p) ==> WritersServed(TakeAny(p, woken, pick))
    ensures AnyReadersServed(p) ==> AnyReadersServed(TakeAny(p, woken, pick))
    ensures Conserved(p) ==> Conserved(TakeAny(p, woken, pick))
  {
    CardDrop(p.ready, pick);
    if pick !in p.active { CardPush(p.active, pick); }
  }

  lemma AnnounceKeeps(p: Pool, idx: int)
    ensures WritersServed(Announce(p, idx)) && Announce(p, idx).wrSleep == {}
    ensures Conserved(p) ==> Conserved(Announce(p, idx))
  {
  }

  lemma TakeIdxKeeps(p: Pool, idx: int, woken: bool)
    requires woken ==> p.rdWoken > 0
    requires p.waitIdx == idx >= 0 && IdxReaderServed(p) && p.rdSleep == 0 && (p.rdWoken == if woken then 1 else 0)
    ensures WritersServed(p) ==> WritersServed(TakeIdx(p, idx, woken))
    ensures IdxReaderServed(TakeIdx(p, idx, woken))
    ensures Conserved(p) ==> Conserved(TakeIdx(p, idx, woken))
  {
    CardDrop(p.ready, idx);
    if idx !in p.active { CardPush(p.active, idx); }
  }

  lemma RestoreConserves(p: Pool, idx: int, wake: int)
    requires idx in p.active && Conserved(p)
    ensures Conserved(Restore(p, idx, wake))
  {
    CardDrop(p.active, idx);
    CardPush(p.free, idx);
  }

  lemma RestoreServesWriters(p: Pool, idx: int, wake: int)
    requires WakeChoice(p, wake) && WritersServed(p) && idx !in p.free
    ensures WritersServed(Restore(p, idx, wake))
  {
    CardPush(p.free, idx);
    CardDrop(p.wrSleep, wake);
    if wake in p.wrSleep { CardPush(p.wrWoken, wake); }
  }

  lemma RestoreServesReaders(p: Pool, idx: int, wake: int)
    ensures AnyReadersServed(p) ==> AnyReadersServed(Restore(p, idx, wake))
    ensures IdxReaderServed(p) ==> IdxReaderServed(Restore(p, idx, wake))
  {
  }

  // One ready pipe wakes one reader, if any sleeps, and no more. A pipe is made only when none is free.
  lemma OneReaderPerPipe(p: Pool, idx: int, pick: int)
    requires WriterOutcome(p, idx).Got? && PopChoice(p.free, pick)
    ensures var q := GetWriter(p, idx, pick);
      && p.rdSleep - q.rdSleep == q.rdWoken - p.rdWoken <= 1 && (p.rdSleep > q.rdSleep <==> p.rdSleep > 0)
      && q.wrSleep == p.wrSleep && q.ready - p.ready <= {idx} && idx in q.ready
      && (p.free == {} ==> q.len == p.len + 1) && (p.free != {} ==> q.len == p.len && |q.free| == |p.free| - 1)
  {
    CardDrop(p.free, pick);
  }

  // One freed pipe wakes one writer, if any sleeps, and no more. It is kept for the next writer unless
  // there are more pipes than the capacity allows.
  lemma OneWriterPerPipe(p: Pool, idx: int, wake: int)
    requires idx in p.active && Conserved(p) && WakeChoice(p, wake)
    ensures var q := Restore(p, idx, wake);
      && |p.wrSleep - q.wrSleep| <= 1 && q.wrSleep + q.wrWoken == p.wrSleep + p.wrWoken
      && q.rdSleep == p.rdSleep && q.rdWoken == p.rdWoken
      && (p.len > p.cap ==> q.len == p.len - 1 && q.free == p.free && q.wrSleep == p.wrSleep)
      && (p.len <= p.cap ==> q.len == p.len && q.free == p.free + {idx} && (q.wrSleep == p.wrSleep ==> p.wrSleep == {}))
  {
    assert p.wrSleep - (p.wrSleep - {wake}) <= {wake};
    if wake in p.wrSleep {
      assert p.wrSleep - Restore(p, idx, wake).wrSleep <= {wake};
      SubsetOfOne(p.wrSleep - Restore(p, idx, wake).wrSleep, wake);
    }
  }

  lemma SubsetOfOne(s: set<int>, x: int)
    requires s <= {x}
    ensures |s| <= 1
  {
    assert s == {} || s == {x};
  }

  lemma SetCapacityKeeps(p: Pool, cnt: int)
    ensures WritersServed(SetCapacity(p, cnt))
    ensures AnyReadersServed(p) ==> AnyReadersServed(SetCapacity(p, cnt))
    ensures IdxReaderServed(p) ==> IdxReaderServed(SetCapacity(p, cnt))
    ensures Conserved(p) ==> Conserved(SetCapacity(p, cnt))
  {
  }

  lemma CloseKeeps(p: Pool)
    ensures WritersServed(Close(p)) && AnyReadersServed(Close(p))
    ensures IdxReaderServed(p) ==> IdxReaderServed(Close(p))
    ensures Conserved(p) ==> Conserved(Close(p))
  {
  }
}
