/**
 The pool of xz/pool.go as the object it is: maps of pipes that are updated in place under a
 mutex. Each method is one critical section, and its contract is the step of module Pool on the
 indices, plus what happens to the pipes themselves.
 */
module PipePools {
  import opened Bytes
  import opened Pool
  import Steps = Pool

  datatype Mode = LineMono | LineDual

  // A pipe with its buffer: `size` bytes of `store` are in use as its capacity.
  class Pipe<D> {
    var store: array<byte>
    var size: nat
    var mode: Mode
    var count: nat
    var closed: bool
    var idx: int
    var data: D

    constructor (store: array<byte>, mode: Mode, idx: int, data: D)
      ensures this.store == store && size == store.Length && this.mode == mode && count == 0 && !closed
      ensures this.idx == idx && this.data == data
    {
      this.store, size, this.mode, count, closed := store, store.Length, mode, 0, false;
      this.idx, this.data := idx, data;
    }
  }

  class PipePool<D> {
    var len: int
    var cap: int
    var closed: bool
    var free: map<int, Pipe<D>>
    var ready: map<int, Pipe<D>>
    var active: map<int, Pipe<D>>
    var waitIdx: int
    var wrWaitCnt: int
    var rdWaitCnt: int
    // the notify lists of wrCond and rdCond, and who has left them without having run yet
    var wrSleep: set<int>
    var wrWoken: set<int>
    var rdSleep: nat
    var rdWoken: nat

    // Pipes are filed under their own index, and no pipe is in two sets. Two pipes may bear one
    // index; Pool.ConservedIffFresh says what that breaks.
    ghost predicate Filed()
      reads this, free.Values, ready.Values, active.Values
    {
      && (forall k :: k in free ==> free[k].idx == k)
      && (forall k :: k in ready ==> ready[k].idx == k)
      && (forall k :: k in active ==> active[k].idx == k)
      && (forall k :: k in free && k in ready ==> free[k] != ready[k])
      && (forall k :: k in free && k in active ==> free[k] != active[k])
      && (forall k :: k in ready && k in active ==> ready[k] != active[k])
    }

    // The pipe is in no set.
    ghost predicate Loose(p: Pipe<D>)
      reads this, p
    {
      && (p.idx in free ==> free[p.idx] != p)
      && (p.idx in ready ==> ready[p.idx] != p)
      && (p.idx in active ==> active[p.idx] != p)
    }

    // The wait counters count the waiters.
    ghost predicate Counted()
      reads this
    {
      && wrSleep !! wrWoken
      && wrWaitCnt == |wrSleep| + |wrWoken|
      && rdWaitCnt == rdSleep + rdWoken
    }

    ghost predicate Valid()
      reads this, free.Values, ready.Values, active.Values
    {
      Filed() && Counted()
    }

    ghost function View(): (p: Pool)
      reads this
    {
      Pool(len, cap, closed, free.Keys, ready.Keys, active.Keys, waitIdx, wrSleep, wrWoken, rdSleep, rdWoken)
    }

    constructor ()
      ensures Valid() && View() == NEW
    {
      len, cap, closed := 0, 0, false;
      free, ready, active := map[], map[], map[];
      waitIdx, wrWaitCnt, rdWaitCnt := -1, 0, 0;
      wrSleep, wrWoken, rdSleep, rdWoken := {}, {}, 0, 0;
    }

    // pipeSet.pop: map iteration yields some pipe, which leaves the set.
    static method Pop(m: map<int, Pipe<D>>) returns (p: Pipe?<D>, rest: map<int, Pipe<D>>)
      requires forall k :: k in m ==> m[k].idx == k
      ensures if m == map[] then p == null && rest == m
        else p != null && p.idx in m && m[p.idx] == p && rest == m - {p.idx}
    {
      p, rest := null, m;
      if |m| > 0 {
        assert m.Keys != {};
        ghost var some := SomePick(m.Keys);
        var k :| k in m.Keys;
        p, rest := m[k], m - {k};
      }
    }

    static ghost predicate Clean(p: Pipe<D>, idx: int, size: nat, mode: Mode, data: D)
      reads p
    {
      && p.idx == idx && p.data == data && p.size == size && p.mode == mode && p.count == 0 && !p.closed
      && size <= p.store.Length
    }

    static ghost function Obtained(p: Pool, pick: int): (q: Pool)
    {
      p.(len := if p.free == {} then p.len + 1 else p.len, free := p.free - {pick})
    }

    // The pipe is one of the free ones, with its storage if that is large enough, or a new one.
    static twostate predicate Supplied(was: map<int, Pipe<D>>, pick: int, new p: Pipe<D>, size: nat)
      reads p
    {
      if was == map[] then fresh(p)
      else pick in was && p == was[pick] && (size <= old(p.store.Length) ==> p.store == old(p.store))
    }

    method Obtain(idx: int, size: nat, mode: Mode, data: D) returns (p: Pipe<D>, ghost pick: int)
      requires Valid()
      modifies this`free, this`len, free.Values
      ensures Valid() && PopChoice(old(free).Keys, pick) && View() == Obtained(old(View()), pick)
      ensures Clean(p, idx, size, mode, data) && Supplied(old(free), pick, p, size) && free == old(free) - {pick}
      ensures Loose(p)
    {
      pick := 0;
      assert free == map[] <==> free.Keys == {};
      var found, rest := Pop(free);
      free := rest;
      if found == null {
        var store := new byte[size];
        p := new Pipe(store, mode, idx, data);
        len := len + 1;
        assert free == map[] && free - {pick} == free;
      } else {
        p := found;
        pick := p.idx;
        Reuse(p, idx, size, mode, data);
      }
    }

    static method Reuse(p: Pipe<D>, idx: int, size: nat, mode: Mode, data: D)
      modifies p
      ensures Clean(p, idx, size, mode, data)
      ensures size <= old(p.store.Length) ==> p.store == old(p.store)
    {
      if p.store.Length < size {
        p.store := new byte[size];
      }
      p.size, p.mode := size, mode;
      p.count, p.closed := 0, false;
      p.idx, p.data := idx, data;
    }

    // The caller, if it waited, is no longer on the list.
    method LeaveWr(idx: int)
      requires Valid()
      modifies this`wrWoken, this`wrWaitCnt
      ensures View() == old(View()).(wrWoken := old(wrWoken) - {idx}) && Valid()
    {
      CardDrop(wrWoken, idx);
      if idx in wrWoken {
        wrWoken, wrWaitCnt := wrWoken - {idx}, wrWaitCnt - 1;
      } else {
        assert wrWoken == wrWoken - {idx};
      }
    }

    method SleepWr(idx: int)
      requires Valid() && idx !in wrSleep && WriterOutcome(View(), idx).Asleep?
      modifies this`wrSleep, this`wrWoken, this`wrWaitCnt
      ensures Valid() && View() == GetWriter(old(View()), idx, 0)
    {
      LeaveWr(idx);
      CardPush(wrSleep, idx);
      wrSleep, wrWaitCnt := wrSleep + {idx}, wrWaitCnt + 1;
    }

    // ready.push(p), then rdCond.Signal()
    method Push(p: Pipe<D>)
      requires Valid() && Loose(p) && p.idx !in ready
      modifies this`ready, this`rdSleep, this`rdWoken
      ensures Valid() && ready == old(ready)[p.idx := p]
      ensures View() == SignalReader(old(View()).(ready := old(ready).Keys + {p.idx}))
    {
      ready := ready[p.idx := p];
      SignalRd();
    }

    static lemma RefusedIs(p: Pool, idx: int)
      requires WriterOutcome(p, idx).Refused?
      ensures GetWriter(p, idx, 0) == p.(wrWoken := p.wrWoken - {idx})
    {
    }

    // getWriter on a pool that has room: find a pipe, leave the wait list, push.
    static lemma AdmitIs(p: Pool, idx: int, pick: int)
      ensures var q := Obtained(p, pick);
        && (WriterOutcome(p, idx).Got? ==>
          GetWriter(p, idx, pick) == SignalReader(q.(wrWoken := q.wrWoken - {idx}, ready := q.ready + {idx})))
        && Leak(p, idx, pick) == q.(wrWoken := q.wrWoken - {idx})
        && q.ready == p.ready && q.wrWoken == p.wrWoken
    {
      assert p.free == {} ==> p.free - {pick} == p.free;
    }

    // A pipe is found, and the caller leaves the wait list.
    method Find(idx: int, size: nat, mode: Mode, data: D) returns (p: Pipe<D>, ghost pick: int)
      requires Valid()
      modifies this`free, this`len, this`wrWoken, this`wrWaitCnt, free.Values
      ensures Valid() && PopChoice(old(free).Keys, pick) && View() == Leak(old(View()), idx, pick)
      ensures Clean(p, idx, size, mode, data) && Supplied(old(free), pick, p, size)
      ensures Loose(p) && free == old(free) - {pick}
    {
      hide Filed, Counted, Supplied, PopChoice, Leak, Obtained, GetWriter, SignalReader, WriterOutcome;
      ghost var was := View();
      p, pick := Obtain(idx, size, mode, data);
      AdmitIs(was, idx, pick);
      LeaveWr(idx);
    }

    // The part of getWriter between taking the mutex and releasing it, at the call or when Wait
    // returns. A duplicate index is found out when a pipe has been taken for it already.
    method GetWriterStep(idx: int, size: nat, mode: Mode, data: D)
      returns (o: Outcome, p: Pipe?<D>, ghost pick: int)
      requires Valid() && idx !in wrSleep
      modifies this, free.Values
      ensures Valid() && o == WriterOutcome(old(View()), idx)
      ensures !o.Panicked? ==> View() == GetWriter(old(View()), idx, pick)
      ensures o.Panicked? ==> View() == if idx < 0 then old(View()) else Leak(old(View()), idx, pick)
      ensures p == null <==> !o.Got?
      ensures o.Got? || (o.Panicked? && idx >= 0) ==> PopChoice(old(free).Keys, pick) && free == old(free) - {pick}
      ensures o.Got? ==>
        Clean(p, idx, size, mode, data) && Supplied(old(free), pick, p, size) && ready == old(ready)[idx := p]
      ensures o.Asleep? || o.Refused? ==> free == old(free)
      ensures !o.Got? ==> ready == old(ready)
      ensures active == old(active)
    {
      hide Filed, Counted, Supplied, Clean, PopChoice, GetWriter, Leak, Obtained, SignalReader;
      p, pick := null, 0;
      assert |free| == 0 <==> free.Keys == {};
      if idx < 0 {
        o := Panicked;
      } else if !closed && idx != waitIdx && |free| == 0 && len >= cap {
        SleepWr(idx);
        o := Asleep;
      } else if closed {
        RefusedIs(View(), idx);
        LeaveWr(idx);
        o := Refused;
      } else {
        o, p, pick := Admit(idx, size, mode, data);
      }
    }

    // A pipe is found and pushed, unless one with this index is ready already.
    method Admit(idx: int, size: nat, mode: Mode, data: D) returns (o: Outcome, p: Pipe?<D>, ghost pick: int)
      requires Valid() && idx >= 0 && !closed && !WriterMustWait(View(), idx)
      modifies this`free, this`len, this`wrWoken, this`wrWaitCnt, this`ready, this`rdSleep, this`rdWoken, free.Values
      ensures Valid() && o == WriterOutcome(old(View()), idx) && (o.Got? || o.Panicked?) && (p == null <==> o.Panicked?)
      ensures o.Got? ==> View() == GetWriter(old(View()), idx, pick)
      ensures o.Panicked? ==> View() == Leak(old(View()), idx, pick) && ready == old(ready)
      ensures PopChoice(old(free).Keys, pick) && free == old(free) - {pick}
      ensures o.Got? ==>
        Clean(p, idx, size, mode, data) && Supplied(old(free), pick, p, size) && ready == old(ready)[idx := p]
    {
      hide Filed, Counted, Supplied, PopChoice, GetWriter, SignalReader, Leak, Obtained;
      ghost var was := View();
      var found;
      found, pick := Find(idx, size, mode, data);
      AdmitIs(was, idx, pick);
      if idx in ready {
        o, p := Panicked, null;
      } else {
        o, p := Got, found;
        Push(found);
      }
    }

    // rdCond.Signal()
    method SignalRd()
      modifies this`rdSleep, this`rdWoken
      ensures rdSleep == SignalReader(old(View())).rdSleep && rdWoken == SignalReader(old(View())).rdWoken
    {
      if rdSleep > 0 { rdSleep, rdWoken := rdSleep - 1, rdWoken + 1; }
    }

    // wrCond.Broadcast()
    method BroadcastWr()
      requires wrSleep !! wrWoken
      modifies this`wrSleep, this`wrWoken
      ensures wrSleep == {} && wrWoken == old(wrWoken + wrSleep) && |wrWoken| == old(|wrSleep| + |wrWoken|)
    {
      wrSleep, wrWoken := {}, wrWoken + wrSleep;
    }

    // waitIdx = idx, then wrCond.Broadcast()
    method Announce(idx: int)
      requires Valid()
      modifies this`waitIdx, this`wrSleep, this`wrWoken
      ensures Valid() && View() == Steps.Announce(old(View()), idx)
    {
      waitIdx := idx;
      BroadcastWr();
    }

    // The reader leaves the list it waited on.
    method LeaveRd(first: bool)
      requires Valid() && (!first ==> rdWoken > 0)
      modifies this`rdWoken, this`rdWaitCnt
      ensures Valid() && rdWoken == if first then old(rdWoken) else old(rdWoken) - 1
    {
      if !first {
        rdWoken, rdWaitCnt := rdWoken - 1, rdWaitCnt - 1;
      }
    }

    method SleepRd()
      requires Valid()
      modifies this`rdSleep, this`rdWaitCnt
      ensures Valid() && rdSleep == old(rdSleep) + 1
    {
      rdSleep, rdWaitCnt := rdSleep + 1, rdWaitCnt + 1;
    }

    // A ready pipe becomes active.
    method MakeActive(p: Pipe<D>, rest: map<int, Pipe<D>>)
      requires Valid() && p.idx in ready && ready[p.idx] == p && rest == ready - {p.idx}
      modifies this`ready, this`active
      ensures Valid() && ready == rest && active == old(active)[p.idx := p]
      ensures ready.Keys == old(ready).Keys - {p.idx} && active.Keys == old(active).Keys + {p.idx}
    {
      ready := rest;
      active := active[p.idx := p];
    }

    // The part of getReader(idx), idx < 0, between taking the mutex and releasing it.
    method TakeAnyStep(first: bool) returns (o: Outcome, p: Pipe?<D>, ghost pick: int)
      requires Valid() && (!first ==> rdWoken > 0)
      modifies this
      ensures o == TakeAnyOutcome(old(View())) && PopChoice(old(ready).Keys, pick)
      ensures Valid() && View() == TakeAny(old(View()), !first, pick)
      ensures p == null <==> !o.Got?
      ensures o.Got? ==> p == old(ready[pick]) && active == old(active)[pick := p] && ready == old(ready) - {pick}
      ensures !o.Got? ==> active == old(active) && ready == old(ready)
      ensures free == old(free)
    {
      p, pick := null, 0;
      LeaveRd(first);
      assert |ready| == 0 <==> ready.Keys == {};
      if !closed && |ready| == 0 {
        SleepRd();
        o := Asleep;
      } else {
        o := Refused;
        var found, rest := Pop(ready);
        if found != null {
          p, pick, o := found, found.idx, Got;
          MakeActive(found, rest);
        }
      }
    }

    // The part of getReader(idx), idx >= 0, between taking the mutex and releasing it; `first`
    // at the call, where an index that is already awaited is a panic.
    method TakeIdxStep(idx: int, first: bool) returns (o: Outcome, p: Pipe?<D>)
      requires Valid() && idx >= 0 && (!first ==> rdWoken > 0)
      modifies this
      ensures o.Panicked? <==> first && old(waitIdx) >= 0
      ensures !o.Panicked? ==>
        var was := if first then Steps.Announce(old(View()), idx) else old(View());
        Valid() && o == TakeIdxOutcome(was, idx) && View() == TakeIdx(was, idx, !first)
      ensures p == null <==> !o.Got?
      ensures o.Got? ==> idx in old(ready) && p == old(ready[idx])
      ensures o.Got? ==> active == old(active)[idx := p] && ready == old(ready) - {idx}
      ensures !o.Got? ==> active == old(active) && ready == old(ready)
      ensures free == old(free)
    {
      hide Filed, Counted;
      p := null;
      if first && waitIdx >= 0 { return Panicked, null; }
      if first { Announce(idx); }
      LeaveRd(first);
      if !closed && idx !in ready {
        SleepRd();
        o := Asleep;
      } else {
        o := Refused;
        if idx in ready {
          p, o := ready[idx], Got;
          OwnIndex(idx);
          MakeActive(p, ready - {p.idx});
        }
        Settle();
      }
    }

    lemma OwnIndex(idx: int)
      requires Valid() && idx in ready
      ensures ready[idx].idx == idx
    {
    }

    // The awaited index is answered.
    method Settle()
      requires Valid()
      modifies this`waitIdx
      ensures Valid() && waitIdx == -1
    {
      waitIdx := -1;
    }

    // wrCond.Signal()
    method SignalWr() returns (ghost wake: int)
      requires Counted()
      modifies this`wrSleep, this`wrWoken
      ensures Counted() && WakeChoice(old(View()), wake) && View() == SignalWriter(old(View()), wake)
    {
      wake := SomePick(wrSleep);
      if wrSleep != {} {
        var w :| w in wrSleep;
        wake := w;
        CardDrop(wrSleep, w);
        CardPush(wrWoken, w);
        wrSleep, wrWoken := wrSleep - {w}, wrWoken + {w};
      }
    }

    // restore panics unless there is an active pipe with this pipe's index.
    method Restore(p: Pipe?<D>) returns (ok: bool, ghost wake: int)
      requires Valid()
      modifies this, p
      ensures ok <==> p != null && p.idx in old(active)
      ensures ok ==> p.closed && p.idx == old(p.idx) && p.store == old(p.store) && p.size == old(p.size)
      ensures ok ==> WakeChoice(old(View()), wake) && View() == Steps.Restore(old(View()), p.idx, wake)
      ensures ok ==> free == if old(cap) >= old(len) then old(free)[p.idx := p] else old(free)
      ensures ok ==> active == old(active) - {p.idx} && ready == old(ready)
      ensures ok ==> Counted() && (!(p.idx in ready && ready[p.idx] == p) ==> Valid())
      ensures !ok ==> unchanged(this) && (p != null ==> unchanged(p))
    {
      wake := SomePick(wrSleep);
      if p == null || p.idx !in active { return false, wake; }
      active := active - {p.idx};
      p.closed := true;
      if cap >= len {
        free := free[p.idx := p];
        wake := SignalWr();
      } else {
        len := len - 1;
      }
      ok := true;
    }

    method SetCapacity(cnt: int)
      requires Valid()
      modifies this
      ensures Valid() && View() == Steps.SetCapacity(old(View()), cnt)
      ensures free == old(free) && ready == old(ready) && active == old(active)
    {
      cap := cnt;
      BroadcastWr();
    }

    method Close()
      requires Valid()
      modifies this
      ensures Valid() && View() == Steps.Close(old(View()))
      ensures free == old(free) && ready == old(ready) && active == old(active)
    {
      closed := true;
      BroadcastWr();
      rdSleep, rdWoken := 0, rdWoken + rdSleep;
    }

    // The counters that getStats reports are the numbers of waiting goroutines.
    method GetStats() returns (writers: int, readers: int)
      requires Valid()
      ensures writers == |View().wrSleep| + |View().wrWoken| && readers == View().rdSleep + View().rdWoken
    {
      return wrWaitCnt, rdWaitCnt;
    }
  }
}
