/** The send queue of one session: `SBuf` coalesces the Bufs given to `send` into batches. */
module SendQueue {
  import opened Options
  import opened Seqs

  /** `SBuf` seen from outside: the current batch and the number of batches handed out and not yet returned. */
  datatype Queue<T> = Queue(cur: seq<T>, popCnt: int)

  predicate IsSending<T>(q: Queue<T>) { q.popCnt > 0 }

  predicate HasToSend<T>(q: Queue<T>) { !IsSending(q) && q.cur != [] }

  /** `push(Buf&)`: an empty Buf is accepted and ignored. */
  function Push<T>(q: Queue<T>, b: Option<T>): Queue<T> {
    q.(cur := q.cur + AsSeq(b))
  }

  /** `pop()`: hand the current batch out when nothing is in flight, or when it is full. */
  function Pop<T>(cap: nat, q: Queue<T>): (Queue<T>, Option<seq<T>>) {
    if q.cur == [] then (q, None)
    else if !IsSending(q) || |q.cur| == cap then (Queue([], q.popCnt + 1), Some(q.cur))
    else (q, None)
  }

  /** `push(SOV*)`: a batch comes back. */
  function Return<T>(q: Queue<T>): Queue<T> {
    q.(popCnt := q.popCnt - 1)
  }

  function Flatten<T>(bs: seq<seq<T>>): seq<T> {
    if bs == [] then [] else Flatten(bs[..|bs| - 1]) + bs[|bs| - 1]
  }

  lemma FlattenSnoc<T>(bs: seq<seq<T>>, b: seq<T>)
    ensures Flatten(bs + [b]) == Flatten(bs) + b
  {
    assert (bs + [b])[..|bs|] == bs;
  }

  /** One push and pop neither loses, repeats nor reorders a Buf, and leaves room for the next push. */
  lemma PushPopKeepsOrder<T>(cap: nat, q: Queue<T>, b: Option<T>, popped: seq<seq<T>>)
    requires |q.cur| < cap
    ensures var (q', batch) := Pop(cap, Push(q, b));
            && Flatten(popped + AsSeq(batch)) + q'.cur == (Flatten(popped) + q.cur) + AsSeq(b)
            && |q'.cur| < cap
            && (batch.Some? ==> batch.value != [])
  {
    var (q', batch) := Pop(cap, Push(q, b));
    AppendAssoc(Flatten(popped), q.cur, AsSeq(b));
    match batch {
      case None => assert popped + AsSeq(batch) == popped;
      case Some(x) =>
        FlattenSnoc(popped, x);
        AppendNil(Flatten(popped) + x);
    }
  }

  /** There is something to send exactly when a flush would hand a batch out. */
  lemma FlushDue<T>(cap: nat, q: Queue<T>)
    requires |q.cur| < cap
    ensures HasToSend(q) <==> Pop(cap, Push(q, None)).1.Some?
  {
    AppendNil(q.cur);
  }

  // ---- how many batches can be in flight at once

  /** What happens to the queue: the locked section of `send`, or a batch coming back. */
  datatype Event<T> = Send(b: Option<T>) | Back

  /** The queue, and since it last started sending: batches popped, and Bufs pushed after the first of them. */
  datatype Busy<T> = Busy(q: Queue<T>, pops: nat, after: nat)

  function BusyStep<T>(cap: nat, s: Busy<T>, e: Event<T>): Busy<T> {
    match e
    case Back => s.(q := Return(s.q))
    case Send(b) =>
      var (q, batch) := Pop(cap, Push(s.q, b));
      if !IsSending(s.q) then Busy(q, if batch.Some? then 1 else 0, 0)
      else Busy(q, s.pops + |AsSeq(batch)|, s.after + |AsSeq(b)|)
  }

  /** Batches come back at most once each. */
  predicate CanHappen<T>(cap: nat, s: Busy<T>, es: seq<Event<T>>)
    decreases |es|
  {
    es == [] || ((es[0].Back? ==> IsSending(s.q)) && CanHappen(cap, BusyStep(cap, s, es[0]), es[1..]))
  }

  function BusyRun<T>(cap: nat, s: Busy<T>, es: seq<Event<T>>): Busy<T>
    decreases |es|
  {
    if es == [] then s else BusyRun(cap, BusyStep(cap, s, es[0]), es[1..])
  }

  ghost predicate BusyInv<T>(cap: nat, s: Busy<T>) {
    && 0 <= s.q.popCnt && |s.q.cur| < cap
    && (IsSending(s.q) ==> s.q.popCnt <= s.pops && s.after == (s.pops - 1) * cap + |s.q.cur|)
  }

  lemma BusyStepKeeps<T>(cap: nat, s: Busy<T>, e: Event<T>)
    requires BusyInv(cap, s) && (e.Back? ==> IsSending(s.q))
    ensures BusyInv(cap, BusyStep(cap, s, e))
  {
    if e.Send? && IsSending(s.q) && |Push(s.q, e.b).cur| == cap {
      assert (s.pops - 1) * cap + cap == s.pops * cap;
    }
  }

  /** Within a busy period a further batch needs a full array of new Bufs. */
  lemma {:induction false} InFlightBound<T>(cap: nat, s: Busy<T>, es: seq<Event<T>>)
    requires cap >= 1 && BusyInv(cap, s) && CanHappen(cap, s, es)
    ensures var s' := BusyRun(cap, s, es);
            BusyInv(cap, s') && (IsSending(s'.q) ==> s'.q.popCnt <= 1 + s'.after / cap)
    decreases |es|
  {
    if es != [] {
      BusyStepKeeps(cap, s, es[0]);
      InFlightBound(cap, BusyStep(cap, s, es[0]), es[1..]);
    } else if IsSending(s.q) {
      DivOfMultiple(s.pops - 1, cap, |s.q.cur|);
    }
  }

  lemma DivOfMultiple(n: int, d: int, r: int)
    requires d >= 1 && 0 <= r < d
    ensures (n * d + r) / d == n
  {
    var q, m := (n * d + r) / d, (n * d + r) % d;
    var k := q - n;
    assert d * k == d * q - n * d;
    assert d * k == r - m;
    assert k >= 1 ==> d * k >= d;
    assert k <= -1 ==> d * k <= -d;
  }

  // ---- the pool of batches

  /** The pool's counters and the queue of every session, live or not. */
  datatype Ledger<T> = Ledger(total: nat, free: nat, sessions: seq<Option<Queue<T>>>)

  datatype LedgerOp<T> =
    | OpenSession(i: nat) | SessionSend(i: nat, b: Option<T>) | SessionBack(i: nat) | CloseSession(i: nat)

  /** `SOVPool::pop`: take a free batch, or create `step` of them first. */
  function Take<T>(step: nat, l: Ledger<T>): Ledger<T> {
    if l.free > 0 then l.(free := l.free - 1)
    else if step > 0 then l.(total := l.total + step, free := step - 1)
    else l
  }

  /** Which call a session may make: `uninit` comes when nothing is in flight. */
  predicate LedgerEnabled<T>(l: Ledger<T>, o: LedgerOp<T>) {
    && o.i < |l.sessions|
    && match o
       case OpenSession(i) => l.sessions[i].None?
       case SessionSend(i, _) => l.sessions[i].Some?
       case SessionBack(i) => l.sessions[i].Some? && IsSending(l.sessions[i].value)
       case CloseSession(i) => l.sessions[i].Some? && !IsSending(l.sessions[i].value)
  }

  function LedgerDo<T>(cap: nat, step: nat, l: Ledger<T>, o: LedgerOp<T>): Ledger<T>
    requires LedgerEnabled(l, o)
  {
    match o
    case OpenSession(i) => Take(step, l).(sessions := l.sessions[i := Some(Queue([], 0))])
    case SessionSend(i, b) =>
      var (q, batch) := Pop(cap, Push(l.sessions[i].value, b));
      (if batch.Some? then Take(step, l) else l).(sessions := l.sessions[i := Some(q)])
    case SessionBack(i) => l.(free := l.free + 1, sessions := l.sessions[i := Some(Return(l.sessions[i].value))])
    case CloseSession(i) => l.(free := l.free + 1, sessions := l.sessions[i := None])
  }

  /** A live session owns its current batch and every batch in flight. */
  function Owned<T>(q: Option<Queue<T>>): int { if q.Some? then 1 + q.value.popCnt else 0 }

  function OwnedAll<T>(ss: seq<Option<Queue<T>>>): int {
    if ss == [] then 0 else OwnedAll(ss[..|ss| - 1]) + Owned(ss[|ss| - 1])
  }

  lemma {:induction false} OwnedUpdate<T>(ss: seq<Option<Queue<T>>>, i: nat, q: Option<Queue<T>>)
    requires i < |ss|
    ensures OwnedAll(ss[i := q]) == OwnedAll(ss) - Owned(ss[i]) + Owned(q)
  {
    var n := |ss| - 1;
    if i == n {
      assert ss[i := q][..n] == ss[..n];
    } else {
      assert ss[i := q][..n] == ss[..n][i := q];
      OwnedUpdate(ss[..n], i, q);
    }
  }

  ghost predicate Balanced<T>(l: Ledger<T>) {
    && l.total == l.free + OwnedAll(l.sessions)
    && forall i :: 0 <= i < |l.sessions| && l.sessions[i].Some? ==> l.sessions[i].value.popCnt >= 0
  }

  /** Every call, on any session, keeps total = free + what the live sessions own; batches are made only when one is
      wanted and none is free, and then a step of them. */
  lemma LedgerBalances<T>(cap: nat, step: nat, l: Ledger<T>, o: LedgerOp<T>)
    requires step >= 1 && Balanced(l) && LedgerEnabled(l, o)
    ensures var l' := LedgerDo(cap, step, l, o);
            && Balanced(l')
            && l'.total == l.total + (if l.free == 0 && OwnedAll(l'.sessions) > OwnedAll(l.sessions) then step else 0)
  {
    var l' := LedgerDo(cap, step, l, o);
    OwnedUpdate(l.sessions, o.i, l'.sessions[o.i]);
  }

  /** After `SOVPool::init`, with room for `n` sessions. */
  function LedgerInit<T>(init: nat, n: nat): Ledger<T> { Ledger(init, init, seq(n, i => None)) }

  predicate LedgerCanRun<T>(cap: nat, step: nat, l: Ledger<T>, os: seq<LedgerOp<T>>)
    decreases |os|
  {
    os == [] || (LedgerEnabled(l, os[0]) && LedgerCanRun(cap, step, LedgerDo(cap, step, l, os[0]), os[1..]))
  }

  function LedgerRun<T>(cap: nat, step: nat, l: Ledger<T>, os: seq<LedgerOp<T>>): Ledger<T>
    requires LedgerCanRun(cap, step, l, os)
    decreases |os|
  {
    if os == [] then l else LedgerRun(cap, step, LedgerDo(cap, step, l, os[0]), os[1..])
  }

  lemma {:induction false} RunBalances<T>(cap: nat, step: nat, l: Ledger<T>, os: seq<LedgerOp<T>>)
    requires step >= 1 && Balanced(l) && LedgerCanRun(cap, step, l, os)
    ensures Balanced(LedgerRun(cap, step, l, os))
    decreases |os|
  {
    if os != [] {
      LedgerBalances(cap, step, l, os[0]);
      RunBalances(cap, step, LedgerDo(cap, step, l, os[0]), os[1..]);
    }
  }

  lemma {:induction false} NothingOwned<T>(ss: seq<Option<Queue<T>>>)
    requires forall i :: 0 <= i < |ss| ==> ss[i].None?
    ensures OwnedAll(ss) == 0
  {
    if ss != [] { NothingOwned(ss[..|ss| - 1]); }
  }

  /** From `init` on, whatever any number of sessions do, batches in total = free + (1 + pop count) over the live
      ones. */
  lemma LedgerAlwaysBalances<T>(cap: nat, step: nat, init: nat, n: nat, os: seq<LedgerOp<T>>)
    requires step >= 1 && LedgerCanRun(cap, step, LedgerInit(init, n), os)
    ensures Balanced(LedgerRun(cap, step, LedgerInit(init, n), os))
  {
    NothingOwned(LedgerInit<T>(init, n).sessions);
    RunBalances(cap, step, LedgerInit(init, n), os);
  }

  // ---- the objects

  /** `BufArray`: a fixed-capacity array of Bufs to send, filled at `next`. */
  class BufArray<T(0)> {
    const capacity: nat
    const slots: array<T>
    var next: nat

    ghost predicate Valid()
      reads this
    {
      slots.Length == capacity && next <= capacity
    }

    ghost function Contents(): seq<T>
      reads this, slots
      requires Valid()
    {
      slots[..next]
    }

    /** `reserve` */
    constructor (size: nat)
      ensures Valid() && fresh(slots) && capacity == size && Contents() == []
    {
      capacity := size;
      slots := new T[size];
      next := 0;
    }

    method IsFull() returns (r: bool)
      requires Valid()
      ensures r == (|Contents()| == capacity)
    {
      r := capacity == next;
    }

    method Empty() returns (r: bool)
      requires Valid()
      ensures r == (Contents() == [])
    {
      r := next == 0;
    }

    /** `push_back`; `ok` is false where the source throws. */
    method PushBack(x: T) returns (ok: bool)
      requires Valid()
      modifies this, slots
      ensures Valid()
      ensures ok == (|old(Contents())| < capacity)
      ensures Contents() == if ok then old(Contents()) + [x] else old(Contents())
    {
      var full := IsFull();
      if full { return false; }
      slots[next] := x;
      next := next + 1;
      ok := true;
    }

    /** `clear`: every slot is released once, in order. */
    method Clear() returns (released: seq<T>)
      requires Valid()
      modifies this
      ensures Valid() && Contents() == []
      ensures released == old(Contents())
    {
      released := [];
      for i := 0 to next
        invariant released == slots[..i]
        invariant next == old(next)
      {
        released := released + [slots[i]];
      }
      next := 0;
    }
  }

  /** `SOVPool`: batches ready to be filled; `lent` are the ones somebody holds, `made` all it ever made, `repr` these
      with their slots. */
  class SovPool<T(0)> {
    const stepCnt: nat
    const arrCnt: nat
    var free: seq<BufArray<T>>
    var totalCnt: nat
    ghost var lent: set<BufArray<T>>
    ghost var made: set<BufArray<T>>
    ghost var repr: set<object>

    ghost predicate FreeOk()
      reads this, free
    {
      && (forall b :: b in free ==> b.Valid() && b.next == 0 && b.capacity == arrCnt && b !in lent)
      && Distinct(free)
    }

    /** No two batches share their slots. */
    ghost predicate ReprOk()
      reads this
    {
      && (forall b :: b in free ==> b in made)
      && lent <= made
      && (forall b :: b in made ==> b in repr && b.slots in repr)
      && (forall a, b :: a in made && b in made && a != b ==> a.slots != b.slots)
    }

    ghost predicate Valid()
      reads this, free
    {
      FreeOk() && ReprOk() && totalCnt == |free| + |lent|
    }

    constructor (initCnt: nat, step: nat, arr: nat)
      ensures Valid() && lent == {} && stepCnt == step && arrCnt == arr && totalCnt == initCnt
      ensures fresh(repr)
    {
      stepCnt, arrCnt := step, arr;
      free, totalCnt, lent, made, repr := [], 0, {}, {}, {};
      new;
      Create(initCnt);
    }

    /** `create(cnt)` */
    method Create(cnt: nat)
      requires Valid()
      modifies this
      ensures Valid() && lent == old(lent)
      ensures |free| == |old(free)| + cnt && totalCnt == old(totalCnt) + cnt
      ensures free[cnt..] == old(free)
      ensures old(repr) <= repr && fresh(repr - old(repr))
      ensures old(made) <= made && forall i :: 0 <= i < cnt ==> fresh(free[i]) && fresh(free[i].slots)
    {
      totalCnt := totalCnt + cnt;
      for i := 0 to cnt
        invariant |free| == |old(free)| + i && totalCnt == old(totalCnt) + cnt && free[i..] == old(free)
        invariant lent == old(lent) && FreeOk() && ReprOk()
        invariant old(repr) <= repr && fresh(repr - old(repr)) && old(made) <= made
        invariant forall k :: 0 <= k < i ==> fresh(free[k]) && fresh(free[k].slots)
      {
        CreateOne();
      }
    }

    /** `_push(create())` */
    method CreateOne()
      requires FreeOk() && ReprOk()
      modifies this`free, this`made, this`repr
      ensures FreeOk() && ReprOk() && old(made) <= made
      ensures |free| == |old(free)| + 1 && free[1..] == old(free) && fresh(free[0]) && fresh(free[0].slots)
      ensures repr == old(repr) + {free[0], free[0].slots}
    {
      var b := new BufArray<T>(arrCnt);
      DistinctCons(b, free);
      free := [b] + free;
      made, repr := made + {b}, repr + {b, b.slots};
    }

    /** `pop()`: null only when there is no free batch and the step is 0. */
    method PopSov() returns (b: BufArray?<T>)
      requires Valid()
      modifies this
      ensures Valid()
      ensures b == null <==> old(free) == [] && stepCnt == 0
      ensures b == null ==> lent == old(lent)
      ensures b != null ==> b !in old(lent) && lent == old(lent) + {b}
      ensures b != null ==> b.Valid() && b.next == 0 && b.capacity == arrCnt && b in repr && b.slots in repr
      ensures old(free) != [] ==> b == old(free)[0] && free == old(free)[1..] && totalCnt == old(totalCnt)
      ensures old(free) == [] ==> totalCnt == old(totalCnt) + stepCnt && (b != null ==> fresh(b))
      ensures old(repr) <= repr && fresh(repr - old(repr))
    {
      b := TakeFree();
      if b != null { return b; }
      Create(stepCnt);
      b := TakeFree();
    }

    /** `_pop()` */
    method TakeFree() returns (b: BufArray?<T>)
      requires Valid()
      modifies this`free, this`lent
      ensures Valid()
      ensures b == null <==> old(free) == []
      ensures b == null ==> free == [] && lent == old(lent)
      ensures b != null ==> b == old(free)[0] && free == old(free)[1..] && b !in old(lent) && lent == old(lent) + {b}
      ensures b != null ==> b.Valid() && b.next == 0 && b.capacity == arrCnt && b in repr && b.slots in repr
    {
      if free == [] { return null; }
      b := free[0];
      assert free == [b] + free[1..];
      DistinctCons(b, free[1..]);
      hide Distinct;
      free := free[1..];
      lent := lent + {b};
    }

    /** `push(SOV*)` */
    method PushSov(b: BufArray<T>)
      requires Valid() && b in lent && b.Valid() && b.next == 0 && b.capacity == arrCnt
      modifies this`lent, this`free
      ensures Valid() && free == [b] + old(free) && lent == old(lent) - {b}
    {
      DistinctCons(b, free);
      hide Distinct;
      lent := lent - {b};
      free := [b] + free;
    }
  }

  /** `SBuf`: the batch being filled, and how many it has handed out. */
  class SBuf<T(0)> {
    const pool: SovPool<T>
    var sov: BufArray?<T>
    var popCnt: int
    ghost var inFlight: set<BufArray<T>>

    /** The queue's own fields, and the batches it has. */
    ghost predicate OwnOk()
      reads this, sov, inFlight
    {
      && sov != null && sov.Valid() && sov.capacity == pool.arrCnt && sov !in inFlight && popCnt == |inFlight|
      && forall b :: b in inFlight ==> b.Valid() && b.capacity == pool.arrCnt
    }

    ghost predicate Valid()
      reads this, pool, pool.free, sov, inFlight
    {
      && pool.Valid() && pool.stepCnt >= 1 && pool.arrCnt >= 1
      && OwnOk() && sov in pool.lent && inFlight <= pool.lent && sov in pool.repr && sov.slots in pool.repr
    }

    ghost function View(): Queue<T>
      reads this, sov, if sov == null then {} else {sov.slots}
      requires sov != null && sov.Valid()
    {
      Queue(sov.Contents(), popCnt)
    }

    /** The batches lent to others. */
    ghost function Others(): set<BufArray<T>>
      reads this, pool
    {
      pool.lent - inFlight - if sov == null then {} else {sov}
    }

    /** `init` */
    constructor (p: SovPool<T>)
      requires p.Valid() && p.stepCnt >= 1 && p.arrCnt >= 1
      modifies p
      ensures Valid() && pool == p && View() == Queue([], 0)
      ensures inFlight == {} && Others() == old(p.lent) && sov in p.repr && sov.slots in p.repr
      ensures old(p.repr) <= p.repr && fresh(p.repr - old(p.repr))
    {
      pool := p;
      var b := p.PopSov();
      sov := b;
      popCnt := 0;
      inFlight := {};
    }

    /** `push(Buf&)`; `ok` is false where `push_back` throws, which a batch with room never does. */
    method PushBuf(b: Option<T>) returns (ok: bool)
      requires Valid() && |View().cur| < pool.arrCnt
      modifies sov, sov.slots
      ensures Valid() && ok && View() == Push(old(View()), b)
    {
      ok := true;
      if b.Some? { ok := sov.PushBack(b.value); }
    }

    /** `pop()` */
    method PopBatch() returns (batch: BufArray?<T>)
      requires Valid()
      modifies this, pool
      ensures Valid()
      ensures var (q, out) := Pop(pool.arrCnt, old(View()));
              && View() == q
              && (batch == null <==> out.None?)
              && (batch != null ==> batch.Valid() && batch.Contents() == out.value)
      ensures batch != null ==> batch == old(sov) && inFlight == old(inFlight) + {batch}
      ensures batch == null ==> sov == old(sov) && inFlight == old(inFlight)
      ensures Others() == old(Others())
      ensures old(pool.repr) <= pool.repr && fresh(pool.repr - old(pool.repr))
    {
      var empty := sov.Empty();
      if empty { return null; }
      var full := sov.IsFull();
      if popCnt > 0 && !full { return null; }
      batch := HandOut();
    }

    /** The current batch goes out, and an empty one from the pool takes its place. */
    method HandOut() returns (batch: BufArray<T>)
      requires Valid()
      modifies this, pool
      ensures Valid() && View() == Queue([], old(popCnt) + 1)
      ensures batch == old(sov) && inFlight == old(inFlight) + {batch}
      ensures Others() == old(Others()) && sov in pool.repr && sov.slots in pool.repr
      ensures old(pool.repr) <= pool.repr && fresh(pool.repr - old(pool.repr))
    {
      hide SovPool.Valid, BufArray.Valid;
      batch := sov;
      sov := pool.PopSov();
      popCnt := popCnt + 1;
      inFlight := inFlight + {batch};
    }

    /** The locked section of `send`: afterwards the current batch has room again. */
    method PushPop(b: Option<T>) returns (batch: BufArray?<T>)
      requires Valid() && |View().cur| < pool.arrCnt
      modifies this, pool, sov, sov.slots
      ensures Valid() && |View().cur| < pool.arrCnt && sov in pool.repr && sov.slots in pool.repr
      ensures var (q, out) := Pop(pool.arrCnt, Push(old(View()), b));
              && View() == q
              && (batch == null <==> out.None?)
              && (batch != null ==> batch.Valid() && batch.Contents() == out.value)
      ensures batch != null ==> batch == old(sov) && inFlight == old(inFlight) + {batch}
      ensures batch == null ==> sov == old(sov) && inFlight == old(inFlight)
      ensures Others() == old(Others())
      ensures old(pool.repr) <= pool.repr && fresh(pool.repr - old(pool.repr))
    {
      hide SovPool.Valid;
      var ok := PushBuf(b);
      batch := PopBatch();
    }

    /** `push(SOV*)`, of a batch that has been cleared first. */
    method TakeBack(b: BufArray<T>)
      requires Valid() && b in inFlight
      modifies this, pool`lent, pool`free, b
      ensures Valid() && View() == Return(old(View()))
      ensures sov == old(sov) && inFlight == old(inFlight) - {b} && Others() == old(Others())
    {
      var released := b.Clear();
      popCnt := popCnt - 1;
      inFlight := inFlight - {b};
      pool.PushSov(b);
    }

    /** `_on_send`: the batch is cleared and goes back to the pool. */
    method Back(b: BufArray<T>) returns (has: bool)
      requires Valid() && b in inFlight
      modifies this, pool`lent, pool`free, b
      ensures Valid() && View() == Return(old(View()))
      ensures has == HasToSend(View())
      ensures sov == old(sov) && inFlight == old(inFlight) - {b} && Others() == old(Others())
    {
      TakeBack(b);
      var empty := sov.Empty();
      has := !(popCnt > 0) && !empty;
    }

    /** `uninit`, when no batch is in flight: the pool has back everything this queue ever took. */
    method Uninit()
      requires Valid() && !IsSending(View())
      modifies this, pool`lent, pool`free, sov
      ensures pool.Valid() && pool.lent == old(Others()) && sov == null && popCnt == 0
    {
      var released := sov.Clear();
      pool.PushSov(sov);
      sov := null;
      popCnt := 0;
    }
  }

  /** A Buf sent to an idle queue goes out, the next one waits, and goes out when the queue is idle again. */
  lemma TwoSends<T>(cap: nat, x: T, y: T)
    requires cap >= 2
    ensures Pop(cap, Push(Queue([], 0), Some(x))) == (Queue([], 1), Some([x]))
    ensures Pop(cap, Push(Queue([], 1), Some(y))) == (Queue([y], 1), None)
    ensures Return(Queue([y], 1)) == Queue([y], 0)
    ensures Pop(cap, Push(Queue([y], 0), None)) == (Queue([], 1), Some([y]))
    ensures Return<T>(Queue([], 1)) == Queue([], 0)
  {
    AppendNil([x]);
    AppendNil([y]);
  }

  method SendAndWait<T(0)>(s: SBuf<T>, x: T, y: T) returns (first: BufArray<T>)
    requires s.Valid() && s.pool.arrCnt >= 2 && s.View() == Queue([], 0)
    modifies s, s.pool, s.pool.repr
    ensures s.Valid() && s.View() == Queue([y], 1) && first in s.inFlight && first in old(s.pool.repr)
    ensures s.Others() == old(s.Others())
    ensures s.sov in s.pool.repr && s.sov.slots in s.pool.repr
    ensures old(s.pool.repr) <= s.pool.repr && fresh(s.pool.repr - old(s.pool.repr))
  {
    assert s.sov in s.pool.repr && s.sov.slots in s.pool.repr;
    TwoSends(s.pool.arrCnt, x, y);
    hide SovPool.Valid, SBuf.Valid, SBuf.Others, Pop, Push;
    first := s.PushPop(Some(x));
    var none := s.PushPop(Some(y));
  }

  method ReturnAndSend<T(0)>(s: SBuf<T>, first: BufArray<T>, y: T)
    requires s.Valid() && s.pool.arrCnt >= 2 && s.View() == Queue([y], 1) && first in s.inFlight
    requires s.sov in s.pool.repr && s.sov.slots in s.pool.repr
    modifies s, s.pool, s.pool.repr, first
    ensures s.Valid() && s.View() == Queue([], 0) && s.Others() == old(s.Others())
    ensures s.sov in s.pool.repr && old(s.pool.repr) <= s.pool.repr && fresh(s.pool.repr - old(s.pool.repr))
  {
    TwoSends(s.pool.arrCnt, y, y);
    hide SovPool.Valid, SBuf.Valid, SBuf.Others, Pop, Push, Return;
    var has := s.Back(first);
    var second := s.PushPop(None);
    has := s.Back(second);
  }

  /** A session's use of its queue: a first Buf goes out at once; a second waits, goes out when the first batch has come
      back, and comes back itself. */
  method SendTwice<T(0)>(s: SBuf<T>, x: T, y: T)
    requires s.Valid() && s.pool.arrCnt >= 2 && s.View() == Queue([], 0)
    modifies s, s.pool, s.pool.repr
    ensures s.Valid() && s.View() == Queue([], 0) && s.Others() == old(s.Others())
    ensures s.sov in s.pool.repr && old(s.pool.repr) <= s.pool.repr && fresh(s.pool.repr - old(s.pool.repr))
  {
    hide SovPool.Valid, SBuf.Valid, SBuf.Others;
    var first := SendAndWait(s, x, y);
    ReturnAndSend(s, first, y);
  }

  /** From `init` to `uninit`: the pool has lent what it had lent before. */
  method WholeSession<T(0)>(p: SovPool<T>, x: T, y: T)
    requires p.Valid() && p.stepCnt >= 1 && p.arrCnt >= 2
    modifies p, p.repr
    ensures p.Valid() && p.lent == old(p.lent)
  {
    var s := new SBuf<T>(p);
    hide SovPool.Valid, SBuf.Valid, SBuf.Others;
    SendTwice(s, x, y);
    s.Uninit();
  }

  /** The batches a queue has taken from the pool. */
  ghost function Batches<T(0)>(s: SBuf<T>): set<BufArray<T>>
    requires s.sov != null
    reads s
  {
    s.inFlight + {s.sov}
  }

  /** Two queues over one pool, each with batches of its own. */
  ghost predicate Beside<T(0)>(a: SBuf<T>, b: SBuf<T>)
    reads a, b, a.pool, a.pool.free, a.sov, a.inFlight, b.sov, b.inFlight
  {
    a != b && a.pool == b.pool && a.Valid() && b.Valid() && Batches(a) !! Batches(b)
  }

  /** What makes two queues beside each other. */
  lemma AreBeside<T(0)>(a: SBuf<T>, b: SBuf<T>)
    requires a != b && a.pool == b.pool && a.Valid() && b.OwnOk() && Batches(b) <= a.Others()
    ensures Beside(a, b)
  {
  }

  lemma BesideOthers<T(0)>(a: SBuf<T>, b: SBuf<T>)
    requires Beside(a, b)
    ensures Beside(b, a) && a != b && a.pool == b.pool && a.Valid() && a.sov != null && a.sov.Valid()
    ensures b.OwnOk() && b.sov != null && b.sov.Valid() && Batches(b) <= a.Others() && a.sov != b.sov
    ensures a.sov !in b.inFlight && a.sov.slots != b.sov.slots && b.sov in a.pool.repr && b.sov.slots in a.pool.repr
  {
  }

  lemma NotBeside<T(0)>(a: SBuf<T>, b: SBuf<T>, batch: BufArray<T>)
    requires Beside(a, b) && batch in a.inFlight
    ensures batch !in Batches(b) && batch != b.sov && batch !in b.inFlight
  {
  }

  lemma OwnsFirst<T(0)>(a: SBuf<T>)
    requires a.Valid()
    ensures a.OwnOk() && a.sov in a.pool.lent && a.sov != null && a.sov.Valid() && a.sov in a.pool.repr
    ensures a.sov.slots in a.pool.repr
  {
  }

  /** A send on one queue leaves the other alone. */
  method SendBeside<T(0)>(a: SBuf<T>, b: SBuf<T>, x: Option<T>) returns (batch: BufArray?<T>)
    requires Beside(a, b) && |a.View().cur| < a.pool.arrCnt
    modifies a, a.pool, a.sov, a.sov.slots
    ensures Beside(a, b) && |a.View().cur| < a.pool.arrCnt && b.View() == old(b.View()) && b.inFlight == old(b.inFlight)
    ensures var (q, out) := Pop(a.pool.arrCnt, Push(old(a.View()), x));
            && a.View() == q && (batch == null <==> out.None?)
            && (batch != null ==> batch.Valid() && batch.Contents() == out.value)
    ensures a.inFlight == old(a.inFlight) + (if batch == null then {} else {batch})
    ensures batch != null ==> batch == old(a.sov)
  {
    hide SovPool.Valid, SBuf.Valid, SBuf.OwnOk, SBuf.Others, BufArray.Valid, Pop, Push, Beside, Batches;
    BesideOthers(a, b);
    ghost var theirs := Batches(b);
    batch := a.PushPop(x);
    assert Batches(b) == theirs;
    AreBeside(a, b);
  }

  /** Nor does a completion. */
  method BackBeside<T(0)>(a: SBuf<T>, b: SBuf<T>, batch: BufArray<T>) returns (has: bool)
    requires Beside(a, b) && batch in a.inFlight
    modifies a, a.pool`lent, a.pool`free, batch
    ensures Beside(a, b) && b.View() == old(b.View()) && b.inFlight == old(b.inFlight) && a.sov == old(a.sov)
    ensures a.View() == Return(old(a.View())) && has == HasToSend(a.View()) && a.inFlight == old(a.inFlight) - {batch}
  {
    hide SovPool.Valid, SBuf.Valid, SBuf.OwnOk, SBuf.Others, BufArray.Valid, Beside, Batches, Return, HasToSend;
    BesideOthers(a, b);
    NotBeside(a, b, batch);
    ghost var theirs := Batches(b);
    has := a.Back(batch);
    assert Batches(b) == theirs;
    AreBeside(a, b);
  }

  /** Two sessions of one server send in turn, and their batches come back in turn: each queue ends as if alone. */
  method Interleave<T(0)>(a: SBuf<T>, b: SBuf<T>, x: T, y: T)
    requires Beside(a, b) && a.View() == Queue([], 0) == b.View() && a.pool.arrCnt >= 2
    requires a.sov in a.pool.repr && a.sov.slots in a.pool.repr && b.sov in a.pool.repr && b.sov.slots in a.pool.repr
    modifies a, b, a.pool, a.pool.repr
    ensures Beside(a, b) && a.View() == Queue([], 0) == b.View()
  {
    TwoSends(a.pool.arrCnt, x, y);
    TwoSends(a.pool.arrCnt, y, x);
    hide SBuf.Valid, Pop, Push, Return;
    var p := SendBeside(a, b, Some(x));
    var q := SendBeside(b, a, Some(y));
    var has := BackBeside(a, b, p);
    has := BackBeside(b, a, q);
  }

  /** `init` of two sessions of one server. */
  method TwoQueues<T(0)>(p: SovPool<T>) returns (a: SBuf<T>, b: SBuf<T>)
    requires p.Valid() && p.stepCnt >= 1 && p.arrCnt >= 1
    modifies p
    ensures Beside(a, b) && a.pool == p && a.View() == Queue([], 0) == b.View() && fresh(a) && fresh(b)
    ensures old(p.repr) <= p.repr && fresh(p.repr - old(p.repr))
  {
    hide SovPool.Valid, SBuf.Valid, SBuf.OwnOk, SBuf.Others, BufArray.Valid, Beside;
    a := new SBuf<T>(p);
    OwnsFirst(a);
    b := new SBuf<T>(p);
    AreBeside(b, a);
    BesideOthers(b, a);
  }

  method TwoSessions<T(0)>(p: SovPool<T>, x: T, y: T) returns (a: SBuf<T>, b: SBuf<T>)
    requires p.Valid() && p.stepCnt >= 1 && p.arrCnt >= 2
    modifies p, p.repr
    ensures Beside(a, b) && a.pool == p && a.View() == Queue([], 0) == b.View()
  {
    hide Beside, SBuf.Valid, SovPool.Valid;
    a, b := TwoQueues(p);
    BesideOthers(a, b);
    BesideOthers(b, a);
    Interleave(a, b, x, y);
  }

  // ---- the ledger of the objects

  ghost function Union<B>(bs: seq<set<B>>): set<B> { if bs == [] then {} else Union(bs[..|bs| - 1]) + bs[|bs| - 1] }

  lemma {:induction false} UnionApart<B>(bs: seq<set<B>>, b: set<B>)
    requires forall i :: 0 <= i < |bs| ==> bs[i] !! b
    ensures Union(bs) !! b
  {
    if bs != [] { UnionApart(bs[..|bs| - 1], b); }
  }

  lemma {:induction false} UnionSize<B, T>(bs: seq<set<B>>, qs: seq<Option<Queue<T>>>)
    requires |bs| == |qs| && forall i, j :: 0 <= i < j < |bs| ==> bs[i] !! bs[j]
    requires forall i :: 0 <= i < |bs| ==> |bs[i]| == Owned(qs[i])
    ensures |Union(bs)| == OwnedAll(qs)
  {
    if bs != [] {
      hide Owned;
      var n := |bs| - 1;
      UnionSize(bs[..n], qs[..n]);
      UnionApart(bs[..n], bs[n]);
    }
  }

  /** The pool and the queues of any number of live sessions make a balanced ledger, when each batch lent is one
      session's. */
  lemma ObjectsBalance<T(0)>(p: SovPool<T>, ss: seq<SBuf<T>>, bs: seq<set<BufArray<T>>>, qs: seq<Option<Queue<T>>>)
    requires p.Valid() && |ss| == |bs| == |qs| && Union(bs) == p.lent
    requires forall i, j :: 0 <= i < j < |bs| ==> bs[i] !! bs[j]
    requires forall i :: 0 <= i < |ss| ==>
               ss[i].pool == p && ss[i].Valid() && bs[i] == Batches(ss[i]) && qs[i] == Some(ss[i].View())
    ensures Balanced(Ledger(p.totalCnt, |p.free|, qs))
  {
    hide SovPool.Valid;
    assert p.totalCnt == |p.free| + |p.lent| by { PoolCounts(p); }
    forall i | 0 <= i < |ss| ensures |bs[i]| == Owned(qs[i]) && qs[i].value.popCnt >= 0 {
      assert ss[i].Valid() && bs[i] == Batches(ss[i]);
    }
    UnionSize(bs, qs);
  }

  lemma PoolCounts<T(0)>(p: SovPool<T>)
    requires p.Valid()
    ensures p.totalCnt == |p.free| + |p.lent|
  {
  }
}
