/** `TlsMemPool`: one size class of the per-thread pool. `Heapt` caches blocks per thread, `Heap` shares the rest. */
module ThreadCache {
  import opened Options
  import opened Seqs
  import opened SList

  type Tid = nat

  /** Blocks of the class are numbered in the order they are carved. */
  type Mem = nat

  /** `UnitMemConf` */
  datatype Conf = Conf(cnt: nat, popCnt: nat, pushCnt: nat)

  /** `HeapMem`: a thread's blocks fetched from the shared list, and its blocks returned by users. */
  datatype Cache = Cache(wait: seq<Mem>, free: seq<Mem>)

  /** `heap_wait_`, every thread's cache, the blocks in users' hands and the reported total. A cache that does not exist
      yet is an empty one. */
  datatype Class = Class(heap: seq<Mem>, caches: seq<Cache>, used: multiset<Mem>, total: nat)

  /** The list `set_mem_list` leaves: each block is pushed in front. */
  function NewIds(from: nat, cnt: nat): (r: seq<Mem>)
    ensures |r| == cnt && forall i :: 0 <= i < cnt ==> r[i] == from + cnt - 1 - i
  {
    if cnt == 0 then [] else [from + cnt - 1] + NewIds(from, cnt - 1)
  }

  /** `Heap`: the blocks made at the start. */
  function Init(c: Conf, threads: nat): Class {
    Class(NewIds(0, c.cnt), seq(threads, i => Cache([], [])), multiset{}, c.cnt)
  }

  /** `pop_from_thread` */
  function PopThread(h: Cache): (Cache, Option<Mem>) {
    if h.wait != [] then (h.(wait := h.wait[1..]), Some(h.wait[0]))
    else if h.free != [] then (h.(free := h.free[1..]), Some(h.free[0]))
    else (h, None)
  }

  function Least(a: nat, b: nat): nat { if a < b then a else b }

  /** `pop_from_main`: a batch of `pop_cnt_` blocks moves to the thread. */
  function PopMain(c: Conf, heap: seq<Mem>, h: Cache): (seq<Mem>, Cache, Option<Mem>) {
    var n := Least(c.popCnt, |heap|);
    if n == 0 then (heap, h, None)
    else (heap[n..], h.(wait := heap[1..n] + h.wait), Some(heap[0]))
  }

  /** How many of `cnt` new blocks a thread does not keep. */
  function Surplus(c: Conf, cnt: nat): nat { if cnt > c.popCnt then cnt - c.popCnt else 0 }

  /** `pop_from_new`: `cnt_` blocks are carved; all but `pop_cnt_` of them go to the shared list. */
  function PopNew(c: Conf, heap: seq<Mem>, h: Cache, total: nat): (seq<Mem>, Cache, Option<Mem>) {
    var ml := NewIds(total, c.cnt);
    var n := Surplus(c, c.cnt);
    var mine := ml[n..];
    if mine == [] then (ml[..n] + heap, h, None)
    else (ml[..n] + heap, h.(wait := mine[1..] + h.wait), Some(mine[0]))
  }

  /** What `pop` leaves: the shared list, the thread's cache, and the total; and the block, or a null pointer. */
  datatype Popped = Popped(heap: seq<Mem>, h: Cache, total: nat, m: Option<Mem>)

  /** `pop`: from the thread, else from the shared list, else from new blocks. */
  function PopAny(c: Conf, heap: seq<Mem>, h: Cache, total: nat): Popped {
    var (h1, m1) := PopThread(h);
    if m1.Some? then Popped(heap, h1, total, m1)
    else
      var (heap2, h2, m2) := PopMain(c, heap, h);
      if m2.Some? then Popped(heap2, h2, total, m2)
      else
        var (heap3, h3, m3) := PopNew(c, heap, h, total);
        Popped(heap3, h3, total + c.cnt, m3)
  }

  function Given(m: Option<Mem>): multiset<Mem> { if m.Some? then multiset{m.value} else multiset{} }

  /** `get`, for a request of this class by thread `t`. */
  function Get(c: Conf, s: Class, t: Tid): (Class, Option<Mem>)
    requires t < |s.caches|
  {
    var p := PopAny(c, s.heap, s.caches[t], s.total);
    (Class(p.heap, s.caches[t := p.h], s.used + Given(p.m), p.total), p.m)
  }

  /** `push`: with `push_cnt_` free blocks, all of them go to the shared list. */
  function PushBack(c: Conf, heap: seq<Mem>, h: Cache, m: Mem): (seq<Mem>, Cache) {
    var free := [m] + h.free;
    if |free| >= c.pushCnt then (free + heap, h.(free := [])) else (heap, h.(free := free))
  }

  /** `ret` by thread `t`, which need not be the one that got the block. */
  function Ret(c: Conf, s: Class, t: Tid, m: Mem): Class
    requires t < |s.caches|
  {
    var (heap, h) := PushBack(c, s.heap, s.caches[t], m);
    Class(heap, s.caches[t := h], s.used - multiset{m}, s.total)
  }

  datatype Op = GetOp(t: Tid) | RetOp(t: Tid, m: Mem)

  predicate Enabled(s: Class, o: Op) { o.t < |s.caches| && (o.RetOp? ==> o.m in s.used) }

  function Do(c: Conf, s: Class, o: Op): Class
    requires Enabled(s, o)
  {
    match o
    case GetOp(t) => Get(c, s, t).0
    case RetOp(t, m) => Ret(c, s, t, m)
  }

  predicate CanRun(c: Conf, threads: nat, os: seq<Op>)
    decreases |os|, 0
  {
    os == [] || (CanRun(c, threads, os[..|os| - 1]) && Enabled(Run(c, threads, os[..|os| - 1]), os[|os| - 1]))
  }

  function Run(c: Conf, threads: nat, os: seq<Op>): Class
    requires CanRun(c, threads, os)
    decreases |os|, 1
  {
    if os == [] then Init(c, threads) else Do(c, Run(c, threads, os[..|os| - 1]), os[|os| - 1])
  }

  // ---- where the blocks are

  /** How often block `x` is in a list. */
  function Times(s: seq<Mem>, x: Mem): nat { multiset(s)[x] }

  function TimesMaybe(m: Option<Mem>, x: Mem): nat { if m == Some(x) then 1 else 0 }

  function TimesCached(h: Cache, x: Mem): nat { Times(h.wait, x) + Times(h.free, x) }

  function TimesAll(hs: seq<Cache>, x: Mem): nat {
    if hs == [] then 0 else TimesAll(hs[..|hs| - 1], x) + TimesCached(hs[|hs| - 1], x)
  }

  /** Block `x`, once carved, is in exactly one list, or in a user's hands. */
  predicate InOnePlace(s: Class, x: Mem) {
    Times(s.heap, x) + TimesAll(s.caches, x) + s.used[x] == if x < s.total then 1 else 0
  }

  /** What a thread's free list may hold between two calls. */
  predicate FreeSmall(c: Conf, h: Cache) { h.free == [] || |h.free| < c.pushCnt }

  ghost predicate Inv(c: Conf, s: Class) {
    && (forall x :: InOnePlace(s, x))
    && (forall t :: 0 <= t < |s.caches| ==> FreeSmall(c, s.caches[t]))
  }

  lemma TimesSplit(s: seq<Mem>, n: nat, x: Mem)
    requires n <= |s|
    ensures Times(s[..n], x) + Times(s[n..], x) == Times(s, x)
  {
    assert s[..n] + s[n..] == s;
  }

  lemma TimesCons(m: Mem, s: seq<Mem>, x: Mem)
    ensures Times([m] + s, x) == Times(s, x) + (if m == x then 1 else 0)
  {
  }

  lemma {:induction false} TimesNew(from: nat, cnt: nat, x: Mem)
    ensures Times(NewIds(from, cnt), x) == if from <= x < from + cnt then 1 else 0
  {
    TimesNone(x);
    hide Times;
    if cnt > 0 {
      TimesNew(from, cnt - 1, x);
      TimesCons(from + cnt - 1, NewIds(from, cnt - 1), x);
    }
  }

  lemma {:induction false} TimesUpdate(hs: seq<Cache>, t: Tid, h: Cache, x: Mem)
    requires t < |hs|
    ensures TimesAll(hs[t := h], x) == TimesAll(hs, x) - TimesCached(hs[t], x) + TimesCached(h, x)
  {
    hide TimesCached;
    var n := |hs| - 1;
    if t == n {
      assert hs[t := h][..n] == hs[..n];
    } else {
      assert hs[t := h][..n] == hs[..n][t := h];
      TimesUpdate(hs[..n], t, h, x);
    }
  }

  lemma TimesHead(s: seq<Mem>, x: Mem)
    requires s != []
    ensures Times(s[1..], x) + TimesMaybe(Some(s[0]), x) == Times(s, x)
  {
    assert [s[0]] + s[1..] == s;
  }

  lemma PopThreadMoves(h: Cache, x: Mem)
    ensures var (h', m) := PopThread(h);
            && TimesCached(h', x) + TimesMaybe(m, x) == TimesCached(h, x)
            && (m.None? ==> h' == h && h.wait == h.free == [])
            && (h'.free == h.free || |h'.free| < |h.free|)
  {
    hide Times;
    if h.wait != [] { TimesHead(h.wait, x); }
    if h.free != [] { TimesHead(h.free, x); }
  }

  lemma TimesAppend(a: seq<Mem>, b: seq<Mem>, x: Mem)
    ensures Times(a + b, x) == Times(a, x) + Times(b, x)
  {
  }

  lemma PopMainMoves(c: Conf, heap: seq<Mem>, h: Cache, x: Mem)
    ensures var (heap', h', m) := PopMain(c, heap, h);
            && Times(heap', x) + TimesCached(h', x) + TimesMaybe(m, x) == Times(heap, x) + TimesCached(h, x)
            && h'.free == h.free
            && (m.None? ==> heap' == heap && h' == h && (c.popCnt == 0 || heap == []))
  {
    hide Times;
    var n := Least(c.popCnt, |heap|);
    if n > 0 {
      TimesSplit(heap, n, x);
      TimesHead(heap[..n], x);
      assert heap[..n][1..] == heap[1..n];
      TimesAppend(heap[1..n], h.wait, x);
    }
  }

  lemma PopNewMoves(c: Conf, heap: seq<Mem>, h: Cache, total: nat, x: Mem)
    ensures var (heap', h', m) := PopNew(c, heap, h, total);
            && Times(heap', x) + TimesCached(h', x) + TimesMaybe(m, x)
               == Times(heap, x) + TimesCached(h, x) + (if total <= x < total + c.cnt then 1 else 0)
            && h'.free == h.free
            && (m.None? <==> c.cnt == 0 || c.popCnt == 0)
  {
    hide Times, NewIds;
    var ml := NewIds(total, c.cnt);
    TimesNew(total, c.cnt, x);
    var n := Surplus(c, c.cnt);
    TimesSplit(ml, n, x);
    TimesAppend(ml[..n], heap, x);
    if ml[n..] != [] {
      TimesHead(ml[n..], x);
      TimesAppend(ml[n..][1..], h.wait, x);
    } else {
      TimesNone(x);
    }
  }

  lemma TimesNone(x: Mem)
    ensures Times([], x) == 0
  {
  }

  lemma PushBackMoves(c: Conf, heap: seq<Mem>, h: Cache, m: Mem, x: Mem)
    ensures var (heap', h') := PushBack(c, heap, h, m);
            && Times(heap', x) + TimesCached(h', x) == Times(heap, x) + TimesCached(h, x) + TimesMaybe(Some(m), x)
            && FreeSmall(c, h')
  {
    hide Times;
    TimesCons(m, h.free, x);
    TimesAppend([m] + h.free, heap, x);
    TimesNone(x);
  }

  lemma PopAnyMoves(c: Conf, heap: seq<Mem>, h: Cache, total: nat, x: Mem)
    ensures var p := PopAny(c, heap, h, total);
            && Times(p.heap, x) + TimesCached(p.h, x) + TimesMaybe(p.m, x)
               == Times(heap, x) + TimesCached(h, x) + (if total <= x < p.total then 1 else 0)
            && (p.h.free == h.free || |p.h.free| < |h.free|)
            && total <= p.total
            && (p.m.None? <==> h.wait == h.free == [] && (c.popCnt == 0 || (heap == [] && c.cnt == 0)))
  {
    PopIsNull(c, heap, h, total);
    PopThreadMoves(h, x);
    PopMainMoves(c, heap, h, x);
    PopNewMoves(c, heap, h, total, x);
    hide Times, TimesCached, TimesMaybe, PopThread, PopMain, PopNew;
  }

  /** A thread's `get` fails exactly when its cache is empty and it can fetch nothing. */
  lemma PopIsNull(c: Conf, heap: seq<Mem>, h: Cache, total: nat)
    ensures PopAny(c, heap, h, total).m.None? <==>
              h.wait == h.free == [] && (c.popCnt == 0 || (heap == [] && c.cnt == 0))
  {
  }

  lemma GivenTimes(used: multiset<Mem>, m: Option<Mem>, x: Mem)
    ensures (used + Given(m))[x] == used[x] + TimesMaybe(m, x)
  {
  }

  /** `get` moves blocks between the lists and hands one out, which nobody had. */
  lemma GetKeeps(c: Conf, s: Class, t: Tid)
    requires Inv(c, s) && t < |s.caches|
    ensures var (s', m) := Get(c, s, t); Inv(c, s') && (m.Some? ==> s.used[m.value] == 0)
  {
    hide Times, TimesCached, TimesAll, TimesMaybe, PopAny, Given;
    var p := PopAny(c, s.heap, s.caches[t], s.total);
    var s' := Get(c, s, t).0;
    forall x ensures InOnePlace(s', x) && s'.used[x] == s.used[x] + TimesMaybe(p.m, x) {
      PopAnyMoves(c, s.heap, s.caches[t], s.total, x);
      TimesUpdate(s.caches, t, p.h, x);
      GivenTimes(s.used, p.m, x);
      assert InOnePlace(s, x);
    }
    PopAnyMoves(c, s.heap, s.caches[t], s.total, 0);
    if p.m.Some? { OnceMore(s', s.used, p.m.value); }
  }

  lemma OnceMore(s: Class, used: multiset<Mem>, x: Mem)
    requires InOnePlace(s, x) && s.used[x] == used[x] + TimesMaybe(Some(x), x)
    ensures used[x] == 0
  {
  }

  lemma RetKeeps(c: Conf, s: Class, t: Tid, m: Mem)
    requires Inv(c, s) && t < |s.caches| && m in s.used
    ensures Inv(c, Ret(c, s, t, m))
  {
    hide Times, TimesCached, TimesAll, TimesMaybe, PushBack;
    var s' := Ret(c, s, t, m);
    var (heap, h) := PushBack(c, s.heap, s.caches[t], m);
    forall x ensures InOnePlace(s', x) {
      PushBackMoves(c, s.heap, s.caches[t], m, x);
      TimesUpdate(s.caches, t, h, x);
      TakenTimes(s.used, m, x);
      assert InOnePlace(s, x);
    }
    PushBackMoves(c, s.heap, s.caches[t], m, 0);
  }

  lemma TakenTimes(used: multiset<Mem>, m: Mem, x: Mem)
    requires m in used
    ensures (used - multiset{m})[x] == used[x] - TimesMaybe(Some(m), x)
  {
  }

  lemma InitInv(c: Conf, threads: nat)
    ensures Inv(c, Init(c, threads))
  {
    var s := Init(c, threads);
    forall x ensures InOnePlace(s, x) {
      TimesNew(0, c.cnt, x);
      TimesEmpty(s.caches, x);
    }
  }

  lemma {:induction false} TimesEmpty(hs: seq<Cache>, x: Mem)
    requires forall t :: 0 <= t < |hs| ==> hs[t] == Cache([], [])
    ensures TimesAll(hs, x) == 0
  {
    if hs != [] { TimesEmpty(hs[..|hs| - 1], x); }
  }

  // ---- what `state` reports

  function Waiting(hs: seq<Cache>): nat { if hs == [] then 0 else Waiting(hs[..|hs| - 1]) + |hs[|hs| - 1].wait| }

  function Freed(hs: seq<Cache>): nat { if hs == [] then 0 else Freed(hs[..|hs| - 1]) + |hs[|hs| - 1].free| }

  /** `wait_`, `free_` and `use_` of the class. */
  function ReportedWait(s: Class): nat { |s.heap| + Waiting(s.caches) }

  function ReportedUse(s: Class): int { s.total - ReportedWait(s) - Freed(s.caches) }

  lemma {:induction false} SizeUpdate(hs: seq<Cache>, t: Tid, h: Cache)
    requires t < |hs|
    ensures Waiting(hs[t := h]) == Waiting(hs) - |hs[t].wait| + |h.wait|
    ensures Freed(hs[t := h]) == Freed(hs) - |hs[t].free| + |h.free|
  {
    var n := |hs| - 1;
    if t == n {
      assert hs[t := h][..n] == hs[..n];
    } else {
      assert hs[t := h][..n] == hs[..n][t := h];
      SizeUpdate(hs[..n], t, h);
    }
  }

  lemma PopAnySizes(c: Conf, heap: seq<Mem>, h: Cache, total: nat)
    ensures var p := PopAny(c, heap, h, total);
            |p.heap| + |p.h.wait| + |p.h.free| + |Given(p.m)| == |heap| + |h.wait| + |h.free| + p.total - total
  {
    hide NewIds;
  }

  lemma StepReports(c: Conf, s: Class, o: Op)
    requires Enabled(s, o) && ReportedUse(s) == |s.used|
    ensures ReportedUse(Do(c, s, o)) == |Do(c, s, o).used|
  {
    hide PopAny, Given, Waiting, Freed;
    PopAnySizes(c, s.heap, s.caches[o.t], s.total);
    SizeUpdate(s.caches, o.t, Do(c, s, o).caches[o.t]);
  }

  lemma {:induction false} NothingCached(hs: seq<Cache>)
    requires forall t :: 0 <= t < |hs| ==> hs[t] == Cache([], [])
    ensures Waiting(hs) == Freed(hs) == 0
  {
    if hs != [] { NothingCached(hs[..|hs| - 1]); }
  }

  // ---- runs

  lemma {:induction false} RunKeepsInv(c: Conf, threads: nat, os: seq<Op>)
    requires CanRun(c, threads, os)
    ensures var s := Run(c, threads, os); Inv(c, s) && ReportedUse(s) == |s.used| && |s.caches| == threads
  {
    hide Inv, ReportedUse, Get, Ret;
    if os == [] {
      InitInv(c, threads);
      InitReports(c, threads);
    } else {
      var s, o := Run(c, threads, os[..|os| - 1]), os[|os| - 1];
      RunKeepsInv(c, threads, os[..|os| - 1]);
      StepReports(c, s, o);
      StepKeeps(c, s, o);
    }
  }

  lemma InitReports(c: Conf, threads: nat)
    ensures ReportedUse(Init(c, threads)) == 0
  {
    NothingCached(Init(c, threads).caches);
  }

  lemma StepKeeps(c: Conf, s: Class, o: Op)
    requires Inv(c, s) && Enabled(s, o)
    ensures Inv(c, Do(c, s, o)) && |Do(c, s, o).caches| == |s.caches|
  {
    hide Inv, PopAny, PushBack;
    match o {
      case GetOp(t) => GetKeeps(c, s, t);
      case RetOp(t, m) => RetKeeps(c, s, t, m);
    }
  }

  /** For any number of threads, and blocks returned by any thread: every block carved is in exactly one list or in one
      user's hands, and `use_` is the number of blocks in users' hands. */
  lemma PoolConserves(c: Conf, threads: nat, os: seq<Op>)
    requires CanRun(c, threads, os)
    ensures var s := Run(c, threads, os);
            && (forall x :: InOnePlace(s, x))
            && ReportedUse(s) == |s.used|
            && forall t :: 0 <= t < |s.caches| ==> FreeSmall(c, s.caches[t])
  {
    RunKeepsInv(c, threads, os);
  }

  /** `get` never hands out a block somebody has. With `cnt_` and `pop_cnt_` at least 1 it always gives one. */
  lemma GetGivesUnused(c: Conf, threads: nat, os: seq<Op>, t: Tid)
    requires CanRun(c, threads, os) && t < threads
    ensures var s := Run(c, threads, os);
            && t < |s.caches|
            && var m := Get(c, s, t).1;
               && (m.Some? ==> m.value !in s.used && m.value < Get(c, s, t).0.total)
               && (c.cnt >= 1 && c.popCnt >= 1 ==> m.Some?)
  {
    RunKeepsInv(c, threads, os);
    var s := Run(c, threads, os);
    hide PopAny, InOnePlace;
    GetKeeps(c, s, t);
    PopIsNull(c, s.heap, s.caches[t], s.total);
    var (s', m) := Get(c, s, t);
    if m.Some? {
      GivenTimes(s.used, m, m.value);
      UsedExists(s', m.value);
    }
  }

  lemma UsedExists(s: Class, x: Mem)
    requires InOnePlace(s, x) && s.used[x] > 0
    ensures x < s.total
  {
  }

  lemma FirstGet(c: Conf, threads: nat)
    requires threads >= 1 && (c.cnt == 0 || c.popCnt == 0)
    ensures CanRun(c, threads, []) && Get(c, Run(c, threads, []), 0).1.None?
  {
    PopIsNull(c, Init(c, threads).heap, Cache([], []), c.cnt);
  }

  /** Whatever threads do, `get` finds a block, exactly when both counts are at least 1. */
  lemma AlwaysGivesExactlyWhen(c: Conf, threads: nat)
    requires threads >= 1
    ensures (forall os, t :: CanRun(c, threads, os) && 0 <= t < |Run(c, threads, os).caches| ==>
                               Get(c, Run(c, threads, os), t).1.Some?)
            <==> c.cnt >= 1 && c.popCnt >= 1
  {
    hide Get;
    if c.cnt >= 1 && c.popCnt >= 1 {
      forall os, t | CanRun(c, threads, os) && 0 <= t < |Run(c, threads, os).caches|
        ensures Get(c, Run(c, threads, os), t).1.Some?
      {
        RunKeepsInv(c, threads, os);
        GetGivesUnused(c, threads, os, t);
      }
    } else {
      FirstGet(c, threads);
    }
  }

  // ---- what a thread keeps for itself

  /** A block returned is kept by the thread, in front, until it has `push_cnt_` of them, which then all go to the front
      of the shared list; a block kept is the next one the thread gets when it has none fetched, as if nothing
      had been. */
  lemma ReturnedStays(c: Conf, s: Class, t: Tid, m: Mem)
    requires t < |s.caches| && m in s.used
    ensures var s', h := Ret(c, s, t, m), s.caches[t];
            && s'.total == s.total && s'.used == s.used - multiset{m}
            && (|h.free| + 1 < c.pushCnt ==>
                  && s'.heap == s.heap && s'.caches == s.caches[t := Cache(h.wait, [m] + h.free)]
                  && (h.wait == [] ==> Get(c, s', t) == (s, Some(m))))
            && (|h.free| + 1 >= c.pushCnt ==>
                  s'.heap == [m] + h.free + s.heap && s'.caches == s.caches[t := Cache(h.wait, [])])
  {
    var h := s.caches[t];
    assert ([m] + h.free)[1..] == h.free;
    assert s.used - multiset{m} + multiset{m} == s.used;
    assert s.caches[t := Cache(h.wait, [m] + h.free)][t := h] == s.caches;
  }

  /** While a thread has blocks of its own, fetched ones first, it touches nothing else. */
  lemma OwnFirst(c: Conf, s: Class, t: Tid)
    requires t < |s.caches| && s.caches[t] != Cache([], [])
    ensures var (s', m) := Get(c, s, t);
            && m.Some? && s'.heap == s.heap && s'.total == s.total
            && var h, h' := s.caches[t], s'.caches[t];
               && h.wait + h.free == [m.value] + h'.wait + h'.free
               && |h'.wait| == (if h.wait == [] then 0 else |h.wait| - 1)
  {
    var h := s.caches[t];
    if h.wait == [] {
      assert h.free == [h.free[0]] + h.free[1..];
    } else {
      assert h.wait == [h.wait[0]] + h.wait[1..];
    }
  }

  lemma FetchesShared(c: Conf, s: Class, t: Tid)
    requires t < |s.caches| && s.caches[t] == Cache([], []) && c.popCnt >= 1 && s.heap != []
    ensures var (s', m) := Get(c, s, t);
            && s'.total == s.total && m == Some(s.heap[0]) && s'.caches[t].free == []
            && [s.heap[0]] + s'.caches[t].wait + s'.heap == s.heap
            && |s'.caches[t].wait| + 1 == Least(c.popCnt, |s.heap|)
  {
    hide PopNew;
    var n := Least(c.popCnt, |s.heap|);
    assert s.heap == [s.heap[0]] + s.heap[1..n] + s.heap[n..];
  }

  lemma FetchesNew(c: Conf, s: Class, t: Tid)
    requires t < |s.caches| && s.caches[t] == Cache([], []) && c.popCnt >= 1 && s.heap == []
    ensures var (s', m) := Get(c, s, t);
            var n := Least(c.popCnt, c.cnt);
            && s'.total == s.total + c.cnt && |s'.heap| == c.cnt - n && s'.caches[t].free == []
            && (c.cnt > 0 ==>
                  && m.Some? && |s'.caches[t].wait| + 1 == n
                  && s'.heap + [m.value] + s'.caches[t].wait == NewIds(s.total, c.cnt))
  {
    hide NewIds;
    var ml := NewIds(s.total, c.cnt);
    var k := Surplus(c, c.cnt);
    assert ml[..k] + [] == ml[..k];
    if c.cnt > 0 { assert ml == ml[..k] + [ml[k]] + ml[k..][1..]; }
  }

  /** A thread without any fetches `pop_cnt_` at a time, of which it gives one: from the shared list, or as many as that
      has; from `cnt_` new ones, the rest of which go to the shared list, only when that is empty. */
  lemma FetchesBatch(c: Conf, s: Class, t: Tid)
    requires t < |s.caches| && s.caches[t] == Cache([], []) && c.popCnt >= 1
    ensures var (s', m) := Get(c, s, t);
            var n := Least(c.popCnt, if s.heap == [] then c.cnt else |s.heap|);
            && s'.caches[t].free == []
            && (s.heap != [] ==>
                  && s'.total == s.total && m == Some(s.heap[0])
                  && [s.heap[0]] + s'.caches[t].wait + s'.heap == s.heap && |s'.caches[t].wait| + 1 == n)
            && (s.heap == [] ==> s'.total == s.total + c.cnt && |s'.heap| == c.cnt - n)
            && (s.heap == [] && c.cnt > 0 ==>
                  && m.Some? && |s'.caches[t].wait| + 1 == n
                  && s'.heap + [m.value] + s'.caches[t].wait == NewIds(s.total, c.cnt))
  {
    hide Get;
    if s.heap == [] { FetchesNew(c, s, t); } else { FetchesShared(c, s, t); }
  }

  /** The thread finds a block neither with itself nor in the shared list. */
  predicate Short(c: Conf, s: Class, o: Op) {
    o.GetOp? && o.t < |s.caches| && s.caches[o.t] == Cache([], []) && (s.heap == [] || c.popCnt == 0)
  }

  /** How often that was so. */
  function Shortages(c: Conf, threads: nat, os: seq<Op>): nat
    requires CanRun(c, threads, os)
  {
    if os == [] then 0
    else
      var front := os[..|os| - 1];
      Shortages(c, threads, front) + if Short(c, Run(c, threads, front), os[|os| - 1]) then 1 else 0
  }

  lemma StepMakes(c: Conf, s: Class, o: Op)
    requires Enabled(s, o)
    ensures Do(c, s, o).total == s.total + if Short(c, s, o) then c.cnt else 0
  {
  }

  /** `cnt_` blocks are made at the start, and `cnt_` more each time a thread finds none. */
  lemma {:induction false} MadeWhenShort(c: Conf, threads: nat, os: seq<Op>)
    requires CanRun(c, threads, os)
    ensures Run(c, threads, os).total == (1 + Shortages(c, threads, os)) * c.cnt
  {
    hide Do, Enabled, Short;
    if os != [] {
      var front := os[..|os| - 1];
      MadeWhenShort(c, threads, front);
      StepMakes(c, Run(c, threads, front), os[|os| - 1]);
      OneMore(1 + Shortages(c, threads, front), c.cnt);
    }
  }

  lemma OneMore(n: nat, step: nat)
    ensures (n + 1) * step == n * step + step
  {
  }

  /** A thread never keeps more than it may fetch and return at a time. */
  predicate CacheSmall(c: Conf, h: Cache) { FreeSmall(c, h) && (h.wait == [] || |h.wait| < c.popCnt) }

  lemma PopAnySmall(c: Conf, heap: seq<Mem>, h: Cache, total: nat)
    requires CacheSmall(c, h)
    ensures CacheSmall(c, PopAny(c, heap, h, total).h)
  {
    hide NewIds;
  }

  lemma {:induction false} CachesStaySmall(c: Conf, threads: nat, os: seq<Op>, t: Tid)
    requires CanRun(c, threads, os) && t < |Run(c, threads, os).caches|
    ensures CacheSmall(c, Run(c, threads, os).caches[t])
  {
    hide PopAny;
    if os != [] {
      var s, o := Run(c, threads, os[..|os| - 1]), os[|os| - 1];
      CachesStaySmall(c, threads, os[..|os| - 1], t);
      PopAnySmall(c, s.heap, s.caches[t], s.total);
    }
  }

  /** `state`: the shared list, then every thread's cache, are added up. */
  method State(s: Class) returns (wait: nat, free: nat, use: int)
    ensures wait == ReportedWait(s) && free == Freed(s.caches) && use == ReportedUse(s)
  {
    wait, free := |s.heap|, 0;
    for t := 0 to |s.caches|
      invariant wait == |s.heap| + Waiting(s.caches[..t]) && free == Freed(s.caches[..t])
    {
      assert s.caches[..t + 1][..t] == s.caches[..t];
      wait, free := wait + |s.caches[t].wait|, free + |s.caches[t].free|;
    }
    assert s.caches[..|s.caches|] == s.caches;
    use := s.total - wait - free;
  }

  // ---- the objects

  /** The block a node stands for, or none for a null pointer. */
  function Got(n: Node?<Mem>): Option<Mem> { if n == null then None else Some(n.value) }

  /** The shared list of one class, and the total `MemAlloc` reports for it. */
  class SharedHeap {
    const waiting: SList<Mem>
    var total: nat

    constructor (cnt: nat)
      ensures waiting.Valid() && Values(waiting.contents) == NewIds(0, cnt) && total == cnt
      ensures fresh(waiting) && forall n :: n in waiting.contents ==> fresh(n)
    {
      total := 0;
      waiting := new SList<Mem>();
      new;
      NewMem(cnt, waiting);
    }

    /** `new_mem`: carve `cnt` blocks into an empty list. */
    method NewMem(cnt: nat, list: SList<Mem>)
      requires list.Valid() && list.contents == []
      modifies this`total, list
      ensures list.Valid() && Values(list.contents) == NewIds(old(total), cnt) && total == old(total) + cnt
      ensures forall i :: 0 <= i < |list.contents| ==> fresh(list.contents[i])
    {
      for i := 0 to cnt
        invariant total == old(total) && list.Valid() && Values(list.contents) == NewIds(total, i)
        invariant forall i :: 0 <= i < |list.contents| ==> fresh(list.contents[i])
      {
        var n := new Node<Mem>(total + i);
        ValuesJoin([n], list.contents);
        assert Values([n]) == [n.value];
        list.Push(n);
      }
      total := total + cnt;
    }
  }

  /** `Heapt` for one class: blocks fetched from the shared list, and blocks returned by users, chained through
      the blocks themselves. */
  class ThreadHeap {
    const conf: Conf
    const heap: SharedHeap
    const wait: SList<Mem>
    const free: SList<Mem>

    ghost function View(): Cache
      reads wait, free
    {
      Cache(Values(wait.contents), Values(free.contents))
    }

    ghost function Shared(): seq<Mem>
      reads heap.waiting
    {
      Values(heap.waiting.contents)
    }

    /** The chains of the three lists have no block in common. */
    ghost predicate Valid()
      reads wait, free, heap.waiting, wait.contents, free.contents, heap.waiting.contents
    {
      && wait != free && wait != heap.waiting && free != heap.waiting
      && wait.Valid() && free.Valid() && heap.waiting.Valid()
      && Disjoint(wait.contents, free.contents) && Disjoint(wait.contents, heap.waiting.contents)
      && Disjoint(free.contents, heap.waiting.contents)
    }

    /** A block that is in no list, and linked to none. */
    ghost predicate Out(n: Node<Mem>)
      reads wait, free, heap.waiting, n
    {
      n !in wait.contents && n !in free.contents && n !in heap.waiting.contents && n.next == null
    }

    constructor (c: Conf, h: SharedHeap)
      requires h.waiting.Valid()
      ensures Valid() && conf == c && heap == h && View() == Cache([], []) && fresh(wait) && fresh(free)
    {
      conf, heap := c, h;
      wait := new SList<Mem>();
      free := new SList<Mem>();
    }

    method PopFromThread() returns (n: Node?<Mem>)
      requires Valid()
      modifies wait, wait.contents, free, free.contents
      ensures Valid() && (View(), Got(n)) == PopThread(old(View())) && (n != null ==> Out(n))
      ensures forall x :: x in wait.contents ==> x in old(wait.contents)
      ensures forall x :: x in free.contents ==> x in old(free.contents)
      ensures n != null ==> n in old(wait.contents) || n in old(free.contents)
    {
      hide SList<Mem>.Valid;
      if wait.contents != [] { ValuesSplit(wait.contents, 1); }
      if free.contents != [] { ValuesSplit(free.contents, 1); }
      n := wait.Pop();
      if n != null { return; }
      n := free.Pop();
    }

    /** The first block of `ml` is given, the others wait. */
    method TakeFirst(ml: SList<Mem>) returns (n: Node?<Mem>)
      requires Valid() && ml.Valid() && ml != wait && ml != free && ml != heap.waiting
      requires Disjoint(ml.contents, wait.contents) && Disjoint(ml.contents, free.contents)
      requires Disjoint(ml.contents, heap.waiting.contents)
      modifies wait, ml, ml.contents
      ensures Valid()
      ensures old(ml.contents) == [] ==> n == null && wait.contents == old(wait.contents)
      ensures old(ml.contents) != [] ==> n == old(ml.contents)[0] && Out(n)
                                         && wait.contents == old(ml.contents)[1..] + old(wait.contents)
    {
      hide SList<Mem>.Valid;
      n := ml.Pop();
      wait.PushAll(ml);
    }

    method PopFromMain() returns (n: Node?<Mem>)
      requires Valid()
      modifies wait, heap.waiting, heap.waiting.contents
      ensures Valid() && (n != null ==> Out(n) && n in old(heap.waiting.contents))
      ensures (Shared(), View(), Got(n)) == PopMain(conf, old(Shared()), old(View()))
      ensures forall x :: x in wait.contents ==> x in old(wait.contents) || x in old(heap.waiting.contents)
      ensures forall x :: x in heap.waiting.contents ==> x in old(heap.waiting.contents)
    {
      hide SList<Mem>.Valid, PopMain;
      var ml := new SList<Mem>();
      ghost var all, first := heap.waiting.contents, wait.contents;
      heap.waiting.PopMany(conf.popCnt, ml);
      ml.CountIs();
      if ml.cnt == 0 {
        MainEmpty(conf, Shared(), View());
        return null;
      }
      MainSplit(conf, all, first, Values(free.contents));
      n := TakeFirst(ml);
    }

    method PopFromNew() returns (n: Node?<Mem>)
      requires Valid()
      modifies wait, heap`total, heap.waiting
      ensures Valid() && (n != null ==> Out(n) && fresh(n))
      ensures (Shared(), View(), Got(n)) == PopNew(conf, old(Shared()), old(View()), old(heap.total))
      ensures heap.total == old(heap.total) + conf.cnt
      ensures forall x :: x in wait.contents ==> x in old(wait.contents) || fresh(x)
      ensures forall x :: x in heap.waiting.contents ==> x in old(heap.waiting.contents) || fresh(x)
    {
      hide SList<Mem>.Valid, PopNew, NewIds;
      var ml := new SList<Mem>();
      ghost var shared, first := heap.waiting.contents, wait.contents;
      heap.NewMem(conf.cnt, ml);
      ghost var made := ml.contents;
      assert Disjoint(made, wait.contents) && Disjoint(made, free.contents) && Disjoint(made, shared);
      NewSplit(conf, made, shared, first, Values(free.contents), old(heap.total));
      n := Divide(ml);
    }

    /** All but `pop_cnt_` blocks of `ml` go to the shared list, and the first of the others is given. */
    method Divide(ml: SList<Mem>) returns (n: Node?<Mem>)
      requires Valid() && ml.Valid() && ml != wait && ml != free && ml != heap.waiting
      requires Disjoint(ml.contents, wait.contents) && Disjoint(ml.contents, free.contents)
      requires Disjoint(ml.contents, heap.waiting.contents)
      modifies wait, heap.waiting, ml, ml.contents
      ensures var k := Surplus(conf, |old(ml.contents)|);
              && heap.waiting.contents == old(ml.contents)[..k] + old(heap.waiting.contents)
              && wait.contents == Rest(old(ml.contents)[k..]) + old(wait.contents)
              && n == First(old(ml.contents)[k..])
      ensures Valid() && (n != null ==> Out(n))
    {
      hide SList<Mem>.Valid;
      ml.CountIs();
      ghost var all, shared := ml.contents, heap.waiting.contents;
      if ml.cnt > conf.popCnt { ShareSome(ml.cnt - conf.popCnt, ml); }
      ghost var k := Surplus(conf, |all|);
      assert ml.contents == all[k..] && heap.waiting.contents == all[..k] + shared;
      n := TakeFirst(ml);
      assert wait.contents == Rest(all[k..]) + old(wait.contents);
    }

    /** The first `cnt` of the new blocks go to the shared list. */
    method ShareSome(cnt: nat, ml: SList<Mem>)
      requires Valid() && ml.Valid() && ml != wait && ml != free && ml != heap.waiting && cnt <= |ml.contents|
      requires Disjoint(ml.contents, wait.contents) && Disjoint(ml.contents, free.contents)
      requires Disjoint(ml.contents, heap.waiting.contents) && cnt > 0
      modifies heap.waiting, ml, ml.contents
      ensures Valid() && ml.Valid() && ml.contents == old(ml.contents)[cnt..]
      ensures heap.waiting.contents == old(ml.contents)[..cnt] + old(heap.waiting.contents)
      ensures Disjoint(ml.contents, heap.waiting.contents)
    {
      hide SList<Mem>.Valid;
      var heapMl := new SList<Mem>();
      ghost var all := ml.contents;
      ml.PopMany(cnt, heapMl);
      heap.waiting.PushAll(heapMl);
    }

    /** `pop` */
    method Pop() returns (n: Node?<Mem>)
      requires Valid()
      modifies wait, wait.contents, free, free.contents, heap`total, heap.waiting, heap.waiting.contents
      ensures Valid() && (n != null ==> Out(n))
      ensures Popped(Shared(), View(), heap.total, Got(n)) == PopAny(conf, old(Shared()), old(View()), old(heap.total))
      ensures forall x :: x in free.contents ==> x in old(free.contents)
      ensures forall x :: x in wait.contents || x in heap.waiting.contents ==>
                x in old(wait.contents) || x in old(heap.waiting.contents) || fresh(x)
      ensures n != null ==>
                n in old(wait.contents) || n in old(free.contents) || n in old(heap.waiting.contents) || fresh(n)
    {
      hide SList<Mem>.Valid, PopThread, PopMain, PopNew;
      PopThreadMoves(View(), 0);
      PopMainMoves(conf, Shared(), View(), 0);
      n := PopFromThread();
      if n != null { return; }
      n := PopFromMain();
      if n != null { return; }
      n := PopFromNew();
    }

    /** `push` */
    method Push(n: Node<Mem>)
      requires Valid() && n !in wait.contents && n !in free.contents && n !in heap.waiting.contents
      modifies free, free.contents, heap.waiting, n
      ensures Valid() && (Shared(), View()) == PushBack(conf, old(Shared()), old(View()), n.value)
      ensures forall x :: x in free.contents || x in heap.waiting.contents ==>
                x in old(free.contents) || x in old(heap.waiting.contents) || x == n
    {
      hide SList<Mem>.Valid;
      ValuesJoin([n], free.contents);
      assert Values([n]) == [n.value];
      ValuesJoin([n] + free.contents, heap.waiting.contents);
      free.Push(n);
      free.CountIs();
      if free.cnt >= conf.pushCnt { heap.waiting.PushAll(free); }
    }
  }

  function Rest<T>(s: seq<T>): seq<T> { if s == [] then [] else s[1..] }

  /** Of the new blocks all but `pop_cnt_` are shared, and all but the first of the others go in front of `first`. */
  lemma NewSplit(c: Conf, ml: seq<Node<Mem>>, shared: seq<Node<Mem>>, first: seq<Node<Mem>>, free: seq<Mem>, total: nat)
    requires Values(ml) == NewIds(total, c.cnt)
    ensures var k := Surplus(c, |ml|);
            PopNew(c, Values(shared), Cache(Values(first), free), total)
            == (Values(ml[..k] + shared), Cache(Values(Rest(ml[k..]) + first), free), Got(First(ml[k..])))
  {
    var k := Surplus(c, |ml|);
    ValuesJoin(ml[..k], shared);
    ValuesSplit(ml, k);
    ValuesJoin(Rest(ml[k..]), first);
    if ml[k..] != [] {
      ValuesSplit(ml[k..], 1);
    } else {
      assert Rest(ml[k..]) + first == first;
    }
  }

  lemma MainEmpty(c: Conf, heap: seq<Mem>, h: Cache)
    requires c.popCnt == 0 || heap == []
    ensures PopMain(c, heap, h) == (heap, h, None)
  {
  }

  /** A batch of `all` is split off, and all of it but the first goes in front of `first`. */
  lemma MainSplit(c: Conf, all: seq<Node<Mem>>, first: seq<Node<Mem>>, free: seq<Mem>)
    requires c.popCnt > 0 && all != []
    ensures var k := Least(c.popCnt, |all|);
            && 1 <= k <= |all|
            && PopMain(c, Values(all), Cache(Values(first), free))
               == (Values(all[k..]), Cache(Values(all[..k][1..] + first), free), Some(all[..k][0].value))
            && (forall x :: x in all[..k][1..] + first ==> x in first || x in all)
  {
    var k := Least(c.popCnt, |all|);
    assert all[..k][1..] == all[1..k];
    ValuesJoin(all[1..k], first);
    assert Values(all)[1..k] == Values(all[1..k]);
    assert Values(all)[k..] == Values(all[k..]);
  }

  /** Cache `h` is that of thread `t` in `s`. */
  ghost predicate Shows(h: ThreadHeap, c: Conf, s: Class, t: Tid)
    reads h.wait, h.free, h.heap, h.heap.waiting
  {
    t < |s.caches| && h.conf == c && h.View() == s.caches[t] && h.Shared() == s.heap && h.heap.total == s.total
  }

  /** No block in a user's hands is chained in a list. */
  lemma UsedNotListed(h: ThreadHeap, c: Conf, s: Class, t: Tid, n: Node<Mem>)
    requires Inv(c, s) && Shows(h, c, s, t) && n.value in s.used
    ensures n !in h.wait.contents && n !in h.free.contents && n !in h.heap.waiting.contents
  {
    hide Inv, InOnePlace;
    forall i | 0 <= i < |h.wait.contents| ensures h.wait.contents[i] != n {
      ListedNotUsed(c, s, t, s.caches[t].wait[i]);
    }
    forall i | 0 <= i < |h.free.contents| ensures h.free.contents[i] != n {
      ListedNotUsed(c, s, t, s.caches[t].free[i]);
    }
    forall i | 0 <= i < |h.heap.waiting.contents| ensures h.heap.waiting.contents[i] != n {
      ListedNotUsed(c, s, t, s.heap[i]);
    }
  }

  lemma ListedNotUsed(c: Conf, s: Class, t: Tid, x: Mem)
    requires Inv(c, s) && t < |s.caches| && (x in s.heap || x in s.caches[t].wait || x in s.caches[t].free)
    ensures x !in s.used
  {
    assert InOnePlace(s, x);
    CachedCounts(s.caches, t, x);
  }

  lemma {:induction false} CachedCounts(hs: seq<Cache>, t: Tid, x: Mem)
    requires t < |hs|
    ensures TimesCached(hs[t], x) <= TimesAll(hs, x)
  {
    if t < |hs| - 1 { CachedCounts(hs[..|hs| - 1], t, x); }
  }

  /** Two threads' lists, and the blocks chained in them, are not the same ones. */
  ghost predicate Separate(g: ThreadHeap, r: ThreadHeap)
    reads g.wait, g.free, r.wait, r.free
  {
    && {g.wait, g.free} !! {r.wait, r.free}
    && Disjoint(g.wait.contents, r.wait.contents) && Disjoint(g.wait.contents, r.free.contents)
    && Disjoint(g.free.contents, r.wait.contents) && Disjoint(g.free.contents, r.free.contents)
  }

  /** `get` by one thread leaves another's lists alone. */
  method PopBeside(g: ThreadHeap, r: ThreadHeap) returns (n: Node?<Mem>)
    requires g.Valid() && r.Valid() && g.heap == r.heap && Separate(g, r)
    modifies g.wait, g.wait.contents, g.free, g.free.contents, g.heap`total, g.heap.waiting, g.heap.waiting.contents
    ensures g.Valid() && r.Valid() && Separate(g, r) && r.View() == old(r.View()) && unchanged(r.free)
    ensures Popped(g.Shared(), g.View(), g.heap.total, Got(n))
            == PopAny(g.conf, old(g.Shared()), old(g.View()), old(g.heap.total))
    ensures n != null ==>
              n in old(g.wait.contents) || n in old(g.free.contents) || n in old(g.heap.waiting.contents) || fresh(n)
  {
    hide SList<Mem>.Valid, PopAny;
    n := g.Pop();
    assert forall i :: 0 <= i < |g.wait.contents| ==> g.wait.contents[i] in g.wait.contents;
    assert forall i :: 0 <= i < |g.free.contents| ==> g.free.contents[i] in g.free.contents;
    assert forall i :: 0 <= i < |g.heap.waiting.contents| ==> g.heap.waiting.contents[i] in g.heap.waiting.contents;
  }

  /** `ret` by one thread leaves another's lists alone. */
  method PushBeside(r: ThreadHeap, g: ThreadHeap, n: Node<Mem>)
    requires g.Valid() && r.Valid() && g.heap == r.heap && Separate(g, r)
    requires n !in g.wait.contents && n !in g.free.contents
    requires n !in r.wait.contents && n !in r.free.contents && n !in r.heap.waiting.contents
    modifies r.free, r.free.contents, r.heap.waiting, n
    ensures g.Valid() && r.Valid() && Separate(g, r) && g.View() == old(g.View())
    ensures (r.Shared(), r.View()) == PushBack(r.conf, old(r.Shared()), old(r.View()), n.value)
  {
    hide SList<Mem>.Valid, PushBack;
    r.Push(n);
    assert forall i :: 0 <= i < |r.free.contents| ==> r.free.contents[i] in r.free.contents;
    assert forall i :: 0 <= i < |r.heap.waiting.contents| ==> r.heap.waiting.contents[i] in r.heap.waiting.contents;
  }

  /** Thread `t` gets a block and thread `u` returns it: the lists of both, and the shared one, follow `Get` and
      `Ret`. */
  method GetHereReturnThere(g: ThreadHeap, r: ThreadHeap, ghost c: Conf, ghost s: Class, ghost t: Tid, ghost u: Tid)
    returns (n: Node?<Mem>)
    requires g.Valid() && r.Valid() && g.heap == r.heap && Separate(g, r)
    requires Inv(c, s) && t != u && Shows(g, c, s, t) && Shows(r, c, s, u)
    modifies g.wait, g.wait.contents, g.free, g.free.contents, g.heap`total, g.heap.waiting, g.heap.waiting.contents
    modifies r.free, r.free.contents
    ensures g.Valid() && r.Valid() && Separate(g, r)
    ensures var (s1, m) := Get(c, s, t);
            var s2 := if n == null then s1 else Ret(c, s1, u, n.value);
            Got(n) == m && Shows(g, c, s2, t) && Shows(r, c, s2, u)
  {
    hide SList<Mem>.Valid, PopAny, PushBack, Inv, ThreadHeap.Valid, Separate;
    GetKeeps(c, s, t);
    n := PopBeside(g, r);
    if n == null { return; }
    ghost var s1 := Get(c, s, t).0;
    UsedNotListed(g, c, s1, t, n);
    UsedNotListed(r, c, s1, u, n);
    PushBeside(r, g, n);
  }
}
