/** `MemPool`: free lists of blocks, one for each configured size. */
module MemPool {
  import opened Options
  import opened Seqs
  import opened SList
  import opened UnitClasses

  /** A block: `unit_`, and its number among the blocks of that unit, or among those above the largest unit. */
  datatype Mem = Mem(unit: nat, id: nat)

  datatype MemConf = MemConf(initCnt: nat, stepCnt: nat)

  /** One entry of the configuration. */
  type UnitConf = Entry<MemConf>

  /** `Mems`, and the blocks of this size in users' hands. */
  datatype Mems = Mems(free: seq<Mem>, used: set<Mem>, total: nat)

  /** The pool, the blocks above the largest unit in users' hands, and how many of those were ever allocated. */
  datatype Pool = Pool(classes: seq<Mems>, big: set<Mem>, bigCnt: nat)

  /** `init` without a configuration takes this one. */
  const DEFAULT: seq<UnitConf> :=
    [Entry(1024, MemConf(100, 100)), Entry(2048, MemConf(100, 100)),
     Entry(4096, MemConf(100, 100)), Entry(8192, MemConf(1000, 100))]

  function Effective(c: seq<UnitConf>): seq<UnitConf> { if c == [] then DEFAULT else c }

  /** The pool works with the map of sizes `init` is given, or with four sizes of its own if that is empty; in any case
      with sizes in increasing order, and at least one. */
  lemma EffectiveIsValid(c: seq<UnitConf>)
    requires c == [] || ValidConf(c)
    ensures ValidConf(Effective(c)) && (c != [] ==> Effective(c) == c)
    ensures c == [] ==>
              && Units(Effective(c)) == [1024, 2048, 4096, 8192]
              && forall k :: 0 <= k < 4 ==> Effective(c)[k].conf == MemConf(if k < 3 then 100 else 1000, 100)
  {
    assert forall k :: 0 <= k < 4 ==> Units(DEFAULT)[k] == DEFAULT[k].unit;
  }

  /** The list a loop of `push(new_mem(unit))` leaves. */
  function NewMems(unit: nat, from: nat, cnt: nat): seq<Mem> {
    if cnt == 0 then [] else [Mem(unit, from + cnt - 1)] + NewMems(unit, from, cnt - 1)
  }

  /** `init` of one size. */
  function InitMems(u: UnitConf): Mems { Mems(NewMems(u.unit, 0, u.conf.initCnt), {}, u.conf.initCnt) }

  function Init(c: seq<UnitConf>): Pool {
    Pool(seq(|c|, k requires 0 <= k < |c| => InitMems(c[k])), {}, 0)
  }

  /** `inc_mem` */
  function IncMem(u: UnitConf, ms: Mems): Mems {
    ms.(free := NewMems(u.unit, ms.total, u.conf.stepCnt) + ms.free, total := ms.total + u.conf.stepCnt)
  }

  function TakeFree(ms: Mems): (Mems, Option<Mem>) {
    if ms.free == [] then (ms, None)
    else (ms.(free := ms.free[1..], used := ms.used + {ms.free[0]}), Some(ms.free[0]))
  }

  /** A block of one size, after `inc_mem` when none is free. */
  function GetUnit(u: UnitConf, ms: Mems): (Mems, Option<Mem>) {
    TakeFree(if ms.free == [] then IncMem(u, ms) else ms)
  }

  function RetUnit(ms: Mems, m: Mem): Mems { ms.(free := [m] + ms.free, used := ms.used - {m}) }

  /** `get(size)`; a null Buf when nothing is free and `step_cnt_` is 0. */
  function Get(c: seq<UnitConf>, p: Pool, size: nat): (Pool, Option<Mem>)
    requires ValidConf(c) && |p.classes| == |c|
  {
    if size > MaxUnit(c) then
      var m := Mem(size, p.bigCnt);
      (p.(big := p.big + {m}, bigCnt := p.bigCnt + 1), Some(m))
    else
      var k := ClassOf(Units(c), size);
      var (ms, m) := GetUnit(c[k], p.classes[k]);
      (p.(classes := p.classes[k := ms]), m)
  }

  predicate InUse(p: Pool, m: Mem) { m in p.big || exists k :: 0 <= k < |p.classes| && m in p.classes[k].used }

  /** `ret(mem)` */
  function Ret(c: seq<UnitConf>, p: Pool, m: Mem): Pool
    requires ValidConf(c) && |p.classes| == |c|
  {
    if m.unit > MaxUnit(c) then p.(big := p.big - {m})
    else
      var k := ClassOf(Units(c), m.unit);
      p.(classes := p.classes[k := RetUnit(p.classes[k], m)])
  }

  datatype Op = GetOp(size: nat) | RetOp(m: Mem)

  predicate Enabled(c: seq<UnitConf>, p: Pool, o: Op) {
    ValidConf(c) && |p.classes| == |c| && (o.RetOp? ==> InUse(p, o.m))
  }

  function Do(c: seq<UnitConf>, p: Pool, o: Op): Pool
    requires Enabled(c, p, o)
  {
    match o
    case GetOp(size) => Get(c, p, size).0
    case RetOp(m) => Ret(c, p, m)
  }

  predicate CanRun(c: seq<UnitConf>, os: seq<Op>)
    decreases |os|, 0
  {
    os == [] || (CanRun(c, os[..|os| - 1]) && Enabled(c, Run(c, os[..|os| - 1]), os[|os| - 1]))
  }

  function Run(c: seq<UnitConf>, os: seq<Op>): Pool
    requires CanRun(c, os)
    decreases |os|, 1
  {
    if os == [] then Init(c) else Do(c, Run(c, os[..|os| - 1]), os[|os| - 1])
  }

  // ---- the books

  /** Blocks of one size are free, once, or used; the total counts both. */
  ghost predicate MemsOk(unit: nat, ms: Mems) {
    && Distinct(ms.free)
    && (forall m :: m in ms.free ==> m.unit == unit && m.id < ms.total && m !in ms.used)
    && (forall m :: m in ms.used ==> m.unit == unit && m.id < ms.total)
    && ms.total == |ms.free| + |ms.used|
  }

  ghost predicate BigOk(c: seq<UnitConf>, p: Pool) {
    forall m :: m in p.big ==> m.id < p.bigCnt && (c != [] ==> m.unit > MaxUnit(c))
  }

  ghost predicate Inv(c: seq<UnitConf>, p: Pool) {
    && |p.classes| == |c|
    && (forall k :: 0 <= k < |c| ==> MemsOk(c[k].unit, p.classes[k]))
    && BigOk(c, p)
  }

  lemma {:induction false} NewMemsOk(unit: nat, from: nat, cnt: nat)
    ensures var ms := NewMems(unit, from, cnt);
            && |ms| == cnt && Distinct(ms) && (forall m :: m in ms <==> m.unit == unit && from <= m.id < from + cnt)
            && forall i :: 0 <= i < cnt ==> ms[i].id == from + cnt - 1 - i
  {
    if cnt > 0 {
      NewMemsOk(unit, from, cnt - 1);
      DistinctCons(Mem(unit, from + cnt - 1), NewMems(unit, from, cnt - 1));
    }
  }

  lemma IncKeeps(u: UnitConf, ms: Mems)
    requires MemsOk(u.unit, ms)
    ensures MemsOk(u.unit, IncMem(u, ms)) && (IncMem(u, ms).free == [] <==> ms.free == [] && u.conf.stepCnt == 0)
    ensures u.conf.stepCnt == 0 ==> IncMem(u, ms) == ms
  {
    var new_ := NewMems(u.unit, ms.total, u.conf.stepCnt);
    NewMemsOk(u.unit, ms.total, u.conf.stepCnt);
    DistinctJoin(new_, ms.free);
    assert u.conf.stepCnt == 0 ==> new_ + ms.free == ms.free;
  }

  lemma TakeKeeps(unit: nat, ms: Mems)
    requires MemsOk(unit, ms)
    ensures var (ms', m) := TakeFree(ms);
            && MemsOk(unit, ms')
            && (m.None? <==> ms.free == [])
            && (m.Some? ==> m.value.unit == unit && m.value !in ms.used && ms'.used == ms.used + {m.value})
  {
    if ms.free != [] {
      var m, rest := ms.free[0], ms.free[1..];
      assert ms.free == [m] + rest;
      DistinctCons(m, rest);
      hide Distinct;
      assert forall x :: x in ms.free <==> x == m || x in rest;
    }
  }

  /** A block nobody has leaves the free list, after making more when it is empty. */
  lemma GetUnitKeeps(u: UnitConf, ms: Mems)
    requires MemsOk(u.unit, ms)
    ensures var (ms', m) := GetUnit(u, ms);
            && MemsOk(u.unit, ms')
            && (m.None? <==> ms.free == [] && u.conf.stepCnt == 0)
            && (m.None? ==> ms' == ms)
            && (m.Some? ==> m.value.unit == u.unit && m.value !in ms.used && ms'.used == ms.used + {m.value})
  {
    IncKeeps(u, ms);
    TakeKeeps(u.unit, if ms.free == [] then IncMem(u, ms) else ms);
    hide MemsOk;
  }

  lemma RetUnitKeeps(unit: nat, ms: Mems, m: Mem)
    requires MemsOk(unit, ms) && m in ms.used
    ensures MemsOk(unit, RetUnit(ms, m))
  {
    DistinctCons(m, ms.free);
  }

  /** No block of the unit that fits is free, and none may be made. */
  predicate Exhausted(c: seq<UnitConf>, p: Pool, size: nat)
    requires ValidConf(c) && |p.classes| == |c|
  {
    size <= MaxUnit(c) &&
    var k := ClassOf(Units(c), size);
    p.classes[k].free == [] && c[k].conf.stepCnt == 0
  }

  /** A block of class `k` that the class does not count as used is not in use at all. */
  lemma NotElsewhere(c: seq<UnitConf>, p: Pool, k: nat, m: Mem)
    requires ValidConf(c) && Inv(c, p) && k < |c| && m.unit == c[k].unit && m !in p.classes[k].used
    ensures !InUse(p, m)
  {
    UnitsIncrease(c);
    forall j | 0 <= j < |c| && j != k ensures m !in p.classes[j].used {
      assert c[j].unit != c[k].unit;
    }
  }

  lemma ClassKeeps(c: seq<UnitConf>, p: Pool, k: nat, ms: Mems)
    requires Inv(c, p) && k < |c| && MemsOk(c[k].unit, ms)
    ensures Inv(c, p.(classes := p.classes[k := ms]))
  {
    hide MemsOk;
  }

  lemma ShowInv(c: seq<UnitConf>, p: Pool, k: nat)
    requires Inv(c, p) && k < |c|
    ensures |p.classes| == |c| && MemsOk(c[k].unit, p.classes[k])
  {
  }

  lemma UsedInUse(p: Pool, k: nat, m: Mem)
    requires k < |p.classes| && m in p.classes[k].used
    ensures InUse(p, m)
  {
  }

  lemma GetSmall(c: seq<UnitConf>, p: Pool, size: nat)
    requires ValidConf(c) && Inv(c, p) && size <= MaxUnit(c)
    ensures var (p', m) := Get(c, p, size);
            && Inv(c, p')
            && (m.Some? ==> m.value.unit == RoundUp(Units(c), size) && !InUse(p, m.value) && InUse(p', m.value))
            && (m.None? <==> Exhausted(c, p, size))
            && (m.None? ==> p' == p)
  {
    hide RoundUp, GetUnit, Inv, MemsOk, InUse;
    var k := ClassOf(Units(c), size);
    ShowInv(c, p, k);
    GetUnitKeeps(c[k], p.classes[k]);
    var (ms, m) := GetUnit(c[k], p.classes[k]);
    ClassKeeps(c, p, k, ms);
    assert m.None? ==> p.classes[k := ms] == p.classes;
    if m.Some? {
      NotElsewhere(c, p, k, m.value);
      UsedInUse(p.(classes := p.classes[k := ms]), k, m.value);
    }
  }

  lemma GetBig(c: seq<UnitConf>, p: Pool, size: nat)
    requires ValidConf(c) && Inv(c, p) && size > MaxUnit(c)
    ensures var (p', m) := Get(c, p, size);
            Inv(c, p') && m.Some? && m.value.unit == size && !InUse(p, m.value) && InUse(p', m.value)
  {
    NotInClasses(c, p, Mem(size, p.bigCnt));
    hide MemsOk;
  }

  lemma NotInClasses(c: seq<UnitConf>, p: Pool, m: Mem)
    requires ValidConf(c) && Inv(c, p) && m.unit > MaxUnit(c)
    ensures forall k :: 0 <= k < |c| ==> m !in p.classes[k].used
  {
    UnitsIncrease(c);
  }

  /** `get` gives a block nobody has, of the smallest unit that holds the request, or of exactly its size above the
      largest unit; it gives none exactly when no block of that unit is free and none may be made. */
  lemma GetGives(c: seq<UnitConf>, p: Pool, size: nat)
    requires ValidConf(c) && Inv(c, p)
    ensures var (p', m) := Get(c, p, size);
            && Inv(c, p')
            && (m.Some? ==> m.value.unit == RoundUp(Units(c), size) >= size && !InUse(p, m.value) && InUse(p', m.value))
            && (m.None? <==> Exhausted(c, p, size))
            && (m.None? ==> p' == p)
  {
    hide Inv, RoundUp, InUse, Get;
    ShowInv(c, p, 0);
    RoundUpFits(Units(c), size);
    if size > MaxUnit(c) {
      BigRoundUp(c, size);
      GetBig(c, p, size);
    } else {
      GetSmall(c, p, size);
    }
  }

  /** Which class a block in use belongs to. */
  lemma UsedWhere(c: seq<UnitConf>, p: Pool, m: Mem)
    requires ValidConf(c) && Inv(c, p) && InUse(p, m)
    ensures if m.unit > MaxUnit(c) then m in p.big
            else c[ClassOf(Units(c), m.unit)].unit == m.unit && m in p.classes[ClassOf(Units(c), m.unit)].used
  {
    hide RoundUp;
    if m.unit > MaxUnit(c) {
      NotInClasses(c, p, m);
    } else {
      var k :| 0 <= k < |c| && m in p.classes[k].used;
      ShowInv(c, p, k);
      ClassOfUnit(c, k);
    }
  }

  /** A block that comes back goes to the list of its own unit, or, above the largest unit, is freed. */
  lemma RetKeeps(c: seq<UnitConf>, p: Pool, m: Mem)
    requires ValidConf(c) && Inv(c, p) && InUse(p, m)
    ensures var p' := Ret(c, p, m);
            && Inv(c, p') && !InUse(p', m)
            && (m.unit <= MaxUnit(c) ==>
                  var k := ClassOf(Units(c), m.unit);
                  c[k].unit == m.unit && p'.classes[k].free == [m] + p.classes[k].free)
  {
    UsedWhere(c, p, m);
    if m.unit > MaxUnit(c) {
      NotInClasses(c, p, m);
    } else {
      var k := ClassOf(Units(c), m.unit);
      ShowInv(c, p, k);
      hide RoundUp, Inv;
      RetUnitKeeps(c[k].unit, p.classes[k], m);
      ClassKeeps(c, p, k, RetUnit(p.classes[k], m));
      NotElsewhere(c, Ret(c, p, m), k, m);
    }
  }

  lemma InitInv(c: seq<UnitConf>)
    ensures Inv(c, Init(c))
  {
    forall k | 0 <= k < |c| ensures MemsOk(c[k].unit, Init(c).classes[k]) {
      NewMemsOk(c[k].unit, 0, c[k].conf.initCnt);
    }
  }

  /** A request puts the block given into a user's hands and changes nothing else there. */
  lemma GetLeavesOthers(c: seq<UnitConf>, p: Pool, size: nat, x: Mem)
    requires ValidConf(c) && Inv(c, p)
    ensures var (p', m) := Get(c, p, size); InUse(p', x) <==> InUse(p, x) || m == Some(x)
  {
    hide Inv, MemsOk, RoundUp, GetUnit;
    ShowInv(c, p, 0);
    if size <= MaxUnit(c) {
      var k := ClassOf(Units(c), size);
      ShowInv(c, p, k);
      GetUnitKeeps(c[k], p.classes[k]);
      ReplaceUsed(p, k, GetUnit(c[k], p.classes[k]).0, x);
    }
  }

  lemma ReplaceUsed(p: Pool, k: nat, ms: Mems, x: Mem)
    requires k < |p.classes| && (x in p.classes[k].used ==> x in ms.used)
    ensures InUse(p.(classes := p.classes[k := ms]), x) <==> InUse(p, x) || x in ms.used
  {
    var q := p.(classes := p.classes[k := ms]);
    if j :| 0 <= j < |p.classes| && x in p.classes[j].used { assert x in q.classes[j].used; }
    if x in ms.used { assert x in q.classes[k].used; }
  }

  lemma RemoveUsed(p: Pool, k: nat, ms: Mems, m: Mem, x: Mem)
    requires k < |p.classes| && ms.used == p.classes[k].used - {m}
    ensures var q := p.(classes := p.classes[k := ms]);
            (InUse(q, x) ==> InUse(p, x)) && (InUse(p, x) && x != m ==> InUse(q, x))
  {
    var q := p.(classes := p.classes[k := ms]);
    if j :| 0 <= j < |p.classes| && x in p.classes[j].used && x != m { assert x in q.classes[j].used; }
    if j :| 0 <= j < |q.classes| && x in q.classes[j].used { assert x in p.classes[j].used; }
  }

  /** A return takes the block returned out of a user's hands and changes nothing else there. */
  lemma RetLeavesOthers(c: seq<UnitConf>, p: Pool, m: Mem, x: Mem)
    requires ValidConf(c) && Inv(c, p) && InUse(p, m)
    ensures InUse(Ret(c, p, m), x) <==> InUse(p, x) && x != m
  {
    hide Inv, MemsOk, RoundUp, InUse;
    RetKeeps(c, p, m);
    ShowInv(c, p, 0);
    if m.unit <= MaxUnit(c) {
      var k := ClassOf(Units(c), m.unit);
      RemoveUsed(p, k, RetUnit(p.classes[k], m), m, x);
    } else {
      RemoveBig(p, m, x);
    }
  }

  lemma RemoveBig(p: Pool, m: Mem, x: Mem)
    ensures var q := p.(big := p.big - {m}); (InUse(q, x) ==> InUse(p, x)) && (InUse(p, x) && x != m ==> InUse(q, x))
  {
  }

  lemma {:induction false} RunKeepsInv(c: seq<UnitConf>, os: seq<Op>)
    requires ValidConf(c) && CanRun(c, os)
    ensures Inv(c, Run(c, os))
  {
    hide Inv, Get, Ret, Init;
    if os == [] {
      InitInv(c);
    } else {
      var p := Run(c, os[..|os| - 1]);
      RunKeepsInv(c, os[..|os| - 1]);
      match os[|os| - 1] {
        case GetOp(size) => GetGives(c, p, size);
        case RetOp(m) => RetKeeps(c, p, m);
      }
    }
  }

  /** After any requests and returns: what `state` reports as in use is what is in users' hands, size by size, no free
      block is in use, and with a step of at least 1 a request is never refused. */
  lemma PoolConserves(c: seq<UnitConf>, os: seq<Op>, size: nat)
    requires ValidConf(c) && CanRun(c, os)
    ensures var p := Run(c, os);
            && |p.classes| == |c|
            && (forall k :: 0 <= k < |c| ==> p.classes[k].total == |p.classes[k].free| + |p.classes[k].used|)
            && (forall k, m :: 0 <= k < |c| && m in p.classes[k].free ==> !InUse(p, m))
            && ((forall u :: u in c ==> u.conf.stepCnt >= 1) ==> Get(c, p, size).1.Some?)
  {
    RunKeepsInv(c, os);
    var p := Run(c, os);
    forall k, m | 0 <= k < |c| && m in p.classes[k].free ensures !InUse(p, m) { NotElsewhere(c, p, k, m); }
    hide Get;
    GetGives(c, p, size);
  }

  // ---- how many blocks are made

  function Max(a: nat, b: nat): nat { if a < b then b else a }

  /** The step asks for a block of size `k`. */
  predicate Asks(c: seq<UnitConf>, o: Op, k: nat)
    requires ValidConf(c)
  {
    o.GetOp? && o.size <= MaxUnit(c) && ClassOf(Units(c), o.size) == k
  }

  /** How often the run asked for a block of size `k` when none was free. */
  function Shortages(c: seq<UnitConf>, os: seq<Op>, k: nat): nat
    requires ValidConf(c) && CanRun(c, os) && k < |c|
  {
    if os == [] then 0
    else
      var front, o := os[..|os| - 1], os[|os| - 1];
      Shortages(c, front, k) + if Asks(c, o, k) && Run(c, front).classes[k].free == [] then 1 else 0
  }

  /** The most blocks of size `k` in use at one time. */
  function Peak(c: seq<UnitConf>, os: seq<Op>, k: nat): nat
    requires CanRun(c, os)
  {
    var p := Run(c, os);
    var now := if k < |p.classes| then |p.classes[k].used| else 0;
    if os == [] then now else Max(Peak(c, os[..|os| - 1], k), now)
  }

  lemma StepGrows(c: seq<UnitConf>, p: Pool, o: Op, k: nat)
    requires ValidConf(c) && Inv(c, p) && Enabled(c, p, o) && k < |c|
    ensures var p' := Do(c, p, o);
            && |p'.classes| == |c|
            && p'.classes[k].total ==
               p.classes[k].total + (if Asks(c, o, k) && p.classes[k].free == [] then c[k].conf.stepCnt else 0)
            && (Asks(c, o, k) && p.classes[k].free == [] && c[k].conf.stepCnt > 0 ==>
                  |p'.classes[k].used| == p.classes[k].total + 1)
  {
    hide Inv, MemsOk, RoundUp;
    ShowInv(c, p, k);
    GetUnitKeeps(c[k], p.classes[k]);
    AllUsed(c[k].unit, p.classes[k]);
  }

  lemma AllUsed(unit: nat, ms: Mems)
    requires MemsOk(unit, ms)
    ensures ms.free == [] ==> ms.total == |ms.used|
    ensures forall m :: m !in ms.used ==> |ms.used + {m}| == |ms.used| + 1
  {
  }

  /** A size has the blocks it started with and a step for every shortage; and never so many that one step fewer would
      have done for the most blocks that were in use at one time. */
  lemma {:induction false} GrowsOnDemand(c: seq<UnitConf>, os: seq<Op>, k: nat)
    requires ValidConf(c) && CanRun(c, os) && k < |c|
    ensures var p, u := Run(c, os), c[k].conf;
            && |p.classes| == |c|
            && p.classes[k].total == u.initCnt + Shortages(c, os, k) * u.stepCnt
            && (p.classes[k].total == u.initCnt || p.classes[k].total < Peak(c, os, k) + u.stepCnt)
  {
    hide Inv, Do, Enabled, Asks;
    if os != [] {
      var front, o := os[..|os| - 1], os[|os| - 1];
      RunKeepsInv(c, front);
      GrowsOnDemand(c, front, k);
      StepGrows(c, Run(c, front), o, k);
      OneMore(Shortages(c, front, k), c[k].conf.stepCnt);
    }
  }

  lemma OneMore(n: nat, step: nat)
    ensures (n + 1) * step == n * step + step
  {
  }

  // ---- the objects

  /** `Mems` of one size: its blocks are nodes of an intrusive list while nobody has them. `nodes` are all of them. */
  class UnitPool {
    const conf: UnitConf
    const free: SList<Mem>
    var total: nat
    ghost var used: set<Mem>
    ghost var nodes: set<Node<Mem>>

    ghost function View(): Mems
      reads this, free
    {
      Mems(Values(free.contents), used, total)
    }

    ghost predicate Valid()
      reads this, free, nodes
    {
      && (forall n :: n in free.contents ==> n in nodes) && free.Valid()
      && (forall n :: n in nodes ==> n.value.unit == conf.unit)
      && MemsOk(conf.unit, View())
    }

    lemma OfUnit()
      requires Valid()
      ensures forall n :: n in nodes ==> n.value.unit == conf.unit
    {
    }

    /** A block in a user's hands is not in the list, whatever node stands for it. */
    lemma UsedNotListed(n: Node<Mem>)
      requires Valid() && n.value in used
      ensures n !in free.contents
    {
    }

    /** `init` of one size. */
    constructor (u: UnitConf)
      ensures Valid() && conf == u && View() == InitMems(u) && fresh(free) && fresh(nodes)
    {
      conf := u;
      free := new SList<Mem>();
      total, used, nodes := 0, {}, {};
      new;
      nodes := MoreMems(u.conf.initCnt, free);
      total := u.conf.initCnt;
      NewMemsOk(u.unit, 0, u.conf.initCnt);
    }

    /** The loop of `push(new_mem(unit))`, onto an empty list. */
    method MoreMems(cnt: nat, list: SList<Mem>) returns (ghost made: set<Node<Mem>>)
      requires list.Valid() && list.contents == []
      modifies list
      ensures list.Valid() && Values(list.contents) == NewMems(conf.unit, total, cnt)
      ensures fresh(made) && forall n :: n in list.contents ==> n in made
      ensures forall n :: n in made ==> n.value.unit == conf.unit
    {
      hide SList<Mem>.Valid;
      made := {};
      for i := 0 to cnt
        invariant list.Valid() && Values(list.contents) == NewMems(conf.unit, total, i)
        invariant fresh(made) && forall n :: n in list.contents ==> n in made
        invariant forall n :: n in made ==> n.value.unit == conf.unit
      {
        var n := new Node(Mem(conf.unit, total + i));
        ValuesJoin([n], list.contents);
        assert Values([n]) == [n.value];
        list.Push(n);
        made := made + {n};
      }
    }

    /** `inc_mem` */
    method MakeMore()
      requires Valid()
      modifies this`total, this`nodes, free
      ensures Valid() && View() == IncMem(conf, old(View()))
      ensures old(nodes) <= nodes && fresh(nodes - old(nodes))
    {
      var list := new SList<Mem>();
      hide MemsOk, SList<Mem>.Valid;
      ghost var made := MoreMems(conf.conf.stepCnt, list);
      assert forall i :: 0 <= i < |list.contents| ==> list.contents[i] in made;
      Adopt(list, made);
    }

    /** The new blocks go in front of the list. */
    method Adopt(list: SList<Mem>, ghost made: set<Node<Mem>>)
      requires Valid() && list != free && list.Valid()
      requires Values(list.contents) == NewMems(conf.unit, total, conf.conf.stepCnt)
      requires made !! nodes && forall n :: n in list.contents ==> n in made
      requires forall n :: n in made ==> n.value.unit == conf.unit
      modifies this`total, this`nodes, free, list, list.contents
      ensures Valid() && View() == IncMem(conf, old(View())) && nodes == old(nodes) + made
    {
      hide SList<Mem>.Valid, MemsOk, NewMems;
      IncKeeps(conf, View());
      ValuesJoin(list.contents, free.contents);
      hide Values;
      ghost var front, back := list.contents, free.contents;
      free.PushAll(list);
      assert free.contents == front + back;
      total := total + conf.conf.stepCnt;
      nodes := nodes + made;
      assert View() == IncMem(conf, old(View()));
    }

    /** `free_.pop()` */
    method PopFree() returns (n: Node?<Mem>)
      requires Valid()
      modifies this`used, free, free.contents
      ensures Valid()
      ensures var (ms, m) := TakeFree(old(View()));
              View() == ms && (n == null <==> m.None?)
              && (n != null ==> m == Some(n.value) && n in nodes && n.next == null)
    {
      hide SList<Mem>.Valid;
      TakeKeeps(conf.unit, View());
      assert free.contents != [] ==> free.contents[0].value == Values(free.contents)[0] && free.contents[0] in nodes;
      hide MemsOk, Values;
      if free.contents != [] { ValuesSplit(free.contents, 1); }
      n := free.Pop();
      if n != null { used := used + {n.value}; }
    }

    /** `get` for this size; the second look at the list, under its lock, is for a block returned meanwhile. */
    method Get() returns (n: Node?<Mem>)
      requires Valid()
      modifies this, free, nodes
      ensures Valid() && old(nodes) <= nodes && fresh(nodes - old(nodes))
      ensures var (ms, m) := GetUnit(conf, old(View()));
              View() == ms && (n == null <==> m.None?)
              && (n != null ==> m == Some(n.value) && n in nodes && n.next == null)
    {
      hide MemsOk, IncMem;
      n := PopFree();
      if n == null {
        n := PopFree();
        if n == null {
          MakeMore();
          n := PopFree();
        }
      }
    }

    /** `ret` for this size. */
    method Ret(n: Node<Mem>)
      requires Valid() && n in nodes && n.value in used
      modifies this`used, free, n
      ensures Valid() && View() == RetUnit(old(View()), n.value)
    {
      UsedNotListed(n);
      RetUnitKeeps(conf.unit, View(), n.value);
      ValuesJoin([n], free.contents);
      assert Values([n]) == [n.value];
      hide MemsOk, Values;
      free.Push(n);
      used := used - {n.value};
    }
  }

  /** `MemPool`: a pool for each size. `view` is what the pool stands for, `owned` are all blocks it ever
      made, `repr` all its objects. */
  class MemPool {
    const conf: seq<UnitConf>
    var pools: seq<UnitPool>
    var bigCnt: nat
    ghost var view: Pool
    ghost var owned: set<Node<Mem>>
    ghost var repr: set<object>

    /** Pool `k` is one of the sizes, and its objects are of this pool. */
    ghost predicate PoolOk(k: nat)
      reads this, pools, repr
      requires k < |pools| && k < |conf| && k < |view.classes|
    {
      && {pools[k], pools[k].free} <= repr && pools[k].nodes <= owned <= repr
      && pools[k].conf == conf[k] && pools[k].Valid() && pools[k].View() == view.classes[k]
      && (forall n :: n in owned && n.value.unit == conf[k].unit ==> n in pools[k].nodes)
    }

    /** The pools are separate objects; their blocks differ in their unit. */
    ghost predicate Apart()
      reads this
    {
      forall j, k :: 0 <= j < |pools| && 0 <= k < |pools| && j != k ==>
        pools[j] != pools[k] && pools[j].free != pools[k].free
    }

    ghost predicate Valid()
      reads this, pools, repr
    {
      && ValidConf(conf) && |pools| == |view.classes| == |conf| && this !in repr
      && (forall k :: 0 <= k < |conf| ==> PoolOk(k))
      && Apart()
      && BigOk(conf, view) && bigCnt == view.bigCnt && owned <= repr
    }

    /** What the pools keep is the invariant of the whole. */
    lemma ValidInv()
      requires Valid()
      ensures Inv(conf, view)
    {
      forall k | 0 <= k < |conf| ensures MemsOk(conf[k].unit, view.classes[k]) { assert PoolOk(k); }
    }

    /** No block is of two pools. */
    lemma NodesApart(j: nat, k: nat)
      requires Valid() && j < |conf| && k < |conf| && j != k
      ensures pools[j].nodes !! pools[k].nodes
    {
      UnitsIncrease(conf);
      assert PoolOk(j) && PoolOk(k) && conf[j].unit != conf[k].unit;
    }

    /** `new_mem(size)` */
    method NewBig(size: nat) returns (n: Node<Mem>)
      requires Valid() && size > MaxUnit(conf)
      modifies this`bigCnt, this`view, this`repr, this`owned
      ensures owned == old(owned) + {n}
      ensures Valid() && fresh(n) && repr == old(repr) + {n} && n.next == null && n.value == Mem(size, old(bigCnt))
      ensures view == old(view).(big := old(view).big + {n.value}, bigCnt := old(view).bigCnt + 1)
    {
      n := new Node(Mem(size, bigCnt));
      repr, owned := repr + {n}, owned + {n};
      UnitsIncrease(conf);
      view := view.(big := view.big + {n.value}, bigCnt := bigCnt + 1);
      bigCnt := bigCnt + 1;
      forall k | 0 <= k < |conf| ensures PoolOk(k) { assert old(PoolOk(k)); }
    }

    /** A pool whose objects are as before stays as it is. */
    twostate lemma Stays(j: nat)
      requires j < |conf| && j < |pools| && j < old(|pools|) && j < |view.classes| && j < old(|view.classes|)
      requires old(PoolOk(j)) && pools[j] == old(pools[j]) && view.classes[j] == old(view.classes[j])
      requires old(repr) <= repr && old(owned) <= owned <= repr
      requires forall n :: n in owned && n !in old(owned) ==> n.value.unit != conf[j].unit
      requires unchanged(pools[j]) && unchanged(pools[j].free) && forall n :: n in old(pools[j].nodes) ==> unchanged(n)
      ensures PoolOk(j)
    {
    }

    /** `get` of one size, which touches no other. */
    method GetOf(k: nat) returns (n: Node?<Mem>)
      requires Valid() && k < |conf|
      modifies pools[k], pools[k].free, pools[k].nodes
      ensures pools[k].Valid() && old(pools[k].nodes) <= pools[k].nodes && fresh(pools[k].nodes - old(pools[k].nodes))
      ensures var (ms, m) := GetUnit(conf[k], old(view).classes[k]);
              && pools[k].View() == ms
              && (n == null <==> m.None?) && (n != null ==> m == Some(n.value) && n in pools[k].nodes && n.next == null)
      ensures forall j :: 0 <= j < |conf| && j != k ==> PoolOk(j)
    {
      assert PoolOk(k);
      forall j | 0 <= j < |conf| && j != k ensures pools[j].nodes !! pools[k].nodes { NodesApart(j, k); }
      hide UnitPool.Valid, GetUnit;
      n := pools[k].Get();
      forall j | 0 <= j < |conf| && j != k ensures PoolOk(j) { Stays(j); }
    }

    method GetFrom(k: nat) returns (n: Node?<Mem>)
      requires Valid() && k < |conf|
      modifies this`repr, this`view, this`owned, pools[k], pools[k].free, pools[k].nodes
      ensures Valid() && old(repr) <= repr && fresh(repr - old(repr)) && old(owned) <= owned
      ensures var (ms, m) := GetUnit(conf[k], old(view).classes[k]);
              && view == old(view).(classes := old(view).classes[k := ms])
              && (n == null <==> m.None?) && (n != null ==> m == Some(n.value) && n in owned && n.next == null)
    {
      assert PoolOk(k);
      hide UnitPool.Valid, GetUnit;
      n := GetOf(k);
      Record(k);
    }

    /** One pool has changed. */
    ghost method Record(k: nat)
      requires ValidConf(conf) && |pools| == |view.classes| == |conf| && this !in repr && Apart()
      requires BigOk(conf, view) && bigCnt == view.bigCnt && k < |conf| && owned <= repr
      requires forall n :: n in owned && n.value.unit == conf[k].unit ==> n in pools[k].nodes
      requires forall j :: 0 <= j < |conf| && j != k ==> PoolOk(j)
      requires pools[k].conf == conf[k] && pools[k].Valid() && pools[k] in repr && pools[k].free in repr
      modifies this`repr, this`view, this`owned
      ensures Valid() && repr == old(repr) + pools[k].nodes && owned == old(owned) + pools[k].nodes
      ensures view == old(view).(classes := old(view).classes[k := pools[k].View()])
    {
      hide UnitPool.Valid, UnitPool.View;
      UnitsIncrease(conf);
      pools[k].OfUnit();
      repr, owned := repr + pools[k].nodes, owned + pools[k].nodes;
      view := view.(classes := view.classes[k := pools[k].View()]);
      forall j | 0 <= j < |conf| && j != k ensures PoolOk(j) { Stays(j); }
      assert PoolOk(k);
    }

    /** `get(size)` */
    method GetMem(size: nat) returns (n: Node?<Mem>)
      requires Valid()
      modifies this, repr
      ensures Valid() && old(repr) <= repr && fresh(repr - old(repr)) && old(owned) <= owned
      ensures var (p, m) := Get(conf, old(view), size);
              && view == p && (n == null <==> m.None?)
              && (n != null ==> m == Some(n.value) && n in owned && n.next == null)
    {
      if size > MaxUnit(conf) {
        n := NewBig(size);
        return;
      }
      var k := ClassOf(Units(conf), size);
      assert PoolOk(k);
      hide UnitPool.Valid, GetUnit, RoundUp;
      n := GetFrom(k);
    }

    /** `ret(mem)`, when nobody holds the block any more: it goes in front of the list of its size, whose blocks are
        chained through their own links; above the largest unit it is deleted. */
    method RetMem(n: Node<Mem>)
      requires Valid() && n in owned && InUse(view, n.value)
      modifies this`view, this`repr, this`owned, repr
      ensures Valid() && view == Ret(conf, old(view), n.value) && repr == old(repr) && owned == old(owned)
    {
      ValidInv();
      UsedWhere(conf, view, n.value);
      hide RetUnit, RoundUp, Inv, InUse;
      if n.value.unit > MaxUnit(conf) {
        DelMem(n);
      } else {
        var k := ClassOf(Units(conf), n.value.unit);
        assert PoolOk(k);
        RetFrom(k, n);
      }
    }

    /** `del_mem` */
    ghost method DelMem(n: Node<Mem>)
      requires Valid()
      modifies this`view
      ensures Valid() && view == old(view).(big := old(view).big - {n.value})
    {
      view := view.(big := view.big - {n.value});
      forall k | 0 <= k < |conf| ensures PoolOk(k) { assert old(PoolOk(k)); }
    }

    method RetFrom(k: nat, n: Node<Mem>)
      requires Valid() && k < |conf| && n in pools[k].nodes && n.value in view.classes[k].used
      modifies this`view, this`repr, this`owned, pools[k], pools[k].free, n
      ensures Valid() && repr == old(repr) && owned == old(owned) + old(pools[k].nodes)
      ensures view == old(view).(classes := old(view).classes[k := RetUnit(old(view).classes[k], n.value)])
    {
      assert PoolOk(k);
      hide UnitPool.Valid, RetUnit;
      RetTo(k, n);
      Record(k);
    }

    /** `ret` of one size, which touches no other. */
    method RetTo(k: nat, n: Node<Mem>)
      requires Valid() && k < |conf| && n in pools[k].nodes && n.value in view.classes[k].used
      modifies pools[k], pools[k].free, n
      ensures pools[k].Valid() && pools[k].nodes == old(pools[k].nodes)
      ensures pools[k].View() == RetUnit(old(view).classes[k], n.value)
      ensures forall j :: 0 <= j < |conf| && j != k ==> PoolOk(j)
    {
      assert PoolOk(k);
      forall j | 0 <= j < |conf| && j != k ensures pools[j].nodes !! pools[k].nodes { NodesApart(j, k); }
      hide UnitPool.Valid, RetUnit;
      pools[k].Ret(n);
      forall j | 0 <= j < |conf| && j != k ensures PoolOk(j) { Stays(j); }
    }

    /** `init` */
    constructor (given: seq<UnitConf>)
      requires given == [] || ValidConf(given)
      ensures Valid() && conf == Effective(given) && view == Init(conf) && fresh(repr)
      ensures given != [] ==> conf == given
      ensures given == [] ==> Units(conf) == [1024, 2048, 4096, 8192]
    {
      EffectiveIsValid(given);
      conf := Effective(given);
      pools, bigCnt, view, owned, repr := [], 0, Pool([], {}, 0), {}, {};
      new;
      for k := 0 to |conf|
        invariant Filled(k) && fresh(repr)
      {
        AddPool(k);
      }
      assert view == Init(conf);
    }

    /** The first `k` sizes have their pools. */
    ghost predicate Filled(k: nat)
      reads this, pools, repr
    {
      && k == |pools| == |view.classes| <= |conf| && this !in repr && Apart()
      && view.big == {} && view.bigCnt == bigCnt == 0
      && owned <= repr && ValidConf(conf)
      && (forall n, j :: n in owned && k <= j < |conf| ==> n.value.unit != conf[j].unit)
      && forall j :: 0 <= j < k ==> PoolOk(j) && view.classes[j] == InitMems(conf[j])
    }

    method AddPool(k: nat)
      requires Filled(k) && k < |conf|
      modifies this`pools, this`repr, this`view, this`owned
      ensures Filled(k + 1) && old(repr) <= repr && fresh(repr - old(repr))
    {
      hide UnitPool.Valid, UnitPool.View, InitMems;
      assert k < |conf|;
      hide Filled;
      var u := new UnitPool(conf[k]);
      assert u !in old(repr) && u.free !in old(repr) && u.nodes !! old(owned);
      Append(k, u);
    }

    /** The pools there were stay as they are. */
    twostate lemma FirstStay(k: nat, new u: UnitPool)
      requires k == old(|pools|) == old(|view.classes|) <= |conf| && pools == old(pools) + [u]
      requires view.classes == old(view).classes + [u.View()]
      requires forall j :: 0 <= j < k ==> old(PoolOk(j))
      requires old(repr) <= repr && old(owned) <= owned <= repr && forall o :: o in old(repr) ==> unchanged(o)
      requires forall n, j :: n in owned && n !in old(owned) && 0 <= j < k ==> n.value.unit != conf[j].unit
      ensures forall j :: 0 <= j < k ==> PoolOk(j)
    {
      hide UnitPool.Valid;
      forall j | 0 <= j < k ensures PoolOk(j) {
        assert old(PoolOk(j));
        Stays(j);
      }
    }

    method Append(k: nat, u: UnitPool)
      requires Filled(k) && k < |conf| && u !in repr && u.free !in repr && u.nodes !! owned
      requires u.conf == conf[k] && u.Valid() && u.View() == InitMems(conf[k])
      modifies this`pools, this`repr, this`view, this`owned
      ensures Filled(k + 1) && repr == old(repr) + {u, u.free} + u.nodes
    {
      UnitsIncrease(conf);
      hide UnitPool.Valid, UnitPool.View, InitMems, ValidConf;
      forall j | 0 <= j < k ensures PoolOk(j) && pools[j] != u && pools[j].free != u.free { assert PoolOk(j); }
      assert Apart();
      Put(k, u);
    }

    method Put(k: nat, u: UnitPool)
      requires k == |pools| == |view.classes| < |conf| && u.conf == conf[k] && u.Valid()
      requires forall j :: 0 <= j < k ==> PoolOk(j)
      requires forall n :: n in owned ==> n.value.unit != conf[k].unit
      requires forall n, j :: n in u.nodes && 0 <= j < k ==> n.value.unit != conf[j].unit
      requires owned <= repr && this !in repr
      modifies this`pools, this`repr, this`view, this`owned
      ensures pools == old(pools) + [u] && repr == old(repr) + {u, u.free} + u.nodes && owned == old(owned) + u.nodes
      ensures view == old(view).(classes := old(view).classes + [u.View()])
      ensures forall j :: 0 <= j <= k ==> PoolOk(j)
    {
      hide UnitPool.Valid, UnitPool.View;
      pools := pools + [u];
      repr, owned := repr + {u, u.free} + u.nodes, owned + u.nodes;
      view := view.(classes := view.classes + [u.View()]);
      FirstStay(k, u);
      assert PoolOk(k);
    }

    /** `state`: total, free and use of each size. */
    method State() returns (total: seq<nat>, free: seq<nat>, use: seq<int>)
      requires Valid()
      ensures |total| == |free| == |use| == |conf|
      ensures forall k :: 0 <= k < |conf| ==>
                && total[k] == view.classes[k].total
                && free[k] == |view.classes[k].free| && use[k] == |view.classes[k].used|
    {
      total := [];
      free := [];
      use := [];
      for k := 0 to |conf|
        invariant k <= |conf| && |total| == k && |free| == k && |use| == k
        invariant forall j :: 0 <= j < k ==>
                    && total[j] == view.classes[j].total
                    && free[j] == |view.classes[j].free| && use[j] == |view.classes[j].used|
      {
        assert PoolOk(k);
        total := total + [pools[k].total];
        free := free + [pools[k].free.cnt];
        use := use + [pools[k].total - pools[k].free.cnt];
      }
    }
  }

  /** A block is got, comes back, and is the next one got of its size. */
  method GetAgain(p: MemPool, size: nat) returns (n: Node?<Mem>, m: Node?<Mem>)
    requires p.Valid()
    modifies p, p.repr
    ensures p.Valid() && (n != null ==> m != null)
    ensures n != null && size <= MaxUnit(p.conf) ==> m.value == n.value
  {
    p.ValidInv();
    GetGives(p.conf, p.view, size);
    hide MemPool.Valid, Inv, InUse, RoundUp;
    n := p.GetMem(size);
    m := null;
    if n == null { return; }
    GotAgain(p.conf, old(p.view), size);
    p.RetMem(n);
    m := p.GetMem(size);
  }

  /** The free list is last in, first out. */
  lemma GotAgain(c: seq<UnitConf>, p: Pool, size: nat)
    requires ValidConf(c) && Inv(c, p) && Get(c, p, size).1.Some?
    ensures var (q, m) := Get(c, p, size);
            var (_, n) := Get(c, Ret(c, q, m.value), size);
            n.Some? && (size <= MaxUnit(c) ==> n == m)
  {
    GetGives(c, p, size);
    hide Inv, RoundUp;
    if size <= MaxUnit(c) {
      var k := ClassOf(Units(c), size);
      ClassOfUnit(c, k);
    }
  }
}
