/** `TlsMemPool`: a per-thread pool for each size class, and single blocks above the largest. */
module TlsMemPool {
  import opened Options
  import opened UnitClasses
  import T = ThreadCache

  /** One entry of the configuration. */
  type UnitConf = Entry<T.Conf>

  /** A block: its `unit_`, and its number among the blocks of its class, or among those above the largest unit. */
  datatype Mem = Mem(unit: nat, id: nat)

  /** `exceedNew` and `exceedDel` are the counters reported; `big` are the blocks above the largest unit in use. */
  datatype Pool = Pool(classes: seq<T.Class>, big: set<Mem>, exceedNew: nat, exceedDel: nat)

  /** `init` without a configuration takes this one. */
  const DEFAULT: seq<UnitConf> :=
    [Entry(1024, T.Conf(100, 10, 5)), Entry(2048, T.Conf(100, 10, 5)),
     Entry(4096, T.Conf(100, 10, 5)), Entry(8192, T.Conf(100, 10, 5))]

  function Effective(c: seq<UnitConf>): seq<UnitConf> { if c == [] then DEFAULT else c }

  /** The pool works with the map of sizes `init` is given, or with four sizes of its own if that is empty; in any case
      with sizes in increasing order, and at least one. */
  lemma EffectiveIsValid(c: seq<UnitConf>)
    requires c == [] || ValidConf(c)
    ensures ValidConf(Effective(c)) && (c != [] ==> Effective(c) == c)
    ensures c == [] ==>
              && Units(Effective(c)) == [1024, 2048, 4096, 8192]
              && forall k :: 0 <= k < 4 ==> Effective(c)[k].conf == T.Conf(100, 10, 5)
  {
    assert forall k :: 0 <= k < 4 ==> Units(DEFAULT)[k] == DEFAULT[k].unit;
  }

  function Init(c: seq<UnitConf>, threads: nat): Pool {
    Pool(seq(|c|, k requires 0 <= k < |c| => T.Init(c[k].conf, threads)), {}, 0, 0)
  }

  predicate Shaped(c: seq<UnitConf>, p: Pool, threads: nat) {
    ValidConf(c) && |p.classes| == |c| && forall k :: 0 <= k < |c| ==> |p.classes[k].caches| == threads
  }

  /** `get(size)` by thread `t`; None where the source would go on with a null pointer. */
  function Get(c: seq<UnitConf>, p: Pool, threads: nat, t: T.Tid, size: nat): (Pool, Option<Mem>)
    requires Shaped(c, p, threads) && t < threads
  {
    if size > MaxUnit(c) then
      var m := Mem(size, p.exceedNew);
      (p.(big := p.big + {m}, exceedNew := p.exceedNew + 1), Some(m))
    else
      var k := ClassOf(Units(c), size);
      var (s, m) := T.Get(c[k].conf, p.classes[k], t);
      (p.(classes := p.classes[k := s]), if m.Some? then Some(Mem(c[k].unit, m.value)) else None)
  }

  predicate InUse(c: seq<UnitConf>, p: Pool, m: Mem)
    requires |p.classes| == |c|
  {
    m in p.big || exists k :: 0 <= k < |c| && m.unit == c[k].unit && m.id in p.classes[k].used
  }

  /** `ret(mem)` by thread `t` */
  function Ret(c: seq<UnitConf>, p: Pool, threads: nat, t: T.Tid, m: Mem): Pool
    requires Shaped(c, p, threads) && t < threads
  {
    if m.unit > MaxUnit(c) then p.(big := p.big - {m}, exceedDel := p.exceedDel + 1)
    else
      var k := ClassOf(Units(c), m.unit);
      p.(classes := p.classes[k := T.Ret(c[k].conf, p.classes[k], t, m.id)])
  }

  datatype Op = GetOp(t: T.Tid, size: nat) | RetOp(t: T.Tid, m: Mem)

  predicate Enabled(c: seq<UnitConf>, p: Pool, threads: nat, o: Op) {
    Shaped(c, p, threads) && o.t < threads && (o.RetOp? ==> InUse(c, p, o.m))
  }

  function Do(c: seq<UnitConf>, p: Pool, threads: nat, o: Op): Pool
    requires Enabled(c, p, threads, o)
  {
    match o
    case GetOp(t, size) => Get(c, p, threads, t, size).0
    case RetOp(t, m) => Ret(c, p, threads, t, m)
  }

  predicate CanRun(c: seq<UnitConf>, threads: nat, os: seq<Op>)
    decreases |os|, 0
  {
    os == [] || (CanRun(c, threads, os[..|os| - 1])
                 && Enabled(c, Run(c, threads, os[..|os| - 1]), threads, os[|os| - 1]))
  }

  function Run(c: seq<UnitConf>, threads: nat, os: seq<Op>): Pool
    requires CanRun(c, threads, os)
    decreases |os|, 1
  {
    if os == [] then Init(c, threads) else Do(c, Run(c, threads, os[..|os| - 1]), threads, os[|os| - 1])
  }

  // ---- invariant

  ghost predicate ClassOk(u: UnitConf, s: T.Class, threads: nat) {
    T.Inv(u.conf, s) && T.ReportedUse(s) == |s.used| && |s.caches| == threads
  }

  ghost predicate BigOk(c: seq<UnitConf>, p: Pool) {
    && (forall m :: m in p.big ==> c != [] && m.unit > MaxUnit(c) && m.id < p.exceedNew)
    && p.exceedNew == p.exceedDel + |p.big|
  }

  ghost predicate Inv(c: seq<UnitConf>, p: Pool, threads: nat) {
    && |p.classes| == |c|
    && (forall k :: 0 <= k < |c| ==> ClassOk(c[k], p.classes[k], threads))
    && BigOk(c, p)
  }

  lemma InitInv(c: seq<UnitConf>, threads: nat)
    ensures Inv(c, Init(c, threads), threads)
  {
    forall k | 0 <= k < |c| ensures ClassOk(c[k], Init(c, threads).classes[k], threads) {
      T.InitInv(c[k].conf, threads);
      T.InitReports(c[k].conf, threads);
    }
  }

  lemma ClassStep(u: UnitConf, s: T.Class, threads: nat, o: T.Op)
    requires ClassOk(u, s, threads) && T.Enabled(s, o)
    ensures ClassOk(u, T.Do(u.conf, s, o), threads)
  {
    hide T.Inv, T.ReportedUse, T.Do;
    T.StepKeeps(u.conf, s, o);
    T.StepReports(u.conf, s, o);
  }

  lemma ClassReplaced(c: seq<UnitConf>, p: Pool, threads: nat, k: nat, s: T.Class)
    requires Inv(c, p, threads) && k < |c| && ClassOk(c[k], s, threads)
    ensures Inv(c, p.(classes := p.classes[k := s]), threads)
  {
    hide ClassOk;
  }

  /** Only class `k` has blocks of its unit. */
  lemma UsedInClass(c: seq<UnitConf>, p: Pool, threads: nat, k: nat, m: Mem)
    requires ValidConf(c) && Inv(c, p, threads) && k < |c| && m.unit == c[k].unit
    ensures InUse(c, p, m) <==> m.id in p.classes[k].used
  {
    UnitsIncrease(c);
    hide ClassOk;
  }

  lemma BigTaken(c: seq<UnitConf>, p: Pool, threads: nat, m: Mem)
    requires ValidConf(c) && Inv(c, p, threads) && m.unit > MaxUnit(c) && m.id == p.exceedNew
    ensures var p' := p.(big := p.big + {m}, exceedNew := p.exceedNew + 1);
            Inv(c, p', threads) && !InUse(c, p, m) && InUse(c, p', m)
  {
    UnitsIncrease(c);
    hide ClassOk;
  }

  /** The thread's cache for this size is empty, and nothing can be fetched. */
  predicate Exhausted(c: seq<UnitConf>, p: Pool, threads: nat, t: T.Tid, size: nat)
    requires Shaped(c, p, threads) && t < threads
  {
    size <= MaxUnit(c) &&
    var k := ClassOf(Units(c), size);
    var (s, conf) := (p.classes[k], c[k].conf);
    s.caches[t] == T.Cache([], []) && (conf.popCnt == 0 || (s.heap == [] && conf.cnt == 0))
  }

  lemma SmallGives(c: seq<UnitConf>, p: Pool, threads: nat, t: T.Tid, size: nat)
    requires Shaped(c, p, threads) && t < threads && Inv(c, p, threads) && size <= MaxUnit(c)
    ensures var (p', m) := Get(c, p, threads, t, size);
            && Inv(c, p', threads)
            && (m.Some? ==> m.value.unit == RoundUp(Units(c), size) && !InUse(c, p, m.value) && InUse(c, p', m.value))
            && (m.None? <==> Exhausted(c, p, threads, t, size))
  {
    var k := ClassOf(Units(c), size);
    var u, s := c[k], p.classes[k];
    assert ClassOk(u, s, threads);
    T.GetKeeps(u.conf, s, t);
    T.PopIsNull(u.conf, s.heap, s.caches[t], s.total);
    hide RoundUp, T.PopAny, T.Inv, T.ReportedUse, T.InOnePlace;
    ClassStep(u, s, threads, T.GetOp(t));
    var (s', id) := T.Get(u.conf, s, t);
    ClassReplaced(c, p, threads, k, s');
    if id.Some? {
      UsedInClass(c, p, threads, k, Mem(u.unit, id.value));
      UsedInClass(c, p.(classes := p.classes[k := s']), threads, k, Mem(u.unit, id.value));
    }
  }

  /** `get` gives a block nobody has, of the smallest unit that holds the request, or of exactly its size above the
      largest unit; when it gives none is known exactly. */
  lemma GetGives(c: seq<UnitConf>, p: Pool, threads: nat, t: T.Tid, size: nat)
    requires Shaped(c, p, threads) && t < threads && Inv(c, p, threads)
    ensures var (p', m) := Get(c, p, threads, t, size);
            && Inv(c, p', threads)
            && (m.Some? ==>
                  && m.value.unit == RoundUp(Units(c), size) >= size
                  && !InUse(c, p, m.value) && InUse(c, p', m.value))
            && (m.None? <==> Exhausted(c, p, threads, t, size))
  {
    RoundUpFits(Units(c), size);
    if size > MaxUnit(c) {
      BigRoundUp(c, size);
      BigTaken(c, p, threads, Mem(size, p.exceedNew));
    } else {
      hide Inv, InUse, RoundUp;
      SmallGives(c, p, threads, t, size);
    }
  }

  lemma RetKeeps(c: seq<UnitConf>, p: Pool, threads: nat, t: T.Tid, m: Mem)
    requires Shaped(c, p, threads) && t < threads && Inv(c, p, threads) && InUse(c, p, m)
    ensures Inv(c, Ret(c, p, threads, t, m), threads)
  {
    UnitsIncrease(c);
    if m.unit <= MaxUnit(c) {
      var k :| 0 <= k < |c| && m.unit == c[k].unit && m.id in p.classes[k].used;
      ClassOfUnit(c, k);
      hide RoundUp, ClassOk;
      ClassStep(c[k], p.classes[k], threads, T.RetOp(t, m.id));
      ClassReplaced(c, p, threads, k, T.Ret(c[k].conf, p.classes[k], t, m.id));
    }
  }

  lemma ReplaceUsed(c: seq<UnitConf>, p: Pool, k: nat, s: T.Class, id: Option<T.Mem>, x: Mem)
    requires ValidConf(c) && |p.classes| == |c| && k < |c|
    requires forall y :: y in s.used <==> y in p.classes[k].used || id == Some(y)
    ensures InUse(c, p.(classes := p.classes[k := s]), x)
            <==> InUse(c, p, x) || (x.unit == c[k].unit && id == Some(x.id))
  {
    UnitsIncrease(c);
    var q := p.(classes := p.classes[k := s]);
    if j :| 0 <= j < |c| && x.unit == c[j].unit && x.id in p.classes[j].used { assert x.id in q.classes[j].used; }
    if j :| 0 <= j < |c| && x.unit == c[j].unit && x.id in q.classes[j].used {
      assert j == k || x.id in p.classes[j].used;
    }
    if x.unit == c[k].unit && id == Some(x.id) { assert x.id in q.classes[k].used; }
  }

  lemma UsedAfterGet(conf: T.Conf, s: T.Class, t: T.Tid, y: T.Mem)
    requires t < |s.caches|
    ensures var (s', id) := T.Get(conf, s, t); y in s'.used <==> y in s.used || id == Some(y)
  {
    hide T.PopAny;
  }

  /** A request puts the block given into a user's hands and changes nothing else there. */
  lemma GetLeavesOthers(c: seq<UnitConf>, p: Pool, threads: nat, t: T.Tid, size: nat, x: Mem)
    requires Shaped(c, p, threads) && t < threads && Inv(c, p, threads)
    ensures var (p', m) := Get(c, p, threads, t, size); InUse(c, p', x) <==> InUse(c, p, x) || m == Some(x)
  {
    hide ClassOk, RoundUp, T.Get, BigOk;
    if size <= MaxUnit(c) {
      hide InUse;
      var k := ClassOf(Units(c), size);
      var (s, id) := T.Get(c[k].conf, p.classes[k], t);
      forall y ensures y in s.used <==> y in p.classes[k].used || id == Some(y) {
        UsedAfterGet(c[k].conf, p.classes[k], t, y);
      }
      ReplaceUsed(c, p, k, s, id, x);
    } else {
      AddBig(c, p, Mem(size, p.exceedNew), x);
    }
  }

  lemma AddBig(c: seq<UnitConf>, p: Pool, m: Mem, x: Mem)
    requires |p.classes| == |c|
    ensures InUse(c, p.(big := p.big + {m}, exceedNew := p.exceedNew + 1), x) <==> InUse(c, p, x) || x == m
  {
  }

  lemma RemoveUsed(c: seq<UnitConf>, p: Pool, k: nat, s: T.Class, m: Mem, x: Mem)
    requires ValidConf(c) && |p.classes| == |c| && k < |c| && c[k].unit == m.unit && m !in p.big
    requires forall y :: y in s.used <==> y in p.classes[k].used && y != m.id
    ensures InUse(c, p.(classes := p.classes[k := s]), x) <==> InUse(c, p, x) && x != m
  {
    UnitsIncrease(c);
    var q := p.(classes := p.classes[k := s]);
    if j :| 0 <= j < |c| && x.unit == c[j].unit && x.id in q.classes[j].used { assert x.id in p.classes[j].used; }
    if j :| 0 <= j < |c| && x.unit == c[j].unit && x.id in p.classes[j].used {
      assert x != m ==> x.id in q.classes[j].used;
    }
  }

  lemma RemoveBig(c: seq<UnitConf>, p: Pool, m: Mem, x: Mem)
    requires ValidConf(c) && |p.classes| == |c| && m.unit > MaxUnit(c)
    ensures InUse(c, p.(big := p.big - {m}), x) <==> InUse(c, p, x) && x != m
  {
    UnitsIncrease(c);
  }

  /** A return takes the block returned out of a user's hands and changes nothing else there. */
  lemma RetLeavesOthers(c: seq<UnitConf>, p: Pool, threads: nat, t: T.Tid, m: Mem, x: Mem)
    requires Shaped(c, p, threads) && t < threads && Inv(c, p, threads) && InUse(c, p, m)
    ensures InUse(c, Ret(c, p, threads, t, m), x) <==> InUse(c, p, x) && x != m
  {
    if m.unit > MaxUnit(c) {
      RemoveBig(c, p, m, x);
    } else {
      var k :| 0 <= k < |c| && m.unit == c[k].unit && m.id in p.classes[k].used;
      ClassOfUnit(c, k);
      UsedOnce(c[k], p.classes[k], threads, m.id);
      hide ClassOk, RoundUp, T.PushBack, InUse;
      RemoveUsed(c, p, k, T.Ret(c[k].conf, p.classes[k], t, m.id), m, x);
    }
  }

  lemma UsedOnce(u: UnitConf, s: T.Class, threads: nat, id: nat)
    requires ClassOk(u, s, threads) && id in s.used
    ensures s.used[id] == 1
  {
    hide T.Times, T.TimesAll;
    assert T.InOnePlace(s, id);
  }

  lemma {:induction false} RunKeepsInv(c: seq<UnitConf>, threads: nat, os: seq<Op>)
    requires CanRun(c, threads, os)
    ensures Inv(c, Run(c, threads, os), threads)
  {
    hide Inv, Get, Ret;
    if os == [] {
      InitInv(c, threads);
    } else {
      var p := Run(c, threads, os[..|os| - 1]);
      RunKeepsInv(c, threads, os[..|os| - 1]);
      match os[|os| - 1] {
        case GetOp(t, size) => GetGives(c, p, threads, t, size);
        case RetOp(t, m) => RetKeeps(c, p, threads, t, m);
      }
    }
  }

  /** What a step of the pool is for class `k`, if anything. */
  function OfClass(c: seq<UnitConf>, o: Op, k: nat): seq<T.Op>
    requires ValidConf(c) && k < |c|
  {
    var unit := if o.GetOp? then o.size else o.m.unit;
    if unit > MaxUnit(c) || ClassOf(Units(c), unit) != k then []
    else [if o.GetOp? then T.GetOp(o.t) else T.RetOp(o.t, o.m.id)]
  }

  /** What a run of the pool is for class `k`. */
  function AllOfClass(c: seq<UnitConf>, os: seq<Op>, k: nat): seq<T.Op>
    requires ValidConf(c) && k < |c|
  {
    if os == [] then [] else AllOfClass(c, os[..|os| - 1], k) + OfClass(c, os[|os| - 1], k)
  }

  /** Each class is a pool of its own, with the counts configured for it, of the requests and returns of its sizes. */
  lemma {:induction false} ClassesApart(c: seq<UnitConf>, threads: nat, os: seq<Op>, k: nat)
    requires ValidConf(c) && CanRun(c, threads, os) && k < |c|
    ensures T.CanRun(c[k].conf, threads, AllOfClass(c, os, k))
    ensures |Run(c, threads, os).classes| == |c|
    ensures Run(c, threads, os).classes[k] == T.Run(c[k].conf, threads, AllOfClass(c, os, k))
  {
    hide Inv, RoundUp;
    if os != [] {
      var front, o := os[..|os| - 1], os[|os| - 1];
      ClassesApart(c, threads, front, k);
      RunKeepsInv(c, threads, front);
      ClassStepApart(c, Run(c, threads, front), threads, o, k);
      hide Do, Enabled, OfClass, T.Do, T.Enabled;
      if OfClass(c, o, k) == [] {
        assert AllOfClass(c, os, k) == AllOfClass(c, front, k);
      } else {
        var all := AllOfClass(c, os, k);
        assert all[..|all| - 1] == AllOfClass(c, front, k) && all[|all| - 1] == OfClass(c, o, k)[0];
      }
    }
  }

  lemma ClassStepApart(c: seq<UnitConf>, p: Pool, threads: nat, o: Op, k: nat)
    requires Enabled(c, p, threads, o) && Inv(c, p, threads) && k < |c|
    ensures var q, ts := Do(c, p, threads, o), OfClass(c, o, k);
            && |q.classes| == |c| && |ts| <= 1
            && (ts == [] ==> q.classes[k] == p.classes[k])
            && (ts != [] ==>
                  T.Enabled(p.classes[k], ts[0]) && q.classes[k] == T.Do(c[k].conf, p.classes[k], ts[0]))
  {
    hide ClassOk, RoundUp, T.PopAny, T.PushBack;
    if o.RetOp? && o.m.unit <= MaxUnit(c) {
      UnitsIncrease(c);
      var j :| 0 <= j < |c| && o.m.unit == c[j].unit && o.m.id in p.classes[j].used;
      ClassOfUnit(c, j);
    }
  }

  /** After any requests and returns by any threads: in every class each block carved is in one place and the use
      reported is the number of blocks in users' hands; and the two counters differ by the number of larger blocks in
      use. */
  lemma PoolReports(c: seq<UnitConf>, threads: nat, os: seq<Op>)
    requires CanRun(c, threads, os)
    ensures var p := Run(c, threads, os);
            && |p.classes| == |c| && p.exceedNew == p.exceedDel + |p.big|
            && forall k :: 0 <= k < |c| ==>
                 T.ReportedUse(p.classes[k]) == |p.classes[k].used| && forall x :: T.InOnePlace(p.classes[k], x)
  {
    RunKeepsInv(c, threads, os);
    hide T.InOnePlace, T.ReportedUse;
    assert forall k :: 0 <= k < |c| ==> ClassOk(c[k], Run(c, threads, os).classes[k], threads);
  }
}
