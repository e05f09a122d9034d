/** `SessionPool`: sessions, numbered in the order they are created, are free or in use. */
module SessionPool {
  import opened Options
  import opened Seqs

  type Sess = nat

  /** The counts the server is configured with. */
  datatype Conf = Conf(preCnt: nat, incCnt: nat, maxCnt: nat, acceptCnt: nat)

  datatype Pool = Pool(free: seq<Sess>, inUse: set<Sess>, total: nat)

  /** `create_cnt` */
  function CreateCnt(c: Conf, total: nat): (n: nat) {
    if total >= c.maxCnt then 0
    else if c.maxCnt - total >= c.incCnt then c.incCnt
    else c.maxCnt - total
  }

  /** The most sessions the pool will ever have created. */
  function Cap(c: Conf): nat {
    if c.incCnt == 0 || c.maxCnt < c.preCnt then c.preCnt else c.maxCnt
  }

  /** `create(cnt)`: each new session goes to the front of the free list. */
  function Create(p: Pool, cnt: nat): (q: Pool)
    ensures |q.free| == |p.free| + cnt
    decreases cnt
  {
    if cnt == 0 then p else Create(Pool([p.total] + p.free, p.inUse, p.total + 1), cnt - 1)
  }

  function InitPool(c: Conf): Pool { Create(Pool([], {}, 0), c.preCnt) }

  /** `pop()` */
  function Pop(c: Conf, p: Pool): (Pool, Option<Sess>) {
    var q := if p.free == [] then Create(p, CreateCnt(c, p.total)) else p;
    if q.free == [] then (q, None)
    else (Pool(q.free[1..], q.inUse + {q.free[0]}, q.total), Some(q.free[0]))
  }

  /** `push(s)` */
  function Push(p: Pool, s: Sess): Pool { Pool([s] + p.free, p.inUse - {s}, p.total) }

  /** Every session created is free, once, or in use. */
  ghost predicate ValidPool(p: Pool) {
    && (forall s :: s in p.free ==> s < p.total && s !in p.inUse)
    && (forall s :: s in p.inUse ==> s < p.total)
    && (forall s :: 0 <= s < p.total ==> s in p.free || s in p.inUse)
    && Distinct(p.free)
    && p.total == |p.free| + |p.inUse|
  }

  lemma {:induction false} CreateKeeps(p: Pool, cnt: nat)
    requires ValidPool(p)
    ensures var q := Create(p, cnt);
            && ValidPool(q) && q.total == p.total + cnt && q.inUse == p.inUse && |q.free| == |p.free| + cnt
    decreases cnt
  {
    if cnt > 0 {
      var q := Pool([p.total] + p.free, p.inUse, p.total + 1);
      DistinctCons(p.total, p.free);
      CreateKeeps(q, cnt - 1);
    }
  }

  /** What the pool keeps at the sizes it is configured with. */
  ghost predicate Sized(c: Conf, p: Pool) { ValidPool(p) && c.preCnt <= p.total <= Cap(c) }

  lemma InitIsSized(c: Conf)
    ensures Sized(c, InitPool(c)) && InitPool(c).inUse == {} && InitPool(c).total == c.preCnt
  {
    CreateKeeps(Pool([], {}, 0), c.preCnt);
  }

  lemma TakeFront(p: Pool)
    requires ValidPool(p) && p.free != []
    ensures ValidPool(Pool(p.free[1..], p.inUse + {p.free[0]}, p.total))
  {
    var f, rest := p.free[0], p.free[1..];
    assert p.free == [f] + rest;
    DistinctCons(f, rest);
    hide Distinct;
    assert forall s :: s in p.free <==> s == f || s in rest;
  }

  function Max(a: nat, b: nat): nat { if a < b then b else a }

  /** `pop` gives a session nobody has, the one that came back last if one is free; else it creates `inc_cnt_`, or as
      many as the configuration still allows. It gives none exactly when none is free and all that may be
      created are. */
  lemma PopGives(c: Conf, p: Pool)
    requires Sized(c, p)
    ensures var (q, s) := Pop(c, p);
            && Sized(c, q) && p.total <= q.total
            && (s.Some? ==> s.value !in p.inUse && q.inUse == p.inUse + {s.value})
            && (s.Some? <==> |p.inUse| < Cap(c))
            && (s.None? ==> q == p && p.free == [] && p.total == Cap(c))
            && (p.free != [] ==> q.total == p.total && s == Some(p.free[0]))
            && (p.free == [] ==>
                  && q.total <= Max(p.total, c.maxCnt) && q.total <= p.total + c.incCnt
                  && (q.total < p.total + c.incCnt ==> q.total >= c.maxCnt))
  {
    hide Distinct, Create;
    CreateKeeps(p, CreateCnt(c, p.total));
    var q := if p.free == [] then Create(p, CreateCnt(c, p.total)) else p;
    if q.free != [] { TakeFront(q); }
  }

  lemma PushKeeps(c: Conf, p: Pool, s: Sess)
    requires Sized(c, p) && s in p.inUse
    ensures Sized(c, Push(p, s))
  {
    DistinctCons(s, p.free);
  }

  /** A session that comes back is the next one given, and nothing else has changed then. */
  lemma PushThenPop(c: Conf, p: Pool, s: Sess)
    requires s in p.inUse
    ensures Pop(c, Push(p, s)) == (p, Some(s))
  {
    assert ([s] + p.free)[1..] == p.free;
    assert p.inUse - {s} + {s} == p.inUse;
  }

  /** The pool's fields. */
  class SessionPool {
    const conf: Conf
    var free: seq<Sess>
    var inUse: set<Sess>
    var totalCnt: nat

    ghost function View(): Pool
      reads this
    {
      Pool(free, inUse, totalCnt)
    }

    /** `init` */
    constructor (c: Conf)
      ensures conf == c && View() == InitPool(c)
    {
      conf := c;
      free, inUse, totalCnt := [], {}, 0;
      new;
      CreateSessions(c.preCnt);
    }

    method CreateSessions(cnt: nat)
      modifies this
      ensures View() == Create(old(View()), cnt)
    {
      ghost var goal := Create(View(), cnt);
      for i := 0 to cnt
        invariant goal == Create(View(), cnt - i)
      {
        free := [totalCnt] + free;
        totalCnt := totalCnt + 1;
      }
    }

    method PopSession() returns (s: Option<Sess>)
      modifies this
      ensures (View(), s) == Pop(conf, old(View()))
    {
      if free == [] {
        var cnt := CreateCnt(conf, totalCnt);
        if cnt == 0 { return None; }
        CreateSessions(cnt);
      }
      if free == [] { return None; }
      s := Some(free[0]);
      free := free[1..];
      inUse := inUse + {s.value};
    }

    method PushSession(s: Sess)
      modifies this
      ensures View() == Push(old(View()), s)
    {
      inUse := inUse - {s};
      free := [s] + free;
    }
  }
}
