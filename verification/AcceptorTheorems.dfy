/** What the acceptor promises, over every interleaving of its handlers. */
module AcceptorTheorems {
  import opened Options
  import opened Seqs
  import opened SessionPool
  import opened Acceptor
  import opened AcceptorSteps
  import opened AcceptorInvariants

  // ---- nothing is lost, nothing is twice

  function Times(b: bool): nat { if b then 1 else 0 }

  predicate HasAov(th: Thr, a: Aov) { th.k == KConn(a) || AovOf(th.act) == Some(a) }

  predicate HasSess(th: Thr, x: Sess) { SessOf(th.act) == Some(x) }

  function AovCarriers(thr: seq<Thr>, a: Aov): nat {
    if thr == [] then 0 else AovCarriers(thr[..|thr| - 1], a) + Times(HasAov(thr[|thr| - 1], a))
  }

  function SessCarriers(thr: seq<Thr>, x: Sess): nat {
    if thr == [] then 0 else SessCarriers(thr[..|thr| - 1], x) + Times(HasSess(thr[|thr| - 1], x))
  }

  lemma {:induction false} AovCarriersAre(thr: seq<Thr>, a: Aov, u: int)
    requires forall t :: 0 <= t < |thr| ==> (HasAov(thr[t], a) <==> t == u)
    ensures AovCarriers(thr, a) == Times(0 <= u < |thr|)
  {
    if thr != [] {
      var n := |thr| - 1;
      assert HasAov(thr[n], a) <==> n == u;
      AovCarriersAre(thr[..n], a, u);
    }
  }

  lemma {:induction false} SessCarriersAre(thr: seq<Thr>, x: Sess, u: int)
    requires forall t :: 0 <= t < |thr| ==> (HasSess(thr[t], x) <==> t == u)
    ensures SessCarriers(thr, x) == Times(0 <= u < |thr|)
  {
    if thr != [] {
      var n := |thr| - 1;
      assert HasSess(thr[n], x) <==> n == u;
      SessCarriersAre(thr[..n], x, u);
    }
  }

  /** Each accept object is pooled, pending, dropped by a failed `acceptex`, or with one thread: exactly one of the
      four, once. Each session created is free, connected, accepting, dropped, or with one thread. */
  ghost predicate Conserved(c: Conf, s: St) {
    var g := s.g;
    && Distinct(g.pool.free) && Distinct(g.apool)
    && (forall a :: 0 <= a < c.acceptCnt ==>
          Times(a in g.apool) + Times(a in g.pend) + Times(a in g.lost) + AovCarriers(s.thr, a) == 1)
    && (forall a :: a in g.apool || a in g.pend || a in g.lost ==> a < c.acceptCnt)
    && (forall x :: 0 <= x < g.pool.total ==>
          Times(x in g.pool.free) + Times(x in g.connected) + Times(x in g.pend.Values) + Times(x in g.lost.Values)
          + SessCarriers(s.thr, x) == 1)
    && (forall a, b :: a in g.pend && b in g.pend && g.pend[a] == g.pend[b] ==> a == b)
    && (forall x :: x in g.pool.free || x in g.connected || x in g.pend.Values ==> x < g.pool.total)
  }

  lemma AovsConserved(c: Cfg, s: St, a: Aov)
    requires Places(c, s) && a < c.conf.acceptCnt
    ensures Times(a in s.g.apool) + Times(a in s.g.pend) + Times(a in s.g.lost) + AovCarriers(s.thr, a) == 1
  {
    var p := s.h.aovs[a];
    var u: int := if p.AovWith? then p.t else -1;
    forall t | 0 <= t < |s.thr| ensures HasAov(s.thr[t], a) <==> t == u { assert Local(s.h, t, s.thr[t]); }
    AovCarriersAre(s.thr, a, u);
    hide Distinct, Sized, SessOk, Local;
  }

  lemma SessConserved(c: Cfg, s: St, x: Sess)
    requires Places(c, s) && x < s.g.pool.total
    ensures Times(x in s.g.pool.free) + Times(x in s.g.connected) + Times(x in s.g.pend.Values)
            + Times(x in s.g.lost.Values) + SessCarriers(s.thr, x) == 1
  {
    var u: int := if x in s.h.sess && s.h.sess[x].SessWith? then s.h.sess[x].t else -1;
    forall t | 0 <= t < |s.thr| ensures HasSess(s.thr[t], x) <==> t == u { assert Local(s.h, t, s.thr[t]); }
    SessCarriersAre(s.thr, x, u);
    hide Distinct, AovsOk, Local;
    if x in s.h.sess && s.h.sess[x].Accepting? { assert s.g.pend[s.h.sess[x].a] == x; }
    if x in s.h.sess && s.h.sess[x].SessLost? { assert s.g.lost[s.h.sess[x].a] == x; }
  }

  lemma PoolsConserve(c: Cfg, s: St)
    requires GAovs(c, s) && GSess(c, s)
    ensures var g := s.g;
            && Distinct(g.pool.free) && Distinct(g.apool)
            && (forall a :: a in g.apool || a in g.pend || a in g.lost ==> a < c.conf.acceptCnt)
            && (forall a, b :: a in g.pend && b in g.pend && g.pend[a] == g.pend[b] ==> a == b)
            && (forall x :: x in g.pool.free || x in g.connected || x in g.pend.Values ==> x < g.pool.total)
  {
    hide Distinct;
  }

  lemma PlacesConserve(c: Cfg, s: St)
    requires Places(c, s)
    ensures Conserved(c.conf, s)
  {
    hide Local, Carried, Distinct, Times, AovCarriers, SessCarriers, GAovs, GSess;
    PoolsConserve(c, s);
    forall a | 0 <= a < c.conf.acceptCnt
      ensures Times(a in s.g.apool) + Times(a in s.g.pend) + Times(a in s.g.lost) + AovCarriers(s.thr, a) == 1
    {
      AovsConserved(c, s, a);
    }
    forall x | 0 <= x < s.g.pool.total
      ensures Times(x in s.g.pool.free) + Times(x in s.g.connected) + Times(x in s.g.pend.Values)
              + Times(x in s.g.lost.Values) + SessCarriers(s.thr, x) == 1
    {
      SessConserved(c, s, x);
    }
  }

  /** Over every interleaving of the handlers nothing is lost or in two places, and the counters differ from what they
      count by the threads that stand between a change and its count. */
  lemma ServerConserves(c: Cfg, ls: seq<Step>)
    requires CanRun(c, ls)
    ensures var s := Run(c, ls);
            && Conserved(c.conf, s)
            && s.g.acceptingCnt == |s.g.pend| + Sum(s.thr, Handles) - Sum(s.thr, Uncounted)
            && s.g.connectedCnt == |s.g.connected| + Sum(s.thr, Moves)
            && s.g.pool.total <= Cap(c.conf)
  {
    hide Conserved, CanRun, Run, Local, Carried, AovsOk, SessOk, Sum;
    RunKeepsInv(c, ls);
    PlacesConserve(c, Run(c, ls));
  }

  // ---- `accepting_cnt_` is 0

  /** The thread has an accept object, or one it has handed to the system is not counted yet. */
  predicate Stands(th: Thr) { th.k.KConn? || AovOf(th.act).Some? || th.act.CountUp? }

  /** When `uninit` reads 0, every accept object is in the pool exactly when no thread stands between taking one and
      counting it, or between its event and putting it back, and no `acceptex` has failed outright. */
  lemma UninitFindsAll(c: Cfg, ls: seq<Step>)
    requires CanRun(c, ls) && Run(c, ls).g.acceptingCnt == 0
    ensures var s := Run(c, ls);
            |s.g.apool| == c.conf.acceptCnt
            <==> s.g.lost == map[] && forall t :: 0 <= t < |s.thr| ==> !Stands(s.thr[t])
  {
    hide CanRun, Run, Places, Sum, AovOf;
    RunKeepsInv(c, ls);
    var s := Run(c, ls);
    SumZero(s.thr, Aovs);
    SumZero(s.thr, Handles);
    SumZero(s.thr, Uncounted);
    if forall t :: 0 <= t < |s.thr| ==> !Stands(s.thr[t]) {
      forall t | 0 <= t < |s.thr| ensures Aovs(s.thr[t]) == Handles(s.thr[t]) == Uncounted(s.thr[t]) == 0 {
        assert !Stands(s.thr[t]);
      }
    }
    if |s.g.apool| == c.conf.acceptCnt {
      assert s.g.pend == map[] && s.g.lost == map[] && Sum(s.thr, Aovs) == 0;
      forall t | 0 <= t < |s.thr| ensures !Stands(s.thr[t]) {
        assert Aovs(s.thr[t]) == 0 && Uncounted(s.thr[t]) == 0;
      }
    }
  }

  // ---- after the release

  /** The thread has passed the last test of `is_release_` before it calls `acceptex`. */
  function Past(th: Thr): nat { Times(th.act.TakeAov? || th.act.TakeSess? || th.act.Ex?) }

  /** How often thread `t` called `acceptex` after the first `n` steps. */
  ghost function AcceptsSince(c: Cfg, ls: seq<Step>, n: nat, t: Tid): nat
    requires CanRun(c, ls)
  {
    if |ls| <= n then 0
    else
      var front, l := ls[..|ls| - 1], ls[|ls| - 1];
      AcceptsSince(c, front, n, t) + Times(l.t == t && l.op.Go? && Run(c, front).thr[t].act.Ex?)
  }

  lemma StepPast(c: Cfg, s: St, l: Step, t: Tid)
    requires Enabled(c, s, l) && s.g.released && t < |s.thr|
    ensures var s' := Apply(c, s, l);
            && s'.g.released && |s'.thr| == |s.thr|
            && Times(l.t == t && l.op.Go? && s.thr[t].act.Ex?) + Past(s'.thr[t]) <= Past(s.thr[t])
  {
    hide Pop, Push, At, SessAt, GapElsewhere;
  }

  lemma {:induction false} ThreadsStay(c: Cfg, ls: seq<Step>)
    requires CanRun(c, ls)
    ensures |Run(c, ls).thr| == c.threads
  {
    hide Next, Call;
    if ls != [] { ThreadsStay(c, ls[..|ls| - 1]); }
  }

  /** Once `uninit` has set `is_release_`, each thread calls `acceptex` at most once more, and only if it had passed the
      test before. */
  lemma {:induction false} ReleaseStopsAccepting(c: Cfg, before: seq<Step>, ls: seq<Step>, t: Tid)
    requires CanRun(c, before) && CanRun(c, ls) && before <= ls && t < c.threads
    requires Run(c, before).g.released
    ensures Run(c, ls).g.released && |Run(c, ls).thr| == |Run(c, before).thr| == c.threads
    ensures AcceptsSince(c, ls, |before|, t) + Past(Run(c, ls).thr[t]) <= Past(Run(c, before).thr[t]) <= 1
  {
    hide Enabled, Apply, Start, Past, Times;
    ThreadsStay(c, before);
    AtMostOne(Run(c, before).thr[t]);
    if |ls| == |before| {
      assert ls == before;
    } else {
      var front, l := ls[..|ls| - 1], ls[|ls| - 1];
      ReleaseStopsAccepting(c, before, front, t);
      StepPast(c, Run(c, front), l, t);
    }
  }

  lemma AtMostOne(th: Thr)
    ensures Past(th) <= 1
  {
  }

  // ---- runs with one accept object and one session

  const ONE: Conf := Conf(1, 1, 1, 1)

  /** Thread `t` is at `act`, the others are as in `thr`. */
  predicate AtAct(s: St, thr: seq<Thr>, t: Tid, act: Act) { t < |thr| && s.thr == thr[t := Thr(KIdle, act)] }

  /** The next statement of thread `t`, while no other is about to give an object back. */
  lemma GoStep(c: Cfg, ls: seq<Step>, thr: seq<Thr>, t: Tid, act: Act, act2: Act) returns (ls2: seq<Step>)
    requires CanRun(c, ls) && AtAct(Run(c, ls), thr, t, act) && !act.Ready?
    requires c.guarded && Returns(act) ==> forall u :: 0 <= u < |thr| ==> !thr[u].act.GiveBack?
    requires var s := Run(c, ls); Next(c.conf, s.g, s.h, t, s.thr[t], true).2 == Thr(KIdle, act2)
    ensures CanRun(c, ls2) && AtAct(Run(c, ls2), thr, t, act2)
    ensures var s := Run(c, ls);
            var n := Next(c.conf, s.g, s.h, t, s.thr[t], true);
            Run(c, ls2).g == n.0 && Run(c, ls2).h == n.1
  {
    hide CanRun, Run, Next, Start;
    Extend(c, ls, Step(t, Go(true)));
    ls2 := ls + [Step(t, Go(true))];
  }

  lemma PopOfOne()
    ensures InitPool(ONE) == Pool([0], {}, 1) && AovList(1) == [0]
    ensures Pop(ONE, Pool([0], {}, 1)) == (Pool([], {0}, 1), Some(0))
    ensures Pop(ONE, Pool([], {0}, 1)) == (Pool([], {0}, 1), None)
  {
    var p := Pool([0], {}, 1);
    assert Create(p, 0) == p && p.free[1..] == [] && p.inUse + {0} == {0};
    assert Create(Pool([], {0}, 1), 0) == Pool([], {0}, 1);
  }

  /** `listen` has made its one accept pending. */
  predicate Listening(g: Svr) {
    && g.pool == Pool([], {0}, 1) && g.apool == [] && g.pend == map[0 := 0] && g.lost == map[] && g.connected == {}
    && g.acceptingCnt == 1 && g.connectedCnt == 0 && g.listening && !g.released
  }

  /** The one object and the one session are in the pools. */
  lemma StartOne(c: Cfg)
    requires c.conf == ONE
    ensures CanRun(c, []) && Run(c, []).thr == Idle(c.threads) && !Run(c, []).h.cut
    ensures Run(c, []).g == Svr(Pool([0], {}, 1), [0], map[], map[], {}, 0, 0, false, false)
  {
    PopOfOne();
    NoSteps(c);
    hide InitPool, AovList;
    assert Start(c).g == Svr(InitPool(ONE), AovList(1), map[], map[], {}, 0, 0, false, false);
  }

  /** A thread has the object and the session in its hands. */
  lemma ListenTakes(c: Cfg) returns (ls: seq<Step>)
    requires c.conf == ONE && c.threads >= 1
    ensures CanRun(c, ls) && AtAct(Run(c, ls), Idle(c.threads), 0, Ex(First, 0, 0)) && !Run(c, ls).h.cut
    ensures Run(c, ls).g == Svr(Pool([], {0}, 1), [], map[], map[], {}, 0, 0, true, false)
  {
    hide CanRun, Run, Start, Pop;
    PopOfOne();
    StartOne(c);
    var thr := Idle(c.threads);
    ls := [];
    Extend(c, ls, Step(0, CallListen));
    ls := ls + [Step(0, CallListen)];
    ls := GoStep(c, ls, thr, 0, LoopTest(First), LoopLook(First));
    ls := GoStep(c, ls, thr, 0, LoopLook(First), TakeTest(First));
    ls := GoStep(c, ls, thr, 0, TakeTest(First), TakeAov(First));
    ls := GoStep(c, ls, thr, 0, TakeAov(First), TakeSess(First, 0));
    ls := GoStep(c, ls, thr, 0, TakeSess(First, 0), Ex(First, 0, 0));
  }

  lemma ListenRuns(c: Cfg) returns (ls: seq<Step>)
    requires c.conf == ONE && c.threads >= 1
    ensures CanRun(c, ls) && Run(c, ls).thr == Idle(c.threads) && Listening(Run(c, ls).g) && !Run(c, ls).h.cut
  {
    var thr := Idle(c.threads);
    hide CanRun, Run, Pop;
    ls := ListenTakes(c);
    ls := GoStep(c, ls, thr, 0, Ex(First, 0, 0), CountUp(First));
    ls := GoStep(c, ls, thr, 0, CountUp(First), LoopLook(First));
    ls := GoStep(c, ls, thr, 0, LoopLook(First), Ready);
  }

  /** The system's answer to the accept, taken by thread 0. */
  lemma AnswerStep(c: Cfg, ls: seq<Step>, ok: bool) returns (ls2: seq<Step>)
    requires CanRun(c, ls) && c.threads >= 1 && Run(c, ls).thr == Idle(c.threads) && Run(c, ls).g.pend == map[0 := 0]
    ensures CanRun(c, ls2) && AtAct(Run(c, ls2), Idle(c.threads), 0, if ok then Conn(0, 0) else Fail(0, 0))
    ensures Run(c, ls2).g == Run(c, ls).g.(pend := map[]) && Run(c, ls2).h.cut == Run(c, ls).h.cut
  {
    hide CanRun, Run, Start, Pop;
    Extend(c, ls, Step(0, Complete(0, ok)));
    ls2 := ls + [Step(0, Complete(0, ok))];
    assert map[0 := 0] - {0} == map[];
  }

  /** The listening socket is closed and its one accept has failed. */
  lemma ReleasedFails(c: Cfg) returns (ls: seq<Step>)
    requires c.conf == ONE && c.threads >= 1
    ensures CanRun(c, ls) && AtAct(Run(c, ls), Idle(c.threads), 0, Fail(0, 0))
    ensures Run(c, ls).g == Svr(Pool([], {0}, 1), [], map[], map[], {}, 1, 0, true, true)
  {
    hide CanRun, Run, Pop, Start;
    ls := ListenRuns(c);
    Extend(c, ls, Step(0, CallRelease));
    ls := ls + [Step(0, CallRelease)];
    ls := AnswerStep(c, ls, false);
  }

  /** `uninit` can read 0 while an object is in no pool: it sets `is_release_`, the pending accept is answered with an
      error, and its handler has counted down but not yet put the object back, which it does afterwards. */
  lemma ZeroTooEarly(c: Cfg) returns (ls: seq<Step>, after: seq<Step>)
    requires c.conf == ONE && c.threads >= 1
    ensures CanRun(c, ls) && Run(c, ls).g.released && Run(c, ls).g.acceptingCnt == 0 && Run(c, ls).g.apool == []
    ensures CanRun(c, after) && |after| == |ls| + 1 && Run(c, after).g.apool == [0]
  {
    hide CanRun, Run, Pop, Start;
    ls := ReleasedFails(c);
    ls := GoStep(c, ls, Idle(c.threads), 0, Fail(0, 0), CountDown(0));
    ls := GoStep(c, ls, Idle(c.threads), 0, CountDown(0), PutAov(0));
    Extend(c, ls, Step(0, Go(true)));
    after := ls + [Step(0, Go(true))];
  }
}
