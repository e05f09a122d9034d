/** When the acceptor has as many accepts pending as it can, and when it does not. */
module AcceptorSaturation {
  import opened Options
  import opened Seqs
  import opened SessionPool
  import opened Acceptor
  import opened AcceptorSteps
  import opened AcceptorInvariants
  import opened AcceptorTheorems

  /** No session comes back while another thread is about to give its object back: so the callers see to it, or there is
      no other thread. */
  predicate Tame(c: Cfg) { c.guarded || c.threads < 2 }

  // ---- who will make good for an idle object

  /** The thread is in the `accept_all` of `listen`. */
  function Fills(th: Thr): nat {
    var a := th.act;
    One0((a.LoopTest? || a.LoopLook? || a.TakeTest? || a.TakeAov? || a.TakeSess? || a.Ex? || a.CountUp?)
         && a.m == First)
  }

  /** The thread has put an object back, and will take one. */
  function TakesAov(th: Thr): nat { One0((th.act.TakeTest? || th.act.TakeAov?) && th.act.m == One) }

  /** The thread will take a session, if it finds an object. */
  function TakesSess(th: Thr): nat {
    var a := th.act;
    One0(a.CountDown? || a.PutAov? || a.LoopTest? || a.LoopLook? || a.TakeTest? || a.TakeAov? || a.TakeSess?)
  }

  /** An idle object is one somebody will take, or there is no session somebody will not take. */
  predicate Covered(c: Conf, s: St) {
    || Sum(s.thr, Fills) >= 1 || |s.g.apool| <= Sum(s.thr, TakesAov)
    || Cap(c) <= |s.g.pool.inUse| + Sum(s.thr, TakesSess)
  }

  /** Who gives an object back found no session, and there is still none. */
  predicate NoneLeft(c: Conf, s: St) {
    forall t :: 0 <= t < |s.thr| && s.thr[t].act.GiveBack? ==> |s.g.pool.inUse| >= Cap(c)
  }

  predicate Sat(c: Conf, s: St) {
    NoneLeft(c, s) && (s.g.listening && !s.g.released && !s.h.cut ==> Covered(c, s))
  }

  /** What thread `t`'s step from `g`, `th` to `g2`, `th2` does to the cover. */
  predicate Covers(c: Conf, g: Svr, th: Thr, g2: Svr, th2: Thr) {
    || g2.apool == [] || |g2.pool.inUse| >= Cap(c) || Fills(th2) == 1
    || (&& Fills(th) == Fills(th2) && |g2.apool| + TakesAov(th) <= |g.apool| + TakesAov(th2)
        && |g.pool.inUse| + TakesSess(th) <= |g2.pool.inUse| + TakesSess(th2))
  }

  lemma CoverKept(c: Conf, s: St, t: Tid, g2: Svr, h2: History, th2: Thr)
    requires t < |s.thr| && Covered(c, s) && Covers(c, s.g, s.thr[t], g2, th2)
    ensures Covered(c, St(g2, h2, s.thr[t := th2]))
  {
    hide Fills, TakesAov, TakesSess, Sum;
    SumUpdate(s.thr, t, th2, Fills);
    SumUpdate(s.thr, t, th2, TakesAov);
    SumUpdate(s.thr, t, th2, TakesSess);
    SumAt(s.thr[t := th2], t, Fills);
  }

  lemma {:induction false} SumAt(thr: seq<Thr>, t: Tid, f: Thr -> nat)
    requires t < |thr|
    ensures f(thr[t]) <= Sum(thr, f)
  {
    if t < |thr| - 1 { SumAt(thr[..|thr| - 1], t, f); }
  }

  predicate Accepts(a: Act) {
    a.LoopTest? || a.LoopLook? || a.TakeTest? || a.TakeAov? || a.TakeSess? || a.GiveBack? || a.Ex? || a.CountUp?
  }

  lemma AcceptCovers(c: Cfg, s: St, t: Tid, ex: bool)
    requires t < |s.thr| && CanGo(c, s, t) && NoneLeft(c.conf, s) && Accepts(s.thr[t].act)
    ensures var (g, h, th) := Next(c.conf, s.g, s.h, t, s.thr[t], ex);
            !s.g.released && !h.cut ==> Covers(c.conf, s.g, s.thr[t], g, th)
  {
    hide CanGo, Pop, Push, At, SessAt;
    PopCounts(c, s, t);
  }

  lemma EventCovers(c: Cfg, s: St, t: Tid, ex: bool)
    requires t < |s.thr| && CanGo(c, s, t) && !Accepts(s.thr[t].act)
    ensures var (g, h, th) := Next(c.conf, s.g, s.h, t, s.thr[t], ex); Covers(c.conf, s.g, s.thr[t], g, th)
  {
    hide CanGo, Pop, Push, AovOf, SessOf, At, SessAt;
    Nowhere(c, s, t);
  }

  lemma NextCovers(c: Cfg, s: St, t: Tid, ex: bool)
    requires t < |s.thr| && CanGo(c, s, t) && NoneLeft(c.conf, s)
    ensures var (g, h, th) := Next(c.conf, s.g, s.h, t, s.thr[t], ex);
            !s.g.released && !h.cut ==> Covers(c.conf, s.g, s.thr[t], g, th)
  {
    hide CanGo, NoneLeft, Next, Covers, Accepts;
    if Accepts(s.thr[t].act) { AcceptCovers(c, s, t, ex); } else { EventCovers(c, s, t, ex); }
  }

  /** A thread about to give back has found none; and sessions come back only while nobody is. */
  lemma NextNoneLeft(c: Cfg, s: St, t: Tid, ex: bool)
    requires CanGo(c, s, t) && NoneLeft(c.conf, s)
    requires Returns(s.thr[t].act) ==> !GapElsewhere(s, t)
    ensures var (g, h, th) := Next(c.conf, s.g, s.h, t, s.thr[t], ex); NoneLeft(c.conf, St(g, h, s.thr[t := th]))
  {
    hide Pop, Push, GAovs, GSess, Local;
    PopCounts(c, s, t);
    var (g, h, th) := Next(c.conf, s.g, s.h, t, s.thr[t], ex);
    var thr := s.thr[t := th];
    forall u | 0 <= u < |thr| && thr[u].act.GiveBack? ensures |g.pool.inUse| >= Cap(c.conf) {
      if u != t { assert s.thr[u].act.GiveBack?; }
    }
  }

  lemma TameEnough(c: Cfg, s: St, l: Step)
    requires Tame(c) && |s.thr| == c.threads && Enabled(c, s, l) && l.op.Go? && Returns(s.thr[l.t].act)
    ensures !GapElsewhere(s, l.t)
  {
  }

  lemma StepSat(c: Cfg, s: St, l: Step)
    requires Tame(c) && Places(c, s) && Sat(c.conf, s) && Enabled(c, s, l)
    ensures Sat(c.conf, Apply(c, s, l))
  {
    var t := l.t;
    var s' := Apply(c, s, l);
    if l.op.Go? {
      if Returns(s.thr[t].act) { TameEnough(c, s, l); }
      hide Enabled, GapElsewhere, GAovs, GSess, Local, Covered, Covers, Next;
      NextNoneLeft(c, s, t, l.op.ex);
      NextCovers(c, s, t, l.op.ex);
      var (g, h, th) := Next(c.conf, s.g, s.h, t, s.thr[t], l.op.ex);
      NextFlags(c.conf, s.g, s.h, t, s.thr[t], l.op.ex);
      if s.g.listening && !s.g.released && !h.cut { CoverKept(c.conf, s, t, g, h, th); }
    } else {
      CallSat(c, s, t, l.op);
    }
  }

  lemma NextFlags(c: Conf, g: Svr, h: History, t: Tid, th: Thr, ex: bool)
    ensures var (g2, h2, _) := Next(c, g, h, t, th, ex);
            g2.listening == g.listening && g2.released == g.released && (h.cut ==> h2.cut)
  {
    hide Pop, Push;
  }

  lemma CallSat(c: Cfg, s: St, t: Tid, o: Op)
    requires Places(c, s) && Sat(c.conf, s) && Enabled(c, s, Step(t, o)) && !o.Go?
    ensures var (g, h, th) := Call(s.g, s.h, t, s.thr[t], o); Sat(c.conf, St(g, h, s.thr[t := th]))
  {
    hide Places;
    var (g, h, th) := Call(s.g, s.h, t, s.thr[t], o);
    var thr := s.thr[t := th];
    forall u | 0 <= u < |thr| && thr[u].act.GiveBack? ensures |g.pool.inUse| >= Cap(c.conf) {
      assert u != t && s.thr[u].act.GiveBack?;
    }
    hide Enabled, NoneLeft;
    if o.CallListen? {
      SumAt(s.thr[t := th], t, Fills);
    } else if s.g.listening && !s.g.released && !s.h.cut {
      assert Covers(c.conf, s.g, s.thr[t], g, th);
      hide Covers, Covered;
      CoverKept(c.conf, s, t, g, h, th);
    }
  }

  lemma {:induction false} RunSat(c: Cfg, ls: seq<Step>)
    requires Tame(c) && CanRun(c, ls)
    ensures Sat(c.conf, Run(c, ls))
  {
    hide Sat, Enabled, Apply, Places, Numbers;
    if ls == [] {
      StartSat(c);
    } else {
      RunKeepsInv(c, ls[..|ls| - 1]);
      RunSat(c, ls[..|ls| - 1]);
      StepSat(c, Run(c, ls[..|ls| - 1]), ls[|ls| - 1]);
    }
  }

  lemma StartSat(c: Cfg)
    ensures Sat(c.conf, Start(c))
  {
    hide InitPool, AovList;
  }

  // ---- at rest

  /** Every thread is in the loop, or in a callback that calls nothing. */
  predicate AtRest(s: St) { forall t :: 0 <= t < |s.thr| ==> s.thr[t].act.Ready? }

  /** No accept object is idle while a session could be had for it. */
  predicate Full(c: Conf, s: St) { s.g.apool == [] || |s.g.pool.inUse| == Cap(c) }

  /** The server accepts, and `listen` was not cut short by an `acceptex` that failed outright. */
  predicate Serves(s: St) { s.g.listening && !s.g.released && !s.h.cut }

  /** Accept objects below a running `on_conn` callback. */
  function Busy(thr: seq<Thr>): nat { Sum(thr, Aovs) }

  /** From `listen` to the release, whenever all handlers have run to their end, as many accepts are pending as accept
      objects and sessions allow. */
  lemma AcceptsSaturate(c: Cfg, ls: seq<Step>)
    requires Tame(c) && CanRun(c, ls) && AtRest(Run(c, ls)) && Serves(Run(c, ls))
    ensures var s := Run(c, ls);
            var objects := c.conf.acceptCnt - |s.g.lost| - Busy(s.thr);
            var sessions := Cap(c.conf) - |s.g.lost| - |s.g.connected|;
            Full(c.conf, s) && |s.g.pend| == if objects <= sessions then objects else sessions
  {
    hide CanRun, Run, Sum, GAovs, Carried, Local, SessOk, Sized;
    RunKeepsInv(c, ls);
    RunSat(c, ls);
    var s := Run(c, ls);
    SizedBound(c.conf, s.g.pool);
    SumZero(s.thr, Fills);
    SumZero(s.thr, TakesAov);
    SumZero(s.thr, TakesSess);
    SumZero(s.thr, Sesss);
  }

  lemma SizedBound(c: Conf, p: Pool)
    requires Sized(c, p)
    ensures |p.inUse| <= p.total <= Cap(c)
  {
  }

  // ---- when it does not

  /** The session of the one accept is connected, and thread 0 is about to count the accept down. */
  lemma Connects(c: Cfg) returns (ls: seq<Step>)
    requires c.conf == ONE && c.threads >= 2
    ensures CanRun(c, ls) && AtAct(Run(c, ls), Idle(c.threads), 0, CountDown(0)) && !Run(c, ls).h.cut
    ensures Run(c, ls).g == Svr(Pool([], {0}, 1), [], map[], map[], {0}, 1, 1, true, false)
  {
    hide CanRun, Run, Start, Pop;
    ls := ListenRuns(c);
    ls := AnswerStep(c, ls, true);
    ls := GoStep(c, ls, Idle(c.threads), 0, Conn(0, 0), Up(0, 0));
    ls := CallbackRuns(c, ls);
  }

  /** Thread 0 has found no session for the one accept object, which it is about to give back. */
  lemma GapReached(c: Cfg) returns (ls: seq<Step>)
    requires c.conf == ONE && c.threads >= 2
    ensures CanRun(c, ls) && AtAct(Run(c, ls), Idle(c.threads), 0, GiveBack(One, 0)) && !Run(c, ls).h.cut
    ensures Run(c, ls).g == Svr(Pool([], {0}, 1), [], map[], map[], {0}, 0, 1, true, false)
  {
    hide CanRun, Run, Start, Pop;
    PopOfOne();
    var thr := Idle(c.threads);
    ls := Connects(c);
    ls := GoStep(c, ls, thr, 0, CountDown(0), PutAov(0));
    ls := GoStep(c, ls, thr, 0, PutAov(0), TakeTest(One));
    ls := GoStep(c, ls, thr, 0, TakeTest(One), TakeAov(One));
    ls := GoStep(c, ls, thr, 0, TakeAov(One), TakeSess(One, 0));
    ls := GoStep(c, ls, thr, 0, TakeSess(One, 0), GiveBack(One, 0));
  }

  /** The session connects, and `on_conn` does nothing. */
  lemma CallbackRuns(c: Cfg, ls: seq<Step>) returns (ls2: seq<Step>)
    requires CanRun(c, ls) && AtAct(Run(c, ls), Idle(c.threads), 0, Up(0, 0))
    ensures CanRun(c, ls2) && AtAct(Run(c, ls2), Idle(c.threads), 0, CountDown(0))
    ensures Run(c, ls2).g == Run(c, ls).g.(connected := Run(c, ls).g.connected + {0})
    ensures Run(c, ls2).h.cut == Run(c, ls).h.cut
  {
    hide CanRun, Run, Start, Pop;
    Extend(c, ls, Step(0, Go(true)));
    var ls1 := ls + [Step(0, Go(true))];
    Extend(c, ls1, Step(0, ConnEnds));
    ls2 := ls1 + [Step(0, ConnEnds)];
  }

  /** The session comes back now: its thread finds no accept object and is done. */
  lemma ComesBack(c: Cfg) returns (ls: seq<Step>)
    requires c.conf == ONE && c.threads >= 2 && !c.guarded
    ensures CanRun(c, ls) && AtAct(Run(c, ls), Idle(c.threads), 0, GiveBack(One, 0)) && !Run(c, ls).h.cut
    ensures Run(c, ls).g == Svr(Pool([0], {}, 1), [], map[], map[], {}, 0, 0, true, false)
  {
    hide CanRun, Run, Start, Pop;
    ls := GapReached(c);
    var thr := Idle(c.threads)[0 := Thr(KIdle, GiveBack(One, 0))];
    Extend(c, ls, Step(1, CallDisc(0)));
    ls := ls + [Step(1, CallDisc(0))];
    ls := GoStep(c, ls, thr, 1, DiscDown(0), DiscPut(0));
    ls := GoStep(c, ls, thr, 1, DiscPut(0), LoopTest(All));
    ls := GoStep(c, ls, thr, 1, LoopTest(All), LoopLook(All));
    ls := GoStep(c, ls, thr, 1, LoopLook(All), Ready);
  }

  /** Then thread 0 gives the object back. No handler is left running, object and session are idle, and nobody accepts
      again. */
  lemma LosesWakeup(c: Cfg) returns (ls: seq<Step>)
    requires c.conf == ONE && c.threads >= 2 && !c.guarded
    ensures CanRun(c, ls) && Run(c, ls).thr == Idle(c.threads) && !Run(c, ls).h.cut
    ensures Run(c, ls).g == Svr(Pool([0], {}, 1), [0], map[], map[], {}, 0, 0, true, false)
  {
    hide CanRun, Run, Start, Pop;
    ls := ComesBack(c);
    ls := GoStep(c, ls, Idle(c.threads), 0, GiveBack(One, 0), Ready);
  }

  const TWO: Conf := Conf(2, 1, 2, 2)

  lemma StartTwo(c: Cfg)
    requires c.conf == TWO
    ensures CanRun(c, []) && Run(c, []).thr == Idle(c.threads)
    ensures Run(c, []).g == Svr(Pool([1, 0], {}, 2), [1, 0], map[], map[], {}, 0, 0, false, false)
    ensures Pop(TWO, Pool([1, 0], {}, 2)) == (Pool([0], {1}, 2), Some(1))
  {
    assert InitPool(TWO) == Pool([1, 0], {}, 2) by {
      assert Create(Pool([1, 0], {}, 2), 0) == Pool([1, 0], {}, 2);
      assert Create(Pool([0], {}, 1), 1) == Create(Pool([1, 0], {}, 2), 0);
    }
    assert AovList(1) == [0] && AovList(2) == [1, 0];
    var p := Pool([1, 0], {}, 2);
    assert p.free[1..] == [0] && p.inUse + {1} == {1};
    NoSteps(c);
    assert Start(c).g == Svr(InitPool(TWO), AovList(2), map[], map[], {}, 0, 0, false, false);
  }

  /** The first object and the first session are in a thread's hands. */
  lemma ListenTakesOne(c: Cfg) returns (ls: seq<Step>)
    requires c.conf == TWO && c.threads >= 1
    ensures CanRun(c, ls) && AtAct(Run(c, ls), Idle(c.threads), 0, Ex(First, 1, 1))
    ensures Run(c, ls).g == Svr(Pool([0], {1}, 2), [0], map[], map[], {}, 0, 0, true, false)
  {
    hide CanRun, Run, Start, Pop;
    StartTwo(c);
    var thr := Idle(c.threads);
    ls := [];
    Extend(c, ls, Step(0, CallListen));
    ls := ls + [Step(0, CallListen)];
    ls := GoStep(c, ls, thr, 0, LoopTest(First), LoopLook(First));
    ls := GoStep(c, ls, thr, 0, LoopLook(First), TakeTest(First));
    ls := GoStep(c, ls, thr, 0, TakeTest(First), TakeAov(First));
    ls := GoStep(c, ls, thr, 0, TakeAov(First), TakeSess(First, 1));
    ls := GoStep(c, ls, thr, 0, TakeSess(First, 1), Ex(First, 1, 1));
  }

  /** The first `acceptex` of `listen` fails outright: the other object stays idle. */
  lemma ListenIsCut(c: Cfg) returns (ls: seq<Step>)
    requires c.conf == TWO && c.threads >= 1 && c.exFails
    ensures CanRun(c, ls) && Run(c, ls).thr == Idle(c.threads)
    ensures Run(c, ls).g == Svr(Pool([0], {1}, 2), [0], map[], map[1 := 1], {}, 0, 0, true, false)
  {
    hide CanRun, Run, Start, Pop;
    ls := ListenTakesOne(c);
    Extend(c, ls, Step(0, Go(false)));
    ls := ls + [Step(0, Go(false))];
  }

  lemma {:induction false} CutNeedsFailure(c: Cfg, ls: seq<Step>)
    requires CanRun(c, ls) && !c.exFails
    ensures !Run(c, ls).h.cut
  {
    if ls != [] {
      CutNeedsFailure(c, ls[..|ls| - 1]);
      hide Pop, Push, GapElsewhere;
    }
  }

  lemma {:induction false} NobodyListens(c: Cfg, ls: seq<Step>)
    requires CanRun(c, ls) && c.threads == 0
    ensures ls == []
  {
    if ls != [] { NobodyListens(c, ls[..|ls| - 1]); }
  }

  /** If the run ends with no handler at work in a server that accepts, no accept object is idle that could be used. */
  predicate FullAtRest(c: Cfg, ls: seq<Step>) {
    CanRun(c, ls) && AtRest(Run(c, ls)) && Run(c, ls).g.listening && !Run(c, ls).g.released ==> Full(c.conf, Run(c, ls))
  }

  /** Whatever the counts, that is so of every run, exactly when no session comes back between an empty `spool_->pop`
      and the `apool_.push` that follows it on another thread, or there is only one; and `acceptex` does not fail
      outright. */
  lemma SaturatesExactlyWhen(threads: nat, guarded: bool, exFails: bool)
    ensures (forall conf, ls :: FullAtRest(Cfg(conf, threads, guarded, exFails), ls))
            <==> threads == 0 || ((guarded || threads < 2) && !exFails)
  {
    if threads == 0 || ((guarded || threads < 2) && !exFails) {
      forall conf, ls ensures FullAtRest(Cfg(conf, threads, guarded, exFails), ls) {
        FullWhenTame(Cfg(conf, threads, guarded, exFails), ls);
      }
    } else if exFails {
      var ls := ListenIsCut(Cfg(TWO, threads, guarded, exFails));
      assert !FullAtRest(Cfg(TWO, threads, guarded, exFails), ls);
    } else {
      var ls := LosesWakeup(Cfg(ONE, threads, guarded, exFails));
      assert !FullAtRest(Cfg(ONE, threads, guarded, exFails), ls);
    }
  }

  lemma FullWhenTame(c: Cfg, ls: seq<Step>)
    requires c.threads == 0 || (Tame(c) && !c.exFails)
    ensures FullAtRest(c, ls)
  {
    hide Full;
    if CanRun(c, ls) && AtRest(Run(c, ls)) && Run(c, ls).g.listening && !Run(c, ls).g.released {
      if c.threads == 0 {
        NobodyListens(c, ls);
      } else {
        CutNeedsFailure(c, ls);
        AcceptsSaturate(c, ls);
      }
    }
  }
}
