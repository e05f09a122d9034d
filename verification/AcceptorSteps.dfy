/** The handlers of `Acceptor` on any number of threads: every statement that touches what they share is a step. */
module AcceptorSteps {
  import opened Options
  import opened Seqs
  import opened SessionPool
  import opened Acceptor

  type Tid = nat

  /** Who calls `accept()`: `on_event`, the `accept_all` of `disconnected`, or that of `listen`. */
  datatype Mode = One | All | First

  /** The statement a thread is about to execute, with the accept object and the session it carries. */
  datatype Act =
    | Ready                                          // in the loop, or inside a callback
    | LoopTest(m: Mode) | LoopLook(m: Mode)          // `accept_all`: its test of `is_release_`, its look at the pool
    | TakeTest(m: Mode) | TakeAov(m: Mode)           // `accept`: its test of `is_release_`, `apool_.pop`
    | TakeSess(m: Mode, a: Aov)                      //   `spool_->pop`
    | GiveBack(m: Mode, a: Aov)                      //   `apool_.push`, when there was no session
    | Ex(m: Mode, a: Aov, x: Sess) | CountUp(m: Mode) //  `acceptex`, `accepting_cnt_++`
    | Fail(a: Aov, x: Sess)                          // `on_event` with an error: `spool_->push`
    | Conn(a: Aov, x: Sess) | Up(a: Aov, x: Sess)    // `on_event`: `connected_cnt_++`, `_on_accept`
    | CountDown(a: Aov) | PutAov(a: Aov)             //   `accepting_cnt_--`, `apool_.push`
    | DiscDown(x: Sess) | DiscPut(x: Sess)           // `disconnected`: `connected_cnt_--`, `spool_->push`

  /** What the thread returns to: the loop, or the `on_event` whose `on_conn` callback is running. */
  datatype Kont = KIdle | KConn(a: Aov)

  datatype Thr = Thr(k: Kont, act: Act)

  /** Where an accept object is, and where a session in use is. */
  datatype AovPlace = Pooled | AovWith(t: Tid) | Pending | Lost
  datatype SessPlace = SessWith(t: Tid) | Accepting(a: Aov) | Live | SessLost(a: Aov)

  /** `cut`: an `acceptex` that failed outright has ended the `accept_all` of `listen`. */
  datatype History = History(aovs: seq<AovPlace>, sess: map<Sess, SessPlace>, cut: bool)

  datatype St = St(g: Svr, h: History, thr: seq<Thr>)

  /** `guarded`: no session comes back to its pool while another thread, having found none, has yet to give back its
      accept object. `exFails`: `acceptex` may fail outright. */
  datatype Cfg = Cfg(conf: Conf, threads: nat, guarded: bool, exFails: bool)

  datatype Op =
    | CallListen | CallRelease | CallDisc(x: Sess)
    | Complete(a: Aov, ok: bool)                     // the system answers an accept
    | ConnEnds                                       // `on_conn` returns
    | Go(ex: bool)                                   // the next statement; `ex`: `acceptex` does not fail outright

  datatype Step = Step(t: Tid, op: Op)

  function Idle(n: nat): seq<Thr> { seq(n, i => Thr(KIdle, Ready)) }

  function Start(c: Cfg): St {
    St(Init(c.conf),
       History(seq(c.conf.acceptCnt, i => Pooled), map[], false),
       Idle(c.threads))
  }

  /** A session is about to come back. */
  predicate Returns(a: Act) { a.Fail? || a.DiscPut? }

  predicate GapElsewhere(s: St, t: Tid) { exists u :: 0 <= u < |s.thr| && u != t && s.thr[u].act.GiveBack? }

  predicate Enabled(c: Cfg, s: St, l: Step) {
    && l.t < |s.thr|
    && var th := s.thr[l.t];
       match l.op
       case CallListen => th.act.Ready? && !s.g.listening
       case CallRelease => th.act.Ready?
       case CallDisc(x) => th.act.Ready? && x in s.g.connected
       case Complete(a, _) => th == Thr(KIdle, Ready) && a in s.g.pend
       case ConnEnds => th.act.Ready? && th.k.KConn?
       case Go(ex) =>
         && !th.act.Ready? && (th.act.Ex? && !ex ==> c.exFails)
         && (c.guarded && Returns(th.act) ==> !GapElsewhere(s, l.t))
  }

  function At(h: History, a: Aov, p: AovPlace): History {
    if a < |h.aovs| then h.(aovs := h.aovs[a := p]) else h
  }

  function SessAt(h: History, x: Sess, p: SessPlace): History { h.(sess := h.sess[x := p]) }

  /** The next statement of the handler thread `t` is in. */
  function Next(c: Conf, g: Svr, h: History, t: Tid, th: Thr, ex: bool): (Svr, History, Thr) {
    match th.act
    case Ready => (g, h, th)
    // accept_all
    case LoopTest(m) => (g, h, th.(act := if g.released then Ready else LoopLook(m)))
    case LoopLook(m) => (g, h, th.(act := if g.apool == [] then Ready else TakeTest(m)))
    // accept
    case TakeTest(m) => (g, h, th.(act := if g.released then Ready else TakeAov(m)))
    case TakeAov(m) =>
      if g.apool == [] then (g, h, th.(act := Ready))
      else
        var a := g.apool[0];
        (g.(apool := g.apool[1..]), At(h, a, AovWith(t)), th.(act := TakeSess(m, a)))
    case TakeSess(m, a) =>
      var (q, x) := Pop(c, g.pool);
      if x.None? then (g.(pool := q), h, th.(act := GiveBack(m, a)))
      else (g.(pool := q), SessAt(h, x.value, SessWith(t)), th.(act := Ex(m, a, x.value)))
    case GiveBack(_, a) => (g.(apool := [a] + g.apool), At(h, a, Pooled), th.(act := Ready))
    case Ex(m, a, x) =>
      if ex then
        (g.(pend := g.pend[a := x]), SessAt(At(h, a, Pending), x, Accepting(a)), th.(act := CountUp(m)))
      else
        (g.(lost := g.lost[a := x]), SessAt(At(h, a, Lost), x, SessLost(a)).(cut := h.cut || m == First),
         th.(act := Ready))
    case CountUp(m) =>
      (g.(acceptingCnt := g.acceptingCnt + 1), h, th.(act := if m == One then Ready else LoopLook(m)))
    // on_event
    case Fail(a, x) => (g.(pool := Push(g.pool, x)), h.(sess := h.sess - {x}), th.(act := CountDown(a)))
    case Conn(a, x) => (g.(connectedCnt := g.connectedCnt + 1), h, th.(act := Up(a, x)))
    case Up(a, x) => (g.(connected := g.connected + {x}), SessAt(h, x, Live), Thr(KConn(a), Ready))
    case CountDown(a) => (g.(acceptingCnt := g.acceptingCnt - 1), h, th.(act := PutAov(a)))
    case PutAov(a) => (g.(apool := [a] + g.apool), At(h, a, Pooled), th.(act := TakeTest(One)))
    // disconnected
    case DiscDown(x) => (g.(connectedCnt := g.connectedCnt - 1), h, th.(act := DiscPut(x)))
    case DiscPut(x) => (g.(pool := Push(g.pool, x)), h.(sess := h.sess - {x}), th.(act := LoopTest(All)))
  }

  function Call(g: Svr, h: History, t: Tid, th: Thr, o: Op): (Svr, History, Thr)
    requires o.Complete? ==> o.a in g.pend
    requires o.ConnEnds? ==> th.k.KConn?
  {
    match o
    case CallListen => (g.(listening := true), h, th.(act := LoopTest(First)))
    case CallRelease => (g.(released := true), h, th)
    case CallDisc(x) =>
      (g.(connected := g.connected - {x}), SessAt(h, x, SessWith(t)), th.(act := DiscDown(x)))
    case Complete(a, ok) =>
      var x := g.pend[a];
      (g.(pend := g.pend - {a}), SessAt(At(h, a, AovWith(t)), x, SessWith(t)),
       th.(act := if ok then Conn(a, x) else Fail(a, x)))
    case ConnEnds => (g, h, Thr(KIdle, CountDown(th.k.a)))
    case Go(_) => (g, h, th)
  }

  function Apply(c: Cfg, s: St, l: Step): St
    requires Enabled(c, s, l)
  {
    var (g, h, th) := if l.op.Go? then Next(c.conf, s.g, s.h, l.t, s.thr[l.t], l.op.ex)
                      else Call(s.g, s.h, l.t, s.thr[l.t], l.op);
    St(g, h, s.thr[l.t := th])
  }

  predicate CanRun(c: Cfg, ls: seq<Step>)
    decreases |ls|, 0
  {
    ls == [] || (CanRun(c, ls[..|ls| - 1]) && Enabled(c, Run(c, ls[..|ls| - 1]), ls[|ls| - 1]))
  }

  function Run(c: Cfg, ls: seq<Step>): St
    requires CanRun(c, ls)
    decreases |ls|, 1
  {
    if ls == [] then Start(c) else Apply(c, Run(c, ls[..|ls| - 1]), ls[|ls| - 1])
  }

  lemma NoSteps(c: Cfg)
    ensures CanRun(c, []) && Run(c, []) == Start(c)
  {
  }

  lemma Extend(c: Cfg, ls: seq<Step>, l: Step)
    requires CanRun(c, ls) && Enabled(c, Run(c, ls), l)
    ensures CanRun(c, ls + [l]) && Run(c, ls + [l]) == Apply(c, Run(c, ls), l)
  {
    hide Enabled, Apply, Start;
    var more := ls + [l];
    assert more[..|more| - 1] == ls && more[|more| - 1] == l;
  }
}
