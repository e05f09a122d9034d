/** A handler whose thread nobody interferes with does what the methods of the class `Acceptor` do. */
module AcceptorAlone {
  import opened Options
  import opened Seqs
  import opened SessionPool
  import opened Acceptor
  import opened AcceptorSteps

  /** The next statements of thread `t`, one for each outcome `acceptex` would have in it. */
  function GoOn(c: Conf, s: (Svr, History, Thr), t: Tid, exs: seq<bool>): (Svr, History, Thr)
    decreases |exs|
  {
    if exs == [] then s else GoOn(c, Next(c, s.0, s.1, t, s.2, exs[0]), t, exs[1..])
  }

  lemma {:induction false} GoOnJoin(c: Conf, s: (Svr, History, Thr), t: Tid, a: seq<bool>, b: seq<bool>)
    ensures GoOn(c, s, t, a + b) == GoOn(c, GoOn(c, s, t, a), t, b)
    decreases |a|
  {
    hide Next;
    if a == [] {
      assert a + b == b;
    } else {
      assert (a + b)[1..] == a[1..] + b;
      GoOnJoin(c, Next(c, s.0, s.1, t, s.2, a[0]), t, a[1..], b);
    }
  }

  /** One statement more. */
  lemma GoOnce(c: Conf, s: (Svr, History, Thr), t: Tid, exs: seq<bool>, ex: bool) returns (exs2: seq<bool>)
    ensures exs2 == exs + [ex]
    ensures var r := GoOn(c, s, t, exs); GoOn(c, s, t, exs2) == Next(c, r.0, r.1, t, r.2, ex)
  {
    hide Next;
    exs2 := exs + [ex];
    GoOnJoin(c, s, t, exs, [ex]);
    var r := GoOn(c, s, t, exs);
    assert [ex][1..] == [];
    assert GoOn(c, Next(c, r.0, r.1, t, r.2, ex), t, []) == Next(c, r.0, r.1, t, r.2, ex);
  }

  /** Where a thread is after `accept()`. */
  function After(m: Mode, ok: bool): Act { if ok && m != One then LoopLook(m) else Ready }

  /** `accept()` */
  lemma LoneAccept(c: Conf, g: Svr, h: History, t: Tid, k: Kont, m: Mode, ex: bool) returns (exs: seq<bool>)
    ensures var r := GoOn(c, (g, h, Thr(k, TakeTest(m))), t, exs);
            var (g2, ok) := Accept(c, g, ex);
            r.0 == g2 && r.2 == Thr(k, After(m, ok))
  {
    hide Pop, GoOn;
    var s := (g, h, Thr(k, TakeTest(m)));
    GoNowhere(c, s, t);
    exs := GoOnce(c, s, t, [], true);
    if g.released { return; }
    exs := GoOnce(c, s, t, exs, true);
    if g.apool == [] { return; }
    exs := GoOnce(c, s, t, exs, true);
    exs := GoOnce(c, s, t, exs, ex);
    if Pop(c, g.pool).1.None? { assert [g.apool[0]] + g.apool[1..] == g.apool; return; }
    if !ex { return; }
    exs := GoOnce(c, s, t, exs, true);
  }

  lemma GoNowhere(c: Conf, s: (Svr, History, Thr), t: Tid)
    ensures GoOn(c, s, t, []) == s
  {
  }

  /** The loop of `accept_all` */
  lemma {:induction false} LoneLoop(c: Conf, g: Svr, h: History, t: Tid, k: Kont, m: Mode, bad: Option<nat>)
    returns (exs: seq<bool>)
    requires m != One && !g.released
    ensures var r := GoOn(c, (g, h, Thr(k, LoopLook(m))), t, exs);
            r.0 == AcceptAll(c, g, bad) && r.2 == Thr(k, Ready)
    decreases |g.apool|
  {
    hide Accept, GoOn;
    var s := (g, h, Thr(k, LoopLook(m)));
    GoNowhere(c, s, t);
    exs := GoOnce(c, s, t, [], true);
    if g.apool == [] { return; }
    var more := LoneAccept(c, g, h, t, k, m, bad != Some(0));
    GoOnJoin(c, s, t, exs, more);
    exs := exs + more;
    var (g2, ok) := Accept(c, g, bad != Some(0));
    if ok {
      AcceptShrinks(c, g, bad != Some(0));
      var rest := LoneLoop(c, g2, GoOn(c, s, t, exs).1, t, k, m, Fewer(bad));
      GoOnJoin(c, s, t, exs, rest);
      exs := exs + rest;
    }
  }

  lemma AcceptShrinks(c: Conf, g: Svr, ex: bool)
    requires Accept(c, g, ex).1
    ensures |Accept(c, g, ex).0.apool| < |g.apool| && Accept(c, g, ex).0.released == g.released
  {
    hide Pop;
  }

  /** `accept_all()` */
  lemma LoneAcceptAll(c: Conf, g: Svr, h: History, t: Tid, k: Kont, m: Mode, bad: Option<nat>) returns (exs: seq<bool>)
    requires m != One
    ensures var r := GoOn(c, (g, h, Thr(k, LoopTest(m))), t, exs);
            r.0 == AcceptAll(c, g, bad) && r.2 == Thr(k, Ready)
  {
    hide Accept, GoOn;
    var s := (g, h, Thr(k, LoopTest(m)));
    GoNowhere(c, s, t);
    exs := GoOnce(c, s, t, [], true);
    if g.released { return; }
    var rest := LoneLoop(c, g, h, t, k, m, bad);
    GoOnJoin(c, s, t, exs, rest);
    exs := exs + rest;
  }

  /** `listen` */
  lemma LoneListen(c: Conf, g: Svr, h: History, t: Tid, k: Kont, bad: Option<nat>) returns (exs: seq<bool>)
    ensures var r := GoOn(c, Call(g, h, t, Thr(k, Ready), CallListen), t, exs);
            r.0 == Listened(c, g, bad) && r.2 == Thr(k, Ready)
  {
    exs := LoneAcceptAll(c, g.(listening := true), h, t, k, First, bad);
    hide AcceptAll, GoOn;
  }

  /** `disconnected(x)` */
  lemma LoneDisconnected(c: Conf, g: Svr, h: History, t: Tid, k: Kont, x: Sess, bad: Option<nat>)
    returns (exs: seq<bool>)
    ensures var r := GoOn(c, Call(g, h, t, Thr(k, Ready), CallDisc(x)), t, exs);
            r.0 == Disconnected(c, g, x, bad) && r.2 == Thr(k, Ready)
  {
    hide AcceptAll, GoOn;
    var s := Call(g, h, t, Thr(k, Ready), CallDisc(x));
    GoNowhere(c, s, t);
    exs := GoOnce(c, s, t, [], true);
    exs := GoOnce(c, s, t, exs, true);
    var r := GoOn(c, s, t, exs);
    var rest := LoneAcceptAll(c, r.0, r.1, t, k, All, bad);
    GoOnJoin(c, s, t, exs, rest);
    exs := exs + rest;
  }

  /** `on_event` of an accept that succeeded, up to the callback. */
  lemma LoneBegan(c: Conf, g: Svr, h: History, t: Tid, a: Aov)
    requires a in g.pend
    ensures var r := GoOn(c, Call(g, h, t, Thr(KIdle, Ready), Complete(a, true)), t, [true, true]);
            r.0 == Began(g, a) && r.2 == Thr(KConn(a), Ready)
  {
    hide GoOn;
    var s := Call(g, h, t, Thr(KIdle, Ready), Complete(a, true));
    GoNowhere(c, s, t);
    var exs := GoOnce(c, s, t, [], true);
    exs := GoOnce(c, s, t, exs, true);
    assert exs == [true, true];
  }

  /** `on_event` from there on. */
  lemma LoneEnded(c: Conf, g: Svr, h: History, t: Tid, a: Aov, ex: bool) returns (exs: seq<bool>)
    ensures var r := GoOn(c, (g, h, Thr(KIdle, CountDown(a))), t, exs);
            r.0 == Ended(c, g, a, ex) && r.2 == Thr(KIdle, Ready)
  {
    hide Accept, GoOn;
    var s := (g, h, Thr(KIdle, CountDown(a)));
    GoNowhere(c, s, t);
    exs := GoOnce(c, s, t, [], true);
    exs := GoOnce(c, s, t, exs, true);
    var r := GoOn(c, s, t, exs);
    var rest := LoneAccept(c, r.0, r.1, t, KIdle, One, ex);
    GoOnJoin(c, s, t, exs, rest);
    exs := exs + rest;
  }

  /** `on_event` of an accept that failed. */
  lemma LoneFailed(c: Conf, g: Svr, h: History, t: Tid, a: Aov, ex: bool) returns (exs: seq<bool>)
    requires a in g.pend
    ensures var r := GoOn(c, Call(g, h, t, Thr(KIdle, Ready), Complete(a, false)), t, exs);
            r.0 == FailedEvent(c, g, a, ex) && r.2 == Thr(KIdle, Ready)
  {
    hide Ended, GoOn;
    var s := Call(g, h, t, Thr(KIdle, Ready), Complete(a, false));
    GoNowhere(c, s, t);
    exs := GoOnce(c, s, t, [], true);
    var r := GoOn(c, s, t, exs);
    var rest := LoneEnded(c, r.0, r.1, t, a, ex);
    GoOnJoin(c, s, t, exs, rest);
    exs := exs + rest;
  }
}
