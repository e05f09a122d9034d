/** What every step of a connection keeps, for any number of threads. */
module SessionInvariants {
  import opened Options
  import opened SendQueue
  import opened SessionLifecycle

  /** Either the callers keep the guard, or there is a single thread, or the check and the mark are one step. */
  predicate Tame(c: Cfg) { c.guarded || c.threads < 2 || (!c.splitSend && !c.splitRecv) }

  /** What all runs below are runs of. */
  predicate Ok(c: Cfg) { ValidCfg(c) && Tame(c) }

  predicate InRecv(th: Thr) { th.act.RecvPost? || th.act.RecvFail? || th.k.KRecv? }

  /** The thread that will call `recv()` next. */
  predicate NextRecv(th: Thr) { th.k.KConn? || th.act.RecvEntry? || th.act.RecvGap? || th.act.RecvCleared? }

  predicate HasClaim(a: Act) { a.DStart? || a.EWait? || a.ERun? }

  predicate AfterClear(a: Act) { a.DSending? || a.DCheck? || a.DClaim? || a.DStart? || a.EWait? || a.ERun? }

  predicate HasBatch(a: Act, id: nat) { (a.Posting? && a.id == id) || (a.SendDone? && a.id == id) }

  predicate Quiet(g: Shared) { !g.connected && g.snd.out == map[] && !g.rx.rcv.Outstanding? }

  /** What thread `u` knows of the shared state at each of its statements. */
  predicate Local(g: Shared, u: Tid, th: Thr) {
    && (Holding(th.act) <==> g.disc.lock == Some(u))
    && !th.act.Crashed?
    && (InGap(th.act) ==> g.connected)
    && (th.act.Posting? || th.act.SendDone? ==> th.act.id in g.snd.out && g.snd.out[th.act.id] == ByThread(u))
    && (InRecv(th) <==> g.rx.rcv == Outstanding(ByThread(u)))
    && (NextRecv(th) <==> g.rx.rcv == NextBy(u))
    && (th.act.RecvEntry? || th.act.RecvGap? || th.act.RecvPost? || th.act.RecvFail? || th.act.RecvCleared? ==>
          th.k.KIdle?)
    && (HasClaim(th.act) <==> g.disc.claim == Claimed(u))
    && (AfterClear(th.act) ==> !g.connected)
    && (th.act == DCheck(false) ==> g.snd.out == map[])
    && (th.act.DClaim? ==> Quiet(g))
    && (th.act.DClear? ==> g.disc.errs != [])
    && (g.disc.errs != [] && g.connected && g.disc.lock == Some(u) ==> th.act.DClear?)
  }

  /** Batches recorded as held by thread `u` are the one it is at work on. */
  ghost predicate LocalBatch(g: Shared, u: Tid, th: Thr) {
    forall id :: id in g.snd.out && g.snd.out[id] == ByThread(u) ==> HasBatch(th.act, id)
  }

  ghost predicate Global(g: Shared) {
    && g.snd.q.popCnt == |g.snd.out|
    && (forall id :: id in g.snd.out ==> id < |g.snd.popped|)
    && (g.rx.receiving <==> g.rx.rcv.Outstanding?)
    && (g.live <==> !g.disc.claim.Done?)
    && (g.disc.disconnecting <==> !g.disc.claim.Unclaimed?)
    && (g.disc.disconnecting ==> Quiet(g))
    && |g.disc.log| == (if g.disc.claim.Done? then 1 else 0)
    && (!g.connected ==> g.disc.errs != [])
    && (g.disc.errs != [] ==> g.disc.dovErr == g.disc.errs[0])
    && (g.disc.errs != [] && g.connected ==> g.disc.lock.Some?)
    && (g.disc.log != [] ==> g.disc.errs != [] && g.disc.log[0] == g.disc.errs[0])
  }

  /** Threads named in the shared state exist. */
  ghost predicate Named(n: nat, g: Shared) {
    && (g.disc.lock.Some? ==> g.disc.lock.value < n)
    && (g.rx.rcv.NextBy? ==> g.rx.rcv.t < n)
    && (g.rx.rcv.Outstanding? && g.rx.rcv.h.ByThread? ==> g.rx.rcv.h.t < n)
    && (g.disc.claim.Claimed? ==> g.disc.claim.t < n)
    && (forall id :: id in g.snd.out && g.snd.out[id].ByThread? ==> g.snd.out[id].t < n)
  }

  ghost predicate QueueInv(c: Cfg, g: Shared) {
    && |g.snd.q.cur| < c.cap
    && (!g.disc.claim.Done? ==> Flatten(g.snd.popped) + g.snd.q.cur == g.snd.pushed)
  }

  /** The thread is on its way to deciding the teardown of a disconnected session. */
  predicate Decides(a: Act) {
    || a.SendChecked? || a.RecvCleared? || a.DWait? || a.DReset? || a.DClear? || a.DSending?
    || a == DCheck(false) || a.DClaim?
  }

  predicate InSight(g: Shared) { g.disc.disconnecting || g.snd.out != map[] || g.rx.rcv.Outstanding? }

  predicate DecidesAt(s: St, t: Tid) { t < |s.thr| && Decides(s.thr[t].act) }

  /** A disconnected session: teardown is claimed, or some I/O is outstanding, or some thread still decides. */
  ghost predicate Owed(s: St) {
    !s.g.connected ==> InSight(s.g) || exists t :: DecidesAt(s, t)
  }

  /** The thread carries the duty to send, or is about to end the connection. */
  predicate Carries(a: Act) {
    (a.SendChecked? && (a.has || a.err != 0)) || a.Flush? || a.SendGap? || a.DWait? || a.DReset? || a.DClear?
  }

  predicate CarriesAt(s: St, t: Tid) { t < |s.thr| && Carries(s.thr[t].act) }

  /** Unsent Bufs of a connected session: a batch is in flight, or some thread is bound to send or disconnect. */
  ghost predicate NotStranded(s: St) {
    s.g.connected && s.g.snd.q.cur != [] ==> s.g.snd.out != map[] || exists t :: CarriesAt(s, t)
  }

  /** The thread is about to end the connection. */
  predicate Ends(a: Act) { a.DWait? || a.DReset? || a.DClear? }

  predicate EndsAt(s: St, t: Tid) { t < |s.thr| && Ends(s.thr[t].act) }

  /** A connected session has a receive out or a thread that handles one or will call `recv()`, or a thread is about to
      end the connection. */
  ghost predicate NotDeaf(s: St) { s.g.connected && s.g.rx.rcv.NoRecv? ==> exists t :: EndsAt(s, t) }

  /** There is no gap where the check and the mark are one step. */
  predicate Steps(c: Cfg, a: Act) { (a.SendGap? ==> c.splitSend) && (a.RecvGap? ==> c.splitRecv) }

  ghost predicate Inv(c: Cfg, s: St) {
    && |s.thr| == c.threads
    && Global(s.g) && Named(c.threads, s.g) && QueueInv(c, s.g)
    && (forall u :: 0 <= u < |s.thr| ==> Local(s.g, u, s.thr[u]) && LocalBatch(s.g, u, s.thr[u]))
    && (forall u :: 0 <= u < |s.thr| ==> Steps(c, s.thr[u].act))
    && Owed(s) && NotStranded(s) && NotDeaf(s)
  }

  // ---- a step by thread t keeps what another thread u knows

  predicate CanDo(c: Cfg, g: Shared, th: Thr, op: Op) {
    match op
    case S(o) => SendEnabled(c, g, th, o)
    case R(o) => RecvEnabled(c, g, th, o)
    case D(o) => DiscEnabled(g, th, o)
  }

  lemma OtherSend(c: Cfg, g: Shared, t: Tid, th: Thr, o: SendOp, u: Tid, ut: Thr)
    requires Ok(c) && Global(g) && u != t && Local(g, t, th) && Local(g, u, ut) && SendEnabled(c, g, th, o)
    ensures Local(SendDo(c, g, t, th, o).0, u, ut)
  {
  }

  lemma OtherRecv(c: Cfg, g: Shared, t: Tid, th: Thr, o: RecvOp, u: Tid, ut: Thr)
    requires Ok(c) && Global(g) && u != t && Local(g, t, th) && Local(g, u, ut) && RecvEnabled(c, g, th, o)
    ensures Local(RecvDo(c, g, t, th, o).0, u, ut)
  {
  }

  lemma OtherDisc(g: Shared, t: Tid, th: Thr, o: DiscOp, u: Tid, ut: Thr)
    requires Global(g) && u != t && Local(g, t, th) && Local(g, u, ut) && DiscEnabled(g, th, o)
    requires o.DClearConn? ==> !InGap(ut.act)
    ensures Local(DiscDo(g, t, th, o).0, u, ut)
  {
  }

  lemma OtherBatch(c: Cfg, g: Shared, t: Tid, th: Thr, o: SendOp, u: Tid, ut: Thr)
    requires Ok(c) && u != t && LocalBatch(g, u, ut) && SendEnabled(c, g, th, o)
    ensures LocalBatch(SendDo(c, g, t, th, o).0, u, ut)
  {
  }

  lemma RecvKeepsBatches(c: Cfg, g: Shared, t: Tid, th: Thr, o: RecvOp)
    requires RecvEnabled(c, g, th, o)
    ensures RecvDo(c, g, t, th, o).0.snd == g.snd && !th.act.Posting? && !th.act.SendDone?
  {
  }

  lemma DiscKeepsBatches(g: Shared, t: Tid, th: Thr, o: DiscOp)
    requires DiscEnabled(g, th, o)
    ensures DiscDo(g, t, th, o).0.snd.out == g.snd.out && !th.act.Posting? && !th.act.SendDone?
  {
  }

  // ---- and what t itself knows, and the global facts

  lemma SelfEnqueue(c: Cfg, g: Shared, t: Tid, th: Thr, b: Option<Pkt>)
    requires Global(g) && Local(g, t, th) && g.connected && (th.act.Ready? || th.act.Flush? || th.act.SendGap?)
    ensures var (g', a) := Enqueue(c, g, t, b); Local(g', t, th.(act := a))
  {
  }

  lemma SelfSend(c: Cfg, g: Shared, t: Tid, th: Thr, o: SendOp)
    requires Ok(c) && Global(g) && Local(g, t, th) && SendEnabled(c, g, th, o)
    ensures var (g', a) := SendDo(c, g, t, th, o); Local(g', t, th.(act := a))
  {
    hide Enqueue;
    match o {
      case CallSend(b) => if g.connected { SelfEnqueue(c, g, t, th, b); }
      case FlushSend => if g.connected { SelfEnqueue(c, g, t, th, None); }
      case SendMark => SelfEnqueue(c, g, t, th, th.act.b);
      case _ =>
    }
  }

  lemma GlobalEnqueue(c: Cfg, g: Shared, t: Tid, b: Option<Pkt>)
    requires Global(g) && g.connected
    ensures Global(Enqueue(c, g, t, b).0)
  {
  }

  lemma GlobalSend(c: Cfg, g: Shared, t: Tid, th: Thr, o: SendOp)
    requires Ok(c) && Global(g) && Local(g, t, th) && SendEnabled(c, g, th, o)
    ensures Global(SendDo(c, g, t, th, o).0)
  {
    match o {
      case CallSend(b) => if g.connected { GlobalEnqueue(c, g, t, b); }
      case FlushSend => if g.connected { GlobalEnqueue(c, g, t, None); }
      case SendMark => GlobalEnqueue(c, g, t, th.act.b);
      case _ =>
    }
  }

  /** Up to the posted receive. */
  predicate Posts(o: RecvOp) { o.EndConn? || o.RecvEnter? || o.RecvCheck? || o.RecvMark? || o.WsaRecv? }

  lemma SelfPost(c: Cfg, g: Shared, t: Tid, th: Thr, o: RecvOp)
    requires Ok(c) && Global(g) && Local(g, t, th) && RecvEnabled(c, g, th, o) && Posts(o)
    ensures var (g', th') := RecvDo(c, g, t, th, o); Local(g', t, th')
  {
  }

  lemma SelfHandle(c: Cfg, g: Shared, t: Tid, th: Thr, o: RecvOp)
    requires Ok(c) && Global(g) && Local(g, t, th) && RecvEnabled(c, g, th, o) && !Posts(o)
    ensures var (g', th') := RecvDo(c, g, t, th, o); Local(g', t, th')
  {
  }

  lemma SelfRecv(c: Cfg, g: Shared, t: Tid, th: Thr, o: RecvOp)
    requires Ok(c) && Global(g) && Local(g, t, th) && RecvEnabled(c, g, th, o)
    ensures var (g', th') := RecvDo(c, g, t, th, o); Local(g', t, th')
  {
    hide RecvDo, RecvEnabled, Global, Local;
    if Posts(o) { SelfPost(c, g, t, th, o); } else { SelfHandle(c, g, t, th, o); }
  }

  lemma GlobalRecv(c: Cfg, g: Shared, t: Tid, th: Thr, o: RecvOp)
    requires Ok(c) && Global(g) && Local(g, t, th) && RecvEnabled(c, g, th, o)
    ensures Global(RecvDo(c, g, t, th, o).0)
  {
  }

  /** `disconnect()` up to `_disconnect`. */
  predicate Enters(o: DiscOp) { o.CallDisconnect? || o.Acquire? || o.XTest? || o.XShut? }

  /** `_disconnect` up to its decision. */
  predicate Looks(o: DiscOp) { o.DResetErr? || o.DClearConn? || o.DReadSending? || o.DReadReceiving? }

  lemma SelfEnter(g: Shared, t: Tid, th: Thr, o: DiscOp)
    requires Global(g) && Local(g, t, th) && DiscEnabled(g, th, o) && Enters(o)
    ensures var (g', a) := DiscDo(g, t, th, o); Local(g', t, th.(act := a))
  {
  }

  lemma SelfLook(g: Shared, t: Tid, th: Thr, o: DiscOp)
    requires Global(g) && Local(g, t, th) && DiscEnabled(g, th, o) && Looks(o)
    ensures var (g', a) := DiscDo(g, t, th, o); Local(g', t, th.(act := a))
  {
  }

  lemma SelfTearDown(g: Shared, t: Tid, th: Thr, o: DiscOp)
    requires Global(g) && Local(g, t, th) && DiscEnabled(g, th, o) && !Enters(o) && !Looks(o)
    ensures var (g', a) := DiscDo(g, t, th, o); Local(g', t, th.(act := a))
  {
  }

  lemma SelfDisc(g: Shared, t: Tid, th: Thr, o: DiscOp)
    requires Global(g) && Local(g, t, th) && DiscEnabled(g, th, o)
    ensures var (g', a) := DiscDo(g, t, th, o); Local(g', t, th.(act := a))
  {
    hide DiscDo, DiscEnabled, Global, Local;
    if Enters(o) {
      SelfEnter(g, t, th, o);
    } else if Looks(o) {
      SelfLook(g, t, th, o);
    } else {
      SelfTearDown(g, t, th, o);
    }
  }

  lemma GlobalDisc(c: Cfg, g: Shared, t: Tid, th: Thr, o: DiscOp)
    requires Ok(c) && Global(g) && Local(g, t, th) && DiscEnabled(g, th, o)
    ensures Global(DiscDo(g, t, th, o).0)
  {
  }

  lemma SelfBatch(c: Cfg, g: Shared, t: Tid, th: Thr, o: SendOp)
    requires Global(g) && LocalBatch(g, t, th) && Local(g, t, th) && SendEnabled(c, g, th, o)
    ensures var (g', a) := SendDo(c, g, t, th, o); LocalBatch(g', t, th.(act := a))
  {
  }

  lemma NamedEnqueue(c: Cfg, n: nat, g: Shared, t: Tid, b: Option<Pkt>)
    requires Named(n, g) && t < n
    ensures Named(n, Enqueue(c, g, t, b).0)
  {
  }

  lemma NamedSend(c: Cfg, n: nat, g: Shared, t: Tid, th: Thr, o: SendOp)
    requires Named(n, g) && t < n && SendEnabled(c, g, th, o)
    ensures Named(n, SendDo(c, g, t, th, o).0)
  {
    match o {
      case CallSend(b) => NamedEnqueue(c, n, g, t, b);
      case FlushSend => NamedEnqueue(c, n, g, t, None);
      case SendMark => NamedEnqueue(c, n, g, t, th.act.b);
      case _ =>
    }
  }

  lemma NamedRecv(c: Cfg, n: nat, g: Shared, t: Tid, th: Thr, o: RecvOp)
    requires Named(n, g) && t < n && RecvEnabled(c, g, th, o)
    ensures Named(n, RecvDo(c, g, t, th, o).0)
  {
  }

  lemma NamedDisc(n: nat, g: Shared, t: Tid, th: Thr, o: DiscOp)
    requires Named(n, g) && t < n && DiscEnabled(g, th, o)
    ensures Named(n, DiscDo(g, t, th, o).0)
  {
  }

  lemma EnqueueKeepsQueue(c: Cfg, g: Shared, t: Tid, b: Option<Pkt>)
    requires Ok(c) && QueueInv(c, g)
    ensures QueueInv(c, Enqueue(c, g, t, b).0)
  {
    PushPopKeepsOrder(c.cap, g.snd.q, b, g.snd.popped);
    assert g.snd.popped + [] == g.snd.popped;
  }

  lemma QueueSend(c: Cfg, g: Shared, t: Tid, th: Thr, o: SendOp)
    requires Ok(c) && Local(g, t, th) && QueueInv(c, g) && SendEnabled(c, g, th, o)
    ensures QueueInv(c, SendDo(c, g, t, th, o).0)
  {
    if o.CallSend? { EnqueueKeepsQueue(c, g, t, o.b); }
    if o.FlushSend? { EnqueueKeepsQueue(c, g, t, None); }
    if o.SendMark? { EnqueueKeepsQueue(c, g, t, th.act.b); }
  }

  lemma QueueDisc(c: Cfg, g: Shared, t: Tid, th: Thr, o: DiscOp)
    requires Ok(c) && Global(g) && Local(g, t, th) && QueueInv(c, g) && DiscEnabled(g, th, o)
    ensures QueueInv(c, DiscDo(g, t, th, o).0)
  {
  }

  /** Who owes the teardown passes the debt on. */
  predicate DebtKept(g: Shared, a: Act, g': Shared, a': Act) {
    && (!g.connected && (InSight(g) || Decides(a)) ==> InSight(g') || Decides(a'))
    && (g.connected && !g'.connected ==> Decides(a'))
    && (!g.connected ==> !g'.connected)
  }

  lemma KeepDebtSend(c: Cfg, g: Shared, t: Tid, th: Thr, o: SendOp)
    requires Ok(c) && Local(g, t, th) && SendEnabled(c, g, th, o)
    ensures var (g', a) := SendDo(c, g, t, th, o); DebtKept(g, th.act, g', a)
  {
  }

  lemma KeepDebtRecv(c: Cfg, g: Shared, t: Tid, th: Thr, o: RecvOp)
    requires Ok(c) && Local(g, t, th) && RecvEnabled(c, g, th, o)
    ensures var (g', th') := RecvDo(c, g, t, th, o); DebtKept(g, th.act, g', th'.act)
  {
  }

  lemma KeepDebtDisc(g: Shared, t: Tid, th: Thr, o: DiscOp)
    requires Global(g) && Local(g, t, th) && DiscEnabled(g, th, o)
    ensures var (g', a) := DiscDo(g, t, th, o); DebtKept(g, th.act, g', a)
  {
  }

  lemma KeepDebt(c: Cfg, g: Shared, t: Tid, th: Thr, op: Op)
    requires Ok(c) && Global(g) && Local(g, t, th) && CanDo(c, g, th, op)
    ensures var (g', th') := Do(c, g, t, th, op); DebtKept(g, th.act, g', th'.act)
  {
    hide DebtKept, Local, Global;
    match op {
      case S(o) => KeepDebtSend(c, g, t, th, o);
      case R(o) => KeepDebtRecv(c, g, t, th, o);
      case D(o) => KeepDebtDisc(g, t, th, o);
    }
  }

  /** Who carries the duty to send passes it on. */
  ghost predicate DutyKept(g: Shared, a: Act, g': Shared, a': Act) {
    g'.connected && g'.snd.q.cur != [] ==>
      || g'.snd.out != map[] || Carries(a')
      || (g.connected && g.snd.q.cur != [] && g.snd.out == map[] && !Carries(a))
  }

  lemma KeepDutySend(c: Cfg, g: Shared, t: Tid, th: Thr, o: SendOp)
    requires Ok(c) && Global(g) && Local(g, t, th) && SendEnabled(c, g, th, o)
    ensures var (g', a) := SendDo(c, g, t, th, o); DutyKept(g, th.act, g', a)
  {
    GlobalSend(c, g, t, th, o);
  }

  lemma KeepDutyRecv(c: Cfg, g: Shared, t: Tid, th: Thr, o: RecvOp)
    requires Local(g, t, th) && RecvEnabled(c, g, th, o)
    ensures var (g', th') := RecvDo(c, g, t, th, o); DutyKept(g, th.act, g', th'.act)
  {
  }

  lemma KeepDutyDisc(c: Cfg, g: Shared, t: Tid, th: Thr, o: DiscOp)
    requires Local(g, t, th) && DiscEnabled(g, th, o)
    ensures var (g', a) := DiscDo(g, t, th, o); DutyKept(g, th.act, g', a)
  {
  }

  /** A receive given up is one less to wait for the end of the connection. */
  lemma KeepEar(c: Cfg, g: Shared, t: Tid, th: Thr, op: Op)
    requires Ok(c) && Local(g, t, th) && CanDo(c, g, th, op)
    ensures var (g', th') := Do(c, g, t, th, op);
            g'.connected && g'.rx.rcv.NoRecv? ==> Ends(th'.act) || (g.connected && g.rx.rcv.NoRecv? && !Ends(th.act))
  {
  }

  // ---- together

  /** Connected is cleared only while no other thread is in a gap. */
  lemma ClearsOutsideGaps(c: Cfg, s: St, l: Step)
    requires Ok(c) && Inv(c, s) && Enabled(c, s, l) && l.op == D(DClearConn)
    ensures NoGap(s)
  {
    forall u | 0 <= u < |s.thr| ensures !InGap(s.thr[u].act) {
      assert Steps(c, s.thr[u].act);
      assert c.threads < 2 ==> u == l.t;
    }
  }

  lemma StepsKept(c: Cfg, s: St, l: Step)
    requires Inv(c, s) && Enabled(c, s, l)
    ensures forall u :: 0 <= u < |s.thr| ==> Steps(c, Apply(c, s, l).thr[u].act)
  {
    assert Steps(c, s.thr[l.t].act) && Local(s.g, l.t, s.thr[l.t]);
  }

  /** A step that moves no batch. */
  lemma SameBatches(g: Shared, g': Shared, u: Tid, th: Thr, th': Thr)
    requires LocalBatch(g, u, th) && g'.snd.out == g.snd.out
    requires th' == th || (!th.act.Posting? && !th.act.SendDone?)
    ensures LocalBatch(g', u, th')
  {
  }

  lemma SelfKept(c: Cfg, s: St, l: Step)
    requires Ok(c) && Inv(c, s) && Enabled(c, s, l)
    ensures var s' := Apply(c, s, l);
            Global(s'.g) && Local(s'.g, l.t, s'.thr[l.t]) && LocalBatch(s'.g, l.t, s'.thr[l.t])
  {
    var s' := Apply(c, s, l);
    var th := s.thr[l.t];
    assert Local(s.g, l.t, th) && LocalBatch(s.g, l.t, th);
    hide Inv, Local, LocalBatch, Global, SendDo, RecvDo, DiscDo, SendEnabled, RecvEnabled, DiscEnabled;
    match l.op {
      case S(o) =>
        SelfSend(c, s.g, l.t, th, o);
        GlobalSend(c, s.g, l.t, th, o);
        SelfBatch(c, s.g, l.t, th, o);
      case R(o) =>
        SelfRecv(c, s.g, l.t, th, o);
        GlobalRecv(c, s.g, l.t, th, o);
        RecvKeepsBatches(c, s.g, l.t, th, o);
        SameBatches(s.g, s'.g, l.t, th, s'.thr[l.t]);
      case D(o) =>
        SelfDisc(s.g, l.t, th, o);
        GlobalDisc(c, s.g, l.t, th, o);
        DiscKeepsBatches(s.g, l.t, th, o);
        SameBatches(s.g, s'.g, l.t, th, s'.thr[l.t]);
    }
  }

  lemma OtherKept(c: Cfg, s: St, l: Step, u: Tid)
    requires Ok(c) && Inv(c, s) && Enabled(c, s, l) && u < |s.thr| && u != l.t
    ensures Local(Apply(c, s, l).g, u, s.thr[u]) && LocalBatch(Apply(c, s, l).g, u, s.thr[u])
  {
    var g', th, ut := Apply(c, s, l).g, s.thr[l.t], s.thr[u];
    assert Local(s.g, l.t, th) && Local(s.g, u, ut) && LocalBatch(s.g, u, ut);
    assert l.op == D(DClearConn) ==> !InGap(ut.act) by {
      if l.op == D(DClearConn) { ClearsOutsideGaps(c, s, l); }
    }
    hide Inv, Local, LocalBatch, Global, SendDo, RecvDo, DiscDo, SendEnabled, RecvEnabled, DiscEnabled;
    match l.op {
      case S(o) =>
        OtherSend(c, s.g, l.t, th, o, u, ut);
        OtherBatch(c, s.g, l.t, th, o, u, ut);
      case R(o) =>
        OtherRecv(c, s.g, l.t, th, o, u, ut);
        RecvKeepsBatches(c, s.g, l.t, th, o);
        SameBatches(s.g, g', u, ut, ut);
      case D(o) =>
        OtherDisc(s.g, l.t, th, o, u, ut);
        DiscKeepsBatches(s.g, l.t, th, o);
        SameBatches(s.g, g', u, ut, ut);
    }
  }

  lemma KeepLocals(c: Cfg, s: St, l: Step)
    requires Ok(c) && Inv(c, s) && Enabled(c, s, l)
    ensures var s' := Apply(c, s, l);
            && Global(s'.g)
            && forall u :: 0 <= u < |s'.thr| ==> Local(s'.g, u, s'.thr[u]) && LocalBatch(s'.g, u, s'.thr[u])
  {
    hide Inv, Local, LocalBatch, Global, Do;
    var s' := Apply(c, s, l);
    SelfKept(c, s, l);
    forall u | 0 <= u < |s'.thr|
      ensures Local(s'.g, u, s'.thr[u]) && LocalBatch(s'.g, u, s'.thr[u])
    {
      if u != l.t { OtherKept(c, s, l, u); }
    }
  }

  lemma KeepOwed(c: Cfg, s: St, l: Step)
    requires Ok(c) && Inv(c, s) && Enabled(c, s, l)
    ensures Owed(Apply(c, s, l))
  {
    var s' := Apply(c, s, l);
    KeepDebt(c, s.g, l.t, s.thr[l.t], l.op);
    if !s'.g.connected && !InSight(s'.g) {
      if Decides(s'.thr[l.t].act) {
        assert DecidesAt(s', l.t);
      } else {
        var t :| DecidesAt(s, t);
        assert DecidesAt(s', t);
      }
    }
  }

  lemma KeepNotStranded(c: Cfg, s: St, l: Step)
    requires Ok(c) && Inv(c, s) && Enabled(c, s, l)
    ensures NotStranded(Apply(c, s, l))
  {
    var s' := Apply(c, s, l);
    var th := s.thr[l.t];
    match l.op {
      case S(o) => KeepDutySend(c, s.g, l.t, th, o);
      case R(o) => KeepDutyRecv(c, s.g, l.t, th, o);
      case D(o) => KeepDutyDisc(c, s.g, l.t, th, o);
    }
    if s'.g.connected && s'.g.snd.q.cur != [] && s'.g.snd.out == map[] {
      if Carries(s'.thr[l.t].act) {
        assert CarriesAt(s', l.t);
      } else {
        var t :| CarriesAt(s, t);
        assert CarriesAt(s', t);
      }
    }
  }

  lemma KeepNotDeaf(c: Cfg, s: St, l: Step)
    requires Ok(c) && Inv(c, s) && Enabled(c, s, l)
    ensures NotDeaf(Apply(c, s, l))
  {
    var s' := Apply(c, s, l);
    assert Local(s.g, l.t, s.thr[l.t]);
    hide Local, Global, Do;
    KeepEar(c, s.g, l.t, s.thr[l.t], l.op);
    if s'.g.connected && s'.g.rx.rcv.NoRecv? {
      if Ends(s'.thr[l.t].act) {
        assert EndsAt(s', l.t);
      } else {
        var t :| EndsAt(s, t);
        assert EndsAt(s', t);
      }
    }
  }

  lemma StepKeepsInv(c: Cfg, s: St, l: Step)
    requires Ok(c) && Inv(c, s) && Enabled(c, s, l)
    ensures Inv(c, Apply(c, s, l))
  {
    KeepLocals(c, s, l);
    StepsKept(c, s, l);
    var th := s.thr[l.t];
    match l.op {
      case S(o) => NamedSend(c, c.threads, s.g, l.t, th, o); QueueSend(c, s.g, l.t, th, o);
      case R(o) => NamedRecv(c, c.threads, s.g, l.t, th, o);
      case D(o) => NamedDisc(c.threads, s.g, l.t, th, o); QueueDisc(c, s.g, l.t, th, o);
    }
    KeepOwed(c, s, l);
    KeepNotStranded(c, s, l);
    KeepNotDeaf(c, s, l);
  }

  lemma InitInv(c: Cfg)
    requires ValidCfg(c)
    ensures Inv(c, Init(c))
  {
  }

  /** In every interleaving of any length, by any number of threads, the invariants hold. */
  lemma {:induction false} RunKeepsInv(c: Cfg, ls: seq<Step>)
    requires Ok(c) && CanRun(c, ls)
    ensures Inv(c, Run(c, ls))
  {
    if ls == [] {
      InitInv(c);
    } else {
      hide Inv, Enabled, Apply, Init;
      RunKeepsInv(c, ls[..|ls| - 1]);
      StepKeepsInv(c, Run(c, ls[..|ls| - 1]), ls[|ls| - 1]);
    }
  }
}
