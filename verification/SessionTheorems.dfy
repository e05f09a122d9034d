/** What the lifecycle of a connection guarantees over whole runs. */
module SessionTheorems {
  import opened Options
  import opened SendQueue
  import opened SessionLifecycle
  import opened SessionInvariants
  import opened SessionHistory

  /** The thread works on a send batch or a receive of this connection. */
  predicate DoesIo(th: Thr) { th.act.Posting? || th.act.SendDone? || InRecv(th) }

  /** `_on_disc` has run, or some thread is about to run it. */
  ghost predicate TornDown(s: St) {
    s.g.disc.log != [] || exists t :: 0 <= t < |s.thr| && s.thr[t].act.ERun?
  }

  /** Teardown finds no outstanding send batch and no outstanding receive, nor a thread handling one; and afterwards
      no thread uses the current batch or the receive block it took away. */
  ghost predicate Safe(s: St) {
    && (forall t :: 0 <= t < |s.thr| ==> !s.thr[t].act.Crashed?)
    && |s.g.disc.log| <= 1
    && (s.g.disc.log != [] ==> s.g.disc.errs != [] && s.g.disc.log[0] == s.g.disc.errs[0])
    && (TornDown(s) ==>
          && s.g.snd.out == map[] && !s.g.rx.rcv.Outstanding? && !s.g.rx.receiving && !IsSending(s.g.snd.q)
          && forall t :: 0 <= t < |s.thr| ==> !DoesIo(s.thr[t]))
  }

  /** Safe, exactly-once teardown in every interleaving, with the error of the first `_disconnect`. */
  lemma SafeTeardown(c: Cfg, ls: seq<Step>)
    requires Ok(c) && CanRun(c, ls)
    ensures Safe(Run(c, ls))
  {
    RunKeepsInv(c, ls);
    var s := Run(c, ls);
    forall t | 0 <= t < |s.thr| ensures !s.thr[t].act.Crashed? { assert Local(s.g, t, s.thr[t]); }
    if TornDown(s) {
      assert s.g.disc.disconnecting by {
        if s.g.disc.log == [] {
          var t :| 0 <= t < |s.thr| && s.thr[t].act.ERun?;
          assert Local(s.g, t, s.thr[t]);
        }
      }
      forall t | 0 <= t < |s.thr| ensures !DoesIo(s.thr[t]) {
        assert Local(s.g, t, s.thr[t]);
      }
    }
  }

  /** Once connected is cleared, teardown is claimed, or I/O is outstanding, or a thread still decides. */
  lemma NoLostTeardown(c: Cfg, ls: seq<Step>)
    requires Ok(c) && CanRun(c, ls) && !Run(c, ls).g.connected
    ensures InSight(Run(c, ls).g) || exists t :: DecidesAt(Run(c, ls), t)
  {
    RunKeepsInv(c, ls);
  }

  /** Bufs wait in a connected session only behind a batch in flight or a thread bound to send or disconnect. */
  lemma NoStrandedSend(c: Cfg, ls: seq<Step>)
    requires Ok(c) && CanRun(c, ls)
    requires Run(c, ls).g.connected && Run(c, ls).g.snd.q.cur != []
    ensures Run(c, ls).g.snd.out != map[] || exists t :: CarriesAt(Run(c, ls), t)
  {
    RunKeepsInv(c, ls);
  }

  /** Every thread is back in the IOCP loop. */
  predicate AllIdle(s: St) { forall t :: 0 <= t < |s.thr| ==> s.thr[t] == Thr(KIdle, Ready) }

  /** A connected session has a receive out, or a thread that handles one or will call `recv()`, unless a thread is
      about to end the connection. */
  lemma NoLostReceive(c: Cfg, ls: seq<Step>)
    requires Ok(c) && CanRun(c, ls)
    requires Run(c, ls).g.connected && Run(c, ls).g.rx.rcv == NoRecv
    ensures exists t :: EndsAt(Run(c, ls), t)
  {
    RunKeepsInv(c, ls);
  }

  lemma IdleReceivesNot(g: Shared, t: Tid, th: Thr)
    requires Local(g, t, th) && th == Thr(KIdle, Ready)
    ensures g.rx.rcv != NextBy(t) && g.rx.rcv != Outstanding(ByThread(t))
  {
  }

  lemma RestReceives(c: Cfg, s: St)
    requires Inv(c, s) && s.g.connected && AllIdle(s)
    ensures s.g.rx.rcv == Outstanding(InOs)
  {
    hide Local, LocalBatch, Global, QueueInv, Owed, NotStranded, Steps;
    var r := s.g.rx.rcv;
    var t := if r.NextBy? then r.t else if r.Outstanding? && r.h.ByThread? then r.h.t else 0;
    assert forall u :: !EndsAt(s, u);
    if t < |s.thr| { IdleReceivesNot(s.g, t, s.thr[t]); }
  }

  lemma RestSends(c: Cfg, s: St)
    requires Inv(c, s) && s.g.connected && AllIdle(s) && s.g.snd.q.cur != []
    ensures InOsBatches(s.g.snd.out) != {}
  {
    hide Local, Global, QueueInv, Owed, NotDeaf, Steps;
    assert forall t :: !CarriesAt(s, t);
    forall t | 0 <= t < |s.thr| ensures forall id :: id in s.g.snd.out ==> s.g.snd.out[id] != ByThread(t) {
      assert LocalBatch(s.g, t, s.thr[t]);
    }
    var id :| id in s.g.snd.out;
    assert id in InOsBatches(s.g.snd.out);
  }

  /** When all threads are back in the loop, a connected session has a receive posted; Bufs wait only behind a batch the
      system has; and nothing has happened that should have ended it. */
  lemma ServesAtRest(c: Cfg, ls: seq<Step>)
    requires Ok(c) && CanRun(c, ls) && Run(c, ls).g.connected && AllIdle(Run(c, ls))
    ensures var g := Run(c, ls).g;
            && g.rx.rcv == Outstanding(InOs)
            && (g.snd.q.cur != [] ==> InOsBatches(g.snd.out) != {})
            && !AnyFailed(ls)
  {
    hide CanRun, Run, Inv, InOsBatches, AnyFailed;
    RunKeepsInv(c, ls);
    EndsExactlyWhen(c, ls);
    RestReceives(c, Run(c, ls));
    if Run(c, ls).g.snd.q.cur != [] { RestSends(c, Run(c, ls)); }
  }

  /** Until teardown, batches popped, in pop order, then the current batch, are the Bufs `send` was given while the
      session was connected, in order. */
  lemma SendOrder(c: Cfg, ls: seq<Step>)
    requires Ok(c) && CanRun(c, ls) && Run(c, ls).g.disc.log == []
    ensures var g := Run(c, ls).g;
            && Flatten(g.snd.popped) + g.snd.q.cur == Accepted(ls)
            && |g.snd.q.cur| < c.cap
            && g.snd.q.popCnt == |g.snd.out|
  {
    RunKeepsInv(c, ls);
    AcceptedIsPushed(c, ls);
  }

  /** The pool of batches may count on it: `uninit` comes when nothing of the session is in flight. */
  lemma TeardownMayClose(c: Cfg, ls: seq<Step>, t: Tid, l: Ledger<Pkt>, i: nat)
    requires Ok(c) && CanRun(c, ls) && t < |Run(c, ls).thr| && Enabled(c, Run(c, ls), Step(t, D(OnDisc)))
    requires i < |l.sessions| && l.sessions[i] == Some(Run(c, ls).g.snd.q)
    ensures LedgerEnabled(l, CloseSession(i))
  {
    SafeTeardown(c, ls);
  }

  /** And a batch comes back only to a queue that has one in flight. */
  lemma BatchMayReturn(c: Cfg, ls: seq<Step>, t: Tid, l: Ledger<Pkt>, i: nat)
    requires Ok(c) && CanRun(c, ls) && t < |Run(c, ls).thr| && Enabled(c, Run(c, ls), Step(t, S(SendReturn)))
    requires i < |l.sessions| && l.sessions[i] == Some(Run(c, ls).g.snd.q)
    ensures LedgerEnabled(l, SessionBack(i)) && Run(c, ls).g.live
  {
    RunKeepsInv(c, ls);
    var g := Run(c, ls).g;
    assert Local(g, t, Run(c, ls).thr[t]);
    assert |g.snd.out| > 0;
  }

  // ---- teardown is reached

  function ActRank(c: Cfg, a: Act): nat {
    match a
    case Ready | Crashed => 0
    case RecvEntry | Flush | SendGap(_) | RecvGap | ERun => 1
    case EWait => 2
    case DStart => 4
    case DClaim => 5
    case DCheck(_) => 6
    case DSending => 7
    case DClear => 8
    case DReset(_) => 9
    case DWait(_) => 10
    case XClose => 10
    case XHeld => 11
    case XWait => 12
    case SendChecked(_, _) => 11
    case RecvCleared => 11
    case RecvFail(_) => 11
    case SendDone(_, _) => 12
    case Posting(_) => 14
    case RecvPost => c.maxPackets + 14
  }

  function KontRank(k: Kont): nat {
    match k case KIdle => 0 case KConn => 2 case KRecv(n, _) => 12 + n
  }

  function ThrRank(c: Cfg, th: Thr): nat { KontRank(th.k) + ActRank(c, th.act) }

  function ThrRanks(c: Cfg, ths: seq<Thr>): nat {
    if ths == [] then 0 else ThrRanks(c, ths[..|ths| - 1]) + ThrRank(c, ths[|ths| - 1])
  }

  ghost function OsRank(c: Cfg, g: Shared): nat {
    13 * |InOsBatches(g.snd.out)|
    + (if g.rx.rcv == Outstanding(InOs) then c.maxPackets + 13 else 0)
    + (if g.disc.claim.Pending? then 3 else 0)
  }

  /** What is left to do: the statements of every thread and the completions still to come. */
  ghost function Measure(c: Cfg, s: St): nat { ThrRanks(c, s.thr) + OsRank(c, s.g) }

  /** Steps other than new calls of `send` and `disconnect`. */
  predicate Internal(op: Op) {
    match op case S(o) => !o.CallSend? && !o.SendCheck? case R(_) => true case D(o) => !o.CallDisconnect?
  }

  predicate AllInternal(ls: seq<Step>) { forall l :: l in ls ==> Internal(l.op) }

  lemma {:induction false} RanksUpdate(c: Cfg, ths: seq<Thr>, t: Tid, th: Thr)
    requires t < |ths|
    ensures ThrRanks(c, ths[t := th]) == ThrRanks(c, ths) - ThrRank(c, ths[t]) + ThrRank(c, th)
  {
    var n := |ths| - 1;
    if t == n {
      assert ths[t := th][..n] == ths[..n];
    } else {
      assert ths[t := th][..n] == ths[..n][t := th];
      RanksUpdate(c, ths[..n], t, th);
    }
  }

  lemma SendShrinks(c: Cfg, g: Shared, t: Tid, th: Thr, o: SendOp)
    requires Global(g) && Local(g, t, th) && SendEnabled(c, g, th, o) && !g.connected && !o.CallSend? && !o.SendCheck?
    ensures var (g', a) := SendDo(c, g, t, th, o);
            OsRank(c, g') + ActRank(c, a) < OsRank(c, g) + ActRank(c, th.act)
  {
    match o {
      case WsaSend(ok, err) => OsTakes(g.snd.out, th.act.id);
      case SendComplete(id, err) => OsGives(g.snd.out, id, t);
      case SendReturn => OsKeeps(g.snd.out, th.act.id);
      case _ =>
    }
    hide InOsBatches;
  }

  lemma RecvShrinks(c: Cfg, g: Shared, t: Tid, th: Thr, o: RecvOp)
    requires Global(g) && Local(g, t, th) && RecvEnabled(c, g, th, o) && !g.connected
    ensures var (g', th') := RecvDo(c, g, t, th, o);
            OsRank(c, g') + ThrRank(c, th') < OsRank(c, g) + ThrRank(c, th)
  {
    hide InOsBatches;
    RecvKeepsBatches(c, g, t, th, o);
  }

  lemma DiscShrinks(c: Cfg, g: Shared, t: Tid, th: Thr, o: DiscOp)
    requires Local(g, t, th) && DiscEnabled(g, th, o) && !g.connected && !o.CallDisconnect?
    ensures var (g', a) := DiscDo(g, t, th, o);
            OsRank(c, g') + ActRank(c, a) < OsRank(c, g) + ActRank(c, th.act)
  {
    hide InOsBatches;
    DiscKeepsBatches(g, t, th, o);
  }

  lemma StepShrinks(c: Cfg, s: St, l: Step)
    requires Ok(c) && Inv(c, s) && Enabled(c, s, l) && Internal(l.op) && !s.g.connected
    ensures Measure(c, Apply(c, s, l)) < Measure(c, s) && !Apply(c, s, l).g.connected
  {
    var s' := Apply(c, s, l);
    var th := s.thr[l.t];
    RanksUpdate(c, s.thr, l.t, s'.thr[l.t]);
    KeepDebt(c, s.g, l.t, th, l.op);
    match l.op {
      case S(o) => SendShrinks(c, s.g, l.t, th, o);
      case R(o) => RecvShrinks(c, s.g, l.t, th, o);
      case D(o) => DiscShrinks(c, s.g, l.t, th, o);
    }
  }

  /** No thread can move and no completion is due. */
  ghost predicate Stuck(c: Cfg, s: St) {
    forall l: Step :: Internal(l.op) ==> !Enabled(c, s, l)
  }

  /** The internal step a thread is at, if it can move on its own. */
  function OwnStep(c: Cfg, th: Thr): Option<Op> {
    match th.act
    case Ready => (match th.k
                   case KIdle => None
                   case KConn => Some(R(EndConn))
                   case KRecv(n, _) => Some(R(if n > 0 then EndPacket else EndParse)))
    case SendGap(_) => Some(S(SendMark))
    case Posting(_) => Some(S(WsaSend(true, 0)))
    case SendDone(_, _) => Some(S(SendReturn))
    case SendChecked(_, _) => Some(S(SendTest))
    case Flush => Some(S(if c.splitSend then FlushCheck else FlushSend))
    case RecvEntry => Some(R(if c.splitRecv then RecvCheck else RecvEnter))
    case RecvGap => Some(R(RecvMark))
    case RecvPost => Some(R(WsaRecv(true, 0)))
    case RecvFail(_) => Some(R(RecvClear))
    case RecvCleared => Some(R(RecvTest))
    case XWait | DWait(_) | EWait | Crashed => None
    case XHeld => Some(D(XTest))
    case XClose => Some(D(XShut))
    case DReset(_) => Some(D(DResetErr))
    case DClear => Some(D(DClearConn))
    case DSending => Some(D(DReadSending))
    case DCheck(_) => Some(D(DReadReceiving))
    case DClaim => Some(D(DTryClaim))
    case DStart => Some(D(DBegin))
    case ERun => Some(D(OnDisc))
  }

  lemma NoGapLeft(c: Cfg, s: St)
    requires Inv(c, s) && !s.g.connected
    ensures NoGap(s)
  {
    forall u | 0 <= u < |s.thr| ensures !InGap(s.thr[u].act) { assert Local(s.g, u, s.thr[u]); }
  }

  lemma OwnStepEnabled(c: Cfg, s: St, t: Tid)
    requires NoGap(s) && t < |s.thr| && OwnStep(c, s.thr[t]).Some?
    ensures var op := OwnStep(c, s.thr[t]).value; Internal(op) && Enabled(c, s, Step(t, op))
  {
  }

  lemma StuckThread(c: Cfg, s: St, t: Tid)
    requires Inv(c, s) && !s.g.connected && Stuck(c, s) && t < |s.thr|
    ensures OwnStep(c, s.thr[t]).None?
  {
    hide Inv, NoGap, Enabled, OwnStep;
    NoGapLeft(c, s);
    if OwnStep(c, s.thr[t]).Some? { OwnStepEnabled(c, s, t); }
  }

  lemma StuckFreesLock(c: Cfg, s: St)
    requires Inv(c, s) && !s.g.connected && Stuck(c, s)
    ensures s.g.disc.lock.None?
  {
    if s.g.disc.lock.Some? { StuckThread(c, s, s.g.disc.lock.value); }
  }

  /** In a stuck state all threads are back in the IOCP loop: nobody holds cd_lock_, so nobody waits for it. */
  lemma StuckIsIdle(c: Cfg, s: St, t: Tid)
    requires Inv(c, s) && !s.g.connected && Stuck(c, s) && t < |s.thr|
    ensures s.thr[t] == Thr(KIdle, Ready)
  {
    assert Local(s.g, t, s.thr[t]);
    StuckThread(c, s, t);
    StuckFreesLock(c, s);
    assert !Enabled(c, s, Step(t, D(Acquire)));
  }

  lemma BatchHolder(c: Cfg, s: St, id: nat)
    requires Inv(c, s) && id in s.g.snd.out && s.g.snd.out[id].ByThread?
    ensures s.g.snd.out[id].t < |s.thr| && s.thr[s.g.snd.out[id].t] != Thr(KIdle, Ready)
  {
    var t := s.g.snd.out[id].t;
    assert LocalBatch(s.g, t, s.thr[t]);
  }

  lemma StuckNoBatch(c: Cfg, s: St)
    requires ValidCfg(c) && Inv(c, s) && !s.g.connected && Stuck(c, s)
    ensures s.g.snd.out == map[]
  {
    StuckIsIdle(c, s, 0);
    if s.g.snd.out != map[] {
      var id :| id in s.g.snd.out;
      assert !Enabled(c, s, Step(0, S(SendComplete(id, 0))));
      BatchHolder(c, s, id);
      StuckIsIdle(c, s, s.g.snd.out[id].t);
    }
  }

  lemma StuckNoRecv(c: Cfg, s: St)
    requires ValidCfg(c) && Inv(c, s) && !s.g.connected && Stuck(c, s)
    ensures !s.g.rx.rcv.Outstanding?
  {
    StuckIsIdle(c, s, 0);
    assert !Enabled(c, s, Step(0, R(RecvError(0))));
    if s.g.rx.rcv.Outstanding? { StuckIsIdle(c, s, s.g.rx.rcv.h.t); }
  }

  lemma StuckNoClaim(c: Cfg, s: St)
    requires ValidCfg(c) && Inv(c, s) && !s.g.connected && Stuck(c, s)
    ensures s.g.disc.claim.Unclaimed? || s.g.disc.claim.Done?
  {
    StuckIsIdle(c, s, 0);
    assert !Enabled(c, s, Step(0, D(DiscComplete)));
    if s.g.disc.claim.Claimed? { StuckIsIdle(c, s, s.g.disc.claim.t); }
  }

  lemma StuckIsDone(c: Cfg, s: St)
    requires ValidCfg(c) && Inv(c, s) && Stuck(c, s) && !s.g.connected
    ensures |s.g.disc.log| == 1 && AllIdle(s)
  {
    forall t | 0 <= t < |s.thr| ensures s.thr[t] == Thr(KIdle, Ready) { StuckIsIdle(c, s, t); }
    StuckNoBatch(c, s);
    StuckNoRecv(c, s);
    StuckNoClaim(c, s);
    forall t | DecidesAt(s, t) ensures false { StuckIsIdle(c, s, t); }
  }

  lemma StuckRunIsDone(c: Cfg, ls: seq<Step>)
    requires Ok(c) && CanRun(c, ls) && !Run(c, ls).g.connected && Stuck(c, Run(c, ls))
    ensures |Run(c, ls).g.disc.log| == 1 && AllIdle(Run(c, ls))
  {
    RunKeepsInv(c, ls);
    StuckIsDone(c, Run(c, ls));
  }

  /** After connected is cleared, without new user calls, every run is at most `Measure` steps long, and
      a run that cannot be continued has run `_on_disc` exactly once and has all threads idle. */
  lemma {:induction false} TeardownIsReached(c: Cfg, ls: seq<Step>, more: seq<Step>)
    requires Ok(c) && CanRun(c, ls) && !Run(c, ls).g.connected
    requires CanRun(c, ls + more) && AllInternal(more)
    ensures !Run(c, ls + more).g.connected
    ensures |more| + Measure(c, Run(c, ls + more)) <= Measure(c, Run(c, ls))
    ensures Stuck(c, Run(c, ls + more)) ==> |Run(c, ls + more).g.disc.log| == 1 && AllIdle(Run(c, ls + more))
  {
    hide CanRun, Run, Enabled, Apply, Init, Measure, Stuck, AllIdle, Inv;
    RunKeepsInv(c, ls + more);
    if more == [] {
      assert ls + more == ls;
    } else {
      var n := |more| - 1;
      var front := ls + more[..n];
      assert ls + more == front + [more[n]];
      Unroll(c, front, more[n]);
      TeardownIsReached(c, ls, more[..n]);
      RunKeepsInv(c, front);
      StepShrinks(c, Run(c, front), more[n]);
    }
    if Stuck(c, Run(c, ls + more)) { StuckIsDone(c, Run(c, ls + more)); }
  }

  lemma Unroll(c: Cfg, ls: seq<Step>, l: Step)
    requires CanRun(c, ls + [l])
    ensures CanRun(c, ls) && Enabled(c, Run(c, ls), l) && Run(c, ls + [l]) == Apply(c, Run(c, ls), l)
  {
    hide Enabled, Apply, Init;
    var more := ls + [l];
    assert more[..|more| - 1] == ls && more[|more| - 1] == l;
  }

  lemma Extend(c: Cfg, ls: seq<Step>, l: Step)
    requires CanRun(c, ls) && Enabled(c, Run(c, ls), l)
    ensures CanRun(c, ls + [l]) && Run(c, ls + [l]) == Apply(c, Run(c, ls), l)
  {
    hide Enabled, Apply, Init;
    var more := ls + [l];
    assert more[..|more| - 1] == ls && more[|more| - 1] == l;
  }

  lemma Advance(c: Cfg, ls: seq<Step>) returns (l: Step)
    requires Ok(c) && CanRun(c, ls) && !Run(c, ls).g.connected && !Stuck(c, Run(c, ls))
    ensures Internal(l.op) && CanRun(c, ls + [l]) && !Run(c, ls + [l]).g.connected
    ensures Measure(c, Run(c, ls + [l])) < Measure(c, Run(c, ls))
  {
    hide CanRun, Run, Apply, Init, Measure, Inv, Enabled;
    RunKeepsInv(c, ls);
    l :| Internal(l.op) && Enabled(c, Run(c, ls), l);
    Extend(c, ls, l);
    StepShrinks(c, Run(c, ls), l);
  }

  /** And such a run exists: from every state with connected cleared, teardown can be completed. */
  lemma TeardownCompletes(c: Cfg, ls: seq<Step>) returns (run: seq<Step>)
    requires Ok(c) && CanRun(c, ls) && !Run(c, ls).g.connected
    ensures CanRun(c, run) && ls <= run && AllInternal(run[|ls|..])
    ensures |Run(c, run).g.disc.log| == 1 && AllIdle(Run(c, run))
  {
    hide CanRun, Run, Enabled, Apply, Init, Measure, Stuck, AllIdle, Inv;
    run := ls;
    while !Stuck(c, Run(c, run))
      invariant CanRun(c, run) && !Run(c, run).g.connected
      invariant ls <= run && AllInternal(run[|ls|..])
      decreases Measure(c, Run(c, run))
    {
      var l := Advance(c, run);
      assert (run + [l])[|ls|..] == run[|ls|..] + [l];
      run := run + [l];
    }
    StuckRunIsDone(c, run);
  }

  // ---- the check and the mark must be one step

  /** A session nobody but thread 1 is going to touch, which is what `disconnect()` needs to tear it down alone. */
  predicate Untouched(s: St) {
    && |s.thr| >= 2 && s.thr[1] == Thr(KIdle, Ready)
    && s.g.connected && s.g.live && !s.g.disc.force && s.g.disc.lock.None?
    && s.g.snd.q == Queue([], 0) && !s.g.rx.receiving
    && !s.g.disc.disconnecting && s.g.disc.log == []
  }

  const ALONE: seq<DiscOp> :=
    [CallDisconnect, Acquire, XTest, XShut, DResetErr, DClearConn,
     DReadSending, DReadReceiving, DTryClaim, DBegin, OnDisc]

  const STOPS: seq<Act> :=
    [Ready, XWait, XHeld, XClose, DReset(0), DClear, DSending, DCheck(false), DClaim, DStart, ERun, Ready]

  /** `s'` is `s` after the first `i` steps of `disconnect()` by thread 1. */
  predicate AloneFor(s: St, s': St, i: nat) {
    && i <= 11 && |s.thr| >= 2
    && s'.thr == s.thr[1 := Thr(KIdle, STOPS[i])]
    && s'.g.connected == (i < 6) && s'.g.live == (i < 11)
    && s'.g.disc.force == (i >= 3) && s'.g.disc.disconnecting == (i >= 9)
    && s'.g.disc.lock == (if 2 <= i < 11 then Some(1) else None)
    && s'.g.snd.out == s.g.snd.out && s'.g.snd.q == Queue([], 0)
    && s'.g.snd.popped == s.g.snd.popped && !s'.g.rx.receiving
    && |s'.g.disc.log| == (if i == 11 then 1 else 0)
  }

  lemma AloneStep(c: Cfg, s: St, s': St, i: nat)
    requires !c.guarded && i < 11 && AloneFor(s, s', i)
    ensures Enabled(c, s', Step(1, D(ALONE[i]))) && AloneFor(s, Apply(c, s', Step(1, D(ALONE[i]))), i + 1)
  {
  }

  lemma DisconnectRuns(c: Cfg, ls: seq<Step>) returns (ls': seq<Step>)
    requires !c.guarded && CanRun(c, ls) && Untouched(Run(c, ls))
    ensures CanRun(c, ls') && AloneFor(Run(c, ls), Run(c, ls'), 11)
  {
    ls' := ls;
    var i := 0;
    while i < 11
      invariant 0 <= i <= 11 && CanRun(c, ls') && AloneFor(Run(c, ls), Run(c, ls'), i)
    {
      AloneStep(c, Run(c, ls), Run(c, ls'), i);
      Extend(c, ls', Step(1, D(ALONE[i])));
      ls' := ls' + [Step(1, D(ALONE[i]))];
      i := i + 1;
    }
  }

  lemma SendGapReached(c: Cfg) returns (ls: seq<Step>)
    requires ValidCfg(c) && c.threads >= 2 && c.splitSend
    ensures CanRun(c, ls) && Untouched(Run(c, ls)) && Run(c, ls).thr[0].act == SendGap(Some(7))
  {
    Extend(c, [], Step(0, S(SendCheck(Some(7)))));
    ls := [] + [Step(0, S(SendCheck(Some(7))))];
  }

  /** The thread has used what `_on_disc` took away. */
  ghost predicate UsesTornDown(s: St) { |s.g.disc.log| == 1 && |s.thr| > 0 && s.thr[0].act.Crashed? }

  /** With the check and the mark of `send` apart, a thread can come to its current batch when teardown has taken it. */
  lemma SplitSendIsUnsafe(c: Cfg) returns (ls: seq<Step>)
    requires ValidCfg(c) && c.threads >= 2 && c.splitSend && !c.guarded
    ensures CanRun(c, ls) && UsesTornDown(Run(c, ls)) && !Safe(Run(c, ls))
  {
    var ls0 := SendGapReached(c);
    var ls1 := DisconnectRuns(c, ls0);
    Extend(c, ls1, Step(0, S(SendMark)));
    ls := ls1 + [Step(0, S(SendMark))];
  }

  lemma RecvGapStates(c: Cfg)
    requires ValidCfg(c) && c.threads >= 2 && c.splitRecv
    ensures Enabled(c, Init(c), Step(0, R(EndConn)))
    ensures var s := Apply(c, Init(c), Step(0, R(EndConn)));
            && Enabled(c, s, Step(0, R(RecvCheck)))
            && var s' := Apply(c, s, Step(0, R(RecvCheck)));
               Untouched(s') && s'.thr[0].act == RecvGap
  {
  }

  lemma RecvGapReached(c: Cfg) returns (ls: seq<Step>)
    requires ValidCfg(c) && c.threads >= 2 && c.splitRecv
    ensures CanRun(c, ls) && Untouched(Run(c, ls)) && Run(c, ls).thr[0].act == RecvGap
  {
    RecvGapStates(c);
    Extend(c, [], Step(0, R(EndConn)));
    var ls1 := [] + [Step(0, R(EndConn))];
    Extend(c, ls1, Step(0, R(RecvCheck)));
    ls := ls1 + [Step(0, R(RecvCheck))];
  }

  /** With the check and the mark of `recv` apart, a thread can mark a receive and come to its block when teardown has
      taken it. */
  lemma SplitRecvIsUnsafe(c: Cfg) returns (ls: seq<Step>)
    requires ValidCfg(c) && c.threads >= 2 && c.splitRecv && !c.guarded
    ensures CanRun(c, ls) && UsesTornDown(Run(c, ls)) && Run(c, ls).g.rx.receiving && !Safe(Run(c, ls))
  {
    var ls0 := RecvGapReached(c);
    var ls1 := DisconnectRuns(c, ls0);
    Extend(c, ls1, Step(0, R(RecvMark)));
    ls := ls1 + [Step(0, R(RecvMark))];
  }

  lemma {:induction false} NoThreadsNoSteps(c: Cfg, ls: seq<Step>)
    requires c.threads == 0 && CanRun(c, ls)
    ensures ls == []
  {
    if ls != [] { NoThreadsNoSteps(c, ls[..|ls| - 1]); }
  }

  /** Every run tears down safely exactly when the callers keep the guard, or there is a single thread, or the check and
      the mark of both `send` and `recv` are one step. */
  lemma SafeExactlyWhen(c: Cfg)
    requires c.cap >= 1
    ensures (forall ls :: CanRun(c, ls) ==> Safe(Run(c, ls)))
            <==> c.guarded || c.threads < 2 || (!c.splitSend && !c.splitRecv)
  {
    if Tame(c) {
      forall ls | CanRun(c, ls) ensures Safe(Run(c, ls)) {
        if c.threads == 0 { NoThreadsNoSteps(c, ls); } else { SafeTeardown(c, ls); }
      }
    } else if c.splitSend {
      var ls := SplitSendIsUnsafe(c);
    } else {
      var ls := SplitRecvIsUnsafe(c);
    }
  }
}
