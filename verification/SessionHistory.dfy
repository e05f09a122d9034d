/**
 What a run of a connection was asked to do, read off its steps alone, and that the connection did it: the Bufs
 accepted, the calls of the system, the packets given, the reasons to disconnect.
 */
module SessionHistory {
  import opened Options
  import opened Seqs
  import opened PacketStream
  import opened SendQueue
  import opened SessionLifecycle
  import opened SessionInvariants

  /** How many of the steps are of a kind. */
  function Count(ls: seq<Step>, kind: Step -> bool): nat {
    if ls == [] then 0 else Count(ls[..|ls| - 1], kind) + if kind(ls[|ls| - 1]) then 1 else 0
  }

  /** Connected has been cleared. */
  predicate Cleared(ls: seq<Step>) {
    ls != [] && (Cleared(ls[..|ls| - 1]) || ls[|ls| - 1].op == D(DClearConn))
  }

  /** What thread `t` passed the connected check of `send` with. */
  function Offered(ls: seq<Step>, t: Tid): Option<Pkt> {
    if ls == [] then None
    else
      var l := ls[|ls| - 1];
      if l.t == t && l.op.S? && l.op.s.SendCheck? then l.op.s.b
      else if l.t == t && l.op == S(FlushCheck) then None
      else Offered(ls[..|ls| - 1], t)
  }

  /** The Bufs `send` was given while the session was connected, in the order of its locked sections. */
  function Accepted(ls: seq<Step>): seq<Pkt> {
    if ls == [] then []
    else
      var front, l := ls[..|ls| - 1], ls[|ls| - 1];
      Accepted(front) + AsSeq(match l.op
                              case S(CallSend(b)) => if Cleared(front) then None else b
                              case S(SendMark) => Offered(front, l.t)
                              case _ => None)
  }

  /** The receive thread `t` last took up was to end in an invalid size. */
  predicate Invalid(ls: seq<Step>, t: Tid) {
    ls != []
    && var l := ls[|ls| - 1];
       if l.t == t && l.op.R? && l.op.r.RecvComplete? then l.op.r.bad else Invalid(ls[..|ls| - 1], t)
  }

  /** The error thread `t` would disconnect with: that of what it saw last. */
  function Cause(ls: seq<Step>, t: Tid): int {
    if ls == [] then 0
    else
      var front, l := ls[..|ls| - 1], ls[|ls| - 1];
      if l.t != t then Cause(front, t)
      else match l.op
           case S(WsaSend(ok, err)) => if ok then Cause(front, t) else err
           case S(SendComplete(_, err)) => err
           case R(WsaRecv(ok, err)) => if ok then Cause(front, t) else err
           case R(RecvError(err)) => err
           case R(EndParse) => if Invalid(front, t) then 16000 else 0
           case D(XShut) => 0
           case _ => Cause(front, t)
  }

  /** The error of the first `_disconnect` that came to its lock. */
  function Reason(ls: seq<Step>): Option<int> {
    if ls == [] then None
    else
      var front, l := ls[..|ls| - 1], ls[|ls| - 1];
      if Reason(front).Some? then Reason(front)
      else if l.op == D(DResetErr) then Some(Cause(front, l.t)) else None
  }

  /** What must end a connection: a call of `disconnect`, an operation that failed, an invalid size. */
  predicate Failing(l: Step) {
    match l.op
    case S(WsaSend(ok, err)) => !ok && err != 0
    case S(SendComplete(_, err)) => err != 0
    case R(WsaRecv(ok, _)) => !ok
    case R(RecvComplete(_, bad)) => bad
    case R(RecvError(_)) => true
    case D(CallDisconnect) => true
    case _ => false
  }

  /** The thread has seen such a thing and has yet to clear connected. */
  predicate Leaving(th: Thr) {
    var a := th.act;
    || (th.k.KRecv? && th.k.bad) || (a.SendDone? && a.err != 0) || (a.SendChecked? && a.err != 0) || a.RecvFail?
    || a.XWait? || a.XHeld? || a.XClose? || Ends(a)
  }

  predicate LeavingAt(s: St, t: Tid) { t < |s.thr| && Leaving(s.thr[t]) }

  /** Induction over a run: the state before its last step has the invariants. */
  lemma LastStep(c: Cfg, ls: seq<Step>) returns (front: seq<Step>, s: St, l: Step)
    requires Ok(c) && CanRun(c, ls) && ls != []
    ensures front == ls[..|ls| - 1] && l == ls[|ls| - 1] && CanRun(c, front) && s == Run(c, front)
    ensures Inv(c, s) && Enabled(c, s, l) && Run(c, ls) == Apply(c, s, l)
    ensures l.t < |s.thr| && Local(s.g, l.t, s.thr[l.t]) && CanDo(c, s.g, s.thr[l.t], l.op) && Global(s.g)
  {
    hide Apply, Init, Local, Global, SendEnabled, RecvEnabled, DiscEnabled;
    front, l := ls[..|ls| - 1], ls[|ls| - 1];
    s := Run(c, front);
    RunKeepsInv(c, front);
  }

  // ---- what each handler leaves alone

  lemma RecvLeavesRest(c: Cfg, g: Shared, t: Tid, th: Thr, o: RecvOp)
    requires RecvEnabled(c, g, th, o)
    ensures var (g', th') := RecvDo(c, g, t, th, o);
            g'.snd == g.snd && g'.disc == g.disc && !th.act.Posting? && !th'.act.Posting?
  {
  }

  lemma DiscLeavesRest(g: Shared, t: Tid, th: Thr, o: DiscOp)
    requires DiscEnabled(g, th, o)
    ensures var (g', a) := DiscDo(g, t, th, o);
            && g'.snd.(q := g.snd.q) == g.snd && g'.rx == g.rx
            && !th.act.Posting? && !a.Posting?
  {
  }

  lemma SendKeepsDisc(c: Cfg, g: Shared, t: Tid, th: Thr, o: SendOp)
    requires SendEnabled(c, g, th, o)
    ensures SendDo(c, g, t, th, o).0.disc == g.disc && SendDo(c, g, t, th, o).0.connected == g.connected
    ensures !th.act.XClose? && !th.act.DReset? && !th.act.DClear?
  {
    hide Pop, Push, Return, HasToSend;
  }

  lemma RecvKeepsDisc(c: Cfg, g: Shared, t: Tid, th: Thr, o: RecvOp)
    requires RecvEnabled(c, g, th, o)
    ensures RecvDo(c, g, t, th, o).0.disc == g.disc && RecvDo(c, g, t, th, o).0.connected == g.connected
    ensures !th.act.XClose? && !th.act.DReset? && !th.act.DClear?
  {
  }

  // ---- connected, and what is accepted while it is

  lemma ClearsConnected(c: Cfg, g: Shared, t: Tid, th: Thr, op: Op)
    requires CanDo(c, g, th, op)
    ensures Do(c, g, t, th, op).0.connected <==> g.connected && op != D(DClearConn)
  {
  }

  lemma {:induction false} ConnectedUntilCleared(c: Cfg, ls: seq<Step>)
    requires Ok(c) && CanRun(c, ls)
    ensures Run(c, ls).g.connected <==> !Cleared(ls)
  {
    hide Inv, Enabled, Do, Local, Global;
    if ls != [] {
      var front, s, l := LastStep(c, ls);
      ConnectedUntilCleared(c, front);
      ClearsConnected(c, s.g, l.t, s.thr[l.t], l.op);
    }
  }

  /** What a thread carries is what its own steps brought it. */
  predicate Knows(ls: seq<Step>, u: Tid, th: Thr) {
    var a := th.act;
    && (a.SendGap? ==> a.b == Offered(ls, u))
    && (th.k.KRecv? ==> th.k.bad == Invalid(ls, u))
    && (a.SendDone? || a.SendChecked? || a.RecvFail? || a.DWait? || a.DReset? ==> a.err == Cause(ls, u))
    && (a.RecvCleared? ==> Cause(ls, u) == 0)
  }

  lemma SendKnows(c: Cfg, ls: seq<Step>, front: seq<Step>, g: Shared, t: Tid, th: Thr, o: SendOp)
    requires ls != [] && front == ls[..|ls| - 1] && ls[|ls| - 1] == Step(t, S(o))
    requires SendEnabled(c, g, th, o) && Knows(front, t, th)
    ensures Knows(ls, t, th.(act := SendDo(c, g, t, th, o).1))
  {
    hide Pop, Push, Return, HasToSend;
  }

  lemma RecvKnows(c: Cfg, ls: seq<Step>, front: seq<Step>, g: Shared, t: Tid, th: Thr, o: RecvOp)
    requires ls != [] && front == ls[..|ls| - 1] && ls[|ls| - 1] == Step(t, R(o))
    requires RecvEnabled(c, g, th, o) && Knows(front, t, th)
    ensures Knows(ls, t, RecvDo(c, g, t, th, o).1)
  {
  }

  lemma DiscKnows(ls: seq<Step>, front: seq<Step>, g: Shared, t: Tid, th: Thr, o: DiscOp)
    requires ls != [] && front == ls[..|ls| - 1] && ls[|ls| - 1] == Step(t, D(o))
    requires DiscEnabled(g, th, o) && Knows(front, t, th)
    ensures Knows(ls, t, th.(act := DiscDo(g, t, th, o).1))
  {
    hide IsSending;
  }

  lemma SelfKnows(c: Cfg, ls: seq<Step>, front: seq<Step>, g: Shared, t: Tid, th: Thr, op: Op)
    requires ls != [] && front == ls[..|ls| - 1] && ls[|ls| - 1] == Step(t, op)
    requires Ok(c) && Global(g) && Local(g, t, th) && CanDo(c, g, th, op) && Knows(front, t, th)
    ensures Knows(ls, t, Do(c, g, t, th, op).1)
  {
    hide Global, Local, Knows, SendDo, RecvDo, DiscDo;
    match op {
      case S(o) => SendKnows(c, ls, front, g, t, th, o);
      case R(o) => RecvKnows(c, ls, front, g, t, th, o);
      case D(o) => DiscKnows(ls, front, g, t, th, o);
    }
  }

  lemma OtherKnows(ls: seq<Step>, u: Tid, th: Thr)
    requires ls != [] && ls[|ls| - 1].t != u && Knows(ls[..|ls| - 1], u, th)
    ensures Knows(ls, u, th)
  {
  }

  lemma {:induction false} RunKnows(c: Cfg, ls: seq<Step>, u: Tid)
    requires Ok(c) && CanRun(c, ls) && u < |Run(c, ls).thr|
    ensures Knows(ls, u, Run(c, ls).thr[u])
  {
    hide Inv, Enabled, Do, Local, Global, Knows, CanDo;
    if ls == [] {
      StartKnows(c, u);
    } else {
      var front, s, l := LastStep(c, ls);
      RunKnows(c, front, u);
      if u == l.t { SelfKnows(c, ls, front, s.g, u, s.thr[u], l.op); } else { OtherKnows(ls, u, s.thr[u]); }
    }
  }

  lemma StartKnows(c: Cfg, u: Tid)
    requires u < c.threads
    ensures Knows([], u, Init(c).thr[u])
  {
  }

  /** `Enqueue` records the Buf it is given. */
  lemma SendRecords(c: Cfg, g: Shared, t: Tid, th: Thr, o: SendOp)
    requires SendEnabled(c, g, th, o) && g.live
    ensures var more := match o
                        case CallSend(b) => if g.connected then b else None
                        case SendMark => th.act.b
                        case _ => None;
            SendDo(c, g, t, th, o).0.snd.pushed == g.snd.pushed + AsSeq(more)
  {
    hide Pop, Push, Return, HasToSend;
  }

  lemma QueuesLive(c: Cfg, g: Shared, t: Tid, th: Thr, o: SendOp)
    requires Global(g) && Local(g, t, th) && SendEnabled(c, g, th, o) && !g.live
    ensures !g.connected && !o.SendMark? && SendDo(c, g, t, th, o).0.snd.pushed == g.snd.pushed
  {
    hide Pop, Push, Return, HasToSend;
  }

  lemma RecordsPushed(c: Cfg, g: Shared, t: Tid, th: Thr, op: Op)
    requires Global(g) && Local(g, t, th) && CanDo(c, g, th, op)
    ensures var more := match op
                        case S(CallSend(b)) => if g.connected then b else None
                        case S(SendMark) => th.act.b
                        case _ => None;
            Do(c, g, t, th, op).0.snd.pushed == g.snd.pushed + AsSeq(more)
  {
    match op {
      case S(o) => if g.live { SendRecords(c, g, t, th, o); } else { QueuesLive(c, g, t, th, o); }
      case R(o) => RecvLeavesRest(c, g, t, th, o);
      case D(o) => DiscLeavesRest(g, t, th, o);
    }
    hide Global, Local, SendDo, RecvDo, DiscDo;
  }

  /** The Bufs that were queued are exactly those `send` was given while the session was connected, in order. */
  lemma {:induction false} AcceptedIsPushed(c: Cfg, ls: seq<Step>)
    requires Ok(c) && CanRun(c, ls)
    ensures Run(c, ls).g.snd.pushed == Accepted(ls)
  {
    hide Inv, Enabled, Do, Local, Global, Offered;
    if ls != [] {
      var front, s, l := LastStep(c, ls);
      AcceptedIsPushed(c, front);
      ConnectedUntilCleared(c, front);
      RunKnows(c, front, l.t);
      RecordsPushed(c, s.g, l.t, s.thr[l.t], l.op);
    }
  }

  // ---- the calls of the system

  /** `WSASend` was called for this batch. */
  ghost function Posts(c: Cfg, ls: seq<Step>, id: nat): nat
    requires CanRun(c, ls)
  {
    if ls == [] then 0
    else
      var front, l := ls[..|ls| - 1], ls[|ls| - 1];
      Posts(c, front, id) + if l.op.S? && l.op.s.WsaSend? && Run(c, front).thr[l.t].act == Posting(id) then 1 else 0
  }

  /** The batch was popped, and no thread is about to call `WSASend` for it. */
  predicate Posted(s: St, id: nat) {
    && id < |s.g.snd.popped|
    && forall u :: 0 <= u < |s.thr| ==> s.thr[u].act != Posting(id)
  }

  /** A step makes a batch posted exactly when it calls `WSASend` for it. */
  lemma StepPosts(c: Cfg, s: St, l: Step, id: nat)
    requires Ok(c) && Inv(c, s) && Enabled(c, s, l)
    ensures var calls := l.op.S? && l.op.s.WsaSend? && s.thr[l.t].act == Posting(id);
            && (calls ==> !Posted(s, id))
            && (Posted(Apply(c, s, l), id) <==> Posted(s, id) || calls)
  {
    var s' := Apply(c, s, l);
    var th, th' := s.thr[l.t], s'.thr[l.t];
    assert Local(s.g, l.t, th);
    OneAtBatch(c, s, l.t, id);
    PostsSelf(c, s.g, l.t, th, l.op, id);
    hide Inv, Do, Local, Global, Enabled;
    assert forall u :: 0 <= u < |s.thr| && u != l.t ==> s'.thr[u] == s.thr[u];
  }

  /** No two threads are about to post the same batch, and none one that has not been popped. */
  lemma OneAtBatch(c: Cfg, s: St, t: Tid, id: nat)
    requires Inv(c, s) && t < |s.thr|
    ensures forall u :: 0 <= u < |s.thr| && s.thr[u].act == Posting(id) ==>
              id < |s.g.snd.popped| && (s.thr[t].act == Posting(id) ==> u == t)
  {
    assert Local(s.g, t, s.thr[t]);
    forall u | 0 <= u < |s.thr| && s.thr[u].act == Posting(id)
      ensures id < |s.g.snd.popped| && (s.thr[t].act == Posting(id) ==> u == t)
    {
      assert Local(s.g, u, s.thr[u]);
    }
  }

  /** What a step of a thread at `a` does to who is about to post batch `id`. */
  predicate PostsOn(calls: bool, popped: nat, a: Act, popped': nat, a': Act, id: nat) {
    && (a == Posting(id) <==> calls)
    && (calls ==> a' != Posting(id))
    && popped <= popped' && (id < popped' <==> id < popped || a' == Posting(id))
    && (a' == Posting(id) ==> popped <= id)
  }

  lemma SendPosts(c: Cfg, g: Shared, t: Tid, th: Thr, o: SendOp, id: nat)
    requires SendEnabled(c, g, th, o) && (th.act.Posting? ==> th.act.id < |g.snd.popped|)
    ensures var (g', a) := SendDo(c, g, t, th, o);
            PostsOn(o.WsaSend? && th.act == Posting(id), |g.snd.popped|, th.act, |g'.snd.popped|, a, id)
  {
    hide Push, Return, HasToSend;
  }

  lemma PostsSelf(c: Cfg, g: Shared, t: Tid, th: Thr, op: Op, id: nat)
    requires Global(g) && Local(g, t, th) && CanDo(c, g, th, op)
    ensures var (g', th') := Do(c, g, t, th, op);
            var calls := op.S? && op.s.WsaSend? && th.act == Posting(id);
            PostsOn(calls, |g.snd.popped|, th.act, |g'.snd.popped|, th'.act, id)
  {
    match op {
      case S(o) => SendPosts(c, g, t, th, o, id);
      case R(o) => RecvLeavesRest(c, g, t, th, o);
      case D(o) => DiscLeavesRest(g, t, th, o);
    }
    hide Global, Local, SendDo, RecvDo, DiscDo;
  }

  /** Every batch popped is given to `WSASend` exactly once. */
  lemma {:induction false} EachBatchPostedOnce(c: Cfg, ls: seq<Step>, id: nat)
    requires Ok(c) && CanRun(c, ls)
    ensures Posts(c, ls, id) == if Posted(Run(c, ls), id) then 1 else 0
  {
    hide Inv, Enabled, Apply, Local, Global, Posted, Init;
    if ls == [] {
      NonePosted(c, id);
    } else {
      var front, s, l := LastStep(c, ls);
      EachBatchPostedOnce(c, front, id);
      StepPosts(c, s, l, id);
    }
  }

  lemma NonePosted(c: Cfg, id: nat)
    ensures !Posted(Init(c), id)
  {
  }

  predicate SendCalled(l: Step) { l.op.S? && l.op.s.WsaSend? && l.op.s.ok }

  predicate SendAnswered(l: Step) { l.op.S? && l.op.s.SendComplete? }

  predicate RecvCalled(l: Step) { l.op.R? && l.op.r.WsaRecv? && l.op.r.ok }

  predicate RecvAnswered(l: Step) { l.op.R? && (l.op.r.RecvComplete? || l.op.r.RecvError?) }

  ghost function InOsBatches(out: map<nat, Holder>): set<nat> { set id | id in out && out[id] == InOs }

  function InOsRecv(g: Shared): nat { if g.rx.rcv == Outstanding(InOs) then 1 else 0 }

  lemma OsTakes(out: map<nat, Holder>, id: nat)
    requires id in out && out[id] != InOs
    ensures |InOsBatches(out[id := InOs])| == |InOsBatches(out)| + 1
  {
    assert InOsBatches(out[id := InOs]) == InOsBatches(out) + {id};
  }

  lemma OsGives(out: map<nat, Holder>, id: nat, t: Tid)
    requires id in out && out[id] == InOs
    ensures |InOsBatches(out[id := ByThread(t)])| == |InOsBatches(out)| - 1
  {
    assert InOsBatches(out[id := ByThread(t)]) == InOsBatches(out) - {id};
  }

  lemma OsKeeps(out: map<nat, Holder>, id: nat)
    requires id !in out || out[id] != InOs
    ensures InOsBatches(out - {id}) == InOsBatches(out)
    ensures forall t :: InOsBatches(out[id := ByThread(t)]) == InOsBatches(out)
  {
  }

  lemma SendIo(c: Cfg, g: Shared, t: Tid, th: Thr, o: SendOp)
    requires Global(g) && SendEnabled(c, g, th, o)
    requires th.act.Posting? || th.act.SendDone? ==> th.act.id in g.snd.out && g.snd.out[th.act.id] == ByThread(t)
    ensures var g', l := SendDo(c, g, t, th, o).0, Step(t, S(o));
            && |InOsBatches(g'.snd.out)| + (if SendAnswered(l) then 1 else 0)
               == |InOsBatches(g.snd.out)| + (if SendCalled(l) then 1 else 0)
            && g'.rx == g.rx
  {
    hide Push, Return, HasToSend;
    match o {
      case WsaSend(ok, _) => OsTakes(g.snd.out, th.act.id);
      case SendComplete(id, _) => OsGives(g.snd.out, id, t);
      case SendReturn => OsKeeps(g.snd.out, th.act.id);
      case _ => OsKeeps(g.snd.out, |g.snd.popped|);
    }
    hide InOsBatches;
  }

  lemma RecvIo(c: Cfg, g: Shared, t: Tid, th: Thr, o: RecvOp)
    requires Local(g, t, th) && RecvEnabled(c, g, th, o)
    ensures var g', l := RecvDo(c, g, t, th, o).0, Step(t, R(o));
            InOsRecv(g') + (if RecvAnswered(l) then 1 else 0) == InOsRecv(g) + (if RecvCalled(l) then 1 else 0)
  {
  }

  lemma StepIo(c: Cfg, g: Shared, t: Tid, th: Thr, op: Op)
    requires Ok(c) && Global(g) && Local(g, t, th) && CanDo(c, g, th, op)
    ensures var g', l := Do(c, g, t, th, op).0, Step(t, op);
            && |InOsBatches(g'.snd.out)| + (if SendAnswered(l) then 1 else 0)
               == |InOsBatches(g.snd.out)| + (if SendCalled(l) then 1 else 0)
            && InOsRecv(g') + (if RecvAnswered(l) then 1 else 0) == InOsRecv(g) + (if RecvCalled(l) then 1 else 0)
  {
    match op {
      case S(o) => SendIo(c, g, t, th, o);
      case R(o) => RecvIo(c, g, t, th, o); RecvLeavesRest(c, g, t, th, o);
      case D(o) => DiscLeavesRest(g, t, th, o);
    }
    hide Global, Local, SendDo, RecvDo, DiscDo, InOsBatches;
  }

  /** Every completion answers a call of `WSASend` or `WSARecv`, and what is outstanding are the calls not answered. */
  lemma {:induction false} IoAnswered(c: Cfg, ls: seq<Step>)
    requires Ok(c) && CanRun(c, ls)
    ensures var g := Run(c, ls).g;
            && Count(ls, SendCalled) == Count(ls, SendAnswered) + |InOsBatches(g.snd.out)|
            && Count(ls, RecvCalled) == Count(ls, RecvAnswered) + InOsRecv(g)
  {
    hide Inv, Enabled, Do, Local, Global, SendCalled, SendAnswered, RecvCalled, RecvAnswered, InOsRecv;
    if ls == [] {
      NothingOut(c);
    } else {
      var front, s, l := LastStep(c, ls);
      IoAnswered(c, front);
      StepIo(c, s.g, l.t, s.thr[l.t], l.op);
    }
  }

  lemma NothingOut(c: Cfg)
    ensures InOsBatches(Init(c).g.snd.out) == {} && InOsRecv(Init(c).g) == 0
  {
  }

  /** How often thread `t` came back with a batch to a queue that then had something to send. */
  function Due(c: Cfg, ls: seq<Step>, t: Tid): nat
    requires CanRun(c, ls)
  {
    if ls == [] then 0
    else
      var front, l := ls[..|ls| - 1], ls[|ls| - 1];
      Due(c, front, t) + if l == Step(t, S(SendReturn)) && HasToSend(Return(Run(c, front).g.snd.q)) then 1 else 0
  }

  /** How often it then called `send(Buf())`. */
  function Flushes(ls: seq<Step>, t: Tid): nat {
    if ls == [] then 0
    else
      var l := ls[|ls| - 1];
      Flushes(ls[..|ls| - 1], t) + if l == Step(t, S(FlushSend)) || l == Step(t, S(FlushCheck)) then 1 else 0
  }

  function WillFlush(a: Act): nat { if a.Flush? || (a.SendChecked? && a.has) then 1 else 0 }

  lemma SendFlushes(c: Cfg, g: Shared, t: Tid, th: Thr, o: SendOp)
    requires SendEnabled(c, g, th, o)
    ensures WillFlush(SendDo(c, g, t, th, o).1) + (if o.FlushSend? || o.FlushCheck? then 1 else 0)
            <= WillFlush(th.act) + if o.SendReturn? && HasToSend(Return(g.snd.q)) then 1 else 0
  {
    hide Pop, Push, Return, HasToSend;
  }

  lemma RecvFlushesNone(c: Cfg, g: Shared, t: Tid, th: Thr, o: RecvOp)
    requires RecvEnabled(c, g, th, o)
    ensures WillFlush(RecvDo(c, g, t, th, o).1.act) == 0
  {
  }

  lemma DiscFlushesNone(g: Shared, t: Tid, th: Thr, o: DiscOp)
    requires DiscEnabled(g, th, o)
    ensures WillFlush(DiscDo(g, t, th, o).1) == 0
  {
    hide IsSending;
  }

  /** `_on_send` calls `send(Buf())` only after a completion that left Bufs waiting with nothing in flight. */
  lemma {:induction false} FlushesWhenDue(c: Cfg, ls: seq<Step>, t: Tid)
    requires Ok(c) && CanRun(c, ls)
    ensures |Run(c, ls).thr| == c.threads
    ensures Flushes(ls, t) + (if t < c.threads then WillFlush(Run(c, ls).thr[t].act) else 0) <= Due(c, ls, t)
  {
    hide Inv, Enabled, Do, Local, Global, WillFlush, Return, HasToSend;
    if ls == [] {
      NobodyFlushes(c);
    } else {
      var front, s, l := LastStep(c, ls);
      FlushesWhenDue(c, front, t);
      StepFlushes(c, s.g, l.t, s.thr[l.t], l.op);
    }
  }

  lemma StepFlushes(c: Cfg, g: Shared, t: Tid, th: Thr, op: Op)
    requires CanDo(c, g, th, op)
    ensures WillFlush(Do(c, g, t, th, op).1.act) + (if op == S(FlushSend) || op == S(FlushCheck) then 1 else 0)
            <= WillFlush(th.act) + if op == S(SendReturn) && HasToSend(Return(g.snd.q)) then 1 else 0
  {
    match op {
      case S(o) => SendFlushes(c, g, t, th, o);
      case R(o) => RecvFlushesNone(c, g, t, th, o);
      case D(o) => DiscFlushesNone(g, t, th, o);
    }
    hide SendDo, RecvDo, DiscDo, WillFlush;
  }

  lemma NobodyFlushes(c: Cfg)
    ensures forall t :: 0 <= t < c.threads ==> WillFlush(Init(c).thr[t].act) == 0
  {
  }

  // ---- the packets

  /** The packets of all receives taken up. */
  function Arrived(ls: seq<Step>): nat {
    if ls == [] then 0
    else
      var l := ls[|ls| - 1];
      Arrived(ls[..|ls| - 1]) + if l.op.R? && l.op.r.RecvComplete? then l.op.r.packets else 0
  }

  predicate PacketDone(l: Step) { l.op == R(EndPacket) }

  /** What the thread that handles a receive has yet to give. */
  function LeftOf(th: Thr): nat { if th.k.KRecv? then th.k.left else 0 }

  function Left(thr: seq<Thr>): nat {
    if thr == [] then 0 else Left(thr[..|thr| - 1]) + LeftOf(thr[|thr| - 1])
  }

  lemma {:induction false} LeftUpdate(thr: seq<Thr>, t: Tid, th: Thr)
    requires t < |thr|
    ensures Left(thr[t := th]) == Left(thr) - LeftOf(thr[t]) + LeftOf(th)
  {
    var n := |thr| - 1;
    if t == n {
      assert thr[t := th][..n] == thr[..n];
    } else {
      assert thr[t := th][..n] == thr[..n][t := th];
      LeftUpdate(thr[..n], t, th);
    }
  }

  lemma {:induction false} NoneLeft(thr: seq<Thr>)
    requires forall t :: 0 <= t < |thr| ==> !thr[t].k.KRecv?
    ensures Left(thr) == 0
  {
    if thr != [] { NoneLeft(thr[..|thr| - 1]); }
  }

  lemma StepGives(c: Cfg, g: Shared, t: Tid, th: Thr, op: Op)
    requires Ok(c) && Global(g) && Local(g, t, th) && CanDo(c, g, th, op)
    ensures var th' := Do(c, g, t, th, op).1;
            LeftOf(th') == LeftOf(th) + (if op.R? && op.r.RecvComplete? then op.r.packets else 0)
                           - (if op == R(EndPacket) then 1 else 0)
  {
    hide Pop, Push, Return, HasToSend, IsSending;
  }

  /** `on_recv` is called once for each packet of each receive, except for those the thread at work has yet to give. */
  lemma {:induction false} EveryPacketGiven(c: Cfg, ls: seq<Step>)
    requires Ok(c) && CanRun(c, ls)
    ensures Arrived(ls) == Count(ls, PacketDone) + Left(Run(c, ls).thr)
  {
    hide Inv, Enabled, Do, Local, Global, LeftOf;
    if ls == [] {
      NoneLeft(Init(c).thr);
    } else {
      var front, s, l := LastStep(c, ls);
      EveryPacketGiven(c, front);
      StepGives(c, s.g, l.t, s.thr[l.t], l.op);
      LeftUpdate(s.thr, l.t, Run(c, ls).thr[l.t]);
    }
  }

  // ---- the error reported

  lemma StepReason(c: Cfg, g: Shared, t: Tid, th: Thr, op: Op)
    requires CanDo(c, g, th, op)
    ensures Do(c, g, t, th, op).0.disc.errs == g.disc.errs + if op == D(DResetErr) then [th.act.err] else []
  {
    match op {
      case S(o) => SendKeepsDisc(c, g, t, th, o);
      case R(o) => RecvKeepsDisc(c, g, t, th, o);
      case D(_) =>
    }
    hide SendDo, RecvDo, IsSending;
  }

  lemma {:induction false} FirstReason(c: Cfg, ls: seq<Step>)
    requires Ok(c) && CanRun(c, ls)
    ensures var errs := Run(c, ls).g.disc.errs; if errs == [] then Reason(ls).None? else Reason(ls) == Some(errs[0])
  {
    hide Inv, Enabled, Do, Local, Global, Cause;
    if ls != [] {
      var front, s, l := LastStep(c, ls);
      FirstReason(c, front);
      RunKnows(c, front, l.t);
      StepReason(c, s.g, l.t, s.thr[l.t], l.op);
      assert l.op == D(DResetErr) ==> s.thr[l.t].act.DReset?;
    }
  }

  /** What `on_disc` is told is what made the first `_disconnect` come: the error of the very operation that failed. */
  lemma ReportsReason(c: Cfg, ls: seq<Step>)
    requires Ok(c) && CanRun(c, ls) && Run(c, ls).g.disc.log != []
    ensures Reason(ls).Some? && Run(c, ls).g.disc.log == [Reason(ls).value]
  {
    RunKeepsInv(c, ls);
    FirstReason(c, ls);
    hide Run, CanRun, Reason;
  }

  // ---- by force, or with an answer of the system

  predicate Shut(l: Step) { l.op == D(XShut) }

  predicate DiscAnswered(l: Step) { l.op == D(DiscComplete) }

  /** What is known of `shut` calls to shut the socket and `ans` answers to `disconnectex`. */
  predicate Forced(g: Shared, shut: nat, ans: nat) {
    var d := g.disc;
    && (!d.force ==> shut == 0)
    && (d.force && !g.connected ==> shut == 1)
    && (d.force && g.connected ==> d.lock.Some?)
    && (d.claim.Unclaimed? ==> ans == 0)
    && (d.claim.Pending? ==> !d.force && ans == 0)
    && (d.claim.Done? ==> ans == if d.force then 0 else 1)
  }

  predicate ForceKnown(g: Shared, shut: nat, ans: nat, a: Act) {
    var d := g.disc;
    && (a.XHeld? ==> !(d.force && g.connected))
    && (a.XClose? ==> d.force && g.connected && shut == 0)
    && ((a.DReset? || a.DClear?) && d.force && g.connected ==> shut == 1)
    && (a.DStart? ==> ans == 0)
    && (a.EWait? ==> !d.force && ans == 1)
    && (a.ERun? ==> ans == if d.force then 0 else 1)
  }

  lemma SelfForce(g: Shared, t: Tid, th: Thr, o: DiscOp, shut: nat, ans: nat)
    requires Global(g) && Local(g, t, th) && DiscEnabled(g, th, o)
    requires Forced(g, shut, ans) && ForceKnown(g, shut, ans, th.act)
    ensures var (g', a) := DiscDo(g, t, th, o);
            var shut', ans' := shut + (if o.XShut? then 1 else 0), ans + (if o.DiscComplete? then 1 else 0);
            Forced(g', shut', ans') && ForceKnown(g', shut', ans', a)
  {
    hide IsSending;
  }

  lemma OtherForce(g: Shared, t: Tid, th: Thr, o: DiscOp, u: Tid, ut: Thr, shut: nat, ans: nat)
    requires Local(g, t, th) && DiscEnabled(g, th, o) && u != t && Local(g, u, ut) && ForceKnown(g, shut, ans, ut.act)
    ensures var shut', ans' := shut + (if o.XShut? then 1 else 0), ans + (if o.DiscComplete? then 1 else 0);
            ForceKnown(DiscDo(g, t, th, o).0, shut', ans', ut.act)
  {
    hide IsSending;
  }

  lemma SendForcesNone(c: Cfg, g: Shared, t: Tid, th: Thr, o: SendOp)
    requires SendEnabled(c, g, th, o)
    ensures var a := SendDo(c, g, t, th, o).1; !HasClaim(a) && !Holding(a)
  {
    hide Pop, Push, Return, HasToSend;
  }

  lemma RecvForcesNone(c: Cfg, g: Shared, t: Tid, th: Thr, o: RecvOp)
    requires RecvEnabled(c, g, th, o)
    ensures var a := RecvDo(c, g, t, th, o).1.act; !HasClaim(a) && !Holding(a)
  {
  }

  ghost predicate ForceOk(ls: seq<Step>, s: St) {
    var shut, ans := Count(ls, Shut), Count(ls, DiscAnswered);
    Forced(s.g, shut, ans) && forall u :: 0 <= u < |s.thr| ==> ForceKnown(s.g, shut, ans, s.thr[u].act)
  }

  lemma SameForce(g: Shared, g': Shared, shut: nat, ans: nat, a: Act)
    requires g'.disc == g.disc && g'.connected == g.connected
    ensures Forced(g', shut, ans) <==> Forced(g, shut, ans)
    ensures ForceKnown(g', shut, ans, a) <==> ForceKnown(g, shut, ans, a)
    ensures !HasClaim(a) && !Holding(a) ==> ForceKnown(g, shut, ans, a)
  {
  }

  lemma ForceFacts(c: Cfg, ls: seq<Step>, s: St)
    requires Inv(c, s) && ForceOk(ls, s)
    ensures var shut, ans := Count(ls, Shut), Count(ls, DiscAnswered);
            && Global(s.g) && Forced(s.g, shut, ans)
            && forall u :: 0 <= u < |s.thr| ==> Local(s.g, u, s.thr[u]) && ForceKnown(s.g, shut, ans, s.thr[u].act)
  {
    hide Local, Global, Forced, ForceKnown, Count;
  }

  lemma StepForce(c: Cfg, ls: seq<Step>, front: seq<Step>, s: St, l: Step)
    requires ls != [] && front == ls[..|ls| - 1] && l == ls[|ls| - 1]
    requires Ok(c) && Inv(c, s) && Enabled(c, s, l) && ForceOk(front, s)
    ensures ForceOk(ls, Apply(c, s, l))
  {
    hide Inv, Local, Global, SendDo, RecvDo, DiscDo, SendEnabled, RecvEnabled, DiscEnabled, ForceKnown, Forced, NoGap;
    ForceFacts(c, front, s);
    var t, th, s' := l.t, s.thr[l.t], Apply(c, s, l);
    var shut, ans := Count(front, Shut), Count(front, DiscAnswered);
    match l.op {
      case S(o) => SendKeepsDisc(c, s.g, t, th, o); SendForcesNone(c, s.g, t, th, o);
      case R(o) => RecvKeepsDisc(c, s.g, t, th, o); RecvForcesNone(c, s.g, t, th, o);
      case D(o) => SelfForce(s.g, t, th, o, shut, ans);
    }
    forall u | 0 <= u < |s'.thr|
      ensures ForceKnown(s'.g, Count(ls, Shut), Count(ls, DiscAnswered), s'.thr[u].act)
    {
      if !l.op.D? {
        SameForce(s.g, s'.g, shut, ans, s'.thr[u].act);
      } else if u != t {
        OtherForce(s.g, t, th, l.op.d, u, s.thr[u], shut, ans);
      }
    }
    if !l.op.D? { SameForce(s.g, s'.g, shut, ans, th.act); }
  }

  lemma StartUnforced(c: Cfg)
    ensures ForceOk([], Init(c))
  {
  }

  lemma {:induction false} RunForce(c: Cfg, ls: seq<Step>)
    requires Ok(c) && CanRun(c, ls)
    ensures ForceOk(ls, Run(c, ls))
  {
    hide Inv, Enabled, Apply, Local, Global, ForceOk;
    if ls == [] {
      StartUnforced(c);
    } else {
      var front, s, l := LastStep(c, ls);
      RunForce(c, front);
      StepForce(c, ls, front, s, l);
    }
  }

  /** `disconnect()` shuts the socket at most once; when it has, teardown does not wait for `disconnectex`, and when it
      has not, teardown comes after exactly one answer to it. */
  lemma WaitsUnlessForced(c: Cfg, ls: seq<Step>)
    requires Ok(c) && CanRun(c, ls)
    ensures Count(ls, Shut) <= 1
    ensures Run(c, ls).g.disc.log != [] ==> Count(ls, Shut) + Count(ls, DiscAnswered) == 1
  {
    RunForce(c, ls);
    RunKeepsInv(c, ls);
    hide Run, CanRun, Count;
    var s := Run(c, ls);
    if s.g.disc.lock.Some? { assert Local(s.g, s.g.disc.lock.value, s.thr[s.g.disc.lock.value]); }
  }

  // ---- when a connection ends

  predicate AnyFailed(ls: seq<Step>) { ls != [] && (AnyFailed(ls[..|ls| - 1]) || Failing(ls[|ls| - 1])) }

  lemma SendLeaves(c: Cfg, g: Shared, t: Tid, th: Thr, o: SendOp)
    requires SendEnabled(c, g, th, o) && g.connected && g.live
    ensures Leaving(th.(act := SendDo(c, g, t, th, o).1)) <==> Leaving(th) || Failing(Step(t, S(o)))
  {
    hide Pop, Push, Return, HasToSend;
  }

  lemma RecvLeaves(c: Cfg, g: Shared, t: Tid, th: Thr, o: RecvOp)
    requires RecvEnabled(c, g, th, o) && g.connected && g.live
    ensures Leaving(RecvDo(c, g, t, th, o).1) <==> Leaving(th) || Failing(Step(t, R(o)))
  {
  }

  lemma DiscLeaves(g: Shared, t: Tid, th: Thr, o: DiscOp)
    requires DiscEnabled(g, th, o) && g.connected && (AfterClear(th.act) ==> !g.connected)
    requires g.disc.force ==> !th.act.XHeld?
    ensures var (g', a) := DiscDo(g, t, th, o);
            && (g'.connected ==> (Leaving(th.(act := a)) <==> Leaving(th) || Failing(Step(t, D(o)))))
            && (!g'.connected ==> Leaving(th))
  {
    hide IsSending;
  }

  /** A step makes a thread leave only with a reason, and one that leaves goes on to clear connected. */
  lemma StepLeaves(c: Cfg, g: Shared, t: Tid, th: Thr, op: Op)
    requires Ok(c) && Global(g) && Local(g, t, th) && CanDo(c, g, th, op) && g.connected
    requires g.disc.force ==> !th.act.XHeld?
    ensures var (g', th') := Do(c, g, t, th, op);
            && (g'.connected ==> (Leaving(th') <==> Leaving(th) || Failing(Step(t, op))))
            && (!g'.connected ==> Leaving(th))
  {
    match op {
      case S(o) => SendLeaves(c, g, t, th, o); SendKeepsDisc(c, g, t, th, o);
      case R(o) => RecvLeaves(c, g, t, th, o); RecvKeepsDisc(c, g, t, th, o);
      case D(o) => DiscLeaves(g, t, th, o);
    }
    hide Global, Local, SendDo, RecvDo, DiscDo, Leaving, Failing;
  }

  lemma LeavesOn(c: Cfg, s: St, l: Step)
    requires Ok(c) && Inv(c, s) && Enabled(c, s, l) && s.g.connected
    requires s.g.disc.force ==> !s.thr[l.t].act.XHeld?
    ensures var s' := Apply(c, s, l);
            && (s'.g.connected ==>
                  ((exists t :: LeavingAt(s', t)) <==> (exists t :: LeavingAt(s, t)) || Failing(l)))
            && (!s'.g.connected ==> LeavingAt(s, l.t))
  {
    assert Local(s.g, l.t, s.thr[l.t]);
    StepLeaves(c, s.g, l.t, s.thr[l.t], l.op);
    var s' := Apply(c, s, l);
    hide Inv, Local, Global, Enabled, Do, Leaving, Failing;
    assert forall t :: LeavingAt(s', t) ==> LeavingAt(s, t) || t == l.t;
    if s'.g.connected {
      if t :| LeavingAt(s, t) { assert LeavingAt(s', t); }
      if Failing(l) { assert LeavingAt(s', l.t); }
      if t :| LeavingAt(s', t) { assert LeavingAt(s, t) || Failing(l); }
    }
  }

  /** A connection ends when something made it end, and always then: connected is cleared, or a thread is about to. */
  lemma {:induction false} EndsExactlyWhen(c: Cfg, ls: seq<Step>)
    requires Ok(c) && CanRun(c, ls)
    ensures AnyFailed(ls) <==> !Run(c, ls).g.connected || exists t :: LeavingAt(Run(c, ls), t)
  {
    hide Inv, Enabled, Do, Local, Global, Failing, LeavingAt;
    if ls == [] {
      NobodyLeaves(c);
    } else {
      var front, s, l := LastStep(c, ls);
      EndsExactlyWhen(c, front);
      RunForce(c, front);
      ClearsConnected(c, s.g, l.t, s.thr[l.t], l.op);
      if s.g.connected {
        assert ForceKnown(s.g, Count(front, Shut), Count(front, DiscAnswered), s.thr[l.t].act);
        LeavesOn(c, s, l);
      }
    }
  }

  lemma NobodyLeaves(c: Cfg)
    ensures Init(c).g.connected && forall t :: !LeavingAt(Init(c), t)
  {
  }

  lemma StepGone(c: Cfg, g: Shared, t: Tid, th: Thr, op: Op)
    requires CanDo(c, g, th, op) && (!g.live ==> g.snd.q == Queue([], 0))
    ensures var g' := Do(c, g, t, th, op).0; !g'.live ==> g'.snd.q == Queue([], 0)
  {
    hide Pop, Push, Return, HasToSend, IsSending;
  }

  /** Teardown leaves no Buf in the queue, and none comes to it afterwards. */
  lemma {:induction false} NothingQueuedAfter(c: Cfg, ls: seq<Step>)
    requires Ok(c) && CanRun(c, ls)
    ensures var g := Run(c, ls).g;
            && (!g.live ==> g.snd.q == Queue([], 0))
            && (g.disc.log != [] ==> g.snd.q == Queue([], 0))
  {
    RunKeepsInv(c, ls);
    hide Enabled, Do, Local, LocalBatch, QueueInv, Owed, NotStranded, NotDeaf;
    if ls != [] {
      var front, s, l := LastStep(c, ls);
      NothingQueuedAfter(c, front);
      StepGone(c, s.g, l.t, s.thr[l.t], l.op);
    }
  }
}
