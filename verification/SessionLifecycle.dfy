/**
 One connection of a TCP session, from the moment `_on_conn_init` has run to `_on_disc`, as a
 step machine over any number of threads. Every step is one access to shared state (or one critical
 section of `s_lock_`), so every interleaving of the handlers is a sequence of steps.

 A thread is a handler it must come back to (`Kont`) and the statement it is about to execute (`Act`).
 */
module SessionLifecycle {
  import opened Options
  import opened PacketStream
  import opened SendQueue

  type Tid = nat
  type Pkt = nat

  /** What the thread returns to after the statement at hand: the IOCP loop, the `on_conn` callback, or an
      `on_recv` callback with `left` packets of this receive still to deliver (then, if `bad`, an invalid size). */
  datatype Kont = KIdle | KConn | KRecv(left: nat, bad: bool)

  datatype Act =
    | Ready                                // in the loop, or inside a callback
    | SendGap(b: Option<Pkt>)              // `send`: between the connected check and the queue (split mode only)
    | Posting(id: nat)                     // about to call WSASend
    | SendDone(id: nat, err: int)          // entered `_on_send`
    | SendChecked(err: int, has: bool)     // `_on_send` after its locked section
    | Flush                                // about to call `send(Buf())`
    | RecvEntry                            // about to call `recv()`
    | RecvGap                              // `recv`: between its check and its mark (split mode only)
    | RecvPost                             // about to call WSARecv
    | RecvFail(err: int)                   // about to clear `is_receiving_` and call `_disconnect(err)`
    | RecvCleared                          // `is_receiving_` cleared, about to read `is_connected_`
    | XWait | XHeld | XClose               // `disconnect()`
    | DWait(err: int) | DReset(err: int) | DClear | DSending | DCheck(isSending: bool) // `_disconnect`
    | DClaim | DStart
    | EWait | ERun                         // `_on_disc`
    | Crashed                              // has used what `_on_disc` took away: a null `sov_` or a null block

  datatype Thr = Thr(k: Kont, act: Act)

  /** Who has an outstanding operation: the OS, or the thread handling it. */
  datatype Holder = InOs | ByThread(t: Tid)
  datatype Receiver = NoRecv | Outstanding(h: Holder) | NextBy(t: Tid)
  datatype Claim = Unclaimed | Claimed(t: Tid) | Pending | Done

  /** `splitSend`/`splitRecv`: the check and the mark of `send`/`recv` are two steps, as in the code, instead of one.
      `guarded`: the callers see to it that connected is not cleared while a thread stands between the two. */
  datatype Cfg = Cfg(threads: nat, cap: nat, maxPackets: nat, splitSend: bool, splitRecv: bool, guarded: bool)

  predicate ValidCfg(c: Cfg) { c.threads >= 1 && c.cap >= 1 }

  /** `sbuf_`, the batches popped and not yet returned, by pop number, and, as history, Bufs accepted and batches
      popped. */
  datatype Sending = Sending(q: Queue<Pkt>, out: map<nat, Holder>, pushed: seq<Pkt>, popped: seq<seq<Pkt>>)

  /** `is_receiving_`, and the outstanding receive or the thread that will call `recv()`. */
  datatype Receiving = Receiving(receiving: bool, rcv: Receiver)

  /** `is_force_disconnecting_`, `is_disconnecting_`, `dov_.err_`, the owner of `cd_lock_`, where the one disconnect
      operation is, and, as history, the errors of the `_disconnect` calls in lock order and those `_on_disc`
      reported. */
  datatype Disc = Disc(force: bool, disconnecting: bool, dovErr: int, lock: Option<Tid>, claim: Claim,
                       errs: seq<int>, log: seq<int>)

  /** `live`: `sbuf_` and `rbuf_` are initialised. */
  datatype Shared = Shared(connected: bool, live: bool, snd: Sending, rx: Receiving, disc: Disc)

  datatype St = St(g: Shared, thr: seq<Thr>)

  datatype SendOp =
    | CallSend(b: Option<Pkt>) | SendCheck(b: Option<Pkt>) | SendMark
    | WsaSend(ok: bool, err: int) | SendComplete(id: nat, err: int)
    | SendReturn | SendTest | FlushSend | FlushCheck

  datatype RecvOp =
    | EndConn | RecvEnter | RecvCheck | RecvMark | WsaRecv(ok: bool, err: int)
    | RecvComplete(packets: nat, bad: bool) | RecvError(err: int)
    | EndPacket | EndParse | RecvClear | RecvTest

  datatype DiscOp =
    | CallDisconnect | Acquire | XTest | XShut
    | DResetErr | DClearConn | DReadSending | DReadReceiving | DTryClaim | DBegin
    | DiscComplete | OnDisc

  datatype Op = S(s: SendOp) | R(r: RecvOp) | D(d: DiscOp)
  datatype Step = Step(t: Tid, op: Op)

  /** The state `_on_conn_init` leaves: thread 0 is in the `on_conn` callback. */
  function Init(c: Cfg): St {
    St(Shared(true, true, Sending(Queue([], 0), map[], [], []), Receiving(false, NextBy(0)),
              Disc(false, false, 0, None, Unclaimed, [], [])),
       seq(c.threads, i => if i == 0 then Thr(KConn, Ready) else Thr(KIdle, Ready)))
  }

  predicate Holding(a: Act) {
    a.XHeld? || a.XClose? || a.DReset? || a.DClear? || a.DSending? || a.DCheck? || a.DClaim? || a.DStart? || a.ERun?
  }

  // ---- send(Buf&), send(SOV*), _on_send

  predicate SendEnabled(c: Cfg, g: Shared, th: Thr, o: SendOp) {
    match o
    case CallSend(_) => th.act.Ready? && !c.splitSend
    case SendCheck(_) => th.act.Ready? && c.splitSend
    case SendMark => th.act.SendGap?
    case WsaSend(_, _) => th.act.Posting?
    case SendComplete(id, _) => th == Thr(KIdle, Ready) && id in g.snd.out && g.snd.out[id] == InOs
    case SendReturn => th.act.SendDone?
    case SendTest => th.act.SendChecked?
    case FlushSend => th.act.Flush? && !c.splitSend
    case FlushCheck => th.act.Flush? && c.splitSend
  }

  /** Another holder for a batch that is out. */
  function Hands(g: Shared, id: nat, h: Holder): Shared { g.(snd := g.snd.(out := g.snd.out[id := h])) }

  /** The s_lock_ section of `send`: push, then pop; `pop` uses the current batch. */
  function Enqueue(c: Cfg, g: Shared, t: Tid, b: Option<Pkt>): (Shared, Act) {
    if !g.live then (g, Crashed) else
    var (q, batch) := Pop(c.cap, Push(g.snd.q, b));
    var pushed := g.snd.pushed + AsSeq(b);
    var id := |g.snd.popped|;
    if batch.None? then (g.(snd := g.snd.(q := q, pushed := pushed)), Ready)
    else (g.(snd := Sending(q, g.snd.out[id := ByThread(t)], pushed, g.snd.popped + [batch.value])), Posting(id))
  }

  function SendDo(c: Cfg, g: Shared, t: Tid, th: Thr, o: SendOp): (Shared, Act)
    requires SendEnabled(c, g, th, o)
  {
    match o
    case CallSend(b) => if g.connected then Enqueue(c, g, t, b) else (g, Ready)
    case SendCheck(b) => (g, if g.connected then SendGap(b) else Ready)
    case SendMark => Enqueue(c, g, t, th.act.b)
    case WsaSend(ok, err) =>
      if ok then (Hands(g, th.act.id, InOs), Ready) else (g, SendDone(th.act.id, err))
    case SendComplete(id, err) => (Hands(g, id, ByThread(t)), SendDone(id, err))
    case SendReturn =>
      if !g.live then (g, Crashed) else
      var q := Return(g.snd.q);
      (g.(snd := g.snd.(q := q, out := g.snd.out - {th.act.id})), SendChecked(th.act.err, HasToSend(q)))
    case SendTest =>
      (g, if th.act.err != 0 || !g.connected then DWait(th.act.err) else if th.act.has then Flush else Ready)
    case FlushSend => if g.connected then Enqueue(c, g, t, None) else (g, Ready)
    case FlushCheck => (g, if g.connected then SendGap(None) else Ready)
  }

  // ---- recv(), _on_recv

  predicate RecvEnabled(c: Cfg, g: Shared, th: Thr, o: RecvOp) {
    match o
    case EndConn => th == Thr(KConn, Ready)
    case RecvEnter => th.act.RecvEntry? && !c.splitRecv
    case RecvCheck => th.act.RecvEntry? && c.splitRecv
    case RecvMark => th.act.RecvGap?
    case WsaRecv(_, _) => th.act.RecvPost?
    case RecvComplete(n, _) => th == Thr(KIdle, Ready) && g.rx.rcv == Outstanding(InOs) && n <= c.maxPackets
    case RecvError(_) => th == Thr(KIdle, Ready) && g.rx.rcv == Outstanding(InOs)
    case EndPacket => th.act.Ready? && th.k.KRecv? && th.k.left > 0
    case EndParse => th.act.Ready? && th.k.KRecv? && th.k.left == 0
    case RecvClear => th.act.RecvFail?
    case RecvTest => th.act.RecvCleared?
  }

  function Rcv(g: Shared, r: Receiver): Shared { g.(rx := g.rx.(rcv := r)) }

  /** `is_receiving_ = true`, and then the room in the block is asked for. */
  function MarkReceiving(g: Shared, t: Tid, th: Thr): (Shared, Thr) {
    if g.live then (g.(rx := Receiving(true, Outstanding(ByThread(t)))), Thr(th.k, RecvPost))
    else (g.(rx := g.rx.(receiving := true)), Thr(th.k, Crashed))
  }

  function RecvDo(c: Cfg, g: Shared, t: Tid, th: Thr, o: RecvOp): (Shared, Thr)
    requires RecvEnabled(c, g, th, o)
  {
    match o
    case EndConn => (g, Thr(KIdle, RecvEntry))
    case RecvEnter =>
      if g.connected then MarkReceiving(g, t, th) else (Rcv(g, NoRecv), Thr(th.k, Ready))
    case RecvCheck =>
      if g.connected then (g, Thr(th.k, RecvGap)) else (Rcv(g, NoRecv), Thr(th.k, Ready))
    case RecvMark => MarkReceiving(g, t, th)
    case WsaRecv(ok, err) =>
      if ok then (Rcv(g, Outstanding(InOs)), Thr(th.k, Ready)) else (g, Thr(th.k, RecvFail(err)))
    case RecvComplete(n, bad) =>
      (Rcv(g, Outstanding(ByThread(t))), if g.live then Thr(KRecv(n, bad), Ready) else Thr(th.k, Crashed))
    case RecvError(err) => (Rcv(g, Outstanding(ByThread(t))), Thr(th.k, RecvFail(err)))
    case EndPacket => (g, if g.live then Thr(KRecv(th.k.left - 1, th.k.bad), Ready) else Thr(th.k, Crashed))
    case EndParse =>
      if !g.live then (g, Thr(th.k, Crashed))
      else if th.k.bad then (g, Thr(KIdle, RecvFail(INVALID_PACKET)))
      else (g.(rx := Receiving(false, NextBy(t))), Thr(KIdle, RecvCleared))
    case RecvClear => (g.(rx := Receiving(false, NoRecv)), Thr(th.k, DWait(th.act.err)))
    case RecvTest =>
      if g.connected then (g, Thr(th.k, RecvEntry)) else (Rcv(g, NoRecv), Thr(th.k, DWait(0)))
  }

  // ---- disconnect(), _disconnect, _on_disc

  predicate DiscEnabled(g: Shared, th: Thr, o: DiscOp) {
    match o
    case CallDisconnect => th.act.Ready?
    case Acquire => g.disc.lock.None? && (th.act.XWait? || th.act.DWait? || th.act.EWait?)
    case XTest => th.act.XHeld?
    case XShut => th.act.XClose?
    case DResetErr => th.act.DReset?
    case DClearConn => th.act.DClear?
    case DReadSending => th.act.DSending?
    case DReadReceiving => th.act.DCheck?
    case DTryClaim => th.act.DClaim?
    case DBegin => th.act.DStart?
    case DiscComplete => th == Thr(KIdle, Ready) && g.disc.claim.Pending?
    case OnDisc => th.act.ERun?
  }

  function Unlock(g: Shared): Shared { g.(disc := g.disc.(lock := None)) }

  function DiscDo(g: Shared, t: Tid, th: Thr, o: DiscOp): (Shared, Act)
    requires DiscEnabled(g, th, o)
  {
    match o
    // disconnect()
    case CallDisconnect => (g, XWait)
    case Acquire =>
      (g.(disc := g.disc.(lock := Some(t))),
       if th.act.XWait? then XHeld else if th.act.DWait? then DReset(th.act.err) else ERun)
    case XTest =>
      if !g.connected || g.disc.force then (Unlock(g), Ready) else (g.(disc := g.disc.(force := true)), XClose)
    case XShut => (g, DReset(0))
    // _disconnect
    case DResetErr =>
      var err := if g.connected then th.act.err else g.disc.dovErr;
      (g.(disc := g.disc.(dovErr := err, errs := g.disc.errs + [th.act.err])), DClear)
    case DClearConn => (g.(connected := false), DSending)
    case DReadSending => (g, DCheck(IsSending(g.snd.q)))
    case DReadReceiving =>
      if th.act.isSending || g.rx.receiving then (Unlock(g), Ready) else (g, DClaim)
    case DTryClaim =>
      if g.disc.disconnecting then (Unlock(g), Ready)
      else (g.(disc := g.disc.(disconnecting := true, claim := Claimed(t))), DStart)
    case DBegin => if g.disc.force then (g, ERun) else (g.(disc := g.disc.(lock := None, claim := Pending)), Ready)
    // _on_disc
    case DiscComplete => (g.(disc := g.disc.(claim := Claimed(t))), EWait)
    case OnDisc => 
      (g.(live := false, snd := g.snd.(q := Queue([], 0)),
          disc := g.disc.(log := g.disc.log + [g.disc.dovErr], claim := Done, lock := None)), Ready)
  }

  // ---- the machine

  /** Between the connected check of `send` or `recv` and the mark that follows it. */
  predicate InGap(a: Act) { a.SendGap? || a.RecvGap? }

  predicate NoGap(s: St) { forall u :: 0 <= u < |s.thr| ==> !InGap(s.thr[u].act) }

  predicate Enabled(c: Cfg, s: St, l: Step) {
    && l.t < |s.thr|
    && match l.op
       case S(o) => SendEnabled(c, s.g, s.thr[l.t], o)
       case R(o) => RecvEnabled(c, s.g, s.thr[l.t], o)
       case D(o) => DiscEnabled(s.g, s.thr[l.t], o) && (c.guarded && o.DClearConn? ==> NoGap(s))
  }

  /** One thread's step: the shared state and that thread after it. */
  function Do(c: Cfg, g: Shared, t: Tid, th: Thr, op: Op): (Shared, Thr)
    requires match op
             case S(o) => SendEnabled(c, g, th, o)
             case R(o) => RecvEnabled(c, g, th, o)
             case D(o) => DiscEnabled(g, th, o)
  {
    match op
    case S(o) => var (g', a) := SendDo(c, g, t, th, o); (g', Thr(th.k, a))
    case R(o) => RecvDo(c, g, t, th, o)
    case D(o) => var (g', a) := DiscDo(g, t, th, o); (g', Thr(th.k, a))
  }

  function Apply(c: Cfg, s: St, l: Step): St
    requires Enabled(c, s, l)
  {
    var (g, th) := Do(c, s.g, l.t, s.thr[l.t], l.op);
    St(g, s.thr[l.t := th])
  }

  /** A run of the connection is a sequence of steps, each enabled where it is taken. */
  predicate CanRun(c: Cfg, ls: seq<Step>)
    decreases |ls|, 0
  {
    ls == [] || (CanRun(c, ls[..|ls| - 1]) && Enabled(c, Run(c, ls[..|ls| - 1]), ls[|ls| - 1]))
  }

  function Run(c: Cfg, ls: seq<Step>): St
    requires CanRun(c, ls)
    decreases |ls|, 1
  {
    if ls == [] then Init(c) else Apply(c, Run(c, ls[..|ls| - 1]), ls[|ls| - 1])
  }
}
