/** What every statement of every handler of the acceptor keeps. */
module AcceptorInvariants {
  import opened Options
  import opened Seqs
  import opened SessionPool
  import opened Acceptor
  import opened AcceptorSteps

  // ---- who carries what

  function AovOf(a: Act): (o: Option<Aov>)
    ensures o.Some? <==> a.TakeSess? || a.GiveBack? || a.Ex? || InEvent(a)
  {
    match a
    case TakeSess(_, o) => Some(o)
    case GiveBack(_, o) => Some(o)
    case Ex(_, o, _) => Some(o)
    case Fail(o, _) => Some(o)
    case Conn(o, _) => Some(o)
    case Up(o, _) => Some(o)
    case CountDown(o) => Some(o)
    case PutAov(o) => Some(o)
    case _ => None
  }

  function SessOf(a: Act): (x: Option<Sess>)
    ensures x.Some? <==> a.Ex? || a.Fail? || a.Conn? || a.Up? || a.DiscDown? || a.DiscPut?
  {
    match a
    case Ex(_, _, x) => Some(x)
    case Fail(_, x) => Some(x)
    case Conn(_, x) => Some(x)
    case Up(_, x) => Some(x)
    case DiscDown(x) => Some(x)
    case DiscPut(x) => Some(x)
    case _ => None
  }

  predicate InEvent(a: Act) { a.Fail? || a.Conn? || a.Up? || a.CountDown? || a.PutAov? }

  /** The objects marked as carried by thread `t` are the one it has in its hands and the one below its callback. */
  ghost predicate AovHands(aovs: seq<AovPlace>, t: Tid, k: Kont, o: Option<Aov>) {
    && (k.KConn? ==> k.a < |aovs| && o != Some(k.a))
    && (o.Some? ==> o.value < |aovs|)
    && forall a :: 0 <= a < |aovs| ==> (aovs[a] == AovWith(t) <==> k == KConn(a) || o == Some(a))
  }

  ghost predicate SessHands(sess: map<Sess, SessPlace>, t: Tid, o: Option<Sess>) {
    && (o.Some? ==> o.value in sess)
    && forall x :: x in sess ==> (sess[x] == SessWith(t) <==> o == Some(x))
  }

  /** A thread carries exactly what is marked as carried by it. */
  ghost predicate Local(h: History, t: Tid, th: Thr) {
    && AovHands(h.aovs, t, th.k, AovOf(th.act)) && SessHands(h.sess, t, SessOf(th.act))
    && (InEvent(th.act) ==> th.k.KIdle?)
  }

  /** What is marked as carried is carried by one of the threads. */
  ghost predicate Carried(h: History, n: nat) {
    && (forall a :: 0 <= a < |h.aovs| && h.aovs[a].AovWith? ==> h.aovs[a].t < n)
    && (forall x :: x in h.sess && h.sess[x].SessWith? ==> h.sess[x].t < n)
  }

  /** Accept objects are in the pool once, pending or lost as they are marked. */
  ghost predicate AovsOk(apool: seq<Aov>, pend: set<Aov>, lost: set<Aov>, aovs: seq<AovPlace>) {
    && Distinct(apool)
    && (forall a :: a in apool ==> a < |aovs|) && (forall a :: a in pend || a in lost ==> a < |aovs|)
    && (forall a :: 0 <= a < |aovs| ==>
          && (a in apool <==> aovs[a] == Pooled)
          && (a in pend <==> aovs[a] == Pending) && (a in lost <==> aovs[a] == Lost))
  }

  /** Sessions in use are connected, accepting or lost as they are marked. */
  ghost predicate SessOk(inUse: set<Sess>, connected: set<Sess>, pend: map<Aov, Sess>, lost: map<Aov, Sess>,
                         sess: map<Sess, SessPlace>) {
    && sess.Keys == inUse
    && (forall x :: x in connected <==> x in sess && sess[x] == Live)
    && (forall a :: a in pend ==> pend[a] in sess && sess[pend[a]] == Accepting(a))
    && (forall x :: x in sess && sess[x].Accepting? ==> sess[x].a in pend && pend[sess[x].a] == x)
    && (forall a :: a in lost ==> lost[a] in sess && sess[lost[a]] == SessLost(a))
    && (forall x :: x in sess && sess[x].SessLost? ==> sess[x].a in lost && lost[sess[x].a] == x)
  }

  ghost predicate GAovs(c: Cfg, s: St) {
    |s.h.aovs| == c.conf.acceptCnt && AovsOk(s.g.apool, s.g.pend.Keys, s.g.lost.Keys, s.h.aovs)
  }

  ghost predicate GSess(c: Cfg, s: St) {
    Sized(c.conf, s.g.pool) && SessOk(s.g.pool.inUse, s.g.connected, s.g.pend, s.g.lost, s.h.sess)
  }

  ghost predicate Places(c: Cfg, s: St) {
    && |s.thr| == c.threads && GAovs(c, s) && GSess(c, s) && Carried(s.h, |s.thr|)
    && forall t :: 0 <= t < |s.thr| ==> Local(s.h, t, s.thr[t])
  }

  // ---- numbers

  /** A quantity summed over the threads. */
  function Sum(thr: seq<Thr>, f: Thr -> nat): nat {
    if thr == [] then 0 else Sum(thr[..|thr| - 1], f) + f(thr[|thr| - 1])
  }

  lemma {:induction false} SumUpdate(thr: seq<Thr>, t: Tid, th: Thr, f: Thr -> nat)
    requires t < |thr|
    ensures Sum(thr[t := th], f) + f(thr[t]) == Sum(thr, f) + f(th)
  {
    var n := |thr| - 1;
    if t == n {
      assert thr[t := th][..n] == thr[..n];
    } else {
      assert thr[t := th][..n] == thr[..n][t := th];
      SumUpdate(thr[..n], t, th, f);
    }
  }

  /** Nobody has any exactly when the sum is 0. */
  lemma {:induction false} SumZero(thr: seq<Thr>, f: Thr -> nat)
    ensures Sum(thr, f) == 0 <==> forall t :: 0 <= t < |thr| ==> f(thr[t]) == 0
  {
    if thr != [] {
      var n := |thr| - 1;
      SumZero(thr[..n], f);
      assert (forall t :: 0 <= t < |thr| ==> f(thr[t]) == 0) ==> forall t :: 0 <= t < n ==> f(thr[..n][t]) == 0;
      assert (forall t :: 0 <= t < n ==> f(thr[..n][t]) == 0) ==> forall t :: 0 <= t < n ==> f(thr[t]) == 0;
    }
  }

  function One0(b: bool): nat { if b then 1 else 0 }

  /** Accept objects a thread carries. */
  function Aovs(th: Thr): nat { One0(th.k.KConn?) + One0(AovOf(th.act).Some?) }

  function Sesss(th: Thr): nat { One0(SessOf(th.act).Some?) }

  /** The thread handles an accept that is still counted in `accepting_cnt_`. */
  function Handles(th: Thr): nat {
    One0(th.k.KConn?) + One0(th.act.Fail? || th.act.Conn? || th.act.Up? || th.act.CountDown?)
  }

  /** The thread has called `acceptex` and not counted it yet. */
  function Uncounted(th: Thr): nat { One0(th.act.CountUp?) }

  /** The thread's session is counted in `connected_cnt_`, and is not connected yet, or no more. */
  function Moves(th: Thr): nat { One0(th.act.Up? || th.act.DiscDown?) }

  ghost predicate Numbers(c: Cfg, s: St) {
    && c.conf.acceptCnt == |s.g.apool| + |s.g.pend| + |s.g.lost| + Sum(s.thr, Aovs)
    && |s.g.pool.inUse| == |s.g.connected| + |s.g.pend| + |s.g.lost| + Sum(s.thr, Sesss)
    && s.g.acceptingCnt == |s.g.pend| + Sum(s.thr, Handles) - Sum(s.thr, Uncounted)
    && s.g.connectedCnt == |s.g.connected| + Sum(s.thr, Moves)
  }

  // ---- accept objects and sessions change hands

  lemma DropKey<K, V>(m: map<K, V>, k: K)
    requires k in m
    ensures (m - {k}).Keys == m.Keys - {k} && |m - {k}| == |m| - 1
  {
    assert (m - {k})[k := m[k]] == m;
  }

  lemma AovTaken(a: Aov, rest: seq<Aov>, pend: set<Aov>, lost: set<Aov>, aovs: seq<AovPlace>, t: Tid)
    requires AovsOk([a] + rest, pend, lost, aovs)
    ensures a < |aovs| && aovs[a] == Pooled && AovsOk(rest, pend, lost, aovs[a := AovWith(t)])
  {
    DistinctCons(a, rest);
    hide Distinct;
    assert forall b :: b in [a] + rest <==> b == a || b in rest;
  }

  lemma AovPut(a: Aov, apool: seq<Aov>, pend: set<Aov>, lost: set<Aov>, aovs: seq<AovPlace>)
    requires AovsOk(apool, pend, lost, aovs) && a < |aovs| && aovs[a].AovWith?
    ensures AovsOk([a] + apool, pend, lost, aovs[a := Pooled])
  {
    DistinctCons(a, apool);
    hide Distinct;
    assert forall b :: b in [a] + apool <==> b == a || b in apool;
  }

  lemma AovPends(a: Aov, apool: seq<Aov>, pend: set<Aov>, lost: set<Aov>, aovs: seq<AovPlace>)
    requires AovsOk(apool, pend, lost, aovs) && a < |aovs| && aovs[a].AovWith?
    ensures a !in pend && AovsOk(apool, pend + {a}, lost, aovs[a := Pending])
    ensures a !in lost && AovsOk(apool, pend, lost + {a}, aovs[a := Lost])
  {
    hide Distinct;
  }

  lemma AovAnswered(a: Aov, apool: seq<Aov>, pend: set<Aov>, lost: set<Aov>, aovs: seq<AovPlace>, t: Tid)
    requires AovsOk(apool, pend, lost, aovs) && a in pend
    ensures a < |aovs| && aovs[a] == Pending && AovsOk(apool, pend - {a}, lost, aovs[a := AovWith(t)])
  {
    hide Distinct;
  }

  lemma SessTaken(g: Svr, sess: map<Sess, SessPlace>, x: Sess, t: Tid)
    requires SessOk(g.pool.inUse, g.connected, g.pend, g.lost, sess) && x !in g.pool.inUse
    ensures SessOk(g.pool.inUse + {x}, g.connected, g.pend, g.lost, sess[x := SessWith(t)])
  {
  }

  lemma SessPut(g: Svr, sess: map<Sess, SessPlace>, x: Sess)
    requires SessOk(g.pool.inUse, g.connected, g.pend, g.lost, sess) && x in sess && sess[x].SessWith?
    ensures x in g.pool.inUse && SessOk(g.pool.inUse - {x}, g.connected, g.pend, g.lost, sess - {x})
  {
    DropKey(sess, x);
  }

  lemma SessPends(g: Svr, sess: map<Sess, SessPlace>, x: Sess, a: Aov)
    requires SessOk(g.pool.inUse, g.connected, g.pend, g.lost, sess) && x in sess && sess[x].SessWith?
    requires a !in g.pend && a !in g.lost
    ensures SessOk(g.pool.inUse, g.connected, g.pend[a := x], g.lost, sess[x := Accepting(a)])
    ensures SessOk(g.pool.inUse, g.connected, g.pend, g.lost[a := x], sess[x := SessLost(a)])
  {
  }

  lemma SessAnswered(g: Svr, sess: map<Sess, SessPlace>, a: Aov, t: Tid)
    requires SessOk(g.pool.inUse, g.connected, g.pend, g.lost, sess) && a in g.pend
    ensures g.pend[a] in sess && sess[g.pend[a]] == Accepting(a)
    ensures SessOk(g.pool.inUse, g.connected, g.pend - {a}, g.lost, sess[g.pend[a] := SessWith(t)])
  {
  }

  lemma SessUp(g: Svr, sess: map<Sess, SessPlace>, x: Sess)
    requires SessOk(g.pool.inUse, g.connected, g.pend, g.lost, sess) && x in sess && sess[x].SessWith?
    ensures x !in g.connected && SessOk(g.pool.inUse, g.connected + {x}, g.pend, g.lost, sess[x := Live])
  {
  }

  lemma SessDown(g: Svr, sess: map<Sess, SessPlace>, x: Sess, t: Tid)
    requires SessOk(g.pool.inUse, g.connected, g.pend, g.lost, sess) && x in g.connected
    ensures x in sess && sess[x] == Live
    ensures SessOk(g.pool.inUse, g.connected - {x}, g.pend, g.lost, sess[x := SessWith(t)])
  {
  }

  // ---- every step keeps every thing and every session in one place

  /** What may be assumed of a step. */
  ghost predicate CanGo(c: Cfg, s: St, t: Tid) {
    t < |s.thr| && GAovs(c, s) && GSess(c, s) && Local(s.h, t, s.thr[t])
  }

  /** The shared state after the next statement of thread `t`. */
  lemma NextAovs(c: Cfg, s: St, t: Tid, ex: bool)
    requires CanGo(c, s, t)
    ensures var (g, h, th) := Next(c.conf, s.g, s.h, t, s.thr[t], ex); GAovs(c, St(g, h, []))
  {
    hide Sized, SessOk, AovsOk, Pop, Push;
    var g, aovs := s.g, s.h.aovs;
    match s.thr[t].act {
      case TakeAov(_) =>
        if g.apool != [] {
          assert g.apool == [g.apool[0]] + g.apool[1..];
          AovTaken(g.apool[0], g.apool[1..], g.pend.Keys, g.lost.Keys, aovs, t);
        }
      case GiveBack(_, a) => AovPut(a, g.apool, g.pend.Keys, g.lost.Keys, aovs);
      case PutAov(a) => AovPut(a, g.apool, g.pend.Keys, g.lost.Keys, aovs);
      case Ex(_, a, x) =>
        AovPends(a, g.apool, g.pend.Keys, g.lost.Keys, aovs);
        assert g.pend[a := x].Keys == g.pend.Keys + {a} && g.lost[a := x].Keys == g.lost.Keys + {a};
      case _ =>
    }
  }

  lemma NextSess(c: Cfg, s: St, t: Tid, ex: bool)
    requires CanGo(c, s, t)
    ensures var (g, h, th) := Next(c.conf, s.g, s.h, t, s.thr[t], ex); GSess(c, St(g, h, []))
  {
    hide Sized, SessOk, Pop, Push;
    var g, sess := s.g, s.h.sess;
    match s.thr[t].act {
      case TakeSess(_, _) =>
        PopGives(c.conf, g.pool);
        var x := Pop(c.conf, g.pool).1;
        if x.Some? { SessTaken(g, sess, x.value, t); }
      case Fail(_, x) => ReturnSess(c, s, x);
      case DiscPut(x) => ReturnSess(c, s, x);
      case Ex(_, a, x) => AovPends(a, g.apool, g.pend.Keys, g.lost.Keys, s.h.aovs); SessPends(g, sess, x, a);
      case Up(_, x) => SessUp(g, sess, x);
      case _ =>
    }
  }

  lemma ReturnSess(c: Cfg, s: St, x: Sess)
    requires GSess(c, s) && x in s.h.sess && s.h.sess[x].SessWith?
    ensures x in s.g.pool.inUse && GSess(c, St(s.g.(pool := Push(s.g.pool, x)), s.h.(sess := s.h.sess - {x}), []))
  {
    SessPut(s.g, s.h.sess, x);
    hide Sized, SessOk;
    PushKeeps(c.conf, s.g.pool, x);
  }

  lemma CallKeeps(c: Cfg, s: St, t: Tid, o: Op)
    requires CanGo(c, s, t) && Enabled(c, s, Step(t, o)) && !o.Go?
    ensures var (g, h, th) := Call(s.g, s.h, t, s.thr[t], o); GAovs(c, St(g, h, [])) && GSess(c, St(g, h, []))
  {
    hide Sized, SessOk, AovsOk;
    match o {
      case CallDisc(x) => SessDown(s.g, s.h.sess, x, t);
      case Complete(a, _) =>
        AovAnswered(a, s.g.apool, s.g.pend.Keys, s.g.lost.Keys, s.h.aovs, t);
        SessAnswered(s.g, s.h.sess, a, t);
        DropKey(s.g.pend, a);
      case _ =>
    }
  }

  // ---- what threads carry

  /** The step of thread `t` concerns no other thread's things. */
  ghost predicate OwnAovs(aovs: seq<AovPlace>, aovs2: seq<AovPlace>, t: Tid) {
    && |aovs2| == |aovs|
    && forall a :: 0 <= a < |aovs| ==>
         || aovs2[a] == aovs[a]
         || ((aovs[a].AovWith? ==> aovs[a].t == t) && (aovs2[a].AovWith? ==> aovs2[a].t == t))
  }

  ghost predicate OwnSess(sess: map<Sess, SessPlace>, sess2: map<Sess, SessPlace>, t: Tid) {
    && (forall x :: x in sess && sess[x].SessWith? && sess[x].t != t ==> x in sess2 && sess2[x] == sess[x])
    && (forall x :: x in sess2 && sess2[x].SessWith? && sess2[x].t != t ==> x in sess && sess[x] == sess2[x])
  }

  ghost predicate Own(h: History, h2: History, t: Tid) { OwnAovs(h.aovs, h2.aovs, t) && OwnSess(h.sess, h2.sess, t) }

  lemma AovInHand(aovs: seq<AovPlace>, t: Tid, k: Kont, a: Aov)
    requires AovHands(aovs, t, k, None) && a < |aovs| && !aovs[a].AovWith?
    ensures AovHands(aovs[a := AovWith(t)], t, k, Some(a)) && OwnAovs(aovs, aovs[a := AovWith(t)], t)
  {
  }

  lemma AovOutOfHand(aovs: seq<AovPlace>, t: Tid, k: Kont, a: Aov, p: AovPlace)
    requires AovHands(aovs, t, k, Some(a)) && !p.AovWith?
    ensures AovHands(aovs[a := p], t, k, None) && OwnAovs(aovs, aovs[a := p], t)
  {
  }

  lemma SessInHand(sess: map<Sess, SessPlace>, t: Tid, x: Sess)
    requires SessHands(sess, t, None) && (x in sess ==> !sess[x].SessWith?)
    ensures SessHands(sess[x := SessWith(t)], t, Some(x)) && OwnSess(sess, sess[x := SessWith(t)], t)
  {
  }

  lemma SessOutOfHand(sess: map<Sess, SessPlace>, t: Tid, x: Sess, p: SessPlace)
    requires SessHands(sess, t, Some(x)) && !p.SessWith?
    ensures SessHands(sess[x := p], t, None) && OwnSess(sess, sess[x := p], t)
    ensures SessHands(sess - {x}, t, None) && OwnSess(sess, sess - {x}, t)
  {
  }

  lemma ThreadsKeep(h: History, thr: seq<Thr>, h2: History, t: Tid, th: Thr, thr2: seq<Thr>)
    requires t < |thr| && Own(h, h2, t) && Carried(h, |thr|) && Local(h2, t, th) && thr2 == thr[t := th]
    requires forall u :: 0 <= u < |thr| ==> Local(h, u, thr[u])
    ensures Carried(h2, |thr|) && forall u :: 0 <= u < |thr2| ==> Local(h2, u, thr2[u])
  {
    forall u | 0 <= u < |thr2| ensures Local(h2, u, thr2[u]) { assert Local(h, u, thr[u]); }
  }

  lemma NextAovHands(c: Cfg, s: St, t: Tid, ex: bool)
    requires CanGo(c, s, t)
    ensures var (_, h, th) := Next(c.conf, s.g, s.h, t, s.thr[t], ex);
            && OwnAovs(s.h.aovs, h.aovs, t) && AovHands(h.aovs, t, th.k, AovOf(th.act))
            && (InEvent(th.act) ==> th.k.KIdle?)
  {
    hide Push, Pop, Sized, AovHands, SessHands, OwnAovs, OwnSess, SessOk, AovsOk;
    var h, th := s.h, s.thr[t];
    SameOwn(h, t);
    ShowHands(h, t, th);
    HeadPooled(c, s);
    match th.act {
      case TakeAov(_) => if s.g.apool != [] { AovInHand(h.aovs, t, th.k, s.g.apool[0]); }
      case GiveBack(_, a) => AovOutOfHand(h.aovs, t, th.k, a, Pooled);
      case PutAov(a) => AovOutOfHand(h.aovs, t, th.k, a, Pooled);
      case Ex(_, a, x) => AovOutOfHand(h.aovs, t, th.k, a, if ex then Pending else Lost);
      case Up(a, x) => BelowCallback(h.aovs, t, a);
      case _ =>
    }
  }

  lemma NextSessHands(c: Cfg, s: St, t: Tid, ex: bool)
    requires CanGo(c, s, t)
    ensures var (_, h, th) := Next(c.conf, s.g, s.h, t, s.thr[t], ex);
            OwnSess(s.h.sess, h.sess, t) && SessHands(h.sess, t, SessOf(th.act))
  {
    hide Push, Pop, Sized, AovHands, SessHands, OwnAovs, OwnSess, SessOk, AovsOk;
    var h, th := s.h, s.thr[t];
    SameOwn(h, t);
    NewSess(c, s);
    match th.act {
      case TakeSess(_, _) =>
        var x := Pop(c.conf, s.g.pool).1;
        if x.Some? { SessInHand(h.sess, t, x.value); }
      case Ex(_, a, x) => SessOutOfHand(h.sess, t, x, if ex then Accepting(a) else SessLost(a));
      case Fail(_, x) => SessOutOfHand(h.sess, t, x, Live);
      case DiscPut(x) => SessOutOfHand(h.sess, t, x, Live);
      case Up(a, x) => SessOutOfHand(h.sess, t, x, Live);
      case _ =>
    }
  }

  lemma SameOwn(h: History, t: Tid)
    ensures OwnAovs(h.aovs, h.aovs, t) && OwnSess(h.sess, h.sess, t)
  {
  }

  lemma ShowHands(h: History, t: Tid, th: Thr)
    requires Local(h, t, th)
    ensures var o := AovOf(th.act); o.Some? ==> o.value < |h.aovs| && h.aovs[o.value] == AovWith(t)
    ensures var o := SessOf(th.act); o.Some? ==> o.value in h.sess && h.sess[o.value] == SessWith(t)
  {
  }

  lemma HeadPooled(c: Cfg, s: St)
    requires GAovs(c, s)
    ensures s.g.apool != [] ==> s.g.apool[0] < |s.h.aovs| && s.h.aovs[s.g.apool[0]] == Pooled
  {
    if s.g.apool != [] { assert s.g.apool[0] in s.g.apool; }
  }

  lemma NewSess(c: Cfg, s: St)
    requires GSess(c, s)
    ensures var (q, x) := Pop(c.conf, s.g.pool);
            x.Some? ==> x.value !in s.h.sess && x.value !in s.g.pool.inUse && q.inUse == s.g.pool.inUse + {x.value}
  {
    PopGives(c.conf, s.g.pool);
  }

  /** The object in hand is put below the callback, and taken up again after it. */
  lemma BelowCallback(aovs: seq<AovPlace>, t: Tid, a: Aov)
    ensures AovHands(aovs, t, KIdle, Some(a)) <==> AovHands(aovs, t, KConn(a), None)
  {
  }

  lemma CallThread(c: Cfg, s: St, t: Tid, o: Op)
    requires CanGo(c, s, t) && Enabled(c, s, Step(t, o)) && !o.Go?
    ensures var (g, h, th) := Call(s.g, s.h, t, s.thr[t], o); Own(s.h, h, t) && Local(h, t, th)
  {
    hide Sized, AovHands, SessHands, OwnAovs, OwnSess, SessOk, AovsOk;
    var h, th := s.h, s.thr[t];
    assert OwnAovs(h.aovs, h.aovs, t) && OwnSess(h.sess, h.sess, t) by { SameOwn(h, t); }
    match o {
      case CallDisc(x) => SessDown(s.g, h.sess, x, t); SessInHand(h.sess, t, x);
      case Complete(a, _) =>
        AovAnswered(a, s.g.apool, s.g.pend.Keys, s.g.lost.Keys, h.aovs, t);
        SessAnswered(s.g, h.sess, a, t);
        AovInHand(h.aovs, t, th.k, a);
        SessInHand(h.sess, t, s.g.pend[a]);
      case ConnEnds => BelowCallback(h.aovs, t, th.k.a);
      case _ =>
    }
  }

  lemma StepPlaces(c: Cfg, s: St, l: Step)
    requires Places(c, s) && Enabled(c, s, l)
    ensures Places(c, Apply(c, s, l))
  {
    var t := l.t;
    hide GAovs, GSess, AovHands, SessHands, OwnAovs, OwnSess, Carried;
    var (g, h, th) := if l.op.Go? then Next(c.conf, s.g, s.h, t, s.thr[t], l.op.ex)
                      else Call(s.g, s.h, t, s.thr[t], l.op);
    if l.op.Go? {
      NextAovs(c, s, t, l.op.ex);
      NextSess(c, s, t, l.op.ex);
      NextAovHands(c, s, t, l.op.ex);
      NextSessHands(c, s, t, l.op.ex);
    } else {
      CallKeeps(c, s, t, l.op);
      CallThread(c, s, t, l.op);
    }
    hide Next, Call, Enabled;
    SameShared(c, g, h, s.thr[t := th]);
    ThreadsKeep(s.h, s.thr, h, t, th, s.thr[t := th]);
  }

  lemma SameShared(c: Cfg, g: Svr, h: History, thr: seq<Thr>)
    ensures GAovs(c, St(g, h, [])) == GAovs(c, St(g, h, thr)) && GSess(c, St(g, h, [])) == GSess(c, St(g, h, thr))
  {
  }

  // ---- every step keeps the numbers

  /** What one thread's step adds to the numbers on one side it adds on the other. */
  predicate SameAovs(g: Svr, th: Thr, g2: Svr, th2: Thr) {
    |g2.apool| + |g2.pend| + |g2.lost| + Aovs(th2) == |g.apool| + |g.pend| + |g.lost| + Aovs(th)
  }

  predicate SameSess(g: Svr, th: Thr, g2: Svr, th2: Thr) {
    |g2.pool.inUse| + |g.connected| + |g.pend| + |g.lost| + Sesss(th)
    == |g.pool.inUse| + |g2.connected| + |g2.pend| + |g2.lost| + Sesss(th2)
  }

  predicate SameCounts(g: Svr, th: Thr, g2: Svr, th2: Thr) {
    && g2.acceptingCnt - |g2.pend| - Handles(th2) + Uncounted(th2)
       == g.acceptingCnt - |g.pend| - Handles(th) + Uncounted(th)
    && g2.connectedCnt - |g2.connected| - Moves(th2) == g.connectedCnt - |g.connected| - Moves(th)
  }

  predicate SameNumbers(g: Svr, th: Thr, g2: Svr, th2: Thr) {
    SameAovs(g, th, g2, th2) && SameSess(g, th, g2, th2) && SameCounts(g, th, g2, th2)
  }

  /** What a thread carries is nowhere else. */
  lemma Nowhere(c: Cfg, s: St, t: Tid)
    requires CanGo(c, s, t)
    ensures var a := s.thr[t].act;
            && (a.Ex? ==> |s.g.pend[a.a := a.x]| == |s.g.pend| + 1 && |s.g.lost[a.a := a.x]| == |s.g.lost| + 1)
            && (a.Fail? || a.DiscPut? ==> |Push(s.g.pool, a.x).inUse| == |s.g.pool.inUse| - 1)
            && (a.Up? ==> |s.g.connected + {a.x}| == |s.g.connected| + 1)
            && (InEvent(a) ==> s.thr[t].k.KIdle?)
  {
    hide Sized, Distinct;
    var a := s.thr[t].act;
    ShowHands(s.h, t, s.thr[t]);
    hide AovHands, SessHands;
    if a.Ex? { assert a.a !in s.g.pend && a.a !in s.g.lost; }
    if a.Fail? || a.DiscPut? { assert a.x in s.g.pool.inUse; }
    if a.Up? { assert a.x !in s.g.connected; }
  }

  /** A session nobody has, or none, which is when all there may be are in use. */
  lemma PopCounts(c: Cfg, s: St, t: Tid)
    requires CanGo(c, s, t)
    ensures var (q, x) := Pop(c.conf, s.g.pool);
            && |q.inUse| == |s.g.pool.inUse| + (if x.Some? then 1 else 0)
            && (x.Some? <==> |s.g.pool.inUse| < Cap(c.conf))
  {
    hide GAovs, Local;
    PopGives(c.conf, s.g.pool);
  }

  lemma TakeNumbers(c: Cfg, s: St, t: Tid, ex: bool)
    requires CanGo(c, s, t) && (s.thr[t].act.TakeAov? || s.thr[t].act.TakeSess?)
    ensures var (g, _, th) := Next(c.conf, s.g, s.h, t, s.thr[t], ex); SameNumbers(s.g, s.thr[t], g, th)
  {
    hide Pop, Push, GAovs, GSess, Local;
    PopCounts(c, s, t);
    var g, k := s.g, s.thr[t].k;
    var (g2, _, th2) := Next(c.conf, g, s.h, t, s.thr[t], ex);
    match s.thr[t].act {
      case TakeAov(m) => assert SameNumbers(g, Thr(k, TakeAov(m)), g2, th2);
      case TakeSess(m, a) =>
        var (q, x) := Pop(c.conf, g.pool);
        assert th2 == Thr(k, if x.None? then GiveBack(m, a) else Ex(m, a, x.value));
        assert SameNumbers(g, Thr(k, TakeSess(m, a)), g2, th2);
    }
  }

  lemma ExNumbers(c: Cfg, s: St, t: Tid, ex: bool)
    requires CanGo(c, s, t) && (s.thr[t].act.GiveBack? || s.thr[t].act.Ex? || s.thr[t].act.CountUp?)
    ensures var (g, _, th) := Next(c.conf, s.g, s.h, t, s.thr[t], ex); SameNumbers(s.g, s.thr[t], g, th)
  {
    hide Pop, Push, GAovs, GSess, Local;
    Nowhere(c, s, t);
    var g, k := s.g, s.thr[t].k;
    var (g2, _, th2) := Next(c.conf, g, s.h, t, s.thr[t], ex);
    match s.thr[t].act {
      case GiveBack(m, a) => assert SameNumbers(g, Thr(k, GiveBack(m, a)), g2, th2);
      case Ex(m, a, x) => assert SameNumbers(g, Thr(k, Ex(m, a, x)), g2, th2);
      case CountUp(m) => assert SameNumbers(g, Thr(k, CountUp(m)), g2, th2);
    }
  }

  lemma EventNumbers(c: Cfg, s: St, t: Tid, ex: bool)
    requires CanGo(c, s, t) && (InEvent(s.thr[t].act))
    ensures var (g, _, th) := Next(c.conf, s.g, s.h, t, s.thr[t], ex); SameNumbers(s.g, s.thr[t], g, th)
  {
    hide Pop, Push, GAovs, GSess, Local;
    Nowhere(c, s, t);
    var g, k := s.g, s.thr[t].k;
    var (g2, _, th2) := Next(c.conf, g, s.h, t, s.thr[t], ex);
    match s.thr[t].act {
      case Fail(a, x) => assert SameNumbers(g, Thr(KIdle, Fail(a, x)), g2, th2);
      case Conn(a, x) => assert SameNumbers(g, Thr(KIdle, Conn(a, x)), g2, th2);
      case Up(a, x) => assert SameNumbers(g, Thr(KIdle, Up(a, x)), g2, th2);
      case CountDown(a) => assert SameNumbers(g, Thr(KIdle, CountDown(a)), g2, th2);
      case PutAov(a) => assert SameNumbers(g, Thr(KIdle, PutAov(a)), g2, th2);
    }
  }

  lemma DiscNumbers(c: Cfg, s: St, t: Tid, ex: bool)
    requires CanGo(c, s, t) && (s.thr[t].act.DiscDown? || s.thr[t].act.DiscPut?)
    ensures var (g, _, th) := Next(c.conf, s.g, s.h, t, s.thr[t], ex); SameNumbers(s.g, s.thr[t], g, th)
  {
    hide Pop, Push, GAovs, GSess, Local;
    Nowhere(c, s, t);
    var g, a, k := s.g, s.thr[t].act, s.thr[t].k;
    if a.DiscDown? {
      DownNumbers(g, k, a.x);
    } else {
      PutNumbers(g, k, a.x, Push(g.pool, a.x));
    }
  }

  lemma DownNumbers(g: Svr, k: Kont, x: Sess)
    ensures SameNumbers(g, Thr(k, DiscDown(x)), g.(connectedCnt := g.connectedCnt - 1), Thr(k, DiscPut(x)))
  {
  }

  lemma PutNumbers(g: Svr, k: Kont, x: Sess, p: Pool)
    requires |p.inUse| == |g.pool.inUse| - 1
    ensures SameNumbers(g, Thr(k, DiscPut(x)), g.(pool := p), Thr(k, LoopTest(All)))
  {
  }

  lemma NextNumbers(c: Cfg, s: St, t: Tid, ex: bool)
    requires CanGo(c, s, t)
    ensures var (g, _, th) := Next(c.conf, s.g, s.h, t, s.thr[t], ex); SameNumbers(s.g, s.thr[t], g, th)
  {
    var a := s.thr[t].act;
    if a.TakeAov? || a.TakeSess? {
      TakeNumbers(c, s, t, ex);
    } else if a.GiveBack? || a.Ex? || a.CountUp? {
      ExNumbers(c, s, t, ex);
    } else if InEvent(a) {
      EventNumbers(c, s, t, ex);
    } else if a.DiscDown? || a.DiscPut? {
      DiscNumbers(c, s, t, ex);
    }
    hide GAovs, GSess, Local;
  }

  lemma CallNumbers(c: Cfg, g: Svr, h: History, t: Tid, th: Thr, o: Op)
    requires th.act.Ready? && (o.CallDisc? ==> o.x in g.connected) && (o.Complete? ==> th.k.KIdle? && o.a in g.pend)
    requires (o.ConnEnds? ==> th.k.KConn?) && !o.Go?
    ensures var (g2, _, th2) := Call(g, h, t, th, o); SameNumbers(g, th, g2, th2)
  {
    hide SameNumbers;
    match o {
      case CallListen => ListenNumbers(g, th.k);
      case CallRelease => ReleaseNumbers(g, th);
      case CallDisc(x) => HangUpNumbers(g, th.k, x);
      case Complete(a, ok) => DropKey(g.pend, a); AnswerNumbers(g, a, ok);
      case ConnEnds => EndNumbers(g, th.k.a);
    }
  }

  lemma ListenNumbers(g: Svr, k: Kont)
    ensures SameNumbers(g, Thr(k, Ready), g.(listening := true), Thr(k, LoopTest(First)))
  {
  }

  lemma ReleaseNumbers(g: Svr, th: Thr)
    ensures SameNumbers(g, th, g.(released := true), th)
  {
  }

  lemma EndNumbers(g: Svr, a: Aov)
    ensures SameNumbers(g, Thr(KConn(a), Ready), g, Thr(KIdle, CountDown(a)))
  {
  }

  lemma HangUpNumbers(g: Svr, k: Kont, x: Sess)
    requires x in g.connected
    ensures SameNumbers(g, Thr(k, Ready), g.(connected := g.connected - {x}), Thr(k, DiscDown(x)))
  {
  }

  lemma AnswerNumbers(g: Svr, a: Aov, ok: bool)
    requires a in g.pend && |g.pend - {a}| == |g.pend| - 1
    ensures var x := g.pend[a];
            SameNumbers(g, Thr(KIdle, Ready), g.(pend := g.pend - {a}),
                        Thr(KIdle, if ok then Conn(a, x) else Fail(a, x)))
  {
  }

  lemma SumsFollow(c: Cfg, g: Svr, thr: seq<Thr>, t: Tid, g2: Svr, h: History, th: Thr)
    requires t < |thr| && Numbers(c, St(g, h, thr)) && SameNumbers(g, thr[t], g2, th)
    ensures Numbers(c, St(g2, h, thr[t := th]))
  {
    hide Aovs, Sesss, Handles, Uncounted, Moves, Sum;
    SumUpdate(thr, t, th, Aovs);
    SumUpdate(thr, t, th, Sesss);
    SumUpdate(thr, t, th, Handles);
    SumUpdate(thr, t, th, Uncounted);
    SumUpdate(thr, t, th, Moves);
  }

  lemma StepNumbers(c: Cfg, s: St, l: Step)
    requires Places(c, s) && Numbers(c, s) && Enabled(c, s, l)
    ensures Numbers(c, Apply(c, s, l))
  {
    hide GAovs, GSess, Local, SameAovs, SameSess, SameCounts, Next, Call, Numbers;
    var t := l.t;
    if l.op.Go? {
      NextNumbers(c, s, t, l.op.ex);
    } else {
      CallNumbers(c, s.g, s.h, t, s.thr[t], l.op);
    }
    var s' := Apply(c, s, l);
    NoHistory(c, s, s'.h);
    SumsFollow(c, s.g, s.thr, t, s'.g, s'.h, s'.thr[t]);
  }

  lemma NoHistory(c: Cfg, s: St, h: History)
    ensures Numbers(c, s) == Numbers(c, St(s.g, h, s.thr))
  {
  }

  lemma {:induction false} AovListOk(n: nat)
    ensures |AovList(n)| == n && Distinct(AovList(n)) && forall a :: a in AovList(n) <==> 0 <= a < n
  {
    if n > 0 {
      AovListOk(n - 1);
      DistinctCons(n - 1, AovList(n - 1));
    }
  }

  lemma StartPlaces(c: Cfg)
    ensures Places(c, Start(c))
  {
    InitIsSized(c.conf);
    AovListOk(c.conf.acceptCnt);
    hide InitPool, AovList, Distinct;
  }

  lemma StartInv(c: Cfg)
    ensures Places(c, Start(c)) && Numbers(c, Start(c))
  {
    StartPlaces(c);
    hide Places, InitPool;
    InitIsSized(c.conf);
    AovListOk(c.conf.acceptCnt);
    var thr := Start(c).thr;
    SumZero(thr, Aovs);
    SumZero(thr, Sesss);
    SumZero(thr, Handles);
    SumZero(thr, Uncounted);
    SumZero(thr, Moves);
  }

  lemma {:induction false} RunKeepsInv(c: Cfg, ls: seq<Step>)
    requires CanRun(c, ls)
    ensures Places(c, Run(c, ls)) && Numbers(c, Run(c, ls))
  {
    hide Places, Numbers, Enabled, Apply, Start;
    if ls == [] {
      StartInv(c);
    } else {
      var s, l := Run(c, ls[..|ls| - 1]), ls[|ls| - 1];
      RunKeepsInv(c, ls[..|ls| - 1]);
      StepPlaces(c, s, l);
      StepNumbers(c, s, l);
    }
  }
}
