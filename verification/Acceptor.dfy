/** `Acceptor`: accept objects and sessions circulate between the pools, the pending accepts and live connections. */
module Acceptor {
  import opened Options
  import opened Seqs
  import opened SessionPool

  type Aov = nat

  /** The pools and the counters. `pend`: accepts the system has not answered, with their sessions. `lost`: objects
      whose `acceptex` failed outright, with theirs: the code drops both. `connected`: sessions between `_on_conn_init`
      and `disconnected`. */
  datatype Svr = Svr(pool: Pool, apool: seq<Aov>, pend: map<Aov, Sess>, lost: map<Aov, Sess>, connected: set<Sess>,
                     acceptingCnt: int, connectedCnt: int, listening: bool, released: bool)

  function AovList(n: nat): seq<Aov> { if n == 0 then [] else [n - 1] + AovList(n - 1) }

  /** After `SessionPool::init` and `Acceptor::init`. */
  function Init(c: Conf): Svr { Svr(InitPool(c), AovList(c.acceptCnt), map[], map[], {}, 0, 0, false, false) }

  // ---- the handlers, each run by a thread nobody interferes with

  /** `accept()`; `ex` is false when `acceptex` fails outright. */
  function Accept(c: Conf, s: Svr, ex: bool): (Svr, bool) {
    if s.released || s.apool == [] then (s, false)
    else
      var (q, x) := Pop(c, s.pool);
      if x.None? then (s.(pool := q), false)
      else
        var a, t := s.apool[0], s.(pool := q, apool := s.apool[1..]);
        if ex then (t.(pend := s.pend[a := x.value], acceptingCnt := s.acceptingCnt + 1), true)
        else (t.(lost := s.lost[a := x.value]), false)
  }

  /** `accept_all()`; `bad` is how many `acceptex` succeed before one fails outright, if one does. */
  function AcceptAll(c: Conf, s: Svr, bad: Option<nat>): (t: Svr)
    decreases |s.apool|
  {
    if s.released || s.apool == [] then s
    else
      var (t, ok) := Accept(c, s, bad != Some(0));
      if ok then AcceptAll(c, t, Fewer(bad)) else t
  }

  function Fewer(bad: Option<nat>): Option<nat> {
    if bad.Some? && bad.value > 0 then Some(bad.value - 1) else None
  }

  /** `listen` */
  function Listened(c: Conf, s: Svr, bad: Option<nat>): Svr { AcceptAll(c, s.(listening := true), bad) }

  /** `disconnected(x)` */
  function Disconnected(c: Conf, s: Svr, x: Sess, bad: Option<nat>): Svr {
    AcceptAll(c, s.(connected := s.connected - {x}, connectedCnt := s.connectedCnt - 1, pool := Push(s.pool, x)), bad)
  }

  /** `on_event` of an accept that succeeded, up to the `on_conn` callback. */
  function Began(s: Svr, a: Aov): Svr
    requires a in s.pend
  {
    s.(pend := s.pend - {a}, connectedCnt := s.connectedCnt + 1, connected := s.connected + {s.pend[a]})
  }

  /** `on_event` from the return of the callback on. */
  function Ended(c: Conf, s: Svr, a: Aov, ex: bool): Svr {
    Accept(c, s.(acceptingCnt := s.acceptingCnt - 1, apool := [a] + s.apool), ex).0
  }

  /** `on_event` of an accept that failed. */
  function FailedEvent(c: Conf, s: Svr, a: Aov, ex: bool): Svr
    requires a in s.pend
  {
    Ended(c, s.(pend := s.pend - {a}, pool := Push(s.pool, s.pend[a])), a, ex)
  }

  datatype Close = Close(x: Sess, bad: Option<nat>)

  /** Disconnects made one after another. */
  function CloseAll(c: Conf, s: Svr, xs: seq<Close>): Svr
    decreases |xs|
  {
    if xs == [] then s else CloseAll(c, Disconnected(c, s, xs[0].x, xs[0].bad), xs[1..])
  }

  // ---- what is used again

  /** The object of an accept that has ended is the next one accepted on, as soon as a session can be had. */
  lemma EndedAcceptsAgain(c: Conf, s: Svr, a: Aov)
    requires !s.released && Sized(c, s.pool) && |s.pool.inUse| < Cap(c)
    ensures var t := Ended(c, s, a, true);
            a in t.pend && t.pend[a] !in s.pool.inUse && t.apool == s.apool && t.acceptingCnt == s.acceptingCnt
  {
    PopGives(c, s.pool);
    assert ([a] + s.apool)[1..] == s.apool;
    hide Sized, Pop;
  }

  /** A session that comes back to an open server with an idle accept object is the next one accepted. */
  lemma DisconnectedAcceptsAgain(c: Conf, s: Svr, x: Sess)
    requires !s.released && s.apool != [] && x in s.pool.inUse
    ensures var back := s.(connected := s.connected - {x}, connectedCnt := s.connectedCnt - 1, pool := Push(s.pool, x));
            var (t, ok) := Accept(c, back, true);
            && ok && t.pend == s.pend[s.apool[0] := x] && t.pool == s.pool && t.apool == s.apool[1..]
            && Disconnected(c, s, x, None) == AcceptAll(c, t, None)
  {
    PushThenPop(c, s.pool, x);
    hide Pop, Push;
  }

  function Least(a: int, b: int): int { if a < b then a else b }

  lemma InUseBound(c: Conf, p: Pool)
    requires Sized(c, p)
    ensures |p.inUse| <= Cap(c)
  {
  }

  /** One `accept` of an open server with an idle object takes it, if there is a session for it. */
  lemma AcceptTakes(c: Conf, s: Svr, ex: bool)
    requires !s.released && s.apool != [] && Sized(c, s.pool)
    ensures var (t, ok) := Accept(c, s, ex);
            var there := |s.pool.inUse| < Cap(c);
            && Sized(c, t.pool) && !t.released && (ok <==> there && ex)
            && t.acceptingCnt == s.acceptingCnt + (if ok then 1 else 0)
            && |t.apool| == |s.apool| - (if there then 1 else 0)
            && |t.pool.inUse| == |s.pool.inUse| + (if there then 1 else 0)
  {
    PopGives(c, s.pool);
    hide Sized, Pop;
  }

  /** `accept_all` of an open server takes objects as long as there are sessions for them, up to the first `acceptex`
      that fails outright, which takes one too. */
  lemma {:induction false} AcceptAllTakes(c: Conf, s: Svr, bad: Option<nat>)
    requires !s.released && Sized(c, s.pool)
    ensures var t := AcceptAll(c, s, bad);
            var most := Least(|s.apool|, Cap(c) - |s.pool.inUse|);
            var good := if bad.Some? then Least(most, bad.value) else most;
            && Sized(c, t.pool)
            && t.acceptingCnt == s.acceptingCnt + good
            && |t.apool| == |s.apool| - (if good < most then good + 1 else most)
            && |t.pool.inUse| == |s.pool.inUse| + |s.apool| - |t.apool|
    decreases |s.apool|
  {
    hide Sized, Accept;
    InUseBound(c, s.pool);
    if s.apool != [] {
      AcceptTakes(c, s, bad != Some(0));
      var (t, ok) := Accept(c, s, bad != Some(0));
      InUseBound(c, t.pool);
      if ok { AcceptAllTakes(c, t, Fewer(bad)); }
    }
  }

  /** The disconnects a callback makes take effect in its order. */
  lemma {:induction false} CloseOneMore(c: Conf, s: Svr, xs: seq<Close>, x: Close)
    ensures CloseAll(c, s, xs + [x]) == Disconnected(c, CloseAll(c, s, xs), x.x, x.bad)
    decreases |xs|
  {
    hide Disconnected;
    if xs == [] {
      assert CloseAll(c, Disconnected(c, s, x.x, x.bad), []) == Disconnected(c, s, x.x, x.bad);
    } else {
      assert (xs + [x])[1..] == xs[1..] + [x];
      CloseOneMore(c, Disconnected(c, s, xs[0].x, xs[0].bad), xs[1..], x);
    }
  }

  // ---- the objects

  /** `Acceptor`; `pend` is `sess_` of the accept objects the system has. */
  class Acceptor {
    const conf: Conf
    const spool: SessionPool
    var apool: seq<Aov>
    var acceptingCnt: int
    var connectedCnt: int
    var isRelease: bool
    var pend: map<Aov, Sess>
    ghost var lost: map<Aov, Sess>
    ghost var connected: set<Sess>
    ghost var listening: bool

    ghost function View(): Svr
      reads this, spool
    {
      Svr(spool.View(), apool, pend, lost, connected, acceptingCnt, connectedCnt, listening, isRelease)
    }

    /** `init` */
    constructor (c: Conf, p: SessionPool)
      requires p.conf == c && p.View() == InitPool(c)
      ensures conf == c && spool == p && View() == Init(c)
    {
      conf, spool := c, p;
      apool, acceptingCnt, connectedCnt, isRelease := [], 0, 0, false;
      pend, lost, connected, listening := map[], map[], {}, false;
      new;
      for i := 0 to c.acceptCnt
        invariant View() == Init(c).(apool := AovList(i))
      {
        apool := [i] + apool;
      }
    }

    /** `accept()` */
    method AcceptOne(ex: bool) returns (ok: bool)
      requires spool.conf == conf
      modifies this, spool
      ensures (View(), ok) == Accept(conf, old(View()), ex)
    {
      if isRelease { return false; }
      if apool == [] { return false; }
      var aov := apool[0];
      apool := apool[1..];
      var s := spool.PopSession();
      if s.None? {
        apool := [aov] + apool;
        assert apool == old(apool);
        return false;
      }
      if !ex {
        lost := lost[aov := s.value];
        return false;
      }
      pend := pend[aov := s.value];
      acceptingCnt := acceptingCnt + 1;
      return true;
    }

    /** `accept_all()` */
    method AcceptEach(bad: Option<nat>)
      requires spool.conf == conf
      modifies this, spool
      ensures View() == AcceptAll(conf, old(View()), bad)
    {
      if isRelease { return; }
      var left := bad;
      while apool != []
        invariant AcceptAll(conf, View(), left) == AcceptAll(conf, old(View()), bad)
        invariant !isRelease
        decreases |apool|
      {
        var ok := AcceptOne(left != Some(0));
        if !ok { return; }
        left := Fewer(left);
      }
    }

    /** `listen`, when the socket can be bound. */
    method ListenOn(bad: Option<nat>)
      requires spool.conf == conf
      modifies this, spool
      ensures View() == Listened(conf, old(View()), bad)
    {
      listening := true;
      AcceptEach(bad);
    }

    /** `disconnected(s)` */
    method OnDisconnected(x: Sess, bad: Option<nat>)
      requires spool.conf == conf
      modifies this, spool
      ensures View() == Disconnected(conf, old(View()), x, bad)
    {
      connected := connected - {x};
      connectedCnt := connectedCnt - 1;
      spool.PushSession(x);
      AcceptEach(bad);
    }

    /** `Server::state` */
    method State() returns (total: nat, free: nat, conn: int, accepting: int)
      ensures var s := View();
              total == s.pool.total && free == |s.pool.free| && conn == s.connectedCnt && accepting == s.acceptingCnt
    {
      total, free, conn, accepting := spool.totalCnt, |spool.free|, connectedCnt, acceptingCnt;
    }

    /** `on_event` up to `on_conn`. */
    method BeginEvent(aov: Aov)
      requires aov in pend
      modifies this
      ensures View() == Began(old(View()), aov)
    {
      connectedCnt := connectedCnt + 1;
      connected := connected + {pend[aov]};
      pend := pend - {aov};
    }

    /** The end of `on_event`. */
    method EndEvent(aov: Aov, ex: bool)
      requires spool.conf == conf
      modifies this, spool
      ensures View() == Ended(conf, old(View()), aov, ex)
    {
      acceptingCnt := acceptingCnt - 1;
      apool := [aov] + apool;
      var ok := AcceptOne(ex);
    }

    /** The sessions the `on_conn` callback disconnects, which may be the new one. */
    method Callback(during: seq<Close>)
      requires spool.conf == conf
      modifies this, spool
      ensures View() == CloseAll(conf, old(View()), during)
    {
      for i := 0 to |during|
        invariant CloseAll(conf, View(), during[i..]) == CloseAll(conf, old(View()), during)
      {
        OnDisconnected(during[i].x, during[i].bad);
      }
    }

    method OnEvent(failed: bool, aov: Aov, during: seq<Close>, ex: bool)
      requires spool.conf == conf && aov in pend
      modifies this, spool
      ensures failed ==> View() == FailedEvent(conf, old(View()), aov, ex)
      ensures !failed ==> View() == Ended(conf, CloseAll(conf, Began(old(View()), aov), during), aov, ex)
    {
      hide Accept, AcceptAll, CloseAll;
      if failed {
        spool.PushSession(pend[aov]);
        pend := pend - {aov};
      } else {
        BeginEvent(aov);
        Callback(during);
      }
      EndEvent(aov, ex);
    }
  }

}
