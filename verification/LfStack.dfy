/** `LFStack`: the counted compare-and-swap stack, every load, store and swap a step of its own. */
module LfStack {
  import opened Options
  import opened Bytes

  type Tid = nat
  type Node = nat

  const TWO64: nat := TWO32 * TWO32

  /** Where a thread stands in `push` or `pop`, with the values it has loaded. */
  datatype Pc =
    | Idle
    | PushLoad(n: Node) | PushStore(n: Node, seen: Option<Node>) | PushCas(n: Node, seen: Option<Node>) | PushInc
    | PopLoad | PopLoadCnt(seen: Option<Node>) | PopLoadNext(top: Node, cnt: nat)
    | PopCas(top: Node, cnt: nat, nxt: Option<Node>) | PopDec(n: Node) | PopClear(n: Node)

  /** Who has a node: the users of the stack, the stack, or the call a thread is in. */
  datatype Own = Users | Stacked | With(t: Tid)

  /** `head_->ptr_`, `head_->pop_cnt_`, `cnt_` and every node's `next_`; `own` is bookkeeping. */
  datatype St = St(ptr: Option<Node>, popCnt: nat, cnt: u32, next: seq<Option<Node>>, thr: seq<Pc>, own: seq<Own>)

  /** `guarded`: the users do not push a node again while another `pop` still holds it as its loaded head. */
  datatype Cfg = Cfg(threads: nat, nodes: nat, guarded: bool)

  datatype Op = CallPush(n: Node) | CallPop | Go

  datatype Step = Step(t: Tid, op: Op)

  function Init(c: Cfg): St {
    St(None, 0, 0, seq(c.nodes, i => None), seq(c.threads, i => Idle), seq(c.nodes, i => Users))
  }

  predicate WellFormed(c: Cfg, s: St) { |s.next| == |s.own| == c.nodes && |s.thr| == c.threads }

  predicate ValidNode(s: St, p: Option<Node>) { p.None? || (p.value < |s.next| && p.value < |s.own|) }

  /** The nodes a thread's step touches exist. */
  predicate ValidPc(s: St, pc: Pc) {
    && (pc.PushLoad? || pc.PushStore? || pc.PushCas? || pc.PopDec? || pc.PopClear? ==> ValidNode(s, Some(pc.n)))
    && (pc.PushStore? || pc.PushCas? || pc.PopLoadCnt? ==> ValidNode(s, pc.seen))
    && (pc.PopLoadNext? || pc.PopCas? ==> ValidNode(s, Some(pc.top)))
    && (pc.PopCas? ==> ValidNode(s, pc.nxt))
  }

  /** The pop has loaded `n` as the head and not finished with it. */
  predicate Holds(pc: Pc, n: Node) {
    (pc.PopLoadCnt? && pc.seen == Some(n)) || ((pc.PopLoadNext? || pc.PopCas?) && pc.top == n)
  }

  /** The swap of a `push` that succeeds and links its node. */
  predicate Links(s: St, t: Tid) {
    t < |s.thr| && s.thr[t].PushCas? && s.ptr == s.thr[t].seen
  }

  ghost predicate HeldByOther(s: St, t: Tid, n: Node) {
    exists u :: 0 <= u < |s.thr| && u != t && Holds(s.thr[u], n)
  }

  ghost predicate Enabled(c: Cfg, s: St, l: Step) {
    && l.t < |s.thr| && ValidPc(s, s.thr[l.t])
    && match l.op
       case CallPush(n) => s.thr[l.t].Idle? && n < |s.own| && s.own[n] == Users
       case CallPop => s.thr[l.t].Idle?
       case Go => !s.thr[l.t].Idle? && (c.guarded && Links(s, l.t) ==> !HeldByOther(s, l.t, s.thr[l.t].n))
  }

  function Apply(s: St, l: Step): St
    requires l.t < |s.thr| && ValidPc(s, s.thr[l.t])
    requires l.op.CallPush? ==> l.op.n < |s.own|
  {
    match l.op
    case CallPush(n) => s.(thr := s.thr[l.t := PushLoad(n)], own := s.own[n := With(l.t)])
    case CallPop => s.(thr := s.thr[l.t := PopLoad])
    case Go => GoOn(s, l.t)
  }

  /** The next statement of the call thread `t` is in. */
  function GoOn(s: St, t: Tid): St
    requires t < |s.thr| && ValidPc(s, s.thr[t])
  {
    match s.thr[t]
    case Idle => s
    case PushLoad(n) => s.(thr := s.thr[t := PushStore(n, s.ptr)])
    case PushStore(n, p) => s.(next := s.next[n := p], thr := s.thr[t := PushCas(n, p)])
    case PushCas(n, p) =>
      if s.ptr == p then s.(ptr := Some(n), own := s.own[n := Stacked], thr := s.thr[t := PushInc])
      else s.(thr := s.thr[t := PushLoad(n)])
    case PushInc => s.(cnt := (s.cnt + 1) % TWO32, thr := s.thr[t := Idle])
    case PopLoad => s.(thr := s.thr[t := PopLoadCnt(s.ptr)])
    case PopLoadCnt(p) => s.(thr := s.thr[t := if p.None? then Idle else PopLoadNext(p.value, s.popCnt)])
    case PopLoadNext(p, k) => s.(thr := s.thr[t := PopCas(p, k, s.next[p])])
    case PopCas(p, k, nx) =>
      if s.ptr == Some(p) && s.popCnt == k then
        s.(ptr := nx, popCnt := (k + 1) % TWO64, own := s.own[p := With(t)], thr := s.thr[t := PopDec(p)])
      else s.(thr := s.thr[t := PopLoad])
    case PopDec(p) => s.(cnt := (s.cnt + TWO32 - 1) % TWO32, thr := s.thr[t := PopClear(p)])
    case PopClear(p) => s.(next := s.next[p := None], own := s.own[p := Users], thr := s.thr[t := Idle])
  }

  ghost predicate CanRun(c: Cfg, ls: seq<Step>)
    decreases |ls|, 0
  {
    ls == [] || (CanRun(c, ls[..|ls| - 1]) && Enabled(c, Run(c, ls[..|ls| - 1]), ls[|ls| - 1]))
  }

  ghost function Run(c: Cfg, ls: seq<Step>): St
    requires CanRun(c, ls)
    decreases |ls|, 1
  {
    if ls == [] then Init(c) else Apply(Run(c, ls[..|ls| - 1]), ls[|ls| - 1])
  }

  // ---- the sequential stack

  /** What a step does to a stack of nodes, top last; a `pop` that returns null takes effect where it loads the head. */
  datatype Act = Tau | Pushed(n: Node) | Popped(n: Node) | SawEmpty

  function Label(s: St, l: Step): Act
    requires l.t < |s.thr|
  {
    var pc := s.thr[l.t];
    if !l.op.Go? then Tau
    else if pc.PushCas? && s.ptr == pc.seen then Pushed(pc.n)
    else if pc.PopCas? && s.ptr == Some(pc.top) && s.popCnt == pc.cnt then Popped(pc.top)
    else if pc.PopLoad? && s.ptr.None? then SawEmpty
    else Tau
  }

  /** The last-in-first-out stack; `None` when it could not do this. */
  function Lifo(stk: seq<Node>, a: Act): Option<seq<Node>> {
    match a
    case Tau => Some(stk)
    case Pushed(n) => Some(stk + [n])
    case Popped(n) => if stk != [] && stk[|stk| - 1] == n then Some(stk[..|stk| - 1]) else None
    case SawEmpty => if stk == [] then Some(stk) else None
  }

  /** The sequential stack after everything a run did, in the order it took effect. */
  ghost function Replay(c: Cfg, ls: seq<Step>): Option<seq<Node>>
    requires CanRun(c, ls)
  {
    if ls == [] then Some([])
    else
      var front := ls[..|ls| - 1];
      match Replay(c, front)
      case None => None
      case Some(stk) => Lifo(stk, Label(Run(c, front), ls[|ls| - 1]))
  }

  function Top(stk: seq<Node>): Option<Node> { if stk == [] then None else Some(stk[|stk| - 1]) }

  /** Following `next_` from `ptr` visits exactly `stk`, top first. */
  predicate Chain(next: seq<Option<Node>>, ptr: Option<Node>, stk: seq<Node>)
    decreases |stk|
  {
    ptr == Top(stk)
    && (stk != [] ==> ptr.value < |next| && Chain(next, next[ptr.value], stk[..|stk| - 1]))
  }

  /** The run is one of the sequential stack, and the chain from the head is that stack. */
  ghost predicate Linearised(c: Cfg, ls: seq<Step>)
    requires CanRun(c, ls)
  {
    Replay(c, ls).Some? && Chain(Run(c, ls).next, Run(c, ls).ptr, Replay(c, ls).value)
  }

  // ---- the invariant

  predicate Carries(pc: Pc, n: Node) {
    (pc.PushLoad? || pc.PushStore? || pc.PushCas? || pc.PopDec? || pc.PopClear?) && pc.n == n
  }

  /** What thread `u` knows. A pop that has read `next_` of a node still in the stack has read it right. */
  predicate Local(s: St, u: Tid, pc: Pc) {
    && ValidPc(s, pc)
    && (pc.PushLoad? || pc.PushStore? || pc.PushCas? || pc.PopDec? || pc.PopClear? ==> s.own[pc.n] == With(u))
    && (pc.PushCas? ==> s.next[pc.n] == pc.seen)
    && (pc.PopCas? && s.own[pc.top] == Stacked ==> pc.nxt == s.next[pc.top])
  }

  /** Increments of `cnt_` still to come, less decrements. */
  function Owing(thr: seq<Pc>): int {
    if thr == [] then 0 else Owing(thr[..|thr| - 1]) + OwingOne(thr[|thr| - 1])
  }

  function OwingOne(pc: Pc): int { if pc.PushInc? then 1 else if pc.PopDec? then -1 else 0 }

  function Below(stk: seq<Node>, i: nat): Option<Node>
    requires i <= |stk|
  {
    if i == 0 then None else Some(stk[i - 1])
  }

  /** The chain links the nodes of `stk`, which are exactly the stacked ones, without repetition. */
  ghost predicate Linked(next: seq<Option<Node>>, own: seq<Own>, stk: seq<Node>)
    requires |own| == |next|
  {
    && (forall i :: 0 <= i < |stk| ==> stk[i] < |next| && own[stk[i]] == Stacked)
    && (forall i {:trigger Below(stk, i)} :: 0 <= i < |stk| ==> next[stk[i]] == Below(stk, i))
    && (forall i, j :: 0 <= i < j < |stk| ==> stk[i] != stk[j])
    && (forall n :: 0 <= n < |own| && own[n] == Stacked ==> n in stk)
  }

  ghost predicate NextExist(s: St) {
    ValidNode(s, s.ptr) && forall n :: 0 <= n < |s.next| ==> ValidNode(s, s.next[n])
  }

  ghost predicate Carried(s: St) {
    forall n :: 0 <= n < |s.own| && s.own[n].With? ==> s.own[n].t < |s.thr| && Carries(s.thr[s.own[n].t], n)
  }

  predicate Counted(s: St, stk: seq<Node>) { (s.cnt + Owing(s.thr) - |stk|) % TWO32 == 0 }

  ghost predicate Inv(c: Cfg, s: St, stk: seq<Node>) {
    && WellFormed(c, s)
    && s.ptr == Top(stk) && Linked(s.next, s.own, stk) && Counted(s, stk) && Carried(s) && NextExist(s)
    && forall u :: 0 <= u < |s.thr| ==> Local(s, u, s.thr[u])
  }

  /** No pop is about to swap in a `next_` of `n` that differs from the one `n` is linked with now. */
  ghost predicate Clean(s: St, l: Step) {
    l.op.Go? && Links(s, l.t) ==>
      forall u :: 0 <= u < |s.thr| && s.thr[u].PopCas? && s.thr[u].top == s.thr[l.t].n ==>
        s.thr[u].nxt == s.thr[l.t].seen
  }

  // ---- a step keeps it

  lemma TopStacked(s: St, stk: seq<Node>)
    requires |s.own| == |s.next| && Linked(s.next, s.own, stk) && s.ptr == Top(stk) && stk != []
    ensures s.ptr.value < |s.own| && s.own[s.ptr.value] == Stacked
  {
  }

  lemma OtherKeeps(c: Cfg, s: St, stk: seq<Node>, l: Step, u: Tid)
    requires Inv(c, s, stk) && Enabled(c, s, l) && Clean(s, l) && u < |s.thr| && u != l.t
    ensures Local(Apply(s, l), u, s.thr[u])
  {
    hide Linked, Carried;
    if stk != [] { TopStacked(s, stk); }
    assert Local(s, l.t, s.thr[l.t]) && Local(s, u, s.thr[u]);
  }

  lemma SelfKeeps(c: Cfg, s: St, stk: seq<Node>, l: Step)
    requires Inv(c, s, stk) && Enabled(c, s, l)
    ensures Local(Apply(s, l), l.t, Apply(s, l).thr[l.t])
  {
    hide Linked, Carried;
    assert Local(s, l.t, s.thr[l.t]);
  }

  lemma CarriedKept(c: Cfg, s: St, stk: seq<Node>, l: Step)
    requires Inv(c, s, stk) && Enabled(c, s, l)
    ensures Carried(Apply(s, l))
  {
    hide Linked;
    assert Local(s, l.t, s.thr[l.t]);
  }

  lemma {:induction false} OwingUpdate(thr: seq<Pc>, t: Tid, pc: Pc)
    requires t < |thr|
    ensures Owing(thr[t := pc]) == Owing(thr) - OwingOne(thr[t]) + OwingOne(pc)
  {
    var n := |thr| - 1;
    if t == n {
      assert thr[t := pc][..n] == thr[..n];
    } else {
      assert thr[t := pc][..n] == thr[..n][t := pc];
      OwingUpdate(thr[..n], t, pc);
    }
  }

  /** The step is one the sequential stack can take. */
  lemma LabelFits(c: Cfg, s: St, stk: seq<Node>, l: Step)
    requires Inv(c, s, stk) && Enabled(c, s, l)
    ensures Lifo(stk, Label(s, l)).Some?
  {
    hide Linked, Carried;
  }

  /** Nodes in the stack keep their links. */
  lemma LinkedFrame(next: seq<Option<Node>>, own: seq<Own>, next': seq<Option<Node>>, own': seq<Own>, stk: seq<Node>)
    requires |own| == |next| == |own'| == |next'| && Linked(next, own, stk)
    requires forall n :: 0 <= n < |own| ==> (own[n] == Stacked <==> own'[n] == Stacked)
    requires forall n :: 0 <= n < |own| && own[n] == Stacked ==> next'[n] == next[n]
    ensures Linked(next', own', stk)
  {
    hide Below;
  }

  lemma BelowPrefix(stk: seq<Node>, n: Node)
    ensures forall i :: 0 <= i <= |stk| ==> Below(stk + [n], i) == Below(stk, i)
    ensures Below(stk, |stk|) == Top(stk)
  {
  }

  lemma LinkedPush(next: seq<Option<Node>>, own: seq<Own>, stk: seq<Node>, n: Node)
    requires |own| == |next| && Linked(next, own, stk) && n < |own| && own[n] != Stacked && next[n] == Top(stk)
    ensures Linked(next, own[n := Stacked], stk + [n])
  {
    hide Below;
    BelowPrefix(stk, n);
    var stk' := stk + [n];
    forall m | 0 <= m < |own| && own[n := Stacked][m] == Stacked ensures m in stk' {
      assert m == stk'[|stk|] || m in stk;
    }
  }

  lemma LinkedPop(next: seq<Option<Node>>, own: seq<Own>, stk: seq<Node>, n: Node, t: Tid)
    requires |own| == |next| && Linked(next, own, stk + [n])
    ensures n < |own| && next[n] == Top(stk) && Linked(next, own[n := With(t)], stk)
  {
    hide Below;
    BelowPrefix(stk, n);
    var stk' := stk + [n];
    assert stk'[|stk|] == n;
    assert forall i :: 0 <= i < |stk| ==> stk[i] == stk'[i];
    forall m | 0 <= m < |own| && own[n := With(t)][m] == Stacked ensures m in stk {
      assert m in stk' && m != n;
    }
  }

  lemma LinkedKept(c: Cfg, s: St, stk: seq<Node>, l: Step)
    requires Inv(c, s, stk) && Enabled(c, s, l)
    ensures Lifo(stk, Label(s, l)).Some?
    ensures var s', stk' := Apply(s, l), Lifo(stk, Label(s, l)).value;
            s'.ptr == Top(stk') && Linked(s'.next, s'.own, stk')
  {
    hide Linked;
    LabelFits(c, s, stk, l);
    if stk != [] { TopStacked(s, stk); }
    assert Local(s, l.t, s.thr[l.t]);
    var s', a := Apply(s, l), Label(s, l);
    match a {
      case Pushed(n) => LinkedPush(s.next, s.own, stk, n);
      case Popped(n) =>
        assert stk == stk[..|stk| - 1] + [n];
        LinkedPop(s.next, s.own, stk[..|stk| - 1], n, l.t);
      case _ => LinkedFrame(s.next, s.own, s'.next, s'.own, stk);
    }
  }

  /** What a step adds to `cnt_` and what it adds to the length differ by what its thread then owes. */
  lemma StepBalances(c: Cfg, s: St, stk: seq<Node>, l: Step)
    requires WellFormed(c, s) && Enabled(c, s, l) && Lifo(stk, Label(s, l)).Some?
    ensures var s', stk' := Apply(s, l), Lifo(stk, Label(s, l)).value;
            var owes := |stk'| - |stk| + OwingOne(s.thr[l.t]);
            && |s'.thr| == |s.thr| && s'.thr == s.thr[l.t := s'.thr[l.t]]
            && (|| (s'.cnt == s.cnt && OwingOne(s'.thr[l.t]) == owes)
                || (s'.cnt == (s.cnt + 1) % TWO32 && OwingOne(s'.thr[l.t]) == owes - 1)
                || (s'.cnt == (s.cnt + TWO32 - 1) % TWO32 && OwingOne(s'.thr[l.t]) == owes + 1))
  {
  }

  lemma CountFollows(cnt: int, cnt': int, rest: int, rest': int)
    requires (cnt + rest) % TWO32 == 0
    requires || (cnt' == cnt && rest' == rest) || (cnt' == (cnt + 1) % TWO32 && rest' == rest - 1)
             || (cnt' == (cnt + TWO32 - 1) % TWO32 && rest' == rest + 1)
    ensures (cnt' + rest') % TWO32 == 0
  {
    AddMod(cnt + 1, rest');
    AddMod(cnt + TWO32 - 1, rest');
  }

  lemma CountedKept(c: Cfg, s: St, stk: seq<Node>, l: Step)
    requires WellFormed(c, s) && Counted(s, stk) && Enabled(c, s, l) && Lifo(stk, Label(s, l)).Some?
    ensures Counted(Apply(s, l), Lifo(stk, Label(s, l)).value)
  {
    hide Owing, OwingOne, Apply, Label, Lifo;
    var s', stk' := Apply(s, l), Lifo(stk, Label(s, l)).value;
    StepBalances(c, s, stk, l);
    OwingUpdate(s.thr, l.t, s'.thr[l.t]);
    CountFollows(s.cnt, s'.cnt, Owing(s.thr) - |stk|, Owing(s'.thr) - |stk'|);
  }

  lemma NextExistKept(c: Cfg, s: St, stk: seq<Node>, l: Step)
    requires Inv(c, s, stk) && Enabled(c, s, l)
    ensures NextExist(Apply(s, l))
  {
    hide Linked, Carried;
    assert Local(s, l.t, s.thr[l.t]);
  }

  /** A clean step is one of the sequential stack, and keeps the invariant. */
  lemma StepKeeps(c: Cfg, s: St, stk: seq<Node>, l: Step)
    requires Inv(c, s, stk) && Enabled(c, s, l) && Clean(s, l)
    ensures Lifo(stk, Label(s, l)).Some? && Inv(c, Apply(s, l), Lifo(stk, Label(s, l)).value)
  {
    hide Linked, Carried, NextExist, Local, Counted, Clean;
    LinkedKept(c, s, stk, l);
    CountedKept(c, s, stk, l);
    CarriedKept(c, s, stk, l);
    NextExistKept(c, s, stk, l);
    var s' := Apply(s, l);
    forall u | 0 <= u < |s'.thr| ensures Local(s', u, s'.thr[u]) {
      if u == l.t { SelfKeeps(c, s, stk, l); } else { OtherKeeps(c, s, stk, l, u); }
    }
  }

  // ---- runs

  /** Every step that links a node was clean. */
  ghost predicate AllClean(c: Cfg, ls: seq<Step>)
    requires CanRun(c, ls)
  {
    ls == [] || (AllClean(c, ls[..|ls| - 1]) && Clean(Run(c, ls[..|ls| - 1]), ls[|ls| - 1]))
  }

  lemma {:induction false} OwingIdle(thr: seq<Pc>)
    requires forall t :: 0 <= t < |thr| ==> thr[t].Idle?
    ensures Owing(thr) == 0
  {
    if thr != [] { OwingIdle(thr[..|thr| - 1]); }
  }

  lemma {:induction false} RunKeeps(c: Cfg, ls: seq<Step>)
    requires CanRun(c, ls) && AllClean(c, ls)
    ensures Replay(c, ls).Some? && Inv(c, Run(c, ls), Replay(c, ls).value)
  {
    if ls == [] {
      OwingIdle(Init(c).thr);
    } else {
      var front := ls[..|ls| - 1];
      RunKeeps(c, front);
      StepKeeps(c, Run(c, front), Replay(c, front).value, ls[|ls| - 1]);
    }
  }

  lemma {:induction false} LinkedIsChain(next: seq<Option<Node>>, own: seq<Own>, stk: seq<Node>, i: nat)
    requires |own| == |next| && Linked(next, own, stk) && i <= |stk|
    ensures Chain(next, Below(stk, i), stk[..i])
  {
    if i > 0 {
      LinkedIsChain(next, own, stk, i - 1);
      assert stk[..i][..i - 1] == stk[..i - 1];
      assert next[stk[i - 1]] == Below(stk, i - 1);
    }
  }

  /** For any number of threads and any interleaving of the loads, stores and swaps: if every link is clean, the run is
      one of a sequential stack, and the chain from the head is that stack. */
  lemma CleanRunsLinearise(c: Cfg, ls: seq<Step>)
    requires CanRun(c, ls) && AllClean(c, ls)
    ensures Linearised(c, ls)
  {
    hide Local, NextExist, Carried, Counted, Chain, Linked;
    RunKeeps(c, ls);
    var s, stk := Run(c, ls), Replay(c, ls).value;
    LinkedIsChain(s.next, s.own, stk, |stk|);
    assert stk[..|stk|] == stk;
  }

  /** Every node is in exactly one place: with the users, in the stack once, or in the one call that carries it. */
  ghost predicate Partition(s: St, stk: seq<Node>) {
    && (forall n :: 0 <= n < |s.own| ==> (s.own[n] == Stacked <==> n in stk))
    && (forall i, j :: 0 <= i < j < |stk| ==> stk[i] != stk[j])
    && (forall n, t :: 0 <= n < |s.own| && 0 <= t < |s.thr| ==> (s.own[n] == With(t) <==> Carries(s.thr[t], n)))
    && (forall n :: 0 <= n < |s.own| && s.own[n].With? ==> s.own[n].t < |s.thr|)
  }

  /** No node is lost, and none is in two hands, so none is popped twice. */
  lemma NoNodeLost(c: Cfg, ls: seq<Step>)
    requires CanRun(c, ls) && AllClean(c, ls)
    ensures Replay(c, ls).Some? && |Run(c, ls).own| == c.nodes && Partition(Run(c, ls), Replay(c, ls).value)
  {
    hide NextExist, Counted, Below;
    RunKeeps(c, ls);
    var s := Run(c, ls);
    forall n, t | 0 <= n < |s.own| && 0 <= t < |s.thr| ensures s.own[n] == With(t) <==> Carries(s.thr[t], n) {
      assert Local(s, t, s.thr[t]);
    }
  }

  lemma SameRemainder(a: u32, b: nat)
    requires (a - b) % TWO32 == 0
    ensures a == b % TWO32
  {
  }

  // ---- a thread left alone

  lemma StaysValid(s: St, t: Tid)
    requires t < |s.thr| && |s.own| == |s.next| && NextExist(s) && ValidPc(s, s.thr[t])
    ensures var s' := GoOn(s, t);
            |s'.thr| == |s.thr| && |s'.own| == |s'.next| && NextExist(s') && ValidPc(s', s'.thr[t])
  {
  }

  /** The state after `n` more statements of thread `t`. */
  ghost function Alone(s: St, t: Tid, n: nat): St
    requires t < |s.thr| && |s.own| == |s.next| && NextExist(s) && ValidPc(s, s.thr[t])
    decreases n
  {
    StaysValid(s, t);
    if n == 0 then s else Alone(GoOn(s, t), t, n - 1)
  }

  /** How many statements a thread at `pc` is at most from its return, if its swap succeeds. */
  function ToGo(pc: Pc): nat {
    match pc
    case Idle => 0
    case PushInc => 1
    case PushCas(_, _) => 2
    case PushStore(_, _) => 3
    case PushLoad(_) => 4
    case PopClear(_) => 1
    case PopDec(_) => 2
    case PopCas(_, _, _) => 3
    case PopLoadNext(_, _) => 4
    case PopLoadCnt(_) => 5
    case PopLoad => 6
  }

  /** What the thread has loaded is still so. */
  predicate Current(s: St, pc: Pc) {
    match pc
    case PushStore(_, p) => p == s.ptr
    case PushCas(_, p) => p == s.ptr
    case PopLoadCnt(p) => p == s.ptr
    case PopLoadNext(p, k) => Some(p) == s.ptr && k == s.popCnt
    case PopCas(p, k, _) => Some(p) == s.ptr && k == s.popCnt
    case _ => true
  }

  lemma StepToGo(s: St, t: Tid)
    requires t < |s.thr| && ValidPc(s, s.thr[t]) && Current(s, s.thr[t]) && !s.thr[t].Idle?
    ensures var s' := GoOn(s, t); |s'.thr| == |s.thr| && Current(s', s'.thr[t]) && ToGo(s'.thr[t]) < ToGo(s.thr[t])
  {
  }

  lemma {:induction false} CurrentFinishes(s: St, t: Tid) returns (n: nat)
    requires t < |s.thr| && |s.own| == |s.next| && NextExist(s) && ValidPc(s, s.thr[t]) && Current(s, s.thr[t])
    ensures n <= ToGo(s.thr[t]) && |Alone(s, t, n).thr| == |s.thr| && Alone(s, t, n).thr[t].Idle?
    decreases ToGo(s.thr[t])
  {
    hide GoOn, Current, NextExist, ValidPc, ToGo;
    n := 0;
    if !s.thr[t].Idle? {
      StaysValid(s, t);
      StepToGo(s, t);
      n := CurrentFinishes(GoOn(s, t), t);
      n := n + 1;
    }
  }

  /** How many statements a thread at `pc` is at most from its next load. */
  function ToLoad(pc: Pc): nat {
    match pc
    case PushStore(_, _) => 2
    case PushCas(_, _) => 1
    case PopLoadCnt(_) => 3
    case PopLoadNext(_, _) => 2
    case PopCas(_, _, _) => 1
    case _ => 0
  }

  lemma StepToLoad(s: St, t: Tid)
    requires t < |s.thr| && ValidPc(s, s.thr[t]) && !Current(s, s.thr[t])
    ensures var s' := GoOn(s, t);
            && |s'.thr| == |s.thr| && ToLoad(s'.thr[t]) < ToLoad(s.thr[t]) <= 3 && ToGo(s'.thr[t]) <= 6
  {
  }

  /** Up to the next load, or nothing when what is loaded is current. */
  lemma {:induction false} Reload(s: St, t: Tid) returns (n: nat)
    requires t < |s.thr| && |s.own| == |s.next| && NextExist(s) && ValidPc(s, s.thr[t])
    ensures var s' := Alone(s, t, n);
            && t < |s'.thr| == |s.thr| && |s'.own| == |s'.next| && NextExist(s') && ValidPc(s', s'.thr[t])
            && Current(s', s'.thr[t]) && n <= ToLoad(s.thr[t]) && ToGo(s'.thr[t]) <= 6
    decreases ToLoad(s.thr[t])
  {
    hide GoOn, Current, NextExist, ValidPc, ToLoad;
    n := 0;
    AtMostSix(s.thr[t]);
    if !Current(s, s.thr[t]) {
      StaysValid(s, t);
      StepToLoad(s, t);
      n := Reload(GoOn(s, t), t);
      n := n + 1;
    }
  }

  lemma AtMostSix(pc: Pc)
    ensures ToGo(pc) <= 6 && ToLoad(pc) <= 3
  {
  }

  /** Where a swap fails the thread loads again; so a thread nobody interferes with any more finishes its call, wherever
      in it it is, whatever others have done since it loaded, with at most one failing swap. */
  lemma FinishesAlone(s: St, t: Tid) returns (n: nat)
    requires t < |s.thr| && |s.own| == |s.next| && NextExist(s) && ValidPc(s, s.thr[t])
    ensures n <= 9 && |Alone(s, t, n).thr| == |s.thr| && Alone(s, t, n).thr[t].Idle?
  {
    AtMostSix(s.thr[t]);
    n := Reload(s, t);
    var s' := Alone(s, t, n);
    var m := CurrentFinishes(s', t);
    AloneTwice(s, t, n, m);
    n := n + m;
  }

  lemma {:induction false} AloneTwice(s: St, t: Tid, n: nat, m: nat)
    requires t < |s.thr| && |s.own| == |s.next| && NextExist(s) && ValidPc(s, s.thr[t])
    ensures var s' := Alone(s, t, n);
            && t < |s'.thr| == |s.thr| && |s'.own| == |s'.next| && NextExist(s') && ValidPc(s', s'.thr[t])
            && Alone(s, t, n + m) == Alone(s', t, m)
    decreases n
  {
    hide GoOn, NextExist, ValidPc;
    if n > 0 {
      StaysValid(s, t);
      AloneTwice(GoOn(s, t), t, n - 1, m);
    }
  }

  // ---- each call once

  /** The call the thread is in has yet to take effect. */
  predicate Waits(pc: Pc) {
    || pc.PushLoad? || pc.PushStore? || pc.PushCas?
    || pc.PopLoad? || (pc.PopLoadCnt? && pc.seen.Some?) || pc.PopLoadNext? || pc.PopCas?
  }

  /** The calls thread `t` has made. */
  function Calls(ls: seq<Step>, t: Tid): nat {
    if ls == [] then 0
    else Calls(ls[..|ls| - 1], t) + if ls[|ls| - 1].t == t && !ls[|ls| - 1].op.Go? then 1 else 0
  }

  /** What thread `t` has done to the sequential stack, a look at the empty one included. */
  ghost function Effects(c: Cfg, ls: seq<Step>, t: Tid): nat
    requires CanRun(c, ls)
  {
    if ls == [] then 0
    else
      var front, l := ls[..|ls| - 1], ls[|ls| - 1];
      Effects(c, front, t) + if l.t == t && !Label(Run(c, front), l).Tau? then 1 else 0
  }

  /** How often a node was popped. */
  ghost function Pops(c: Cfg, ls: seq<Step>): nat
    requires CanRun(c, ls)
  {
    if ls == [] then 0
    else
      var front, l := ls[..|ls| - 1], ls[|ls| - 1];
      Pops(c, front) + if Label(Run(c, front), l).Popped? then 1 else 0
  }

  lemma StepWaits(c: Cfg, s: St, l: Step)
    requires Enabled(c, s, l)
    ensures var s' := Apply(s, l);
            && |s'.thr| == |s.thr| && s'.thr == s.thr[l.t := s'.thr[l.t]]
            && (if Waits(s'.thr[l.t]) then 1 else 0) + (if Label(s, l).Tau? then 0 else 1)
               == (if Waits(s.thr[l.t]) then 1 else 0) + (if l.op.Go? then 0 else 1)
  {
  }

  /** Each call takes effect exactly once, between its beginning and its return: also where links are not clean. */
  lemma {:induction false} EachCallOnce(c: Cfg, ls: seq<Step>, t: Tid)
    requires CanRun(c, ls)
    ensures |Run(c, ls).thr| == c.threads
    ensures Calls(ls, t) == Effects(c, ls, t) + if t < c.threads && Waits(Run(c, ls).thr[t]) then 1 else 0
  {
    hide Enabled, Apply, Label, Waits;
    if ls == [] {
      NobodyWaits(c);
    } else {
      EachCallOnce(c, ls[..|ls| - 1], t);
      StepWaits(c, Run(c, ls[..|ls| - 1]), ls[|ls| - 1]);
      StepThread(c, Run(c, ls[..|ls| - 1]), ls[|ls| - 1]);
    }
  }

  lemma StepThread(c: Cfg, s: St, l: Step)
    requires Enabled(c, s, l)
    ensures l.t < |s.thr|
  {
  }

  lemma NobodyWaits(c: Cfg)
    ensures forall t :: 0 <= t < c.threads ==> !Waits(Init(c).thr[t])
  {
  }

  /** `pop_cnt_` counts them, modulo the width of `size_t`. */
  lemma {:induction false} PopCount(c: Cfg, ls: seq<Step>)
    requires CanRun(c, ls)
    ensures Run(c, ls).popCnt == Pops(c, ls) % TWO64
  {
    if ls != [] {
      hide Init;
      PopCount(c, ls[..|ls| - 1]);
      NextPop(Pops(c, ls[..|ls| - 1]));
    }
  }

  lemma NextPop(n: nat)
    ensures (n % TWO64 + 1) % TWO64 == (n + 1) % TWO64
  {
  }

  /** When no call is under way, `cnt_` is the number of nodes in the stack modulo 2^32. */
  lemma CountAtRest(c: Cfg, ls: seq<Step>)
    requires CanRun(c, ls) && AllClean(c, ls)
    requires forall t :: 0 <= t < |Run(c, ls).thr| ==> Run(c, ls).thr[t].Idle?
    ensures Replay(c, ls).Some? && Run(c, ls).cnt == |Replay(c, ls).value| % TWO32
  {
    hide Local, NextExist, Carried, Linked, Run, CanRun, Replay, AllClean;
    RunKeeps(c, ls);
    OwingIdle(Run(c, ls).thr);
    SameRemainder(Run(c, ls).cnt, |Replay(c, ls).value|);
  }

  // ---- when runs are clean

  lemma GuardedIsClean(c: Cfg, s: St, l: Step)
    requires (c.guarded || |s.thr| < 2) && Enabled(c, s, l)
    ensures Clean(s, l)
  {
    if l.op.Go? && Links(s, l.t) {
      forall u | 0 <= u < |s.thr| && s.thr[u].PopCas? ensures s.thr[u].top != s.thr[l.t].n {
        assert u != l.t && (s.thr[u].top == s.thr[l.t].n ==> Holds(s.thr[u], s.thr[l.t].n));
      }
    }
  }

  /** With fewer than two nodes there is never anything below the top. */
  ghost predicate Flat(s: St) {
    && (forall n :: 0 <= n < |s.next| ==> s.next[n].None?)
    && (forall u :: 0 <= u < |s.thr| ==> FlatPc(s.thr[u]))
  }

  predicate FlatPc(pc: Pc) { (pc.PushStore? || pc.PushCas? ==> pc.seen.None?) && (pc.PopCas? ==> pc.nxt.None?) }

  lemma FlatKept(c: Cfg, s: St, stk: seq<Node>, l: Step)
    requires c.nodes < 2 && Flat(s) && Inv(c, s, stk) && Enabled(c, s, l)
    ensures Clean(s, l) && Flat(Apply(s, l))
  {
    hide Linked, Carried, Counted;
    if stk != [] { TopStacked(s, stk); }
    assert Local(s, l.t, s.thr[l.t]) && FlatPc(s.thr[l.t]);
    assert Links(s, l.t) ==> forall u :: 0 <= u < |s.thr| ==> FlatPc(s.thr[u]);
  }

  lemma {:induction false} FewNodesClean(c: Cfg, ls: seq<Step>)
    requires CanRun(c, ls) && c.nodes < 2
    ensures AllClean(c, ls) && Flat(Run(c, ls))
  {
    if ls != [] {
      var front := ls[..|ls| - 1];
      FewNodesClean(c, front);
      RunKeeps(c, front);
      FlatKept(c, Run(c, front), Replay(c, front).value, ls[|ls| - 1]);
    }
  }

  lemma {:induction false} ThreadsStay(c: Cfg, ls: seq<Step>)
    requires CanRun(c, ls)
    ensures |Run(c, ls).thr| == c.threads
  {
    if ls != [] { ThreadsStay(c, ls[..|ls| - 1]); }
  }

  lemma {:induction false} GuardedRunsClean(c: Cfg, ls: seq<Step>)
    requires CanRun(c, ls) && (c.guarded || c.threads < 2)
    ensures AllClean(c, ls)
  {
    if ls != [] {
      var front := ls[..|ls| - 1];
      GuardedRunsClean(c, front);
      ThreadsStay(c, front);
      GuardedIsClean(c, Run(c, front), ls[|ls| - 1]);
    }
  }

  // ---- calls without interference

  lemma Extend(c: Cfg, ls: seq<Step>, l: Step) returns (ls': seq<Step>)
    requires CanRun(c, ls) && Enabled(c, Run(c, ls), l) && Replay(c, ls).Some?
    ensures ls' == ls + [l] && CanRun(c, ls') && Run(c, ls') == Apply(Run(c, ls), l)
    ensures Replay(c, ls') == Lifo(Replay(c, ls).value, Label(Run(c, ls), l))
  {
    ls' := ls + [l];
    assert ls'[..|ls|] == ls;
  }

  /** The state with thread `t` at `pc`. */
  function At(s: St, t: Tid, pc: Pc): St
    requires t < |s.thr|
  {
    s.(thr := s.thr[t := pc])
  }

  /** The next statement of the call thread `t` is in leads to `s'`. */
  predicate Goes(s: St, t: Tid, s': St) {
    t < |s.thr| && ValidPc(s, s.thr[t]) && !s.thr[t].Idle? && s' == GoOn(s, t)
  }

  lemma GoOne(c: Cfg, ls: seq<Step>, t: Tid, s': St) returns (ls': seq<Step>)
    requires CanRun(c, ls) && Replay(c, ls).Some? && !c.guarded && Goes(Run(c, ls), t, s')
    ensures CanRun(c, ls') && Run(c, ls') == s'
    ensures Replay(c, ls') == Lifo(Replay(c, ls).value, Label(Run(c, ls), Step(t, Go)))
  {
    ls' := Extend(c, ls, Step(t, Go));
  }

  /** What a `push` that nobody interferes with does. */
  function AfterPush(s: St, n: Node): St
    requires n < |s.next| && n < |s.own|
  {
    s.(ptr := Some(n), cnt := (s.cnt + 1) % TWO32, next := s.next[n := s.ptr], own := s.own[n := Stacked])
  }

  lemma LonePush(c: Cfg, ls: seq<Step>, t: Tid, n: Node) returns (ls': seq<Step>)
    requires CanRun(c, ls) && Replay(c, ls).Some? && !c.guarded
    requires var s := Run(c, ls);
             t < |s.thr| && s.thr[t].Idle? && n < |s.own| == |s.next| && s.own[n] == Users && ValidNode(s, s.ptr)
    ensures CanRun(c, ls') && Run(c, ls') == AfterPush(Run(c, ls), n)
    ensures Replay(c, ls') == Some(Replay(c, ls).value + [n])
  {
    hide CanRun, Run, Replay;
    var s := Run(c, ls);
    var s1 := At(s, t, PushLoad(n)).(own := s.own[n := With(t)]);
    ls' := Extend(c, ls, Step(t, CallPush(n)));
    ls' := GoOne(c, ls', t, At(s1, t, PushStore(n, s.ptr)));
    var s3 := At(s1, t, PushCas(n, s.ptr)).(next := s.next[n := s.ptr]);
    assert Run(c, ls').thr[t := PushCas(n, s.ptr)] == s3.thr;
    ls' := GoOne(c, ls', t, s3);
    var s4 := At(s3, t, PushInc).(ptr := Some(n), own := s.own[n := Stacked]);
    assert s3.own[n := Stacked] == s4.own;
    ls' := GoOne(c, ls', t, s4);
    assert s4.thr[t := Idle] == s.thr;
    ls' := GoOne(c, ls', t, AfterPush(s, n));
  }

  /** What a `pop` that nobody interferes with does. */
  function AfterPop(s: St): St
    requires s.ptr.Some? && ValidNode(s, s.ptr)
  {
    var n := s.ptr.value;
    s.(ptr := s.next[n], popCnt := (s.popCnt + 1) % TWO64, cnt := (s.cnt + TWO32 - 1) % TWO32,
       next := s.next[n := None], own := s.own[n := Users])
  }

  /** The loads of a `pop` that nobody interferes with. */
  lemma LonePopLoads(c: Cfg, ls: seq<Step>, t: Tid) returns (ls': seq<Step>)
    requires CanRun(c, ls) && !c.guarded && Replay(c, ls).Some?
    requires var s := Run(c, ls);
             && t < |s.thr| && s.thr[t].Idle? && s.ptr.Some? && |s.next| == |s.own| && ValidNode(s, s.ptr)
    ensures CanRun(c, ls') && Replay(c, ls') == Replay(c, ls)
    ensures var s := Run(c, ls); Run(c, ls') == At(s, t, PopCas(s.ptr.value, s.popCnt, s.next[s.ptr.value]))
  {
    hide CanRun, Run, Replay;
    var s := Run(c, ls);
    var n := s.ptr.value;
    ls' := Extend(c, ls, Step(t, CallPop));
    assert Run(c, ls').thr[t := PopLoadCnt(s.ptr)] == At(s, t, PopLoadCnt(s.ptr)).thr;
    ls' := GoOne(c, ls', t, At(s, t, PopLoadCnt(s.ptr)));
    assert Run(c, ls').thr[t := PopLoadNext(n, s.popCnt)] == At(s, t, PopLoadNext(n, s.popCnt)).thr;
    ls' := GoOne(c, ls', t, At(s, t, PopLoadNext(n, s.popCnt)));
    assert Run(c, ls').thr[t := PopCas(n, s.popCnt, s.next[n])] == At(s, t, PopCas(n, s.popCnt, s.next[n])).thr;
    ls' := GoOne(c, ls', t, At(s, t, PopCas(n, s.popCnt, s.next[n])));
  }

  lemma LonePop(c: Cfg, ls: seq<Step>, t: Tid) returns (ls': seq<Step>)
    requires CanRun(c, ls) && !c.guarded && Replay(c, ls).Some? && Replay(c, ls).value != []
    requires var s := Run(c, ls);
             && t < |s.thr| && s.thr[t].Idle? && s.ptr == Top(Replay(c, ls).value) && |s.next| == |s.own|
             && ValidNode(s, s.ptr) && ValidNode(s, s.next[s.ptr.value])
    ensures CanRun(c, ls') && Run(c, ls') == AfterPop(Run(c, ls))
    ensures Replay(c, ls') == Some(Replay(c, ls).value[..|Replay(c, ls).value| - 1])
  {
    hide CanRun, Run, Replay;
    var s := Run(c, ls);
    var n := s.ptr.value;
    ls' := LonePopLoads(c, ls, t);
    var s5 := At(s, t, PopDec(n)).(ptr := s.next[n], popCnt := (s.popCnt + 1) % TWO64, own := s.own[n := With(t)]);
    assert Run(c, ls').thr[t := PopDec(n)] == s5.thr;
    ls' := GoOne(c, ls', t, s5);
    var s6 := At(s5, t, PopClear(n)).(cnt := (s.cnt + TWO32 - 1) % TWO32);
    ls' := GoOne(c, ls', t, s6);
    assert s6.thr[t := Idle] == s.thr && s6.own[n := Users] == s.own[n := Users];
    ls' := GoOne(c, ls', t, AfterPop(s));
  }

  // ---- the unguarded stack: `ptr_` is loaded before `pop_cnt_`

  /** Two threads at rest, and the stack holds node 1 with node 0 on top. */
  lemma BothPushed(c: Cfg) returns (ls: seq<Step>)
    requires !c.guarded && c.threads >= 2 && c.nodes >= 2
    ensures CanRun(c, ls) && Replay(c, ls) == Some([1, 0])
    ensures var s := Run(c, ls);
            && WellFormed(c, s) && s.ptr == Some(0) && s.popCnt == 0 && s.next[0] == Some(1) && s.next[1].None?
            && s.thr[0].Idle? && s.thr[1].Idle? && s.own[0] == Stacked
  {
    ls := [];
    assert CanRun(c, ls) && Run(c, ls) == Init(c) && Replay(c, ls) == Some([]);
    hide CanRun, Run, Replay;
    ls := LonePush(c, ls, 0, 1);
    ls := LonePush(c, ls, 0, 0);
    assert [] + [1] + [0] == [1, 0];
  }

  /** Thread 1 has loaded the head, 0, and thread 0 has popped it since. */
  lemma HeadLoaded(c: Cfg) returns (ls: seq<Step>)
    requires !c.guarded && c.threads >= 2 && c.nodes >= 2
    ensures CanRun(c, ls) && Replay(c, ls) == Some([1])
    ensures var s := Run(c, ls);
            && WellFormed(c, s) && s.ptr == Some(1) && s.popCnt == 1 && s.next[0].None? && s.next[1].None?
            && s.thr[0].Idle? && s.thr[1] == PopLoadCnt(Some(0)) && s.own[0] == Users
  {
    hide CanRun, Run, Replay;
    ls := BothPushed(c);
    ls := Extend(c, ls, Step(1, CallPop));
    ls := Extend(c, ls, Step(1, Go));
    ls := LonePop(c, ls, 0);
    assert [1, 0][..1] == [1];
  }

  /** Without the guard, two threads and two nodes are enough to lose a node: thread 1 goes on to load the count and the
      cleared link, thread 0 pushes 0 again over 1, and thread 1's swap takes both nodes out of the chain. */
  lemma UnguardedLosesNode(c: Cfg) returns (ls: seq<Step>)
    requires !c.guarded && c.threads >= 2 && c.nodes >= 2
    ensures CanRun(c, ls) && !Linearised(c, ls)
    ensures Replay(c, ls) == Some([1]) && Run(c, ls).ptr.None?
  {
    hide CanRun, Run, Replay;
    ls := HeadLoaded(c);
    ls := Extend(c, ls, Step(1, Go));
    ls := Extend(c, ls, Step(1, Go));
    ls := LonePush(c, ls, 0, 0);
    ls := Extend(c, ls, Step(1, Go));
  }

  /** Every run of `push` and `pop` is one of a stack exactly when the users keep the guard, or there is a single
      thread, or a single node. */
  lemma LinearisesExactlyWhen(c: Cfg)
    ensures (forall ls :: CanRun(c, ls) ==> Linearised(c, ls)) <==> c.guarded || c.threads < 2 || c.nodes < 2
  {
    if c.guarded || c.threads < 2 || c.nodes < 2 {
      forall ls | CanRun(c, ls) ensures Linearised(c, ls) {
        if c.nodes < 2 { FewNodesClean(c, ls); } else { GuardedRunsClean(c, ls); }
        CleanRunsLinearise(c, ls);
      }
    } else {
      var ls := UnguardedLosesNode(c);
    }
  }
}
