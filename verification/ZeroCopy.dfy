/**
 The receive buffer as one holder among many: `on_recv` gets slices of the very block the OS keeps writing to.
 The user may keep, copy, assign, queue and drop such Bufs while receiving goes on.
 */
module ZeroCopy {
  import opened Bytes
  import opened Options
  import opened BufMemory

  /** The store, the receive window [head, tail) in the block `Recv` holds, and, as history, the bytes each Buf was
      given with. */
  datatype Z = Z(s: Store, head: nat, tail: nat, snap: map<Holder, seq<byte>>)

  function BytesOf(s: Store, h: Holder): seq<byte>
    requires h in s.bufs && Inside(s, s.bufs[h])
  {
    var sl := s.bufs[h];
    s.blocks[sl.mem][sl.off..sl.off + sl.len]
  }

  datatype Op =
    | UserGet(h: Holder, m: MemId, bytes: seq<byte>)       // a block from the pool, filled by `make_buf`
    | UserCopy(h: Holder, g: Holder) | UserAssign(h: Holder, g: Holder) | UserSwap(h: Holder, g: Holder)
    | UserDrop(h: Holder)
    | Queue(slot: Holder, h: Holder)                       // `push_back`
    | ClearSlots(batch: nat, n: nat)                       // `clear`
    | Init(m: MemId, bytes: seq<byte>)                     // `RBuf::init`
    | OsWrite(at: nat, b: byte)                            // the posted receive
    | MoveTail(n: nat)
    | Deliver(h: Holder, n: nat)                           // `copy_buf`, narrow, `on_recv`, `move_head`
    | ChangeBlock(m: MemId, room: seq<byte>)               // `change`: the new block, `room` its bytes past the data
    | Uninit

  predicate User(h: Holder) { h.Var? || h.Slot? }

  /** The kernel may write only into the room posted, [tail, unit); all other bounds are those of the code. */
  predicate CanDo(z: Z, o: Op) {
    var s := z.s;
    match o
    case UserGet(h, m, bytes) => User(h) && h !in s.bufs && CanGet(s, m)
    case UserCopy(h, g) => User(h) && User(g) && h !in s.bufs
    case UserAssign(h, g) => User(h) && User(g)
    case UserSwap(h, g) => User(h) && User(g)
    case UserDrop(h) => User(h)
    case ClearSlots(_, _) => true
    case Queue(slot, h) => slot.Slot? && h.Var? && slot !in s.bufs && h in s.bufs
    case Init(m, bytes) => Recv !in s.bufs && CanGet(s, m)
    case OsWrite(at, b) => Recv in s.bufs && z.tail <= at < s.bufs[Recv].len
    case MoveTail(n) => Recv in s.bufs && z.tail + n <= s.bufs[Recv].len
    case Deliver(h, n) => Recv in s.bufs && h.Var? && h !in s.bufs && z.head + n <= z.tail
    case ChangeBlock(m, room) => Recv in s.bufs && CanGet(s, m)
    case Uninit => Recv in s.bufs
  }

  /** What is noted of `g` is noted of `h` instead of what was. */
  function Keep<V>(snap: map<Holder, V>, h: Holder, g: Holder): map<Holder, V> {
    if g in snap then snap[h := snap[g]] else snap - {h}
  }

  function Exchange<V>(snap: map<Holder, V>, h: Holder, g: Holder): map<Holder, V> {
    if h in snap then Keep(snap, h, g)[g := snap[h]] else Keep(snap, h, g) - {g}
  }

  /** `change`: a local Buf gets the block, the data is copied in, the receive buffer takes it over. */
  function DoChange(z: Z, m: MemId, room: seq<byte>): Z
    requires ZInv(z) && CanDo(z, ChangeBlock(m, room))
  {
    var data := BytesOf(z.s, Recv)[z.head..z.tail];
    var s1 := Get(z.s, Local, m, data + room);
    var s2 := Assign(s1, Recv, Local);
    Z(Destroy(s2, Local), 0, |data|, z.snap)
  }

  /** `Buf buf = copy_buf(); buf.buf_ = head; buf.len_ = n;` */
  function DoDeliver(z: Z, h: Holder, n: nat): Z
    requires ZInv(z) && CanDo(z, Deliver(h, n))
  {
    var s1 := Copy(z.s, h, Recv);
    var s2 := s1.(bufs := s1.bufs[h := s1.bufs[h].(off := z.head, len := n)]);
    Z(s2, z.head + n, z.tail, z.snap[h := BytesOf(z.s, Recv)[z.head..z.head + n]])
  }

  function Write(bs: seq<byte>, at: nat, b: byte): (r: seq<byte>)
    requires at < |bs|
    ensures |r| == |bs| && r[at] == b && forall i :: 0 <= i < |bs| && i != at ==> r[i] == bs[i]
  {
    bs[..at] + [b] + bs[at + 1..]
  }

  function Do(z: Z, o: Op): Z
    requires ZInv(z) && CanDo(z, o)
  {
    var s := z.s;
    match o
    case UserGet(h, m, bytes) => z.(s := Get(s, h, m, bytes), snap := z.snap[h := bytes])
    case UserCopy(h, g) => z.(s := Copy(s, h, g), snap := Keep(z.snap, h, g))
    case UserAssign(h, g) => z.(s := Assign(s, h, g), snap := Keep(z.snap, h, g))
    case UserSwap(h, g) => z.(s := Swap(s, h, g), snap := Exchange(z.snap, h, g))
    case UserDrop(h) => z.(s := Destroy(s, h), snap := z.snap - {h})
    case ClearSlots(batch, n) => z.(s := ClearBatch(s, batch, n), snap := z.snap - SlotsOf(batch, n))
    case Queue(slot, h) => z.(s := PushBack(s, slot, h), snap := Keep(z.snap, slot, h) - {h})
    case Init(m, bytes) => Z(Get(s, Recv, m, bytes), 0, 0, z.snap)
    case OsWrite(at, b) =>
      var m := s.bufs[Recv].mem;
      z.(s := s.(blocks := s.blocks[m := Write(s.blocks[m], at, b)]))
    case MoveTail(n) => z.(tail := z.tail + n)
    case Deliver(h, n) => DoDeliver(z, h, n)
    case ChangeBlock(m, room) => DoChange(z, m, room)
    case Uninit => Z(Destroy(s, Recv), 0, 0, z.snap)
  }

  /** The receive buffer holds a whole block, with the window inside it. */
  ghost predicate Window(z: Z) {
    Recv in z.s.bufs ==>
      && z.s.bufs[Recv].off == 0
      && z.s.bufs[Recv].mem in z.s.blocks && z.s.bufs[Recv].len == |z.s.blocks[z.s.bufs[Recv].mem]|
      && z.head <= z.tail <= z.s.bufs[Recv].len
  }

  /** A user's Buf lies in another block than the receive buffer's, or wholly before its head. */
  predicate Clear(z: Z, h: Holder) {
    h in z.s.bufs && Recv in z.s.bufs && z.s.bufs[h].mem == z.s.bufs[Recv].mem ==>
      z.s.bufs[h].off + z.s.bufs[h].len <= z.head
  }

  /** And it reads as when it was given. */
  predicate Intact(z: Z, h: Holder) {
    h in z.s.bufs ==> Inside(z.s, z.s.bufs[h]) && h in z.snap && BytesOf(z.s, h) == z.snap[h]
  }

  ghost predicate ZInv(z: Z) {
    && Exact(z.s) && Window(z) && Local !in z.s.bufs
    && forall h :: User(h) ==> Fine(z, h)
  }

  predicate Fine(z: Z, h: Holder) { Clear(z, h) && Intact(z, h) }

  // ---- each operation keeps every Buf intact

  /** What makes `h` fine after a step: it is now what `g` was, in a block that did not change, which the receive
      window has not entered. */
  ghost predicate Follows(z: Z, z': Z, h: Holder, g: Holder) {
    && Held(z'.s.bufs, h) == Held(z.s.bufs, g)
    && (g in z.s.bufs && g in z.snap ==>
          && h in z'.snap && z'.snap[h] == z.snap[g]
          && z.s.bufs[g].mem in z.s.blocks && z.s.bufs[g].mem in z'.s.blocks
          && z'.s.blocks[z.s.bufs[g].mem] == z.s.blocks[z.s.bufs[g].mem]
          && (Recv in z'.s.bufs && z'.s.bufs[Recv].mem == z.s.bufs[g].mem ==>
                Recv in z.s.bufs && z.s.bufs[Recv].mem == z.s.bufs[g].mem && z.head <= z'.head))
  }

  lemma FollowsIsFine(z: Z, z': Z, h: Holder, g: Holder)
    requires Fine(z, g) && Follows(z, z', h, g)
    ensures Fine(z', h)
  {
  }

  lemma GetKeeps(z: Z, o: Op)
    requires ZInv(z) && CanDo(z, o) && (o.UserGet? || o.Init?)
    ensures ZInv(Do(z, o))
  {
    FreeHasNoHolder(z.s, o.m);
    GetExact(z.s, if o.UserGet? then o.h else Recv, o.m, o.bytes);
    var z' := Do(z, o);
    forall h | User(h) ensures Fine(z', h) {
      assert Fine(z, h);
      if !(o.UserGet? && o.h == h) { FollowsIsFine(z, z', h, h); }
    }
  }

  lemma UserKeeps(z: Z, o: Op)
    requires ZInv(z) && CanDo(z, o) && (o.UserCopy? || o.UserAssign?)
    ensures ZInv(Do(z, o))
  {
    if o.UserCopy? { CopyExact(z.s, o.h, o.g); } else { AssignExact(z.s, o.h, o.g); }
    var z' := Do(z, o);
    assert z'.s.blocks == z.s.blocks && z'.s.bufs == Put(z.s.bufs, o.h, Held(z.s.bufs, o.g));
    forall h | User(h) ensures Fine(z', h) {
      var g := if h == o.h then o.g else h;
      assert Fine(z, g);
      FollowsIsFine(z, z', h, g);
    }
  }

  lemma SwappedFine(z: Z, o: Op, h: Holder)
    requires ZInv(z) && CanDo(z, o) && o.UserSwap? && User(h)
    ensures Fine(Do(z, o), h)
  {
    hide Exact, Swap;
    SwapExact(z.s, o.h, o.g);
    var g := if h == o.h then o.g else if h == o.g then o.h else h;
    assert Fine(z, g);
    if h != o.h && h != o.g { SwappedOthers(z.s, o.h, o.g, h); }
    SwappedOthers(z.s, o.h, o.g, Recv);
    SwapBlocks(z.s, o.h, o.g);
    FollowsIsFine(z, Do(z, o), h, g);
  }

  lemma SwapBlocks(s: Store, h: Holder, g: Holder)
    ensures Swap(s, h, g).blocks == s.blocks
  {
  }

  lemma SwapKeeps(z: Z, o: Op)
    requires ZInv(z) && CanDo(z, o) && o.UserSwap?
    ensures ZInv(Do(z, o))
  {
    hide Exact, Swap, Fine, Exchange;
    SwapExact(z.s, o.h, o.g);
    SwapBlocks(z.s, o.h, o.g);
    forall h | User(h) ensures Fine(Do(z, o), h) { SwappedFine(z, o, h); }
    SwappedOthers(z.s, o.h, o.g, Recv);
    SwappedOthers(z.s, o.h, o.g, Local);
  }

  lemma SwappedOthers(s: Store, h: Holder, g: Holder, k: Holder)
    requires k != h && k != g
    ensures Held(Swap(s, h, g).bufs, k) == Held(s.bufs, k)
  {
  }

  lemma ClearKeeps(z: Z, o: Op)
    requires ZInv(z) && CanDo(z, o) && o.ClearSlots?
    ensures ZInv(Do(z, o))
  {
    ClearBatchExact(z.s, o.batch, o.n);
    hide ClearBatch, Exact;
    var z' := Do(z, o);
    forall h | User(h) ensures Fine(z', h) {
      assert Fine(z, h);
      if h !in SlotsOf(o.batch, o.n) { FollowsIsFine(z, z', h, h); }
    }
  }

  lemma DropKeeps(z: Z, o: Op)
    requires ZInv(z) && CanDo(z, o) && (o.UserDrop? || o.Uninit?)
    ensures ZInv(Do(z, o))
  {
    DestroyExact(z.s, if o.UserDrop? then o.h else Recv);
    var z' := Do(z, o);
    forall h | User(h) ensures Fine(z', h) {
      assert Fine(z, h);
      if !(o.UserDrop? && o.h == h) { FollowsIsFine(z, z', h, h); }
    }
  }

  lemma QueueKeeps(z: Z, o: Op)
    requires ZInv(z) && CanDo(z, o) && o.Queue?
    ensures ZInv(Do(z, o))
  {
    PushBackExact(z.s, o.slot, o.h);
    var z' := Do(z, o);
    forall h | User(h) ensures Fine(z', h) {
      var g := if h == o.slot then o.h else h;
      assert Fine(z, g);
      if h != o.h { FollowsIsFine(z, z', h, g); }
    }
  }

  lemma MoveTailKeeps(z: Z, o: Op)
    requires ZInv(z) && CanDo(z, o) && o.MoveTail?
    ensures ZInv(Do(z, o))
  {
    var z' := Do(z, o);
    forall h | User(h) ensures Fine(z', h) { assert Fine(z, h); }
  }

  lemma OsWriteKeeps(z: Z, o: Op)
    requires ZInv(z) && CanDo(z, o) && o.OsWrite?
    ensures ZInv(Do(z, o))
  {
    var z' := Do(z, o);
    forall h | User(h) ensures Fine(z', h) {
      assert Fine(z, h);
      if h in z.s.bufs { assert BytesOf(z'.s, h) == BytesOf(z.s, h); }
    }
  }

  /** Narrowing the copy does not change who holds what. */
  lemma NarrowExact(s: Store, h: Holder, sl: Slice<MemId>)
    requires Exact(s) && h in s.bufs && sl.mem == s.bufs[h].mem && Inside(s, sl)
    ensures Exact(s.(bufs := s.bufs[h := sl]))
  {
    forall m ensures HoldersOf(s.bufs[h := sl], m) == HoldersOf(s.bufs, m) {}
  }

  lemma DeliveredStore(z: Z, h: Holder, n: nat)
    requires ZInv(z) && CanDo(z, Deliver(h, n))
    ensures var s' := DoDeliver(z, h, n).s;
            && Exact(s') && s'.blocks == z.s.blocks
            && s'.bufs == z.s.bufs[h := Slice(z.s.bufs[Recv].mem, z.head, n)]
  {
    CopyExact(z.s, h, Recv);
    var s1 := Copy(z.s, h, Recv);
    NarrowExact(s1, h, s1.bufs[h].(off := z.head, len := n));
  }

  lemma DeliverKeeps(z: Z, o: Op)
    requires ZInv(z) && CanDo(z, o) && o.Deliver?
    ensures ZInv(Do(z, o))
  {
    DeliveredStore(z, o.h, o.n);
    var z' := Do(z, o);
    forall h | User(h) ensures Fine(z', h) {
      assert Fine(z, h);
      if h != o.h { FollowsIsFine(z, z', h, h); }
    }
  }

  lemma LocalGone(bufs: map<Holder, Slice<MemId>>, sl: Slice<MemId>)
    requires Local !in bufs
    ensures Put(bufs[Local := sl], Recv, Some(sl)) - {Local} == bufs[Recv := sl]
  {
  }

  /** `change` leaves the receive buffer as the only holder of the new block, and everything else alone. */
  lemma ChangedStore(z: Z, m: MemId, room: seq<byte>)
    requires ZInv(z) && CanDo(z, ChangeBlock(m, room))
    ensures var bytes := BytesOf(z.s, Recv)[z.head..z.tail] + room;
            var s' := DoChange(z, m, room).s;
            && Exact(s') && s'.blocks == z.s.blocks[m := bytes]
            && s'.bufs == z.s.bufs[Recv := Slice(m, 0, |bytes|)]
  {
    var bytes := BytesOf(z.s, Recv)[z.head..z.tail] + room;
    var s1 := Get(z.s, Local, m, bytes);
    GetExact(z.s, Local, m, bytes);
    AssignExact(s1, Recv, Local);
    DestroyExact(Assign(s1, Recv, Local), Local);
    LocalGone(z.s.bufs, Slice(m, 0, |bytes|));
  }

  lemma ChangeKeeps(z: Z, o: Op)
    requires ZInv(z) && CanDo(z, o) && o.ChangeBlock?
    ensures ZInv(Do(z, o))
  {
    FreeHasNoHolder(z.s, o.m);
    ChangedStore(z, o.m, o.room);
    var z' := Do(z, o);
    forall h | User(h) ensures Fine(z', h) {
      assert Fine(z, h);
      FollowsIsFine(z, z', h, h);
    }
  }

  /** The data in the window moves along unchanged. */
  lemma ChangeKeepsData(z: Z, m: MemId, room: seq<byte>)
    requires ZInv(z) && CanDo(z, ChangeBlock(m, room))
    ensures var z' := DoChange(z, m, room);
            ZInv(z') && BytesOf(z'.s, Recv)[z'.head..z'.tail] == BytesOf(z.s, Recv)[z.head..z.tail]
  {
    ChangeKeeps(z, ChangeBlock(m, room));
    ChangedStore(z, m, room);
  }

  lemma OpKeeps(z: Z, o: Op)
    requires ZInv(z) && CanDo(z, o)
    ensures ZInv(Do(z, o))
  {
    match o {
      case UserGet(_, _, _) => GetKeeps(z, o);
      case Init(_, _) => GetKeeps(z, o);
      case UserDrop(_) => DropKeeps(z, o);
      case UserSwap(_, _) => SwapKeeps(z, o);
      case ClearSlots(_, _) => ClearKeeps(z, o);
      case Uninit => DropKeeps(z, o);
      case Queue(_, _) => QueueKeeps(z, o);
      case OsWrite(_, _) => OsWriteKeeps(z, o);
      case MoveTail(_) => MoveTailKeeps(z, o);
      case Deliver(_, _) => DeliverKeeps(z, o);
      case ChangeBlock(_, _) => ChangeKeeps(z, o);
      case _ => UserKeeps(z, o);
    }
  }

  // ---- over whole runs

  const EMPTY: Z := Z(Store(map[], map[], {}, map[]), 0, 0, map[])

  // ---- what each operation does

  /** What holder `x` refers to after an operation, in terms of what holders referred to before. */
  ghost function HeldAfter(z: Z, o: Op, x: Holder): Option<Slice<MemId>>
    requires ZInv(z) && CanDo(z, o)
  {
    var was := Held(z.s.bufs, x);
    match o
    case UserGet(h, m, bytes) => if x == h then Some(Slice(m, 0, |bytes|)) else was
    case UserCopy(h, g) => if x == h then Held(z.s.bufs, g) else was
    case UserAssign(h, g) => if x == h then Held(z.s.bufs, g) else was
    case UserSwap(h, g) => if x == h then Held(z.s.bufs, g) else if x == g then Held(z.s.bufs, h) else was
    case UserDrop(h) => if x == h then None else was
    case Queue(slot, h) => if x == slot then Held(z.s.bufs, h) else if x == h then None else was
    case ClearSlots(batch, n) => if x.Slot? && x.batch == batch && x.i < n then None else was
    case Init(m, bytes) => if x == Recv then Some(Slice(m, 0, |bytes|)) else was
    case OsWrite(_, _) => was
    case MoveTail(_) => was
    case Deliver(h, n) => if x == h then Some(Slice(z.s.bufs[Recv].mem, z.head, n)) else was
    case ChangeBlock(m, room) => if x == Recv then Some(Slice(m, 0, z.tail - z.head + |room|)) else was
    case Uninit => if x == Recv then None else was
  }

  /** The block an operation fills. */
  function Filled(o: Op): Option<MemId> {
    match o
    case UserGet(_, m, _) => Some(m)
    case Init(m, _) => Some(m)
    case ChangeBlock(m, _) => Some(m)
    case _ => None
  }

  lemma GetDoes(s: Store, h: Holder, m: MemId, bytes: seq<byte>, x: Holder)
    ensures Held(Get(s, h, m, bytes).bufs, x) == if x == h then Some(Slice(m, 0, |bytes|)) else Held(s.bufs, x)
    ensures Get(s, h, m, bytes).blocks == s.blocks[m := bytes]
  {
  }

  lemma CopyDoes(s: Store, h: Holder, g: Holder, x: Holder)
    requires Known(s) && h !in s.bufs
    ensures Held(Copy(s, h, g).bufs, x) == if x == h then Held(s.bufs, g) else Held(s.bufs, x)
    ensures Copy(s, h, g).blocks == s.blocks
  {
  }

  lemma SwapDoes(s: Store, h: Holder, g: Holder, x: Holder)
    ensures Held(Swap(s, h, g).bufs, x)
            == if x == h then Held(s.bufs, g) else if x == g then Held(s.bufs, h) else Held(s.bufs, x)
    ensures Swap(s, h, g).blocks == s.blocks
  {
  }

  lemma PushBackDoes(s: Store, slot: Holder, h: Holder, x: Holder)
    requires slot != h
    ensures Held(PushBack(s, slot, h).bufs, x)
            == if x == slot then Held(s.bufs, h) else if x == h then None else Held(s.bufs, x)
    ensures PushBack(s, slot, h).blocks == s.blocks
  {
  }

  lemma HeldPut(bufs: map<Holder, Slice<MemId>>, h: Holder, o: Option<Slice<MemId>>, x: Holder)
    ensures Held(Put(bufs, h, o), x) == if x == h then o else Held(bufs, x)
  {
  }

  lemma HeldSet(bufs: map<Holder, Slice<MemId>>, h: Holder, sl: Slice<MemId>, x: Holder)
    ensures Held(bufs[h := sl], x) == if x == h then Some(sl) else Held(bufs, x)
  {
  }

  lemma HeldDrop(bufs: map<Holder, Slice<MemId>>, hs: set<Holder>, x: Holder)
    ensures Held(bufs - hs, x) == if x in hs then None else Held(bufs, x)
  {
  }

  lemma SlotsAre(batch: nat, n: nat, x: Holder)
    ensures x in SlotsOf(batch, n) <==> x.Slot? && x.batch == batch && x.i < n
  {
  }

  lemma ExactKnows(s: Store)
    requires Exact(s)
    ensures Known(s)
  {
  }

  lemma UsersDo(z: Z, o: Op, x: Holder)
    requires ZInv(z) && CanDo(z, o)
    requires o.UserAssign? || o.UserDrop? || o.ClearSlots? || o.UserSwap? || o.Queue? || o.UserCopy?
    ensures Held(Do(z, o).s.bufs, x) == HeldAfter(z, o, x)
  {
    ExactKnows(z.s);
    hide ZInv, Exact, Window, Fine, Copy, Assign, Swap, Destroy, PushBack, ClearBatch, Held, Put, SlotsOf;
    match o {
      case UserCopy(h, g) => CopyDoes(z.s, h, g, x);
      case UserAssign(h, g) => AssignExact(z.s, h, g); HeldPut(z.s.bufs, h, Held(z.s.bufs, g), x);
      case UserSwap(h, g) => SwapDoes(z.s, h, g, x);
      case UserDrop(h) => DestroyExact(z.s, h); HeldDrop(z.s.bufs, {h}, x);
      case Queue(slot, h) => PushBackDoes(z.s, slot, h, x);
      case ClearSlots(batch, n) =>
        ClearBatchExact(z.s, batch, n);
        SlotsAre(batch, n, x);
        HeldDrop(z.s.bufs, SlotsOf(batch, n), x);
    }
  }

  lemma ReceiverDoes(z: Z, o: Op, x: Holder)
    requires ZInv(z) && CanDo(z, o)
    requires o.UserGet? || o.Init? || o.Deliver? || o.ChangeBlock? || o.Uninit?
    ensures Held(Do(z, o).s.bufs, x) == HeldAfter(z, o, x)
  {
    hide Exact, Window, Fine, Get, Destroy, DoDeliver, DoChange, Held;
    match o {
      case UserGet(h, m, bytes) => GetDoes(z.s, h, m, bytes, x);
      case Init(m, bytes) => GetDoes(z.s, Recv, m, bytes, x);
      case Deliver(h, n) =>
        DeliveredStore(z, h, n);
        HeldSet(z.s.bufs, h, Slice(z.s.bufs[Recv].mem, z.head, n), x);
      case ChangeBlock(m, room) =>
        ChangedStore(z, m, room);
        WindowSize(z);
        HeldSet(z.s.bufs, Recv, Slice(m, 0, z.tail - z.head + |room|), x);
      case Uninit => DestroyExact(z.s, Recv); HeldDrop(z.s.bufs, {Recv}, x);
    }
  }

  /** Every operation does to every holder what it should, and to no other anything. */
  lemma OpDoes(z: Z, o: Op, x: Holder)
    requires ZInv(z) && CanDo(z, o)
    ensures Held(Do(z, o).s.bufs, x) == HeldAfter(z, o, x)
  {
    if o.UserGet? || o.Init? || o.Deliver? || o.ChangeBlock? || o.Uninit? {
      ReceiverDoes(z, o, x);
    } else if !o.OsWrite? && !o.MoveTail? {
      UsersDo(z, o, x);
    }
    hide Exact, Window, Fine, Get, Copy, Assign, Swap, Destroy, PushBack, ClearBatch, Write, DoDeliver, DoChange;
  }

  lemma WindowSize(z: Z)
    requires ZInv(z) && Recv in z.s.bufs
    ensures z.head <= z.tail <= |BytesOf(z.s, Recv)|
  {
  }

  /** What users do with Bufs leaves the bytes alone. */
  lemma UsersFillNone(z: Z, o: Op)
    requires ZInv(z) && CanDo(z, o)
    requires o.UserAssign? || o.UserDrop? || o.ClearSlots? || o.UserSwap? || o.Queue? || o.UserCopy?
    ensures Do(z, o).s.blocks == z.s.blocks
  {
    ExactKnows(z.s);
    hide ZInv, Exact, Window, Fine, Copy, Assign, Swap, Destroy, PushBack, ClearBatch, Held, Put, SlotsOf;
    match o {
      case UserCopy(h, g) => CopyDoes(z.s, h, g, h);
      case UserAssign(h, g) => AssignExact(z.s, h, g);
      case UserSwap(h, g) => SwapDoes(z.s, h, g, h);
      case UserDrop(h) => DestroyExact(z.s, h);
      case Queue(slot, h) => PushBackDoes(z.s, slot, h, h);
      case ClearSlots(batch, n) => ClearBatchExact(z.s, batch, n);
    }
  }

  /** An operation that fills a block puts in it what it is given, or the data of the window; others fill none. */
  lemma FillsBlock(z: Z, o: Op)
    requires ZInv(z) && CanDo(z, o)
    requires o.UserGet? || o.Init? || o.Deliver? || o.ChangeBlock? || o.Uninit?
    ensures var bytes := if o.ChangeBlock? then BytesOf(z.s, Recv)[z.head..z.tail] + o.room
                         else if o.UserGet? || o.Init? then o.bytes else [];
            Do(z, o).s.blocks == if Filled(o).Some? then z.s.blocks[Filled(o).value := bytes] else z.s.blocks
  {
    hide Exact, Fine, Get, Destroy, DoDeliver, DoChange;
    match o {
      case UserGet(h, m, bytes) => GetDoes(z.s, h, m, bytes, h);
      case Init(m, bytes) => GetDoes(z.s, Recv, m, bytes, Recv);
      case Deliver(h, n) => DeliveredStore(z, h, n);
      case ChangeBlock(m, room) => ChangedStore(z, m, room);
      case Uninit => DestroyExact(z.s, Recv);
    }
  }

  /** The bytes of every block are as they were, but for the one an operation fills and for the byte the system
      writes. */
  lemma OpFills(z: Z, o: Op, m: MemId)
    requires ZInv(z) && CanDo(z, o)
    ensures var s, s' := z.s, Do(z, o).s;
            && (m in s'.blocks <==> m in s.blocks || Filled(o) == Some(m))
            && (m in s'.blocks && Filled(o) != Some(m) ==>
                  if o.OsWrite? && s.bufs[Recv].mem == m
                    then |s'.blocks[m]| == |s.blocks[m]| > o.at && s'.blocks[m][o.at] == o.b
                         && forall i :: 0 <= i < |s.blocks[m]| && i != o.at ==> s'.blocks[m][i] == s.blocks[m][i]
                    else s'.blocks[m] == s.blocks[m])
            && (o.UserGet? || o.Init? ==> s'.blocks[o.m] == o.bytes)
            && (o.ChangeBlock? ==> s'.blocks[o.m] == BytesOf(s, Recv)[z.head..z.tail] + o.room)
  {
    hide Exact, Fine, Get, Copy, Assign, Swap, Destroy, PushBack, ClearBatch, Write, DoDeliver, DoChange;
    if o.UserGet? || o.Init? || o.Deliver? || o.ChangeBlock? || o.Uninit? {
      FillsBlock(z, o);
    } else if !o.OsWrite? && !o.MoveTail? {
      UsersFillNone(z, o);
    }
  }

  ghost function Next(z: Z, o: Op): (r: Z)
    requires ZInv(z) && CanDo(z, o)
    ensures ZInv(r)
  {
    OpKeeps(z, o);
    Do(z, o)
  }

  ghost predicate Runs(z: Z, os: seq<Op>)
    requires ZInv(z)
    decreases |os|
  {
    os == [] || (CanDo(z, os[0]) && Runs(Next(z, os[0]), os[1..]))
  }

  ghost function RunAll(z: Z, os: seq<Op>): (r: Z)
    requires ZInv(z) && Runs(z, os)
    ensures ZInv(r)
    decreases |os|
  {
    if os == [] then z else RunAll(Next(z, os[0]), os[1..])
  }

  lemma EmptyIsFine()
    ensures ZInv(EMPTY)
  {
  }

  /** Over every run of any operations from the start: each block's count is the number of Bufs holding it, the pool has
      exactly the blocks nobody holds, and every Buf anybody holds reads as when it was given. */
  lemma HeldReadsAsGiven(os: seq<Op>, h: Holder)
    requires Runs(EMPTY, os) && User(h) && h in RunAll(EMPTY, os).s.bufs
    ensures var z := RunAll(EMPTY, os);
            && Exact(z.s)
            && Inside(z.s, z.s.bufs[h]) && h in z.snap && BytesOf(z.s, h) == z.snap[h]
  {
    EmptyIsFine();
    assert Fine(RunAll(EMPTY, os), h);
  }

  /** What `on_recv` is given are the bytes at the head of the window. */
  lemma GivenFromWindow(z: Z, h: Holder, n: nat)
    requires ZInv(z) && CanDo(z, Deliver(h, n))
    ensures var z' := Next(z, Deliver(h, n));
            h in z'.snap && z'.snap[h] == BytesOf(z.s, Recv)[z.head..z.head + n] && z'.head == z.head + n
  {
  }

  /** The user does something to this very Buf. */
  predicate Touches(o: Op, h: Holder) {
    match o
    case UserGet(k, _, _) => k == h
    case UserCopy(k, _) => k == h
    case UserAssign(k, _) => k == h
    case UserSwap(k, g) => k == h || g == h
    case UserDrop(k) => k == h
    case Queue(slot, k) => slot == h || k == h
    case ClearSlots(batch, _) => h.Slot? && h.batch == batch
    case Deliver(k, _) => k == h
    case _ => false
  }

  /** A Buf given to `on_recv`, or built by the user, reads the same for as long as it is held: through every later
      receive, buffer change, pool reuse and all that happens to other Bufs. */
  lemma {:induction false} BytesStay(z: Z, os: seq<Op>, h: Holder)
    requires ZInv(z) && Runs(z, os) && User(h) && h in z.s.bufs
    requires forall o :: o in os ==> !Touches(o, h)
    ensures var z' := RunAll(z, os);
            h in z'.s.bufs && Inside(z'.s, z'.s.bufs[h]) && BytesOf(z'.s, h) == BytesOf(z.s, h)
    decreases |os|
  {
    assert Fine(z, h);
    if os != [] {
      HeldStays(z, os[0], h);
      assert Fine(Next(z, os[0]), h);
      BytesStay(Next(z, os[0]), os[1..], h);
    }
  }

  lemma HeldStays(z: Z, o: Op, h: Holder)
    requires ZInv(z) && CanDo(z, o) && User(h) && h in z.s.bufs && !Touches(o, h)
    ensures Stays(z, Next(z, o), h)
  {
    hide ZInv, CanDo, Do, Stays;
    if o.Init? || o.OsWrite? || o.MoveTail? || o.Deliver? || o.ChangeBlock? || o.Uninit? {
      StaysInReceive(z, o, h);
    } else {
      StaysAmongUsers(z, o, h);
    }
  }

  predicate Stays(z: Z, z': Z, h: Holder) {
    && h in z.s.bufs && h in z'.s.bufs && z'.s.bufs[h] == z.s.bufs[h]
    && h in z.snap && h in z'.snap && z'.snap[h] == z.snap[h]
  }

  lemma StaysInReceive(z: Z, o: Op, h: Holder)
    requires ZInv(z) && CanDo(z, o) && User(h) && h in z.s.bufs && !Touches(o, h)
    requires o.Init? || o.OsWrite? || o.MoveTail? || o.Deliver? || o.ChangeBlock? || o.Uninit?
    ensures Stays(z, Do(z, o), h)
  {
    assert Fine(z, h);
    if o.ChangeBlock? { ChangedStore(z, o.m, o.room); }
  }

  lemma StaysAmongUsers(z: Z, o: Op, h: Holder)
    requires ZInv(z) && CanDo(z, o) && User(h) && h in z.s.bufs && !Touches(o, h)
    requires !(o.Init? || o.OsWrite? || o.MoveTail? || o.Deliver? || o.ChangeBlock? || o.Uninit?)
    ensures Stays(z, Do(z, o), h)
  {
    assert Fine(z, h);
    match o {
      case UserAssign(k, g) => AssignExact(z.s, k, g);
      case UserSwap(k, g) => SwappedOthers(z.s, k, g, h);
      case ClearSlots(batch, n) => ClearBatchExact(z.s, batch, n);
      case _ =>
    }
  }

  /** And its block is not issued again meanwhile: those that can be are exactly those nobody holds. */
  lemma HeldNotReissued(z: Z, m: MemId)
    requires ZInv(z)
    ensures CanGet(z.s, m) <==> forall h :: h in z.s.bufs ==> z.s.bufs[h].mem != m
  {
    if CanGet(z.s, m) { FreeHasNoHolder(z.s, m); }
    assert (forall h :: h in z.s.bufs ==> z.s.bufs[h].mem != m) ==> HoldersOf(z.s.bufs, m) == {};
  }
}
