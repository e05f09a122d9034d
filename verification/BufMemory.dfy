/** Reference-counted blocks and the Bufs that hold them: `Mem`, `Buf`, and the pool blocks return to. */
module BufMemory {
  import opened Bytes
  import opened Options

  type MemId = nat

  /** Who can hold a block: a Buf variable, a slot of a send batch, the receive buffer, or the local Buf of `change`. */
  datatype Holder = Var(i: nat) | Slot(batch: nat, i: nat) | Recv | Local

  /** `bufs` has an entry for each holder whose Buf is not empty. */
  datatype Store =
    Store(blocks: map<MemId, seq<byte>>, ref: map<MemId, int>, pool: set<MemId>, bufs: map<Holder, Slice<MemId>>)

  ghost function HoldersOf(bufs: map<Holder, Slice<MemId>>, m: MemId): set<Holder> {
    set h | h in bufs && bufs[h].mem == m
  }

  predicate Inside(s: Store, sl: Slice<MemId>) {
    sl.mem in s.blocks && sl.off + sl.len <= |s.blocks[sl.mem]|
  }

  /** Every block's count is the number of its holders. */
  ghost predicate Counted(s: Store) {
    && (forall m :: m in s.ref <==> m in s.blocks)
    && (forall m :: m in s.ref ==> s.ref[m] == |HoldersOf(s.bufs, m)|)
    && (forall h :: h in s.bufs ==> Inside(s, s.bufs[h]))
  }

  /** And the pool has exactly the blocks nobody holds. */
  ghost predicate Exact(s: Store) {
    Counted(s) && forall m :: m in s.pool <==> m in s.ref && s.ref[m] == 0
  }

  // ---- Mem

  function AddRef(s: Store, m: MemId): Store
    requires m in s.ref
  {
    s.(ref := s.ref[m := s.ref[m] + 1])
  }

  /** `rel_ref`: the block goes to the pool when its count reaches 0. */
  function RelRef(s: Store, m: MemId): Store
    requires m in s.ref
  {
    var r := s.ref[m] - 1;
    s.(ref := s.ref[m := r], pool := if r == 0 then s.pool + {m} else s.pool)
  }

  // ---- Buf

  function Held(bufs: map<Holder, Slice<MemId>>, h: Holder): Option<Slice<MemId>> {
    if h in bufs then Some(bufs[h]) else None
  }

  function Put(bufs: map<Holder, Slice<MemId>>, h: Holder, o: Option<Slice<MemId>>): map<Holder, Slice<MemId>> {
    if o.Some? then bufs[h := o.value] else bufs - {h}
  }

  ghost predicate Known(s: Store) { forall h :: h in s.bufs ==> s.bufs[h].mem in s.ref }

  /** `mpool.get` into a new Buf: a block nobody holds, or a new one, with whatever bytes it is filled with. */
  predicate CanGet(s: Store, m: MemId) { m in s.pool || (m !in s.blocks && m !in s.ref) }

  function Get(s: Store, h: Holder, m: MemId, bytes: seq<byte>): Store {
    var s1 := s.(blocks := s.blocks[m := bytes], ref := s.ref[m := 0], pool := s.pool - {m});
    AddRef(s1, m).(bufs := s.bufs[h := Slice(m, 0, |bytes|)])
  }

  /** `Buf(const Buf&)` into a new variable. */
  function Copy(s: Store, h: Holder, g: Holder): Store
    requires Known(s)
  {
    if g in s.bufs then AddRef(s, s.bufs[g].mem).(bufs := s.bufs[h := s.bufs[g]]) else s
  }

  /** `~Buf` */
  function Destroy(s: Store, h: Holder): Store
    requires Known(s)
  {
    if h in s.bufs then RelRef(s, s.bufs[h].mem).(bufs := s.bufs - {h}) else s
  }

  /** `operator=`: release what is held, take over what the other holds, add a reference to it. */
  function Assign(s: Store, h: Holder, g: Holder): Store
    requires Known(s)
  {
    if h == g then s
    else
      var s1 := if h in s.bufs then RelRef(s, s.bufs[h].mem) else s;
      var s2 := s1.(bufs := Put(s.bufs, h, Held(s.bufs, g)));
      if g in s.bufs then AddRef(s2, s.bufs[g].mem) else s2
  }

  function Swap(s: Store, h: Holder, g: Holder): Store {
    s.(bufs := Put(Put(s.bufs, h, Held(s.bufs, g)), g, Held(s.bufs, h)))
  }

  /** `push_back`: the slot takes over what `dettach` leaves the Buf without. */
  function PushBack(s: Store, slot: Holder, h: Holder): Store {
    s.(bufs := Put(s.bufs, slot, Held(s.bufs, h)) - {h})
  }

  // ---- counting holders

  lemma HoldersPut(bufs: map<Holder, Slice<MemId>>, h: Holder, sl: Slice<MemId>, m: MemId)
    requires h !in bufs
    ensures |HoldersOf(bufs[h := sl], m)| == |HoldersOf(bufs, m)| + (if sl.mem == m then 1 else 0)
  {
    assert HoldersOf(bufs[h := sl], m) == HoldersOf(bufs, m) + (if sl.mem == m then {h} else {});
  }

  lemma HoldersDrop(bufs: map<Holder, Slice<MemId>>, h: Holder, m: MemId)
    requires h in bufs
    ensures |HoldersOf(bufs - {h}, m)| == |HoldersOf(bufs, m)| - (if bufs[h].mem == m then 1 else 0)
  {
    assert HoldersOf(bufs, m) == HoldersOf(bufs - {h}, m) + (if bufs[h].mem == m then {h} else {});
  }

  lemma HeldIsUsed(s: Store, h: Holder)
    requires Exact(s) && h in s.bufs
    ensures var m := s.bufs[h].mem; m in s.ref && s.ref[m] >= 1 && m !in s.pool
  {
    assert h in HoldersOf(s.bufs, s.bufs[h].mem);
  }

  lemma FreeHasNoHolder(s: Store, m: MemId)
    requires Exact(s) && CanGet(s, m)
    ensures HoldersOf(s.bufs, m) == {} && forall h :: h in s.bufs ==> s.bufs[h].mem != m
  {
    forall h | h in s.bufs ensures s.bufs[h].mem != m { HeldIsUsed(s, h); }
  }

  // ---- every operation keeps the counts exact and does to the Bufs what it should

  lemma GetExact(s: Store, h: Holder, m: MemId, bytes: seq<byte>)
    requires Exact(s) && h !in s.bufs && CanGet(s, m)
    ensures Exact(Get(s, h, m, bytes))
  {
    FreeHasNoHolder(s, m);
    var s' := Get(s, h, m, bytes);
    forall k | k in s'.ref ensures s'.ref[k] == |HoldersOf(s'.bufs, k)| {
      HoldersPut(s.bufs, h, Slice(m, 0, |bytes|), k);
    }
  }

  lemma CopyExact(s: Store, h: Holder, g: Holder)
    requires Exact(s) && h !in s.bufs
    ensures Exact(Copy(s, h, g)) && Copy(s, h, g).bufs == Put(s.bufs, h, Held(s.bufs, g))
  {
    if g in s.bufs {
      HeldIsUsed(s, g);
      var s' := Copy(s, h, g);
      forall k | k in s'.ref ensures s'.ref[k] == |HoldersOf(s'.bufs, k)| {
        HoldersPut(s.bufs, h, s.bufs[g], k);
      }
    }
  }

  lemma DestroyExact(s: Store, h: Holder)
    requires Exact(s)
    ensures Exact(Destroy(s, h)) && Destroy(s, h).bufs == s.bufs - {h} && Destroy(s, h).blocks == s.blocks
  {
    if h in s.bufs {
      HeldIsUsed(s, h);
      var s' := Destroy(s, h);
      forall k | k in s'.ref ensures s'.ref[k] == |HoldersOf(s'.bufs, k)| {
        HoldersDrop(s.bufs, h, k);
      }
    }
  }

  lemma PutSelf(bufs: map<Holder, Slice<MemId>>, h: Holder)
    ensures Put(bufs, h, Held(bufs, h)) == bufs
  {
    if h in bufs { assert bufs[h := bufs[h]] == bufs; } else { assert bufs - {h} == bufs; }
  }

  lemma AssignIsDestroyCopy(s: Store, h: Holder, g: Holder)
    requires Known(s) && h != g
    ensures Known(Destroy(s, h)) && Assign(s, h, g) == Copy(Destroy(s, h), h, g)
  {
    if g in s.bufs { assert (s.bufs - {h})[h := s.bufs[g]] == s.bufs[h := s.bufs[g]]; }
    if h !in s.bufs { assert s.bufs - {h} == s.bufs; }
  }

  lemma AssignExact(s: Store, h: Holder, g: Holder)
    requires Exact(s)
    ensures Exact(Assign(s, h, g))
    ensures Assign(s, h, g).bufs == Put(s.bufs, h, Held(s.bufs, g)) && Assign(s, h, g).blocks == s.blocks
  {
    if h != g {
      DestroyExact(s, h);
      CopyExact(Destroy(s, h), h, g);
      AssignIsDestroyCopy(s, h, g);
    } else {
      PutSelf(s.bufs, h);
    }
  }

  lemma HoldersSet(bufs: map<Holder, Slice<MemId>>, h: Holder, o: Option<Slice<MemId>>, m: MemId)
    ensures |HoldersOf(Put(bufs, h, o), m)|
            == |HoldersOf(bufs, m)| - (if h in bufs && bufs[h].mem == m then 1 else 0)
               + (if o.Some? && o.value.mem == m then 1 else 0)
  {
    var rest := bufs - {h};
    if h in bufs { HoldersDrop(bufs, h, m); } else { assert rest == bufs; }
    if o.Some? {
      HoldersPut(rest, h, o.value, m);
      assert rest[h := o.value] == bufs[h := o.value];
    }
  }

  lemma SwapKeepsCounts(bufs: map<Holder, Slice<MemId>>, h: Holder, g: Holder, m: MemId)
    ensures |HoldersOf(Put(Put(bufs, h, Held(bufs, g)), g, Held(bufs, h)), m)| == |HoldersOf(bufs, m)|
  {
    HoldersSet(bufs, h, Held(bufs, g), m);
    HoldersSet(Put(bufs, h, Held(bufs, g)), g, Held(bufs, h), m);
  }

  lemma SwapIs(s: Store, h: Holder, g: Holder)
    ensures Swap(s, h, g) == s.(bufs := Put(Put(s.bufs, h, Held(s.bufs, g)), g, Held(s.bufs, h)))
    ensures Held(Swap(s, h, g).bufs, h) == Held(s.bufs, g) && Held(Swap(s, h, g).bufs, g) == Held(s.bufs, h)
    ensures forall k :: k in Swap(s, h, g).bufs ==> Swap(s, h, g).bufs[k] in s.bufs.Values
  {
  }

  lemma SwapExact(s: Store, h: Holder, g: Holder)
    requires Exact(s)
    ensures Exact(Swap(s, h, g))
    ensures Held(Swap(s, h, g).bufs, h) == Held(s.bufs, g) && Held(Swap(s, h, g).bufs, g) == Held(s.bufs, h)
  {
    hide Swap, Put, Held, HoldersOf;
    SwapIs(s, h, g);
    forall k | k in s.ref ensures |HoldersOf(Swap(s, h, g).bufs, k)| == |HoldersOf(s.bufs, k)| {
      SwapKeepsCounts(s.bufs, h, g, k);
    }
  }

  lemma PushBackExact(s: Store, slot: Holder, h: Holder)
    requires Exact(s) && slot !in s.bufs && slot != h && h in s.bufs
    ensures Exact(PushBack(s, slot, h)) && PushBack(s, slot, h).ref == s.ref
  {
    var s' := PushBack(s, slot, h);
    forall k | k in s'.ref ensures s'.ref[k] == |HoldersOf(s'.bufs, k)| {
      HoldersSet(s.bufs, slot, Held(s.bufs, h), k);
      HoldersDrop(Put(s.bufs, slot, Held(s.bufs, h)), h, k);
    }
  }

  /** `BufArray::clear`: release the first `n` slots of a batch. */
  function ClearBatch(s: Store, batch: nat, n: nat): (r: Store)
    requires Known(s)
    ensures Known(r)
  {
    if n == 0 then s else Destroy(ClearBatch(s, batch, n - 1), Slot(batch, n - 1))
  }

  function SlotsOf(batch: nat, n: nat): set<Holder> { set i | 0 <= i < n :: Slot(batch, i) }

  lemma DropOneMore(bufs: map<Holder, Slice<MemId>>, batch: nat, n: nat)
    ensures (bufs - SlotsOf(batch, n)) - {Slot(batch, n)} == bufs - SlotsOf(batch, n + 1)
  {
    assert SlotsOf(batch, n + 1) == SlotsOf(batch, n) + {Slot(batch, n)};
  }

  lemma ClearNext(s: Store, batch: nat, n: nat)
    requires Known(s) && n > 0
    ensures ClearBatch(s, batch, n) == Destroy(ClearBatch(s, batch, n - 1), Slot(batch, n - 1))
  {
  }

  lemma ClearNothing(s: Store, batch: nat)
    requires Known(s)
    ensures ClearBatch(s, batch, 0) == s && s.bufs - SlotsOf(batch, 0) == s.bufs
  {
  }

  /** Every slot is released once, and nothing else. */
  lemma {:induction false} ClearBatchExact(s: Store, batch: nat, n: nat)
    requires Exact(s)
    ensures Exact(ClearBatch(s, batch, n))
    ensures ClearBatch(s, batch, n).bufs == s.bufs - SlotsOf(batch, n) && ClearBatch(s, batch, n).blocks == s.blocks
  {
    hide Destroy, SlotsOf, ClearBatch;
    if n == 0 {
      ClearNothing(s, batch);
    } else {
      var r := ClearBatch(s, batch, n - 1);
      ClearNext(s, batch, n);
      ClearBatchExact(s, batch, n - 1);
      DestroyExact(r, Slot(batch, n - 1));
      DropOneMore(s.bufs, batch, n - 1);
    }
  }

  /** A block comes back to the pool exactly when the last Buf holding it goes. */
  lemma ReturnsWithLastHolder(s: Store, h: Holder)
    requires Exact(s) && h in s.bufs
    ensures var m := s.bufs[h].mem;
            m !in s.pool && (m in Destroy(s, h).pool <==> HoldersOf(s.bufs, m) == {h})
  {
    var m := s.bufs[h].mem;
    HeldIsUsed(s, h);
    DestroyExact(s, h);
    var s' := Destroy(s, h);
    assert HoldersOf(s.bufs, m) == HoldersOf(s'.bufs, m) + {h};
    assert s'.ref[m] == |HoldersOf(s'.bufs, m)|;
    if m in s'.pool { assert HoldersOf(s'.bufs, m) == {}; }
  }
}
