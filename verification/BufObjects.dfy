/** `Mem`, `Buf` and the slots of send batches as objects that share blocks. */
module BufObjects {
  import opened Bytes

  /** A block; `holders` are the Bufs and slots that refer to it. */
  class Mem {
    const data: array<byte>
    var ref: nat
    ghost var holders: set<Buf>

    constructor (unit: nat)
      ensures ref == 0 && holders == {} && fresh(data) && data.Length == unit
    {
      data := new byte[unit];
      ref, holders := 0, {};
    }

    /** `add_ref`, by `b` */
    method AddRef(ghost b: Buf)
      requires ref == |holders| && b !in holders
      modifies this
      ensures ref == |holders| && holders == old(holders) + {b}
    {
      ref, holders := ref + 1, holders + {b};
    }
  }

  /** A Buf variable, or a slot of a batch: `len` bytes of a block from `off` on, or nothing. */
  class Buf {
    var mem: Mem?
    var off: nat
    var len: nat

    constructor ()
      ensures mem == null && off == 0 && len == 0
    {
      mem, off, len := null, 0, 0;
    }

    ghost function View(): Slice<Mem?>
      reads this
    {
      Slice(mem, off, len)
    }
  }

  const NOTHING: Slice<Mem?> := Slice(null, 0, 0)

  /** The pool of blocks nobody holds; `bufs` are all Bufs and slots there are, `mems` all blocks ever allocated. */
  class BlockPool {
    var free: set<Mem>
    ghost var bufs: set<Buf>
    ghost var mems: set<Mem>

    /** A Buf that is not empty is inside its block, and one of its holders; one that is empty has no bytes. */
    ghost predicate BufOk(b: Buf)
      reads this, b, mems
    {
      if b.mem == null then b.View() == NOTHING
      else b.mem in mems && b in b.mem.holders && b.off + b.len <= b.mem.data.Length
    }

    ghost predicate BufsOk()
      reads this, bufs, mems
    {
      forall b :: b in bufs ==> BufOk(b)
    }

    /** The holders of a block are Bufs that refer to it. */
    ghost predicate HoldersOk()
      reads this, bufs, mems
    {
      forall m, b :: m in mems && b in m.holders ==> b in bufs && b.mem == m
    }

    /** Every block is counted right, and, but for a block `x` on its way to a Buf, in the pool exactly when counted
        0. */
    ghost predicate CountsOk(x: Mem?)
      reads this, mems
    {
      && (forall m :: m in mems ==> m.ref == |m.holders| && (m != x ==> (m in free <==> m.ref == 0)))
      && free <= mems && x !in free
    }

    ghost predicate MemsOk(x: Mem?)
      reads this, bufs, mems
    {
      HoldersOk() && CountsOk(x)
    }

    ghost predicate Exact()
      reads this, bufs, mems
    {
      BufsOk() && MemsOk(null)
    }

    constructor ()
      ensures Exact() && bufs == {} && mems == {}
    {
      free, bufs, mems := {}, {}, {};
    }

    /** `rel_ref`, by `b`: the block comes back at 0. */
    method Release(m: Mem, ghost b: Buf)
      requires m.ref == |m.holders| && b in m.holders
      modifies m, this`free
      ensures m.ref == |m.holders| && m.holders == old(m.holders) - {b}
      ensures free == if m.ref == 0 then old(free) + {m} else old(free)
    {
      m.ref, m.holders := m.ref - 1, m.holders - {b};
      if m.ref == 0 { free := free + {m}; }
    }

    /** A Buf that refers to nothing takes part of a block. */
    method Join(b: Buf, m: Mem, off: nat, len: nat)
      requires BufsOk() && MemsOk(m) && b in bufs && b.mem == null && m in mems && off + len <= m.data.Length
      modifies b, m
      ensures Exact() && b.View() == Slice(m, off, len) && m.holders == old(m.holders) + {b}
    {
      b.mem, b.off, b.len := m, off, len;
      m.AddRef(b);
    }

    /** A Buf gives up what it refers to; its block comes back to the pool exactly when nobody else holds it. */
    method Leave(b: Buf)
      requires Exact() && b in bufs
      modifies this`free, b, b.mem
      ensures Exact() && b.View() == NOTHING
      ensures var m := old(b.mem);
              m != null ==> m.holders == old(b.mem.holders) - {b} && (m in free <==> old(b.mem.holders) == {b})
      ensures old(b.mem) == null ==> free == old(free)
    {
      var m := b.mem;
      b.mem, b.off, b.len := null, 0, 0;
      if m != null { Release(m, b); }
      hide BlockPool.HoldersOk, BlockPool.CountsOk;
      forall x | x in bufs ensures BufOk(x) { assert old(BufOk(x)); }
    }

    /** A block from the pool, or a new one. */
    method Take(unit: nat) returns (m: Mem)
      requires Exact()
      modifies this`free, this`mems
      ensures BufsOk() && MemsOk(m) && m in mems && m.data.Length == unit && m.holders == {}
      ensures old(mems) <= mems && fresh(mems - old(mems)) && (m in old(mems) ==> m in old(free))
    {
      if x :| x in free && x.data.Length == unit {
        m := x;
        free := free - {m};
      } else {
        m := new Mem(unit);
        mems := mems + {m};
      }
    }

    /** `Buf()` */
    method NewBuf(ghost x: Mem?) returns (b: Buf)
      requires BufsOk() && MemsOk(x)
      modifies this`bufs
      ensures BufsOk() && MemsOk(x) && fresh(b) && bufs == old(bufs) + {b} && b.View() == NOTHING
    {
      b := new Buf();
      bufs := bufs + {b};
    }

    /** `mpool.get` into a new Buf. */
    method Get(unit: nat) returns (b: Buf)
      requires Exact()
      modifies this, mems
      ensures Exact() && fresh(b) && bufs == old(bufs) + {b} && old(mems) <= mems && fresh(mems - old(mems))
      ensures b.mem in mems && b.View() == Slice(b.mem, 0, unit) && b.mem.data.Length == unit && b.mem.holders == {b}
      ensures b.mem in old(mems) ==> b.mem in old(free)
    {
      var m := Take(unit);
      b := NewBuf(m);
      Join(b, m, 0, unit);
    }

    /** `Buf(const Buf&)` */
    method Copy(g: Buf) returns (b: Buf)
      requires Exact() && g in bufs
      modifies this`bufs, g.mem
      ensures Exact() && fresh(b) && bufs == old(bufs) + {b} && b.View() == g.View()
    {
      b := NewBuf(null);
      if g.mem != null { Join(b, g.mem, g.off, g.len); }
    }

    /** `~Buf` */
    method Destroy(b: Buf)
      requires Exact() && b in bufs
      modifies this`bufs, this`free, b, b.mem
      ensures Exact() && bufs == old(bufs) - {b}
      ensures if old(b.mem) == null then free == old(free) else (old(b.mem) in free <==> old(b.mem.holders) == {b})
    {
      Leave(b);
      bufs := bufs - {b};
    }

    /** `operator=`: release what is held, take over what the other holds, add a reference to it. */
    method Assign(b: Buf, g: Buf)
      requires Exact() && b in bufs && g in bufs
      modifies this`free, b, b.mem, g.mem
      ensures Exact() && b.View() == old(g.View()) && (g != b ==> g.View() == old(g.View()))
    {
      if b == g { return; }
      Leave(b);
      if g.mem != null { Join(b, g.mem, g.off, g.len); }
    }

    /** One holder in place of another. */
    ghost method Relabel(m: Mem, b: Buf, to: Buf)
      requires CountsOk(null) && m in mems && b in m.holders && to !in m.holders
      modifies m`holders
      ensures CountsOk(null) && m.holders == old(m.holders) - {b} + {to}
    {
      Renamed(m.holders, b, to);
      m.holders := m.holders - {b} + {to};
    }

    /** What `b` refers to goes to `to`, in the books of the block too. */
    method Move(b: Buf, to: Buf)
      requires BufsOk() && CountsOk(null) && b in bufs && to in bufs && to.View() == NOTHING && b.mem != null
      requires to !in b.mem.holders
      modifies to, b, b.mem`holders
      ensures BufsOk() && CountsOk(null) && to.View() == old(b.View()) && b.View() == NOTHING
      ensures to.mem.holders == old(b.mem.holders) - {b} + {to}
    {
      hide BlockPool.CountsOk, BlockPool.HoldersOk;
      var m := b.mem;
      Relabel(m, b, to);
      to.mem, to.off, to.len := m, b.off, b.len;
      b.mem, b.off, b.len := null, 0, 0;
      forall x | x in bufs ensures BufOk(x) {
        if x != b && x != to { OtherOk(x, b, to); }
      }
    }

    /** Another Buf is as it was. */
    twostate lemma OtherOk(x: Buf, new b: Buf, new to: Buf)
      requires x in bufs && bufs == old(bufs) && mems == old(mems) && old(BufOk(x)) && unchanged(x) && x != b
      requires x.mem != null ==> x.mem.holders == old(x.mem.holders) || x.mem.holders == old(x.mem.holders) - {b} + {to}
      ensures BufOk(x)
    {
    }

    /** `dettach`, into a Buf that refers to nothing: no count changes. */
    method Hand(b: Buf, to: Buf)
      requires Exact() && b in bufs && to in bufs && to.View() == NOTHING && b.mem != null
      modifies to, b, b.mem`holders
      ensures Exact() && to.View() == old(b.View()) && b.View() == NOTHING
    {
      hide BlockPool.CountsOk, BlockPool.BufsOk, BlockPool.BufOk;
      KnowsMem(b);
      Move(b, to);
    }

    lemma KnowsMem(b: Buf)
      requires BufsOk() && b in bufs && b.mem != null
      ensures b.mem in mems && b in b.mem.holders
    {
      assert BufOk(b);
    }

    method HandAny(b: Buf, to: Buf)
      requires Exact() && b in bufs && to in bufs && to != b && to.View() == NOTHING
      modifies to, b, b.mem
      ensures Exact() && to.View() == old(b.View()) && b.View() == NOTHING
    {
      if b.mem != null { Hand(b, to); }
    }

    /** `swap`, through a temporary. */
    method Swap(b: Buf, g: Buf)
      requires Exact() && b in bufs && g in bufs
      modifies this`bufs, this`free, b, g, b.mem, g.mem
      ensures Exact() && bufs == old(bufs) && b.View() == old(g.View()) && g.View() == old(b.View())
    {
      hide BlockPool.BufsOk, BlockPool.MemsOk;
      if b == g { return; }
      var t := NewBuf(null);
      HandAny(b, t);
      HandAny(g, b);
      HandAny(t, g);
      Destroy(t);
    }

    /** `push_back`: an empty slot takes over what `dettach` leaves the Buf without. */
    method PushBack(slot: Buf, b: Buf)
      requires Exact() && slot in bufs && b in bufs && slot.View() == NOTHING && b.mem != null
      modifies slot, b, b.mem`holders
      ensures Exact() && slot.View() == old(b.View()) && b.View() == NOTHING
    {
      Hand(b, slot);
    }

    /** `clear`: every slot is released, in order; what they held comes back unless somebody else holds it. */
    method Clear(slots: seq<Buf>)
      requires Exact() && forall b :: b in slots ==> b in bufs
      modifies this`free, slots, mems
      ensures Exact() && forall b :: b in slots ==> b.View() == NOTHING
    {
      for i := 0 to |slots|
        invariant Exact() && forall k :: 0 <= k < i ==> slots[k].View() == NOTHING
      {
        assert BufOk(slots[i]);
        Leave(slots[i]);
      }
    }
  }

  lemma Renamed(s: set<Buf>, b: Buf, c: Buf)
    requires b in s && c !in s
    ensures |s - {b} + {c}| == |s|
  {
  }

  /** The count is the number of Bufs that refer to the block. */
  lemma CountIsHolders(p: BlockPool, m: Mem)
    requires p.Exact() && m in p.mems
    ensures m.ref == |set b | b in p.bufs && b.mem == m|
    ensures m in p.free <==> forall b :: b in p.bufs ==> b.mem != m
  {
    assert m.holders == set b | b in p.bufs && b.mem == m;
  }

  lemma NoOther(p: BlockPool, b: Buf)
    requires p.Exact() && b in p.bufs && b.mem != null && b.mem.holders == {b}
    ensures forall x :: x in p.bufs && x != b ==> x.mem != b.mem
  {
  }

  lemma SoleHolder(p: BlockPool, c: Buf)
    requires p.Exact() && c in p.bufs && c.mem != null && forall x :: x in p.bufs && x != c ==> x.mem != c.mem
    ensures c.mem in p.mems && c.mem.ref == 1 && c.mem !in p.free
  {
    CountIsHolders(p, c.mem);
    assert (set b | b in p.bufs && b.mem == c.mem) == {c};
  }

  /** A Buf is copied and sent, and the batch is cleared: the copy alone holds the block, which stays out of the
      pool. */
  method SendCopy(p: BlockPool, unit: nat) returns (c: Buf)
    requires p.Exact()
    modifies p, p.mems
    ensures p.Exact() && c in p.bufs && c.mem in p.mems && c.View() == Slice(c.mem, 0, unit)
    ensures c.mem.ref == 1 && c.mem !in p.free && forall x :: x in p.bufs && x != c ==> x.mem != c.mem
  {
    hide BlockPool.BufsOk, BlockPool.MemsOk;
    var b := p.Get(unit);
    NoOther(p, b);
    c := p.Copy(b);
    var slot := p.NewBuf(null);
    p.PushBack(slot, b);
    ghost var m := c.mem;
    assert forall x :: x in p.bufs && x != c && x != slot ==> x.mem != m;
    p.Clear([slot]);
    assert slot.mem == null by { assert slot.View() == NOTHING; }
    SoleHolder(p, c);
  }
}
