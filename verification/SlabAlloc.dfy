/** `MemAlloc`: one allocation is carved into `Mem` headers, each followed by its block. Addresses are of a 64-bit
    build. */
module SlabAlloc {
  import opened Bytes

  /** A size class: `cnt` blocks of `unit` bytes. */
  datatype Class = Class(unit: u32, cnt: u32)

  /** Where a `Mem` is, and the block its `addr_` points to. */
  datatype Piece = Piece(header: nat, addr: nat, unit: nat)

  /** `mem_size`: `header` bytes per `Mem` in `size_t`, and the blocks, whose product is one of two `uint32_t`. */
  function MemSize(header: nat, c: Class): nat { header * c.cnt + (c.unit * c.cnt) % TWO32 }

  function SlabSize(header: nat, cs: seq<Class>): nat {
    if cs == [] then 0 else SlabSize(header, cs[..|cs| - 1]) + MemSize(header, cs[|cs| - 1])
  }

  /** The `i`-th piece carved from `p` on. */
  function PieceAt(header: nat, p: nat, unit: nat, i: nat): Piece {
    Piece(p + i * (header + unit), p + i * (header + unit) + header, unit)
  }

  /** The bytes a class takes up once it is carved. */
  function Span(header: nat, c: Class): nat { c.cnt * (header + c.unit) }

  /** The pieces carved from `p` on, in list order: the last one first. */
  ghost predicate Carved(header: nat, p: nat, c: Class, list: seq<Piece>) {
    |list| == c.cnt && forall i :: 0 <= i < c.cnt ==> list[c.cnt - 1 - i] == PieceAt(header, p, c.unit, i)
  }

  /** `set_mem_list`, and where the next class begins. */
  method SetMemList(header: nat, p: nat, c: Class) returns (end: nat, list: seq<Piece>)
    ensures end == p + Span(header, c) && Carved(header, p, c, list)
  {
    var unit, cnt := c.unit, c.cnt;
    end, list := p, [];
    for i := 0 to cnt
      invariant end == p + i * (header + unit) && |list| == i
      invariant forall k :: 0 <= k < i ==> list[i - 1 - k] == PieceAt(header, p, unit, k)
    {
      assert (i + 1) * (header + unit) == i * (header + unit) + header + unit;
      var m := end;
      end := end + header;
      var addr := end;
      end := end + unit;
      list := [Piece(m, addr, unit)] + list;
    }
  }

  /** Two pieces have no byte in common, and neither has its header over its own block. */
  predicate Apart(header: nat, x: Piece, y: Piece) {
    && x.header + header == x.addr && y.header + header == y.addr
    && (x.addr + x.unit <= y.header || y.addr + y.unit <= x.header)
  }

  lemma MulMono(a: nat, b: nat, k: nat)
    requires a <= b
    ensures a * k <= b * k
  {
  }

  /** The pieces carved in one go are disjoint and in order. */
  lemma PiecesApart(header: nat, p: nat, unit: nat, i: nat, j: nat)
    requires i < j
    ensures Apart(header, PieceAt(header, p, unit, i), PieceAt(header, p, unit, j))
  {
    MulMono(i + 1, j, header + unit);
    assert (i + 1) * (header + unit) == i * (header + unit) + header + unit;
  }

  /** All `cnt` pieces lie below `p + size`. */
  ghost predicate Fits(header: nat, p: nat, c: Class, size: nat) {
    forall i :: 0 <= i < c.cnt ==> PieceAt(header, p, c.unit, i).addr + c.unit <= p + size
  }

  lemma PiecesEnd(header: nat, p: nat, c: Class, size: nat)
    ensures Fits(header, p, c, size) <==> c.cnt == 0 || c.cnt * (header + c.unit) <= size
  {
    var w := header + c.unit;
    forall i | 0 <= i < c.cnt
      ensures PieceAt(header, p, c.unit, i).addr + c.unit == p + (i + 1) * w && (i + 1) * w <= c.cnt * w
    {
      MulMono(i + 1, c.cnt, w);
      assert (i + 1) * w == i * w + w;
    }
    if c.cnt > 0 {
      assert PieceAt(header, p, c.unit, c.cnt - 1).addr + c.unit == p + c.cnt * w;
    }
  }

  lemma ModBelow(n: nat)
    ensures n % TWO32 <= n && (n % TWO32 == n <==> n < TWO32)
  {
  }

  /** The slab `new_mem` allocates holds its pieces exactly when the blocks together are smaller than 2^32 bytes. */
  lemma SlabHoldsExactlyWhen(header: nat, p: nat, c: Class)
    ensures Fits(header, p, c, MemSize(header, c)) <==> c.unit * c.cnt < TWO32
  {
    PiecesEnd(header, p, c, MemSize(header, c));
    assert c.cnt * (header + c.unit) == header * c.cnt + c.unit * c.cnt;
    ModBelow(c.unit * c.cnt);
  }

  /** A configuration for which it does not: 4096 blocks of 1 MB get a slab for the headers alone. */
  lemma LargeSlabTooSmall(header: nat, p: nat)
    ensures MemSize(header, Class(0x10_0000, 0x1000)) == header * 0x1000
    ensures !Fits(header, p, Class(0x10_0000, 0x1000), MemSize(header, Class(0x10_0000, 0x1000)))
  {
    assert 0x10_0000 * 0x1000 == TWO32;
    SlabHoldsExactlyWhen(header, p, Class(0x10_0000, 0x1000));
  }

  // ---- the slab of the shared heap: one class behind the other

  /** Where the carving of class `k` begins. */
  function Begin(header: nat, p: nat, cs: seq<Class>, k: nat): nat
    requires k <= |cs|
  {
    if k == 0 then p else Begin(header, p, cs, k - 1) + Span(header, cs[k - 1])
  }

  /** Every class is carved inside the slab of `SlabSize`. */
  ghost predicate HeapFits(header: nat, p: nat, cs: seq<Class>) {
    Begin(header, p, cs, |cs|) <= p + SlabSize(header, cs)
  }

  ghost predicate AllSmall(cs: seq<Class>) { forall k :: 0 <= k < |cs| ==> cs[k].unit * cs[k].cnt < TWO32 }

  lemma {:induction false} BeginPrefix(header: nat, p: nat, cs: seq<Class>, n: nat, k: nat)
    requires k <= n <= |cs|
    ensures Begin(header, p, cs, k) == Begin(header, p, cs[..n], k)
  {
    if k > 0 { BeginPrefix(header, p, cs, n, k - 1); }
  }

  lemma {:induction false} HeapNeeds(header: nat, p: nat, cs: seq<Class>)
    ensures Begin(header, p, cs, |cs|) >= p + SlabSize(header, cs)
    ensures Begin(header, p, cs, |cs|) == p + SlabSize(header, cs) <==> AllSmall(cs)
  {
    if cs != [] {
      var n := |cs| - 1;
      var c := cs[n];
      HeapNeeds(header, p, cs[..n]);
      BeginPrefix(header, p, cs, n, n);
      assert c.cnt * (header + c.unit) == header * c.cnt + c.unit * c.cnt;
      ModBelow(c.unit * c.cnt);
      assert AllSmall(cs) <==> AllSmall(cs[..n]) && c.unit * c.cnt < TWO32;
    }
  }

  /** The shared heap's slab holds all its classes exactly when the blocks of each are smaller than 2^32 bytes. */
  lemma HeapHoldsExactlyWhen(header: nat, p: nat, cs: seq<Class>)
    ensures HeapFits(header, p, cs) <==> AllSmall(cs)
  {
    HeapNeeds(header, p, cs);
  }

  lemma {:induction false} BeginsInOrder(header: nat, p: nat, cs: seq<Class>, k: nat, l: nat)
    requires k < l <= |cs|
    ensures Begin(header, p, cs, k) + Span(header, cs[k]) <= Begin(header, p, cs, l)
  {
    hide Span;
    if k + 1 < l { BeginsInOrder(header, p, cs, k, l - 1); }
  }

  lemma PieceInSpan(header: nat, p: nat, c: Class, i: nat)
    requires i < c.cnt
    ensures var x := PieceAt(header, p, c.unit, i);
            p <= x.header && x.header + header == x.addr && x.addr + x.unit <= p + Span(header, c)
  {
    var w := header + c.unit;
    MulMono(i + 1, c.cnt, w);
    assert (i + 1) * w == i * w + w;
  }

  /** And pieces of different classes are disjoint. */
  lemma HeapPiecesApart(header: nat, p: nat, cs: seq<Class>, k: nat, i: nat, l: nat, j: nat)
    requires k < l < |cs| && i < cs[k].cnt && j < cs[l].cnt
    ensures Apart(header, PieceAt(header, Begin(header, p, cs, k), cs[k].unit, i),
                          PieceAt(header, Begin(header, p, cs, l), cs[l].unit, j))
  {
    hide PieceAt, Span, Begin;
    BeginsInOrder(header, p, cs, k, l);
    PieceInSpan(header, Begin(header, p, cs, k), cs[k], i);
    PieceInSpan(header, Begin(header, p, cs, l), cs[l], j);
  }

  lemma SlabNext(header: nat, p: nat, cs: seq<Class>, k: nat)
    requires k < |cs|
    ensures Begin(header, p, cs, k + 1) == Begin(header, p, cs, k) + Span(header, cs[k])
    ensures SlabSize(header, cs[..k + 1]) == SlabSize(header, cs[..k]) + MemSize(header, cs[k])
  {
    assert cs[..k + 1][..k] == cs[..k];
  }

  lemma SlabAll(header: nat, p: nat, cs: seq<Class>)
    ensures SlabSize(header, cs[..0]) == 0 && SlabSize(header, cs[..|cs|]) == SlabSize(header, cs)
    ensures Begin(header, p, cs, 0) == p
  {
    assert cs[..|cs|] == cs;
  }

  // ---- the totals reported

  /** How many blocks of `unit` the first `k` classes have. */
  function Blocks(cs: seq<Class>, k: nat, unit: nat): nat
    requires k <= |cs|
  {
    if k == 0 then 0 else Blocks(cs, k - 1, unit) + if cs[k - 1].unit == unit then cs[k - 1].cnt else 0
  }

  /** The units of a configuration are the keys of a map, so each class's own total is its count. */
  lemma {:induction false} BlocksOfClass(cs: seq<Class>, k: nat, n: nat)
    requires k < |cs| && n <= |cs| && forall i, j :: 0 <= i < j < |cs| ==> cs[i].unit != cs[j].unit
    ensures Blocks(cs, n, cs[k].unit) == if k < n then cs[k].cnt else 0
  {
    if n > 0 { BlocksOfClass(cs, k, n - 1); }
  }

  /** `MemAlloc`: the size of a `Mem`, and the blocks made of each unit. */
  class MemAlloc {
    const header: nat
    var total: map<nat, nat>

    constructor (memSize: nat)
      ensures header == memSize && total == map[]
    {
      header, total := memSize, map[];
    }

    function Total(unit: nat): nat
      reads this
    {
      if unit in total then total[unit] else 0
    }

    /** `new_mem`: allocate at `p`, carve. */
    method NewMem(p: nat, c: Class) returns (size: nat, list: seq<Piece>)
      modifies this`total
      ensures size == MemSize(header, c) && Carved(header, p, c, list)
      ensures forall u :: Total(u) == old(Total(u)) + if u == c.unit then c.cnt else 0
    {
      hide Carved, MemSize;
      size := MemSize(header, c);
      var end;
      end, list := SetMemList(header, p, c);
      total := total[c.unit := Total(c.unit) + c.cnt];
    }

    /** `new_mem_for_heap`: size up all classes, allocate at `p`, carve. */
    method NewMemForHeap(p: nat, cs: seq<Class>) returns (size: nat, lists: seq<seq<Piece>>)
      modifies this`total
      ensures size == SlabSize(header, cs) && |lists| == |cs|
      ensures forall k :: 0 <= k < |cs| ==> Carved(header, Begin(header, p, cs, k), cs[k], lists[k])
      ensures forall u :: Total(u) == old(Total(u)) + Blocks(cs, |cs|, u)
    {
      hide Carved, Span, MemSize, SlabSize, Begin;
      size := 0;
      SlabAll(header, p, cs);
      for k := 0 to |cs|
        invariant size == SlabSize(header, cs[..k])
        invariant total == old(total)
      {
        SlabNext(header, p, cs, k);
        size := size + MemSize(header, cs[k]);
      }
      lists := [];
      var b := p;
      for k := 0 to |cs|
        invariant b == Begin(header, p, cs, k) && |lists| == k
        invariant forall l :: 0 <= l < k ==> Carved(header, Begin(header, p, cs, l), cs[l], lists[l])
        invariant forall u :: Total(u) == old(Total(u)) + Blocks(cs, k, u)
      {
        SlabNext(header, p, cs, k);
        var end, list := SetMemList(header, b, cs[k]);
        lists := lists + [list];
        b := end;
        total := total[cs[k].unit := Total(cs[k].unit) + cs[k].cnt];
      }
    }
  }
}
