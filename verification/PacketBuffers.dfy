/** The Bufs given to `on_recv` are the packets of the stream, for as long as anybody holds them. */
module PacketBuffers {
  import opened Bytes
  import opened Seqs
  import opened Options
  import opened PacketStream
  import opened BufMemory
  import opened ZeroCopy

  /** The chunks that have arrived on the connection, what `on_recv` was given, and which of these each Buf is or is a
      copy of. */
  datatype Log = Log(chunks: seq<seq<byte>>, given: seq<seq<byte>>, index: map<Holder, nat>)

  /** The bytes in the receive window. */
  function Data(z: Z): seq<byte>
    requires ZInv(z) && Recv in z.s.bufs
  {
    BytesOf(z.s, Recv)[z.head..z.tail]
  }

  /** `move_tail` is when a chunk has arrived. */
  function Note(z: Z, o: Op, l: Log): Log
    requires ZInv(z) && CanDo(z, o)
  {
    match o
    case UserGet(h, _, _) => l.(index := l.index - {h})
    case UserCopy(h, g) => l.(index := Keep(l.index, h, g))
    case UserAssign(h, g) => l.(index := Keep(l.index, h, g))
    case UserSwap(h, g) => l.(index := Exchange(l.index, h, g))
    case UserDrop(h) => l.(index := l.index - {h})
    case ClearSlots(batch, n) => l.(index := l.index - SlotsOf(batch, n))
    case Queue(slot, h) => l.(index := Keep(l.index, slot, h) - {h})
    case Init(_, _) => Log([], [], map[])
    case MoveTail(n) => l.(chunks := l.chunks + [BytesOf(z.s, Recv)[z.tail..z.tail + n]])
    case Deliver(h, n) => Log(l.chunks, l.given + [Data(z)[..n]], l.index[h := |l.given|])
    case _ => l
  }

  /** Only whole packets are given to `on_recv`. */
  predicate ByParser(header: nat, z: Z, o: Op)
    requires ZInv(z) && CanDo(z, o)
  {
    o.Deliver? ==> Complete(header, Data(z)[..o.n])
  }

  ghost predicate ParserRuns(header: nat, z: Z, os: seq<Op>)
    requires ZInv(z)
    decreases |os|
  {
    os == [] || (CanDo(z, os[0]) && ByParser(header, z, os[0]) && ParserRuns(header, Next(z, os[0]), os[1..]))
  }

  ghost function NoteAll(header: nat, z: Z, os: seq<Op>, l: Log): (Z, Log)
    requires ZInv(z) && ParserRuns(header, z, os)
    decreases |os|
  {
    if os == [] then (z, l) else NoteAll(header, Next(z, os[0]), os[1..], Note(z, os[0], l))
  }

  // ---- what every operation keeps

  /** Nothing that arrived is lost or reordered: it was given, or is in the window. */
  ghost predicate StreamOk(z: Z, l: Log)
    requires ZInv(z)
  {
    && Concat(l.given) <= Concat(l.chunks)
    && (Recv in z.s.bufs ==> Concat(l.chunks) == Concat(l.given) + Data(z))
  }

  ghost predicate IndexOk(snap: map<Holder, seq<byte>>, l: Log) {
    forall h :: h in l.index ==> l.index[h] < |l.given| && h in snap && snap[h] == l.given[l.index[h]]
  }

  ghost predicate AllComplete(header: nat, l: Log) { forall p :: p in l.given ==> Complete(header, p) }

  lemma IndexDelivers(z: Z, o: Op, l: Log)
    requires ZInv(z) && CanDo(z, o) && o.Deliver? && IndexOk(z.snap, l)
    ensures IndexOk(Next(z, o).snap, Note(z, o, l))
  {
    hide Exact, Fine, User;
    assert Data(z)[..o.n] == BytesOf(z.s, Recv)[z.head..z.head + o.n];
    assert DoDeliver(z, o.h, o.n).snap == z.snap[o.h := Data(z)[..o.n]];
  }

  lemma IndexKept(z: Z, o: Op, l: Log)
    requires ZInv(z) && CanDo(z, o) && IndexOk(z.snap, l)
    ensures IndexOk(Next(z, o).snap, Note(z, o, l))
  {
    hide ZInv, CanDo, DoDeliver, BytesOf, Data, Get, Copy, Assign, Swap, Destroy, ClearBatch, PushBack, Write;
    if o.Deliver? { IndexDelivers(z, o, l); }
  }

  predicate AmongUsers(o: Op) {
    o.UserGet? || o.UserCopy? || o.UserAssign? || o.UserSwap? || o.UserDrop? || o.Queue? || o.ClearSlots?
  }

  /** The receive buffer, its block and its window are as they were. */
  ghost predicate SameWindow(z: Z, z': Z) {
    && z'.head == z.head && z'.tail == z.tail
    && Held(z'.s.bufs, Recv) == Held(z.s.bufs, Recv)
    && (Recv in z.s.bufs ==>
          var m := z.s.bufs[Recv].mem; m in z.s.blocks && m in z'.s.blocks && z'.s.blocks[m] == z.s.blocks[m])
  }

  lemma SameData(z: Z, z': Z)
    requires ZInv(z) && ZInv(z') && SameWindow(z, z')
    ensures (Recv in z'.s.bufs <==> Recv in z.s.bufs) && (Recv in z.s.bufs ==> Data(z') == Data(z))
  {
  }

  /** What users do leaves it alone. */
  lemma WindowStays(z: Z, o: Op)
    requires ZInv(z) && CanDo(z, o) && AmongUsers(o)
    ensures SameWindow(z, Next(z, o))
  {
    hide Exact;
    match o {
      case UserGet(h, m, _) => GetLeavesBlock(z, m);
      case UserSwap(k, g) => SwappedOthers(z.s, k, g, Recv);
      case ClearSlots(batch, n) => ClearBatchExact(z.s, batch, n);
      case UserAssign(k, g) => AssignExact(z.s, k, g);
      case _ =>
    }
  }

  lemma GetLeavesBlock(z: Z, m: MemId)
    requires ZInv(z) && CanGet(z.s, m)
    ensures Recv in z.s.bufs ==> z.s.bufs[Recv].mem != m
  {
    FreeHasNoHolder(z.s, m);
  }

  lemma StreamStays(z: Z, o: Op, l: Log)
    requires ZInv(z) && CanDo(z, o) && AmongUsers(o) && StreamOk(z, l)
    ensures StreamOk(Next(z, o), Note(z, o, l))
  {
    WindowStays(z, o);
    SameData(z, Next(z, o));
    hide Next, SameWindow, Data;
  }

  lemma ConcatLast(ps: seq<seq<byte>>, p: seq<byte>)
    ensures Concat(ps + [p]) == Concat(ps) + p
  {
    ConcatAppend(ps, [p]);
    ConcatCons(p, []);
    AppendNil(p);
  }

  lemma HeadMoves(z: Z, h: Holder, n: nat)
    requires ZInv(z) && CanDo(z, Deliver(h, n))
    ensures n <= |Data(z)| && Recv in Next(z, Deliver(h, n)).s.bufs && Data(Next(z, Deliver(h, n))) == Data(z)[n..]
  {
    hide Exact, Fine, DoDeliver;
    DeliveredStore(z, h, n);
    DeliveredWindow(z, h, n);
  }

  lemma DeliveredWindow(z: Z, h: Holder, n: nat)
    requires ZInv(z) && CanDo(z, Deliver(h, n))
    ensures DoDeliver(z, h, n).head == z.head + n && DoDeliver(z, h, n).tail == z.tail
  {
  }

  /** A packet cut off moves from the window to what was given. */
  lemma StreamDelivers(z: Z, o: Op, l: Log)
    requires ZInv(z) && CanDo(z, o) && o.Deliver? && StreamOk(z, l)
    ensures StreamOk(Next(z, o), Note(z, o, l))
  {
    hide ZInv, Data, Concat, BytesOf, Next;
    HeadMoves(z, o.h, o.n);
    var d := Data(z);
    ConcatLast(l.given, d[..o.n]);
    SplitAt(d, o.n);
    AppendAssoc(Concat(l.given), d[..o.n], d[o.n..]);
  }

  lemma TailMoves(z: Z, n: nat)
    requires ZInv(z) && CanDo(z, MoveTail(n))
    ensures Data(Next(z, MoveTail(n))) == Data(z) + BytesOf(z.s, Recv)[z.tail..z.tail + n]
  {
  }

  lemma StreamArrives(z: Z, o: Op, l: Log)
    requires ZInv(z) && CanDo(z, o) && o.MoveTail? && StreamOk(z, l)
    ensures StreamOk(Next(z, o), Note(z, o, l))
  {
    hide Data, Concat, Exact, User;
    var chunk := BytesOf(z.s, Recv)[z.tail..z.tail + o.n];
    TailMoves(z, o.n);
    ConcatLast(l.chunks, chunk);
    AppendAssoc(Concat(l.given), Data(z), chunk);
  }

  lemma WriteLeaves(bs: seq<byte>, at: nat, b: byte, lo: nat, hi: nat)
    requires lo <= hi <= at < |bs|
    ensures Write(bs, at, b)[0..|bs|][lo..hi] == bs[0..|bs|][lo..hi]
  {
    var r := Write(bs, at, b);
    assert r[0..|bs|] == r && bs[0..|bs|] == bs;
    assert forall i :: lo <= i < hi ==> r[i] == bs[i];
  }

  /** The system writes behind the window. */
  lemma WriteBehind(z: Z, at: nat, b: byte)
    requires ZInv(z) && CanDo(z, OsWrite(at, b))
    ensures Recv in Next(z, OsWrite(at, b)).s.bufs && Data(Next(z, OsWrite(at, b))) == Data(z)
  {
    hide Exact, Fine, User, Write;
    WriteLeaves(z.s.blocks[z.s.bufs[Recv].mem], at, b, z.head, z.tail);
  }

  lemma StreamElsewhere(z: Z, o: Op, l: Log)
    requires ZInv(z) && CanDo(z, o) && (o.OsWrite? || o.Init? || o.Uninit? || o.ChangeBlock?)
    requires StreamOk(z, l)
    ensures StreamOk(Next(z, o), Note(z, o, l))
  {
    hide ZInv, Data, Next;
    match o {
      case OsWrite(at, b) => WriteBehind(z, at, b);
      case ChangeBlock(m, room) => ChangeMoves(z, m, room);
      case Init(m, bytes) => StartsEmpty(z, m, bytes);
      case Uninit => Ends(z);
    }
  }

  lemma ChangeMoves(z: Z, m: MemId, room: seq<byte>)
    requires ZInv(z) && CanDo(z, ChangeBlock(m, room))
    ensures var z' := Next(z, ChangeBlock(m, room)); Recv in z'.s.bufs && Data(z') == Data(z)
  {
    ChangeKeepsData(z, m, room);
    ChangedStore(z, m, room);
  }

  lemma StartsEmpty(z: Z, m: MemId, bytes: seq<byte>)
    requires ZInv(z) && CanDo(z, Init(m, bytes))
    ensures Recv in Next(z, Init(m, bytes)).s.bufs && Data(Next(z, Init(m, bytes))) == []
  {
  }

  lemma Ends(z: Z)
    requires ZInv(z) && CanDo(z, Uninit)
    ensures Recv !in Next(z, Uninit).s.bufs
  {
  }

  lemma {:induction false} NoteKeeps(header: nat, z: Z, os: seq<Op>, l: Log)
    requires header >= 4 && ZInv(z) && ParserRuns(header, z, os)
    requires StreamOk(z, l) && IndexOk(z.snap, l) && AllComplete(header, l)
    ensures var (z', l') := NoteAll(header, z, os, l);
            ZInv(z') && StreamOk(z', l') && IndexOk(z'.snap, l') && AllComplete(header, l')
    decreases |os|
  {
    hide ZInv, CanDo, StreamOk, IndexOk, Next;
    if os != [] {
      var o := os[0];
      IndexKept(z, o, l);
      if AmongUsers(o) {
        StreamStays(z, o, l);
      } else if o.Deliver? {
        StreamDelivers(z, o, l);
      } else if o.MoveTail? {
        StreamArrives(z, o, l);
      } else {
        StreamElsewhere(z, o, l);
      }
      NoteKeeps(header, Next(z, o), os[1..], Note(z, o, l));
    }
  }

  // ---- the packets

  /** What was given is what the parser finds first in all that arrived. */
  lemma GivenAreFirst(header: nat, ps: seq<seq<byte>>, rest: seq<byte>)
    requires header >= 4 && forall p :: p in ps ==> Complete(header, p)
    ensures Parse(header, Concat(ps) + rest).packets == ps + Parse(header, rest).packets
  {
    ParsePackets(header, ps);
    ParseMore(header, Concat(ps), rest);
    AppendNil(rest);
  }

  lemma LogIsParsed(header: nat, z: Z, l: Log)
    requires header >= 4 && ZInv(z) && StreamOk(z, l) && AllComplete(header, l)
    ensures var packets := Parse(header, Concat(l.chunks)).packets;
            && l.given <= packets
            && (Recv in z.s.bufs && Parse(header, Data(z)).packets == [] ==> l.given == packets)
  {
    hide ZInv, Parse, Concat, Data;
    var given, all := Concat(l.given), Concat(l.chunks);
    var rest := all[|given|..];
    assert all == given + rest;
    assert Recv in z.s.bufs ==> rest == Data(z);
    GivenAreFirst(header, l.given, rest);
    AppendNil(l.given);
  }

  /** A Buf that stands for one given reads as that one. */
  lemma BufIsGiven(z: Z, l: Log, h: Holder)
    requires ZInv(z) && IndexOk(z.snap, l) && User(h) && h in z.s.bufs && h in l.index
    ensures l.index[h] < |l.given| && Inside(z.s, z.s.bufs[h]) && BytesOf(z.s, h) == l.given[l.index[h]]
  {
    assert Fine(z, h);
  }

  const NOTHING: Log := Log([], [], map[])

  /** On every connection, over every run in which users do what they like with their Bufs and the receive buffer is
      exchanged at any time: what `on_recv` was given are the first packets of all that arrived, all of them when the
      window starts no whole packet; and a Buf that is, or is a copy of, the `i`-th one given reads as the `i`-th packet
      for as long as it is held. */
  lemma HeldIsItsPacket(header: nat, os: seq<Op>, h: Holder)
    requires header >= 4 && ParserRuns(header, EMPTY, os)
    ensures var (z, l) := NoteAll(header, EMPTY, os, NOTHING);
            var packets := Parse(header, Concat(l.chunks)).packets;
            && ZInv(z) && l.given <= packets
            && (Recv in z.s.bufs && Parse(header, Data(z)).packets == [] ==> l.given == packets)
            && (User(h) && h in z.s.bufs && h in l.index ==>
                  && l.index[h] < |packets| && Inside(z.s, z.s.bufs[h])
                  && BytesOf(z.s, h) == packets[l.index[h]])
  {
    hide ZInv, StreamOk, IndexOk, AllComplete, Parse, Concat, Data, NoteAll, ParserRuns;
    StartOk(header);
    NoteKeeps(header, EMPTY, os, NOTHING);
    var (z, l) := NoteAll(header, EMPTY, os, NOTHING);
    LogIsParsed(header, z, l);
    if User(h) && h in z.s.bufs && h in l.index { BufIsGiven(z, l, h); }
  }

  lemma StartOk(header: nat)
    ensures ZInv(EMPTY) && StreamOk(EMPTY, NOTHING) && IndexOk(EMPTY.snap, NOTHING) && AllComplete(header, NOTHING)
  {
  }
}
