/** `RBuf` and the receive handler: a buffer that grows, shrinks and is exchanged while packets are cut out of it. */
module ReceiveBuffer {
  import opened Bytes
  import opened Seqs
  import opened PacketStream
  import opened UnitClasses

  /** Pool units, `receive_buffer_size()` and `header_size()` (also the remaining size at which the block is
      exchanged). */
  datatype RCfg = RCfg(units: seq<nat>, defaultSize: nat, header: nat)

  predicate ValidRCfg(c: RCfg) { ValidUnits(c.units) && c.header >= 4 }

  /** A block of `unit` bytes with the bytes received and not yet consumed at offset `head`. */
  datatype View = View(unit: nat, head: nat, data: seq<byte>)

  function Tail(v: View): nat { v.head + |v.data| }

  function Remain(v: View): int { v.unit - Tail(v) }

  function Fresh(c: RCfg): View { View(RoundUp(c.units, c.defaultSize), 0, []) }

  /** `change(size)`: move the unconsumed bytes to the start of another block. */
  function Change(c: RCfg, v: View, size: nat): View { View(RoundUp(c.units, size), 0, v.data) }

  function CheckSize(c: RCfg, v: View, packet: nat): View {
    if v.unit < packet then Change(c, v, packet * 2) else v
  }

  function CheckArrange(c: RCfg, v: View): View {
    if c.defaultSize < v.unit && |v.data| < c.defaultSize then Change(c, v, c.defaultSize)
    else if Remain(v) <= c.header then Change(c, v, v.unit)
    else v
  }

  /** The receive side of a session: the buffer, what `on_recv` was given, and whether an invalid size ended it. */
  datatype Recv = Recv(v: View, delivered: seq<seq<byte>>, open: bool)

  /** `_on_recv` for `chunk`, which the OS has put at the tail. */
  function Receive(c: RCfg, r: Recv, chunk: seq<byte>): Recv
    requires c.header >= 4
  {
    var p := Parse(c.header, r.v.data + chunk);
    var v := Consumed(r.v, chunk, p.rest);
    if p.bad then Recv(v, r.delivered + p.packets, false)
    else Recv(Rearrange(c, v), r.delivered + p.packets, true)
  }

  /** The buffer once `chunk` is in and everything before `rest` has been cut off. */
  function Consumed(v: View, chunk: seq<byte>, rest: seq<byte>): View
    requires |rest| <= |v.data + chunk|
  {
    View(v.unit, Tail(v) + |chunk| - |rest|, rest)
  }

  /** The end of `_on_recv`: make room for the packet at hand, then shrink or exchange. */
  function Rearrange(c: RCfg, v: View): View {
    CheckArrange(c, if HasSize(c.header, v.data) then CheckSize(c, v, ReadU32(v.data)) else v)
  }

  // ---- room

  /** The data starts no complete packet and no invalid one. */
  predicate Waiting(c: RCfg, v: View) {
    HasSize(c.header, v.data) ==> ValidSize(ReadU32(v.data)) && |v.data| < ReadU32(v.data)
  }

  function Max(a: nat, b: nat): nat { if a < b then b else a }

  /** The largest block the buffer ever asks for: the pool rounding of the default size or twice the largest packet. */
  function Capacity(c: RCfg): nat { RoundUp(c.units, Max(c.defaultSize, 2 * MAX_PACKET)) }

  predicate Block(c: RCfg, v: View) {
    && RoundUp(c.units, c.defaultSize) <= v.unit <= Capacity(c)
    && RoundUp(c.units, v.unit) == v.unit
    && Tail(v) <= v.unit
  }

  /** A request of `size` bytes by `change`: the new block holds the data it copies, and is no larger than allowed. */
  lemma ChangeFits(c: RCfg, v: View, size: nat)
    requires ValidRCfg(c) && |v.data| <= size && c.defaultSize <= size
    requires size <= Max(c.defaultSize, 2 * MAX_PACKET) || (RoundUp(c.units, size) == size && size <= Capacity(c))
    ensures Block(c, Change(c, v, size)) && size <= Change(c, v, size).unit
  {
    RoundUpFits(c.units, size);
    RoundUpIdempotent(c.units, size);
    RoundUpMonotone(c.units, c.defaultSize, size);
    if size <= Max(c.defaultSize, 2 * MAX_PACKET) {
      RoundUpMonotone(c.units, size, Max(c.defaultSize, 2 * MAX_PACKET));
    }
  }

  lemma CheckSizeFits(c: RCfg, v: View, packet: nat)
    requires ValidRCfg(c) && Block(c, v) && |v.data| < packet && ValidSize(packet)
    ensures Block(c, CheckSize(c, v, packet)) && CheckSize(c, v, packet).unit >= packet
    ensures CheckSize(c, v, packet).data == v.data
    ensures packet <= v.unit ==> CheckSize(c, v, packet) == v
    ensures v.unit < packet ==>
              var n := CheckSize(c, v, packet).unit;
              && 2 * packet <= n && (n == 2 * packet || n in c.units)
              && forall u :: u in c.units && 2 * packet <= u ==> n <= u
  {
    RoundUpFits(c.units, c.defaultSize);
    if v.unit < packet {
      ChangeFits(c, v, packet * 2);
      RoundUpFits(c.units, packet * 2);
    }
  }

  /** Little data is in a block for the default size, and the block is new or has more room than a header. */
  predicate Arranged(c: RCfg, v: View) {
    && (|v.data| < c.defaultSize ==> v.unit == RoundUp(c.units, c.defaultSize))
    && (v.head == 0 || Remain(v) > c.header)
  }

  /** The packet at hand, too large for little data, has its block. */
  predicate Settled(c: RCfg, v: View) {
    && Arranged(c, v)
    && (HasSize(c.header, v.data) && |v.data| >= c.defaultSize ==> ReadU32(v.data) <= v.unit)
  }

  /** Whatever shrinking undoes, the tail stays below the end of the block. */
  lemma CheckArrangeLeavesRoom(c: RCfg, v: View)
    requires ValidRCfg(c) && Block(c, v) && |v.data| < v.unit
    ensures Block(c, CheckArrange(c, v)) && Remain(CheckArrange(c, v)) >= 1
    ensures CheckArrange(c, v).data == v.data && Arranged(c, CheckArrange(c, v))
    ensures Arranged(c, v) && (RoundUp(c.units, c.defaultSize) == c.defaultSize || v.head == 0) ==>
              CheckArrange(c, v) == v
    ensures CheckArrange(c, v).unit == v.unit || |v.data| < c.defaultSize
  {
    RoundUpFits(c.units, c.defaultSize);
    if c.defaultSize < v.unit && |v.data| < c.defaultSize {
      ChangeFits(c, v, c.defaultSize);
    } else if Remain(v) <= c.header {
      ChangeFits(c, v, v.unit);
    }
  }

  lemma RearrangeLeavesRoom(c: RCfg, v: View)
    requires ValidRCfg(c) && RoundUp(c.units, c.defaultSize) >= c.header && Block(c, v) && Waiting(c, v)
    ensures var v' := Rearrange(c, v); Block(c, v') && Remain(v') >= 1 && v'.data == v.data && Settled(c, v')
  {
    if HasSize(c.header, v.data) {
      CheckSizeFits(c, v, ReadU32(v.data));
      CheckArrangeLeavesRoom(c, CheckSize(c, v, ReadU32(v.data)));
    } else {
      CheckArrangeLeavesRoom(c, v);
    }
  }

  ghost predicate RecvInv(c: RCfg, r: Recv) {
    r.open ==> Block(c, r.v) && Remain(r.v) >= 1 && Waiting(c, r.v)
  }

  /** A chunk that fits the room offered. */
  predicate Offered(r: Recv, chunk: seq<byte>) { r.open && 1 <= |chunk| <= Remain(r.v) }

  /** Cutting packets off moves the head only. */
  lemma ConsumedWaits(c: RCfg, v: View, chunk: seq<byte>)
    requires ValidRCfg(c) && Block(c, v) && |chunk| <= Remain(v)
    ensures var p := Parse(c.header, v.data + chunk);
            !p.bad ==> Block(c, Consumed(v, chunk, p.rest)) && Waiting(c, Consumed(v, chunk, p.rest))
  {
    RestIsNoPacket(c.header, v.data + chunk);
  }

  lemma ReceiveKeeps(c: RCfg, r: Recv, chunk: seq<byte>)
    requires ValidRCfg(c) && RoundUp(c.units, c.defaultSize) >= c.header && RecvInv(c, r) && Offered(r, chunk)
    ensures RecvInv(c, Receive(c, r, chunk))
    ensures Receive(c, r, chunk).v.data == Parse(c.header, r.v.data + chunk).rest
    ensures Receive(c, r, chunk).open ==> Settled(c, Receive(c, r, chunk).v)
  {
    var p := Parse(c.header, r.v.data + chunk);
    ConsumedWaits(c, r.v, chunk);
    if !p.bad { RearrangeLeavesRoom(c, Consumed(r.v, chunk, p.rest)); }
  }

  // ---- whole connections

  /** The state after `init` and then the given chunks, one receive each. */
  function ReceiveAll(c: RCfg, chunks: seq<seq<byte>>): Recv
    requires c.header >= 4
  {
    if chunks == [] then Recv(Fresh(c), [], true)
    else Receive(c, ReceiveAll(c, chunks[..|chunks| - 1]), chunks[|chunks| - 1])
  }

  /** Each chunk arrives while receiving, and is what the OS can put into the room offered. */
  predicate CanArrive(c: RCfg, chunks: seq<seq<byte>>)
    requires c.header >= 4
  {
    chunks == [] || (CanArrive(c, chunks[..|chunks| - 1])
                     && Offered(ReceiveAll(c, chunks[..|chunks| - 1]), chunks[|chunks| - 1]))
  }

  lemma {:induction false} AlwaysRoom(c: RCfg, chunks: seq<seq<byte>>)
    requires ValidRCfg(c) && RoundUp(c.units, c.defaultSize) >= c.header && CanArrive(c, chunks)
    ensures RecvInv(c, ReceiveAll(c, chunks))
    ensures ReceiveAll(c, chunks).open ==> Settled(c, ReceiveAll(c, chunks).v)
  {
    if chunks == [] {
      RoundUpIdempotent(c.units, c.defaultSize);
      RoundUpMonotone(c.units, c.defaultSize, Max(c.defaultSize, 2 * MAX_PACKET));
    } else {
      AlwaysRoom(c, chunks[..|chunks| - 1]);
      ReceiveKeeps(c, ReceiveAll(c, chunks[..|chunks| - 1]), chunks[|chunks| - 1]);
    }
  }

  /** The open receiver always offers the OS at least one byte. */
  ghost predicate NeverFull(c: RCfg)
    requires c.header >= 4
  {
    forall chunks :: CanArrive(c, chunks) && ReceiveAll(c, chunks).open ==> Remain(ReceiveAll(c, chunks).v) >= 1
  }

  /** The block of the default size fills up with an incomplete header and is exchanged for another just as full. */
  lemma SmallBlockFills(c: RCfg) returns (chunks: seq<seq<byte>>)
    requires ValidRCfg(c) && RoundUp(c.units, c.defaultSize) < c.header
    ensures CanArrive(c, chunks) && ReceiveAll(c, chunks).open && Remain(ReceiveAll(c, chunks).v) == 0
  {
    var n := RoundUp(c.units, c.defaultSize);
    chunks := [];
    if n > 0 {
      var chunk := seq(n, i => 0);
      chunks := [chunk];
      assert chunks[..0] == [] && ReceiveAll(c, []) == Recv(Fresh(c), [], true);
      assert Offered(ReceiveAll(c, []), chunk);
      RoundUpFits(c.units, c.defaultSize);
      RoundUpIdempotent(c.units, c.defaultSize);
      AppendNil(chunk);
      assert Parse(c.header, chunk) == Parsed([], chunk, false);
      assert ReceiveAll(c, chunks) == Receive(c, Recv(Fresh(c), [], true), chunk);
    }
  }

  /** There is always room exactly when the block given for the default size holds a header. */
  lemma RoomExactlyWhenHeaderFits(c: RCfg)
    requires ValidRCfg(c)
    ensures NeverFull(c) <==> RoundUp(c.units, c.defaultSize) >= c.header
  {
    if RoundUp(c.units, c.defaultSize) >= c.header {
      forall chunks | CanArrive(c, chunks) ensures RecvInv(c, ReceiveAll(c, chunks)) { AlwaysRoom(c, chunks); }
    } else {
      var chunks := SmallBlockFills(c);
    }
  }

  lemma ConcatSnoc(before: seq<seq<byte>>, chunk: seq<byte>)
    ensures Concat(before + [chunk]) == Concat(before) + chunk
  {
    ConcatAppend(before, [chunk]);
    ConcatCons(chunk, []);
    AppendNil(chunk);
  }

  /** One chunk more keeps what was delivered and what is kept in step with the parser. */
  lemma ReceiveParses(c: RCfg, r: Recv, chunk: seq<byte>, s: seq<byte>)
    requires ValidRCfg(c) && RoundUp(c.units, c.defaultSize) >= c.header && RecvInv(c, r) && Offered(r, chunk)
    requires Parse(c.header, s) == Parsed(r.delivered, r.v.data, !r.open)
    ensures var r' := Receive(c, r, chunk); Parse(c.header, s + chunk) == Parsed(r'.delivered, r'.v.data, !r'.open)
  {
    hide Parse, Rearrange, RoundUp, RecvInv;
    ParseMore(c.header, s, chunk);
    ReceiveKeeps(c, r, chunk);
  }

  lemma NothingParsed(c: RCfg)
    requires ValidRCfg(c)
    ensures Parse(c.header, Concat([])) == Parsed([], [], false)
  {
  }

  /** However the stream is cut into chunks, the packets delivered and the bytes kept are those the
      whole-stream parser finds in everything received so far. */
  lemma {:induction false} ChunkingIndependence(c: RCfg, chunks: seq<seq<byte>>)
    requires ValidRCfg(c) && RoundUp(c.units, c.defaultSize) >= c.header && CanArrive(c, chunks)
    ensures var r := ReceiveAll(c, chunks);
            Parse(c.header, Concat(chunks)) == Parsed(r.delivered, r.v.data, !r.open)
  {
    hide Parse, RoundUp, Receive, RecvInv, ValidUnits, Concat, Settled;
    if chunks == [] {
      NothingParsed(c);
    } else {
      var before, chunk := chunks[..|chunks| - 1], chunks[|chunks| - 1];
      ChunkingIndependence(c, before);
      AlwaysRoom(c, before);
      assert chunks == before + [chunk];
      ConcatSnoc(before, chunk);
      ReceiveParses(c, ReceiveAll(c, before), chunk, Concat(before));
    }
  }
}
