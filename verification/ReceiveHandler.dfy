/** `RBuf` over real blocks, and the loop of `_on_recv`. */
module ReceiveHandler {
  import opened Bytes
  import opened Seqs
  import opened PacketStream
  import opened UnitClasses
  import opened ReceiveBuffer

  /** What lies at the head of the buffer. */
  datatype Head = Short | Invalid | Whole(n: nat) | Partial(n: nat)

  function HeadOf(header: nat, s: seq<byte>): Head {
    if !HasSize(header, s) then Short
    else if !ValidSize(ReadU32(s)) then Invalid
    else if ReadU32(s) <= |s| then Whole(ReadU32(s))
    else Partial(ReadU32(s))
  }

  class RBuf {
    const c: RCfg
    var block: array<byte>
    var head: nat
    var tail: nat

    ghost predicate Valid()
      reads this
    {
      head <= tail <= block.Length && ValidRCfg(c) && RoundUp(c.units, block.Length) == block.Length
    }

    ghost function V(): View
      reads this, block
      requires Valid()
    {
      View(block.Length, head, block[head..tail])
    }

    /** `init` */
    constructor (cfg: RCfg)
      requires ValidRCfg(cfg)
      ensures Valid() && c == cfg && V() == Fresh(cfg) && fresh(block)
    {
      RoundUpIdempotent(cfg.units, cfg.defaultSize);
      c := cfg;
      block := new byte[RoundUp(cfg.units, cfg.defaultSize)];
      head, tail := 0, 0;
    }

    method RemainLen() returns (n: nat)
      requires Valid()
      ensures n == Remain(V())
    {
      n := block.Length - tail;
    }

    /** The OS fills the posted room from the tail up; it writes nothing else. */
    method OsWrite(chunk: seq<byte>)
      requires Valid() && |chunk| <= Remain(V())
      modifies block
      ensures block[tail..tail + |chunk|] == chunk
      ensures forall i :: 0 <= i < block.Length && !(tail <= i < tail + |chunk|) ==> block[i] == old(block[i])
      ensures V() == old(V())
    {
      for i := 0 to |chunk|
        invariant forall k :: 0 <= k < i ==> block[tail + k] == chunk[k]
        invariant forall k :: 0 <= k < block.Length && !(tail <= k < tail + i) ==> block[k] == old(block[k])
      {
        block[tail + i] := chunk[i];
      }
    }

    /** `change(size)`: copy the unconsumed bytes to the start of a block from the pool. */
    method ChangeTo(size: nat)
      requires Valid() && |V().data| <= RoundUp(c.units, size)
      modifies this
      ensures Valid() && fresh(block) && V() == Change(c, old(V()), size)
    {
      RoundUpIdempotent(c.units, size);
      var b := new byte[RoundUp(c.units, size)];
      var len := tail - head;
      for i := 0 to len
        invariant unchanged(this) && fresh(b)
        invariant forall k :: 0 <= k < i ==> b[k] == block[head + k]
      {
        b[i] := block[head + i];
      }
      assert b[..len] == block[head..tail];
      head, tail, block := 0, len, b;
    }

    method EnsureSize(packet: nat)
      requires Valid() && |V().data| <= packet
      modifies this
      ensures Valid() && V() == CheckSize(c, old(V()), packet)
      ensures block == old(block) || fresh(block)
    {
      if block.Length < packet {
        RoundUpFits(c.units, packet * 2);
        ChangeTo(packet * 2);
      }
    }

    method Arrange()
      requires Valid()
      modifies this
      ensures Valid() && V() == CheckArrange(c, old(V()))
      ensures block == old(block) || fresh(block)
    {
      RoundUpFits(c.units, c.defaultSize);
      if c.defaultSize < block.Length && tail - head < c.defaultSize {
        ChangeTo(c.defaultSize);
        return;
      }
      if block.Length - tail <= c.header {
        ChangeTo(block.Length);
      }
    }

    /** The end of `_on_recv`, with what was found at the head. */
    method MakeRoom(h: Head)
      requires Valid() && h == HeadOf(c.header, V().data) && (h.Short? || h.Partial?)
      modifies this
      ensures Valid() && V() == Rearrange(c, old(V()))
      ensures block == old(block) || fresh(block)
    {
      if h.Partial? { EnsureSize(h.n); }
      Arrange();
    }
  }

  /** After some packets have been cut off, the rest parses to what is still missing. */
  ghost predicate Ahead(header: nat, all: seq<byte>, before: seq<seq<byte>>, data: seq<byte>, delivered: seq<seq<byte>>)
    requires header >= 4
  {
    var p, q := Parse(header, all), Parse(header, data);
    q.rest == p.rest && q.bad == p.bad && delivered + q.packets == before + p.packets
  }

  lemma AheadStep(header: nat, all: seq<byte>, before: seq<seq<byte>>, data: seq<byte>, delivered: seq<seq<byte>>)
    requires header >= 4 && Ahead(header, all, before, data, delivered)
    ensures var h := HeadOf(header, data);
            if h.Whole? then Ahead(header, all, before, data[h.n..], delivered + [data[..h.n]])
            else Parse(header, all).rest == data && Parse(header, all).bad == h.Invalid?
                 && delivered == before + Parse(header, all).packets
  {
    if HeadOf(header, data).Whole? {
      var n := ReadU32(data);
      AppendAssoc(delivered, [data[..n]], Parse(header, data[n..]).packets);
    } else {
      AppendNil(delivered);
    }
  }

  datatype Outcome = RecvAgain | Disconnect(err: int)

  /** The receive side of `SessionTCP`; `delivered` is what `on_recv` has been given. */
  class Receiver {
    const rbuf: RBuf
    var delivered: seq<seq<byte>>

    ghost predicate Valid()
      reads this, rbuf
    {
      rbuf.Valid()
    }

    ghost function R(open: bool): Recv
      reads this, rbuf, rbuf.block
      requires rbuf.Valid()
    {
      Recv(rbuf.V(), delivered, open)
    }

    constructor (cfg: RCfg)
      requires ValidRCfg(cfg)
      ensures Valid() && rbuf.c == cfg && fresh(rbuf) && fresh(rbuf.block) && R(true) == Recv(Fresh(cfg), [], true)
    {
      rbuf := new RBuf(cfg);
      delivered := [];
    }

    /** One round of the loop in `_on_recv`: `get_packet_size`, `is_valid_packet_size`, `on_recv` for a whole packet. */
    method TakePacket() returns (h: Head)
      requires Valid()
      modifies this, rbuf`head
      ensures Valid() && h == HeadOf(rbuf.c.header, old(rbuf.V().data))
      ensures !h.Whole? ==> rbuf.head == old(rbuf.head) && delivered == old(delivered)
      ensures h.Whole? ==>
                && rbuf.head == old(rbuf.head) + h.n
                && rbuf.V().data == old(rbuf.V().data)[h.n..]
                && delivered == old(delivered) + [old(rbuf.V().data)[..h.n]]
    {
      var rlen := rbuf.tail - rbuf.head;
      if rlen < rbuf.c.header { return Short; }
      var psize := ReadU32(rbuf.block[rbuf.head..rbuf.tail]);
      if !ValidSize(psize) { return Invalid; }
      if psize > rlen { return Partial(psize); }
      ghost var data := rbuf.V().data;
      delivered := delivered + [rbuf.block[rbuf.head..rbuf.head + psize]];
      ghost var whole := rbuf.block[..];
      assert data == whole[rbuf.head..rbuf.tail];
      SliceOfSlice(whole, rbuf.head, rbuf.tail, psize);
      rbuf.head := rbuf.head + psize;
      assert rbuf.V().data == whole[rbuf.head..rbuf.tail];
      return Whole(psize);
    }

    /** The loop of `_on_recv`: cut packets off until something else is at the head. */
    method TakePackets(ghost all: seq<byte>) returns (h: Head)
      requires Valid() && rbuf.V().data == all
      modifies this, rbuf`head
      ensures Valid() && !h.Whole? && rbuf.head >= old(rbuf.head)
      ensures var p := Parse(rbuf.c.header, all);
              && rbuf.V().data == p.rest && p.bad == h.Invalid? && h == HeadOf(rbuf.c.header, p.rest)
              && delivered == old(delivered) + p.packets
    {
      while true
        invariant Valid() && rbuf.head >= old(rbuf.head)
        invariant Ahead(rbuf.c.header, all, old(delivered), rbuf.V().data, delivered)
        decreases rbuf.tail - rbuf.head
      {
        AheadStep(rbuf.c.header, all, old(delivered), rbuf.V().data, delivered);
        h := TakePacket();
        if !h.Whole? { return; }
      }
    }

    /** `_on_recv(err, bytes)`, where the OS has written `bytes` bytes at the tail. */
    method OnRecv(err: int, bytes: nat) returns (r: Outcome)
      requires Valid() && bytes <= Remain(rbuf.V())
      modifies this, rbuf
      ensures Valid()
      ensures rbuf.block == old(rbuf.block) || fresh(rbuf.block)
      ensures err != 0 || bytes == 0 ==> r == Disconnect(err) && R(true) == old(R(true))
      ensures err == 0 && bytes != 0 ==>
                && (r == RecvAgain || r == Disconnect(16000))
                && R(r == RecvAgain) == Receive(rbuf.c, old(R(true)), old(rbuf.block[rbuf.tail..rbuf.tail + bytes]))
    {
      if err != 0 || bytes == 0 { return Disconnect(err); }

      ghost var v, chunk := rbuf.V(), rbuf.block[rbuf.tail..rbuf.tail + bytes];
      rbuf.tail := rbuf.tail + bytes;
      assert rbuf.V().data == v.data + chunk;
      var h := TakePackets(v.data + chunk);
      assert rbuf.V() == Consumed(v, chunk, rbuf.V().data);
      if h.Invalid? { return Disconnect(INVALID_PACKET); }
      rbuf.MakeRoom(h);
      return RecvAgain;
    }

    /** A posted receive and its completion: the system puts `chunk` at the tail, then `_on_recv` runs. */
    method ReceiveChunk(chunk: seq<byte>) returns (r: Outcome)
      requires Valid() && 1 <= |chunk| <= Remain(rbuf.V())
      modifies this, rbuf, rbuf.block
      ensures Valid() && (rbuf.block == old(rbuf.block) || fresh(rbuf.block))
      ensures R(r == RecvAgain) == Receive(rbuf.c, old(R(true)), chunk)
    {
      hide Receive, RoundUp, ValidRCfg, Change;
      rbuf.OsWrite(chunk);
      r := OnRecv(0, |chunk|);
    }
  }

  /** A receiver from `init` on, with the chunks of a whole connection. */
  method ReceiveConnection(cfg: RCfg, chunks: seq<seq<byte>>) returns (r: Receiver, open: bool)
    requires ValidRCfg(cfg) && CanArrive(cfg, chunks)
    ensures r.Valid() && r.rbuf.c == cfg && r.R(open) == ReceiveAll(cfg, chunks)
  {
    r := new Receiver(cfg);
    open := true;
    for i := 0 to |chunks|
      invariant r.Valid() && r.rbuf.c == cfg && fresh(r) && fresh(r.rbuf) && fresh(r.rbuf.block)
      invariant r.R(open) == ReceiveAll(cfg, chunks[..i])
    {
      ArrivesNext(cfg, chunks, i);
      assert chunks[..i + 1][..i] == chunks[..i];
      var o := r.ReceiveChunk(chunks[i]);
      open := o == RecvAgain;
    }
    assert chunks[..|chunks|] == chunks;
  }

  lemma {:induction false} ArrivesNext(cfg: RCfg, chunks: seq<seq<byte>>, i: nat)
    requires ValidRCfg(cfg) && CanArrive(cfg, chunks) && i < |chunks|
    ensures Offered(ReceiveAll(cfg, chunks[..i]), chunks[i])
    decreases |chunks|
  {
    hide ReceiveAll, Offered, ValidRCfg;
    var n := |chunks| - 1;
    if i < n {
      assert chunks[..n][..i] == chunks[..i];
      ArrivesNext(cfg, chunks[..n], i);
    }
  }
}
