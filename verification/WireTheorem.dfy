/** From the fields of the packets sent to the fields of the packets received. */
module WireTheorem {
  import opened Bytes
  import opened Seqs
  import opened PacketStream
  import opened UnitClasses
  import opened ReceiveBuffer
  import opened WireValue
  import opened Archive
  import opened Options

  /** A packet's fields with the length `make_buf` stores in front of them. */
  function WithLength(fields: seq<Obj>): seq<Obj>
    requires 4 + SizeAll(fields) < TWO32
  {
    [OFixed(U32(4 + SizeAll(fields)))] + fields
  }

  /** The bytes of the Buf `make_buf` gives for such a packet. */
  function Frame(fields: seq<Obj>): seq<byte>
    requires 4 + SizeAll(fields) < TWO32
  {
    EncodeAll(WithLength(fields))
  }

  lemma {:induction false} EncodeCons(o: Obj, es: seq<Obj>)
    ensures EncodeAll([o] + es) == Encode(o) + EncodeAll(es)
    ensures SizeAll([o] + es) == Size(o) + SizeAll(es)
    ensures AbsAll([o] + es) == [Abs(o)] + AbsAll(es)
    decreases |es|
  {
    hide Encode, Size, Abs;
    var n := |es|;
    if n == 0 {
      assert [o] + es == [o] && [o][..0] == [];
      AppendNil(Encode(o));
    } else {
      assert ([o] + es)[..n] == [o] + es[..n - 1];
      EncodeCons(o, es[..n - 1]);
    }
  }

  /** The fields `make_buf` encodes for a packet of `fields` with a length field in front: the length it stores is the
      length of the whole frame, so its Buf holds `Frame(fields)`. */
  lemma MakeBufGivesFrame(fields: seq<Obj>)
    requires 4 + SizeAll(fields) < TWO32
    ensures var fs := [OFixed(U32(0))] + fields;
            && SizeAll(fs) == 4 + SizeAll(fields)
            && EncodeAll(WithSize(fs, SizeAll(fs))) == Frame(fields)
            && |Frame(fields)| == SizeAll(fs)
  {
    EncodeCons(OFixed(U32(0)), fields);
    EncodeCons(OFixed(U32(4 + SizeAll(fields))), fields);
    assert ([OFixed(U32(0))] + fields)[0 := OFixed(U32(4 + SizeAll(fields)))] == WithLength(fields);
  }

  /** A frame starts with its own length. */
  lemma FrameComplete(header: nat, fields: seq<Obj>)
    requires 4 <= header <= 4 + SizeAll(fields) <= MAX_PACKET
    ensures Complete(header, Frame(fields)) && |Frame(fields)| == 4 + SizeAll(fields)
  {
    var n: u32 := 4 + SizeAll(fields);
    EncodeCons(OFixed(U32(n)), fields);
    ReadOfU32(n, EncodeAll(fields));
  }

  /** A packet object: its fields after the length, and their types. */
  datatype Sent = Sent(fields: seq<Obj>, tys: seq<Ty>)

  /** It is well typed, and its frame has a size a session with this header size accepts. */
  predicate Good(header: nat, p: Sent) {
    FieldsHaveTy(p.fields, p.tys) && header <= 4 + SizeAll(p.fields) <= MAX_PACKET
  }

  /** Reading `s` gives the length and the fields of `p` back, and reads all of `s`. */
  predicate GivesBack(p: Sent, s: seq<byte>)
    requires 4 + SizeAll(p.fields) < TWO32
  {
    && |s| == 4 + SizeAll(p.fields)
    && ReadFields([TFixed(4)] + p.tys, s, 0) == Got([Fixed(U32(4 + SizeAll(p.fields)))] + AbsAll(p.fields), |s|)
  }

  lemma FrameRoundTrip(p: Sent)
    requires FieldsHaveTy(p.fields, p.tys) && 4 + SizeAll(p.fields) < TWO32
    ensures GivesBack(p, Frame(p.fields))
  {
    hide ReadVal, ReadFields, EncodeAll, SizeAll, AbsAll, Encode, Abs, Size;
    var o := OFixed(U32(4 + SizeAll(p.fields)));
    LengthField(o.bytes);
    EncodeCons(o, p.fields);
    var s := Frame(p.fields);
    assert s[0..|s|] == s;
    assert HasTy(o, TFixed(4));
    assert FieldsHaveTy(WithLength(p.fields), [TFixed(4)] + p.tys);
    RoundTripFields(WithLength(p.fields), [TFixed(4)] + p.tys, s, 0);
  }

  lemma LengthField(bytes: seq<byte>)
    ensures Size(OFixed(bytes)) == |bytes| && Abs(OFixed(bytes)) == Fixed(bytes) && Encode(OFixed(bytes)) == bytes
  {
  }

  /** The Size, Write and Read passes over the same fields end at the same position; the Write pass leaves every byte
      behind that position as it was; and the Read pass gives the values back. */
  lemma ThreeModesAgree(fields: seq<Obj>, tys: seq<Ty>, block: seq<byte>)
    requires FieldsHaveTy(fields, tys) && SizeAll(fields) <= |block| && SizeAll(fields) < TWO32
    ensures var size := SizeAll(fields);
            var written := Splice(block, 0, EncodeAll(fields));
            && |EncodeAll(fields)| == size
            && written[size..] == block[size..]
            && ReadFields(tys, written[..size], 0) == Got(AbsAll(fields), size)
  {
    hide ReadVal, ReadFields, EncodeAll, SizeAll, AbsAll;
    var size := SizeAll(fields);
    var written := Splice(block, 0, EncodeAll(fields));
    SpliceAtStart(block, EncodeAll(fields));
    assert written[..size][0..size] == written[..size];
    RoundTripFields(fields, tys, written[..size], 0);
  }

  /** What a packet makes of itself, it reads back: `make_buf`, then `make_from` over the Buf it gives, at any size
      below 2^32, when `set_size` keeps the types of the fields and their size. */
  method PackAndUnpack(p: Packet, tys: seq<Ty>, unit: nat) returns (buf: Buf?, r: Read<seq<Val>>)
    requires 0 < SizeAll(p.fields) < TWO32 && SizeAll(p.fields) <= unit
    requires var fs := p.setSize(p.fields, SizeAll(p.fields)); FieldsHaveTy(fs, tys) && SizeAll(fs) == SizeAll(p.fields)
    modifies p
    ensures p.fields == p.setSize(old(p.fields), SizeAll(old(p.fields)))
    ensures buf != null && buf.Valid() && buf.len == SizeAll(p.fields) && r == Got(AbsAll(p.fields), buf.len)
  {
    hide ReadVal, ReadFields, EncodeAll, SizeAll, AbsAll;
    var wrapped;
    buf, wrapped := p.MakeBuf(Some(unit));
    ghost var s := buf.Bytes();
    assert s[0..|s|] == s;
    RoundTripFields(p.fields, tys, s, 0);
    r := Packet.MakeFrom(buf, tys);
  }

  function Frames(header: nat, packets: seq<Sent>): (r: seq<seq<byte>>)
    requires forall i :: 0 <= i < |packets| ==> Good(header, packets[i])
    ensures |r| == |packets|
    ensures forall i :: 0 <= i < |r| ==> Good(header, packets[i]) && r[i] == Frame(packets[i].fields)
  {
    seq(|packets|, i requires 0 <= i < |packets| && Good(header, packets[i]) => Frame(packets[i].fields))
  }

  lemma FramesComplete(header: nat, packets: seq<Sent>)
    requires header >= 4 && forall i :: 0 <= i < |packets| ==> Good(header, packets[i])
    ensures forall f :: f in Frames(header, packets) ==> Complete(header, f)
  {
    forall i | 0 <= i < |packets| ensures Complete(header, Frame(packets[i].fields)) {
      FrameComplete(header, packets[i].fields);
    }
  }

  /** End to end: packets are framed, their bytes concatenated and received in any chunks; `on_recv` gets exactly the
      frames, in order, and reading each gives back the fields of the packet it came from. */
  lemma EndToEnd(c: RCfg, packets: seq<Sent>, chunks: seq<seq<byte>>)
    requires ValidRCfg(c) && RoundUp(c.units, c.defaultSize) >= c.header
    requires forall i :: 0 <= i < |packets| ==> Good(c.header, packets[i])
    requires CanArrive(c, chunks) && Concat(chunks) == Concat(Frames(c.header, packets))
    ensures var r := ReceiveAll(c, chunks);
            && r.open && r.v.data == [] && |r.delivered| == |packets|
            && forall i :: 0 <= i < |packets| ==> GivesBack(packets[i], r.delivered[i])
  {
    FramesComplete(c.header, packets);
    ParsePackets(c.header, Frames(c.header, packets));
    ChunkingIndependence(c, chunks);
    forall i | 0 <= i < |packets| ensures GivesBack(packets[i], Frame(packets[i].fields)) {
      FrameRoundTrip(packets[i]);
    }
  }
}
