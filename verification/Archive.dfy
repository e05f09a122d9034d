/** `Sizer`, `Buf::set`/`get` and `Archive` over a real byte buffer. */
module Archive {
  import opened Bytes
  import opened Seqs
  import opened Options
  import opened WireValue

  /** Sums may be cut to 32 bits before or after. */
  lemma AddMods(a: nat, b: nat)
    ensures (a + b % TWO32) % TWO32 == (a % TWO32 + b) % TWO32 == (a % TWO32 + b % TWO32) % TWO32 == (a + b) % TWO32
  {
    AddMod(a, b);
    AddMod(b, a);
    AddMod(a, b % TWO32);
  }

  /** One more element of a container: its size and its bytes come last. */
  lemma NextElement(es: seq<Obj>, i: nat)
    requires i < |es|
    ensures SizeAll(es[..i + 1]) == SizeAll(es[..i]) + Size(es[i])
    ensures EncodeAll(es[..i + 1]) == EncodeAll(es[..i]) + Encode(es[i])
  {
    EncodeLast(es[..i + 1]);
    assert es[..i + 1][..i] == es[..i];
  }

  lemma NoElements(es: seq<Obj>)
    ensures SizeAll(es[..0]) == 0 && EncodeAll(es[..0]) == []
  {
  }

  lemma {:induction false} PrefixFits(es: seq<Obj>, i: nat)
    requires i <= |es|
    ensures SizeAll(es[..i]) <= SizeAll(es)
    decreases |es| - i
  {
    if i == |es| {
      assert es[..i] == es;
    } else {
      NextElement(es, i);
      PrefixFits(es, i + 1);
    }
  }

  /** `Sizer::size`, accumulated in 32 bits. */
  method SizeOf(o: Obj) returns (n: u32)
    ensures n == Size(o) % TWO32
    decreases o, 1
  {
    match o {
      case OFixed(bytes) => n := |bytes| % TWO32;
      case OStr(bytes) =>
        AddMods(4, |bytes|);
        n := (4 + |bytes| % TWO32) % TWO32;
      case _ => n := SizeOfElements(o);
    }
  }

  method SizeOfElements(o: Obj) returns (n: u32)
    requires o.OVec? || o.OSet? || o.OMap?
    ensures n == (4 + SizeAll(o.es)) % TWO32
    decreases o, 0
  {
    hide Size, SizeAll;
    NoElements(o.es);
    n := 4;
    for i := 0 to |o.es|
      invariant n == (4 + SizeAll(o.es[..i])) % TWO32
    {
      var s := SizeOf(o.es[i]);
      NextElement(o.es, i);
      AddMods(4 + SizeAll(o.es[..i]), Size(o.es[i]));
      n := (n + s) % TWO32;
    }
    assert o.es[..|o.es|] == o.es;
  }

  /** `s` with `t` written over it from `p` on. */
  function Splice(s: seq<byte>, p: nat, t: seq<byte>): (r: seq<byte>)
    requires p + |t| <= |s|
    ensures |r| == |s|
  {
    s[..p] + t + s[p + |t|..]
  }

  lemma SpliceTwice(s: seq<byte>, p: nat, a: seq<byte>, b: seq<byte>)
    requires p + |a| + |b| <= |s|
    ensures Splice(Splice(s, p, a), p + |a|, b) == Splice(s, p, a + b)
  {
    assert Splice(s, p, a)[..p + |a|] == s[..p] + a;
    assert Splice(s, p, a)[p + |a| + |b|..] == s[p + |a| + |b|..];
  }

  /** The count `c` and the first `i` elements are written at `p`, and `pos` is behind them. */
  predicate Written(before: seq<byte>, p: nat, c: seq<byte>, es: seq<Obj>, i: nat, pos: nat, now: seq<byte>) {
    && i <= |es| && pos == p + |c| + SizeAll(es[..i]) <= |before|
    && now == Splice(before, p, c + EncodeAll(es[..i]))
  }

  /** Writing the next element behind those written so far. */
  lemma SpliceNext(s: seq<byte>, p: nat, c: seq<byte>, es: seq<Obj>, i: nat)
    requires i < |es| && p + |c| + SizeAll(es[..i]) + Size(es[i]) <= |s|
    ensures SizeAll(es[..i + 1]) == SizeAll(es[..i]) + Size(es[i])
    ensures Splice(Splice(s, p, c + EncodeAll(es[..i])), p + |c| + SizeAll(es[..i]), Encode(es[i]))
            == Splice(s, p, c + EncodeAll(es[..i + 1]))
  {
    hide Splice;
    NextElement(es, i);
    SpliceTwice(s, p, c + EncodeAll(es[..i]), Encode(es[i]));
    AppendAssoc(c, EncodeAll(es[..i]), Encode(es[i]));
  }

  lemma SpliceNothing(s: seq<byte>)
    ensures Splice(s, 0, [] + EncodeAll([])) == s
  {
  }

  lemma SpliceAtStart(s: seq<byte>, t: seq<byte>)
    requires |t| <= |s|
    ensures Splice(s, 0, t)[..|t|] == t && Splice(s, 0, t)[|t|..] == s[|t|..]
  {
  }

  /** Storing the size into a field does not change the size. */
  lemma {:induction false} SizeAfterSet(es: seq<Obj>, i: nat, o: Obj)
    requires i < |es| && Size(o) == Size(es[i])
    ensures SizeAll(es[i := o]) == SizeAll(es)
  {
    var n := |es| - 1;
    if i == n {
      assert es[i := o][..n] == es[..n];
    } else {
      assert es[i := o][..n] == es[..n][i := o];
      SizeAfterSet(es[..n], i, o);
    }
  }

  lemma {:induction false} ReadFieldsStop(tys: seq<Ty>, i: nat, s: seq<byte>)
    requires i <= |tys| && ReadFields(tys[..i], s, 0).Overrun?
    ensures ReadFields(tys, s, 0).Overrun?
  {
    hide ReadVal;
    if i < |tys| {
      var n := |tys| - 1;
      assert tys[..n][..i] == tys[..i];
      ReadFieldsStop(tys[..n], i, s);
    } else {
      assert tys[..i] == tys;
    }
  }

  lemma ReadFieldsSnocStops(front: seq<Ty>, ty: Ty, s: seq<byte>, vs: seq<Val>, m: nat)
    requires ReadFields(front, s, 0) == Got(vs, m) && ReadVal(ty, s, m).Overrun?
    ensures ReadFields(front + [ty], s, 0).Overrun?
  {
    hide ReadVal;
    assert (front + [ty])[..|front|] == front;
  }

  /** What `set` does: the object is written, or not; or its end wraps around, and what is written is not modelled. */
  datatype Put = Done(n: nat) | Refused | Wrapped

  function PutOf(len: nat, p: nat, size: nat): Put {
    if (p + size) % TWO32 > len then Refused else if p + size <= len then Done(size) else Wrapped
  }

  /** An object that ends below 2^32 is written exactly when it fits, and refused otherwise. */
  lemma PutExactly(len: nat, p: nat, size: nat)
    requires len < TWO32
    ensures PutOf(len, p, size).Done? <==> p + size <= len
    ensures PutOf(len, p, size).Wrapped? ==> p + size >= TWO32
  {
  }

  /** The code finds it with the size cut to 32 bits. */
  lemma PutDecides(len: nat, p: nat, size: nat)
    requires len < TWO32
    ensures var out := (p + size % TWO32) % TWO32 > len;
            PutOf(len, p, size) == if out then Refused else if p + size > len then Wrapped else Done(size % TWO32)
  {
    AddMods(p, size);
  }

  /** The bytes of a block seen through a Buf of length `len`. */
  class Buf {
    const data: array<byte>
    var len: nat

    ghost predicate Valid()
      reads this
    {
      len <= data.Length && len < TWO32
    }

    function Bytes(): seq<byte>
      reads this, data
      requires Valid()
    {
      data[..len]
    }

    /** A Buf over a block of `unit` bytes, narrowed to the first `n`. */
    constructor (unit: nat, n: nat)
      requires n <= unit && n < TWO32
      ensures Valid() && fresh(data) && data.Length == unit && len == n
    {
      data := new byte[unit];
      len := n;
    }

    /** `memcpy` into the buffer. */
    method PutBytes(t: seq<byte>, p: nat)
      requires Valid() && p + |t| <= len
      modifies data
      ensures data[..] == Splice(old(data[..]), p, t)
    {
      for i := 0 to |t|
        invariant forall k :: 0 <= k < i ==> data[p + k] == t[k]
        invariant forall k :: 0 <= k < data.Length && !(p <= k < p + i) ==> data[k] == old(data[k])
      {
        data[p + i] := t[i];
      }
    }

    /** `set(v, pos, size)`: write an object that fits. */
    method Write(o: Obj, p: nat)
      requires Valid() && p + Size(o) <= len
      modifies data
      ensures data[..] == Splice(old(data[..]), p, Encode(o))
      decreases o, 2
    {
      match o {
        case OFixed(bytes) => PutBytes(bytes, p);
        case OStr(bytes) =>
          PutBytes(Count(|bytes|), p);
          PutBytes(bytes, p + 4);
          SpliceTwice(old(data[..]), p, Count(|bytes|), bytes);
        case OMap(es) => WriteElements(o, |es| / 2, p);
        case _ => WriteElements(o, |o.es|, p);
      }
    }

    /** The container overloads of `set`: the count, then each element behind the one before. */
    method WriteElements(o: Obj, cnt: nat, p: nat)
      requires Valid() && (o.OVec? || o.OSet? || o.OMap?) && p + 4 + SizeAll(o.es) <= len
      modifies data
      ensures data[..] == Splice(old(data[..]), p, Count(cnt) + EncodeAll(o.es))
      decreases o, 1
    {
      hide Splice, Encode, EncodeAll, Size, SizeAll;
      ghost var before := data[..];
      NoElements(o.es);
      PrefixFits(o.es, 0);
      AppendNil(Count(cnt));
      PutBytes(Count(cnt), p);
      var pos: nat := p + 4;
      for i := 0 to |o.es|
        invariant Written(before, p, Count(cnt), o.es, i, pos, data[..])
      {
        pos := WriteNext(o, i, pos, before, p, Count(cnt));
      }
      assert o.es[..|o.es|] == o.es;
    }

    /** `pos += set(element, pos)` */
    method WriteNext(o: Obj, i: nat, pos: nat, ghost before: seq<byte>, ghost p: nat, ghost c: seq<byte>)
      returns (pos': nat)
      requires Valid() && (o.OVec? || o.OSet? || o.OMap?) && i < |o.es| && p + |c| + SizeAll(o.es) <= len
      requires Written(before, p, c, o.es, i, pos, data[..])
      modifies data
      ensures Written(before, p, c, o.es, i + 1, pos', data[..])
      decreases o, 0
    {
      hide Splice, Encode, EncodeAll, Size, SizeAll;
      NextElement(o.es, i);
      PrefixFits(o.es, i + 1);
      SpliceNext(before, p, c, o.es, i);
      PutExactly(len, pos, Size(o.es[i]));
      var r := Set(o.es[i], pos);
      pos' := pos + r.n;
    }

    /** `set(v, pos)`, with its bounds check in 32-bit arithmetic: the object is written exactly when it fits. One that
        does not is refused, unless its end wraps around to a position inside the buffer. */
    method Set(o: Obj, p: nat) returns (r: Put)
      requires Valid()
      modifies data
      ensures r == PutOf(len, p, Size(o))
      ensures r.Done? ==> data[..] == Splice(old(data[..]), p, Encode(o))
      ensures r.Refused? ==> data[..] == old(data[..])
      decreases o, 3
    {
      hide PutOf, Size, Encode, Splice;
      PutDecides(len, p, Size(o));
      PutExactly(len, p, Size(o));
      var size := SizeOf(o);
      if (p + size) % TWO32 > len { return Refused; }
      if p + Size(o) > len { return Wrapped; }
      Write(o, p);
      return Done(size);
    }

    // ---- reading

    /** `get` of a fixed type. */
    method GetFixed(n: nat, p: nat) returns (r: Read<Val>)
      requires Valid()
      ensures r == ReadFixed(n, Bytes(), p)
    {
      if (p + n) % TWO32 > len { return Got(Unset, 0); }
      if p + n > len { return Overrun; }
      assert Bytes()[p..p + n] == data[p..p + n];
      return Got(Fixed(data[p..p + n]), n);
    }

    /** `get_cnt` */
    method GetCount(p: nat) returns (r: Read<u32>)
      requires Valid()
      ensures r == ReadCount(Bytes(), p)
    {
      if (p + 4) % TWO32 > len { return Got(0, 0); }
      if p + 4 > len { return Overrun; }
      assert Bytes()[p..p + 4] == data[p..p + 4];
      return Got(ReadU32(data[p..p + 4]), 4);
    }

    /** `get(v, pos)` into an empty object; `Overrun` where the source would read past the end. */
    method Get(ty: Ty, p: nat) returns (r: Read<Val>)
      requires Valid()
      ensures r == ReadVal(ty, Bytes(), p)
      decreases Depth(ty), 1
    {
      if ty.TFixed? {
        r := GetFixed(ty.n, p);
        return;
      }
      var c := GetCount(p);
      if c.Overrun? { return Overrun; }
      var q := p + c.n;
      match ty {
        case TStr =>
          if c.v == 0 { return Got(Str([]), c.n); }
          if q + c.v > len { return Overrun; }
          assert Bytes()[q..q + c.v] == data[q..q + c.v];
          return Got(Str(data[q..q + c.v]), c.n + c.v);
        case TVec(e) =>
          var x := GetSeq(e, e, c.v, q);
          if x.Overrun? { return Overrun; }
          return Got(Vec(x.v), c.n + x.n);
        case TSet(e) =>
          var x := GetSeq(e, e, c.v, q);
          if x.Overrun? { return Overrun; }
          return Got(Val.Set(Members(x.v)), c.n + x.n);
        case TMap(k, v) =>
          var x := GetSeq(k, v, 2 * c.v, q);
          if x.Overrun? { return Overrun; }
          return Got(Map(Entries(x.v)), c.n + x.n);
      }
    }

    /** The loop of the container overloads: read an element, advance. */
    method GetSeq(k: Ty, v: Ty, cnt: nat, p: nat) returns (r: Read<seq<Val>>)
      requires Valid()
      ensures r == ReadSeq(k, v, cnt, Bytes(), p)
      decreases Depth2(k, v), 2
    {
      hide ReadVal, ReadSeq;
      ReadSeqNone(k, v, Bytes(), p);
      var vs: seq<Val>, n: nat := [], 0;
      for i := 0 to cnt
        invariant ReadSeq(k, v, i, Bytes(), p) == Got(vs, n)
      {
        var x := Get(Alt(k, v, i), p + n);
        if x.Overrun? {
          ReadSeqStops(k, v, i, cnt, Bytes(), p, vs, n);
          return Overrun;
        }
        ReadSeqSnoc(k, v, i, Bytes(), p, vs, n, x.v, x.n);
        vs, n := vs + [x.v], n + x.n;
      }
      return Got(vs, n);
    }
  }

  lemma ReadSeqNone(k: Ty, v: Ty, s: seq<byte>, p: nat)
    ensures ReadSeq(k, v, 0, s, p) == Got([], 0)
  {
  }

  lemma {:induction false} ReadSeqStops(k: Ty, v: Ty, i: nat, cnt: nat, s: seq<byte>, p: nat, vs: seq<Val>, n: nat)
    requires i < cnt && ReadSeq(k, v, i, s, p) == Got(vs, n) && ReadVal(Alt(k, v, i), s, p + n).Overrun?
    ensures ReadSeq(k, v, cnt, s, p).Overrun?
  {
    hide ReadVal;
    if i < cnt - 1 { ReadSeqStops(k, v, i, cnt - 1, s, p, vs, n); }
  }

  datatype Mode = SizeMode | WriteMode | ReadMode

  /** `Archive`: a cursor that sizes, writes or reads one object after another. */
  class Archive {
    var mode: Mode
    var buf: Buf?
    var pos: nat

    constructor (m: Mode := ReadMode)
      ensures mode == m && buf == null && pos == 0
    {
      mode, buf, pos := m, null, 0;
    }

    /** `set(buf, mode)` */
    method SetBuf(b: Buf, m: Mode := WriteMode)
      modifies this
      ensures mode == m && buf == b && pos == 0
    {
      buf, mode, pos := b, m, 0;
    }

    /** `operator<<` in the Size mode. */
    method AddSize(o: Obj)
      requires mode == SizeMode
      modifies this`pos
      ensures pos == (old(pos) + Size(o)) % TWO32
    {
      var n := SizeOf(o);
      AddMods(pos, Size(o));
      pos := (pos + n) % TWO32;
    }

    /** `operator<<` in the Write mode: an object that fits is written at the cursor; one that is refused changes
        neither cursor nor buffer. */
    method AddBytes(o: Obj) returns (wrapped: bool)
      requires mode == WriteMode && buf != null && buf.Valid()
      modifies this`pos, buf.data
      ensures wrapped <==> PutOf(buf.len, old(pos), Size(o)).Wrapped?
      ensures old(pos) + Size(o) <= buf.len ==>
                pos == old(pos) + Size(o) && buf.data[..] == Splice(old(buf.data[..]), old(pos), Encode(o))
      ensures old(pos) + Size(o) > buf.len ==> pos == old(pos) && (!wrapped ==> buf.data[..] == old(buf.data[..]))
    {
      PutExactly(buf.len, pos, Size(o));
      var r := buf.Set(o, pos);
      if r.Done? { pos := pos + r.n; }
      wrapped := r.Wrapped?;
    }

    /** `operator<<` in the Read mode, into an empty object. */
    method TakeVal(ty: Ty) returns (v: Val, over: bool)
      requires mode == ReadMode && buf != null && buf.Valid()
      modifies this`pos
      ensures var r := ReadVal(ty, buf.Bytes(), old(pos));
              if r.Got? then !over && v == r.v && pos == old(pos) + r.n else over && pos == old(pos)
    {
      var r := buf.Get(ty, pos);
      if r.Overrun? { return Unset, true; }
      pos := pos + r.n;
      return r.v, false;
    }
  }

  /** The packet has a length field, its first, of four bytes. */
  predicate HasLength(fields: seq<Obj>) { fields != [] && fields[0].OFixed? && |fields[0].bytes| == 4 }

  /** `set_size`: the length field, if there is one, takes the size. */
  function WithSize(fields: seq<Obj>, size: u32): seq<Obj> {
    if HasLength(fields) then fields[0 := OFixed(U32(size))] else fields
  }

  lemma WithSizeKeepsSize(fields: seq<Obj>, size: u32)
    ensures SizeAll(WithSize(fields, size)) == SizeAll(fields)
  {
    if HasLength(fields) { SizeAfterSet(fields, 0, OFixed(U32(size))); }
  }

  /** `BufConv`: an object whose `serialize` lists its fields, and whose `set_size` stores a length in them as it
      likes. */
  class Packet {
    var fields: seq<Obj>
    const setSize: (seq<Obj>, u32) -> seq<Obj>

    constructor (fs: seq<Obj>, set_: (seq<Obj>, u32) -> seq<Obj>)
      ensures fields == fs && setSize == set_
    {
      fields, setSize := fs, set_;
    }

    /** The Size pass of `make_buf`. */
    method SizePass(ar: Archive)
      requires ar.mode == SizeMode && ar.pos == 0
      modifies ar
      ensures ar.mode == SizeMode && ar.pos == SizeAll(fields) % TWO32
    {
      hide SizeAll, Size;
      NoElements(fields);
      for i := 0 to |fields|
        invariant ar.mode == SizeMode && ar.pos == SizeAll(fields[..i]) % TWO32
      {
        NextElement(fields, i);
        AddMods(SizeAll(fields[..i]), Size(fields[i]));
        ar.AddSize(fields[i]);
      }
      assert fields[..|fields|] == fields;
    }

    /** The Write pass. When all the fields fit, none takes the way out. */
    method WritePass(ar: Archive, buf: Buf) returns (wrapped: bool)
      requires ar.mode == WriteMode && ar.buf == buf && ar.pos == 0 && buf.Valid()
      modifies ar, buf.data
      ensures ar.buf == buf && ar.pos <= buf.len
      ensures SizeAll(fields) <= buf.len ==>
                !wrapped && ar.pos == SizeAll(fields) && buf.data[..] == Splice(old(buf.data[..]), 0, EncodeAll(fields))
      ensures wrapped ==> SizeAll(fields) >= TWO32
    {
      hide SizeAll, Size, Encode, EncodeAll, Splice;
      ghost var before := buf.data[..];
      NoElements(fields);
      PrefixFits(fields, 0);
      SpliceNothing(before);
      for i := 0 to |fields|
        invariant ar.mode == WriteMode && ar.buf == buf && ar.pos <= buf.len && ar.pos <= SizeAll(fields[..i])
        invariant SizeAll(fields) <= buf.len ==> Written(before, 0, [], fields, i, ar.pos, buf.data[..])
      {
        NextElement(fields, i);
        PrefixFits(fields, i + 1);
        if SizeAll(fields) <= buf.len { SpliceNext(before, 0, [], fields, i); }
        PutExactly(buf.len, ar.pos, Size(fields[i]));
        wrapped := ar.AddBytes(fields[i]);
        if wrapped { return; }
      }
      assert fields[..|fields|] == fields;
      AppendNil(EncodeAll(fields));
      wrapped := false;
    }

    /** `make_buf`: size the fields, store the size, get a block from the pool, write the fields. No Buf is made when
        the size is 0 modulo 2^32, or when the pool gives no block (`unit` is None). The Buf holds the encoding of the
        fields exactly when they still have the size counted, which is a size below 2^32. */
    method MakeBuf(unit: Option<nat>) returns (buf: Buf?, wrapped: bool)
      requires unit.Some? ==> SizeAll(fields) % TWO32 <= unit.value
      modifies this
      ensures fields == setSize(old(fields), SizeAll(old(fields)) % TWO32)
      ensures buf == null <==> SizeAll(old(fields)) % TWO32 == 0 || unit.None?
      ensures buf != null ==>
                && fresh(buf) && fresh(buf.data) && buf.Valid() && buf.len == SizeAll(old(fields)) % TWO32
                && (!wrapped ==> (buf.Bytes() == EncodeAll(fields) <==> SizeAll(fields) == buf.len))
      ensures wrapped ==> SizeAll(fields) >= TWO32
    {
      var ar := new Archive(SizeMode);
      SizePass(ar);
      var size: u32 := ar.pos;
      fields := setSize(fields, size);
      if size == 0 { return null, false; }
      if unit.None? { return null, false; }
      buf := new Buf(unit.value, size);
      ar.SetBuf(buf, WriteMode);
      ghost var before := buf.data[..];
      wrapped := WritePass(ar, buf);
      assert buf.Bytes() == buf.data[..][..buf.len];
      if SizeAll(fields) == buf.len { SpliceAtStart(before, EncodeAll(fields)); }
    }

    /** `make_from`, into a packet whose fields are empty objects of the given types. */
    static method MakeFrom(buf: Buf, tys: seq<Ty>) returns (r: Read<seq<Val>>)
      requires buf.Valid()
      ensures r.Got? <==> ReadFields(tys, buf.Bytes(), 0).Got?
      ensures r.Got? ==> r == ReadFields(tys, buf.Bytes(), 0)
    {
      var ar := new Archive();
      hide ReadVal;
      ar.SetBuf(buf, ReadMode);
      var vs: seq<Val> := [];
      for i := 0 to |tys|
        invariant ar.mode == ReadMode && ar.buf == buf
        invariant ReadFields(tys[..i], buf.Bytes(), 0) == Got(vs, ar.pos)
      {
        ghost var p := ar.pos;
        var v, over := ar.TakeVal(tys[i]);
        assert tys[..i + 1] == tys[..i] + [tys[i]];
        if over {
          ReadFieldsSnocStops(tys[..i], tys[i], buf.Bytes(), vs, p);
          ReadFieldsStop(tys, i + 1, buf.Bytes());
          return Overrun;
        }
        ReadFieldsSnoc(tys[..i], tys[i], buf.Bytes(), 0, vs, p, v, ar.pos - p);
        vs := vs + [v];
      }
      assert tys[..|tys|] == tys;
      return Got(vs, ar.pos);
    }
  }
}
