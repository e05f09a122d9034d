/** The values `Archive` carries, the bytes they become, and what reading those bytes gives. */
module WireValue {
  import opened Bytes
  import opened Seqs

  /** A type an archive can carry. A fixed type is copied as its `n` bytes. */
  datatype Ty = TFixed(n: nat) | TStr | TVec(e: Ty) | TSet(e: Ty) | TMap(k: Ty, v: Ty)

  /** An object in memory. A container lists its elements in its iteration order, whatever that is; a map lists
      each key followed by its value. */
  datatype Obj =
    | OFixed(bytes: seq<byte>) | OStr(bytes: seq<byte>)
    | OVec(es: seq<Obj>) | OSet(es: seq<Obj>) | OMap(es: seq<Obj>)

  /** The value an object stands for. `Unset` is an object nothing was read into. */
  datatype Val =
    | Unset | Fixed(bytes: seq<byte>) | Str(bytes: seq<byte>)
    | Vec(es: seq<Val>) | Set(members: set<Val>) | Map(m: map<Val, Val>)

  // ---- objects and values

  function Abs(o: Obj): Val
    decreases o, 1
  {
    match o
    case OFixed(bytes) => Fixed(bytes)
    case OStr(bytes) => Str(bytes)
    case OVec(es) => Vec(AbsAll(es))
    case OSet(es) => Set(Members(AbsAll(es)))
    case OMap(es) => Map(Entries(AbsAll(es)))
  }

  function AbsAll(es: seq<Obj>): (r: seq<Val>)
    ensures |r| == |es|
    decreases es, 0
  {
    if es == [] then [] else AbsAll(es[..|es| - 1]) + [Abs(es[|es| - 1])]
  }

  function Members(vs: seq<Val>): set<Val> { set v | v in vs }

  /** `insert`: a key already there keeps its value. */
  function Insert(m: map<Val, Val>, k: Val, v: Val): map<Val, Val> {
    if k in m then m else m[k := v]
  }

  /** Keys and values in turn, inserted in order. */
  function Entries(vs: seq<Val>): map<Val, Val> {
    if |vs| < 2 then map[] else Insert(Entries(vs[..|vs| - 2]), vs[|vs| - 2], vs[|vs| - 1])
  }

  /** The type of the `i`-th of a row of objects whose types alternate between `k` and `v`. */
  function Alt(k: Ty, v: Ty, i: nat): Ty { if i % 2 == 0 then k else v }

  /** The object has the type. Fixed objects are not empty. */
  predicate HasTy(o: Obj, ty: Ty)
    decreases o
  {
    match ty
    case TFixed(n) => o.OFixed? && |o.bytes| == n && n >= 1
    case TStr => o.OStr?
    case TVec(e) => o.OVec? && forall i :: 0 <= i < |o.es| ==> HasTy(o.es[i], e)
    case TSet(e) => o.OSet? && forall i :: 0 <= i < |o.es| ==> HasTy(o.es[i], e)
    case TMap(k, v) => o.OMap? && |o.es| % 2 == 0 && forall i :: 0 <= i < |o.es| ==> HasTy(o.es[i], Alt(k, v, i))
  }

  predicate AllHaveTy(es: seq<Obj>, k: Ty, v: Ty) {
    forall i :: 0 <= i < |es| ==> HasTy(es[i], Alt(k, v, i))
  }

  /** The `i`-th entry of a row of keys and values. */
  predicate IsEntry(vs: seq<Val>, i: int) { 0 <= i && 2 * i + 1 < |vs| }

  function Key(vs: seq<Val>, i: int): Val
    requires IsEntry(vs, i)
  {
    vs[2 * i]
  }

  function Value(vs: seq<Val>, i: int): Val
    requires IsEntry(vs, i)
  {
    vs[2 * i + 1]
  }

  /** A key of the map is the key of some entry. */
  lemma {:induction false} EntriesOnly(vs: seq<Val>, k: Val)
    requires |vs| % 2 == 0 && k in Entries(vs)
    ensures exists i :: IsEntry(vs, i) && Key(vs, i) == k
  {
    var n := |vs| / 2 - 1;
    if k == vs[2 * n] {
      assert IsEntry(vs, n) && Key(vs, n) == k;
    } else {
      EntriesOnly(vs[..|vs| - 2], k);
      var i :| IsEntry(vs[..|vs| - 2], i) && Key(vs[..|vs| - 2], i) == k;
      assert IsEntry(vs, i) && Key(vs, i) == k;
    }
  }

  /** The first entry with its key is in the map with its value; with distinct keys those are all. */
  lemma {:induction false} EntriesExact(vs: seq<Val>, i: nat)
    requires |vs| % 2 == 0 && IsEntry(vs, i) && forall j :: 0 <= j < i ==> Key(vs, j) != Key(vs, i)
    ensures Key(vs, i) in Entries(vs) && Entries(vs)[Key(vs, i)] == Value(vs, i)
  {
    var n := |vs| / 2 - 1;
    var front := vs[..|vs| - 2];
    assert forall j :: IsEntry(front, j) ==> IsEntry(vs, j) && Key(front, j) == Key(vs, j);
    if i == n {
      if Key(vs, n) in Entries(front) { EntriesOnly(front, Key(vs, n)); }
    } else {
      EntriesExact(front, i);
    }
  }

  // ---- sizes and bytes

  /** `Sizer::size`, before it is cut to 32 bits. */
  function Size(o: Obj): (n: nat)
    decreases o, 1
  {
    match o
    case OFixed(bytes) => |bytes|
    case OStr(bytes) => 4 + |bytes|
    case OVec(es) => 4 + SizeAll(es)
    case OSet(es) => 4 + SizeAll(es)
    case OMap(es) => 4 + SizeAll(es)
  }

  function SizeAll(es: seq<Obj>): nat
    decreases es, 0
  {
    if es == [] then 0 else SizeAll(es[..|es| - 1]) + Size(es[|es| - 1])
  }

  /** A count as the wire has it: four bytes, cut to 32 bits. */
  function Count(n: nat): seq<byte> { U32(n % TWO32) }

  function Encode(o: Obj): (r: seq<byte>)
    ensures |r| == Size(o)
    decreases o, 1
  {
    match o
    case OFixed(bytes) => bytes
    case OStr(bytes) => Count(|bytes|) + bytes
    case OVec(es) => Count(|es|) + EncodeAll(es)
    case OSet(es) => Count(|es|) + EncodeAll(es)
    case OMap(es) => Count(|es| / 2) + EncodeAll(es)
  }

  function EncodeAll(es: seq<Obj>): (r: seq<byte>)
    ensures |r| == SizeAll(es)
    decreases es, 0
  {
    if es == [] then [] else EncodeAll(es[..|es| - 1]) + Encode(es[|es| - 1])
  }

  // ---- reading

  /** What `get` gives: the value and how far it advanced; or it ran past the end of the buffer. */
  datatype Read<T> = Got(v: T, n: nat) | Overrun

  /** `get` of a fixed type: with its bounds check in 32-bit arithmetic. */
  function ReadFixed(n: nat, s: seq<byte>, p: nat): Read<Val> {
    if (p + n) % TWO32 > |s| then Got(Unset, 0)
    else if p + n <= |s| then Got(Fixed(s[p..p + n]), n)
    else Overrun
  }

  /** `get_cnt` */
  function ReadCount(s: seq<byte>, p: nat): Read<u32> {
    if (p + 4) % TWO32 > |s| then Got(0, 0)
    else if p + 4 <= |s| then Got(ReadU32(s[p..p + 4]), 4)
    else Overrun
  }

  /** `get` of a string whose count is `c`. */
  function ReadStr(c: nat, s: seq<byte>, p: nat): Read<seq<byte>> {
    if c == 0 then Got([], 0)
    else if p + c <= |s| then Got(s[p..p + c], c)
    else Overrun
  }

  function Depth(ty: Ty): nat {
    match ty
    case TFixed(_) => 0
    case TStr => 0
    case TVec(e) => 1 + Depth(e)
    case TSet(e) => 1 + Depth(e)
    case TMap(k, v) => 1 + Larger(Depth(k), Depth(v))
  }

  function Larger(m: nat, n: nat): nat { if m < n then n else m }

  function Depth2(k: Ty, v: Ty): nat { Larger(Depth(k), Depth(v)) }

  function ReadVal(ty: Ty, s: seq<byte>, p: nat): Read<Val>
    decreases Depth(ty), 1
  {
    if ty.TFixed? then ReadFixed(ty.n, s, p)
    else
      var c := ReadCount(s, p);
      if c.Overrun? then Overrun else ReadBody(ty, c.v, c.n, s, p + c.n)
  }

  /** The rest of `get` once the count `c` has been read. */
  function ReadBody(ty: Ty, c: nat, size: nat, s: seq<byte>, p: nat): Read<Val>
    requires !ty.TFixed?
    decreases Depth(ty), 0
  {
    match ty
    case TStr =>
      var r := ReadStr(c, s, p);
      if r.Got? then Got(Str(r.v), size + r.n) else Overrun
    case TVec(e) =>
      var r := ReadSeq(e, e, c, s, p);
      if r.Got? then Got(Vec(r.v), size + r.n) else Overrun
    case TSet(e) =>
      var r := ReadSeq(e, e, c, s, p);
      if r.Got? then Got(Set(Members(r.v)), size + r.n) else Overrun
    case TMap(k, v) =>
      var r := ReadSeq(k, v, 2 * c, s, p);
      if r.Got? then Got(Map(Entries(r.v)), size + r.n) else Overrun
  }

  /** `cnt` objects one after another. */
  function ReadSeq(k: Ty, v: Ty, cnt: nat, s: seq<byte>, p: nat): Read<seq<Val>>
    decreases Depth2(k, v), 2, cnt
  {
    if cnt == 0 then Got([], 0)
    else
      var r := ReadSeq(k, v, cnt - 1, s, p);
      if r.Overrun? then Overrun
      else
        var x := ReadVal(Alt(k, v, cnt - 1), s, p + r.n);
        if x.Overrun? then Overrun else Got(r.v + [x.v], r.n + x.n)
  }

  // ---- reading what was written

  lemma HoldsSplit(s: seq<byte>, p: nat, a: seq<byte>, b: seq<byte>)
    requires HoldsAt(s, p, a + b)
    ensures HoldsAt(s, p, a) && HoldsAt(s, p + |a|, b)
  {
    var t := s[p..p + |a + b|];
    assert s[p..p + |a|] == t[..|a|] == a;
    assert s[p + |a|..p + |a| + |b|] == t[|a|..] == b;
  }

  lemma EncodeLast(es: seq<Obj>)
    requires es != []
    ensures EncodeAll(es) == EncodeAll(es[..|es| - 1]) + Encode(es[|es| - 1])
    ensures SizeAll(es) == SizeAll(es[..|es| - 1]) + Size(es[|es| - 1])
  {
  }

  lemma AbsLast(es: seq<Obj>)
    requires es != []
    ensures AbsAll(es) == AbsAll(es[..|es| - 1]) + [Abs(es[|es| - 1])]
  {
  }

  lemma LastHolds(es: seq<Obj>, front: seq<byte>, last: seq<byte>, s: seq<byte>, p: nat)
    requires es != [] && front == EncodeAll(es[..|es| - 1]) && last == Encode(es[|es| - 1])
    requires HoldsAt(s, p, EncodeAll(es))
    ensures HoldsAt(s, p, front) && HoldsAt(s, p + |front|, last)
  {
    EncodeLast(es);
    HoldsSplit(s, p, front, last);
  }

  lemma ReadCountBack(n: nat, s: seq<byte>, p: nat)
    requires n < TWO32 && |s| < TWO32 && HoldsAt(s, p, Count(n))
    ensures ReadCount(s, p) == Got(n, 4)
  {
    hide U32, ReadU32;
    ReadOfU32(n, []);
    AppendNil(U32(n));
  }

  /** A container has no more elements than bytes. */
  lemma {:induction false} CountFits(es: seq<Obj>, k: Ty, v: Ty)
    requires AllHaveTy(es, k, v)
    ensures |es| <= SizeAll(es)
  {
    if es != [] {
      var n := |es| - 1;
      assert HasTy(es[n], Alt(k, v, n));
      CountFits(es[..n], k, v);
    }
  }

  lemma RoundTripStr(bytes: seq<byte>, s: seq<byte>, p: nat)
    requires |s| < TWO32 && HoldsAt(s, p, Encode(OStr(bytes)))
    ensures ReadCount(s, p) == Got(|bytes|, 4) && ReadStr(|bytes|, s, p + 4) == Got(bytes, |bytes|)
  {
    HoldsSplit(s, p, Count(|bytes|), bytes);
    ReadCountBack(|bytes|, s, p);
  }

  /** Reading at `p` what was written at `p` gives the value back and advances by its size, whatever bytes follow. */
  lemma {:induction false} RoundTrip(o: Obj, ty: Ty, s: seq<byte>, p: nat)
    requires HasTy(o, ty) && |s| < TWO32 && HoldsAt(s, p, Encode(o))
    ensures ReadVal(ty, s, p) == Got(Abs(o), Size(o))
    decreases o, 1
  {
    hide SizeAll, EncodeAll, AbsAll, ReadSeq, ReadStr, Members, Entries, Count;
    match o {
      case OFixed(bytes) =>
      case OStr(bytes) => RoundTripStr(bytes, s, p);
      case OVec(es) => RoundTripElements(es, ty.e, ty.e, |es|, s, p);
      case OSet(es) => RoundTripElements(es, ty.e, ty.e, |es|, s, p);
      case OMap(es) => RoundTripElements(es, ty.k, ty.v, |es| / 2, s, p);
    }
  }

  lemma {:induction false} RoundTripElements(es: seq<Obj>, k: Ty, v: Ty, cnt: nat, s: seq<byte>, p: nat)
    requires AllHaveTy(es, k, v) && cnt <= |es| && |s| < TWO32 && HoldsAt(s, p, Count(cnt) + EncodeAll(es))
    ensures ReadCount(s, p) == Got(cnt, 4)
    ensures ReadSeq(k, v, |es|, s, p + 4) == Got(AbsAll(es), SizeAll(es))
    decreases es, 1
  {
    HoldsSplit(s, p, Count(cnt), EncodeAll(es));
    CountFits(es, k, v);
    ReadCountBack(cnt, s, p);
    RoundTripAll(es, k, v, s, p + 4);
  }

  lemma ReadSeqSnoc(k: Ty, v: Ty, n: nat, s: seq<byte>, p: nat, vs: seq<Val>, m: nat, x: Val, l: nat)
    requires ReadSeq(k, v, n, s, p) == Got(vs, m) && ReadVal(Alt(k, v, n), s, p + m) == Got(x, l)
    ensures ReadSeq(k, v, n + 1, s, p) == Got(vs + [x], m + l)
  {
    hide ReadVal;
  }

  lemma RoundTripNone(k: Ty, v: Ty, s: seq<byte>, p: nat)
    ensures ReadSeq(k, v, 0, s, p) == Got(AbsAll([]), SizeAll([]))
  {
  }

  /** The last element is read behind the others. */
  lemma RoundTripLast(es: seq<Obj>, n: nat, front: seq<Obj>, o: Obj, k: Ty, v: Ty, s: seq<byte>, p: nat)
    requires |es| == n + 1 && front == es[..n] && o == es[n]
    requires ReadSeq(k, v, n, s, p) == Got(AbsAll(front), SizeAll(front))
    requires ReadVal(Alt(k, v, n), s, p + SizeAll(front)) == Got(Abs(o), Size(o))
    ensures ReadSeq(k, v, n + 1, s, p) == Got(AbsAll(es), SizeAll(es))
  {
    hide *;
    AbsLast(es);
    EncodeLast(es);
    ReadSeqSnoc(k, v, n, s, p, AbsAll(front), SizeAll(front), Abs(o), Size(o));
  }

  lemma {:induction false} RoundTripAll(es: seq<Obj>, k: Ty, v: Ty, s: seq<byte>, p: nat)
    requires AllHaveTy(es, k, v) && |s| < TWO32 && HoldsAt(s, p, EncodeAll(es))
    ensures ReadSeq(k, v, |es|, s, p) == Got(AbsAll(es), SizeAll(es))
    decreases es, 0
  {
    hide ReadVal, Encode, Abs, Size, HoldsAt, ReadSeq, HasTy, AbsAll, SizeAll, EncodeAll;
    if es == [] {
      RoundTripNone(k, v, s, p);
    } else {
      var n := |es| - 1;
      LastHolds(es, EncodeAll(es[..n]), Encode(es[n]), s, p);
      RoundTripAll(es[..n], k, v, s, p);
      RoundTrip(es[n], Alt(k, v, n), s, p + SizeAll(es[..n]));
      RoundTripLast(es, n, es[..n], es[n], k, v, s, p);
    }
  }

  // ---- rows of fields of different types

  /** The fields of a `serialize` body, read one after another. */
  function ReadFields(tys: seq<Ty>, s: seq<byte>, p: nat): Read<seq<Val>> {
    if tys == [] then Got([], 0)
    else
      var r := ReadFields(tys[..|tys| - 1], s, p);
      if r.Overrun? then Overrun
      else
        var x := ReadVal(tys[|tys| - 1], s, p + r.n);
        if x.Overrun? then Overrun else Got(r.v + [x.v], r.n + x.n)
  }

  lemma ReadFieldsSnoc(front: seq<Ty>, ty: Ty, s: seq<byte>, p: nat, vs: seq<Val>, m: nat, x: Val, l: nat)
    requires ReadFields(front, s, p) == Got(vs, m) && ReadVal(ty, s, p + m) == Got(x, l)
    ensures ReadFields(front + [ty], s, p) == Got(vs + [x], m + l)
  {
    hide ReadVal;
    assert (front + [ty])[..|front|] == front;
  }

  predicate FieldsHaveTy(fs: seq<Obj>, tys: seq<Ty>) {
    |fs| == |tys| && forall i :: 0 <= i < |fs| ==> HasTy(fs[i], tys[i])
  }

  lemma {:induction false} RoundTripFields(fs: seq<Obj>, tys: seq<Ty>, s: seq<byte>, p: nat)
    requires FieldsHaveTy(fs, tys) && |s| < TWO32 && HoldsAt(s, p, EncodeAll(fs))
    ensures ReadFields(tys, s, p) == Got(AbsAll(fs), SizeAll(fs))
  {
    hide ReadVal, Encode, Abs, Size, HoldsAt;
    if fs != [] {
      var n := |fs| - 1;
      LastHolds(fs, EncodeAll(fs[..n]), Encode(fs[n]), s, p);
      RoundTripFields(fs[..n], tys[..n], s, p);
      RoundTrip(fs[n], tys[n], s, p + SizeAll(fs[..n]));
      assert tys == tys[..n] + [tys[n]];
      ReadFieldsSnoc(tys[..n], tys[n], s, p, AbsAll(fs[..n]), SizeAll(fs[..n]), Abs(fs[n]), Size(fs[n]));
    }
  }

  // ---- reading what is not all there

  /** What an object is when nothing of it could be read. */
  function Blank(ty: Ty): Val {
    match ty
    case TFixed(_) => Unset
    case TStr => Str([])
    case TVec(_) => Vec([])
    case TSet(_) => Set({})
    case TMap(_, _) => Map(map[])
  }

  /** The bytes `get` asks for first: all of a fixed object, the count of any other. */
  function First(ty: Ty): nat { if ty.TFixed? then ty.n else 4 }

  /** Where these do not fit, `get` gives an empty object and does not advance. */
  lemma ReadsNothing(ty: Ty, s: seq<byte>, p: nat)
    requires |s| < p + First(ty) < TWO32
    ensures ReadVal(ty, s, p) == Got(Blank(ty), 0)
  {
    var n := First(ty);
    assert (p + n) % TWO32 == p + n;
    if ty.TFixed? {
      assert ReadFixed(n, s, p) == Got(Unset, 0);
    } else {
      assert ReadCount(s, p) == Got(0, 0);
      match ty {
        case TStr => assert ReadStr(0, s, p) == Got([], 0);
        case TVec(e) => assert ReadSeq(e, e, 0, s, p) == Got([], 0);
        case TSet(e) => assert ReadSeq(e, e, 0, s, p) == Got([], 0) && Members([]) == {};
        case TMap(k, v) => assert ReadSeq(k, v, 0, s, p) == Got([], 0) && Entries([]) == map[];
      }
    }
  }

  predicate NoStrings(ty: Ty) {
    match ty
    case TFixed(_) => true
    case TStr => false
    case TVec(e) => NoStrings(e)
    case TSet(e) => NoStrings(e)
    case TMap(k, v) => NoStrings(k) && NoStrings(v)
  }

  /** No fixed object in it has more than `m` bytes. */
  predicate FixedWithin(ty: Ty, m: int) {
    match ty
    case TFixed(n) => n <= m
    case TStr => true
    case TVec(e) => FixedWithin(e, m)
    case TSet(e) => FixedWithin(e, m)
    case TMap(k, v) => FixedWithin(k, m) && FixedWithin(v, m)
  }

  /** The bounds checks of objects of this type do not wrap in a buffer of `len` bytes, and none is left out. */
  predicate Checked(ty: Ty, len: nat) { NoStrings(ty) && FixedWithin(ty, TWO32 - 1 - len) && len + 4 < TWO32 }

  /** `get` advances only over bytes that are there; and, whatever they are, it does not look behind them, unless it
      comes to a string or its 32-bit check wraps. */
  lemma {:induction false} ReadsInside(ty: Ty, s: seq<byte>, p: nat)
    requires p <= |s|
    ensures ReadVal(ty, s, p).Got? ==> p + ReadVal(ty, s, p).n <= |s|
    ensures Checked(ty, |s|) ==> ReadVal(ty, s, p).Got?
    decreases Depth(ty), 1
  {
    if !ty.TFixed? {
      var c := ReadCount(s, p);
      if c.Got? {
        match ty {
          case TStr =>
          case TVec(e) => ReadsAllInside(e, e, c.v, s, p + c.n);
          case TSet(e) => ReadsAllInside(e, e, c.v, s, p + c.n);
          case TMap(k, v) => ReadsAllInside(k, v, 2 * c.v, s, p + c.n);
        }
      }
    }
  }

  lemma {:induction false} ReadsAllInside(k: Ty, v: Ty, cnt: nat, s: seq<byte>, p: nat)
    requires p <= |s|
    ensures ReadSeq(k, v, cnt, s, p).Got? ==> p + ReadSeq(k, v, cnt, s, p).n <= |s|
    ensures Checked(k, |s|) && Checked(v, |s|) ==> ReadSeq(k, v, cnt, s, p).Got?
    decreases Depth2(k, v), 2, cnt
  {
    if cnt > 0 {
      ReadsAllInside(k, v, cnt - 1, s, p);
      var r := ReadSeq(k, v, cnt - 1, s, p);
      if r.Got? { ReadsInside(Alt(k, v, cnt - 1), s, p + r.n); }
    }
  }

  /** How many whole objects of `n` bytes there are in `room` bytes, if `cnt` are asked for. */
  function Whole(n: nat, cnt: nat, room: nat): nat
    requires n >= 1
  {
    if cnt <= room / n then cnt else room / n
  }

  /** A row cut short: as many objects as are there in full, each with its bytes, and the others unset. */
  lemma {:induction false} ReadsWhole(n: nat, cnt: nat, s: seq<byte>, p: nat)
    requires n >= 1 && p <= |s| && |s| + n < TWO32
    ensures var w := Whole(n, cnt, |s| - p);
            var r := ReadSeq(TFixed(n), TFixed(n), cnt, s, p);
            && p + w * n <= |s| && r.Got? && |r.v| == cnt && r.n == w * n
            && (forall i :: 0 <= i < w ==> HoldsObject(n, i, s, p, r.v[i]))
            && (forall i :: w <= i < cnt ==> r.v[i] == Unset)
    decreases cnt
  {
    var room := |s| - p;
    WholeIs(n, cnt, room);
    if cnt > 0 {
      hide HoldsObject, ReadFixed, Whole;
      ReadsWhole(n, cnt - 1, s, p);
      WholeIs(n, cnt - 1, room);
      var w := Whole(n, cnt - 1, room);
      ReadsObject(n, w, s, p);
    }
  }

  /** `v` is the `i`-th object of `n` bytes from `p` on. */
  predicate HoldsObject(n: nat, i: nat, s: seq<byte>, p: nat, v: Val) {
    p + i * n + n <= |s| && v == Fixed(s[p + i * n..p + i * n + n])
  }

  lemma ReadsObject(n: nat, i: nat, s: seq<byte>, p: nat)
    requires n >= 1 && p + i * n <= |s| && |s| + n < TWO32
    ensures var r := ReadFixed(n, s, p + i * n);
            && r.Got?
            && (if p + i * n + n <= |s| then r.n == n && HoldsObject(n, i, s, p, r.v) else r == Got(Unset, 0))
  {
    var at := i * n;
    assert (p + at + n) % TWO32 == p + at + n;
  }

  /** One object more is there exactly when it fits. */
  lemma WholeIs(n: nat, cnt: nat, room: nat)
    requires n >= 1
    ensures var w := Whole(n, cnt, room);
            && w <= cnt && w * n <= room && (w < cnt ==> w * n + n > room)
            && (cnt > 0 ==>
                  var v := Whole(n, cnt - 1, room);
                  if v == cnt - 1 && v * n + n <= room then w == cnt && w * n == v * n + n else w == v)
  {
    var q := room / n;
    assert q * n <= room < q * n + n;
    Multiples(q, cnt, n);
    if cnt > 0 { Multiples(q, cnt - 1, n); }
    assert cnt > 0 ==> (cnt - 1) * n + n == cnt * n;
  }

  lemma Multiples(a: nat, b: nat, n: nat)
    ensures a <= b ==> a * n <= b * n
    ensures b <= a ==> b * n <= a * n
    ensures b + 1 <= a ==> b * n + n <= a * n
  {
    if a <= b { Grows(a, b, n); } else { Grows(b + 1, a, n); }
    assert (b + 1) * n == b * n + n;
  }

  lemma {:induction false} Grows(a: nat, b: nat, n: nat)
    requires a <= b
    ensures a * n <= b * n
    decreases b
  {
    if a < b {
      Grows(a, b - 1, n);
      assert b * n == (b - 1) * n + n;
    }
  }
}
