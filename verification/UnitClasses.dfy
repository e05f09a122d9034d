/** The size classes of a memory pool: which block size a request gets. */
module UnitClasses {
  /** The configured unit sizes, in the increasing order a map keeps its keys in. */
  predicate ValidUnits(us: seq<nat>) {
    && us != []
    && forall i, j :: 0 <= i < j < |us| ==> us[i] < us[j]
  }

  /** `map_.lower_bound(size)`, or a block of exactly `size` bytes when it exceeds the largest unit. */
  function RoundUp(us: seq<nat>, size: nat): nat {
    if us == [] then size
    else if size <= us[0] then us[0]
    else RoundUp(us[1..], size)
  }

  /** Which unit `lower_bound` finds for a request no larger than the largest. */
  function ClassOf(us: seq<nat>, size: nat): (k: nat)
    requires us != [] && size <= us[|us| - 1]
    ensures k < |us| && us[k] == RoundUp(us, size)
  {
    if size <= us[0] then 0 else 1 + ClassOf(us[1..], size)
  }

  /** A request gets a block that holds it: the smallest configured one, if there is one. */
  lemma {:induction false} RoundUpFits(us: seq<nat>, size: nat)
    ensures size <= RoundUp(us, size)
    ensures RoundUp(us, size) == size || RoundUp(us, size) in us
    ensures ValidUnits(us) ==> forall u :: u in us && size <= u ==> RoundUp(us, size) <= u
    ensures (forall u :: u in us ==> u < size) ==> RoundUp(us, size) == size
  {
    if us != [] && size > us[0] {
      RoundUpFits(us[1..], size);
      assert forall u :: u in us ==> u == us[0] || u in us[1..];
    }
  }

  lemma {:induction false} RoundUpMonotone(us: seq<nat>, a: nat, b: nat)
    requires ValidUnits(us) && a <= b
    ensures RoundUp(us, a) <= RoundUp(us, b)
  {
    if us != [] && a > us[0] {
      if |us| > 1 { RoundUpMonotone(us[1..], a, b); }
    } else if b > us[0] {
      RoundUpFits(us, b);
      RoundUpFits(us[1..], b);
    }
  }

  /** A block's own size is a request it serves exactly. */
  lemma {:induction false} RoundUpIdempotent(us: seq<nat>, size: nat)
    requires ValidUnits(us)
    ensures RoundUp(us, RoundUp(us, size)) == RoundUp(us, size)
  {
    if size > us[0] {
      RoundUpFits(us, size);
      if |us| > 1 { RoundUpIdempotent(us[1..], size); }
    }
  }

  // ---- configurations: a map from unit to what is configured for it, in the order of its keys

  datatype Entry<T> = Entry(unit: nat, conf: T)

  function Units<T>(c: seq<Entry<T>>): (us: seq<nat>)
    ensures |us| == |c| && forall k :: 0 <= k < |c| ==> us[k] == c[k].unit
  {
    seq(|c|, k requires 0 <= k < |c| => c[k].unit)
  }

  predicate ValidConf<T>(c: seq<Entry<T>>) { ValidUnits(Units(c)) }

  /** `conf.rbegin()->first` */
  function MaxUnit<T>(c: seq<Entry<T>>): nat
    requires c != []
  {
    c[|c| - 1].unit
  }

  lemma UnitsIncrease<T>(c: seq<Entry<T>>)
    requires ValidConf(c)
    ensures forall i, j :: 0 <= i < j < |c| ==> c[i].unit < c[j].unit
    ensures forall i :: 0 <= i < |c| ==> c[i].unit <= MaxUnit(c)
  {
    assert forall k :: 0 <= k < |c| ==> Units(c)[k] == c[k].unit;
  }

  /** A block's own unit leads back to the class it is of. */
  lemma ClassOfUnit<T>(c: seq<Entry<T>>, k: nat)
    requires ValidConf(c) && k < |c|
    ensures c[k].unit <= MaxUnit(c) && ClassOf(Units(c), c[k].unit) == k
  {
    UnitsIncrease(c);
    RoundUpFits(Units(c), c[k].unit);
    assert Units(c)[k] in Units(c);
  }

  lemma BigRoundUp<T>(c: seq<Entry<T>>, size: nat)
    requires ValidConf(c) && size > MaxUnit(c)
    ensures RoundUp(Units(c), size) == size
  {
    UnitsIncrease(c);
    RoundUpFits(Units(c), size);
  }
}
