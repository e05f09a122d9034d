/** The byte stream of a connection as a sequence of length-prefixed packets. */
module PacketStream {
  import opened Bytes
  import opened Seqs

  const MAX_PACKET: nat := 1024 * 128

  /** The error a session ends with when a packet size is invalid. */
  const INVALID_PACKET: int := 16000

  /** `is_valid_packet_size` */
  predicate ValidSize(n: nat) { n != 0 && n <= MAX_PACKET }

  /** What a parser finds in a stream: whole packets, the bytes after them, and whether these start with an invalid
      size. */
  datatype Parsed = Parsed(packets: seq<seq<byte>>, rest: seq<byte>, bad: bool)

  /** `get_packet_size`: the size field can be read once a whole header is there. */
  predicate HasSize(header: nat, s: seq<byte>) { |s| >= header && |s| >= 4 }

  /** Split a whole stream; `header` is the session's header size, at least the 4 bytes of the size field. */
  function Parse(header: nat, s: seq<byte>): (p: Parsed)
    requires header >= 4
    ensures |p.rest| <= |s|
    decreases |s|
  {
    if !HasSize(header, s) then Parsed([], s, false)
    else
      var n := ReadU32(s);
      if !ValidSize(n) then Parsed([], s, true)
      else if n <= |s| then
        var p := Parse(header, s[n..]);
        Parsed([s[..n]] + p.packets, p.rest, p.bad)
      else Parsed([], s, false)
  }

  function Concat(ss: seq<seq<byte>>): seq<byte> {
    if ss == [] then [] else ss[0] + Concat(ss[1..])
  }

  lemma ConcatCons(p: seq<byte>, ps: seq<seq<byte>>)
    ensures Concat([p] + ps) == p + Concat(ps)
  {
    assert ([p] + ps)[1..] == ps;
  }

  lemma {:induction false} ConcatAppend(a: seq<seq<byte>>, b: seq<seq<byte>>)
    ensures Concat(a + b) == Concat(a) + Concat(b)
  {
    if a == [] {
      assert a + b == b;
    } else {
      assert (a + b)[1..] == a[1..] + b;
      ConcatAppend(a[1..], b);
    }
  }

  /** Parsing loses no byte and invents none. */
  lemma {:induction false} ParseConserves(header: nat, s: seq<byte>)
    requires header >= 4
    ensures var p := Parse(header, s); Concat(p.packets) + p.rest == s
    decreases |s|
  {
    if HasSize(header, s) && ValidSize(ReadU32(s)) && ReadU32(s) <= |s| {
      var n := ReadU32(s);
      ParseConserves(header, s[n..]);
      var q := Parse(header, s[n..]);
      ConcatCons(s[..n], q.packets);
      AppendAssoc(s[..n], Concat(q.packets), q.rest);
      SplitAt(s, n);
    }
  }

  /** A packet is complete: it is as long as its own size field says. */
  predicate Complete(header: nat, p: seq<byte>) {
    HasSize(header, p) && ValidSize(|p|) && ReadU32(p) == |p|
  }

  /** Each packet found is as long as the size read where it starts, and that size is valid. */
  lemma {:induction false} ParsedSizes(header: nat, s: seq<byte>, i: nat)
    requires header >= 4 && i < |Parse(header, s).packets|
    ensures var p := Parse(header, s);
            var at := Concat(p.packets[i..]) + p.rest;
            |at| >= header && ReadU32(at) == |p.packets[i]| && 1 <= |p.packets[i]| <= 131072
    decreases |s|
  {
    var p := Parse(header, s);
    var n := ReadU32(s);
    var q := Parse(header, s[n..]);
    if i == 0 {
      ParseConserves(header, s);
      assert p.packets[0..] == p.packets;
    } else {
      assert p.packets[i..] == q.packets[i - 1..];
      ParsedSizes(header, s[n..], i - 1);
    }
  }

  /** What follows the last packet is not a packet: too short for a header or for its own size, or invalid. */
  lemma {:induction false} RestIsNoPacket(header: nat, s: seq<byte>)
    requires header >= 4
    ensures var p := Parse(header, s);
            if p.bad then HasSize(header, p.rest) && !(1 <= ReadU32(p.rest) <= 131072)
            else !HasSize(header, p.rest) || (1 <= ReadU32(p.rest) <= 131072 && |p.rest| < ReadU32(p.rest))
    decreases |s|
  {
    if HasSize(header, s) && ValidSize(ReadU32(s)) && ReadU32(s) <= |s| {
      RestIsNoPacket(header, s[ReadU32(s)..]);
    }
  }

  /** Bytes that arrive later change nothing already found: parse again from what was left. */
  lemma {:induction false} ParseMore(header: nat, s: seq<byte>, t: seq<byte>)
    requires header >= 4
    ensures var p := Parse(header, s);
            var q := Parse(header, p.rest + t);
            Parse(header, s + t) == Parsed(p.packets + q.packets, q.rest, q.bad)
    ensures Parse(header, s).bad ==>
              Parse(header, s + t).bad && Parse(header, s + t).packets == Parse(header, s).packets
    decreases |s|
  {
    var p := Parse(header, s);
    if HasSize(header, s) && ValidSize(ReadU32(s)) && ReadU32(s) <= |s| {
      var n := ReadU32(s);
      ParseMore(header, s[n..], t);
      ReadPrefix(s, t);
      SplitPrefix(s, t, n);
      var p1 := Parse(header, s[n..]);
      AppendAssoc([s[..n]], p1.packets, Parse(header, p.rest + t).packets);
    } else {
      AppendNil(Parse(header, s + t).packets);
      if p.bad { ReadPrefix(s, t); }
    }
  }

  lemma SplitPrefix(s: seq<byte>, t: seq<byte>, n: nat)
    requires n <= |s|
    ensures (s + t)[..n] == s[..n] && (s + t)[n..] == s[n..] + t
  {
  }

  /** A stream of complete packets is split into exactly those packets. */
  lemma {:induction false} ParsePackets(header: nat, ps: seq<seq<byte>>)
    requires header >= 4 && forall p :: p in ps ==> Complete(header, p)
    ensures Parse(header, Concat(ps)) == Parsed(ps, [], false)
  {
    if ps != [] {
      var p, rest := ps[0], Concat(ps[1..]);
      assert Complete(header, p);
      ReadPrefix(p, rest);
      SplitPrefix(p, rest, |p|);
      AppendNil(rest);
      ParsePackets(header, ps[1..]);
    }
  }
}
