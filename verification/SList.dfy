/** `SList`: a singly linked list through the nodes themselves. */
module SList {
  import opened Seqs

  /** An object with a `next_` of its own; `value` stands for the rest of it. */
  class Node<T> {
    var next: Node?<T>
    const value: T

    constructor (v: T)
      ensures next == null && value == v
    {
      next, value := null, v;
    }
  }

  /** What the nodes of a list stand for. */
  ghost function Values<T>(s: seq<Node<T>>): (vs: seq<T>)
    ensures |vs| == |s| && forall i :: 0 <= i < |s| ==> vs[i] == s[i].value
  {
    seq(|s|, i requires 0 <= i < |s| => s[i].value)
  }

  lemma ValuesJoin<T>(s: seq<Node<T>>, t: seq<Node<T>>)
    ensures Values(s + t) == Values(s) + Values(t)
  {
  }

  lemma ValuesSplit<T>(s: seq<Node<T>>, n: nat)
    requires n <= |s|
    ensures Values(s[..n]) == Values(s)[..n] && Values(s[n..]) == Values(s)[n..]
  {
  }

  /** The node after place `i`. */
  function Link<T>(s: seq<Node<T>>, i: nat): Node?<T> { if i + 1 < |s| then s[i + 1] else null }

  function First<T>(s: seq<Node<T>>): Node?<T> { if s == [] then null else s[0] }

  function Last<T>(s: seq<Node<T>>): Node?<T> { if s == [] then null else s[|s| - 1] }

  /** Following `next_` runs through `s` and ends, so no node comes twice. */
  ghost predicate Chained<T>(s: seq<Node<T>>)
    reads s
  {
    && (forall i {:trigger Link(s, i)} :: 0 <= i < |s| ==> s[i].next == Link(s, i))
    && Distinct(s)
  }

  /** Setting the last `next_` of one chain to the first node of another joins the two. */
  lemma ChainedJoin<T>(s: seq<Node<T>>, t: seq<Node<T>>)
    requires s != [] && Distinct(s) && Chained(t) && forall n :: n in s ==> n !in t
    requires forall i {:trigger Link(s, i)} :: 0 <= i < |s| - 1 ==> s[i].next == Link(s, i)
    requires s[|s| - 1].next == First(t)
    ensures Chained(s + t)
  {
    DistinctJoin(s, t);
    forall i | 0 <= i < |s + t| ensures (s + t)[i].next == Link(s + t, i) {
      if i < |s| - 1 {
        assert s[i].next == Link(s, i);
      } else if i >= |s| {
        assert t[i - |s|].next == Link(t, i - |s|);
      }
    }
  }

  /** Cutting a chain behind place `c - 1` makes two. */
  lemma ChainedCut<T>(s: seq<Node<T>>, c: nat)
    requires 1 <= c <= |s| && Distinct(s) && s[c - 1].next == null
    requires forall i {:trigger Link(s, i)} :: 0 <= i < |s| && i != c - 1 ==> s[i].next == Link(s, i)
    ensures Chained(s[..c]) && Chained(s[c..])
  {
    var a, b := s[..c], s[c..];
    forall i | 0 <= i < c ensures a[i].next == Link(a, i) {
      assert i != c - 1 ==> s[i].next == Link(s, i);
    }
    forall i | 0 <= i < |b| ensures b[i].next == Link(b, i) {
      assert s[i + c].next == Link(s, i + c);
    }
  }

  class SList<T> {
    var cnt: nat
    var start: Node?<T>
    var end: Node?<T>
    ghost var contents: seq<Node<T>>

    ghost predicate Valid()
      reads this, contents
    {
      cnt == |contents| && start == First(contents) && end == Last(contents) && Chained(contents)
    }

    lemma CountIs()
      requires Valid()
      ensures cnt == |contents|
    {
    }

    constructor ()
      ensures Valid() && contents == []
    {
      cnt, start, end, contents := 0, null, null, [];
    }

    /** `pop()` */
    method Pop() returns (n: Node?<T>)
      requires Valid()
      modifies this, contents
      ensures Valid()
      ensures old(contents) == [] ==> n == null && contents == []
      ensures old(contents) != [] ==>
                n == old(contents)[0] && contents == old(contents)[1..] && n.next == null && n !in contents
    {
      if cnt == 0 { return null; }
      n := start;
      assert Link(contents, 0) == n.next;
      if cnt == 1 {
        start, end := null, null;
      } else if cnt == 2 {
        start := n.next;
        end := start;
      } else {
        start := n.next;
      }
      n.next := null;
      cnt := cnt - 1;
      contents := contents[1..];
      assert forall i :: 0 <= i < |contents| ==> Link(contents, i) == Link(old(contents), i + 1);
    }

    /** `push(n)` */
    method Push(n: Node<T>)
      requires Valid() && n !in contents
      modifies this, n
      ensures Valid() && contents == [n] + old(contents)
    {
      if cnt == 0 {
        start, end := n, n;
        n.next := null;
      } else {
        n.next := start;
        start := n;
      }
      cnt := cnt + 1;
      contents := [n] + contents;
      assert forall i :: 0 < i < |contents| ==> Link(contents, i) == Link(old(contents), i - 1);
    }

    /** `pop(cnt, s)`: the first `k` nodes, or all there are, become the list `s`. */
    method PopMany(k: nat, s: SList<T>)
      requires Valid() && s != this
      modifies this, contents, s
      ensures Valid()
      ensures k == 0 || old(contents) == [] ==>
                contents == old(contents) && s.contents == old(s.contents) && (old(s.Valid()) ==> s.Valid())
      ensures k > 0 && old(contents) != [] ==>
                var m := if k < |old(contents)| then k else |old(contents)|;
                s.Valid() && s.contents == old(contents)[..m] && contents == old(contents)[m..]
                && Disjoint(s.contents, contents)
    {
      if k == 0 { return; }
      if cnt == 0 { return; }
      var c, e := 1, start;
      while c < k
        invariant 1 <= c <= |contents| && e == contents[c - 1] && (c <= k)
        decreases k - c
      {
        assert e.next == Link(contents, c - 1);
        if e.next == null { break; }
        e := e.next;
        c := c + 1;
      }
      CutBehind(c, e, s);
    }

    /** The list behind node `e`, which is in place `c - 1`, is split off. */
    method CutBehind(c: nat, e: Node<T>, s: SList<T>)
      requires Valid() && s != this && 1 <= c <= |contents| && e == contents[c - 1]
      modifies this, e, s
      ensures Valid() && s.Valid() && s.contents == old(contents)[..c] && contents == old(contents)[c..]
      ensures Disjoint(s.contents, contents)
    {
      assert e.next == Link(contents, c - 1);
      s.start, s.end, s.cnt := start, e, c;
      start := e.next;
      e.next := null;
      if start == null { end := null; }
      cnt := cnt - c;
      ghost var all := contents;
      assert forall i {:trigger Link(all, i)} ::
          0 <= i < |all| && i != c - 1 ==> all[i] != e && all[i].next == Link(all, i);
      ChainedCut(all, c);
      s.contents, contents := all[..c], all[c..];
    }

    /** `push(s)`: all of `s` in front. */
    method PushAll(s: SList<T>)
      requires Valid() && s != this && s.Valid() && Disjoint(s.contents, contents)
      modifies this, s, s.contents
      ensures Valid() && s.Valid() && contents == old(s.contents) + old(contents) && s.contents == []
    {
      if s.cnt == 0 { return; }
      ghost var front, back := s.contents, contents;
      ghost var m := |front|;
      assert s.end == front[m - 1] && s.end in front && s.end.next == Link(front, m - 1);
      if cnt == 0 {
        start, end := s.start, s.end;
      } else {
        s.end.next := start;
        start := s.start;
      }
      assert forall i {:trigger Link(back, i)} :: 0 <= i < |back| ==> back[i] in back && back[i].next == Link(back, i);
      ChainedJoin(front, back);
      cnt := cnt + s.cnt;
      contents := front + back;
      s.cnt, s.start, s.end, s.contents := 0, null, null, [];
    }
  }
}
