/**
 Scatterlists over a memory of bytes, and the walk along one. An entry names a
 run of bytes by the address of its first page and an offset that may reach
 beyond that page; a list that continues in another one is written as one list.
 */
module Scatter {
  import opened Multiples
  import opened Lists
  import opened Modes
  import opened Octets
  import opened ModeLoops

  datatype Entry = Entry(page: nat, offset: nat, length: nat)

  type List = seq<Entry>

  ghost predicate Good(l: List, size: nat) {
    forall i :: 0 <= i < |l| ==> l[i].length > 0 && l[i].page + l[i].offset + l[i].length <= size
  }

  function Total(l: List): nat {
    if l == [] then 0 else l[0].length + Total(l[1..])
  }

  /** The address of byte `i` of a list. */
  function Addr(l: List, i: nat): nat
    requires i < Total(l)
  {
    if i < l[0].length then l[0].page + l[0].offset + i else Addr(l[1..], i - l[0].length)
  }

  /** How many bytes come before entry `k`. */
  function Start(l: List, k: nat): nat
    requires k <= |l|
  {
    if k == 0 then 0 else l[0].length + Start(l[1..], k - 1)
  }

  lemma {:induction false} StartNext(l: List, k: nat)
    requires k < |l|
    ensures Start(l, k + 1) == Start(l, k) + l[k].length <= Total(l)
  {
    if k > 0 {
      StartNext(l[1..], k - 1);
    }
  }

  lemma {:induction false} StartTotal(l: List)
    ensures Start(l, |l|) == Total(l)
  {
    if l != [] {
      StartTotal(l[1..]);
    }
  }

  /** An entry's bytes are next to each other. */
  lemma {:induction false} AddrInEntry(l: List, k: nat, i: nat)
    requires k < |l| && i < l[k].length
    ensures Start(l, k) + i < Total(l)
    ensures Addr(l, Start(l, k) + i) == l[k].page + l[k].offset + i
  {
    StartNext(l, k);
    if k > 0 {
      AddrInEntry(l[1..], k - 1, i);
    }
  }

  lemma {:induction false} AddrBound(l: List, i: nat, size: nat)
    requires i < Total(l) && Good(l, size)
    ensures Addr(l, i) < size
  {
    if i >= l[0].length {
      assert forall j :: 0 <= j < |l[1..]| ==> l[1..][j] == l[j + 1];
      AddrBound(l[1..], i - l[0].length, size);
    }
  }

  /** The `n` bytes from byte `i` of a list on lie at `a`, one after the other. */
  ghost predicate Contiguous(l: List, i: nat, n: nat, a: nat) {
    i + n <= Total(l) && forall k {:trigger Addr(l, k)} :: i <= k < i + n ==> Addr(l, k) == a + (k - i)
  }

  ghost function Gather(mem: Bytes, l: List, i: nat, n: nat): (s: Bytes)
    requires i + n <= Total(l) && Good(l, |mem|)
    ensures |s| == n
  {
    AllBound(l, |mem|);
    seq(n, k requires 0 <= k < n => mem[Addr(l, i + k)])
  }

  lemma AllBound(l: List, size: nat)
    requires Good(l, size)
    ensures forall k :: 0 <= k < Total(l) ==> Addr(l, k) < size
  {
    forall k | 0 <= k < Total(l)
      ensures Addr(l, k) < size
    {
      AddrBound(l, k, size);
    }
  }

  /** None of the first `n` bytes of the list is listed twice. */
  ghost predicate Distinct(l: List, n: nat)
    requires n <= Total(l)
  {
    forall i, j :: 0 <= i < j < n ==> Addr(l, i) != Addr(l, j)
  }

  /** Writing `s` to the bytes of `l` from byte `i` on turns `m` into `m'`. */
  ghost predicate Written(m: Bytes, m': Bytes, l: List, i: nat, s: Bytes) {
    && |m'| == |m| && Good(l, |m|) && i + |s| <= Total(l)
    && (forall k {:trigger Addr(l, k)} :: i <= k < i + |s| ==> Addr(l, k) < |m| && m'[Addr(l, k)] == s[k - i])
    && (forall a {:trigger m'[a]} :: 0 <= a < |m| && Outside(l, i, |s|, a) ==> m'[a] == m[a])
  }

  ghost predicate Outside(l: List, i: nat, n: nat, a: nat)
    requires i + n <= Total(l)
  {
    forall k {:trigger Addr(l, k)} :: i <= k < i + n ==> Addr(l, k) != a
  }

  lemma WrittenNone(m: Bytes, l: List, i: nat)
    requires Good(l, |m|) && i <= Total(l)
    ensures Written(m, m, l, i, [])
  {}

  lemma WrittenTwice(m: Bytes, m': Bytes, m'': Bytes, l: List, i: nat, s: Bytes, t: Bytes)
    requires Written(m, m', l, i, s) && Written(m', m'', l, i + |s|, t)
    requires Distinct(l, i + |s| + |t|)
    ensures Written(m, m'', l, i, s + t)
  {
    forall k | i <= k < i + |s + t|
      ensures Addr(l, k) < |m| && m''[Addr(l, k)] == (s + t)[k - i]
    {
      if k < i + |s| {
        assert m'[Addr(l, k)] == s[k - i];
        assert Outside(l, i + |s|, |t|, Addr(l, k));
      }
    }
    forall a | 0 <= a < |m| && Outside(l, i, |s + t|, a)
      ensures m''[a] == m[a]
    {
      assert Outside(l, i + |s|, |t|, a) && Outside(l, i, |s|, a);
      assert m'[a] == m[a];
    }
  }

  lemma WrittenRun(m: Bytes, l: List, i: nat, a: nat, s: Bytes)
    requires Good(l, |m|) && Contiguous(l, i, |s|, a) && a + |s| <= |m|
    ensures Written(m, Splice(m, a, s), l, i, s)
  {
    var m' := Splice(m, a, s);
    forall b | 0 <= b < |m|
      ensures Outside(l, i, |s|, b) ==> m'[b] == m[b]
    {
      if a <= b < a + |s| {
        ContiguousHits(l, i, |s|, a, b);
      }
    }
  }

  lemma ContiguousHits(l: List, i: nat, n: nat, a: nat, b: nat)
    requires Contiguous(l, i, n, a) && a <= b < a + n
    ensures !Outside(l, i, n, b)
  {
    assert Addr(l, i + (b - a)) == b;
  }

  lemma GatherRun(m: Bytes, l: List, i: nat, n: nat, a: nat)
    requires Good(l, |m|) && Contiguous(l, i, n, a) && a + n <= |m|
    ensures Gather(m, l, i, n) == m[a..a + n]
  {}

  lemma GatherSplit(m: Bytes, l: List, i: nat, n: nat, k: nat)
    requires Good(l, |m|) && i + n <= Total(l) && k <= n
    ensures Gather(m, l, i, n) == Gather(m, l, i, k) + Gather(m, l, i + k, n - k)
    ensures Gather(m, l, i, n)[..k] == Gather(m, l, i, k)
  {}

  /** The next page starts `p - x % p` bytes on, and rounding up leaves a page's start alone. */
  lemma PageArithmetic(x: nat, p: nat)
    requires p > 0
    ensures (x + (p - x % p)) % p == 0
    ensures x % p == 0 ==> (x + p - 1) % p == p - 1
  {
    var q, r := x / p, x % p;
    assert x == p * q + r;
    assert x + (p - r) == p * (q + 1);
    MulMod(q + 1, p, 0);
    MulMod(q, p, p - 1);
  }

  /** struct scatter_walk: an entry and an offset that lies within it or at its end. */
  class ScatterWalk {
    const list: List
    const pageSize: nat
    var sg: nat
    var offset: nat

    ghost predicate Valid()
      reads this
    {
      && pageSize > 0 && sg < |list|
      && list[sg].offset <= offset <= End()
      && (forall i :: 0 <= i < |list| ==> list[i].length > 0)
    }

    function End(): nat
      requires sg < |list|
      reads this
    {
      list[sg].offset + list[sg].length
    }

    /** How many bytes of the list have been passed. */
    ghost function Pos(): nat
      requires Valid()
      reads this
    {
      Start(list, sg) + (offset - list[sg].offset)
    }

    ghost predicate AtBoundary()
      requires Valid()
      reads this
    {
      offset % pageSize == 0 || offset == End()
    }

    /** scatterwalk_start */
    constructor (list: List, pageSize: nat)
      requires pageSize > 0 && list != [] && forall i :: 0 <= i < |list| ==> list[i].length > 0
      ensures Valid() && Pos() == 0 && this.list == list && this.pageSize == pageSize
    {
      this.list, this.pageSize, sg, offset := list, pageSize, 0, list[0].offset;
    }

    /** The walk's position decides where its bytes are. */
    lemma Here(n: nat)
      requires Valid() && offset + n <= End()
      ensures Pos() + n <= Total(list) && Contiguous(list, Pos(), n, list[sg].page + offset)
      ensures offset == End() && sg + 1 < |list| ==> Pos() == Start(list, sg + 1)
      ensures offset == End() && Pos() < Total(list) ==> sg + 1 < |list|
    {
      StartNext(list, sg);
      StartTotal(list);
      forall k | Pos() <= k < Pos() + n
        ensures k < Total(list) && Addr(list, k) == list[sg].page + offset + (k - Pos())
      {
        AddrInEntry(list, sg, k - Start(list, sg));
      }
    }

    /** scatterwalk_pagelen: what is left of the entry in this page. */
    function PageLen(): (n: nat)
      requires Valid()
      reads this
      ensures offset + n <= End() && n <= pageSize - offset % pageSize
      ensures n == 0 <==> offset == End()
      ensures offset + n == End() || (offset + n) % pageSize == 0
    {
      PageArithmetic(offset, pageSize);
      var len := End() - offset;
      var page := pageSize - offset % pageSize;
      if page > len then len else page
    }

    /** scatterwalk_advance */
    method Advance(n: nat)
      requires Valid() && offset + n <= End()
      modifies this`offset
      ensures Valid() && Pos() == old(Pos()) + n && offset == old(offset) + n
    {
      offset := offset + n;
    }

    /** scatterwalk_pagedone: at the end of a page or entry, go on to the next. */
    method PageDone(more: bool)
      requires Valid() && (more ==> AtBoundary() && Pos() < Total(list))
      modifies this
      ensures Valid() && Pos() == old(Pos())
      ensures sg == old(sg) + if more && old(offset) == old(End()) then 1 else 0
      ensures offset == (if sg == old(sg) then old(offset) else list[sg].offset) && (more ==> offset < End())
    {
      if more {
        Here(0);
        PageArithmetic(offset, pageSize);
        var up := offset + pageSize - 1;
        offset := up - up % pageSize;
        if offset >= End() {
          sg := sg + 1;
          offset := list[sg].offset;
        }
      }
    }

    /** scatterwalk_done */
    method Done(more: bool)
      requires Valid() && (more ==> Pos() < Total(list))
      modifies this
      ensures Valid() && Pos() == old(Pos())
      ensures sg == old(sg) + if more && old(offset) % pageSize == 0 && old(offset) == old(End()) then 1 else 0
      ensures offset == if sg == old(sg) then old(offset) else list[sg].offset
    {
      if offset % pageSize == 0 || !more {
        PageDone(more);
      }
    }
  }
}
