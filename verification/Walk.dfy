/**
 Running a block mode over scattered source and destination bytes: the walk cuts
 the message into chunks that are contiguous on both sides, copying blocks that
 are not through a bounce buffer and misaligned chunks through a page.
 */
module Walk {
  import opened Lists
  import opened Modes
  import opened Octets
  import opened ModeLoops
  import opened Scatter

  lemma EntryBound(l: List, i: nat, size: nat)
    requires Good(l, size) && i < |l|
    ensures l[i].page + l[i].offset + l[i].length <= size
  {}

  /** Reads what is next in this page. */
  method ReadPiece(walk: ScatterWalk, mem: array<Octet>, n: nat) returns (s: Bytes)
    requires walk.Valid() && Good(walk.list, mem.Length) && n <= walk.PageLen()
    modifies walk`offset
    ensures walk.Valid() && walk.Pos() == old(walk.Pos()) + n <= Total(walk.list) && walk.offset == old(walk.offset) + n
    ensures s == Gather(mem[..], walk.list, old(walk.Pos()), n)
  {
    hide Good, Gather, Contiguous, Addr, Total;
    walk.Here(n);
    EntryBound(walk.list, walk.sg, mem.Length);
    var a := walk.list[walk.sg].page + walk.offset;
    GatherRun(mem[..], walk.list, walk.Pos(), n, a);
    s := mem[a..a + n];
    walk.Advance(n);
  }

  /** Writes what is next in this page. */
  method WritePiece(walk: ScatterWalk, mem: array<Octet>, s: Bytes)
    requires walk.Valid() && Good(walk.list, mem.Length) && |s| <= walk.PageLen()
    modifies walk`offset, mem
    ensures walk.Valid() && walk.Pos() == old(walk.Pos()) + |s| <= Total(walk.list)
    ensures walk.offset == old(walk.offset) + |s|
    ensures Written(old(mem[..]), mem[..], walk.list, old(walk.Pos()), s)
  {
    hide Good, Written, Contiguous, Addr, Total, Splice;
    walk.Here(|s|);
    EntryBound(walk.list, walk.sg, mem.Length);
    var a := walk.list[walk.sg].page + walk.offset;
    WrittenRun(mem[..], walk.list, walk.Pos(), a, s);
    Write(mem, a, s);
    walk.Advance(|s|);
  }

  /** scatterwalk_copychunks, reading */
  method CopyIn(walk: ScatterWalk, mem: array<Octet>, buf: array<Octet>)
    requires walk.Valid() && Good(walk.list, mem.Length) && walk.Pos() + buf.Length <= Total(walk.list) && buf != mem
    modifies walk, buf
    ensures walk.Valid() && walk.Pos() == old(walk.Pos()) + buf.Length
    ensures buf[..] == Gather(mem[..], walk.list, old(walk.Pos()), buf.Length)
  {
    hide Good, Gather, Addr, Total, Splice;
    ghost var p, m := walk.Pos(), mem[..];
    GatherSplit(m, walk.list, p, 0, 0);
    var k := 0;
    while true
      invariant walk.Valid() && k <= buf.Length && walk.Pos() == p + k
      invariant buf[..k] == Gather(m, walk.list, p, k)
      decreases buf.Length - k, |walk.list| - walk.sg
    {
      var n := walk.PageLen();
      if n > buf.Length - k {
        n := buf.Length - k;
      }
      ghost var d := buf[..];
      var s := ReadPiece(walk, mem, n);
      Write(buf, k, s);
      GatherSplit(m, walk.list, p, k + n, k);
      SpliceEnd(d, k, s);
      k := k + n;
      if k == buf.Length {
        break;
      }
      walk.PageDone(true);
    }
    assert buf[..k] == buf[..];
  }

  lemma SpliceEnd(d: Bytes, k: nat, s: Bytes)
    requires k + |s| <= |d|
    ensures Splice(d, k, s)[..k + |s|] == d[..k] + s
  {}

  /** scatterwalk_copychunks, writing */
  method CopyOut(walk: ScatterWalk, mem: array<Octet>, buf: array<Octet>)
    requires walk.Valid() && Good(walk.list, mem.Length) && walk.Pos() + buf.Length <= Total(walk.list) && buf != mem
    requires Distinct(walk.list, walk.Pos() + buf.Length)
    modifies walk, mem
    ensures walk.Valid() && walk.Pos() == old(walk.Pos()) + buf.Length
    ensures Written(old(mem[..]), mem[..], walk.list, old(walk.Pos()), buf[..])
  {
    hide Good, Written, Addr, Total, Distinct;
    ghost var p, m := walk.Pos(), mem[..];
    WrittenNone(m, walk.list, p);
    assert buf[..0] == [];
    var k := 0;
    while true
      invariant walk.Valid() && k <= buf.Length && walk.Pos() == p + k
      invariant Written(m, mem[..], walk.list, p, buf[..k])
      decreases buf.Length - k, |walk.list| - walk.sg
    {
      var n := walk.PageLen();
      if n > buf.Length - k {
        n := buf.Length - k;
      }
      ghost var m' := mem[..];
      WritePiece(walk, mem, buf[k..k + n]);
      DistinctLess(walk.list, p + k + n, p + buf.Length);
      WrittenTwice(m, m', mem[..], walk.list, p, buf[..k], buf[k..k + n]);
      assert buf[..k] + buf[k..k + n] == buf[..k + n];
      k := k + n;
      if k == buf.Length {
        break;
      }
      walk.PageDone(true);
    }
    assert buf[..k] == buf[..];
  }

  lemma DistinctLess(l: List, n: nat, n': nat)
    requires n <= n' <= Total(l) && Distinct(l, n')
    ensures Distinct(l, n)
  {}
}
