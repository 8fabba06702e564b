/**
 The block cipher walk and the mode drivers on top of it. Whatever the
 fragmentation, the bytes written are those of the flat mode.
 */
module BlockWalk {
  import opened Lists
  import opened Modes
  import opened Octets
  import opened ModeLoops
  import opened Scatter
  import opened Walk
  import opened LrwBytes
  import opened LrwLoop
  import opened Gf128
  import T = Gf128Tables
  import L = Lrw

  /** No source byte is a destination byte at another place; the same place is in-place operation. */
  ghost predicate NoCross(src: List, dst: List, n: nat)
    requires n <= Total(src) && n <= Total(dst)
  {
    forall i, j {:trigger Addr(src, i), Addr(dst, j)} :: 0 <= i < n && 0 <= j < n && i != j ==>
      Addr(src, i) != Addr(dst, j)
  }

  /** The first `p` bytes have been run: what is in memory `mem` and what the chaining value is. */
  ghost predicate At(m: Mode, c: Cipher, iv0: Bytes, m0: Bytes, src: List, dst: List, p: nat, mem: Bytes, iv: Bytes)
    requires Sized(c) && |iv0| == c.size && Good(src, |m0|) && p <= Total(src)
  {
    && Whole(p, c.size)
    && Written(m0, mem, dst, 0, Run(m, c, iv0, Gather(m0, src, 0, p)).0)
    && iv == Run(m, c, iv0, Gather(m0, src, 0, p)).1
  }

  lemma AtStart(m: Mode, c: Cipher, iv0: Bytes, m0: Bytes, src: List, dst: List)
    requires Sized(c) && |iv0| == c.size && Good(src, |m0|) && Good(dst, |m0|)
    ensures At(m, c, iv0, m0, src, dst, 0, m0, iv0)
  {
    hide Written, Good;
    assert Gather(m0, src, 0, 0) == [];
    WrittenNone(m0, dst, 0);
  }

  /** Bytes still to be read are as they were. */
  lemma {:induction false} StillToRead(m: Mode, c: Cipher, iv0: Bytes, m0: Bytes, src: List, dst: List, p: nat,
                                       n: nat, mem: Bytes, iv: Bytes)
    requires Sized(c) && |iv0| == c.size && Good(src, |m0|) && p + n <= Total(src) && p + n <= Total(dst)
    requires At(m, c, iv0, m0, src, dst, p, mem, iv) && NoCross(src, dst, p + n)
    ensures |mem| == |m0| && Gather(mem, src, p, n) == Gather(m0, src, p, n)
  {
    hide Run, Sized, Good, Whole;
    AllBound(src, |m0|);
    forall k | p <= k < p + n
      ensures mem[Addr(src, k)] == m0[Addr(src, k)]
    {
      assert Outside(dst, 0, p, Addr(src, k));
    }
  }

  /** Running the next `k` bytes from their own chaining value. */
  lemma Commit(m: Mode, c: Cipher, iv0: Bytes, m0: Bytes, src: List, dst: List, p: nat, k: nat,
               mem: Bytes, iv: Bytes, mem': Bytes, iv': Bytes)
    requires Sized(c) && |iv0| == |iv| == c.size && Good(src, |m0|) && p + k <= Total(src) && p + k <= Total(dst)
    requires At(m, c, iv0, m0, src, dst, p, mem, iv) && Whole(k, c.size) && Distinct(dst, p + k)
    requires Written(mem, mem', dst, p, Run(m, c, iv, Gather(m0, src, p, k)).0)
    requires iv' == Run(m, c, iv, Gather(m0, src, p, k)).1
    ensures At(m, c, iv0, m0, src, dst, p + k, mem', iv')
  {
    hide Run, Sized, Good, Whole, Gather, Written, Distinct;
    var s, t := Gather(m0, src, 0, p), Gather(m0, src, p, k);
    GatherSplit(m0, src, 0, p + k, p);
    RunConcat(m, c, iv0, s, t);
    WrittenTwice(m0, mem, mem', dst, 0, Run(m, c, iv0, s).0, Run(m, c, iv, t).0);
  }

  /** What LRW carries from chunk to chunk: the tweak that goes with the counter in memory, and room for the
      blocks of the `left` bytes that are still to come. */
  ghost predicate Carried(m: Mode, c: Cipher, mulinc: array<Be128>, iv: Bytes, t: Be128, first: bool, left: nat)
    requires |iv| == c.size
    reads mulinc
  {
    m.Lrw? ==> c.size == 16 && L.IncTableOk(mulinc, m.key) && Tweaked(t, iv, m.key) && Room(iv, first, left / 16)
  }

  /** The loop of a chained mode for a chunk. */
  method ChainedChunk(m: Mode, c: Cipher, src: array<Octet>, so: nat, dst: array<Octet>, do: nat, nbytes: nat,
                      iv: array<Octet>)
    returns (rest: nat)
    requires Sized(c) && iv.Length == c.size <= nbytes && iv != src && iv != dst && !m.Lrw?
    requires so + nbytes <= src.Length && do + nbytes <= dst.Length
    requires (src == dst && so == do) || Apart(src, so, dst, do, nbytes)
    modifies dst, iv
    ensures ChunkDone(m, c, old(iv[..]), old(src[so..so + nbytes]), old(dst[..]), do, dst[..], iv[..], rest)
  {
    hide ChunkDone, Apart, Sized;
    if src == dst && so == do {
      match m
      case Cbc(true) => rest := CbcEncryptInPlace(c, src, so, nbytes, iv);
      case Cbc(false) => rest := CbcDecryptInPlace(c, src, so, nbytes, iv);
      case Pcbc(true) => rest := PcbcEncryptInPlace(c, src, so, nbytes, iv);
      case Pcbc(false) => rest := PcbcDecryptInPlace(c, src, so, nbytes, iv);
    } else {
      match m
      case Cbc(true) => rest := CbcEncryptSegment(c, src, so, dst, do, nbytes, iv);
      case Cbc(false) => rest := CbcDecryptSegment(c, src, so, dst, do, nbytes, iv);
      case Pcbc(true) => rest := PcbcEncryptSegment(c, src, so, dst, do, nbytes, iv);
      case Pcbc(false) => rest := PcbcDecryptSegment(c, src, so, dst, do, nbytes, iv);
    }
  }

  /** The mode's loop for a chunk. */
  method Chunk(m: Mode, c: Cipher, mulinc: array<Be128>, src: array<Octet>, so: nat, dst: array<Octet>, do: nat,
               nbytes: nat, iv: array<Octet>, t: Be128, first: bool, ghost left: nat)
    returns (rest: nat, t': Be128)
    requires Sized(c) && iv.Length == c.size <= nbytes <= left && iv != src && iv != dst
    requires so + nbytes <= src.Length && do + nbytes <= dst.Length
    requires (src == dst && so == do) || Apart(src, so, dst, do, nbytes)
    requires Carried(m, c, mulinc, iv[..], t, first, left)
    modifies dst, iv
    ensures ChunkDone(m, c, ChainOf(m, old(iv[..]), first), old(src[so..so + nbytes]), old(dst[..]), do, dst[..],
                      ChainOf(m, iv[..], false), rest)
    ensures rest <= nbytes && Carried(m, c, mulinc, iv[..], t', false, left - (nbytes - rest))
  {
    hide ChunkDone, Apart, Sized, Room, Tweaked, L.IncTableOk, NextOf;
    t' := t;
    if m.Lrw? {
      ghost var used;
      rest, t', used := LrwChunk(c, m.encrypting, mulinc, src, so, dst, do, nbytes, iv, t, first, m.key, left / 16);
      assert (left - 16 * used) / 16 == left / 16 - used;
    } else {
      ghost var v, x, d := iv[..], src[so..so + nbytes], dst[..];
      rest := ChainedChunk(m, c, src, so, dst, do, nbytes, iv);
      RestBound(m, c, v, x, d, do, dst[..], iv[..], rest);
    }
  }

  lemma RestBound(m: Mode, c: Cipher, iv: Bytes, msg: Bytes, d0: Bytes, o: nat, d: Bytes, now: Bytes, rest: nat)
    requires Sized(c) && |iv| == c.size && o + |msg| <= |d0| && ChunkDone(m, c, iv, msg, d0, o, d, now, rest)
    ensures rest <= |msg|
  {}

  /** What a chunk leaves in a buffer, and where its whole blocks come from. */
  lemma ChunkOutput(m: Mode, c: Cipher, iv: Bytes, msg: Bytes, d0: Bytes, o: nat, d: Bytes, now: Bytes, rest: nat)
    requires Sized(c) && |iv| == c.size <= |msg| && o + |msg| <= |d0| && ChunkDone(m, c, iv, msg, d0, o, d, now, rest)
    ensures rest <= |msg| - c.size && Whole(|msg| - rest, c.size)
    ensures var r := Run(m, c, iv, msg[..|msg| - rest]); d == Splice(d0, o, r.0) && now == r.1
    ensures |msg| == c.size ==> rest == 0
  {
    hide Run, Splice;
    if |msg| == c.size {
      WholeRest(|msg|, c.size, c.size);
    }
  }

  lemma SpliceSlice(d: Bytes, o: nat, s: Bytes)
    requires o + |s| <= |d|
    ensures Splice(d, o, s)[o..o + |s|] == s
    ensures o == 0 && |s| == |d| ==> Splice(d, o, s) == s
  {}

  /** The flags of a walk: how the chunk at hand is run. */
  datatype Way = Fast | Copy | Slow

  /** struct blkcipher_walk: two positions that move together, and the bytes still to go. */
  class BlockCipherWalk {
    const m: Mode
    const c: Cipher
    const mem: array<Octet>
    const src: ScatterWalk
    const dst: ScatterWalk
    const iv: array<Octet>
    const alignment: nat
    const mulinc: array<Be128>
    var tweak: Be128
    var begun: bool
    var total: nat
    var way: Way
    ghost const m0: Bytes
    ghost const iv0: Bytes
    ghost const nbytes: nat

    ghost predicate Fixed()
      reads this, mem
    {
      && Sized(c) && iv.Length == |iv0| == c.size && iv != mem && src != dst && alignment > 0
      && total <= nbytes <= Total(src.list) && nbytes <= Total(dst.list)
      && |m0| == mem.Length && Good(src.list, |m0|) && Good(dst.list, |m0|)
      && Distinct(dst.list, nbytes) && NoCross(src.list, dst.list, nbytes)
    }

    /** The chaining value that the bytes still to come start from. */
    ghost function Chain(): (v: Bytes)
      reads this, iv
      ensures |v| == iv.Length
    {
      ChainOf(m, iv[..], total == nbytes)
    }

    /** What the loops rely on besides the positions. */
    ghost predicate Ready()
      reads this, iv, mulinc
    {
      iv.Length == c.size && begun == (total != nbytes) && Carried(m, c, mulinc, iv[..], tweak, !begun, total)
    }

    ghost predicate Valid()
      reads this, mem, src, dst, iv, mulinc
    {
      && Fixed() && src.Valid() && dst.Valid() && Ready()
      && src.Pos() == dst.Pos() == nbytes - total
      && At(m, c, iv0, m0, src.list, dst.list, nbytes - total, mem[..], Chain())
    }

    /** blkcipher_walk_first */
    constructor (m: Mode, c: Cipher, mem: array<Octet>, from: List, to: List, n: nat, iv: array<Octet>,
                 alignment: nat, pageSize: nat, mulinc: array<Be128>, tweak: Be128)
      requires Sized(c) && iv.Length == c.size && iv != mem && alignment > 0 && pageSize > 0
      requires Good(from, mem.Length) && Good(to, mem.Length) && 0 < n <= Total(from) && n <= Total(to)
      requires Distinct(to, n) && NoCross(from, to, n) && Carried(m, c, mulinc, iv[..], tweak, true, n)
      ensures Valid() && total == nbytes == n && fresh(src) && fresh(dst)
      ensures this.m == m && this.c == c && this.mem == mem && this.iv == iv && this.m0 == mem[..] && this.iv0 == iv[..]
      ensures src.list == from && dst.list == to
    {
      hide At, Sized, Distinct, NoCross, Carried;
      this.m, this.c, this.mem, this.iv, this.alignment := m, c, mem, iv, alignment;
      this.mulinc, this.tweak, begun := mulinc, tweak, false;
      total, nbytes, m0, iv0, way := n, n, mem[..], iv[..], Fast;
      src := new ScatterWalk(from, pageSize);
      dst := new ScatterWalk(to, pageSize);
      AtStart(m, c, iv[..], mem[..], from, to);
    }

    /** Bytes of the source that come next are still those of the start. */
    lemma Next(n: nat)
      requires Valid() && n <= total
      ensures nbytes - total + n <= Total(src.list)
      ensures Gather(mem[..], src.list, nbytes - total, n) == Gather(m0, src.list, nbytes - total, n)
      ensures Distinct(dst.list, nbytes - total + n)
    {
      hide At, Good, Sized, Carried, ChainOf;
      var p := nbytes - total;
      NoCrossLess(src.list, dst.list, p + n, nbytes);
      DistinctLess(dst.list, p + n, nbytes);
      StillToRead(m, c, iv0, m0, src.list, dst.list, p, n, mem[..], Chain());
    }

    /** One block from one bounce buffer to the other. */
    method RunBlock(from: array<Octet>, to: array<Octet>)
      requires Sized(c) && iv.Length == from.Length == to.Length == c.size <= total && Ready()
      requires from != iv && to != iv && from != to
      modifies to, iv, this`tweak
      ensures Whole(c.size, c.size) && (to[..], ChainOf(m, iv[..], false)) == Run(m, c, old(Chain()), old(from[..]))
      ensures Carried(m, c, mulinc, iv[..], tweak, false, total - c.size)
    {
      hide Sized, Run, ChunkDone, Carried;
      ghost var x, t0, v := from[..], to[..], Chain();
      assert x == from[0..0 + c.size];
      var rest;
      rest, tweak := Chunk(m, c, mulinc, from, 0, to, 0, c.size, iv, tweak, !begun, total);
      ChunkOutput(m, c, v, x, t0, 0, to[..], ChainOf(m, iv[..], false), rest);
      assert x[..|x| - rest] == x;
      SpliceSlice(t0, 0, Run(m, c, v, x).0);
    }

    /** blkcipher_next_slow and blkcipher_done_slow: one block through a bounce buffer. */
    method SlowBlock()
      requires Valid() && total >= c.size
      modifies this`total, this`tweak, this`begun, this`way, src, dst, mem, iv
      ensures Valid() && total == old(total) - c.size && way == Slow
    {
      hide At, Good, Sized, Gather, Run, Written, Distinct, NoCross, ChunkDone, Addr, Total, Start, Carried, ChainOf;
      ghost var p, v, d := nbytes - total, Chain(), mem[..];
      Next(c.size);
      SizePositive(c);
      var from := new Octet[c.size](_ => Octet(seq(8, _ => false)));
      var to := new Octet[c.size](_ => Octet(seq(8, _ => false)));
      CopyIn(src, mem, from);
      RunBlock(from, to);
      CopyOut(dst, mem, to);
      Commit(m, c, iv0, m0, src.list, dst.list, p, c.size, d, v, mem[..], ChainOf(m, iv[..], false));
      total, begun, way := total - c.size, true, Slow;
    }

    /** What both paths below know of the chunk they take: where it is and what it reads. */
    lemma Located(n: nat)
      requires Valid() && n <= total && n <= src.PageLen() && n <= dst.PageLen()
      ensures var p, sa, da := nbytes - total, src.list[src.sg].page + src.offset, dst.list[dst.sg].page + dst.offset;
              && p + n <= Total(src.list) && p + n <= Total(dst.list)
              && sa + n <= mem.Length && da + n <= mem.Length
              && mem[sa..sa + n] == Gather(m0, src.list, p, n)
              && Contiguous(dst.list, p, n, da)
              && (sa == da || sa + n <= da || da + n <= sa)
    {
      hide At, Good, Sized, Gather, Distinct, Carried, ChainOf;
      var p, sa, da := nbytes - total, src.list[src.sg].page + src.offset, dst.list[dst.sg].page + dst.offset;
      Next(n);
      src.Here(n);
      dst.Here(n);
      EntryBound(src.list, src.sg, mem.Length);
      EntryBound(dst.list, dst.sg, mem.Length);
      GatherRun(mem[..], src.list, p, n, sa);
      NoOverlap(src.list, dst.list, nbytes, p, n, sa, da);
    }

    /** The chunk where it lies. */
    method RunThere(n: nat, sa: nat, da: nat) returns (w: nat)
      requires Valid() && c.size <= n <= total && n <= src.PageLen() && n <= dst.PageLen()
      requires sa == src.list[src.sg].page + src.offset && da == dst.list[dst.sg].page + dst.offset
      modifies mem, iv, this`tweak, this`way
      ensures way == Fast && c.size <= w <= n && Carried(m, c, mulinc, iv[..], tweak, false, total - w)
      ensures At(m, c, iv0, m0, src.list, dst.list, nbytes - total + w, mem[..], ChainOf(m, iv[..], false))
    {
      hide At, Good, Sized, Gather, Run, Written, Distinct, NoCross, ChunkDone, Addr, Total, Start, Contiguous, Splice;
      hide Carried, ChainOf;
      ghost var p, v, d := nbytes - total, Chain(), mem[..];
      Located(n);
      DistinctLess(dst.list, p + n, nbytes);
      way := Fast;
      var rest;
      rest, tweak := Chunk(m, c, mulinc, mem, sa, mem, da, n, iv, tweak, !begun, total);
      ChunkCommit(m, c, iv0, m0, src.list, dst.list, p, n, d, v, da, mem[..], ChainOf(m, iv[..], false), rest);
      w := n - rest;
    }

    method ThroughPage(x: Bytes) returns (y: Bytes)
      requires Sized(c) && iv.Length == c.size <= |x| <= src.pageSize && |x| <= total && Ready()
      modifies iv, this`tweak
      ensures c.size <= |y| <= |x| && Whole(|y|, c.size)
      ensures (y, ChainOf(m, iv[..], false)) == Run(m, c, old(Chain()), x[..|y|])
      ensures Carried(m, c, mulinc, iv[..], tweak, false, total - |y|)
    {
      hide Sized, Run, ChunkDone, Splice, Carried;
      ghost var v := Chain();
      var page := new Octet[src.pageSize](_ => Octet(seq(8, _ => false)));
      Write(page, 0, x);
      ghost var t0 := page[..];
      assert page[0..0 + |x|] == x;
      var rest;
      rest, tweak := Chunk(m, c, mulinc, page, 0, page, 0, |x|, iv, tweak, !begun, total);
      ChunkOutput(m, c, v, x, t0, 0, page[..], ChainOf(m, iv[..], false), rest);
      var w := |x| - rest;
      SpliceSlice(t0, 0, Run(m, c, v, x[..w]).0);
      y := page[0..0 + w];
    }

    /** A misaligned chunk, through a page of its own. */
    method RunCopied(n: nat, sa: nat, da: nat) returns (w: nat)
      requires Valid() && c.size <= n <= total && n <= src.PageLen() && n <= dst.PageLen()
      requires sa == src.list[src.sg].page + src.offset && da == dst.list[dst.sg].page + dst.offset
      modifies mem, iv, this`tweak, this`way
      ensures way == Copy && c.size <= w <= n && Carried(m, c, mulinc, iv[..], tweak, false, total - w)
      ensures At(m, c, iv0, m0, src.list, dst.list, nbytes - total + w, mem[..], ChainOf(m, iv[..], false))
    {
      hide At, Good, Sized, Gather, Run, Written, Distinct, NoCross, Addr, Total, Start, Contiguous, Splice;
      hide Carried, ChainOf;
      ghost var p, v, d := nbytes - total, Chain(), mem[..];
      Located(n);
      way := Copy;
      var y := ThroughPage(mem[sa..sa + n]);
      w := |y|;
      Write(mem, da, y);
      ChunkWritten(m, c, v, m0, src.list, dst.list, p, n, w, d, da);
      DistinctLess(dst.list, p + w, nbytes);
      Commit(m, c, iv0, m0, src.list, dst.list, p, w, d, v, mem[..], ChainOf(m, iv[..], false));
    }

    /** blkcipher_next_fast or blkcipher_next_copy, the chunk, and blkcipher_done_fast. */
    method FastChunk(n: nat, copy: bool)
      requires Valid() && c.size <= n <= total && n <= src.PageLen() && n <= dst.PageLen()
      modifies this`total, this`tweak, this`begun, this`way, src, dst, mem, iv
      ensures Valid() && total <= old(total) - c.size && way == if copy then Copy else Fast
    {
      hide At, Good, Sized, Distinct, NoCross, Total, Start, Carried, ChainOf;
      SizePositive(c);
      var sa, da := src.list[src.sg].page + src.offset, dst.list[dst.sg].page + dst.offset;
      var w;
      if copy {
        w := RunCopied(n, sa, da);
      } else {
        w := RunThere(n, sa, da);
      }
      src.Advance(w);
      dst.Advance(w);
      total, begun := total - w, true;
    }

    /** One turn of the walk: as much as is contiguous on both sides, and at least a block. */
    method Turn()
      requires Valid() && total >= c.size
      modifies this`total, this`tweak, this`begun, this`way, src, dst, mem, iv
      ensures Valid() && total <= old(total) - c.size
      ensures way == if old(src.PageLen()) < c.size || old(dst.PageLen()) < c.size then Slow
                     else if old(src.offset) % alignment != 0 || old(dst.offset) % alignment != 0 then Copy
                     else Fast
    {
      hide At, Good, Sized, Distinct, NoCross, Total, Start, Carried, ChainOf;
      var copy := src.offset % alignment != 0 || dst.offset % alignment != 0;
      var n := total;
      if n > src.PageLen() {
        n := src.PageLen();
      }
      if n > dst.PageLen() {
        n := dst.PageLen();
      }
      if n < c.size {
        SlowBlock();
      } else {
        FastChunk(n, copy);
      }
      Settle();
    }

    method Settle()
      requires Valid()
      modifies src, dst
      ensures Valid()
      ensures total > 0 && old(src.offset) % src.pageSize == 0 ==> src.offset < src.End()
      ensures total > 0 && old(dst.offset) % dst.pageSize == 0 ==> dst.offset < dst.End()
    {
      hide At, Good, Sized, Distinct, NoCross, Total, Start, Carried, ChainOf;
      src.Done(total > 0);
      dst.Done(total > 0);
    }

    /** The driver loop; bytes that do not fill a block are left over. */
    method All()
      requires Valid() && total == nbytes
      modifies this`total, this`tweak, this`begun, this`way, src, dst, mem, iv
      ensures Valid() && nbytes - total == WholePart(nbytes, c.size)
    {
      hide At, Good, Distinct, NoCross, Carried, ChainOf;
      while total >= c.size
        invariant Valid()
        decreases total
      {
        Turn();
      }
      WholeRest(nbytes, nbytes - total, c.size) by { AtWhole(); }
    }

    lemma AtWhole()
      requires Valid()
      ensures Whole(nbytes - total, c.size)
    {}
  }

  datatype Status = Done | BadLength

  lemma SizePositive(c: Cipher)
    requires Sized(c)
    ensures c.size > 0
  {}

  /** What a call has to leave behind: the flat mode's bytes and chaining value. LRW leaves the counter of the last
      block, if there was one, and not that of the next. */
  ghost predicate Crypted(m: Mode, c: Cipher, iv0: Bytes, m0: Bytes, src: List, dst: List, n: nat, mem: Bytes,
                          iv: Bytes)
    requires Sized(c) && |iv0| == c.size && Good(src, |m0|) && n <= Total(src)
  {
    var r := Run(m, c, iv0, Gather(m0, src, 0, WholePart(n, c.size)));
    Written(m0, mem, dst, 0, r.0) && ChainOf(m, iv, n < c.size) == r.1
  }

  /** The tables of LRW fit its second key, and its counter has room for the message. */
  ghost predicate Keyed(m: Mode, c: Cipher, table: seq<array<Be128>>, mulinc: array<Be128>, iv: Bytes, n: nat)
    requires |iv| == c.size
    reads table, mulinc
  {
    m.Lrw? ==>
      c.size == 16 && T.TableOk(Bbe, table, m.key) && L.IncTableOk(mulinc, m.key) && Room(iv, true, n / 16)
  }

  /**
   The drivers of the modes in both directions. The whole blocks of the message are run whatever its
   fragmentation, and a length that is not made up of whole blocks is reported. Only LRW uses the tables.
   */
  method Crypt(m: Mode, c: Cipher, mem: array<Octet>, dst: List, src: List, n: nat, info: array<Octet>,
               infoAligned: bool, alignment: nat, pageSize: nat, table: seq<array<Be128>>, mulinc: array<Be128>)
    returns (status: Status)
    requires Sized(c) && info.Length == c.size && info != mem && alignment > 0 && pageSize > 0
    requires Good(src, mem.Length) && Good(dst, mem.Length) && n <= Total(src) && n <= Total(dst)
    requires Distinct(dst, n) && NoCross(src, dst, n) && Keyed(m, c, table, mulinc, info[..], n)
    modifies mem, info
    ensures Crypted(m, c, old(info[..]), old(mem[..]), src, dst, n, mem[..], info[..])
    ensures status == Done <==> Whole(n, c.size)
  {
    hide Sized, Good, Distinct, NoCross, At, Crypted, ChainOf, Carried, Keyed;
    SizePositive(c);
    AtStart(m, c, info[..], mem[..], src, dst);
    WholeIffNoRest(n, c);
    ChainStart(m, info[..]);
    if n == 0 {
      AtEnd(m, c, info[..], mem[..], src, dst, n, mem[..], info[..]);
      return Done;
    }
    ghost var iv0, m0 := info[..], mem[..];
    var iv := info;
    ghost var ivAligned := infoAligned;
    if !infoAligned {
      ivAligned := true;
      iv := new Octet[c.size](i requires 0 <= i < info.Length reads info => info[i]);
      assert iv[..] == info[..];
    }
    var left := RunAll(m, c, mem, dst, src, n, iv, ivAligned, alignment, pageSize, table, mulinc);
    AtEnd(m, c, iv0, m0, src, dst, n, mem[..], iv[..]);
    status := if left == 0 then Done else BadLength;
    if iv != info {
      Set(info, iv[..]);
    }
  }

  /** The walk with its loop; returns the bytes left over. The chaining value is at an aligned address. */
  method RunAll(m: Mode, c: Cipher, mem: array<Octet>, dst: List, src: List, n: nat, iv: array<Octet>,
                ghost ivAligned: bool, alignment: nat, pageSize: nat, table: seq<array<Be128>>, mulinc: array<Be128>)
    returns (left: nat)
    requires Sized(c) && iv.Length == c.size && iv != mem && ivAligned && alignment > 0 && pageSize > 0
    requires Good(src, mem.Length) && Good(dst, mem.Length) && 0 < n <= Total(src) && n <= Total(dst)
    requires Distinct(dst, n) && NoCross(src, dst, n) && Keyed(m, c, table, mulinc, iv[..], n)
    modifies mem, iv
    ensures left <= n && n - left == WholePart(n, c.size)
    ensures At(m, c, old(iv[..]), old(mem[..]), src, dst, n - left, mem[..], ChainOf(m, iv[..], left == n))
  {
    hide Sized, Good, Distinct, NoCross, At, ChainOf, Carried, Keyed;
    var tweak := FirstTweak(m, c, iv[..], table, mulinc, n);
    var walk := new BlockCipherWalk(m, c, mem, src, dst, n, iv, alignment, pageSize, mulinc, tweak);
    walk.All();
    left := walk.total;
  }

  /** The first tweak of LRW is multiplied out with the table. */
  method FirstTweak(m: Mode, c: Cipher, iv: Bytes, table: seq<array<Be128>>, mulinc: array<Be128>, n: nat)
    returns (t: Be128)
    requires |iv| == c.size && Keyed(m, c, table, mulinc, iv, n)
    ensures Carried(m, c, mulinc, iv, t, true, n)
  {
    hide T.TableOk, L.IncTableOk, Room, Value, FromBytes;
    t := Zero;
    if m.Lrw? {
      t := T.Mul64k(Bbe, FromBytes(iv), table, m.key);
    }
  }

  lemma AtEnd(m: Mode, c: Cipher, iv0: Bytes, m0: Bytes, src: List, dst: List, n: nat, mem: Bytes, iv: Bytes)
    requires Sized(c) && |iv0| == c.size && Good(src, |m0|) && n <= Total(src)
    requires At(m, c, iv0, m0, src, dst, WholePart(n, c.size), mem, ChainOf(m, iv, WholePart(n, c.size) == 0))
    ensures Crypted(m, c, iv0, m0, src, dst, n, mem, iv)
  {
    hide Run, Written, Gather;
  }

  lemma ChainStart(m: Mode, iv: Bytes)
    ensures ChainOf(m, iv, true) == iv
  {}

  lemma {:induction false} WholePartWhole(n: nat, size: nat)
    requires size > 0
    ensures WholePart(n, size) == n <==> Whole(n, size)
  {
    if n >= size {
      WholePartWhole(n - size, size);
    }
  }

  lemma WholeIffNoRest(n: nat, c: Cipher)
    requires Sized(c)
    ensures c.size > 0 && (WholePart(n, c.size) == n <==> Whole(n, c.size))
  {
    WholePartWhole(n, c.size);
  }

  lemma ReadBack(m: Bytes, m': Bytes, l: List, s: Bytes)
    requires Written(m, m', l, 0, s)
    ensures Gather(m', l, 0, |s|) == s
  {
    hide Good;
    var g := Gather(m', l, 0, |s|);
    forall k | 0 <= k < |s|
      ensures g[k] == s[k]
    {
      assert Addr(l, k) < |m|;
    }
  }

  /** Decrypting what an encryption left in its destination writes the plaintext. */
  lemma CryptUndone(m: Mode, c: Cipher, iv0: Bytes, m0: Bytes, src: List, mid: List, dst: List, n: nat,
                    m1: Bytes, iv1: Bytes, m2: Bytes, iv2: Bytes)
    requires Sized(c) && Invertible(c) && |iv0| == c.size && m.encrypting && Whole(n, c.size)
    requires Good(src, |m0|) && n <= Total(src) && Good(mid, |m1|) && n <= Total(mid)
    requires Crypted(m, c, iv0, m0, src, mid, n, m1, iv1)
    requires Crypted(m.(encrypting := false), c, iv0, m1, mid, dst, n, m2, iv2)
    ensures Written(m1, m2, dst, 0, Gather(m0, src, 0, n)) && iv2 == iv1
  {
    hide Run, Written, Gather, Good, NextOf;
    if m.Lrw? && n >= c.size {
      SameNext(m, c, iv0, m0, src, mid, dst, n, m1, iv1, m2, iv2);
    }
    WholePartWhole(n, c.size);
    var s := Gather(m0, src, 0, n);
    RunUndone(m, c, iv0, s);
    ReadBack(m0, m1, mid, Run(m, c, iv0, s).0);
  }

  lemma SameNext(m: Mode, c: Cipher, iv0: Bytes, m0: Bytes, src: List, mid: List, dst: List, n: nat,
                 m1: Bytes, iv1: Bytes, m2: Bytes, iv2: Bytes)
    requires Sized(c) && Invertible(c) && |iv0| == c.size && m.encrypting && Whole(n, c.size) && m.Lrw? && n >= c.size
    requires Good(src, |m0|) && n <= Total(src) && Good(mid, |m1|) && n <= Total(mid)
    requires Crypted(m, c, iv0, m0, src, mid, n, m1, iv1)
    requires Crypted(m.(encrypting := false), c, iv0, m1, mid, dst, n, m2, iv2)
    ensures iv1 == iv2
  {
    hide Run, Written, Gather, Good, NextOf;
    WholePartWhole(n, c.size);
    var s := Gather(m0, src, 0, n);
    RunUndone(m, c, iv0, s);
    ReadBack(m0, m1, mid, Run(m, c, iv0, s).0);
    NextInjective(iv1, iv2);
  }

  lemma NoOverlap(src: List, dst: List, total: nat, p: nat, n: nat, sa: nat, da: nat)
    requires p + n <= total <= Total(src) && total <= Total(dst) && NoCross(src, dst, total)
    requires Contiguous(src, p, n, sa) && Contiguous(dst, p, n, da)
    ensures sa == da || sa + n <= da || da + n <= sa
  {
    if sa < da < sa + n {
      NeverMeet(src, dst, total, p, n, sa, da, da - sa, 0);
    } else if da < sa < da + n {
      NeverMeet(src, dst, total, p, n, sa, da, 0, sa - da);
    }
  }

  lemma NeverMeet(src: List, dst: List, total: nat, p: nat, n: nat, sa: nat, da: nat, i: nat, j: nat)
    requires p + n <= total <= Total(src) && total <= Total(dst) && NoCross(src, dst, total)
    requires Contiguous(src, p, n, sa) && Contiguous(dst, p, n, da) && i < n && j < n && i != j
    ensures sa + i != da + j
  {
    assert Addr(src, p + i) == sa + i && Addr(dst, p + j) == da + j;
  }

  /** A chunk's output, spliced into memory, is written to the destination list. */
  lemma ChunkWritten(m: Mode, c: Cipher, iv: Bytes, m0: Bytes, src: List, dst: List, p: nat, n: nat, w: nat,
                     mem: Bytes, da: nat)
    requires Sized(c) && |iv| == c.size && w <= n && Whole(w, c.size)
    requires Good(src, |m0|) && p + n <= Total(src) && Good(dst, |mem|) && da + n <= |mem| && Contiguous(dst, p, n, da)
    ensures Gather(m0, src, p, n)[..w] == Gather(m0, src, p, w)
    ensures Contiguous(dst, p, w, da)
    ensures var r := Run(m, c, iv, Gather(m0, src, p, w)).0; Written(mem, Splice(mem, da, r), dst, p, r)
  {
    hide Run, Sized, Good, Gather, Written, Splice, Whole;
    GatherSplit(m0, src, p, n, w);
    WrittenRun(mem, dst, p, da, Run(m, c, iv, Gather(m0, src, p, w)).0);
  }

  /** A chunk that lies in one piece on both sides has been run where it lies. */
  lemma ChunkCommit(m: Mode, c: Cipher, iv0: Bytes, m0: Bytes, src: List, dst: List, p: nat, n: nat,
                    mem: Bytes, iv: Bytes, da: nat, mem': Bytes, iv': Bytes, rest: nat)
    requires Sized(c) && |iv0| == |iv| == c.size <= n && Good(src, |m0|) && p + n <= Total(src) && p + n <= Total(dst)
    requires At(m, c, iv0, m0, src, dst, p, mem, iv) && Good(dst, |mem|) && da + n <= |mem|
    requires Contiguous(dst, p, n, da) && Distinct(dst, p + n)
    requires ChunkDone(m, c, iv, Gather(m0, src, p, n), mem, da, mem', iv', rest)
    ensures rest <= n - c.size && At(m, c, iv0, m0, src, dst, p + (n - rest), mem', iv')
  {
    hide At, Good, Sized, Gather, Run, Written, Distinct, NoCross, ChunkDone, Addr, Total, Start, Contiguous, Splice;
    ChunkOutput(m, c, iv, Gather(m0, src, p, n), mem, da, mem', iv', rest);
    var w := n - rest;
    ChunkWritten(m, c, iv, m0, src, dst, p, n, w, mem, da);
    DistinctLess(dst, p + w, p + n);
    Commit(m, c, iv0, m0, src, dst, p, w, mem, iv, mem', iv');
  }

  lemma NoCrossLess(src: List, dst: List, n: nat, n': nat)
    requires n <= n' <= Total(src) && n' <= Total(dst) && NoCross(src, dst, n')
    ensures NoCross(src, dst, n)
  {}
}
