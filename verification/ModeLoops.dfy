/**
 The loops that run a block mode over one contiguous chunk: from one buffer to
 another, and in place. They process the whole blocks of the chunk, move the
 chaining value on, and return how many bytes are left over.
 */
module ModeLoops {
  import opened Lists
  import opened Modes
  import opened Octets

  /** memcpy over a whole buffer */
  method Set(a: array<Octet>, s: Bytes)
    requires |s| == a.Length
    modifies a
    ensures a[..] == s
  {
    forall i | 0 <= i < |s| {
      a[i] := s[i];
    }
  }

  /** The first `k` bytes of the message have been run, into `d` at `o`. */
  ghost predicate Progress(m: Mode, c: Cipher, iv: Bytes, msg: Bytes, d0: Bytes, o: nat, k: nat, d: Bytes, now: Bytes)
    requires Sized(c) && |iv| == c.size && o + |msg| <= |d0|
  {
    && k <= |msg| && Whole(k, c.size)
    && d == Splice(d0, o, Run(m, c, iv, msg[..k]).0)
    && now == Run(m, c, iv, msg[..k]).1
  }

  lemma ProgressStart(m: Mode, c: Cipher, iv: Bytes, msg: Bytes, d0: Bytes, o: nat)
    requires Sized(c) && |iv| == c.size && o + |msg| <= |d0|
    ensures Progress(m, c, iv, msg, d0, o, 0, d0, iv)
  {
    assert msg[..0] == [];
    assert d0 == Splice(d0, o, []);
  }

  lemma SpliceSplice(d: Bytes, o: nat, s: Bytes, t: Bytes)
    requires o + |s| + |t| <= |d|
    ensures Splice(Splice(d, o, s), o + |s|, t) == Splice(d, o, s + t)
  {}

  lemma SpliceTwice(d: Bytes, o: nat, s: Bytes, t: Bytes)
    requires |s| == |t| && o + |s| <= |d|
    ensures Splice(Splice(d, o, s), o, t) == Splice(d, o, t)
  {}

  lemma ProgressStep(m: Mode, c: Cipher, iv: Bytes, msg: Bytes, d0: Bytes, o: nat, k: nat, d: Bytes, now: Bytes,
                     y: Bytes, next: Bytes)
    requires Sized(c) && |iv| == |now| == c.size && o + |msg| <= |d0|
    requires Progress(m, c, iv, msg, d0, o, k, d, now) && k + c.size <= |msg|
    requires (y, next) == Step(m, c, now, msg[k..k + c.size])
    ensures Progress(m, c, iv, msg, d0, o, k + c.size, Splice(d, o + k, y), next)
  {
    hide Step, Run, Sized, Splice;
    var x := msg[k..k + c.size];
    RunSnoc(m, c, iv, msg[..k], x);
    assert msg[..k] + x == msg[..k + c.size];
    SpliceSplice(d0, o, Run(m, c, iv, msg[..k]).0, y);
  }

  /** What a chunk loop has to leave in its output buffer and chaining value. */
  ghost predicate ChunkDone(m: Mode, c: Cipher, iv: Bytes, msg: Bytes, d0: Bytes, o: nat, d: Bytes, now: Bytes,
                            rest: nat)
    requires Sized(c) && |iv| == c.size && o + |msg| <= |d0|
  {
    rest <= |msg| && |msg| - rest == WholePart(|msg|, c.size) && Progress(m, c, iv, msg, d0, o, |msg| - rest, d, now)
  }

  lemma {:induction false} WholeRest(n: nat, k: nat, size: nat)
    requires size > 0 && Whole(k, size) && k <= n < k + size
    ensures WholePart(n, size) == k
  {
    if k > 0 {
      WholeRest(n - size, k - size, size);
    }
  }

  lemma ChunkFinished(m: Mode, c: Cipher, iv: Bytes, msg: Bytes, d0: Bytes, o: nat, k: nat, d: Bytes, now: Bytes)
    requires Sized(c) && |iv| == c.size && o + |msg| <= |d0| && k <= |msg| < k + c.size
    requires Progress(m, c, iv, msg, d0, o, k, d, now)
    ensures ChunkDone(m, c, iv, msg, d0, o, d, now, |msg| - k)
  {
    hide Run, Splice;
    WholeRest(|msg|, k, c.size);
  }

  /** The buffers of a chunk are the same bytes or have none in common. */
  ghost predicate Apart(src: array<Octet>, so: nat, dst: array<Octet>, do: nat, n: nat) {
    src != dst || so + n <= do || do + n <= so
  }

  /** The block at `so + k` has not been overwritten while the bytes before `k` were run. */
  lemma Unread(a: Bytes, so: nat, o: nat, s: Bytes, n: nat, k: nat, size: nat)
    requires |s| == k && k + size <= n && so + n <= |a| && o + n <= |a|
    requires so == o || so + n <= o || o + n <= so
    ensures Splice(a, o, s)[so + k..so + k + size] == a[so..so + n][k..k + size]
  {
    var t := Splice(a, o, s);
    var x, y := t[so + k..so + k + size], a[so..so + n][k..k + size];
    forall i | 0 <= i < size
      ensures x[i] == y[i]
    {
      assert t[so + k + i] == a[so + k + i];
    }
  }

  lemma SliceOf(a: Bytes, o: nat, n: nat, k: nat, size: nat)
    requires o + n <= |a| && k + size <= n
    ensures a[o..o + n][k..k + size] == a[o + k..o + k + size]
  {
    var b := a[o..o + n];
    var x, y := b[k..k + size], a[o + k..o + k + size];
    forall i | 0 <= i < size
      ensures x[i] == y[i]
    {
      assert b[k + i] == a[o + k + i];
    }
  }

  lemma NextBlock(m: Mode, c: Cipher, iv: Bytes, msg: Bytes, d0: Bytes, o: nat, k: nat, d: Bytes, now: Bytes, so: nat)
    requires Sized(c) && |iv| == c.size && o + |msg| <= |d0| && k + c.size <= |msg|
    requires Progress(m, c, iv, msg, d0, o, k, d, now)
    requires so + |msg| <= |d0| && msg == d0[so..so + |msg|]
    requires so == o || so + |msg| <= o || o + |msg| <= so
    ensures d[so + k..so + k + c.size] == msg[k..k + c.size]
  {
    hide Run, Splice;
    Unread(d0, so, o, Run(m, c, iv, msg[..k]).0, |msg|, k, c.size);
  }

  lemma Sizes(c: Cipher, x: Bytes)
    requires Sized(c) && |x| == c.size
    ensures c.size > 0 && |c.enc(x)| == |c.dec(x)| == c.size
  {}

  lemma StepIs(m: Mode, c: Cipher, iv: Bytes, x: Bytes)
    requires Sized(c) && |iv| == |x| == c.size && !m.Lrw?
    ensures |XorBytes(x, iv)| == |c.enc(XorBytes(x, iv))| == |c.dec(x)| == c.size
    ensures XorBytes(x, iv) == XorBytes(iv, x)
    ensures var y := if m.encrypting then c.enc(XorBytes(x, iv)) else XorBytes(c.dec(x), iv);
            Step(m, c, iv, x) == (y, if m.Pcbc? then XorBytes(x, y) else if m.encrypting then y else x)
            && XorBytes(x, y) == XorBytes(y, x)
  {
    hide XorBytes;
    var y := if m.encrypting then c.enc(XorBytes(x, iv)) else XorBytes(c.dec(x), iv);
    XorBytesTwice(x, iv);
    XorBytesTwice(x, y);
  }

  // CBC

  method CbcEncryptSegment(c: Cipher, src: array<Octet>, so: nat, dst: array<Octet>, do: nat, nbytes: nat,
                           iv: array<Octet>)
    returns (rest: nat)
    requires Sized(c) && iv.Length == c.size <= nbytes && iv != src && iv != dst
    requires so + nbytes <= src.Length && do + nbytes <= dst.Length && Apart(src, so, dst, do, nbytes)
    modifies dst, iv
    ensures ChunkDone(Cbc(true), c, old(iv[..]), old(src[so..so + nbytes]), old(dst[..]), do, dst[..], iv[..], rest)
  {
    hide Progress, Run, Splice, WholePart, Whole, XorBytes, Step, Sized;
    Sizes(c, iv[..]);
    ghost var m, iv0, d0, msg := Cbc(true), iv[..], dst[..], src[so..so + nbytes];
    ProgressStart(m, c, iv0, msg, d0, do);
    var k := 0;
    while nbytes - k >= c.size
      invariant 0 <= k <= nbytes && Progress(m, c, iv0, msg, d0, do, k, dst[..], iv[..])
      invariant src != dst ==> src[so..so + nbytes] == msg
    {
      ghost var d, now := dst[..], iv[..];
      var x := src[so + k..so + k + c.size];
      if src == dst {
        NextBlock(m, c, iv0, msg, d0, do, k, d, now, so);
      } else {
        SliceOf(src[..], so, nbytes, k, c.size);
        assert x == msg[k..k + c.size];
      }
      StepIs(m, c, now, x);
      Set(iv, XorBytes(iv[..], x));
      var y := c.enc(iv[..]);
      Write(dst, do + k, y);
      Set(iv, y);
      ProgressStep(m, c, iv0, msg, d0, do, k, d, now, y, iv[..]);
      k := k + c.size;
    }
    ChunkFinished(m, c, iv0, msg, d0, do, k, dst[..], iv[..]);
    rest := nbytes - k;
  }

  method CbcEncryptInPlace(c: Cipher, buf: array<Octet>, o: nat, nbytes: nat, iv: array<Octet>) returns (rest: nat)
    requires Sized(c) && iv.Length == c.size <= nbytes && iv != buf && o + nbytes <= buf.Length
    modifies buf, iv
    ensures ChunkDone(Cbc(true), c, old(iv[..]), old(buf[o..o + nbytes]), old(buf[..]), o, buf[..], iv[..], rest)
  {
    hide Progress, Run, Splice, WholePart, Whole, XorBytes, Step, Sized;
    Sizes(c, iv[..]);
    ghost var m, iv0, d0, msg := Cbc(true), iv[..], buf[..], buf[o..o + nbytes];
    ProgressStart(m, c, iv0, msg, d0, o);
    var k := 0;
    var v := iv[..];
    while nbytes - k >= c.size
      invariant 0 <= k <= nbytes && Progress(m, c, iv0, msg, d0, o, k, buf[..], v)
      invariant |v| == c.size
    {
      ghost var d, now := buf[..], v;
      var x := buf[o + k..o + k + c.size];
      NextBlock(m, c, iv0, msg, d0, o, k, d, now, o);
      StepIs(m, c, now, x);
      Write(buf, o + k, XorBytes(x, v));
      var y := c.enc(buf[o + k..o + k + c.size]);
      Write(buf, o + k, y);
      v := y;
      SpliceTwice(d, o + k, XorBytes(x, now), y);
      ProgressStep(m, c, iv0, msg, d0, o, k, d, now, y, v);
      k := k + c.size;
    }
    Set(iv, v);
    ChunkFinished(m, c, iv0, msg, d0, o, k, buf[..], iv[..]);
    rest := nbytes - k;
  }

  method CbcDecryptSegment(c: Cipher, src: array<Octet>, so: nat, dst: array<Octet>, do: nat, nbytes: nat,
                           iv: array<Octet>)
    returns (rest: nat)
    requires Sized(c) && iv.Length == c.size <= nbytes && iv != src && iv != dst
    requires so + nbytes <= src.Length && do + nbytes <= dst.Length && Apart(src, so, dst, do, nbytes)
    modifies dst, iv
    ensures ChunkDone(Cbc(false), c, old(iv[..]), old(src[so..so + nbytes]), old(dst[..]), do, dst[..], iv[..], rest)
  {
    hide Progress, Run, Splice, WholePart, Whole, XorBytes, Step, Sized;
    Sizes(c, iv[..]);
    ghost var m, iv0, d0, msg := Cbc(false), iv[..], dst[..], src[so..so + nbytes];
    ProgressStart(m, c, iv0, msg, d0, do);
    var k := 0;
    var v := iv[..];
    while nbytes - k >= c.size
      invariant 0 <= k <= nbytes && Progress(m, c, iv0, msg, d0, do, k, dst[..], v)
      invariant |v| == c.size
      invariant src != dst ==> src[so..so + nbytes] == msg
    {
      ghost var d, now := dst[..], v;
      var x := src[so + k..so + k + c.size];
      if src == dst {
        NextBlock(m, c, iv0, msg, d0, do, k, d, now, so);
      } else {
        SliceOf(src[..], so, nbytes, k, c.size);
        assert x == msg[k..k + c.size];
      }
      StepIs(m, c, now, x);
      Write(dst, do + k, c.dec(x));
      var y := XorBytes(dst[do + k..do + k + c.size], v);
      Write(dst, do + k, y);
      v := x;
      SpliceTwice(d, do + k, c.dec(x), y);
      ProgressStep(m, c, iv0, msg, d0, do, k, d, now, y, v);
      k := k + c.size;
    }
    Set(iv, v);
    ChunkFinished(m, c, iv0, msg, d0, do, k, dst[..], iv[..]);
    rest := nbytes - k;
  }

  lemma CbcDecryptSnoc(c: Cipher, iv: Bytes, s: Bytes, x: Bytes)
    requires Sized(c) && |iv| == c.size && Whole(|s|, c.size) && |x| == c.size
    ensures Whole(|s + x|, c.size)
    ensures var a := Run(Cbc(false), c, iv, s); Run(Cbc(false), c, iv, s + x) == (a.0 + XorBytes(c.dec(x), a.1), x)
  {
    hide Run;
    RunSnoc(Cbc(false), c, iv, s, x);
  }

  /** A block of `d` decrypts by itself and the ciphertext block before it. */
  lemma CbcDecryptLast(c: Cipher, iv: Bytes, d: Bytes, o: nat, j: nat)
    requires Sized(c) && |iv| == c.size && Whole(j, c.size) && o + j + c.size <= |d|
    ensures Whole(j + c.size, c.size) && (j == 0 || j >= c.size)
    ensures var x := d[o + j..o + j + c.size]; var before := if j == 0 then iv else d[o + j - c.size..o + j];
            Run(Cbc(false), c, iv, d[o..o + j + c.size])
            == (Run(Cbc(false), c, iv, d[o..o + j]).0 + XorBytes(c.dec(x), before), x)
  {
    hide XorBytes, Sized, Run;
    CbcDecryptSnoc(c, iv, d[o..o + j], d[o + j..o + j + c.size]);
    assert d[o..o + j] + d[o + j..o + j + c.size] == d[o..o + j + c.size];
    if j == 0 {
      RunNone(Cbc(false), c, iv, d[o..o + j]);
    } else {
      CbcDecryptSnoc(c, iv, d[o..o + j - c.size], d[o + j - c.size..o + j]);
      assert d[o..o + j - c.size] + d[o + j - c.size..o + j] == d[o..o + j];
    }
  }

  lemma {:induction false} WholeBelow(j: nat, n: nat, size: nat)
    requires size > 0 && Whole(j, size) && Whole(n, size) && j <= n
    ensures (j < n ==> j + size <= n) && (n == 0 || n >= size)
    ensures Whole(n - j, size) && (n > 0 ==> Whole(n - size, size)) && (j > 0 ==> j >= size && Whole(j - size, size))
  {
    if j > 0 {
      WholeBelow(j - size, n - size, size);
    }
  }

  lemma SpliceJoin(d: Bytes, o: nat, s: Bytes, t: Bytes)
    requires o + |s| + |t| <= |d|
    ensures Splice(Splice(d, o + |s|, t), o, s) == Splice(d, o, s + t)
  {}

  lemma SpliceNone(d: Bytes, o: nat)
    requires o <= |d|
    ensures Splice(d, o, []) == d
  {}

  lemma KeptSlice(d: Bytes, o: nat, s: Bytes, lo: nat, hi: nat)
    requires o + |s| <= |d| && lo <= hi <= o
    ensures Splice(d, o, s)[lo..hi] == d[lo..hi]
  {
    var t := Splice(d, o, s);
    assert forall i :: lo <= i < hi ==> t[i] == d[i];
  }

  /** Of the `n` bytes at `o`, those from `j` on hold `tail`; those before it are untouched ciphertext. */
  ghost predicate Backward(c: Cipher, iv: Bytes, d0: Bytes, o: nat, n: nat, j: nat, tail: Bytes, d: Bytes)
    requires Sized(c) && |iv| == c.size
  {
    && o + n <= |d0| && Whole(j, c.size) && j + |tail| == n && Whole(n, c.size)
    && d == Splice(d0, o + j, tail)
    && Run(Cbc(false), c, iv, d0[o..o + j]).0 + tail == Run(Cbc(false), c, iv, d0[o..o + n]).0
  }

  lemma BackwardStart(c: Cipher, iv: Bytes, d0: Bytes, o: nat, n: nat)
    requires Sized(c) && |iv| == c.size && o + n <= |d0| && Whole(n, c.size)
    ensures Backward(c, iv, d0, o, n, n, [], d0)
  {
    hide Run;
    SpliceNone(d0, o + n);
    var r := Run(Cbc(false), c, iv, d0[o..o + n]).0;
    assert r + [] == r;
  }

  lemma BackwardStep(c: Cipher, iv: Bytes, d0: Bytes, o: nat, n: nat, j: nat, tail: Bytes, d: Bytes, z: Bytes)
    requires Sized(c) && |iv| == c.size && Backward(c, iv, d0, o, n, j + c.size, tail, d) && Whole(j, c.size)
    requires j == 0 || c.size <= j
    requires z == XorBytes(c.dec(d0[o + j..o + j + c.size]), if j == 0 then iv else d0[o + j - c.size..o + j])
    requires |z| == c.size
    ensures Backward(c, iv, d0, o, n, j, z + tail, Splice(d, o + j, z))
  {
    hide Run, Whole, Splice, XorBytes, Sized;
    CbcDecryptLast(c, iv, d0, o, j);
    SpliceJoin(d0, o + j, z, tail);
    var r := Run(Cbc(false), c, iv, d0[o..o + j]).0;
    assert r + (z + tail) == (r + z) + tail;
  }

  lemma BackwardEnd(c: Cipher, iv: Bytes, d0: Bytes, o: nat, n: nat, tail: Bytes, d: Bytes)
    requires Sized(c) && |iv| == c.size && Backward(c, iv, d0, o, n, 0, tail, d) && n >= c.size
    ensures d == Splice(d0, o, Run(Cbc(false), c, iv, d0[o..o + n]).0)
    ensures Run(Cbc(false), c, iv, d0[o..o + n]).1 == d0[o + n - c.size..o + n]
  {
    hide Splice, Run, XorBytes;
    RunNone(Cbc(false), c, iv, d0[o..o + 0]);
    WholeBelow(0, n, c.size);
    assert [] + tail == tail;
    CbcDecryptLast(c, iv, d0, o, n - c.size);
  }

  /** Turns back the block at `j`. */
  method CbcUndoBlock(c: Cipher, buf: array<Octet>, o: nat, ghost n: nat, j: nat, first: Bytes, ghost d0: Bytes,
                      ghost tail: Bytes)
    returns (ghost tail': Bytes)
    requires Sized(c) && |first| == c.size && Whole(j, c.size) && (j == 0 || j >= c.size) && j + c.size <= n
    requires Backward(c, first, d0, o, n, j + c.size, tail, buf[..])
    modifies buf
    ensures Backward(c, first, d0, o, n, j, tail', buf[..])
  {
    hide Backward, Splice, XorBytes, Whole;
    ghost var d := buf[..];
    Untouched(c, first, d0, o, n, j, tail, d);
    var y := c.dec(buf[o + j..o + j + c.size]);
    Write(buf, o + j, y);
    if j > 0 {
      KeptSlice(d, o + j, y, o + j - c.size, o + j);
    }
    var z := XorBytes(y, if j == 0 then first else buf[o + j - c.size..o + j]);
    Write(buf, o + j, z);
    SpliceTwice(d, o + j, y, z);
    BackwardStep(c, first, d0, o, n, j, tail, d, z);
    tail' := z + tail;
  }

  lemma Untouched(c: Cipher, iv: Bytes, d0: Bytes, o: nat, n: nat, j: nat, tail: Bytes, d: Bytes)
    requires Sized(c) && |iv| == c.size && Backward(c, iv, d0, o, n, j + c.size, tail, d) && (j == 0 || j >= c.size)
    ensures o + j + c.size <= |d| == |d0| && d[o + j..o + j + c.size] == d0[o + j..o + j + c.size]
    ensures j > 0 ==> d[o + j - c.size..o + j] == d0[o + j - c.size..o + j]
  {
    hide Run, Whole, Splice;
    KeptSlice(d0, o + j + c.size, tail, o + j, o + j + c.size);
    if j > 0 {
      KeptSlice(d0, o + j + c.size, tail, o + j - c.size, o + j);
    }
  }

  /** Runs from the last block to the first, so that each predecessor is still ciphertext. */
  method CbcDecryptInPlace(c: Cipher, buf: array<Octet>, o: nat, nbytes: nat, iv: array<Octet>) returns (rest: nat)
    requires Sized(c) && iv.Length == c.size <= nbytes && iv != buf && o + nbytes <= buf.Length
    modifies buf, iv
    ensures ChunkDone(Cbc(false), c, old(iv[..]), old(buf[o..o + nbytes]), old(buf[..]), o, buf[..], iv[..], rest)
  {
    hide Run, Splice, XorBytes, Backward;
    var first := iv[..];
    var w := WholePart(nbytes, c.size);
    rest := nbytes - w;
    ghost var d0 := buf[..];
    BackwardStart(c, first, d0, o, w);
    ghost var tail: Bytes := [];
    WholeBelow(0, w, c.size);
    var j := w - c.size;
    WholeBelow(0, j, c.size);
    Set(iv, buf[o + j..o + j + c.size]);
    while true
      invariant 0 <= j && j + c.size <= w && Whole(j, c.size) && (j == 0 || j >= c.size)
      invariant Backward(c, first, d0, o, w, j + c.size, tail, buf[..])
      invariant iv[..] == d0[o + w - c.size..o + w]
      decreases j
    {
      tail := CbcUndoBlock(c, buf, o, w, j, first, d0, tail);
      if j == 0 {
        break;
      }
      WholeBelow(0, j, c.size);
      j := j - c.size;
      WholeBelow(0, j, c.size);
    }
    BackwardEnd(c, first, d0, o, w, tail, buf[..]);
    assert d0[o..o + w] == d0[o..o + nbytes][..w];
  }

  // PCBC

  method PcbcEncryptSegment(c: Cipher, src: array<Octet>, so: nat, dst: array<Octet>, do: nat, nbytes: nat,
                            iv: array<Octet>)
    returns (rest: nat)
    requires Sized(c) && iv.Length == c.size <= nbytes && iv != src && iv != dst
    requires so + nbytes <= src.Length && do + nbytes <= dst.Length && Apart(src, so, dst, do, nbytes)
    modifies dst, iv
    ensures ChunkDone(Pcbc(true), c, old(iv[..]), old(src[so..so + nbytes]), old(dst[..]), do, dst[..], iv[..], rest)
  {
    hide Progress, Run, Splice, WholePart, Whole, XorBytes, Step, Sized;
    Sizes(c, iv[..]);
    ghost var m, iv0, d0, msg := Pcbc(true), iv[..], dst[..], src[so..so + nbytes];
    ProgressStart(m, c, iv0, msg, d0, do);
    var k := 0;
    while nbytes - k >= c.size
      invariant 0 <= k <= nbytes && Progress(m, c, iv0, msg, d0, do, k, dst[..], iv[..])
      invariant src != dst ==> src[so..so + nbytes] == msg
    {
      ghost var d, now := dst[..], iv[..];
      var x := src[so + k..so + k + c.size];
      if src == dst {
        NextBlock(m, c, iv0, msg, d0, do, k, d, now, so);
      } else {
        SliceOf(src[..], so, nbytes, k, c.size);
        assert x == msg[k..k + c.size];
      }
      StepIs(m, c, now, x);
      Set(iv, XorBytes(iv[..], x));
      var y := c.enc(iv[..]);
      Write(dst, do + k, y);
      Set(iv, y);
      Set(iv, XorBytes(iv[..], x));
      ProgressStep(m, c, iv0, msg, d0, do, k, d, now, y, iv[..]);
      k := k + c.size;
    }
    ChunkFinished(m, c, iv0, msg, d0, do, k, dst[..], iv[..]);
    rest := nbytes - k;
  }

  method PcbcEncryptInPlace(c: Cipher, buf: array<Octet>, o: nat, nbytes: nat, iv: array<Octet>) returns (rest: nat)
    requires Sized(c) && iv.Length == c.size <= nbytes && iv != buf && o + nbytes <= buf.Length
    modifies buf, iv
    ensures ChunkDone(Pcbc(true), c, old(iv[..]), old(buf[o..o + nbytes]), old(buf[..]), o, buf[..], iv[..], rest)
  {
    hide Progress, Run, Splice, WholePart, Whole, XorBytes, Step, Sized;
    Sizes(c, iv[..]);
    ghost var m, iv0, d0, msg := Pcbc(true), iv[..], buf[..], buf[o..o + nbytes];
    ProgressStart(m, c, iv0, msg, d0, o);
    var k := 0;
    while nbytes - k >= c.size
      invariant 0 <= k <= nbytes && Progress(m, c, iv0, msg, d0, o, k, buf[..], iv[..])
    {
      ghost var d, now := buf[..], iv[..];
      var x := buf[o + k..o + k + c.size];
      NextBlock(m, c, iv0, msg, d0, o, k, d, now, o);
      StepIs(m, c, now, x);
      Set(iv, XorBytes(iv[..], x));
      var y := c.enc(iv[..]);
      Write(buf, o + k, y);
      Set(iv, y);
      Set(iv, XorBytes(iv[..], x));
      ProgressStep(m, c, iv0, msg, d0, o, k, d, now, y, iv[..]);
      k := k + c.size;
    }
    ChunkFinished(m, c, iv0, msg, d0, o, k, buf[..], iv[..]);
    rest := nbytes - k;
  }

  method PcbcDecryptSegment(c: Cipher, src: array<Octet>, so: nat, dst: array<Octet>, do: nat, nbytes: nat,
                            iv: array<Octet>)
    returns (rest: nat)
    requires Sized(c) && iv.Length == c.size <= nbytes && iv != src && iv != dst
    requires so + nbytes <= src.Length && do + nbytes <= dst.Length && Apart(src, so, dst, do, nbytes)
    modifies dst, iv
    ensures ChunkDone(Pcbc(false), c, old(iv[..]), old(src[so..so + nbytes]), old(dst[..]), do, dst[..], iv[..], rest)
  {
    hide Progress, Run, Splice, WholePart, Whole, XorBytes, Step, Sized;
    Sizes(c, iv[..]);
    ghost var m, iv0, d0, msg := Pcbc(false), iv[..], dst[..], src[so..so + nbytes];
    ProgressStart(m, c, iv0, msg, d0, do);
    var k := 0;
    while nbytes - k >= c.size
      invariant 0 <= k <= nbytes && Progress(m, c, iv0, msg, d0, do, k, dst[..], iv[..])
      invariant src != dst ==> src[so..so + nbytes] == msg
    {
      ghost var d, now := dst[..], iv[..];
      var x := src[so + k..so + k + c.size];
      if src == dst {
        NextBlock(m, c, iv0, msg, d0, do, k, d, now, so);
      } else {
        SliceOf(src[..], so, nbytes, k, c.size);
        assert x == msg[k..k + c.size];
      }
      StepIs(m, c, now, x);
      Write(dst, do + k, c.dec(x));
      var y := XorBytes(dst[do + k..do + k + c.size], iv[..]);
      Write(dst, do + k, y);
      Set(iv, x);
      Set(iv, XorBytes(iv[..], y));
      SpliceTwice(d, do + k, c.dec(x), y);
      ProgressStep(m, c, iv0, msg, d0, do, k, d, now, y, iv[..]);
      k := k + c.size;
    }
    ChunkFinished(m, c, iv0, msg, d0, do, k, dst[..], iv[..]);
    rest := nbytes - k;
  }

  method PcbcDecryptInPlace(c: Cipher, buf: array<Octet>, o: nat, nbytes: nat, iv: array<Octet>) returns (rest: nat)
    requires Sized(c) && iv.Length == c.size <= nbytes && iv != buf && o + nbytes <= buf.Length
    modifies buf, iv
    ensures ChunkDone(Pcbc(false), c, old(iv[..]), old(buf[o..o + nbytes]), old(buf[..]), o, buf[..], iv[..], rest)
  {
    hide Progress, Run, Splice, WholePart, Whole, XorBytes, Step, Sized;
    Sizes(c, iv[..]);
    ghost var m, iv0, d0, msg := Pcbc(false), iv[..], buf[..], buf[o..o + nbytes];
    ProgressStart(m, c, iv0, msg, d0, o);
    var k := 0;
    while nbytes - k >= c.size
      invariant 0 <= k <= nbytes && Progress(m, c, iv0, msg, d0, o, k, buf[..], iv[..])
    {
      ghost var d, now := buf[..], iv[..];
      var x := buf[o + k..o + k + c.size];
      NextBlock(m, c, iv0, msg, d0, o, k, d, now, o);
      StepIs(m, c, now, x);
      Write(buf, o + k, c.dec(x));
      var y := XorBytes(buf[o + k..o + k + c.size], iv[..]);
      Write(buf, o + k, y);
      Set(iv, x);
      Set(iv, XorBytes(iv[..], y));
      SpliceTwice(d, o + k, c.dec(x), y);
      ProgressStep(m, c, iv0, msg, d0, o, k, d, now, y, iv[..]);
      k := k + c.size;
    }
    ChunkFinished(m, c, iv0, msg, d0, o, k, buf[..], iv[..]);
    rest := nbytes - k;
  }
}
