/**
 The loop of LRW over one contiguous chunk. What it keeps from chunk to chunk is
 the tweak of the last block and, in memory, the counter of that block; before the
 first block both are those of the first block itself.
 */
module LrwLoop {
  import opened Lists
  import opened Octets
  import opened Modes
  import opened ModeLoops
  import opened LrwBytes
  import opened Gf128
  import P = Poly
  import T = Gf128Tables
  import L = Lrw

  /** The chaining value of the flat mode, from the one in memory. */
  ghost function ChainOf(m: Mode, iv: Bytes, first: bool): (v: Bytes)
    ensures |v| == |iv|
  {
    if m.Lrw? && !first then NextOf(iv) else iv
  }

  /** The counter has room for `room` more blocks. */
  ghost predicate Room(iv: Bytes, first: bool, room: nat)
    requires |iv| == 16
  {
    Count(iv) + (if first then 0 else 1) + room <= T.Pow2(128)
  }

  /** One turn of the tweak: from the last block's to the next one's. */
  method Advance(mulinc: array<Be128>, iv: array<Octet>, t: Be128, ghost k: P.Poly, ghost room: nat)
    returns (t': Be128)
    requires iv.Length == 16 && L.IncTableOk(mulinc, k) && Tweaked(t, iv[..], k)
    requires Room(iv[..], false, room) && room > 0
    modifies iv
    ensures iv[..] == NextOf(old(iv[..])) && Tweaked(t', iv[..], k) && Room(iv[..], true, room)
  {
    hide P.Mul, Value, FromBytes, NextOf, L.AllOnes, L.TrailingOnes, L.Ones, L.Whole, T.Pow2;
    ghost var v := iv[..];
    CountNext(v);
    var i := L.GetIndex128(FromBytes(iv[..]));
    TweakedNext(t, v, mulinc[i], k);
    t' := Xor128(t, mulinc[i]);
    Set(iv, NextOf(iv[..]));
  }

  /** lrw_round, on the bytes */
  lemma RoundIs(m: Mode, c: Cipher, iv: Bytes, x: Bytes, t: Be128, z: Bytes)
    requires Sized(c) && |iv| == |x| == c.size == 16 && m.Lrw? && Tweaked(t, iv, m.key)
    requires var p := ToBytes(Xor128(t, FromBytes(x))); z == if m.encrypting then c.enc(p) else c.dec(p)
    ensures |z| == 16 && Step(m, c, iv, x) == (ToBytes(Xor128(t, FromBytes(z))), NextOf(iv))
  {
    hide Tweaked, TweakOf, ToBytes, FromBytes, NextOf, XorBytes;
    TweakedBytes(t, iv, m.key);
    XorIs(t, x);
    XorIs(t, z);
    XorBytesTwice(z, TweakOf(iv, m.key));
  }

  method Round(c: Cipher, encrypting: bool, x: Bytes, t: Be128, dst: array<Octet>, at: nat, ghost iv: Bytes,
               ghost k: P.Poly)
    requires Sized(c) && |iv| == |x| == c.size == 16 && Tweaked(t, iv, k) && at + 16 <= dst.Length
    modifies dst
    ensures var s := Step(Lrw(encrypting, k), c, iv, x);
      dst[..] == Splice(old(dst[..]), at, s.0) && s.1 == NextOf(iv)
  {
    hide Tweaked, ToBytes, FromBytes, NextOf, XorBytes, Splice, Step;
    ghost var d := dst[..];
    var p := ToBytes(Xor128(t, FromBytes(x)));
    Sizes(c, p);
    Write(dst, at, p);
    var z := if encrypting then c.enc(dst[at..at + 16]) else c.dec(dst[at..at + 16]);
    RoundIs(Lrw(encrypting, k), c, iv, x, t, z);
    Write(dst, at, z);
    SpliceTwice(d, at, p, z);
    var y := ToBytes(Xor128(t, FromBytes(z)));
    Write(dst, at, y);
    SpliceTwice(d, at, z, y);
  }

  /** The inner loop of crypt, over one chunk. */
  method LrwChunk(c: Cipher, encrypting: bool, mulinc: array<Be128>, src: array<Octet>, so: nat, dst: array<Octet>,
                  do: nat, nbytes: nat, iv: array<Octet>, t: Be128, first: bool, ghost k: P.Poly, ghost room: nat)
    returns (rest: nat, t': Be128, ghost used: nat)
    requires Sized(c) && iv.Length == c.size == 16 <= nbytes && iv != src && iv != dst
    requires so + nbytes <= src.Length && do + nbytes <= dst.Length
    requires (src == dst && so == do) || Apart(src, so, dst, do, nbytes)
    requires L.IncTableOk(mulinc, k) && Tweaked(t, iv[..], k) && Room(iv[..], first, room) && nbytes < 16 * (room + 1)
    modifies dst, iv
    ensures ChunkDone(Lrw(encrypting, k), c, ChainOf(Lrw(encrypting, k), old(iv[..]), first), old(src[so..so + nbytes]),
                      old(dst[..]), do, dst[..], NextOf(iv[..]), rest)
    ensures Tweaked(t', iv[..], k) && used <= room && 16 * used == nbytes - rest && Room(iv[..], false, room - used)
  {
    hide Progress, Run, Splice, WholePart, Whole, Step, Sized, Tweaked, NextOf, Room, L.IncTableOk;
    ghost var m := Lrw(encrypting, k);
    ghost var v0, d0, msg := ChainOf(m, iv[..], first), dst[..], src[so..so + nbytes];
    ProgressStart(m, c, v0, msg, d0, do);
    var n, skip := 0, first;
    t', used := t, 0;
    while nbytes - n >= 16
      invariant 0 <= n == 16 * used <= nbytes && used <= room && skip == (first && n == 0)
      invariant Progress(m, c, v0, msg, d0, do, n, dst[..], ChainOf(m, iv[..], skip))
      invariant Tweaked(t', iv[..], k) && Room(iv[..], skip, room - used) && L.IncTableOk(mulinc, k)
      invariant src != dst ==> src[so..so + nbytes] == msg
    {
      ghost var d, now := dst[..], ChainOf(m, iv[..], skip);
      var x := src[so + n..so + n + 16];
      if src == dst {
        NextBlock(m, c, v0, msg, d0, do, n, d, now, so);
      } else {
        SliceOf(src[..], so, nbytes, n, c.size);
        assert x == msg[n..n + c.size];
      }
      if !skip {
        t' := Advance(mulinc, iv, t', k, room - used);
      }
      skip := false;
      Round(c, encrypting, x, t', dst, do + n, now, k);
      ProgressStep(m, c, v0, msg, d0, do, n, d, now, Step(m, c, now, x).0, NextOf(iv[..]));
      RoomUsed(iv[..], room - used);
      n, used := n + 16, used + 1;
    }
    ChunkFinished(m, c, v0, msg, d0, do, n, dst[..], ChainOf(m, iv[..], skip));
    rest := nbytes - n;
  }

  lemma RoomUsed(iv: Bytes, room: nat)
    requires |iv| == 16 && Room(iv, true, room) && room > 0
    ensures Room(iv, false, room - 1)
  {}
}
