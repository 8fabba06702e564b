/**
 Counters and tweaks of LRW as 16 bytes in memory.
 */
module LrwBytes {
  import opened Words
  import opened Octets
  import opened Gf128
  import P = Poly
  import T = Gf128Tables
  import L = Lrw

  /** A be128 in memory, most significant byte first, and its bytes. */
  function FromBytes(b: Bytes): Be128
    requires |b| == 16
  {
    var x := seq(128, i requires 0 <= i < 128 => b[i / 8].bits[i % 8]);
    Be128(x[..64], x[64..])
  }

  lemma BitOf(b: Bytes, i: nat)
    requires |b| == 16 && i < 128
    ensures L.Whole(FromBytes(b))[i] == b[i / 8].bits[i % 8]
  {}

  function ToBytes(w: Be128): (b: Bytes)
    ensures |b| == 16
  {
    seq(16, i requires 0 <= i < 16 => Octet(L.Whole(w)[8 * i..8 * i + 8]))
  }

  lemma ByteOf(w: Be128, i: nat, j: nat)
    requires i < 16 && j < 8
    ensures ToBytes(w)[i].bits[j] == L.Whole(w)[8 * i + j]
  {}

  lemma WholeIs(x: Be128, y: Be128)
    requires L.Whole(x) == L.Whole(y)
    ensures x == y
  {
    assert x.a == L.Whole(x)[..64] && y.a == L.Whole(y)[..64];
    assert x.b == L.Whole(x)[64..] && y.b == L.Whole(y)[64..];
  }

  lemma RoundTrip(w: Be128)
    ensures FromBytes(ToBytes(w)) == w
  {
    var v := FromBytes(ToBytes(w));
    forall i | 0 <= i < 128
      ensures L.Whole(v)[i] == L.Whole(w)[i]
    {
      BitOf(ToBytes(w), i);
      ByteOf(w, i / 8, i % 8);
    }
    assert L.Whole(v) == L.Whole(w);
    WholeIs(v, w);
  }

  lemma BytesBack(b: Bytes)
    requires |b| == 16
    ensures ToBytes(FromBytes(b)) == b
  {
    var d := ToBytes(FromBytes(b));
    forall i | 0 <= i < 16
      ensures d[i] == b[i]
    {
      forall j | 0 <= j < 8
        ensures d[i].bits[j] == b[i].bits[j]
      {
        ByteOf(FromBytes(b), i, j);
        BitOf(b, 8 * i + j);
        assert (8 * i + j) / 8 == i && (8 * i + j) % 8 == j;
      }
      assert d[i].bits == b[i].bits;
    }
  }

  /** be128_xor works byte by byte. */
  lemma XorIs(x: Be128, b: Bytes)
    requires |b| == 16
    ensures ToBytes(Xor128(x, FromBytes(b))) == XorBytes(ToBytes(x), b)
  {
    var y := FromBytes(b);
    var d, e := ToBytes(Xor128(x, y)), XorBytes(ToBytes(x), b);
    forall i | 0 <= i < 16
      ensures d[i] == e[i]
    {
      forall j | 0 <= j < 8
        ensures d[i].bits[j] == e[i].bits[j]
      {
        ByteOf(Xor128(x, y), i, j);
        ByteOf(x, i, j);
        XorWhole(x, y, 8 * i + j);
        BitOf(b, 8 * i + j);
        assert (8 * i + j) / 8 == i && (8 * i + j) % 8 == j;
      }
      assert d[i].bits == e[i].bits;
    }
  }

  lemma XorWhole(x: Be128, y: Be128, i: nat)
    requires i < 128
    ensures L.Whole(Xor128(x, y))[i] == (L.Whole(x)[i] != L.Whole(y)[i])
  {}

  /** The tweak of the block whose counter is `iv`; counters have 16 bytes. */
  ghost function TweakOf(iv: Bytes, k: P.Poly): (t: Bytes)
    ensures |t| == |iv|
  {
    if |iv| == 16 then ToBytes(L.Element(P.Mul(Value(Bbe, FromBytes(iv)), k))) else iv
  }

  /** The counter of the next block. */
  function NextOf(iv: Bytes): (n: Bytes)
    ensures |n| == |iv|
  {
    if |iv| == 16 then ToBytes(L.IncCounter(FromBytes(iv))) else iv
  }

  /** `t` is the tweak of the counter in memory. */
  ghost predicate Tweaked(t: Be128, iv: Bytes, k: P.Poly)
    requires |iv| == 16
  {
    Value(Bbe, t) == P.Mul(Value(Bbe, FromBytes(iv)), k)
  }

  lemma TweakedBytes(t: Be128, iv: Bytes, k: P.Poly)
    requires |iv| == 16 && Tweaked(t, iv, k)
    ensures ToBytes(t) == TweakOf(iv, k)
  {
    hide P.Mul, Value, L.Element;
    L.ElementValue(t);
  }

  lemma TweakedNext(t: Be128, iv: Bytes, d: Be128, k: P.Poly)
    requires |iv| == 16 && Tweaked(t, iv, k) && !L.AllOnes(L.Whole(FromBytes(iv)))
    requires Value(Bbe, d) == P.Mul(L.Ones(L.TrailingOnes(L.Whole(FromBytes(iv))) + 1), k)
    ensures Tweaked(Xor128(t, d), NextOf(iv), k)
  {
    hide P.Mul, Value, L.IncCounter, L.AllOnes, L.TrailingOnes, L.Ones;
    var w := FromBytes(iv);
    L.TweakStep(w, t, d, k);
    RoundTrip(L.IncCounter(w));
  }

  /** The number of a counter. */
  ghost function Count(iv: Bytes): nat
    requires |iv| == 16
  {
    T.Number(L.Whole(FromBytes(iv)))
  }

  lemma CountNext(iv: Bytes)
    requires |iv| == 16 && Count(iv) + 1 < T.Pow2(128)
    ensures Count(NextOf(iv)) == Count(iv) + 1 && !L.AllOnes(L.Whole(FromBytes(iv)))
  {
    hide T.Number, T.Pow2, L.IncCounter, L.AllOnes;
    var w := FromBytes(iv);
    RoundTrip(L.IncCounter(w));
    L.IncCounterWhole(w);
    L.IncNumber(L.Whole(w));
  }

  lemma {:induction false} IncInjective(x: Bits, y: Bits)
    requires |x| == |y| && L.Inc(x) == L.Inc(y)
    ensures x == y
  {
    if x != [] {
      var n := |x| - 1;
      assert L.Inc(x)[n] == !x[n] && L.Inc(y)[n] == !y[n];
      assert L.Inc(x)[..n] == if x[n] then L.Inc(x[..n]) else x[..n];
      assert L.Inc(y)[..n] == if y[n] then L.Inc(y[..n]) else y[..n];
      if x[n] { IncInjective(x[..n], y[..n]); }
      assert x == x[..n] + [x[n]] && y == y[..n] + [y[n]];
    }
  }

  lemma NextInjective(a: Bytes, b: Bytes)
    requires |a| == |b| && NextOf(a) == NextOf(b)
    ensures a == b
  {
    hide L.IncCounter, L.Inc;
    if |a| == 16 {
      var x, y := FromBytes(a), FromBytes(b);
      RoundTrip(L.IncCounter(x));
      RoundTrip(L.IncCounter(y));
      L.IncCounterWhole(x);
      L.IncCounterWhole(y);
      IncInjective(L.Whole(x), L.Whole(y));
      WholeIs(x, y);
      BytesBack(a);
      BytesBack(b);
    }
  }
}
