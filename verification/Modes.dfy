/**
 The block modes on flat byte strings: CBC (section 6.2 of NIST SP 800-38A),
 PCBC, whose chaining value also takes in the plaintext, and LRW, whose chaining
 value is the counter that gives each block its tweak.
 */
module Modes {
  import opened Words
  import opened Octets
  import opened LrwBytes
  import opened Gf128
  import L = Lrw
  import P = Poly

  /** The child cipher, for blocks of `size` bytes. */
  datatype Cipher = Cipher(size: nat, enc: Bytes -> Bytes, dec: Bytes -> Bytes)

  ghost predicate Sized(c: Cipher) {
    && c.size > 0
    && (forall x {:trigger c.enc(x)} :: |x| == c.size ==> |c.enc(x)| == c.size)
    && (forall x {:trigger c.dec(x)} :: |x| == c.size ==> |c.dec(x)| == c.size)
  }

  ghost predicate Invertible(c: Cipher) {
    forall x {:trigger c.enc(x)} :: |x| == c.size ==> c.dec(c.enc(x)) == x
  }

  /** `key` is the second key of LRW, as a polynomial. */
  datatype Mode = Cbc(encrypting: bool) | Pcbc(encrypting: bool) | Lrw(encrypting: bool, key: P.Poly)

  /** One block's output and the chaining value after it. */
  ghost function Step(m: Mode, c: Cipher, iv: Bytes, x: Bytes): (r: (Bytes, Bytes))
    requires Sized(c) && |iv| == |x| == c.size
    ensures |r.0| == |r.1| == c.size
  {
    if m.Lrw? then
      var t := TweakOf(iv, m.key);
      (XorBytes(if m.encrypting then c.enc(XorBytes(t, x)) else c.dec(XorBytes(t, x)), t), NextOf(iv))
    else
      var y := if m.encrypting then c.enc(XorBytes(x, iv)) else XorBytes(c.dec(x), iv);
      (y, if m.Pcbc? then XorBytes(x, y) else if m.encrypting then y else x)
  }

  /** A length made up of whole blocks. */
  ghost predicate Whole(n: nat, size: nat)
    requires size > 0
  {
    n == 0 || (n >= size && Whole(n - size, size))
  }

  /** The whole blocks in `n` bytes. */
  function WholePart(n: nat, size: nat): (w: nat)
    requires size > 0
    ensures w <= n < w + size && Whole(w, size) && (n >= size ==> w >= size)
  {
    if n < size then 0 else size + WholePart(n - size, size)
  }

  /** The output bytes and the last chaining value of a whole message. */
  ghost function Run(m: Mode, c: Cipher, iv: Bytes, s: Bytes): (r: (Bytes, Bytes))
    requires Sized(c) && |iv| == c.size && Whole(|s|, c.size)
    ensures |r.0| == |s| && |r.1| == c.size
    decreases |s|
  {
    if s == [] then ([], iv)
    else
      var n := |s| - c.size;
      var before := Run(m, c, iv, s[..n]);
      var last := Step(m, c, before.1, s[n..]);
      (before.0 + last.0, last.1)
  }

  lemma RunSnoc(m: Mode, c: Cipher, iv: Bytes, s: Bytes, x: Bytes)
    requires Sized(c) && |iv| == c.size && Whole(|s|, c.size) && |x| == c.size
    ensures Whole(|s + x|, c.size)
    ensures var a := Run(m, c, iv, s); var d := Step(m, c, a.1, x); Run(m, c, iv, s + x) == (a.0 + d.0, d.1)
  {
    hide Step;
    assert (s + x)[..|s|] == s && (s + x)[|s|..] == x;
  }

  /** The message `s + t` may be run in two parts. */
  ghost predicate Splits(m: Mode, c: Cipher, iv: Bytes, s: Bytes, t: Bytes)
    requires Sized(c) && |iv| == c.size && Whole(|s|, c.size) && Whole(|t|, c.size)
  {
    var a := Run(m, c, iv, s);
    var b := Run(m, c, a.1, t);
    Whole(|s + t|, c.size) && Run(m, c, iv, s + t) == (a.0 + b.0, b.1)
  }

  lemma SplitsSnoc(m: Mode, c: Cipher, iv: Bytes, s: Bytes, t: Bytes, x: Bytes)
    requires Sized(c) && |iv| == c.size && Whole(|s|, c.size) && Whole(|t|, c.size) && |x| == c.size
    requires Whole(|t + x|, c.size) && Splits(m, c, iv, s, t)
    ensures Splits(m, c, iv, s, t + x)
  {
    hide Step, Run, Sized, Whole;
    var a := Run(m, c, iv, s);
    var b := Run(m, c, a.1, t);
    RunSnoc(m, c, iv, s + t, x);
    RunSnoc(m, c, a.1, t, x);
    assert s + (t + x) == (s + t) + x;
    var d := Step(m, c, b.1, x).0;
    assert (a.0 + b.0) + d == a.0 + (b.0 + d);
  }

  /** A message may be cut between any two blocks and the parts run in turn. */
  lemma {:induction false} RunConcat(m: Mode, c: Cipher, iv: Bytes, s: Bytes, t: Bytes)
    requires Sized(c) && |iv| == c.size && Whole(|s|, c.size) && Whole(|t|, c.size)
    ensures Whole(|s + t|, c.size)
    ensures var a := Run(m, c, iv, s); var b := Run(m, c, a.1, t); Run(m, c, iv, s + t) == (a.0 + b.0, b.1)
    decreases |t|
  {
    hide Step;
    if t == [] {
      assert s + t == s;
      assert Run(m, c, iv, s).0 + [] == Run(m, c, iv, s).0;
    } else {
      hide Run;
      var n := |t| - c.size;
      RunConcat(m, c, iv, s, t[..n]);
      assert t[..n] + t[n..] == t;
      SplitsSnoc(m, c, iv, s, t[..n], t[n..]);
    }
  }

  lemma StepUndone(m: Mode, c: Cipher, iv: Bytes, x: Bytes)
    requires Sized(c) && Invertible(c) && |iv| == |x| == c.size && m.encrypting
    ensures var y := Step(m, c, iv, x); Step(m.(encrypting := false), c, iv, y.0) == (x, y.1)
  {
    hide XorBytes, TweakOf, NextOf;
    if m.Lrw? {
      var t := TweakOf(iv, m.key);
      var z := c.enc(XorBytes(t, x));
      XorBytesTwice(z, t);
      XorBytesTwice(XorBytes(z, t), t);
      XorBytesTwice(x, t);
    } else {
      XorBytesTwice(x, iv);
      var y := Step(m, c, iv, x).0;
      assert c.dec(y) == XorBytes(x, iv);
      XorBytesTwice(x, y);
    }
  }

  /** Decryption undoes encryption and leaves the same chaining value. */
  lemma {:induction false} RunUndone(m: Mode, c: Cipher, iv: Bytes, s: Bytes)
    requires Sized(c) && Invertible(c) && |iv| == c.size && Whole(|s|, c.size) && m.encrypting
    ensures var y := Run(m, c, iv, s); Run(m.(encrypting := false), c, iv, y.0) == (s, y.1)
    decreases |s|
  {
    hide Step;
    if s != [] {
      var n := |s| - c.size;
      RunUndone(m, c, iv, s[..n]);
      var b := Run(m, c, iv, s[..n]);
      var d := Step(m, c, b.1, s[n..]);
      StepUndone(m, c, b.1, s[n..]);
      var y := Run(m, c, iv, s).0;
      assert y[..n] == b.0 && y[n..] == d.0;
      assert s[..n] + s[n..] == s;
    }
  }

  /** The counter `j` blocks on. */
  ghost function CounterAt(iv: Bytes, j: nat): (n: Bytes)
    ensures |n| == |iv|
  {
    if j == 0 then iv else NextOf(CounterAt(iv, j - 1))
  }

  /** In LRW block `j` of `n` depends on its own bytes and its own counter alone. */
  lemma {:induction false} LrwBlock(m: Mode, c: Cipher, iv: Bytes, s: Bytes, n: nat, j: nat)
    requires Sized(c) && |iv| == c.size == 16 && Whole(|s|, c.size) && m.Lrw? && |s| == 16 * n
    ensures Run(m, c, iv, s).1 == CounterAt(iv, n)
    ensures j < n ==>
              Run(m, c, iv, s).0[16 * j..16 * j + 16] == Step(m, c, CounterAt(iv, j), s[16 * j..16 * j + 16]).0
    decreases n
  {
    hide Run, Step, Sized, Whole, CounterAt, NextOf;
    CounterSteps(iv, n);
    if n > 0 {
      WholeLess(|s|, 16);
      var l := 16 * (n - 1);
      LrwBlock(m, c, iv, s[..l], n - 1, j);
      RunSnoc(m, c, iv, s[..l], s[l..]);
      assert s[..l] + s[l..] == s;
      NextCounter(m, c, CounterAt(iv, n - 1), s[l..]);
      var b := Run(m, c, iv, s[..l]).0;
      var y := Step(m, c, CounterAt(iv, n - 1), s[l..]).0;
      if j < n - 1 {
        assert s[..l][16 * j..16 * j + 16] == s[16 * j..16 * j + 16];
        assert (b + y)[16 * j..16 * j + 16] == b[16 * j..16 * j + 16];
      } else if j == n - 1 {
        assert s[l..] == s[16 * j..16 * j + 16] && (b + y)[l..l + 16] == y;
      }
    } else {
      RunNone(m, c, iv, s);
    }
  }

  lemma RunNone(m: Mode, c: Cipher, iv: Bytes, s: Bytes)
    requires Sized(c) && |iv| == c.size && s == []
    ensures Run(m, c, iv, s) == ([], iv)
  {}

  lemma WholeLess(n: nat, size: nat)
    requires size > 0 && Whole(n, size) && n > 0
    ensures n >= size && Whole(n - size, size)
  {}

  lemma CounterSteps(iv: Bytes, n: nat)
    ensures CounterAt(iv, 0) == iv && (n > 0 ==> CounterAt(iv, n) == NextOf(CounterAt(iv, n - 1)))
  {}

  lemma NextCounter(m: Mode, c: Cipher, iv: Bytes, x: Bytes)
    requires Sized(c) && |iv| == |x| == c.size && m.Lrw?
    ensures Step(m, c, iv, x).1 == NextOf(iv)
  {}

  /** Its counter and tweak are those of the LRW definition. */
  lemma {:induction false} CounterIs(iv: Bytes, j: nat, k: P.Poly)
    requires |iv| == 16
    ensures CounterAt(iv, j) == ToBytes(L.Counter(FromBytes(iv), j))
    ensures TweakOf(CounterAt(iv, j), k) == ToBytes(L.Tweak(FromBytes(iv), k, j))
  {
    hide L.IncCounter, L.Element;
    RoundTrip(L.Counter(FromBytes(iv), j));
    if j == 0 {
      BytesBack(iv);
    } else {
      CounterIs(iv, j - 1, k);
      RoundTrip(L.Counter(FromBytes(iv), j - 1));
    }
  }

  /** The child cipher on blocks that are elements of the field. */
  function Child(m: Mode, c: Cipher): Be128 -> Be128 {
    x =>
      var y := if m.encrypting then c.enc(ToBytes(x)) else c.dec(ToBytes(x));
      if |y| == 16 then FromBytes(y) else Zero
  }

  lemma XorSwap(x: Be128, y: Be128)
    ensures Xor128(x, y) == Xor128(y, x)
  {
    XorComm(x.a, y.a);
    XorComm(x.b, y.b);
  }

  /** One block of LRW is the round of its definition. */
  lemma LrwStep(m: Mode, c: Cipher, iv: Bytes, x: Bytes, t: Be128)
    requires Sized(c) && |iv| == |x| == c.size == 16 && m.Lrw? && TweakOf(iv, m.key) == ToBytes(t)
    ensures Step(m, c, iv, x).0 == ToBytes(L.Round(Child(m, c), t, FromBytes(x)))
  {
    hide TweakOf, ToBytes, FromBytes, NextOf, XorBytes, Xor128;
    var p := Xor128(t, FromBytes(x));
    var z := if m.encrypting then c.enc(ToBytes(p)) else c.dec(ToBytes(p));
    XorIs(t, x);
    XorIs(t, z);
    XorBytesTwice(z, ToBytes(t));
    XorSwap(t, FromBytes(z));
    assert Child(m, c)(p) == FromBytes(z);
  }

  /** A message in LRW is encrypted and decrypted as the definition says, block by block. */
  lemma LrwIsSpec(m: Mode, c: Cipher, iv: Bytes, s: Bytes, n: nat, j: nat)
    requires Sized(c) && |iv| == c.size == 16 && Whole(|s|, c.size) && m.Lrw? && |s| == 16 * n && j < n
    ensures Run(m, c, iv, s).0[16 * j..16 * j + 16]
            == ToBytes(L.Round(Child(m, c), L.Tweak(FromBytes(iv), m.key, j), FromBytes(s[16 * j..16 * j + 16])))
  {
    hide Run, Step, Whole, TweakOf, ToBytes, FromBytes, L.Tweak, Child, L.Round, CounterAt, Sized;
    var x := s[16 * j..16 * j + 16];
    LrwBlock(m, c, iv, s, n, j);
    CounterIs(iv, j, m.key);
    LrwStep(m, c, CounterAt(iv, j), x, L.Tweak(FromBytes(iv), m.key, j));
  }
}
