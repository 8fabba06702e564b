/**
 Elements of GF(2^128) as the code stores them, multiplication by x and x^8 on
 two 64-bit words, and what these operations mean for the polynomial stored.
 */
module Gf128 {
  import opened Poly
  import opened Words

  /** Where the coefficients sit: `Lle` starts at the top bit of byte 0, `Bbe`
      at the bottom bit of byte 15. */
  datatype Convention = Lle | Bbe

  function Weight(k: nat): nat
    requires k < 16
  {
    if k == 0 then 0x1
    else if k == 1 then 0x2
    else if k == 2 then 0x4
    else if k == 3 then 0x8
    else if k == 4 then 0x10
    else if k == 5 then 0x20
    else if k == 6 then 0x40
    else if k == 7 then 0x80
    else if k == 8 then 0x100
    else if k == 9 then 0x200
    else if k == 10 then 0x400
    else if k == 11 then 0x800
    else if k == 12 then 0x1000
    else if k == 13 then 0x2000
    else if k == 14 then 0x4000
    else 0x8000
  }

  /** The bits of a 16-bit constant. */
  function Lit16(n: nat): (w: U16)
    ensures forall i :: 0 <= i < 16 ==> w[i] == (n / Weight(15 - i) % 2 == 1)
  {
    seq(16, i requires 0 <= i < 16 => n / Weight(15 - i) % 2 == 1)
  }

  /** The constants of xda_lle and xda_bbe, by the coefficient 120 + t that selects them. */
  function Constant(c: Convention, t: nat): nat
    requires t < 8
  {
    match c
    case Lle =>
      if t == 0 then 0xe100 else if t == 1 then 0x7080 else if t == 2 then 0x3840 else if t == 3 then 0x1c20
      else if t == 4 then 0x0e10 else if t == 5 then 0x0708 else if t == 6 then 0x0384 else 0x01c2
    case Bbe =>
      if t == 0 then 0x0087 else if t == 1 then 0x010e else if t == 2 then 0x021c else if t == 3 then 0x0438
      else if t == 4 then 0x0870 else if t == 5 then 0x10e0 else if t == 6 then 0x21c0 else 0x4380
  }

  /** Bit 0x80 of an index stands for coefficient 120 in `Lle` and 127 in `Bbe`. */
  predicate Tap(c: Convention, u: Byte, t: nat)
    requires t < 8
  {
    if c == Lle then u[t] else u[7 - t]
  }

  /** gf128mul_table_lle and gf128mul_table_bbe: the constants selected by the
      index, added up; here those of its first `n` coefficients. */
  function Table(c: Convention, u: Byte, n: nat): (w: U16)
    requires n <= 8
  {
    if n == 0 then Zeros(16)
    else if Tap(c, u, n - 1) then Xor(Table(c, u, n - 1), Lit16(Constant(c, n - 1)))
    else Table(c, u, n - 1)
  }

  function ToU64(t: U16): U64 { Zeros(48) + t }

  /** The low byte of a word, the code's `& 0xff`. */
  function LowByte(x: U64): Byte { x[56..] }

  /** be128, with the words in host order. */
  datatype Be128 = Be128(a: U64, b: U64)

  const Zero := Be128(Zeros(64), Zeros(64))

  /** be128_xor */
  function Xor128(p: Be128, q: Be128): Be128 {
    Be128(Xor(p.a, q.a), Xor(p.b, q.b))
  }

  /** gf128mul_x_lle and gf128mul_x_bbe */
  function MulX(c: Convention, x: Be128): Be128 {
    match c
    case Lle =>
      var tt := ToU64(Table(Lle, LowByte(Shl(x.b, 7)), 8));
      Be128(Xor(Shr(x.a, 1), Shl(tt, 48)), Or(Shr(x.b, 1), Shl(x.a, 63)))
    case Bbe =>
      var tt := ToU64(Table(Bbe, LowByte(Shr(x.a, 63)), 8));
      Be128(Or(Shl(x.a, 1), Shr(x.b, 63)), Xor(Shl(x.b, 1), tt))
  }

  /** gf128mul_x8_lle and gf128mul_x8_bbe */
  function MulX8(c: Convention, x: Be128): Be128 {
    match c
    case Lle =>
      var tt := ToU64(Table(Lle, LowByte(x.b), 8));
      Be128(Xor(Shr(x.a, 8), Shl(tt, 48)), Or(Shr(x.b, 8), Shl(x.a, 56)))
    case Bbe =>
      var tt := ToU64(Table(Bbe, LowByte(Shr(x.a, 56)), 8));
      Be128(Or(Shl(x.a, 8), Shr(x.b, 56)), Xor(Shl(x.b, 8), tt))
  }

  /** The coefficient of x^i. */
  predicate Coef(c: Convention, w: Be128, i: nat)
    requires i < 128
  {
    match c
    case Lle => (w.a + w.b)[i]
    case Bbe => (w.a + w.b)[127 - i]
  }

  /** The polynomial an element stands for. */
  function Value(c: Convention, w: Be128): (p: Poly)
    ensures Below(p, 128)
  {
    set i: nat | i < 128 && Coef(c, w, i)
  }

  /** The taps of the modulus below x^128. */
  predicate Low(i: int) {
    i == 0 || i == 1 || i == 2 || i == 7
  }

  /** Each constant is x^t (x^7 + x^2 + x + 1). */
  lemma ConstantLle(t: nat, k: nat)
    requires t < 8 && k < 16
    ensures Constant(Lle, t) / Weight(k) % 2 == 1 <==> Low(15 - k - t)
  {}

  lemma ConstantBbe(t: nat, k: nat)
    requires t < 8 && k < 16
    ensures Constant(Bbe, t) / Weight(k) % 2 == 1 <==> Low(k - t)
  {}

  /** A table entry is the reduction of the coefficients in its index. */
  lemma {:induction false} TableBits(c: Convention, u: Byte, n: nat, p: Poly, e: nat)
    requires n <= 8 && e < 16
    requires forall t: nat :: t < 8 ==> Tap(c, u, t) == (128 + t in p)
    ensures Table(c, u, n)[if c == Lle then e else 15 - e] == Feed(p, n, e)
  {
    hide Constant, Weight;
    if n > 0 {
      TableBits(c, u, n - 1, p, e);
      if c == Lle { ConstantLle(n - 1, 15 - e); } else { ConstantBbe(n - 1, e); }
    }
  }

  lemma {:induction false} FeedHigh(p: Poly, k: nat, e: nat)
    requires e >= k + 7
    ensures !Feed(p, k, e)
  {
    if k > 0 { FeedHigh(p, k - 1, e); }
  }

  /** be128_xor adds the polynomials. */
  lemma ValueXor(c: Convention, u: Be128, v: Be128)
    ensures Value(c, Xor128(u, v)) == Add(Value(c, u), Value(c, v))
  {
    forall i: nat | i < 128 ensures Coef(c, Xor128(u, v), i) == (Coef(c, u, i) != Coef(c, v, i)) {}
  }

  lemma ValueZero(c: Convention)
    ensures Value(c, Zero) == {}
  {}

  /** Both multiplications shift by `k` and add a table entry at the low end. */
  lemma ShiftedLle(w: Be128, t: U16, k: nat, i: nat)
    requires (k == 1 || k == 8) && i < 128
    ensures Coef(Lle, Be128(Xor(Shr(w.a, k), Shl(ToU64(t), 48)), Or(Shr(w.b, k), Shl(w.a, 64 - k))), i)
         == ((i >= k && Coef(Lle, w, i - k)) != (i < 16 && t[i]))
  {
    hide Xor, Or, Shl, Shr, Zeros;
    if i < 64 {
      assert Shl(ToU64(t), 48)[i] == (i < 16 && t[i]);
      assert Shr(w.a, k)[i] == (i >= k && w.a[i - k]);
    } else {
      assert Shr(w.b, k)[i - 64] == (i - 64 >= k && w.b[i - 64 - k]);
      assert Shl(w.a, 64 - k)[i - 64] == (i - k < 64 && w.a[i - k]);
    }
  }

  lemma ShiftedBbe(w: Be128, t: U16, k: nat, i: nat)
    requires (k == 1 || k == 8) && i < 128
    ensures Coef(Bbe, Be128(Or(Shl(w.a, k), Shr(w.b, 64 - k)), Xor(Shl(w.b, k), ToU64(t))), i)
         == ((i >= k && Coef(Bbe, w, i - k)) != (i < 16 && t[15 - i]))
  {
    hide Xor, Or, Shl, Shr, Zeros;
    var j := 127 - i;
    if j < 64 {
      assert Shl(w.a, k)[j] == (j + k < 64 && w.a[j + k]);
      assert Shr(w.b, 64 - k)[j] == (j + k >= 64 && w.b[j + k - 64]);
    } else {
      assert ToU64(t)[j - 64] == (i < 16 && t[15 - i]);
      assert Shl(w.b, k)[j - 64] == (j - 64 + k < 64 && w.b[j - 64 + k]);
    }
  }

  /** The index of the reduction table, for a shift by 1 or by 8. */
  ghost function Index(c: Convention, w: Be128, k: nat): Byte {
    match c
    case Lle => if k == 1 then LowByte(Shl(w.b, 7)) else LowByte(w.b)
    case Bbe => if k == 1 then LowByte(Shr(w.a, 63)) else LowByte(Shr(w.a, 56))
  }

  lemma IndexTaps(c: Convention, w: Be128, k: nat, t: nat)
    requires (k == 1 || k == 8) && t < 8
    ensures Tap(c, Index(c, w, k), t) == (128 + t in Shift(Value(c, w), k))
  {
    hide Shl, Shr;
    assert Tap(c, Index(c, w, k), t) == (t < k && Coef(c, w, 128 + t - k));
  }

  /** The code's step by x^k as a polynomial operation. */
  lemma ValueStep(c: Convention, w: Be128, r: Be128, k: nat)
    requires k == 1 || k == 8
    requires forall i: nat :: i < 128 ==>
      (Coef(c, r, i) ==
        ((i >= k && Coef(c, w, i - k)) != (i < 16 && Table(c, Index(c, w, k), 8)[if c == Lle then i else 15 - i])))
    ensures Value(c, r) == Reduce(Shift(Value(c, w), k), 127 + k)
  {
    hide Table, Index, Tap, Coef;
    var p := Shift(Value(c, w), k);
    ReduceBelow(p, 127 + k);
    forall t: nat | t < 8 ensures Tap(c, Index(c, w, k), t) == (128 + t in p) { IndexTaps(c, w, k, t); }
    forall i: nat | i < 128 ensures Coef(c, r, i) <==> i in Reduce(p, 127 + k) {
      if i < 16 { TableBits(c, Index(c, w, k), 8, p, i); } else { FeedHigh(p, 8, i); }
      FeedShort(p, k, i);
      ReduceMembers(p, k, i);
    }
  }

  lemma {:induction false} FeedShort(p: Poly, k: nat, i: nat)
    requires k == 1 || k == 8
    requires k == 1 ==> Below(p, 129)
    ensures Feed(p, 8, i) == Feed(p, k, i)
  {
    if k == 1 {
      FeedEmpty(p, 7, i);
    }
  }

  lemma {:induction false} FeedEmpty(p: Poly, m: nat, i: nat)
    requires Below(p, 129)
    ensures Feed(p, 1 + m, i) == Feed(p, 1, i)
  {
    if m > 0 { FeedEmpty(p, m - 1, i); }
  }

  /** gf128mul_x multiplies the polynomial by x. */
  lemma ValueX(c: Convention, w: Be128)
    ensures Value(c, MulX(c, w)) == TimesX(Value(c, w))
  {
    hide Table, Coef;
    forall i: nat | i < 128 ensures Coef(c, MulX(c, w), i) ==
      ((i >= 1 && Coef(c, w, i - 1)) != (i < 16 && Table(c, Index(c, w, 1), 8)[if c == Lle then i else 15 - i]))
    {
      hide Xor, Or, Shl, Shr, ToU64;
      var t := Table(c, Index(c, w, 1), 8);
      if c == Lle { ShiftedLle(w, t, 1, i); } else { ShiftedBbe(w, t, 1, i); }
    }
    ValueStep(c, w, MulX(c, w), 1);
  }

  /** gf128mul_x8 multiplies the polynomial by x^8. */
  lemma ValueX8(c: Convention, w: Be128)
    ensures Value(c, MulX8(c, w)) == Reduce(Shift(Value(c, w), 8), 135)
  {
    hide Table, Coef;
    forall i: nat | i < 128 ensures Coef(c, MulX8(c, w), i) ==
      ((i >= 8 && Coef(c, w, i - 8)) != (i < 16 && Table(c, Index(c, w, 8), 8)[if c == Lle then i else 15 - i]))
    {
      hide Xor, Or, Shl, Shr, ToU64;
      var t := Table(c, Index(c, w, 8), 8);
      if c == Lle { ShiftedLle(w, t, 8, i); } else { ShiftedBbe(w, t, 8, i); }
    }
    ValueStep(c, w, MulX8(c, w), 8);
  }

  /** x8 is x applied eight times. */
  lemma X8IsXEightTimes(c: Convention, w: Be128)
    ensures Value(c, MulX8(c, w)) == TimesXN(Value(c, w), 8)
  {
    ValueX8(c, w);
    ReduceShiftN(Value(c, w), 8);
  }
}
