/**
 The table-driven multipliers: the loops that fill the 4k and 64k tables and
 the loops that multiply with them, proved to compute the product of `Poly`.
 */
module Gf128Tables {
  import opened Poly
  import opened Words
  import opened Gf128

  function Pow2(m: nat): (p: nat)
    ensures p > 0
  {
    if m == 0 then 1 else 2 * Pow2(m - 1)
  }

  predicate BitOf(v: nat, m: nat) {
    if m == 0 then v % 2 == 1 else BitOf(v / 2, m - 1)
  }

  /** The number a bit string stands for. */
  function Number(u: Bits): (v: nat)
    ensures v < Pow2(|u|)
  {
    if u == [] then 0 else 2 * Number(u[..|u| - 1]) + (if u[|u| - 1] then 1 else 0)
  }

  lemma {:induction false} NumberBits(u: Bits, m: nat)
    requires m < |u|
    ensures BitOf(Number(u), m) == u[|u| - 1 - m]
  {
    if m > 0 { NumberBits(u[..|u| - 1], m - 1); }
  }

  /** A power of two adds its bit to any smaller number. */
  lemma {:induction false} Pow2Bits(m: nat, k: nat, i: nat)
    requires k < Pow2(m)
    ensures BitOf(Pow2(m) + k, i) == (i == m || BitOf(k, i))
    ensures !BitOf(k, m)
  {
    if m > 0 {
      assert (Pow2(m) + k) / 2 == Pow2(m - 1) + k / 2;
      Pow2Bits(m - 1, k / 2, if i > 0 then i - 1 else 0);
    } else {
      ZeroBits(if i > 0 then i - 1 else 0);
    }
  }

  lemma {:induction false} ZeroBits(i: nat)
    ensures !BitOf(0, i)
  {
    if i > 0 { ZeroBits(i - 1); }
  }

  predicate InByte(c: Convention, v: nat, i: nat)
    requires i < 8
  {
    BitOf(v, if c == Lle then 7 - i else i)
  }

  /** The polynomial of the byte value `v` at the low end of an element. */
  function ByteSet(c: Convention, v: nat): (p: Poly)
    ensures Below(p, 8)
  {
    set i: nat | i < 8 && InByte(c, v, i)
  }

  lemma ByteSetPower(c: Convention, m: nat)
    requires m < 8
    ensures ByteSet(c, Pow2(m)) == {if c == Lle then 7 - m else m}
  {
    forall i: nat | i < 8 ensures BitOf(Pow2(m), i) == (i == m) { Pow2Bits(m, 0, i); ZeroBits(i); }
  }

  lemma ByteSetZero(c: Convention)
    ensures ByteSet(c, 0) == {}
  {
    forall i: nat | i < 8 ensures !BitOf(0, i) { ZeroBits(i); }
  }

  lemma ByteSetSum(c: Convention, m: nat, k: nat)
    requires m < 8 && k < Pow2(m)
    ensures ByteSet(c, Pow2(m) + k) == Add(ByteSet(c, Pow2(m)), ByteSet(c, k))
  {
    forall i: nat | i < 8 ensures BitOf(Pow2(m) + k, i) == (BitOf(Pow2(m), i) != BitOf(k, i)) {
      Pow2Bits(m, k, i);
      Pow2Bits(m, 0, i);
      ZeroBits(i);
    }
  }

  /** Entry `v` of a row holds x^n * v * g. */
  ghost predicate Good(c: Convention, e: Be128, v: nat, n: nat, g: Poly) {
    Value(c, e) == Mul(Shift(ByteSet(c, v), n), g)
  }

  ghost predicate RowOk(c: Convention, row: array<Be128>, n: nat, g: Poly)
    reads row
  {
    row.Length == 256 && forall v :: 0 <= v < 256 ==> Good(c, row[v], v, n, g)
  }

  lemma GoodZero(c: Convention, n: nat, g: Poly)
    ensures Good(c, Zero, 0, n, g)
  {
    ValueZero(c);
    ByteSetZero(c);
    assert Shift({}, n) == {};
    MulZero(g);
  }

  /** The first power: g itself. */
  lemma GoodBase(c: Convention, g: Be128)
    ensures Good(c, g, if c == Lle then 128 else 1, 0, Value(c, g))
  {
    var m := if c == Lle then 7 else 0;
    assert Pow2(7) == 128;
    ByteSetPower(c, m);
    assert Shift({0}, 0) == {0};
    MulOne(Value(c, g));
  }

  /** The other powers: one more factor x, which is half the value in `Lle` and twice in `Bbe`. */
  lemma GoodX(c: Convention, e: Be128, m: nat, n: nat, g: Poly)
    requires Below(g, 128) && n <= 120 && m < 8 && (if c == Lle then m > 0 else m < 7)
    requires Good(c, e, Pow2(m), n, g)
    ensures Good(c, MulX(c, e), Pow2(if c == Lle then m - 1 else m + 1), n, g)
  {
    hide Mul, MulX, Value, Pow2, ByteSet, Below;
    var m' := if c == Lle then m - 1 else m + 1;
    var i := if c == Lle then 7 - m else m;
    ByteSetPower(c, m);
    ByteSetPower(c, m');
    ValueX(c, e);
    assert Shift(Shift({i}, n), 1) == Shift({i + 1}, n);
    MulShift(Shift({i}, n), g);
  }

  /** The next row: a factor x^8. */
  lemma GoodX8(c: Convention, e: Be128, v: nat, n: nat, g: Poly)
    requires Below(g, 128) && n <= 112 && Good(c, e, v, n, g)
    ensures Good(c, MulX8(c, e), v, n + 8, g)
  {
    X8IsXEightTimes(c, e);
    ShiftShift(ByteSet(c, v), n, 8);
    MulShiftN(Shift(ByteSet(c, v), n), g, 8, n + 8);
  }

  /** The filling step: an entry is the sum of its top bit's entry and the rest. */
  lemma GoodSum(c: Convention, d: Be128, e: Be128, m: nat, k: nat, n: nat, g: Poly)
    requires m < 8 && k < Pow2(m) && Good(c, d, Pow2(m), n, g) && Good(c, e, k, n, g)
    ensures Good(c, Xor128(d, e), Pow2(m) + k, n, g)
  {
    ValueXor(c, d, e);
    ByteSetSum(c, m, k);
    ShiftAdd(ByteSet(c, Pow2(m)), ByteSet(c, k), n);
    MulAdd(Shift(ByteSet(c, Pow2(m)), n), Shift(ByteSet(c, k), n), g);
  }

  /** The entries of the powers of two from `lo` to `hi` are in place. */
  ghost predicate Powers(c: Convention, row: array<Be128>, n: nat, g: Poly, lo: int, hi: int)
    requires row.Length == 256 && 0 <= lo
    reads row
  {
    forall m :: lo <= m < hi ==> Pow2(m) < 256 && Good(c, row[Pow2(m)], Pow2(m), n, g)
  }

  ghost predicate PowersOk(c: Convention, row: array<Be128>, n: nat, g: Poly)
    requires row.Length == 256
    reads row
  {
    Powers(c, row, n, g, 0, 8)
  }

  lemma {:induction false} Pow2Values(m: nat)
    requires m <= 8
    ensures Pow2(m) <= 256 && (m < 8 <==> Pow2(m) < 256) && (m < 7 <==> Pow2(m) <= 64)
  {
    assert Pow2(8) == 256 && Pow2(7) == 128 && Pow2(6) == 64 && Pow2(5) == 32 && Pow2(4) == 16;
    assert Pow2(3) == 8 && Pow2(2) == 4 && Pow2(1) == 2;
  }

  lemma Pow2Double(m: nat)
    ensures Pow2(m + 1) == Pow2(m) + Pow2(m) && Pow2(0) == 1
  {}

  lemma {:induction false} Pow2Order(m: nat, n: nat)
    requires m < n
    ensures 2 * Pow2(m) <= Pow2(n)
  {
    if m < n - 1 { Pow2Order(m, n - 1); }
  }

  /** The doubling loop shared by all four table builders. */
  method FillRow(c: Convention, row: array<Be128>, ghost n: nat, ghost g: Poly)
    requires row.Length == 256 && PowersOk(c, row, n, g) && Good(c, row[0], 0, n, g)
    modifies row
    ensures RowOk(c, row, n, g)
  {
    hide Good;
    var j := 2;
    ghost var m := 1;
    while j < 256
      invariant 1 <= m <= 8 && j == Pow2(m) <= 256
      invariant PowersOk(c, row, n, g)
      invariant forall v :: 0 <= v < j ==> Good(c, row[v], v, n, g)
    {
      Pow2Values(m);
      assert Good(c, row[Pow2(m)], Pow2(m), n, g);
      Pow2Values(m + 1);
      var k := 1;
      while k < j
        invariant 1 <= k <= j && j == Pow2(m)
        invariant PowersOk(c, row, n, g)
        invariant forall v :: 0 <= v < j + k ==> Good(c, row[v], v, n, g)
      {
        GoodSum(c, row[j], row[k], m, k, n, g);
        NotAPower(m, k);
        row[j + k] := Xor128(row[j], row[k]);
        k := k + 1;
      }
      j := j + j;
      m := m + 1;
    }
    Pow2Values(m);
  }

  lemma NotAPower(m: nat, k: nat)
    requires 1 <= k < Pow2(m)
    ensures forall i: nat :: Pow2(i) != Pow2(m) + k
  {
    forall i: nat ensures Pow2(i) != Pow2(m) + k {
      if i < m { Pow2Order(i, m); } else if i > m { Pow2Order(m, i); }
    }
  }

  /** t[128] = g, then down to t[1] by repeated multiplication by x */
  method PowersLle(row: array<Be128>, g: Be128)
    requires row.Length == 256
    modifies row
    ensures PowersOk(Lle, row, 0, Value(Lle, g)) && row[0] == old(row[0])
  {
    hide Good;
    row[128] := g;
    GoodBase(Lle, g);
    ghost var m := 6;
    var j := 64;
    assert Pow2(6) == 64 && Pow2(7) == 128;
    while j > 0
      invariant -1 <= m <= 6 && j == if m >= 0 then Pow2(m) else 0
      invariant j <= 64
      invariant Powers(Lle, row, 0, Value(Lle, g), m + 1, 8)
      invariant row[0] == old(row[0])
    {
      assert Pow2(m + 1) == j + j && Good(Lle, row[Pow2(m + 1)], Pow2(m + 1), 0, Value(Lle, g));
      GoodX(Lle, row[j + j], m + 1, 0, Value(Lle, g));
      forall i | m < i < 8 ensures Pow2(i) != j { Pow2Order(m, i); }
      row[j] := MulX(Lle, row[j + j]);
      j := j / 2;
      m := m - 1;
    }
  }

  /** t[1] = g, then up to t[128] */
  method PowersBbe(row: array<Be128>, g: Be128)
    requires row.Length == 256
    modifies row
    ensures PowersOk(Bbe, row, 0, Value(Bbe, g)) && row[0] == old(row[0])
  {
    hide Good, Value, MulX, Pow2;
    Pow2Double(0);
    row[1] := g;
    GoodBase(Bbe, g);
    ghost var m := 0;
    var j := 1;
    while j <= 64
      invariant 0 <= m <= 7 && j == Pow2(m) <= 128
      invariant Powers(Bbe, row, 0, Value(Bbe, g), 0, m + 1)
      invariant row[0] == old(row[0])
    {
      assert Good(Bbe, row[Pow2(m)], Pow2(m), 0, Value(Bbe, g));
      Pow2Values(m);
      GoodX(Bbe, row[j], m, 0, Value(Bbe, g));
      Pow2Values(m + 1);
      Pow2Double(m);
      forall i | 0 <= i <= m ensures Pow2(i) != j + j { Pow2Order(i, m + 1); }
      row[j + j] := MulX(Bbe, row[j]);
      j := j + j;
      m := m + 1;
    }
    Pow2Values(m);
  }

  /** gf128mul_init_4k_lle and gf128mul_init_4k_bbe */
  method Init4k(c: Convention, g: Be128) returns (t: array<Be128>)
    ensures fresh(t) && RowOk(c, t, 0, Value(c, g))
  {
    t := new Be128[256](_ => Zero);
    GoodZero(c, 0, Value(c, g));
    if c == Lle { PowersLle(t, g); } else { PowersBbe(t, g); }
    FillRow(c, t, 0, Value(c, g));
  }

  // Multiplication with a table

  /** ap[k], byte `k` of an element in memory */
  function Mem(w: Be128, k: nat): Byte
    requires k < 16
  {
    (w.a + w.b)[8 * k..8 * k + 8]
  }

  /** The byte holding the coefficients from 8 * k up. */
  function Where(c: Convention, k: nat): nat
    requires k < 16
  {
    if c == Lle then k else 15 - k
  }

  function Group(c: Convention, w: Be128, k: nat): (v: nat)
    requires k < 16
    ensures v < 256
  {
    assert Pow2(8) == 256;
    Number(Mem(w, Where(c, k)))
  }

  lemma GroupCoefs(c: Convention, w: Be128, k: nat, i: nat)
    requires k < 16 && i < 8
    ensures i in ByteSet(c, Group(c, w, k)) <==> 8 * k + i in Value(c, w)
  {
    hide Number, BitOf;
    var u := Mem(w, Where(c, k));
    NumberBits(u, if c == Lle then 7 - i else i);
    if c == Lle {
      assert u[i] == (w.a + w.b)[8 * k + i];
    } else {
      assert u[7 - i] == (w.a + w.b)[8 * (15 - k) + 7 - i];
    }
  }

  ghost function Down(p: Poly, k: nat): (r: Poly)
    ensures forall e: nat :: e in r <==> e + k in p
  {
    var r := set e: nat | e in p && e >= k :: e - k;
    assert forall e: nat {:trigger e + k in p} :: e + k in p ==> (e + k) - k in r;
    r
  }

  ghost function Take(p: Poly, n: nat): Poly {
    set e: nat | e in p && e < n
  }

  lemma DownStep(c: Convention, w: Be128, k: nat)
    requires k < 16
    ensures Down(Value(c, w), 8 * k) == Add(Shift(Down(Value(c, w), 8 * k + 8), 8), ByteSet(c, Group(c, w, k)))
  {
    hide Value, ByteSet, Group;
    forall e: nat ensures e in Down(Value(c, w), 8 * k) <==>
      e in Add(Shift(Down(Value(c, w), 8 * k + 8), 8), ByteSet(c, Group(c, w, k)))
    {
      if e < 8 { GroupCoefs(c, w, k, e); } else { assert e - 8 + (8 * k + 8) == e + 8 * k; }
    }
  }

  lemma TakeStep(c: Convention, w: Be128, k: nat)
    requires k < 16
    ensures Take(Value(c, w), 8 * k + 8) == Add(Take(Value(c, w), 8 * k), Shift(ByteSet(c, Group(c, w, k)), 8 * k))
  {
    hide Value, ByteSet, Group;
    forall e: nat ensures e in Take(Value(c, w), 8 * k + 8) <==>
      e in Add(Take(Value(c, w), 8 * k), Shift(ByteSet(c, Group(c, w, k)), 8 * k))
    {
      if 8 * k <= e < 8 * k + 8 { GroupCoefs(c, w, k, e - 8 * k); }
    }
  }

  /** One turn of the 4k multipliers: shift the accumulator and add an entry. */
  lemma HornerStep(c: Convention, w: Be128, r: Be128, e: Be128, k: nat, g: Poly)
    requires k < 16 && Below(g, 128) && Good(c, e, Group(c, w, k), 0, g)
    requires Value(c, r) == Mul(Down(Value(c, w), 8 * k + 8), g)
    ensures Value(c, Xor128(MulX8(c, r), e)) == Mul(Down(Value(c, w), 8 * k), g)
  {
    var d := Down(Value(c, w), 8 * k + 8);
    var b := ByteSet(c, Group(c, w, k));
    assert Below(d, 120);
    ValueXor(c, MulX8(c, r), e);
    X8IsXEightTimes(c, r);
    MulShiftN(d, g, 8, 120);
    assert Shift(b, 0) == b;
    MulAdd(Shift(d, 8), b, g);
    DownStep(c, w, k);
  }

  lemma HornerStart(c: Convention, w: Be128, e: Be128, g: Poly)
    requires Good(c, e, Group(c, w, 15), 0, g)
    ensures Value(c, e) == Mul(Down(Value(c, w), 120), g)
  {
    var b := ByteSet(c, Group(c, w, 15));
    DownStep(c, w, 15);
    assert Down(Value(c, w), 128) == {};
    assert Shift({}, 8) == {} && Add({}, b) == b && Shift(b, 0) == b;
  }

  /** gf128mul_4k_lle */
  method Mul4kLle(a: Be128, t: array<Be128>, ghost g: Poly) returns (r: Be128)
    requires RowOk(Lle, t, 0, g) && Below(g, 128)
    ensures Value(Lle, r) == Mul(Value(Lle, a), g)
  {
    hide Good, Mul, Value;
    r := t[Group(Lle, a, 15)];
    HornerStart(Lle, a, r, g);
    var i := 15;
    while i > 0
      invariant 0 <= i <= 15 && RowOk(Lle, t, 0, g)
      invariant Value(Lle, r) == Mul(Down(Value(Lle, a), 8 * i), g)
    {
      i := i - 1;
      HornerStep(Lle, a, r, t[Group(Lle, a, i)], i, g);
      r := Xor128(MulX8(Lle, r), t[Group(Lle, a, i)]);
    }
    assert Down(Value(Lle, a), 0) == Value(Lle, a);
  }

  /** gf128mul_4k_bbe */
  method Mul4kBbe(a: Be128, t: array<Be128>, ghost g: Poly) returns (r: Be128)
    requires RowOk(Bbe, t, 0, g) && Below(g, 128)
    ensures Value(Bbe, r) == Mul(Value(Bbe, a), g)
  {
    hide Good, Mul, Value, Number;
    r := t[Number(Mem(a, 0))];
    HornerStart(Bbe, a, r, g);
    var i := 1;
    while i < 16
      invariant 1 <= i <= 16 && RowOk(Bbe, t, 0, g)
      invariant Value(Bbe, r) == Mul(Down(Value(Bbe, a), 8 * (16 - i)), g)
    {
      HornerStep(Bbe, a, r, t[Group(Bbe, a, 15 - i)], 15 - i, g);
      r := Xor128(MulX8(Bbe, r), t[Number(Mem(a, i))]);
      i := i + 1;
    }
    assert Down(Value(Bbe, a), 0) == Value(Bbe, a);
  }

  ghost predicate TableOk(c: Convention, t: seq<array<Be128>>, g: Poly)
    reads t
  {
    |t| == 16 && forall i :: 0 <= i < 16 ==> RowOk(c, t[i], 8 * i, g)
  }

  /** The powers of the next row, from the largest down. */
  method NextPowers(c: Convention, prev: array<Be128>, row: array<Be128>, ghost n: nat, ghost g: Poly)
    requires prev != row && row.Length == 256 && RowOk(c, prev, n, g) && n <= 112 && Below(g, 128)
    modifies row
    ensures PowersOk(c, row, n + 8, g) && row[0] == old(row[0])
  {
    hide Good, MulX8;
    ghost var m := 7;
    var j := 128;
    assert Pow2(7) == 128;
    while j > 0
      invariant -1 <= m <= 7 && j == if m >= 0 then Pow2(m) else 0
      invariant j <= 128
      invariant Powers(c, row, n + 8, g, m + 1, 8)
      invariant row[0] == old(row[0])
    {
      GoodX8(c, prev[j], j, n, g);
      forall i | m < i < 8 ensures Pow2(i) != j { Pow2Order(m, i); }
      row[j] := MulX8(c, prev[j]);
      j := j / 2;
      m := m - 1;
    }
  }

  /** gf128mul_init_64k_lle and gf128mul_init_64k_bbe */
  method Init64k(c: Convention, g: Be128) returns (t: seq<array<Be128>>)
    ensures fresh(t) && TableOk(c, t, Value(c, g))
  {
    hide Good;
    var first := Init4k(c, g);
    t := [first];
    while |t| < 16
      invariant 1 <= |t| <= 16 && fresh(t)
      invariant forall i :: 0 <= i < |t| ==> RowOk(c, t[i], 8 * i, Value(c, g))
    {
      var row := new Be128[256](_ => Zero);
      GoodZero(c, 8 * |t|, Value(c, g));
      NextPowers(c, t[|t| - 1], row, 8 * (|t| - 1), Value(c, g));
      FillRow(c, row, 8 * |t|, Value(c, g));
      t := t + [row];
    }
  }

  /** gf128mul_64k_lle and gf128mul_64k_bbe */
  method Mul64k(c: Convention, a: Be128, t: seq<array<Be128>>, ghost g: Poly) returns (r: Be128)
    requires TableOk(c, t, g)
    ensures Value(c, r) == Mul(Value(c, a), g)
  {
    hide Mul, Value, Number;
    r := t[0][Group(c, a, 0)];
    SumStart(c, a, r, g);
    var i := 1;
    while i < 16
      invariant 1 <= i <= 16 && TableOk(c, t, g)
      invariant Value(c, r) == Mul(Take(Value(c, a), 8 * i), g)
    {
      assert RowOk(c, t[i], 8 * i, g);
      SumStep(c, a, r, t[i][Group(c, a, i)], i, g);
      r := Xor128(r, t[i][Group(c, a, i)]);
      i := i + 1;
    }
    assert Below(Value(c, a), 128);
    assert Take(Value(c, a), 128) == Value(c, a);
  }

  lemma SumStart(c: Convention, w: Be128, e: Be128, g: Poly)
    requires Good(c, e, Group(c, w, 0), 0, g)
    ensures Value(c, e) == Mul(Take(Value(c, w), 8), g)
  {
    var b := Shift(ByteSet(c, Group(c, w, 0)), 0);
    TakeStep(c, w, 0);
    assert Take(Value(c, w), 0) == {} && Add({}, b) == b;
  }

  lemma SumStep(c: Convention, w: Be128, r: Be128, e: Be128, k: nat, g: Poly)
    requires k < 16 && Good(c, e, Group(c, w, k), 8 * k, g)
    requires Value(c, r) == Mul(Take(Value(c, w), 8 * k), g)
    ensures Value(c, Xor128(r, e)) == Mul(Take(Value(c, w), 8 * k + 8), g)
  {
    ValueXor(c, r, e);
    MulAdd(Take(Value(c, w), 8 * k), Shift(ByteSet(c, Group(c, w, k)), 8 * k), g);
    TakeStep(c, w, k);
  }
}
