/**
 LRW mode: the tweak of each block is counter * Key2 in GF(2^128), kept up to
 date from one block to the next by adding a precomputed multiple of Key2.
 */
module Lrw {
  import opened Poly
  import opened Words
  import opened Gf128
  import opened Gf128Tables

  // The 128-bit counter

  function Whole(w: Be128): (x: Bits)
    ensures |x| == 128
  {
    w.a + w.b
  }

  predicate AllOnes(x: Bits) {
    forall i :: 0 <= i < |x| ==> x[i]
  }

  /** Adding one to a machine word. */
  function Inc(x: Bits): (y: Bits)
    ensures |y| == |x|
  {
    if x == [] then []
    else if x[|x| - 1] then Inc(x[..|x| - 1]) + [false]
    else x[..|x| - 1] + [true]
  }

  /** inc: the high word takes the carry of the low one. */
  function IncCounter(w: Be128): Be128 {
    var b := Inc(w.b);
    if b == Zeros(64) then Be128(Inc(w.a), b) else Be128(w.a, b)
  }

  /** The number of consecutive one bits at the low end. */
  function TrailingOnes(x: Bits): (n: nat)
    ensures n <= |x|
  {
    if x == [] || !x[|x| - 1] then 0 else 1 + TrailingOnes(x[..|x| - 1])
  }

  lemma {:induction false} TrailingAll(x: Bits)
    ensures TrailingOnes(x) == |x| <==> AllOnes(x)
  {
    if x != [] {
      var y := x[..|x| - 1];
      TrailingAll(y);
      if AllOnes(x) {
        assert AllOnes(y) by { forall i | 0 <= i < |y| ensures y[i] { assert x[i]; } }
        assert x[|x| - 1];
      } else if AllOnes(y) && x[|x| - 1] {
        forall i | 0 <= i < |x| ensures x[i] { if i < |y| { assert y[i]; } }
      }
    }
  }

  lemma {:induction false} TrailingConcat(x: Bits, y: Bits)
    ensures TrailingOnes(x + y) == if AllOnes(y) then |y| + TrailingOnes(x) else TrailingOnes(y)
  {
    if y == [] {
      assert x + y == x;
    } else {
      var y' := y[..|y| - 1];
      assert (x + y)[..|x + y| - 1] == x + y';
      TrailingConcat(x, y');
      assert AllOnes(y) <==> AllOnes(y') && y[|y| - 1];
    }
  }

  /** Incrementing flips the trailing ones and the zero above them. */
  lemma {:induction false} IncFlips(x: Bits, i: nat)
    requires i < |x|
    ensures Inc(x)[|x| - 1 - i] == (x[|x| - 1 - i] != (i <= TrailingOnes(x)))
  {
    if x[|x| - 1] && i > 0 { IncFlips(x[..|x| - 1], i - 1); }
  }

  lemma {:induction false} IncConcat(x: Bits, y: Bits)
    ensures Inc(x + y) == if AllOnes(y) then Inc(x) + Zeros(|y|) else x + Inc(y)
    ensures AllOnes(y) <==> Inc(y) == Zeros(|y|)
  {
    if y == [] {
      assert x + y == x && Zeros(0) == [];
    } else {
      var y' := y[..|y| - 1];
      assert (x + y)[..|x + y| - 1] == x + y';
      IncConcat(x, y');
      assert AllOnes(y) <==> AllOnes(y') && y[|y| - 1];
      assert Zeros(|y|) == Zeros(|y'|) + [false];
      if y[|y| - 1] {
        assert Inc(y)[..|y| - 1] == Inc(y') && Zeros(|y|)[..|y| - 1] == Zeros(|y'|);
        assert Inc(x + y) == Inc(x + y') + [false];
      } else {
        assert Inc(y)[|y| - 1] && !Zeros(|y|)[|y| - 1];
        assert Inc(x + y) == x + y' + [true];
      }
    }
  }

  /** inc is the increment of the whole 128-bit word. */
  lemma IncCounterWhole(w: Be128)
    ensures Whole(IncCounter(w)) == Inc(Whole(w))
  {
    IncConcat(w.a, w.b);
  }

  /** As a number the counter goes up by one, modulo 2^128. */
  lemma {:induction false} IncNumber(x: Bits)
    ensures Number(Inc(x)) == if AllOnes(x) then 0 else Number(x) + 1
    ensures AllOnes(x) <==> Number(x) + 1 == Pow2(|x|)
  {
    if x != [] {
      var y := x[..|x| - 1];
      IncNumber(y);
      assert AllOnes(x) <==> AllOnes(y) && x[|x| - 1];
      assert Inc(x)[..|x| - 1] == if x[|x| - 1] then Inc(y) else y;
    }
  }

  /** One word of the search: `x` low bits are ones already. */
  lemma IndexStep(all: Bits, x: nat)
    requires |all| == 128 && x <= 96 && AllOnes(all[128 - x..])
    ensures var val := all[96 - x..128 - x];
      if TrailingOnes(val) < 32 then TrailingOnes(all) == x + TrailingOnes(val) else AllOnes(all[96 - x..])
  {
    hide TrailingOnes;
    var val := all[96 - x..128 - x];
    assert all[..128 - x] == all[..96 - x] + val;
    assert all == all[..128 - x] + all[128 - x..];
    TrailingConcat(all[..128 - x], all[128 - x..]);
    TrailingConcat(all[..96 - x], val);
    TrailingAll(val);
    assert all[96 - x..] == val + all[128 - x..];
  }

  lemma NoneYet(all: Bits)
    requires |all| == 128
    ensures AllOnes(all[128..]) && all[0..] == all
  {}

  /** get_index128: word by word from the low end, skipping words of ones. */
  method GetIndex128(w: Be128) returns (x: nat)
    ensures x == TrailingOnes(Whole(w))
    ensures x < 128 <==> !AllOnes(Whole(w))
  {
    hide TrailingOnes, AllOnes, Whole;
    var all := Whole(w);
    TrailingAll(all);
    NoneYet(all);
    x := 0;
    ghost var words: nat := 0;
    while x < 128
      invariant x == 32 * words <= 128 && AllOnes(all[128 - x..])
    {
      IndexStep(all, x);
      var ffz := TrailingOnes(all[96 - x..128 - x]);
      if ffz < 32 { return x + ffz; }
      x := x + 32;
      words := words + 1;
    }
  }

  // Key set-up

  ghost function Ones(n: nat): (p: Poly)
    ensures forall i: nat :: i in p <==> i < n
  {
    if n == 0 then {} else Ones(n - 1) + {n - 1}
  }

  /** setbit128_bbe, with the bits of a byte numbered from its low end: the
      code's bit number is `bit ^ 0x78`, byte 15 - bit / 8. */
  function SetBit(w: Be128, bit: nat): (r: Be128)
    requires bit < 128
  {
    var nr := 8 * (15 - bit / 8) + bit % 8;
    var x := Whole(w)[8 * (nr / 8) + 7 - nr % 8 := true];
    Be128(x[..64], x[64..])
  }

  lemma ValueSetBit(w: Be128, bit: nat)
    requires bit < 128
    ensures Value(Bbe, SetBit(w, bit)) == Value(Bbe, w) + {bit}
  {
    var nr := 8 * (15 - bit / 8) + bit % 8;
    var r := SetBit(w, bit);
    assert 8 * (nr / 8) + 7 - nr % 8 == 127 - bit;
    assert Whole(r) == Whole(w)[127 - bit := true];
    forall i: nat | i < 128 ensures Coef(Bbe, r, i) == (Coef(Bbe, w, i) || i == bit) {}
  }

  /** mulinc[i] is Key2 times the polynomial of i + 1 ones. */
  ghost predicate IncTableOk(mulinc: array<Be128>, k: Poly)
    reads mulinc
  {
    mulinc.Length == 128 && forall i :: 0 <= i < 128 ==> Value(Bbe, mulinc[i]) == Mul(Ones(i + 1), k)
  }

  /** setkey, for the second half of the key */
  method SetKey(key2: Be128) returns (table: seq<array<Be128>>, mulinc: array<Be128>)
    ensures TableOk(Bbe, table, Value(Bbe, key2)) && IncTableOk(mulinc, Value(Bbe, key2))
    ensures fresh(table) && fresh(mulinc)
  {
    hide Value, Mul;
    table := Init64k(Bbe, key2);
    mulinc := new Be128[128](_ => Zero);
    var tmp := Zero;
    ValueZero(Bbe);
    assert Ones(0) == {};
    for i := 0 to 128
      invariant Value(Bbe, tmp) == Ones(i)
      invariant TableOk(Bbe, table, Value(Bbe, key2)) && mulinc !in table
      invariant forall j :: 0 <= j < i ==> Value(Bbe, mulinc[j]) == Mul(Ones(j + 1), Value(Bbe, key2))
    {
      ValueSetBit(tmp, i);
      tmp := SetBit(tmp, i);
      assert Ones(i + 1) == Ones(i) + {i};
      var product := Mul64k(Bbe, tmp, table, Value(Bbe, key2));
      mulinc[i] := product;
    }
  }

  lemma CounterValue(iv: Be128)
    requires !AllOnes(Whole(iv))
    ensures Value(Bbe, IncCounter(iv)) == Add(Value(Bbe, iv), Ones(TrailingOnes(Whole(iv)) + 1))
  {
    hide IncCounter, Inc, TrailingOnes;
    var n := TrailingOnes(Whole(iv));
    TrailingAll(Whole(iv));
    IncCounterWhole(iv);
    forall i: nat | i < 128 ensures Coef(Bbe, IncCounter(iv), i) == (Coef(Bbe, iv, i) != (i <= n)) {
      IncFlips(Whole(iv), i);
    }
  }

  /** One step of the tweak: adding the multiple of ones is multiplying by the next counter. */
  lemma TweakStep(iv: Be128, t: Be128, d: Be128, k: Poly)
    requires !AllOnes(Whole(iv)) && Value(Bbe, t) == Mul(Value(Bbe, iv), k)
    requires Value(Bbe, d) == Mul(Ones(TrailingOnes(Whole(iv)) + 1), k)
    ensures Value(Bbe, Xor128(t, d)) == Mul(Value(Bbe, IncCounter(iv)), k)
  {
    var n := TrailingOnes(Whole(iv));
    CounterValue(iv);
    ValueXor(Bbe, t, d);
    MulAdd(Value(Bbe, iv), Ones(n + 1), k);
  }

  // The mode itself

  /** The counter of block `j`, and the tweak the LRW definition gives it. */
  ghost function Counter(iv: Be128, j: nat): Be128 {
    if j == 0 then iv else IncCounter(Counter(iv, j - 1))
  }

  /** As long as the counter does not wrap, block `j` is numbered iv + j. */
  lemma {:induction false} CounterNumber(iv: Be128, j: nat)
    requires Number(Whole(iv)) + j < Pow2(128)
    ensures Number(Whole(Counter(iv, j))) == Number(Whole(iv)) + j
  {
    hide Pow2, Number, IncCounter, Inc;
    if j > 0 {
      CounterNumber(iv, j - 1);
      IncCounterWhole(Counter(iv, j - 1));
      IncNumber(Whole(Counter(iv, j - 1)));
    }
  }

  /** The element of a polynomial: `Value` backwards. */
  function Element(p: Poly): Be128 {
    Be128(seq(64, i requires 0 <= i < 64 => 127 - i in p), seq(64, i requires 0 <= i < 64 => 63 - i in p))
  }

  lemma ElementValue(w: Be128)
    ensures Element(Value(Bbe, w)) == w
  {
    var e := Element(Value(Bbe, w));
    forall i | 0 <= i < 64 ensures e.a[i] == w.a[i] { assert Coef(Bbe, w, 127 - i) == w.a[i]; }
    forall i | 0 <= i < 64 ensures e.b[i] == w.b[i] { assert Coef(Bbe, w, 63 - i) == w.b[i]; }
  }

  ghost function Tweak(iv: Be128, k: Poly, j: nat): Be128 {
    Element(Mul(Value(Bbe, Counter(iv, j)), k))
  }

  lemma ValueElement(p: Poly)
    requires Below(p, 128)
    ensures Value(Bbe, Element(p)) == p
  {
    var e := Element(p);
    forall i: nat | i < 128 ensures Coef(Bbe, e, i) == (i in p) {}
  }

  /** The tweak of block `j` is the field product of its counter and the key. */
  lemma TweakValue(iv: Be128, k: Poly, j: nat)
    requires Below(k, 128)
    ensures Value(Bbe, Tweak(iv, k, j)) == Mul(Value(Bbe, Counter(iv, j)), k)
  {
    hide Mul, Element, Value, Below, Counter;
    MulBelow(Value(Bbe, Counter(iv, j)), k);
    ValueElement(Mul(Value(Bbe, Counter(iv, j)), k));
  }

  /** lrw_round */
  function Round(fn: Be128 -> Be128, t: Be128, src: Be128): Be128 {
    Xor128(fn(Xor128(t, src)), t)
  }

  /** LRW of a whole message whose first block is number `j`. */
  ghost function Spec(fn: Be128 -> Be128, iv: Be128, k: Poly, j: nat, src: seq<Be128>): (dst: seq<Be128>)
    ensures |dst| == |src|
    ensures forall i :: 0 <= i < |src| ==> dst[i] == Round(fn, Tweak(iv, k, j + i), src[i])
  {
    seq(|src|, i requires 0 <= i < |src| => Round(fn, Tweak(iv, k, j + i), src[i]))
  }

  lemma CounterBelowMax(iv: Be128, j: nat)
    requires Number(Whole(iv)) + j + 1 < Pow2(128)
    ensures !AllOnes(Whole(Counter(iv, j)))
  {
    hide Pow2, Number;
    CounterNumber(iv, j);
    IncNumber(Whole(Counter(iv, j)));
  }

  /** The index into the table of increments stays in range for every block after the
      first exactly when the counter does not have to pass 2^128 - 1. */
  lemma IndexInRange(iv: Be128, n: nat)
    requires n > 0
    ensures (forall j: nat {:trigger Counter(iv, j)} :: j + 1 < n ==> TrailingOnes(Whole(Counter(iv, j))) < 128)
            <==> Number(Whole(iv)) + n <= Pow2(128)
  {
    hide Pow2, Number, TrailingOnes, Counter;
    if Number(Whole(iv)) + n <= Pow2(128) {
      forall j: nat | j + 1 < n ensures TrailingOnes(Whole(Counter(iv, j))) < 128 {
        CounterBelowMax(iv, j);
        TrailingAll(Whole(Counter(iv, j)));
      }
    } else {
      var j: nat := Pow2(128) - 1 - Number(Whole(iv));
      CounterNumber(iv, j);
      IncNumber(Whole(Counter(iv, j)));
      TrailingAll(Whole(Counter(iv, j)));
    }
  }

  /** Decryption with the inverse cipher undoes encryption. */
  lemma DecryptUndoes(enc: Be128 -> Be128, dec: Be128 -> Be128, iv: Be128, k: Poly, src: seq<Be128>)
    requires forall x :: dec(enc(x)) == x
    ensures Spec(dec, iv, k, 0, Spec(enc, iv, k, 0, src)) == src
  {
    hide Tweak;
    forall i | 0 <= i < |src| ensures Round(dec, Tweak(iv, k, i), Round(enc, Tweak(iv, k, i), src[i])) == src[i] {
      var t := Tweak(iv, k, i);
      XorTwice(t, enc(Xor128(t, src[i])));
      XorTwice(t, src[i]);
    }
  }

  lemma XorTwice(t: Be128, x: Be128)
    ensures Xor128(t, Xor128(x, t)) == x && Xor128(Xor128(t, x), t) == x
  {
    assert Xor(t.a, Xor(x.a, t.a)) == x.a && Xor(t.b, Xor(x.b, t.b)) == x.b;
    assert Xor(Xor(t.a, x.a), t.a) == x.a && Xor(Xor(t.b, x.b), t.b) == x.b;
  }
}
