/**
 Polynomials over GF(2), as sets of exponents, and their arithmetic modulo
 x^128 + x^7 + x^2 + x + 1: the reference for multiplication in GF(2^128).
 */
module Poly {

  type Poly = set<nat>

  const Modulus: Poly := {128, 7, 2, 1, 0}

  ghost predicate Below(p: Poly, n: nat) {
    forall i :: i in p ==> i < n
  }

  function Add(p: Poly, q: Poly): Poly {
    (p - q) + (q - p)
  }

  function Shift(p: Poly, k: nat): (r: Poly)
    ensures forall i :: i in r <==> i >= k && i - k in p
  {
    set i | i in p :: i + k
  }

  /** The schoolbook product, taking the terms of `p` below `n`. */
  function Times(p: Poly, q: Poly, n: nat): Poly {
    if n == 0 then {}
    else if n - 1 in p then Add(Times(p, q, n - 1), Shift(q, n - 1))
    else Times(p, q, n - 1)
  }

  /** Polynomial division: cancel the terms of degree `n` down to 128. */
  function Reduce(p: Poly, n: nat): Poly
    decreases n
  {
    if n < 128 then p
    else if n in p then Reduce(Add(p, Shift(Modulus, n - 128)), n - 1)
    else Reduce(p, n - 1)
  }

  /** Multiplication in GF(2^128). */
  function Mul(p: Poly, q: Poly): Poly {
    Reduce(Times(p, q, 128), 254)
  }

  function TimesX(p: Poly): Poly {
    Reduce(Shift(p, 1), 128)
  }

  function TimesXN(p: Poly, k: nat): Poly {
    if k == 0 then p else TimesX(TimesXN(p, k - 1))
  }

  lemma {:induction false} ReduceBelow(p: Poly, n: nat)
    requires Below(p, n + 1)
    ensures Below(Reduce(p, n), 128)
    decreases n
  {
    if n >= 128 {
      ReduceBelow(if n in p then Add(p, Shift(Modulus, n - 128)) else p, n - 1);
    }
  }

  lemma {:induction false} ReduceAdd(p: Poly, q: Poly, n: nat)
    ensures Reduce(Add(p, q), n) == Add(Reduce(p, n), Reduce(q, n))
    decreases n
  {
    if n >= 128 {
      var m := Shift(Modulus, n - 128);
      var p' := if n in p then Add(p, m) else p;
      var q' := if n in q then Add(q, m) else q;
      assert Add(p', q') == if n in Add(p, q) then Add(Add(p, q), m) else Add(p, q);
      ReduceAdd(p', q', n - 1);
    }
  }

  /** Reducing from a higher degree than necessary changes nothing. */
  lemma {:induction false} ReduceSkip(p: Poly, m: nat, n: nat)
    requires Below(p, m + 1) && m <= n
    ensures Reduce(p, n) == Reduce(p, m)
    decreases n
  {
    if m < n && n >= 128 {
      ReduceSkip(p, m, n - 1);
    }
  }

  lemma ShiftAdd(p: Poly, q: Poly, k: nat)
    ensures Shift(Add(p, q), k) == Add(Shift(p, k), Shift(q, k))
  {}

  lemma ShiftShift(p: Poly, j: nat, k: nat)
    ensures Shift(Shift(p, j), k) == Shift(p, j + k)
  {}

  /** Multiplying by x before or after reducing gives the same residue. */
  lemma {:induction false} ReduceShift(p: Poly, n: nat)
    requires n >= 127 && Below(p, n + 1)
    ensures Reduce(Shift(p, 1), n + 1) == TimesX(Reduce(p, n))
    decreases n
  {
    if n >= 128 {
      var p' := if n in p then Add(p, Shift(Modulus, n - 128)) else p;
      ShiftAdd(p, Shift(Modulus, n - 128), 1);
      ShiftShift(Modulus, n - 128, 1);
      ReduceShift(p', n - 1);
    }
  }

  lemma {:induction false} TimesAdd(p: Poly, p': Poly, q: Poly, n: nat)
    ensures Times(Add(p, p'), q, n) == Add(Times(p, q, n), Times(p', q, n))
  {
    if n > 0 { TimesAdd(p, p', q, n - 1); }
  }

  lemma {:induction false} TimesShift(p: Poly, q: Poly, n: nat)
    ensures Times(Shift(p, 1), q, n + 1) == Shift(Times(p, q, n), 1)
  {
    if n == 0 {
      assert Times(Shift(p, 1), q, 1) == Times(Shift(p, 1), q, 0);
    } else {
      TimesShift(p, q, n - 1);
      if n - 1 in p {
        ShiftShift(q, n - 1, 1);
        ShiftAdd(Times(p, q, n - 1), Shift(q, n - 1), 1);
        assert Times(p, q, n) == Add(Times(p, q, n - 1), Shift(q, n - 1));
      }
    }
  }

  lemma {:induction false} TimesSkip(p: Poly, q: Poly, m: nat, n: nat)
    requires Below(p, m) && m <= n
    ensures Times(p, q, n) == Times(p, q, m)
    decreases n
  {
    if m < n { TimesSkip(p, q, m, n - 1); }
  }

  lemma MulBelow(p: Poly, q: Poly)
    requires Below(q, 128)
    ensures Below(Mul(p, q), 128)
  {
    TimesTop(p, q);
    ReduceBelow(Times(p, q, 128), 254);
  }

  /** The product of two residues has degree at most 254. */
  lemma TimesTop(p: Poly, q: Poly)
    requires Below(q, 128)
    ensures Below(Times(p, q, 128), 255)
  {
    TimesDegree(p, q, 128);
  }

  lemma {:induction false} TimesDegree(p: Poly, q: Poly, n: nat)
    requires Below(q, 128)
    ensures n > 0 ==> Below(Times(p, q, n), n + 127)
    ensures n == 0 ==> Times(p, q, n) == {}
  {
    if n > 0 { TimesDegree(p, q, n - 1); }
  }

  /** Multiplication distributes over addition. */
  lemma MulAdd(p: Poly, p': Poly, q: Poly)
    ensures Mul(Add(p, p'), q) == Add(Mul(p, q), Mul(p', q))
  {
    TimesAdd(p, p', q, 128);
    ReduceAdd(Times(p, q, 128), Times(p', q, 128), 254);
  }

  /** Multiplication commutes with multiplication by x. */
  lemma MulShift(p: Poly, q: Poly)
    requires Below(p, 127) && Below(q, 128)
    ensures Mul(Shift(p, 1), q) == TimesX(Mul(p, q))
  {
    TimesShift(p, q, 127);
    TimesSkip(p, q, 127, 128);
    TimesDegree(p, q, 127);
    ReduceShift(Times(p, q, 127), 253);
    ReduceSkip(Times(p, q, 127), 253, 254);
  }

  lemma MulOne(q: Poly)
    requires Below(q, 128)
    ensures Mul({0}, q) == q
  {
    TimesSkip({0}, q, 1, 128);
    assert Times({0}, q, 0) == {};
    assert Times({0}, q, 1) == Add({}, Shift(q, 0)) == q;
    ReduceSkip(q, 127, 254);
  }

  lemma {:induction false} MulShiftN(p: Poly, q: Poly, k: nat, m: nat)
    requires Below(p, m) && m + k <= 128 && Below(q, 128)
    ensures Mul(Shift(p, k), q) == TimesXN(Mul(p, q), k)
  {
    if k == 0 {
      assert Shift(p, 0) == p;
    } else {
      MulShiftN(p, q, k - 1, m);
      ShiftShift(p, k - 1, 1);
      MulShift(Shift(p, k - 1), q);
    }
  }

  lemma ReduceNone(p: Poly)
    ensures Reduce(p, 127) == p
  {}

  lemma ReduceShiftStep(p: Poly, k: nat)
    requires Below(p, 128)
    ensures Reduce(Shift(p, k + 1), 128 + k) == TimesX(Reduce(Shift(p, k), 127 + k))
  {
    ShiftShift(p, k, 1);
    ReduceShift(Shift(p, k), 127 + k);
  }

  /** Reducing once at the end is the same as reducing after every multiplication by x. */
  lemma {:induction false} ReduceShiftN(p: Poly, k: nat)
    requires Below(p, 128)
    ensures Reduce(Shift(p, k), 127 + k) == TimesXN(p, k)
  {
    hide Reduce, TimesX;
    if k == 0 {
      assert Shift(p, 0) == p;
      ReduceNone(p);
    } else {
      ReduceShiftN(p, k - 1);
      ReduceShiftStep(p, k - 1);
    }
  }

  lemma MulZero(q: Poly)
    ensures Mul({}, q) == {}
  {
    TimesSkip({}, q, 0, 128);
    ReduceSkip({}, 0, 254);
  }

  /** Whether the terms of degree 128 to 127 + k feed back into x^i. */
  predicate Feed(p: Poly, k: nat, i: nat) {
    k > 0 && Feed(p, k - 1, i) != (127 + k in p && (i == k - 1 || i == k || i == k + 1 || i == k + 6))
  }

  lemma {:induction false} FeedFrame(p: Poly, p': Poly, k: nat, i: nat)
    requires forall j :: 128 <= j < 128 + k ==> (j in p <==> j in p')
    ensures Feed(p, k, i) == Feed(p', k, i)
  {
    if k > 0 { FeedFrame(p, p', k - 1, i); }
  }

  /** Reduction in closed form, when few enough terms are in excess. */
  lemma {:induction false} ReduceMembers(p: Poly, k: nat, i: nat)
    requires k <= 120 && Below(p, 128 + k) && i < 128
    ensures i in Reduce(p, 127 + k) <==> ((i in p) != Feed(p, k, i))
    decreases k
  {
    if k > 0 {
      var m := Shift(Modulus, k - 1);
      var p' := if 127 + k in p then Add(p, m) else p;
      assert forall j :: j in m <==> j == 127 + k || j == k - 1 || j == k || j == k + 1 || j == k + 6;
      FeedFrame(p, p', k - 1, i);
      ReduceMembers(p', k - 1, i);
    }
  }
}
