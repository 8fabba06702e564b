/**
 Camellia as the code runs it: a key schedule that folds the whitening keys and
 the round keys into subkeys added at the end of each round, and the rounds
 that use them. `n` is the number of six-round groups, 3 for 128-bit keys and 4
 for longer ones; the code writes the groups out one after the other.
 */
module Camellia {
  import opened Words

  /** The combined S-box and P-function tables camellia_sp1110 and its siblings. */
  datatype Tables = Tables(sp1110: Byte -> U32, sp0222: Byte -> U32, sp3033: Byte -> U32, sp4404: Byte -> U32)

  function Left(x: U64): U32 { x[..32] }

  function Right(x: U64): U32 { x[32..] }

  function Join(l: U32, r: U32): U64 { l + r }

  // In the rotations the two parts do not overlap, so the code's `+` is an `or`.

  /** CAMELLIA_RR8 */
  function Rr8(x: U32): U32 { Or(Shr(x, 8), Shl(x, 24)) }

  /** CAMELLIA_RL8 */
  function Rl8(x: U32): U32 { Or(Shl(x, 8), Shr(x, 24)) }

  /** CAMELLIA_RL1 */
  function Rl1(x: U32): U32 { Or(Shl(x, 1), Shr(x, 31)) }

  /** Byte `j` of a word, most significant first. */
  function ByteAt(x: U32, j: nat): Byte
    requires j < 4
  {
    x[8 * j..8 * j + 8]
  }

  /** The table look-ups for the right and for the left half of an input. */
  function LookupRight(t: Tables, x: U32): U32 {
    Xor(Xor(t.sp1110(ByteAt(x, 3)), t.sp0222(ByteAt(x, 0))), Xor(t.sp3033(ByteAt(x, 1)), t.sp4404(ByteAt(x, 2))))
  }

  function LookupLeft(t: Tables, x: U32): U32 {
    Xor(Xor(t.sp1110(ByteAt(x, 0)), t.sp0222(ByteAt(x, 1))), Xor(t.sp3033(ByteAt(x, 2)), t.sp4404(ByteAt(x, 3))))
  }

  /** CAMELLIA_F: the key is added at the front. */
  function F(t: Tables, x: U64, k: U64): U64 {
    var il := Xor(Left(x), Left(k));
    var ir := Xor(Right(x), Right(k));
    var yr := LookupLeft(t, il);
    var yl := Xor(LookupRight(t, ir), yr);
    Join(yl, Xor(Rr8(yr), yl))
  }

  /** CAMELLIA_ROUNDSM: the key is added at the end, and the result to `y`. */
  function RoundSm(t: Tables, x: U64, k: U64, y: U64): U64 {
    var il := Xor(LookupLeft(t, Left(x)), Left(k));
    var ir := Xor(LookupRight(t, Right(x)), Xor(il, Right(k)));
    Join(Xor(Left(y), ir), Xor(Right(y), Xor(Rr8(il), ir)))
  }

  /** The left part of CAMELLIA_FLS. */
  function Fl(x: U64, k: U64): U64 {
    var r := Xor(Right(x), Rl1(And(Left(k), Left(x))));
    Join(Xor(Left(x), Or(Right(k), r)), r)
  }

  /** The right part of CAMELLIA_FLS. */
  function FlInv(x: U64, k: U64): U64 {
    var l := Xor(Left(x), Or(Right(k), Right(x)));
    Join(l, Xor(Right(x), Rl1(And(Left(k), l))))
  }

  /** How the schedule carries a key through FL backwards and FLinv forwards. */
  function Carry(d: U64, k: U64): U64 {
    var l := Xor(Left(d), And(Right(d), Not(Right(k))));
    Join(l, Xor(Right(d), Rl1(And(l, Left(k)))))
  }

  /** The inverse of the last half of the P-function, applied to a round's key. */
  function Unfold(k: U64): U64 {
    var dw := Rl8(Xor(Left(k), Right(k)));
    Join(dw, Xor(Left(k), dw))
  }

  // What the pieces do to an added key

  lemma RotateIsLinear(x: U32, y: U32)
    ensures Rl1(Xor(x, y)) == Xor(Rl1(x), Rl1(y)) && Rr8(Xor(x, y)) == Xor(Rr8(x), Rr8(y))
  {}

  lemma RotateInverse(x: U32)
    ensures Rr8(Rl8(x)) == x
  {}

  /** A round with an unfolded key is F without key, plus that key. */
  lemma RoundIsF(t: Tables, x: U64, k: U64, y: U64)
    ensures RoundSm(t, x, Unfold(k), y) == Xor(Xor(y, F(t, x, Zeros(64))), k)
  {
    hide LookupLeft, LookupRight, Rr8, Rl8;
    var a, b := LookupLeft(t, Left(x)), LookupRight(t, Right(x));
    var dw := Rl8(Xor(Left(k), Right(k)));
    RotateIsLinear(a, dw);
    RotateInverse(Xor(Left(k), Right(k)));
    assert Xor(Left(x), Left(Zeros(64))) == Left(x) && Xor(Right(x), Right(Zeros(64))) == Right(x);
    assert Left(Unfold(k)) == dw && Right(Unfold(k)) == Xor(Left(k), dw);
  }

  lemma FKey(t: Tables, x: U64, k: U64)
    ensures F(t, Xor(x, k), Zeros(64)) == F(t, x, k)
  {
    hide LookupLeft, LookupRight, Rr8;
    assert Xor(Left(Xor(x, k)), Left(Zeros(64))) == Xor(Left(x), Left(k));
    assert Xor(Right(Xor(x, k)), Right(Zeros(64))) == Xor(Right(x), Right(k));
  }

  /** Adding a key before FLinv is adding its carried form after it, and so for FL run backwards. */
  lemma CarryThroughFlInv(x: U64, d: U64, k: U64)
    ensures FlInv(Xor(x, d), k) == Xor(FlInv(x, k), Carry(d, k))
  {
    hide Rl1;
    var l := Xor(Left(x), Or(Right(k), Right(x)));
    var dl := Xor(Left(d), And(Right(d), Not(Right(k))));
    assert Xor(Left(Xor(x, d)), Or(Right(k), Right(Xor(x, d)))) == Xor(l, dl);
    assert And(Left(k), Xor(l, dl)) == Xor(And(Left(k), l), And(dl, Left(k)));
    RotateIsLinear(And(Left(k), l), And(dl, Left(k)));
  }

  lemma FlInverse(x: U64, k: U64)
    ensures Fl(FlInv(x, k), k) == x && FlInv(Fl(x, k), k) == x
  {
    hide Rl1;
    var l := Left(FlInv(x, k));
    assert Xor(Right(FlInv(x, k)), Rl1(And(Left(k), l))) == Right(x);
    assert Xor(l, Or(Right(k), Right(x))) == Left(x);
    var r := Right(Fl(x, k));
    assert Xor(Left(Fl(x, k)), Or(Right(k), r)) == Left(x);
    assert Xor(r, Rl1(And(Left(k), Left(x)))) == Right(x);
    assert Left(x) + Right(x) == x;
  }

  /** What enters FL with the carried form of `d` added leaves it with `d` added. */
  lemma CarryThroughFl(x: U64, d: U64, k: U64)
    ensures Fl(Xor(x, Carry(d, k)), k) == Xor(Fl(x, k), d)
  {
    hide Fl, FlInv, Carry;
    var y := Fl(x, k);
    FlInverse(x, k);
    CarryThroughFlInv(y, d, k);
    FlInverse(Xor(y, d), k);
  }

  lemma CarryIsLinear(x: U64, y: U64, k: U64)
    ensures Carry(Xor(x, y), k) == Xor(Carry(x, k), Carry(y, k))
  {
    hide FlInv, Carry;
    var z := Zeros(64);
    CarryThroughFlInv(z, Xor(x, y), k);
    CarryThroughFlInv(z, x, k);
    CarryThroughFlInv(Xor(z, x), y, k);
    XorAssoc(z, x, y);
    XorCancel(FlInv(z, k), Carry(Xor(x, y), k), Xor(Carry(x, k), Carry(y, k)));
    XorAssoc(FlInv(z, k), Carry(x, k), Carry(y, k));
  }

  lemma XorCancel(x: Bits, y: Bits, z: Bits)
    requires |x| == |y| == |z|
    ensures Xor(x, y) == Xor(x, z) <==> y == z
  {
    assert y == Xor(x, Xor(x, y));
    assert z == Xor(x, Xor(x, z));
  }
}
