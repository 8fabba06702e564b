/**
 The functions of Camellia as section 2.4 of RFC 3713 defines them, for any four
 S-boxes, and what the macros and the combined tables of the code compute.
 */
module CamelliaRfc {
  import opened Words
  import C = Camellia

  datatype Boxes = Boxes(s1: Byte -> Byte, s2: Byte -> Byte, s3: Byte -> Byte, s4: Byte -> Byte)

  /** Rotation to the left by one bit. */
  function Rol1(x: U32): U32 { x[1..] + x[..1] }

  function Sum3(a: Byte, b: Byte, c: Byte): Byte { Xor(Xor(a, b), c) }

  function Sum5(a: Byte, b: Byte, c: Byte, d: Byte, e: Byte): Byte { Xor(Xor(Sum3(a, b, c), d), e) }

  function Sum6(a: Byte, b: Byte, c: Byte, d: Byte, e: Byte, f: Byte): Byte { Xor(Sum5(a, b, c, d, e), f) }

  /** Section 2.4.1 */
  function F(s: Boxes, fin: U64, ke: U64): U64 {
    var x: U64 := Xor(fin, ke);
    var t1, t2, t3, t4 := s.s1(x[..8]), s.s2(x[8..16]), s.s3(x[16..24]), s.s4(x[24..32]);
    var t5, t6, t7, t8 := s.s2(x[32..40]), s.s3(x[40..48]), s.s4(x[48..56]), s.s1(x[56..]);
    Mix(t1, t2, t3, t4, t5, t6, t7, t8)
  }

  function Mix(t1: Byte, t2: Byte, t3: Byte, t4: Byte, t5: Byte, t6: Byte, t7: Byte, t8: Byte): U64 {
    var y1 := Sum6(t1, t3, t4, t6, t7, t8);
    var y2 := Sum6(t1, t2, t4, t5, t7, t8);
    var y3 := Sum6(t1, t2, t3, t5, t6, t8);
    var y4 := Sum6(t2, t3, t4, t5, t6, t7);
    var y5 := Sum5(t1, t2, t6, t7, t8);
    var y6 := Sum5(t2, t3, t5, t7, t8);
    var y7 := Sum5(t3, t4, t5, t6, t8);
    var y8 := Sum5(t1, t4, t5, t6, t7);
    y1 + y2 + y3 + y4 + y5 + y6 + y7 + y8
  }

  /** Section 2.4.2 */
  function Fl(x: U64, ke: U64): U64 {
    var x1, x2, k1, k2 := x[..32], x[32..], ke[..32], ke[32..];
    var x2 := Xor(x2, Rol1(And(x1, k1)));
    var x1 := Xor(x1, Or(x2, k2));
    x1 + x2
  }

  /** Section 2.4.3 */
  function FlInv(y: U64, ke: U64): U64 {
    var y1, y2, k1, k2 := y[..32], y[32..], ke[..32], ke[32..];
    var y1 := Xor(y1, Or(y2, k2));
    var y2 := Xor(y2, Rol1(And(y1, k1)));
    y1 + y2
  }

  // The macros

  /** CAMELLIA_RL1, CAMELLIA_RL8 and CAMELLIA_RR8 rotate. */
  lemma RotationsAre(x: U32)
    ensures C.Rl1(x) == Rol1(x) && C.Rl8(x) == x[8..] + x[..8] && C.Rr8(x) == x[24..] + x[..24]
  {}

  lemma AndSwap(x: U32, y: U32)
    ensures And(x, y) == And(y, x) && Or(x, y) == Or(y, x)
  {}

  /** CAMELLIA_FLS is FL on the left and FLinv on the right. */
  lemma FlIs(x: U64, k: U64)
    ensures C.Fl(x, k) == Fl(x, k) && C.FlInv(x, k) == FlInv(x, k)
  {
    hide C.Rl1, Rol1;
    AndSwap(x[..32], k[..32]);
    RotationsAre(And(x[..32], k[..32]));
    var r := Xor(x[32..], Rol1(And(x[..32], k[..32])));
    AndSwap(r, k[32..]);
    AndSwap(x[32..], k[32..]);
    var l := Xor(x[..32], Or(x[32..], k[32..]));
    AndSwap(l, k[..32]);
    RotationsAre(And(l, k[..32]));
  }

  function Word(a: Byte, b: Byte, c: Byte, d: Byte): U32 { a + b + c + d }

  /** The combined tables: the output byte of an S-box at the places where the P-function adds it. */
  ghost predicate Combined(t: C.Tables, s: Boxes) {
    && (forall x: Byte :: t.sp1110(x) == Word(s.s1(x), s.s1(x), s.s1(x), Zeros(8)))
    && (forall x: Byte :: t.sp0222(x) == Word(Zeros(8), s.s2(x), s.s2(x), s.s2(x)))
    && (forall x: Byte :: t.sp3033(x) == Word(s.s3(x), Zeros(8), s.s3(x), s.s3(x)))
    && (forall x: Byte :: t.sp4404(x) == Word(s.s4(x), s.s4(x), Zeros(8), s.s4(x)))
  }

  lemma XorWord(a: Byte, b: Byte, c: Byte, d: Byte, a': Byte, b': Byte, c': Byte, d': Byte)
    ensures Xor(Word(a, b, c, d), Word(a', b', c', d')) == Word(Xor(a, a'), Xor(b, b'), Xor(c, c'), Xor(d, d'))
  {}

  lemma RotateWord(a: Byte, b: Byte, c: Byte, d: Byte)
    ensures C.Rr8(Word(a, b, c, d)) == Word(d, a, b, c)
  {
    RotationsAre(Word(a, b, c, d));
  }

  lemma DropZero(x: Byte)
    ensures Xor(x, Zeros(8)) == x == Xor(Zeros(8), x)
  {}

  /** Four table entries, with box outputs `a` for sp1110, `b` for sp0222, `c` for sp3033 and `d` for sp4404. */
  lemma FourEntries(a: Byte, b: Byte, c: Byte, d: Byte)
    ensures var z: Byte := Zeros(8);
      Xor(Xor(Word(a, a, a, z), Word(z, b, b, b)), Xor(Word(c, z, c, c), Word(d, d, z, d)))
      == Word(Sum3(a, c, d), Sum3(a, b, d), Sum3(a, b, c), Sum3(b, c, d))
  {
    hide Word, Xor;
    var z: Byte := Zeros(8);
    XorWord(a, a, a, z, z, b, b, b);
    XorWord(c, z, c, c, d, d, z, d);
    DropZero(a);
    DropZero(b);
    DropZero(c);
    DropZero(d);
    XorWord(a, Xor(a, b), Xor(a, b), b, Xor(c, d), d, c, Xor(c, d));
    XorAssoc(a, c, d);
    XorAssoc(b, c, d);
  }

  lemma LookupsAre(t: C.Tables, s: Boxes, x: U32)
    requires Combined(t, s)
    ensures var a, b, c, d := s.s1(x[..8]), s.s2(x[8..16]), s.s3(x[16..24]), s.s4(x[24..]);
      C.LookupLeft(t, x) == Word(Sum3(a, c, d), Sum3(a, b, d), Sum3(a, b, c), Sum3(b, c, d))
    ensures var a, b, c, d := s.s1(x[24..]), s.s2(x[..8]), s.s3(x[8..16]), s.s4(x[16..24]);
      C.LookupRight(t, x) == Word(Sum3(a, c, d), Sum3(a, b, d), Sum3(a, b, c), Sum3(b, c, d))
  {
    hide Word, Sum3;
    var x0: Byte, x1: Byte, x2: Byte, x3: Byte := x[..8], x[8..16], x[16..24], x[24..];
    FourEntries(s.s1(x0), s.s2(x1), s.s3(x2), s.s4(x3));
    FourEntries(s.s1(x3), s.s2(x0), s.s3(x1), s.s4(x2));
    assert C.ByteAt(x, 0) == x0 && C.ByteAt(x, 1) == x1 && C.ByteAt(x, 2) == x2 && C.ByteAt(x, 3) == x3;
  }

  lemma SixOf(a: Byte, b: Byte, c: Byte, d: Byte, e: Byte, f: Byte)
    ensures Xor(Sum3(f, d, e), Sum3(a, b, c)) == Sum6(a, b, c, d, e, f)
    ensures Xor(Sum3(d, e, f), Sum3(a, b, c)) == Sum6(a, b, c, d, e, f)
  {
    forall i | 0 <= i < 8
      ensures Xor(Sum3(f, d, e), Sum3(a, b, c))[i] == Sum6(a, b, c, d, e, f)[i]
      ensures Xor(Sum3(d, e, f), Sum3(a, b, c))[i] == Sum6(a, b, c, d, e, f)[i]
    {}
  }

  /** Adding bytes of which two cancel. */
  lemma FiveOf(a: Byte, b: Byte, c: Byte, d: Byte, e: Byte, f: Byte, g: Byte)
    ensures Xor(Sum3(a, b, c), Sum6(d, b, c, e, f, g)) == Sum5(d, a, e, f, g)
    ensures Xor(Sum3(a, b, c), Sum6(a, d, c, e, f, g)) == Sum5(d, b, e, f, g)
    ensures Xor(Sum3(a, b, c), Sum6(a, b, d, e, f, g)) == Sum5(d, c, e, f, g)
    ensures Xor(Sum3(a, b, c), Sum6(b, c, d, e, f, g)) == Sum5(a, d, e, f, g)
  {
    forall i | 0 <= i < 8
      ensures Xor(Sum3(a, b, c), Sum6(d, b, c, e, f, g))[i] == Sum5(d, a, e, f, g)[i]
      ensures Xor(Sum3(a, b, c), Sum6(a, d, c, e, f, g))[i] == Sum5(d, b, e, f, g)[i]
      ensures Xor(Sum3(a, b, c), Sum6(a, b, d, e, f, g))[i] == Sum5(d, c, e, f, g)[i]
      ensures Xor(Sum3(a, b, c), Sum6(b, c, d, e, f, g))[i] == Sum5(a, d, e, f, g)[i]
    {}
  }

  /** The two words of the code's P-function, from those of the look-ups. */
  lemma MixIs(t1: Byte, t2: Byte, t3: Byte, t4: Byte, t5: Byte, t6: Byte, t7: Byte, t8: Byte, l: U32, r: U32)
    requires l == Word(Sum3(t1, t3, t4), Sum3(t1, t2, t4), Sum3(t1, t2, t3), Sum3(t2, t3, t4))
    requires r == Word(Sum3(t8, t6, t7), Sum3(t8, t5, t7), Sum3(t8, t5, t6), Sum3(t5, t6, t7))
    ensures C.Join(Xor(r, l), Xor(C.Rr8(l), Xor(r, l))) == Mix(t1, t2, t3, t4, t5, t6, t7, t8)
  {
    hide Word, Xor, Sum3, Sum5, Sum6, C.Rr8;
    var y1, y2 := Sum6(t1, t3, t4, t6, t7, t8), Sum6(t1, t2, t4, t5, t7, t8);
    var y3, y4 := Sum6(t1, t2, t3, t5, t6, t8), Sum6(t2, t3, t4, t5, t6, t7);
    XorWord(Sum3(t8, t6, t7), Sum3(t8, t5, t7), Sum3(t8, t5, t6), Sum3(t5, t6, t7),
            Sum3(t1, t3, t4), Sum3(t1, t2, t4), Sum3(t1, t2, t3), Sum3(t2, t3, t4));
    SixOf(t1, t3, t4, t6, t7, t8);
    SixOf(t1, t2, t4, t5, t7, t8);
    SixOf(t1, t2, t3, t5, t6, t8);
    SixOf(t2, t3, t4, t5, t6, t7);
    RotateWord(Sum3(t1, t3, t4), Sum3(t1, t2, t4), Sum3(t1, t2, t3), Sum3(t2, t3, t4));
    XorWord(Sum3(t2, t3, t4), Sum3(t1, t3, t4), Sum3(t1, t2, t4), Sum3(t1, t2, t3), y1, y2, y3, y4);
    FiveOf(t2, t3, t4, t1, t6, t7, t8);
    FiveOf(t1, t3, t4, t2, t5, t7, t8);
    FiveOf(t1, t2, t4, t3, t5, t6, t8);
    FiveOf(t1, t2, t3, t4, t5, t6, t7);
    Bytes8(y1, y2, y3, y4, Sum5(t1, t2, t6, t7, t8), Sum5(t2, t3, t5, t7, t8), Sum5(t3, t4, t5, t6, t8),
           Sum5(t1, t4, t5, t6, t7));
  }

  lemma Bytes8(a: Byte, b: Byte, c: Byte, d: Byte, e: Byte, f: Byte, g: Byte, h: Byte)
    ensures Word(a, b, c, d) + Word(e, f, g, h) == a + b + c + d + e + f + g + h
  {}

  /** CAMELLIA_F is the F-function, for tables that combine the S-boxes. */
  lemma FIs(t: C.Tables, s: Boxes, x: U64, k: U64)
    requires Combined(t, s)
    ensures C.F(t, x, k) == F(s, x, k)
  {
    hide C.LookupLeft, C.LookupRight, C.Rr8, Combined, Mix, Sum3;
    var y: U64 := Xor(x, k);
    var il, ir := Xor(C.Left(x), C.Left(k)), Xor(C.Right(x), C.Right(k));
    assert il == y[..32] && ir == y[32..];
    Slices(y);
    LookupsAre(t, s, il);
    LookupsAre(t, s, ir);
    MixIs(s.s1(y[..8]), s.s2(y[8..16]), s.s3(y[16..24]), s.s4(y[24..32]),
          s.s2(y[32..40]), s.s3(y[40..48]), s.s4(y[48..56]), s.s1(y[56..]), C.LookupLeft(t, il), C.LookupRight(t, ir));
  }

  lemma Slices(y: U64)
    ensures var l, r := y[..32], y[32..];
      && l[..8] == y[..8] && l[8..16] == y[8..16] && l[16..24] == y[16..24] && l[24..] == y[24..32]
      && r[..8] == y[32..40] && r[8..16] == y[40..48] && r[16..24] == y[48..56] && r[24..] == y[56..]
  {}
}
