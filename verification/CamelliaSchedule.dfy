/**
 The key schedule that moves every key addition to the end of a round, and the
 proof that the cipher run with it is Camellia as section 2 of RFC 3713 defines
 it. A table `k` of subkeys holds kw1, kw2 at 0 and 1; group `g` has its six
 round keys at 8g+2 .. 8g+7 and the keys of the FL layer after it at 8g+8 and
 8g+9; kw3 and kw4 close the table at 8n and 8n+1.
 */
module CamelliaSchedule {
  import opened Words
  import opened Camellia
  import R = CamelliaRfc

  datatype Block = Block(l: U64, r: U64)

  /** Key addition. */
  function Add(x: U64, y: U64): U64 { Xor(x, y) }

  lemma AddTwice(x: U64, y: U64, z: U64)
    ensures Add(Add(x, y), y) == x
    ensures Add(x, Add(y, z)) == Add(Add(x, y), z)
    ensures Add(Add(x, y), Add(z, y)) == Add(x, z)
  {}

  predicate Table(k: seq<U64>, n: nat) { n > 0 && |k| == 8 * n + 2 }

  // The reference, on the functions of the RFC: the round key is added at the front of F

  function PlainGroup(b: R.Boxes, k: seq<U64>, g: nat, x: Block): Block
    requires 8 * g + 7 < |k|
  {
    var r := Add(x.r, R.F(b, x.l, k[8 * g + 2]));
    var l := Add(x.l, R.F(b, r, k[8 * g + 3]));
    var r := Add(r, R.F(b, l, k[8 * g + 4]));
    var l := Add(l, R.F(b, r, k[8 * g + 5]));
    var r := Add(r, R.F(b, l, k[8 * g + 6]));
    var l := Add(l, R.F(b, r, k[8 * g + 7]));
    Block(l, r)
  }

  function PlainLayer(x: Block, kl: U64, kr: U64): Block { Block(R.Fl(x.l, kl), R.FlInv(x.r, kr)) }

  /** The block before group `g`. */
  function PlainBefore(b: R.Boxes, k: seq<U64>, g: nat, x: Block): Block
    requires 8 * g + 1 < |k|
  {
    if g == 0 then Block(Add(x.l, k[0]), Add(x.r, k[1]))
    else PlainLayer(PlainGroup(b, k, g - 1, PlainBefore(b, k, g - 1, x)), k[8 * g], k[8 * g + 1])
  }

  /** Section 2.3 of RFC 3713. */
  function Plain(b: R.Boxes, k: seq<U64>, n: nat, x: Block): Block
    requires Table(k, n)
  {
    var y := PlainGroup(b, k, n - 1, PlainBefore(b, k, n - 1, x));
    Block(Add(y.r, k[8 * n]), Add(y.l, k[8 * n + 1]))
  }

  // The cipher as the code runs it

  /** CAMELLIA_FLS */
  function Layer(x: Block, kl: U64, kr: U64): Block { Block(Fl(x.l, kl), FlInv(x.r, kr)) }

  function FastGroup(t: Tables, s: seq<U64>, g: nat, x: Block): Block
    requires 8 * g + 7 < |s|
  {
    var r := RoundSm(t, x.l, s[8 * g + 2], x.r);
    var l := RoundSm(t, r, s[8 * g + 3], x.l);
    var r := RoundSm(t, l, s[8 * g + 4], r);
    var l := RoundSm(t, r, s[8 * g + 5], l);
    var r := RoundSm(t, l, s[8 * g + 6], r);
    var l := RoundSm(t, r, s[8 * g + 7], l);
    Block(l, r)
  }

  function FastBefore(t: Tables, s: seq<U64>, g: nat, x: Block): Block
    requires 8 * g + 1 < |s|
  {
    if g == 0 then Block(Add(x.l, s[0]), x.r)
    else Layer(FastGroup(t, s, g - 1, FastBefore(t, s, g - 1, x)), s[8 * g], s[8 * g + 1])
  }

  function Fast(t: Tables, s: seq<U64>, n: nat, x: Block): Block
    requires n > 0 && |s| > 8 * n
  {
    var y := FastGroup(t, s, n - 1, FastBefore(t, s, n - 1, x));
    Block(Add(y.r, s[8 * n]), y.l)
  }

  // What the schedule has to produce

  /** The key that the register updated in round `j` of group `g` carries when the round starts. */
  function Incoming(k: seq<U64>, g: nat, j: nat): U64
    requires 2 <= j < 8 && 8 * g + j < |k|
  {
    if j > 2 then k[8 * g + j - 1] else if g == 0 then k[1] else Carry(k[8 * g - 1], k[8 * g + 1])
  }

  /** The key that it has to carry when the round ends. */
  function Outgoing(k: seq<U64>, n: nat, g: nat, j: nat): U64
    requires Table(k, n) && g < n && 2 <= j < 8
  {
    if j < 7 then k[8 * g + j + 1] else if g == n - 1 then k[8 * n + 1] else Carry(k[8 * g + 10], k[8 * g + 8])
  }

  ghost predicate RoundKey(k: seq<U64>, n: nat, s: seq<U64>, g: nat, j: nat)
    requires Table(k, n) && |s| > 8 * n && g < n && 2 <= j < 8
  {
    s[8 * g + j] == Unfold(Add(Incoming(k, g, j), Outgoing(k, n, g, j)))
  }

  ghost predicate LayerKeys(k: seq<U64>, s: seq<U64>, g: nat)
    requires 8 * g + 1 < |k| && 8 * g + 1 < |s|
  {
    s[8 * g] == k[8 * g] && s[8 * g + 1] == k[8 * g + 1]
  }

  /** Every round's subkey turns the key its register carries into the next one. */
  ghost predicate Scheduled(k: seq<U64>, n: nat, s: seq<U64>)
    requires Table(k, n)
  {
    && |s| > 8 * n
    && s[0] == Add(k[0], k[2])
    && s[8 * n] == Add(k[8 * n], k[8 * n - 1])
    && (forall g: nat, j: nat {:trigger RoundKey(k, n, s, g, j)} :: g < n && 2 <= j < 8 ==> RoundKey(k, n, s, g, j))
    && (forall g: nat {:trigger LayerKeys(k, s, g)} :: 0 < g < n ==> LayerKeys(k, s, g))
  }

  lemma RoundStep(t: Tables, b: R.Boxes, x: U64, y: U64, ka: U64, kb: U64, kc: U64)
    requires R.Combined(t, b)
    ensures RoundSm(t, Add(x, ka), Unfold(Add(kb, kc)), Add(y, kb)) == Add(Add(y, R.F(b, x, ka)), kc)
  {
    hide RoundSm, F, Unfold, R.F, R.Combined;
    R.FIs(t, b, x, ka);
    RoundIsF(t, Add(x, ka), Add(kb, kc), Add(y, kb));
    FKey(t, x, ka);
    var f := R.F(b, x, ka);
    assert Xor(Xor(Xor(y, kb), f), Xor(kb, kc)) == Xor(Xor(y, f), kc);
  }

  lemma GroupStep(t: Tables, b: R.Boxes, k: seq<U64>, n: nat, s: seq<U64>, g: nat, x: Block)
    requires R.Combined(t, b) && Table(k, n) && Scheduled(k, n, s) && g < n
    ensures
      var y := PlainGroup(b, k, g, x);
      FastGroup(t, s, g, Block(Add(x.l, k[8 * g + 2]), Add(x.r, Incoming(k, g, 2))))
      == Block(Add(y.l, Outgoing(k, n, g, 7)), Add(y.r, k[8 * g + 7]))
  {
    hide RoundSm, F, Unfold, Carry, Add, R.F, R.Combined;
    var o := 8 * g;
    assert RoundKey(k, n, s, g, 2) && RoundKey(k, n, s, g, 3) && RoundKey(k, n, s, g, 4);
    assert RoundKey(k, n, s, g, 5) && RoundKey(k, n, s, g, 6) && RoundKey(k, n, s, g, 7);
    var r0, l0 := x.r, x.l;
    RoundStep(t, b, l0, r0, k[o + 2], Incoming(k, g, 2), k[o + 3]);
    var r1 := Add(r0, R.F(b, l0, k[o + 2]));
    RoundStep(t, b, r1, l0, k[o + 3], k[o + 2], k[o + 4]);
    var l1 := Add(l0, R.F(b, r1, k[o + 3]));
    RoundStep(t, b, l1, r1, k[o + 4], k[o + 3], k[o + 5]);
    var r2 := Add(r1, R.F(b, l1, k[o + 4]));
    RoundStep(t, b, r2, l1, k[o + 5], k[o + 4], k[o + 6]);
    var l2 := Add(l1, R.F(b, r2, k[o + 5]));
    RoundStep(t, b, l2, r2, k[o + 6], k[o + 5], k[o + 7]);
    var r3 := Add(r2, R.F(b, l2, k[o + 6]));
    RoundStep(t, b, r3, l2, k[o + 7], k[o + 6], Outgoing(k, n, g, 7));
  }

  lemma Carried(x: U64, d: U64, k: U64)
    ensures Fl(Add(x, Carry(d, k)), k) == Add(Fl(x, k), d)
    ensures FlInv(Add(x, d), k) == Add(FlInv(x, k), Carry(d, k))
  {
    hide Fl, FlInv, Carry;
    CarryThroughFl(x, d, k);
    CarryThroughFlInv(x, d, k);
  }

  /** Before every group the fast registers are the plain ones plus known keys. */
  lemma {:induction false} Masked(t: Tables, b: R.Boxes, k: seq<U64>, n: nat, s: seq<U64>, g: nat, x: Block)
    requires R.Combined(t, b) && Table(k, n) && Scheduled(k, n, s) && g < n
    ensures
      var y := PlainBefore(b, k, g, x);
      FastBefore(t, s, g, x) == Block(Add(y.l, k[8 * g + 2]), Add(y.r, Incoming(k, g, 2)))
  {
    hide PlainGroup, FastGroup, Fl, FlInv, Carry, RoundKey, Add, R.Fl, R.FlInv, R.Combined;
    if g == 0 {
      AddTwice(x.l, k[0], k[2]);
      AddTwice(x.r, k[1], k[2]);
    } else {
      var y := PlainBefore(b, k, g - 1, x);
      Masked(t, b, k, n, s, g - 1, x);
      GroupStep(t, b, k, n, s, g - 1, y);
      var z := PlainGroup(b, k, g - 1, y);
      Carried(z.l, k[8 * g + 2], k[8 * g]);
      Carried(z.r, k[8 * g - 1], k[8 * g + 1]);
      R.FlIs(z.l, k[8 * g]);
      R.FlIs(z.r, k[8 * g + 1]);
      assert LayerKeys(k, s, g);
    }
  }

  /** The fast cipher is the plain one, for all S-boxes, every key table and every block. */
  lemma FastIsPlain(t: Tables, b: R.Boxes, k: seq<U64>, n: nat, s: seq<U64>, x: Block)
    requires R.Combined(t, b) && Table(k, n) && Scheduled(k, n, s)
    ensures Fast(t, s, n, x) == Plain(b, k, n, x)
  {
    hide PlainGroup, FastGroup, PlainBefore, FastBefore, Add, RoundKey, R.Combined;
    var y := PlainBefore(b, k, n - 1, x);
    Masked(t, b, k, n, s, n - 1, x);
    GroupStep(t, b, k, n, s, n - 1, y);
    var z := PlainGroup(b, k, n - 1, y);
    AddTwice(z.r, k[8 * n - 1], k[8 * n]);
  }

  // Decryption runs the same subkeys backwards

  function FastUngroup(t: Tables, s: seq<U64>, g: nat, x: Block): Block
    requires 8 * g + 7 < |s|
  {
    var r := RoundSm(t, x.l, s[8 * g + 7], x.r);
    var l := RoundSm(t, r, s[8 * g + 6], x.l);
    var r := RoundSm(t, l, s[8 * g + 5], r);
    var l := RoundSm(t, r, s[8 * g + 4], l);
    var r := RoundSm(t, l, s[8 * g + 3], r);
    var l := RoundSm(t, r, s[8 * g + 2], l);
    Block(l, r)
  }

  /** The block after undoing the groups from `n - 1` down to `g`. */
  function FastAfter(t: Tables, s: seq<U64>, n: nat, g: nat, x: Block): Block
    requires g < n && |s| > 8 * n
    decreases n - g
  {
    FastUngroup(t, s, g,
                if g == n - 1 then Block(Add(x.l, s[8 * n]), x.r)
                else Layer(FastAfter(t, s, n, g + 1, x), s[8 * g + 9], s[8 * g + 8]))
  }

  function FastDecrypt(t: Tables, s: seq<U64>, n: nat, x: Block): Block
    requires n > 0 && |s| > 8 * n
  {
    var y := FastAfter(t, s, n, 0, x);
    Block(Add(y.r, s[0]), y.l)
  }

  lemma RoundTwice(t: Tables, x: U64, k: U64, y: U64)
    ensures RoundSm(t, x, k, RoundSm(t, x, k, y)) == y
  {
    hide LookupLeft, LookupRight, Rr8;
    var z := RoundSm(t, x, k, y);
    assert |z| == 64;
    assert Left(y) + Right(y) == y;
    assert Left(RoundSm(t, x, k, z)) == Left(y);
    assert Right(RoundSm(t, x, k, z)) == Right(y);
    assert Left(RoundSm(t, x, k, z)) + Right(RoundSm(t, x, k, z)) == RoundSm(t, x, k, z);
  }

  function Swap(x: Block): Block { Block(x.r, x.l) }

  lemma GroupUndone(t: Tables, s: seq<U64>, g: nat, x: Block)
    requires 8 * g + 7 < |s|
    ensures FastUngroup(t, s, g, Swap(FastGroup(t, s, g, x))) == Swap(x)
  {
    hide RoundSm;
    var b := 8 * g;
    var r1 := RoundSm(t, x.l, s[b + 2], x.r);
    var l1 := RoundSm(t, r1, s[b + 3], x.l);
    var r2 := RoundSm(t, l1, s[b + 4], r1);
    var l2 := RoundSm(t, r2, s[b + 5], l1);
    var r3 := RoundSm(t, l2, s[b + 6], r2);
    RoundTwice(t, r3, s[b + 7], l2);
    RoundTwice(t, l2, s[b + 6], r2);
    RoundTwice(t, r2, s[b + 5], l1);
    RoundTwice(t, l1, s[b + 4], r1);
    RoundTwice(t, r1, s[b + 3], x.l);
    RoundTwice(t, x.l, s[b + 2], x.r);
  }

  lemma {:induction false} Undone(t: Tables, s: seq<U64>, n: nat, g: nat, x: Block)
    requires g < n && |s| > 8 * n
    ensures FastAfter(t, s, n, g, Fast(t, s, n, x)) == Swap(FastBefore(t, s, g, x))
    decreases n - g
  {
    hide FastGroup, FastUngroup, Fl, FlInv, Add;
    var y := FastBefore(t, s, g, x);
    GroupUndone(t, s, g, y);
    var z := FastGroup(t, s, g, y);
    if g == n - 1 {
      AddTwice(z.r, s[8 * n], z.r);
    } else {
      Undone(t, s, n, g + 1, x);
      FlInverse(z.l, s[8 * g + 8]);
      FlInverse(z.r, s[8 * g + 9]);
    }
  }

  /** Decryption undoes encryption, whatever the subkeys are. */
  lemma DecryptUndoes(t: Tables, s: seq<U64>, n: nat, x: Block)
    requires n > 0 && |s| > 8 * n
    ensures FastDecrypt(t, s, n, Fast(t, s, n, x)) == x
  {
    hide FastAfter, Fast, Add;
    Undone(t, s, n, 0, x);
    AddTwice(x.l, s[0], x.l);
  }

  lemma UngroupUndone(t: Tables, s: seq<U64>, g: nat, x: Block)
    requires 8 * g + 7 < |s|
    ensures FastGroup(t, s, g, Swap(FastUngroup(t, s, g, x))) == Swap(x)
  {
    hide RoundSm;
    var b := 8 * g;
    var r1 := RoundSm(t, x.l, s[b + 7], x.r);
    var l1 := RoundSm(t, r1, s[b + 6], x.l);
    var r2 := RoundSm(t, l1, s[b + 5], r1);
    var l2 := RoundSm(t, r2, s[b + 4], l1);
    var r3 := RoundSm(t, l2, s[b + 3], r2);
    RoundTwice(t, r3, s[b + 2], l2);
    RoundTwice(t, l2, s[b + 3], r2);
    RoundTwice(t, r2, s[b + 4], l1);
    RoundTwice(t, l1, s[b + 5], r1);
    RoundTwice(t, r1, s[b + 6], x.l);
    RoundTwice(t, x.l, s[b + 7], x.r);
  }

  lemma {:induction false} Redone(t: Tables, s: seq<U64>, n: nat, g: nat, x: Block)
    requires g < n && |s| > 8 * n
    ensures FastGroup(t, s, g, FastBefore(t, s, g, FastDecrypt(t, s, n, x)))
         == if g == n - 1 then Block(x.r, Add(x.l, s[8 * n]))
            else Swap(Layer(FastAfter(t, s, n, g + 1, x), s[8 * g + 9], s[8 * g + 8]))
  {
    hide FastGroup, FastUngroup, Fl, FlInv, Add;
    var z := if g == n - 1 then Block(Add(x.l, s[8 * n]), x.r)
             else Layer(FastAfter(t, s, n, g + 1, x), s[8 * g + 9], s[8 * g + 8]);
    UngroupUndone(t, s, g, z);
    if g == 0 {
      AddTwice(FastAfter(t, s, n, 0, x).r, s[0], x.l);
    } else {
      Redone(t, s, n, g - 1, x);
      var a := FastAfter(t, s, n, g, x);
      FlInverse(a.r, s[8 * g]);
      FlInverse(a.l, s[8 * g + 1]);
    }
  }

  /** And encryption undoes decryption. */
  lemma EncryptUndoes(t: Tables, s: seq<U64>, n: nat, x: Block)
    requires n > 0 && |s| > 8 * n
    ensures Fast(t, s, n, FastDecrypt(t, s, n, x)) == x
  {
    hide FastDecrypt, FastBefore, FastGroup, Add;
    Redone(t, s, n, n - 1, x);
    AddTwice(x.l, s[8 * n], x.l);
  }
}
