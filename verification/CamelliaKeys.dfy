/**
 The subkey tables that the two key setups derive from a user key, against the
 tables of section 2.2 of RFC 3713. The rounds with which the setups mix the key
 use the constants SIGMA1 .. SIGMA6, which are parameters here, as the S-boxes are.
 */
module CamelliaKeys {
  import opened Words
  import opened Camellia
  import opened CamelliaSchedule
  import CamelliaSetup
  import R = CamelliaRfc

  /** A key of four words, as one bit string. */
  type U128 = w: Bits | |w| == 128 witness Zeros(128)

  function Hi(x: U128): U64 { x[..64] }

  function Lo(x: U128): U64 { x[64..] }

  function Quad(h: U64, l: U64): U128 { h + l }

  function Rotl(x: U128, n: nat): U128
    requires n <= 128
  {
    x[n..] + x[..n]
  }

  function WordAt(x: U128, i: nat): U32
    requires i < 4
  {
    x[32 * i..32 * i + 32]
  }

  function Spill(x: U32, y: U32, n: nat): U32
    requires n <= 32
  {
    Or(Shl(x, n), Shr(y, 32 - n))
  }

  /** CAMELLIA_ROLDQ */
  function RolDq(x: U128, n: nat): U128
    requires n <= 32
  {
    var ll, lr, rl, rr := WordAt(x, 0), WordAt(x, 1), WordAt(x, 2), WordAt(x, 3);
    Spill(ll, lr, n) + Spill(lr, rl, n) + Spill(rl, rr, n) + Spill(rr, ll, n)
  }

  /** CAMELLIA_ROLDQo32 */
  function RolDqO32(x: U128, n: nat): U128
    requires 32 <= n <= 64
  {
    var ll, lr, rl, rr := WordAt(x, 0), WordAt(x, 1), WordAt(x, 2), WordAt(x, 3);
    Spill(lr, rl, n - 32) + Spill(rl, rr, n - 32) + Spill(rr, ll, n - 32) + Spill(ll, lr, n - 32)
  }

  lemma SpillIsSlice(x: U128, i: nat, j: nat, n: nat)
    requires i < 4 && j == (if i == 3 then 0 else i + 1) && n <= 32
    ensures Spill(WordAt(x, i), WordAt(x, j), n) == (x + x)[32 * i + n..32 * i + n + 32]
  {}

  lemma Slices(x: U128, n: nat)
    requires n <= 64
    ensures var y := x + x; y[n..n + 32] + y[n + 32..n + 64] + y[n + 64..n + 96] + y[n + 96..n + 128] == Rotl(x, n)
    ensures n >= 32 ==> (x + x)[n - 32..n] == (x + x)[n + 96..n + 128]
  {}

  /** The word-wise rotations rotate the whole key. */
  lemma RolDqIsRotl(x: U128, n: nat)
    requires n <= 64
    ensures n <= 32 ==> RolDq(x, n) == Rotl(x, n)
    ensures n >= 32 ==> RolDqO32(x, n) == Rotl(x, n)
  {
    hide Spill, WordAt, Rotl;
    Slices(x, n);
    if n <= 32 {
      SpillIsSlice(x, 0, 1, n);
      SpillIsSlice(x, 1, 2, n);
      SpillIsSlice(x, 2, 3, n);
      SpillIsSlice(x, 3, 0, n);
    }
    if n >= 32 {
      SpillIsSlice(x, 0, 1, n - 32);
      SpillIsSlice(x, 1, 2, n - 32);
      SpillIsSlice(x, 2, 3, n - 32);
      SpillIsSlice(x, 3, 0, n - 32);
    }
  }

  lemma RotlRotl(x: U128, m: nat, n: nat)
    requires m + n <= 128
    ensures Rotl(Rotl(x, m), n) == Rotl(x, m + n)
  {}

  datatype Sigma = Sigma(s1: U64, s2: U64, s3: U64, s4: U64, s5: U64, s6: U64)

  // Section 2.2 of RFC 3713

  function RfcKa(b: R.Boxes, c: Sigma, kl: U128, kr: U128): U128 {
    var d1, d2 := Add(Hi(kl), Hi(kr)), Add(Lo(kl), Lo(kr));
    var d2 := Add(d2, R.F(b, d1, c.s1));
    var d1 := Add(d1, R.F(b, d2, c.s2));
    var d1 := Add(d1, Hi(kl));
    var d2 := Add(d2, Lo(kl));
    var d2 := Add(d2, R.F(b, d1, c.s3));
    var d1 := Add(d1, R.F(b, d2, c.s4));
    Quad(d1, d2)
  }

  function RfcKb(b: R.Boxes, c: Sigma, ka: U128, kr: U128): U128 {
    var d1, d2 := Add(Hi(ka), Hi(kr)), Add(Lo(ka), Lo(kr));
    var d2 := Add(d2, R.F(b, d1, c.s5));
    var d1 := Add(d1, R.F(b, d2, c.s6));
    Quad(d1, d2)
  }

  function Pair(x: U128): seq<U64> { [Hi(x), Lo(x)] }

  function Halves(x: U128, n: nat): seq<U64>
    requires n <= 128
  {
    Pair(Rotl(x, n))
  }

  /** The subkeys for a 128-bit key, in the order of the table. */
  function Rfc128(kl: U128, ka: U128): (k: seq<U64>)
    ensures |k| == 26
  {
    Halves(kl, 0) + Halves(ka, 0) + Halves(kl, 15) + Halves(ka, 15)
    + Halves(ka, 30) + Halves(kl, 45) + [Hi(Rotl(ka, 45)), Lo(Rotl(kl, 60))] + Halves(ka, 60)
    + Halves(kl, 77) + Halves(kl, 94) + Halves(ka, 94) + Halves(kl, 111)
    + Halves(ka, 111)
  }

  /** The subkeys for a 192- or 256-bit key. */
  function Rfc256(kl: U128, kr: U128, ka: U128, kb: U128): (k: seq<U64>)
    ensures |k| == 34
  {
    Halves(kl, 0) + Halves(kb, 0) + Halves(kr, 15) + Halves(ka, 15)
    + Halves(kr, 30) + Halves(kb, 30) + Halves(kl, 45) + Halves(ka, 45)
    + Halves(kl, 60) + Halves(kr, 60) + Halves(kb, 60) + Halves(kl, 77)
    + Halves(ka, 77) + Halves(kr, 94) + Halves(ka, 94) + Halves(kl, 111)
    + Halves(kb, 111)
  }

  // The setups

  lemma RotlAll(x: U128)
    ensures Rotl(x, 0) == x == Rotl(x, 128) && Quad(Hi(x), Lo(x)) == x
  {}

  /** Rotates a key that is already rotated by `m`. */
  method Rotate(ghost key: U128, ghost m: nat, x: U128, n: nat) returns (y: U128)
    requires n <= 64 && m + n <= 128 && x == Rotl(key, m)
    ensures y == Rotl(key, m + n)
  {
    hide RolDq, RolDqO32, Rotl;
    RolDqIsRotl(x, n);
    RotlRotl(key, m, n);
    if n < 32 {
      y := RolDq(x, n);
    } else {
      y := RolDqO32(x, n);
    }
  }

  method MixKa(t: Tables, c: Sigma, kl: U128, kr: U128, ghost b: R.Boxes) returns (ka: U128)
    requires R.Combined(t, b)
    ensures ka == RfcKa(b, c, kl, kr)
  {
    hide F, R.F, R.Combined;
    var h, l := Add(Hi(kl), Hi(kr)), Add(Lo(kl), Lo(kr));
    R.FIs(t, b, h, c.s1);
    var w := F(t, h, c.s1);
    ghost var h0, l0 := h, l;
    l := Add(l, w);
    R.FIs(t, b, l, c.s2);
    h := F(t, l, c.s2);
    ghost var f := h;
    h := Add(h, Hi(kr));
    assert h == Add(Add(h0, f), Hi(kl));
    R.FIs(t, b, h, c.s3);
    l := Add(F(t, h, c.s3), Add(w, Lo(kr)));
    assert l == Add(Add(Add(l0, w), Lo(kl)), F(t, h, c.s3));
    R.FIs(t, b, l, c.s4);
    w := F(t, l, c.s4);
    h := Add(h, w);
    ka := Quad(h, l);
  }

  method MixKa128(t: Tables, c: Sigma, kl: U128, ghost b: R.Boxes) returns (ka: U128)
    requires R.Combined(t, b)
    ensures ka == RfcKa(b, c, kl, Zeros(128))
  {
    hide F, R.F, R.Combined;
    var h, l := Hi(kl), Lo(kl);
    assert Add(h, Hi(Zeros(128))) == h && Add(l, Lo(Zeros(128))) == l;
    R.FIs(t, b, h, c.s1);
    var w := F(t, h, c.s1);
    l := Add(l, w);
    R.FIs(t, b, l, c.s2);
    h := F(t, l, c.s2);
    assert h == Add(Add(Hi(kl), h), Hi(kl));
    R.FIs(t, b, h, c.s3);
    l := Add(F(t, h, c.s3), w);
    assert l == Add(Add(Add(Lo(kl), w), Lo(kl)), F(t, h, c.s3));
    R.FIs(t, b, l, c.s4);
    w := F(t, l, c.s4);
    h := Add(h, w);
    ka := Quad(h, l);
  }

  method MixKb(t: Tables, c: Sigma, ka: U128, kr: U128, ghost b: R.Boxes) returns (kb: U128)
    requires R.Combined(t, b)
    ensures kb == RfcKb(b, c, ka, kr)
  {
    hide F, R.F, R.Combined;
    var h, l := Add(Hi(kr), Hi(ka)), Add(Lo(kr), Lo(ka));
    assert h == Add(Hi(ka), Hi(kr)) && l == Add(Lo(ka), Lo(kr));
    R.FIs(t, b, h, c.s5);
    var w := F(t, h, c.s5);
    l := Add(l, w);
    R.FIs(t, b, l, c.s6);
    w := F(t, l, c.s6);
    h := Add(h, w);
    kb := Quad(h, l);
  }

  /** Fills a subkey array from the table and runs the schedule's passes on it. */
  method Schedule(k: seq<U64>, n: nat, subkey: array<U64>)
    requires Table(k, n) && subkey.Length > 8 * n
    modifies subkey
    ensures Scheduled(k, n, subkey[..])
  {
    hide Scheduled;
    var sub := new U64[8 * n + 2](i requires 0 <= i < |k| => k[i]);
    assert sub[..] == k;
    CamelliaSetup.Setup(sub, subkey, n);
  }

  method Setup128(t: Tables, c: Sigma, kl: U128, subkey: array<U64>, ghost b: R.Boxes)
    requires R.Combined(t, b) && subkey.Length > 24
    modifies subkey
    ensures Scheduled(Rfc128(kl, RfcKa(b, c, kl, Zeros(128))), 3, subkey[..])
  {
    hide Hi, Lo, Rotl, RfcKa, Scheduled, R.Combined;
    RotlAll(kl);
    var kl15 := Rotate(kl, 0, kl, 15);
    var kl45 := Rotate(kl, 15, kl15, 30);
    var kl60 := Rotate(kl, 45, kl45, 15);
    var kl77 := Rotate(kl, 60, kl60, 17);
    var kl94 := Rotate(kl, 77, kl77, 17);
    var kl111 := Rotate(kl, 94, kl94, 17);
    var ka := MixKa128(t, c, kl, b);
    RotlAll(ka);
    var ka15 := Rotate(ka, 0, ka, 15);
    var ka30 := Rotate(ka, 15, ka15, 15);
    var ka45 := Rotate(ka, 30, ka30, 15);
    var ka60 := Rotate(ka, 45, ka45, 15);
    var ka94 := Rotate(ka, 60, ka60, 34);
    var ka111 := Rotate(ka, 94, ka94, 17);
    var table := Pair(kl) + Pair(ka) + Pair(kl15) + Pair(ka15)
    + Pair(ka30) + Pair(kl45) + [Hi(ka45), Lo(kl60)] + Pair(ka60)
    + Pair(kl77) + Pair(kl94) + Pair(ka94) + Pair(kl111)
    + Pair(ka111);
    Schedule(table, 3, subkey);
  }

  method Setup256(t: Tables, c: Sigma, kl: U128, kr: U128, subkey: array<U64>, ghost b: R.Boxes)
    requires R.Combined(t, b) && subkey.Length > 32
    modifies subkey
    ensures var ka := RfcKa(b, c, kl, kr); Scheduled(Rfc256(kl, kr, ka, RfcKb(b, c, ka, kr)), 4, subkey[..])
  {
    hide Hi, Lo, Rotl, RfcKa, RfcKb, Scheduled, R.Combined;
    RotlAll(kl);
    var kl45 := Rotate(kl, 0, kl, 45);
    var kl60 := Rotate(kl, 45, kl45, 15);
    var kl77 := Rotate(kl, 60, kl60, 17);
    var kl111 := Rotate(kl, 77, kl77, 34);
    RotlAll(kr);
    var kr15 := Rotate(kr, 0, kr, 15);
    var kr30 := Rotate(kr, 15, kr15, 15);
    var kr60 := Rotate(kr, 30, kr30, 30);
    var kr94 := Rotate(kr, 60, kr60, 34);
    var kr128 := Rotate(kr, 94, kr94, 34);
    var ka := MixKa(t, c, kl, kr128, b);
    var kb := MixKb(t, c, ka, kr128, b);
    RotlAll(ka);
    var ka15 := Rotate(ka, 0, ka, 15);
    var ka45 := Rotate(ka, 15, ka15, 30);
    var ka77 := Rotate(ka, 45, ka45, 32);
    var ka94 := Rotate(ka, 45, ka45, 49);
    RotlAll(kb);
    var kb30 := Rotate(kb, 0, kb, 30);
    var kb60 := Rotate(kb, 30, kb30, 30);
    var kb111 := Rotate(kb, 60, kb60, 51);
    var table := Pair(kl) + Pair(kb) + Pair(kr15) + Pair(ka15)
    + Pair(kr30) + Pair(kb30) + Pair(kl45) + Pair(ka45)
    + Pair(kl60) + Pair(kr60) + Pair(kb60) + Pair(kl77)
    + Pair(ka77) + Pair(kr94) + Pair(ka94) + Pair(kl111)
    + Pair(kb111);
    Schedule(table, 4, subkey);
  }

  // The cipher as a whole

  predicate GoodLength(key: Bits) { |key| == 128 || |key| == 192 || |key| == 256 }

  function Rounds(key: Bits): nat { if |key| == 128 then 3 else 4 }

  /** KR: the rest of the key, completed by its complement when it is only 64 bits. */
  function RightKey(key: Bits): U128
    requires |key| == 192 || |key| == 256
  {
    if |key| == 192 then key[128..] + Not(key[128..]) else key[128..]
  }

  /** camellia_setup192 and camellia_setup256, up to the call of the latter: KR word by word. */
  method SetupRight(key: Bits) returns (kr: U128)
    requires |key| == 192 || |key| == 256
    ensures kr == RightKey(key)
  {
    var krll: U32, krlr: U32 := key[128..160], key[160..192];
    var krrl: U32, krrr: U32 := Not(krll), Not(krlr);
    if |key| == 256 {
      krrl, krrr := key[192..224], key[224..256];
    }
    kr := krll + krlr + krrl + krrr;
  }

  function Subkeys(b: R.Boxes, c: Sigma, key: Bits): (k: seq<U64>)
    requires GoodLength(key)
    ensures Table(k, Rounds(key))
  {
    var kl := key[..128];
    if |key| == 128 then Rfc128(kl, RfcKa(b, c, kl, Zeros(128)))
    else
      var kr := RightKey(key);
      var ka := RfcKa(b, c, kl, kr);
      Rfc256(kl, kr, ka, RfcKb(b, c, ka, kr))
  }

  /** Camellia as RFC 3713 defines it. */
  function Cipher(b: R.Boxes, c: Sigma, key: Bits, x: Block): Block
    requires GoodLength(key)
  {
    Plain(b, Subkeys(b, c, key), Rounds(key), x)
  }

  /** The transform's context: the key length in bytes and the subkeys. */
  class Context {
    const t: Tables
    const c: Sigma
    ghost const b: R.Boxes
    var keyLength: nat
    const keyTable: array<U64>
    ghost var key: Bits

    ghost predicate Valid()
      reads this, keyTable
    {
      && keyTable.Length == 34 && R.Combined(t, b)
      && (keyLength > 0 ==>
            && |key| == 8 * keyLength && GoodLength(key)
            && Scheduled(Subkeys(b, c, key), Rounds(key), keyTable[..]))
    }

    /** `t` are the tables of the code, which combine the S-boxes `b`. */
    constructor (t: Tables, c: Sigma, ghost b: R.Boxes)
      requires R.Combined(t, b)
      ensures Valid() && keyLength == 0 && this.t == t && this.c == c && this.b == b && fresh(keyTable)
    {
      this.t, this.c, this.b, keyLength, key := t, c, b, 0, [];
      keyTable := new U64[34](_ => Zeros(64));
    }

    /** A key of any other length is refused and changes nothing. */
    method SetKey(k: Bits) returns (ok: bool)
      requires Valid() && |k| % 8 == 0
      modifies this, keyTable
      ensures Valid() && ok == GoodLength(k)
      ensures ok ==> key == k && keyLength == |k| / 8
      ensures !ok ==> key == old(key) && keyLength == old(keyLength) && keyTable[..] == old(keyTable[..])
    {
      hide Rfc128, Rfc256, RfcKa, RfcKb, Scheduled, R.Combined;
      if !GoodLength(k) {
        return false;
      }
      keyLength, key := |k| / 8, k;
      if keyLength == 16 {
        assert k[..128] == k;
        Setup128(t, c, k, keyTable, b);
      } else {
        var kr := SetupRight(k);
        Setup256(t, c, k[..128], kr, keyTable, b);
      }
      return true;
    }

    method Encrypt(x: Block) returns (y: Block)
      requires Valid()
      ensures y == if keyLength > 0 then Cipher(b, c, key, x) else x
    {
      hide Scheduled, Subkeys, Fast, Plain, R.Combined;
      if keyLength == 16 || keyLength == 24 || keyLength == 32 {
        y := CamelliaSetup.EncryptBlock(t, keyTable, if keyLength == 16 then 3 else 4, x);
        FastIsPlain(t, b, Subkeys(b, c, key), Rounds(key), keyTable[..], x);
      } else {
        y := x;
      }
    }

    /** Decryption returns the one block that encrypts to `x`. */
    method Decrypt(x: Block) returns (y: Block)
      requires Valid()
      ensures keyLength > 0 ==> Cipher(b, c, key, y) == x && forall z :: Cipher(b, c, key, z) == x ==> z == y
      ensures keyLength == 0 ==> y == x
    {
      hide Subkeys, Fast, FastDecrypt, Plain, R.Combined;
      if keyLength == 16 || keyLength == 24 || keyLength == 32 {
        y := CamelliaSetup.DecryptBlock(t, keyTable, if keyLength == 16 then 3 else 4, x);
        ghost var n, s := Rounds(key), keyTable[..];
        EncryptUndoes(t, s, n, x);
        FastIsPlain(t, b, Subkeys(b, c, key), n, s, y);
        forall z | Cipher(b, c, key, z) == x
          ensures z == y
        {
          FastIsPlain(t, b, Subkeys(b, c, key), n, s, z);
          DecryptUndoes(t, s, n, z);
        }
      } else {
        y := x;
      }
    }
  }
}
