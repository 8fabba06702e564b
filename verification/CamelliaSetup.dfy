/**
 The schedule's passes over the subkey arrays, in the order the code makes them:
 the whitening keys kw2 and kw4 are absorbed into the other subkeys, neighbouring
 subkeys are combined, and the result is carried back through the last half of
 the P-function.
 */
module CamelliaSetup {
  import opened Words
  import opened Camellia
  import opened CamelliaSchedule

  /** kw2 as it arrives at group `g`, carried through the FLinv layers before it. */
  function CarriedKw2(k: seq<U64>, g: nat): U64
    requires 8 * g + 1 < |k|
  {
    if g == 0 then k[1] else Carry(CarriedKw2(k, g - 1), k[8 * g + 1])
  }

  /** kw4 as it arrives at group `g`, carried back through the FL layers after it. */
  function CarriedKw4(k: seq<U64>, n: nat, g: nat): U64
    requires Table(k, n) && g < n
    decreases n - g
  {
    if g == n - 1 then k[8 * n + 1] else Carry(CarriedKw4(k, n, g + 1), k[8 * g + 8])
  }

  /** Group `g` of `s` is that of `k` with kw2 absorbed: odd entries hold round keys of even rounds. */
  ghost predicate Kw2Absorbed(k: seq<U64>, s: seq<U64>, g: nat)
    requires 8 * g + 7 < |k| == |s|
  {
    var b, d := 8 * g, CarriedKw2(k, g);
    && s[b] == k[b] && (g > 0 ==> s[b + 1] == k[b + 1])
    && s[b + 2] == k[b + 2] && s[b + 3] == Add(k[b + 3], d)
    && s[b + 4] == k[b + 4] && s[b + 5] == Add(k[b + 5], d)
    && s[b + 6] == k[b + 6] && s[b + 7] == Add(k[b + 7], d)
  }

  method AddToRounds(sub: array<U64>, b: nat, d: U64)
    requires b + 4 < sub.Length
    modifies sub
    ensures forall i :: 0 <= i < sub.Length ==>
              sub[i] == if i == b || i == b + 2 || i == b + 4 then Add(old(sub[i]), d) else old(sub[i])
  {
    sub[b] := Add(sub[b], d);
    sub[b + 2] := Add(sub[b + 2], d);
    sub[b + 4] := Add(sub[b + 4], d);
  }

  ghost predicate SameGroup(s: seq<U64>, s': seq<U64>, g: nat)
    requires 8 * g + 7 < |s| == |s'|
  {
    forall i :: 8 * g <= i < 8 * g + 8 && i != 1 ==> s'[i] == s[i]
  }

  lemma Kw2Frame(k: seq<U64>, s: seq<U64>, s': seq<U64>, g: nat)
    requires 8 * g + 7 < |k| == |s| == |s'| && Kw2Absorbed(k, s, g) && SameGroup(s, s', g)
    ensures Kw2Absorbed(k, s', g)
  {
    hide Add, CarriedKw2;
  }

  lemma Kw2Step(k: seq<U64>, s: seq<U64>, s': seq<U64>, g: nat, d: U64)
    requires 8 * g + 7 < |k| == |s| == |s'| && SameGroup(k, s, g) && d == CarriedKw2(k, g)
    requires forall i :: 8 * g <= i < 8 * g + 8 && i != 1 ==>
               s'[i] == if i == 8 * g + 3 || i == 8 * g + 5 || i == 8 * g + 7 then Add(s[i], d) else s[i]
    ensures Kw2Absorbed(k, s', g)
  {
    hide Add, CarriedKw2;
  }

  method AbsorbKw2(sub: array<U64>, n: nat)
    requires n > 0 && sub.Length == 8 * n + 2
    modifies sub
    ensures forall g: nat {:trigger Kw2Absorbed(old(sub[..]), sub[..], g)} :: g < n ==>
            Kw2Absorbed(old(sub[..]), sub[..], g)
    ensures sub[8 * n] == Add(old(sub[8 * n]), CarriedKw2(old(sub[..]), n - 1))
    ensures sub[8 * n + 1] == old(sub[8 * n + 1])
  {
    hide Carry, Add, Kw2Absorbed;
    ghost var k := sub[..];
    var g := 0;
    while g < n
      invariant g <= n
      invariant sub[1] == CarriedKw2(k, if g < n then g else n - 1)
      invariant forall h: nat {:trigger Kw2Absorbed(k, sub[..], h)} :: h < g ==> Kw2Absorbed(k, sub[..], h)
      invariant forall i :: 8 * g <= i < sub.Length && i != 1 ==> sub[i] == k[i]
    {
      ghost var before := sub[..];
      AddToRounds(sub, 8 * g + 3, sub[1]);
      if g < n - 1 {
        sub[1] := Carry(sub[1], sub[8 * g + 9]);
      }
      Kw2Step(k, before, sub[..], g, before[1]);
      forall h: nat | h < g
        ensures Kw2Absorbed(k, sub[..], h)
      {
        Kw2Frame(k, before, sub[..], h);
      }
      g := g + 1;
    }
    ghost var before := sub[..];
    sub[8 * n] := Add(sub[8 * n], sub[1]);
    forall h: nat | h < n
      ensures Kw2Absorbed(k, sub[..], h)
    {
      Kw2Frame(k, before, sub[..], h);
    }
  }

  /** Group `g` of `s` is that of `k` with kw4 absorbed: even entries hold round keys of odd rounds. */
  ghost predicate Kw4Absorbed(k: seq<U64>, s: seq<U64>, n: nat, g: nat)
    requires Table(k, n) && |s| == |k| && g < n
  {
    var b, d := 8 * g, CarriedKw4(k, n, g);
    && s[b] == (if g == 0 then Add(k[b], d) else k[b]) && (g > 0 ==> s[b + 1] == k[b + 1])
    && s[b + 2] == Add(k[b + 2], d) && s[b + 3] == k[b + 3]
    && s[b + 4] == Add(k[b + 4], d) && s[b + 5] == k[b + 5]
    && s[b + 6] == Add(k[b + 6], d) && s[b + 7] == k[b + 7]
  }

  lemma Kw4Frame(k: seq<U64>, s: seq<U64>, s': seq<U64>, n: nat, g: nat)
    requires Table(k, n) && |s| == |s'| == |k| && g < n && Kw4Absorbed(k, s, n, g) && SameGroup(s, s', g)
    ensures Kw4Absorbed(k, s', n, g)
  {
    hide Add, CarriedKw4;
  }

  lemma Kw4Step(k: seq<U64>, s: seq<U64>, s': seq<U64>, n: nat, g: nat, d: U64)
    requires Table(k, n) && |s| == |s'| == |k| && g < n && SameGroup(k, s, g) && d == CarriedKw4(k, n, g)
    requires forall i :: 8 * g <= i < 8 * g + 8 && i != 1 ==>
               s'[i] == if i == 8 * g + 2 || i == 8 * g + 4 || i == 8 * g + 6 || i == 0 then Add(s[i], d) else s[i]
    ensures Kw4Absorbed(k, s', n, g)
  {
    hide Add, CarriedKw4;
  }

  method AbsorbKw4(sub: array<U64>, n: nat)
    requires n > 0 && sub.Length == 8 * n + 2
    modifies sub
    ensures forall g: nat {:trigger Kw4Absorbed(old(sub[..]), sub[..], n, g)} :: g < n ==>
              Kw4Absorbed(old(sub[..]), sub[..], n, g)
    ensures sub[8 * n] == old(sub[8 * n])
  {
    hide Carry, Add, Kw4Absorbed;
    ghost var k := sub[..];
    var kw4 := sub[8 * n + 1];
    var g := n;
    while g > 0
      invariant 0 <= g <= n
      invariant kw4 == CarriedKw4(k, n, if g > 0 then g - 1 else 0)
      invariant forall h: nat {:trigger Kw4Absorbed(k, sub[..], n, h)} :: g <= h < n ==> Kw4Absorbed(k, sub[..], n, h)
      invariant forall i :: 0 <= i < 8 * g ==> sub[i] == k[i]
      invariant sub[8 * n] == k[8 * n]
    {
      g := g - 1;
      ghost var before := sub[..];
      ghost var d := kw4;
      AddToRounds(sub, 8 * g + 2, kw4);
      if g > 0 {
        kw4 := Carry(kw4, sub[8 * g]);
      } else {
        sub[0] := Add(sub[0], kw4);
      }
      Kw4Step(k, before, sub[..], n, g, d);
      forall h: nat | g < h < n
        ensures Kw4Absorbed(k, sub[..], n, h)
      {
        Kw4Frame(k, before, sub[..], n, h);
      }
    }
  }

  /** The key addition that ends round `j` of group `g`, from absorbed subkeys. */
  function Folded(a: seq<U64>, n: nat, g: nat, j: nat): U64
    requires Table(a, n) && g < n && 2 <= j < 8
  {
    if j == 2 then
      if g == 0 then a[3] else Add(Carry(a[8 * g - 1], a[8 * g + 1]), a[8 * g + 3])
    else if j == 7 then
      if g == n - 1 then a[8 * g + 6] else Add(a[8 * g + 6], Carry(a[8 * g + 10], a[8 * g + 8]))
    else Add(a[8 * g + j - 1], a[8 * g + j + 1])
  }

  ghost predicate GroupFolded(a: seq<U64>, s: seq<U64>, n: nat, g: nat)
    requires Table(a, n) && |s| > 8 * n && g < n
  {
    var b := 8 * g;
    && s[b + 2] == Folded(a, n, g, 2) && s[b + 3] == Folded(a, n, g, 3) && s[b + 4] == Folded(a, n, g, 4)
    && s[b + 5] == Folded(a, n, g, 5) && s[b + 6] == Folded(a, n, g, 6) && s[b + 7] == Folded(a, n, g, 7)
    && (g > 0 ==> LayerKeys(a, s, g))
  }

  /** One group of the pass that combines neighbouring subkeys: its middle rounds. */
  method FoldMiddle(sub: array<U64>, subkey: array<U64>, b: nat)
    requires b + 7 < sub.Length && b + 7 < subkey.Length && sub != subkey
    modifies subkey
    ensures subkey[b + 3] == Add(sub[b + 2], sub[b + 4]) && subkey[b + 4] == Add(sub[b + 3], sub[b + 5])
    ensures subkey[b + 5] == Add(sub[b + 4], sub[b + 6]) && subkey[b + 6] == Add(sub[b + 5], sub[b + 7])
    ensures forall i :: 0 <= i < subkey.Length && (i < b + 3 || i >= b + 7) ==> subkey[i] == old(subkey[i])
  {
    hide Add;
    subkey[b + 3] := Add(sub[b + 2], sub[b + 4]);
    subkey[b + 4] := Add(sub[b + 3], sub[b + 5]);
    subkey[b + 5] := Add(sub[b + 4], sub[b + 6]);
    subkey[b + 6] := Add(sub[b + 5], sub[b + 7]);
  }

  /** Its first and last round and the keys of the layer before it. */
  method FoldEnds(sub: array<U64>, subkey: array<U64>, n: nat, g: nat)
    requires Table(sub[..], n) && subkey.Length > 8 * n && g < n && sub != subkey
    modifies subkey
    ensures subkey[8 * g + 2] == Folded(sub[..], n, g, 2) && subkey[8 * g + 7] == Folded(sub[..], n, g, 7)
    ensures g > 0 ==> subkey[8 * g] == sub[8 * g] && subkey[8 * g + 1] == sub[8 * g + 1]
    ensures forall i :: 0 <= i < subkey.Length && (i < 8 * g || 8 * g + 2 < i != 8 * g + 7) ==>
            subkey[i] == old(subkey[i])
  {
    hide Carry, Add;
    var b := 8 * g;
    if g == 0 {
      subkey[2] := sub[3];
    } else {
      subkey[b] := sub[b];
      subkey[b + 1] := sub[b + 1];
      subkey[b + 2] := Add(Carry(sub[b - 1], sub[b + 1]), sub[b + 3]);
    }
    subkey[b + 7] := if g == n - 1 then sub[b + 6] else Add(sub[b + 6], Carry(sub[b + 10], sub[b + 8]));
  }

  lemma MiddleFolded(a: seq<U64>, n: nat, g: nat)
    requires Table(a, n) && g < n
    ensures forall j {:trigger Folded(a, n, g, j)} :: 3 <= j < 7 ==>
            Folded(a, n, g, j) == Add(a[8 * g + j - 1], a[8 * g + j + 1])
  {
    hide Carry, Add;
  }

  method FoldGroup(sub: array<U64>, subkey: array<U64>, n: nat, g: nat)
    requires Table(sub[..], n) && subkey.Length > 8 * n && g < n && sub != subkey
    modifies subkey
    ensures GroupFolded(sub[..], subkey[..], n, g)
    ensures forall i :: 0 <= i < subkey.Length && (i < 8 * g || i >= 8 * g + 8) ==> subkey[i] == old(subkey[i])
  {
    hide Folded, Add;
    FoldMiddle(sub, subkey, 8 * g);
    FoldEnds(sub, subkey, n, g);
    MiddleFolded(sub[..], n, g);
  }

  lemma FoldFrame(a: seq<U64>, s: seq<U64>, s': seq<U64>, n: nat, g: nat)
    requires Table(a, n) && |s'| == |s| > 8 * n && g < n && GroupFolded(a, s, n, g)
    requires forall i :: 8 * g <= i < 8 * g + 8 && i != 0 ==> s'[i] == s[i]
    ensures GroupFolded(a, s', n, g)
  {
    hide Folded;
  }

  method Fold(sub: array<U64>, subkey: array<U64>, n: nat)
    requires Table(sub[..], n) && subkey.Length > 8 * n && sub != subkey
    modifies subkey
    ensures forall g: nat {:trigger GroupFolded(sub[..], subkey[..], n, g)} :: g < n ==>
            GroupFolded(sub[..], subkey[..], n, g)
    ensures subkey[0] == Add(sub[0], sub[2]) && subkey[8 * n] == Add(sub[8 * n], sub[8 * n - 1])
  {
    hide Carry, Add, GroupFolded;
    var g := 0;
    while g < n
      invariant g <= n
      invariant forall h: nat {:trigger GroupFolded(sub[..], subkey[..], n, h)} :: h < g ==>
                  GroupFolded(sub[..], subkey[..], n, h)
    {
      ghost var before := subkey[..];
      FoldGroup(sub, subkey, n, g);
      forall h: nat | h < g
        ensures GroupFolded(sub[..], subkey[..], n, h)
      {
        FoldFrame(sub[..], before, subkey[..], n, h);
      }
      g := g + 1;
    }
    ghost var before := subkey[..];
    subkey[0] := Add(sub[0], sub[2]);
    subkey[8 * n] := Add(sub[8 * n], sub[8 * n - 1]);
    forall h: nat | h < n
      ensures GroupFolded(sub[..], subkey[..], n, h)
    {
      FoldFrame(sub[..], before, subkey[..], n, h);
    }
  }

  ghost predicate GroupUnfolded(s: seq<U64>, s': seq<U64>, g: nat)
    requires 8 * g + 7 < |s| == |s'|
  {
    var b := 8 * g;
    && s'[b + 2] == Unfold(s[b + 2]) && s'[b + 3] == Unfold(s[b + 3]) && s'[b + 4] == Unfold(s[b + 4])
    && s'[b + 5] == Unfold(s[b + 5]) && s'[b + 6] == Unfold(s[b + 6]) && s'[b + 7] == Unfold(s[b + 7])
    && s'[b] == s[b] && s'[b + 1] == s[b + 1]
  }

  method UnfoldGroup(subkey: array<U64>, g: nat)
    requires 8 * g + 7 < subkey.Length
    modifies subkey
    ensures GroupUnfolded(old(subkey[..]), subkey[..], g)
    ensures forall i :: 0 <= i < subkey.Length && (i < 8 * g || i >= 8 * g + 8) ==> subkey[i] == old(subkey[i])
  {
    hide Unfold;
    var b := 8 * g;
    subkey[b + 2] := Unfold(subkey[b + 2]);
    subkey[b + 3] := Unfold(subkey[b + 3]);
    subkey[b + 4] := Unfold(subkey[b + 4]);
    subkey[b + 5] := Unfold(subkey[b + 5]);
    subkey[b + 6] := Unfold(subkey[b + 6]);
    subkey[b + 7] := Unfold(subkey[b + 7]);
  }

  method UnfoldRounds(subkey: array<U64>, n: nat)
    requires subkey.Length > 8 * n
    modifies subkey
    ensures forall g: nat {:trigger GroupUnfolded(old(subkey[..]), subkey[..], g)} :: g < n ==>
              GroupUnfolded(old(subkey[..]), subkey[..], g)
    ensures forall i :: 8 * n <= i < subkey.Length ==> subkey[i] == old(subkey[i])
  {
    hide Unfold;
    ghost var s := subkey[..];
    var g := 0;
    while g < n
      invariant g <= n
      invariant forall h: nat {:trigger GroupUnfolded(s, subkey[..], h)} :: h < g ==> GroupUnfolded(s, subkey[..], h)
      invariant forall i :: 8 * g <= i < subkey.Length ==> subkey[i] == s[i]
    {
      ghost var before := subkey[..];
      UnfoldGroup(subkey, g);
      forall h: nat | h <= g
        ensures GroupUnfolded(s, subkey[..], h)
      {
        assert h < g ==> GroupUnfolded(s, before, h);
      }
      g := g + 1;
    }
  }

  /** Group `g` after both passes. */
  ghost predicate Absorbed(k: seq<U64>, a: seq<U64>, n: nat, g: nat)
    requires Table(k, n) && |a| == |k| && g < n
  {
    var b, c, d := 8 * g, CarriedKw2(k, g), CarriedKw4(k, n, g);
    && a[b] == (if g == 0 then Add(k[b], d) else k[b]) && (g > 0 ==> a[b + 1] == k[b + 1])
    && a[b + 2] == Add(k[b + 2], d) && a[b + 3] == Add(k[b + 3], c)
    && a[b + 4] == Add(k[b + 4], d) && a[b + 5] == Add(k[b + 5], c)
    && a[b + 6] == Add(k[b + 6], d) && a[b + 7] == Add(k[b + 7], c)
  }

  lemma {:induction false} CarriedSame(k: seq<U64>, m: seq<U64>, n: nat, g: nat)
    requires Table(k, n) && |m| == |k| && g < n && m[8 * n + 1] == k[8 * n + 1]
    requires forall h: nat {:trigger Kw2Absorbed(k, m, h)} :: h < n ==> Kw2Absorbed(k, m, h)
    ensures CarriedKw4(m, n, g) == CarriedKw4(k, n, g)
    decreases n - g
  {
    hide Carry, Add;
    if g < n - 1 {
      CarriedSame(k, m, n, g + 1);
      assert Kw2Absorbed(k, m, g + 1);
    }
  }

  lemma Combine(k: seq<U64>, m: seq<U64>, a: seq<U64>, n: nat, g: nat)
    requires Table(k, n) && |a| == |m| == |k| && g < n && CarriedKw4(m, n, g) == CarriedKw4(k, n, g)
    requires Kw2Absorbed(k, m, g) && Kw4Absorbed(m, a, n, g)
    ensures Absorbed(k, a, n, g)
  {
    hide Add, CarriedKw2, CarriedKw4;
  }

  lemma AddCancel(x: U64, y: U64, d: U64)
    ensures Add(Add(x, d), Add(y, d)) == Add(x, y)
    ensures Add(x, y) == Add(y, x)
  {}

  lemma CarryAdd(x: U64, y: U64, k: U64)
    ensures Carry(Add(x, y), k) == Add(Carry(x, k), Carry(y, k))
  {
    hide Carry;
    CarryIsLinear(x, y, k);
  }

  /** The absorbed whitening keys cancel: what is left takes one carried key to the next. */
  lemma Cancels(k: seq<U64>, a: seq<U64>, n: nat, g: nat, j: nat)
    requires Table(k, n) && |a| == |k| && g < n && 2 <= j < 8
    requires forall h: nat {:trigger Absorbed(k, a, n, h)} :: h < n ==> Absorbed(k, a, n, h)
    ensures Folded(a, n, g, j) == Add(Incoming(k, g, j), Outgoing(k, n, g, j))
  {
    hide Carry, Add;
    var b, c, d := 8 * g, CarriedKw2(k, g), CarriedKw4(k, n, g);
    assert Absorbed(k, a, n, g);
    if j == 2 && g > 0 {
      assert Absorbed(k, a, n, g - 1);
      CarryAdd(k[b - 1], CarriedKw2(k, g - 1), k[b + 1]);
      AddCancel(Carry(k[b - 1], k[b + 1]), k[b + 3], c);
    } else if j == 7 && g < n - 1 {
      assert Absorbed(k, a, n, g + 1);
      CarryAdd(k[b + 10], CarriedKw4(k, n, g + 1), k[b + 8]);
      AddCancel(k[b + 6], Carry(k[b + 10], k[b + 8]), d);
    } else if j == 2 || j == 7 {
      AddCancel(k[1], k[3], d);
    } else {
      AddCancel(k[b + j - 1], k[b + j + 1], if j % 2 == 0 then c else d);
    }
  }

  lemma RoundScheduled(k: seq<U64>, a: seq<U64>, f: seq<U64>, s: seq<U64>, n: nat, g: nat, j: nat)
    requires Table(k, n) && |a| == |k| && |s| == |f| > 8 * n && g < n && 2 <= j < 8
    requires Folded(a, n, g, j) == Add(Incoming(k, g, j), Outgoing(k, n, g, j))
    requires GroupFolded(a, f, n, g) && GroupUnfolded(f, s, g)
    ensures RoundKey(k, n, s, g, j)
  {
    hide Add, Folded, Unfold, Incoming, Outgoing;
  }

  lemma LayerScheduled(k: seq<U64>, a: seq<U64>, f: seq<U64>, s: seq<U64>, n: nat, g: nat)
    requires Table(k, n) && |a| == |k| && |s| == |f| > 8 * n && 0 < g < n
    requires Absorbed(k, a, n, g) && GroupFolded(a, f, n, g) && GroupUnfolded(f, s, g)
    ensures LayerKeys(k, s, g)
  {
    hide Add, Folded, Unfold;
  }

  lemma EndsScheduled(k: seq<U64>, a: seq<U64>, n: nat)
    requires Table(k, n) && |a| == |k| && Absorbed(k, a, n, 0) && Absorbed(k, a, n, n - 1)
    requires a[8 * n] == Add(k[8 * n], CarriedKw2(k, n - 1))
    ensures Add(a[0], a[2]) == Add(k[0], k[2])
    ensures Add(a[8 * n], a[8 * n - 1]) == Add(k[8 * n], k[8 * n - 1])
  {
    hide Add;
    AddCancel(k[0], k[2], CarriedKw4(k, n, 0));
    AddCancel(k[8 * n], k[8 * n - 1], CarriedKw2(k, n - 1));
  }

  /** The passes in turn leave a schedule for the table they started from. */
  method Setup(sub: array<U64>, subkey: array<U64>, n: nat)
    requires n > 0 && sub.Length == 8 * n + 2 && subkey.Length > 8 * n && sub != subkey
    modifies sub, subkey
    ensures Scheduled(old(sub[..]), n, subkey[..])
  {
    hide Add, Kw2Absorbed, Kw4Absorbed, Absorbed, GroupFolded, GroupUnfolded, Folded, Unfold, RoundKey, LayerKeys,
      CarriedKw2;
    ghost var k := sub[..];
    AbsorbKw2(sub, n);
    ghost var m := sub[..];
    AbsorbKw4(sub, n);
    ghost var a := sub[..];
    Fold(sub, subkey, n);
    ghost var f := subkey[..];
    UnfoldRounds(subkey, n);
    ghost var s := subkey[..];
    ScheduleDone(k, m, a, f, s, n);
  }

  lemma ScheduleDone(k: seq<U64>, m: seq<U64>, a: seq<U64>, f: seq<U64>, s: seq<U64>, n: nat)
    requires Table(k, n) && |a| == |m| == |k| && |s| == |f| > 8 * n
    requires forall g: nat {:trigger Kw2Absorbed(k, m, g)} :: g < n ==> Kw2Absorbed(k, m, g)
    requires m[8 * n] == Add(k[8 * n], CarriedKw2(k, n - 1)) && m[8 * n + 1] == k[8 * n + 1]
    requires forall g: nat {:trigger Kw4Absorbed(m, a, n, g)} :: g < n ==> Kw4Absorbed(m, a, n, g)
    requires a[8 * n] == m[8 * n]
    requires forall g: nat {:trigger GroupFolded(a, f, n, g)} :: g < n ==> GroupFolded(a, f, n, g)
    requires f[0] == Add(a[0], a[2]) && f[8 * n] == Add(a[8 * n], a[8 * n - 1])
    requires forall g: nat {:trigger GroupUnfolded(f, s, g)} :: g < n ==> GroupUnfolded(f, s, g)
    requires s[8 * n] == f[8 * n]
    ensures Scheduled(k, n, s)
  {
    hide Add, Kw2Absorbed, Kw4Absorbed, Absorbed, GroupFolded, Folded, Unfold, RoundKey, LayerKeys, CarriedKw2,
      CarriedKw4;
    forall g: nat | g < n
      ensures Absorbed(k, a, n, g)
    {
      CarriedSame(k, m, n, g);
      Combine(k, m, a, n, g);
    }
    forall g: nat, j: nat | g < n && 2 <= j < 8
      ensures RoundKey(k, n, s, g, j)
    {
      Cancels(k, a, n, g, j);
      RoundScheduled(k, a, f, s, n, g, j);
    }
    forall g: nat | 0 < g < n
      ensures LayerKeys(k, s, g)
    {
      LayerScheduled(k, a, f, s, n, g);
    }
    EndsScheduled(k, a, n);
    assert GroupUnfolded(f, s, 0);
  }

  method EncryptBlock(t: Tables, subkey: array<U64>, n: nat, x: Block) returns (y: Block)
    requires n > 0 && subkey.Length > 8 * n
    ensures y == Fast(t, subkey[..], n, x)
  {
    hide RoundSm, Add, Fl, FlInv;
    var s := subkey[..];
    var l, r := Add(x.l, s[0]), x.r;
    var g := 0;
    while true
      invariant g < n && Block(l, r) == FastBefore(t, s, g, x)
      decreases n - g
    {
      r := RoundSm(t, l, s[8 * g + 2], r);
      l := RoundSm(t, r, s[8 * g + 3], l);
      r := RoundSm(t, l, s[8 * g + 4], r);
      l := RoundSm(t, r, s[8 * g + 5], l);
      r := RoundSm(t, l, s[8 * g + 6], r);
      l := RoundSm(t, r, s[8 * g + 7], l);
      g := g + 1;
      if g == n {
        break;
      }
      l, r := Fl(l, s[8 * g]), FlInv(r, s[8 * g + 1]);
    }
    r := Add(r, s[8 * n]);
    y := Block(r, l);
  }

  method DecryptBlock(t: Tables, subkey: array<U64>, n: nat, x: Block) returns (y: Block)
    requires n > 0 && subkey.Length > 8 * n
    ensures y == FastDecrypt(t, subkey[..], n, x)
  {
    hide RoundSm, Add, Fl, FlInv;
    var s := subkey[..];
    var l, r := Add(x.l, s[8 * n]), x.r;
    var g := n;
    while true
      invariant 0 < g <= n
      invariant Block(l, r) == if g == n then Block(Add(x.l, s[8 * n]), x.r)
                               else Layer(FastAfter(t, s, n, g, x), s[8 * g + 1], s[8 * g])
      decreases g
    {
      g := g - 1;
      r := RoundSm(t, l, s[8 * g + 7], r);
      l := RoundSm(t, r, s[8 * g + 6], l);
      r := RoundSm(t, l, s[8 * g + 5], r);
      l := RoundSm(t, r, s[8 * g + 4], l);
      r := RoundSm(t, l, s[8 * g + 3], r);
      l := RoundSm(t, r, s[8 * g + 2], l);
      if g == 0 {
        break;
      }
      l, r := Fl(l, s[8 * g + 1]), FlInv(r, s[8 * g]);
    }
    r := Add(r, s[0]);
    y := Block(r, l);
  }
}
