/**
 A request as a stretch of the disk and as a chain of bios. Sizes are in bytes,
 sectors are 512 bytes; a bio is a list of segment lengths.
 */
module Extents {

  const SECTOR := 512

  datatype Bio = Bio(id: nat, sector: nat, vecs: seq<nat>)

  function Sum(vecs: seq<nat>): nat {
    if vecs == [] then 0 else vecs[0] + Sum(vecs[1..])
  }

  function Size(b: Bio): nat { Sum(b.vecs) }

  function Bytes(bios: seq<Bio>): nat {
    if bios == [] then 0 else Size(bios[0]) + Bytes(bios[1..])
  }

  ghost predicate Good(b: Bio) {
    b.vecs != [] && (forall i :: 0 <= i < |b.vecs| ==> b.vecs[i] > 0) && Size(b) % SECTOR == 0
  }

  /** The bios follow each other on the disk from `sector` on. */
  ghost predicate Chain(bios: seq<Bio>, sector: nat) {
    bios == [] || (Good(bios[0]) && bios[0].sector == sector && Chain(bios[1..], sector + Size(bios[0]) / SECTOR))
  }

  lemma {:induction false} ChainWhole(bios: seq<Bio>, s: nat)
    requires Chain(bios, s)
    ensures Bytes(bios) % SECTOR == 0
  {
    if bios != [] {
      ChainWhole(bios[1..], s + Size(bios[0]) / SECTOR);
    }
  }

  lemma {:induction false} ChainConcat(a: seq<Bio>, b: seq<Bio>, s: nat)
    requires Chain(a, s)
    ensures Bytes(a + b) == Bytes(a) + Bytes(b)
    ensures Chain(a + b, s) <==> Chain(b, s + Bytes(a) / SECTOR)
  {
    ChainWhole(a, s);
    if a == [] {
      assert a + b == b;
    } else {
      assert (a + b)[1..] == a[1..] + b;
      ChainWhole(a[1..], s + Size(a[0]) / SECTOR);
      ChainConcat(a[1..], b, s + Size(a[0]) / SECTOR);
    }
  }

  // What is left after some bytes have been completed

  function DropVecs(vecs: seq<nat>, n: nat): seq<nat> {
    if vecs == [] then [] else if n >= vecs[0] then DropVecs(vecs[1..], n - vecs[0]) else [vecs[0] - n] + vecs[1..]
  }

  function Drop(bios: seq<Bio>, n: nat): seq<Bio> {
    if bios == [] then []
    else if n >= Size(bios[0]) then Drop(bios[1..], n - Size(bios[0]))
    else [Bio(bios[0].id, bios[0].sector + n / SECTOR, DropVecs(bios[0].vecs, n))] + bios[1..]
  }

  lemma {:induction false} DropVecsFacts(vecs: seq<nat>, n: nat)
    requires n < Sum(vecs) && forall i :: 0 <= i < |vecs| ==> vecs[i] > 0
    ensures var d := DropVecs(vecs, n); d != [] && Sum(d) == Sum(vecs) - n && forall i :: 0 <= i < |d| ==> d[i] > 0
  {
    if n >= vecs[0] {
      DropVecsFacts(vecs[1..], n - vecs[0]);
    }
  }

  /** Completing whole sectors leaves a chain that starts where they end. */
  lemma {:induction false} DropChain(bios: seq<Bio>, s: nat, n: nat)
    requires Chain(bios, s) && n % SECTOR == 0 && n <= Bytes(bios)
    ensures Chain(Drop(bios, n), s + n / SECTOR) && Bytes(Drop(bios, n)) == Bytes(bios) - n
  {
    if bios != [] {
      var b := bios[0];
      if n >= Size(b) {
        DropChain(bios[1..], s + Size(b) / SECTOR, n - Size(b));
      } else {
        DropVecsFacts(b.vecs, n);
        assert Drop(bios, n)[1..] == bios[1..];
      }
    }
  }

  /** What is left of a chain tiles the disk from the sector that was reached on,
      exactly when whole sectors were completed. */
  lemma {:induction false} DropTiles(bios: seq<Bio>, s: nat, n: nat)
    requires Chain(bios, s) && n < Bytes(bios)
    ensures Drop(bios, n) != [] && Drop(bios, n)[0].vecs != [] && Bytes(Drop(bios, n)) == Bytes(bios) - n
    ensures Chain(Drop(bios, n), s + n / SECTOR) <==> n % SECTOR == 0
  {
    var b := bios[0];
    if n >= Size(b) {
      DropTiles(bios[1..], s + Size(b) / SECTOR, n - Size(b));
    } else {
      DropVecsFacts(b.vecs, n);
      assert Drop(bios, n)[1..] == bios[1..];
      if n % SECTOR == 0 { DropChain(bios, s, n); }
    }
  }

  lemma {:induction false} DropVecsTwice(vecs: seq<nat>, m: nat, n: nat)
    ensures DropVecs(DropVecs(vecs, m), n) == DropVecs(vecs, m + n)
  {
    if vecs != [] {
      if m >= vecs[0] {
        DropVecsTwice(vecs[1..], m - vecs[0], n);
      } else {
        assert DropVecs(vecs, m)[1..] == vecs[1..];
      }
    }
  }

  lemma Remainders(m: nat, n: nat)
    ensures m / SECTOR + n / SECTOR == (m + n) / SECTOR <==> m % SECTOR + n % SECTOR < SECTOR
  {}

  lemma WholeLess(m: nat, z: nat)
    requires z <= m && z % SECTOR == 0
    ensures (m - z) % SECTOR == m % SECTOR
  {}

  /** The first bio once `n` of its bytes are done. */
  function Rest(b: Bio, n: nat): Bio { Bio(b.id, b.sector + n / SECTOR, DropVecs(b.vecs, n)) }

  lemma DropInside(bios: seq<Bio>, n: nat)
    requires bios != [] && n < Size(bios[0])
    ensures Drop(bios, n) == [Rest(bios[0], n)] + bios[1..]
  {}

  lemma DropOutside(bios: seq<Bio>, n: nat)
    requires bios != [] && n >= Size(bios[0])
    ensures Drop(bios, n) == Drop(bios[1..], n - Size(bios[0]))
  {}

  /** Both counts inside the first bio. */
  lemma DropInsideTwice(bios: seq<Bio>, m: nat, n: nat)
    requires bios != [] && Good(bios[0]) && m + n < Size(bios[0])
    ensures Drop(Drop(bios, m), n) == Drop(bios, m + n) <==> m % SECTOR + n % SECTOR < SECTOR
    ensures Drop(bios, m) != [] && n < Size(Drop(bios, m)[0])
  {
    hide Drop, DropVecs;
    var b := bios[0];
    var d := Drop(bios, m);
    DropInside(bios, m);
    DropInside(bios, m + n);
    DropVecsFacts(b.vecs, m);
    DropInside(d, n);
    DropVecsTwice(b.vecs, m, n);
    Remainders(m, n);
    assert d[1..] == bios[1..];
    assert Drop(d, n)[0] == Rest(Rest(b, m), n) && Drop(bios, m + n)[0] == Rest(b, m + n);
  }

  /** The first count inside the first bio and both together past it. */
  lemma DropPastTwice(bios: seq<Bio>, m: nat, n: nat)
    requires bios != [] && Good(bios[0]) && m < Size(bios[0]) <= m + n
    ensures Drop(Drop(bios, m), n) == Drop(bios, m + n)
    ensures Drop(bios, m) != [] && n >= Size(Drop(bios, m)[0])
  {
    var b := bios[0];
    DropVecsFacts(b.vecs, m);
    assert Drop(bios, m)[1..] == bios[1..];
  }

  /** Completing `m` and then `n` bytes leaves what completing `m + n` bytes leaves, exactly
      when the second call ends the bio the first one stopped in, or the two odd parts
      of a sector do not make up a whole one: each call moves a bio by whole sectors only. */
  lemma {:induction false} DropTwice(bios: seq<Bio>, s: nat, m: nat, n: nat)
    requires Chain(bios, s)
    ensures Drop(Drop(bios, m), n) == Drop(bios, m + n)
            <==> Drop(bios, m) == [] || n >= Size(Drop(bios, m)[0]) || m % SECTOR + n % SECTOR < SECTOR
  {
    if bios != [] {
      var b := bios[0];
      if m >= Size(b) {
        DropTwice(bios[1..], s + Size(b) / SECTOR, m - Size(b), n);
        WholeLess(m, Size(b));
      } else if m + n < Size(b) {
        DropInsideTwice(bios, m, n);
      } else {
        DropPastTwice(bios, m, n);
      }
    }
  }

  lemma SumOne(v: nat)
    ensures Sum([v]) == v
  {
    var t := [v];
    assert Sum(t) == t[0] + Sum(t[1..]);
    assert t[1..] == [];
  }

  lemma OneSegment(id: nat, s: nat, v: nat, n: nat)
    requires n < v
    ensures Size(Bio(id, s, [v])) == v && Drop([Bio(id, s, [v])], n) == [Bio(id, s + n / SECTOR, [v - n])]
  {
    var b := [Bio(id, s, [v])];
    assert [v][1..] == [] && b[1..] == [];
    DropInside(b, n);
    assert [v - n] + [v][1..] == [v - n] && DropVecs([v], n) == [v - n];
    assert [Rest(b[0], n)] + b[1..] == [Rest(b[0], n)];
    SumOne(v);
  }

  /** Two halves of a sector, completed one after the other, leave the bio one sector behind. */
  lemma HalfSectors()
    ensures Chain([Bio(0, 0, [1024])], 0)
    ensures Drop(Drop([Bio(0, 0, [1024])], 256), 256) == [Bio(0, 0, [512])]
    ensures Drop([Bio(0, 0, [1024])], 256 + 256) == [Bio(0, 1, [512])]
  {
    hide Drop;
    OneSegment(0, 0, 1024, 256);
    OneSegment(0, 0, 768, 256);
    OneSegment(0, 0, 1024, 512);
    assert [Bio(0, 0, [1024])][1..] == [];
  }

  /** A call of bio_endio: so many bytes of a bio are done. */
  datatype End = End(bio: nat, bytes: nat)

  /** The calls that completing `n` bytes makes. */
  function Ends(bios: seq<Bio>, n: nat): seq<End> {
    if bios == [] then []
    else if n >= Size(bios[0]) then [End(bios[0].id, Size(bios[0]))] + Ends(bios[1..], n - Size(bios[0]))
    else if n > 0 then [End(bios[0].id, n)] else []
  }

  function Credit(ends: seq<End>, id: nat): nat {
    if ends == [] then 0 else (if ends[0].bio == id then ends[0].bytes else 0) + Credit(ends[1..], id)
  }

  function Owed(bios: seq<Bio>, id: nat): (n: nat)
    ensures (forall b :: b in bios ==> b.id != id) ==> n == 0
  {
    if bios == [] then 0 else (if bios[0].id == id then Size(bios[0]) else 0) + Owed(bios[1..], id)
  }

  /** Every byte of every bio is reported once: now, or when what is left of the request completes. */
  lemma {:induction false} EndsConserve(bios: seq<Bio>, s: nat, n: nat, id: nat)
    requires Chain(bios, s)
    ensures Credit(Ends(bios, n), id) + Owed(Drop(bios, n), id) == Owed(bios, id)
  {
    if bios != [] {
      var b := bios[0];
      if n >= Size(b) {
        EndsConserve(bios[1..], s + Size(b) / SECTOR, n - Size(b), id);
        assert Ends(bios, n)[1..] == Ends(bios[1..], n - Size(b));
      } else {
        DropVecsFacts(b.vecs, n);
        assert Drop(bios, n)[1..] == bios[1..];
      }
    }
  }

  /** The calls of two completions report together what those of one report. */
  lemma {:induction false} EndsTwice(bios: seq<Bio>, s: nat, m: nat, n: nat, id: nat)
    requires Chain(bios, s)
    ensures Credit(Ends(bios, m), id) + Credit(Ends(Drop(bios, m), n), id) == Credit(Ends(bios, m + n), id)
  {
    if bios != [] {
      var b := bios[0];
      var z := Size(b);
      if m >= z {
        hide Drop, Sum;
        EndsTwice(bios[1..], s + z / SECTOR, m - z, n, id);
        DropOutside(bios, m);
        assert Ends(bios, m)[1..] == Ends(bios[1..], m - z);
        assert Ends(bios, m + n)[1..] == Ends(bios[1..], m + n - z);
      } else {
        DropVecsFacts(b.vecs, m);
        var d := Drop(bios, m);
        assert d[1..] == bios[1..];
        if m + n >= z {
          assert Ends(d, n)[1..] == Ends(bios[1..], m + n - z);
          assert Ends(bios, m + n)[1..] == Ends(bios[1..], m + n - z);
        }
      }
    }
  }

  lemma {:induction false} SumSplit(vecs: seq<nat>, i: nat)
    requires i <= |vecs|
    ensures Sum(vecs) == Sum(vecs[..i]) + Sum(vecs[i..])
  {
    if i > 0 {
      SumSplit(vecs[1..], i - 1);
      assert vecs[1..][..i - 1] == vecs[..i][1..] && vecs[1..][i - 1..] == vecs[i..];
    }
  }

  /** Dropping the first `i` segments and `r` bytes of the next. */
  lemma {:induction false} DropVecsAt(vecs: seq<nat>, i: nat, r: nat)
    requires i < |vecs| && r < vecs[i]
    ensures DropVecs(vecs, Sum(vecs[..i]) + r) == [vecs[i] - r] + vecs[i + 1..]
  {
    if i > 0 {
      assert vecs[..i][1..] == vecs[1..][..i - 1];
      DropVecsAt(vecs[1..], i - 1, r);
    }
  }

  lemma Sectors(n: nat, nr: nat)
    requires n < SECTOR * nr
    ensures n / SECTOR <= nr && SECTOR * nr - n <= SECTOR * (nr - n / SECTOR)
    ensures n % SECTOR == 0 ==> SECTOR * nr - n == SECTOR * (nr - n / SECTOR)
  {}

  lemma SumNext(vecs: seq<nat>, i: nat)
    requires i < |vecs|
    ensures Sum(vecs[..i + 1]) == Sum(vecs[..i]) + vecs[i] <= Sum(vecs)
    ensures i + 1 == |vecs| ==> Sum(vecs[..i + 1]) == Sum(vecs)
  {
    assert i + 1 == |vecs| ==> vecs[..i + 1] == vecs;
    SumSplit(vecs[..i + 1], i);
    SumSplit(vecs, i + 1);
    assert vecs[..i + 1][..i] == vecs[..i] && vecs[..i + 1][i..] == [vecs[i]];
  }

  /** A file system request. The driver's own position in it is that of the block layer. */
  class Request {
    var bios: seq<Bio>
    var hardSector: nat
    var hardNrSectors: nat
    var sector: nat
    var nrSectors: nat
    var hardCurSectors: nat
    var currentNrSectors: nat
    var ended: seq<End>

    /** The chain tiles exactly the stretch the request stands for. */
    ghost predicate Valid()
      reads this
    {
      && bios != [] && Chain(bios, hardSector) && Bytes(bios) == SECTOR * hardNrSectors
      && sector == hardSector && nrSectors == hardNrSectors
      && currentNrSectors == hardCurSectors == bios[0].vecs[0] / SECTOR
    }

    /** init_request_from_bio */
    constructor (b: Bio)
      requires Good(b)
      ensures Valid() && bios == [b] && hardSector == b.sector && SECTOR * hardNrSectors == Size(b) && ended == []
    {
      bios, hardSector, sector, ended := [b], b.sector, b.sector, [];
      hardNrSectors, nrSectors := Size(b) / SECTOR, Size(b) / SECTOR;
      hardCurSectors, currentNrSectors := b.vecs[0] / SECTOR, b.vecs[0] / SECTOR;
    }

    /** blk_recalc_rq_sectors; the chain has already been cut. The driver's position is moved ahead to that of the
        block layer unless it is ahead already. */
    method RecalcSectors(n: nat)
      requires bios != [] && bios[0].vecs != [] && n <= hardNrSectors && Bytes(bios) <= SECTOR * (hardNrSectors - n)
      modifies this`hardSector, this`hardNrSectors, this`sector, this`nrSectors, this`hardCurSectors,
        this`currentNrSectors
      ensures hardSector == old(hardSector) + n && hardNrSectors == old(hardNrSectors) - n
      ensures if old(nrSectors) >= hardNrSectors && old(sector) <= hardSector
              then && sector == hardSector && nrSectors == hardNrSectors
                   && currentNrSectors == hardCurSectors == bios[0].vecs[0] / SECTOR
              else && sector == old(sector) && hardCurSectors == old(hardCurSectors)
                   && currentNrSectors == old(currentNrSectors)
                   && nrSectors == if old(nrSectors) < currentNrSectors then currentNrSectors else old(nrSectors)
    {
      hardSector := hardSector + n;
      hardNrSectors := hardNrSectors - n;
      if nrSectors >= hardNrSectors && sector <= hardSector {
        sector, nrSectors := hardSector, hardNrSectors;
        hardCurSectors := bios[0].vecs[0] / SECTOR;
        currentNrSectors := hardCurSectors;
        SumNext(bios[0].vecs, 0);
        assert nrSectors >= currentNrSectors;
      }
      // a first segment longer than the request is called botched
      if nrSectors < currentNrSectors {
        nrSectors := currentNrSectors;
      }
    }

    /** The loop of __end_that_request_first: whole bios and whole segments, as far as the bytes go. */
    method EndLoop(nbytes: nat) returns (nr: nat, total: nat, bioBytes: nat, idx: nat)
      requires Chain(bios, hardSector)
      modifies this`bios, this`ended
      ensures Going(old(bios), old(ended), hardSector, nbytes, bios, ended, bioBytes, idx, nr, total)
      ensures bios != [] ==> idx < |bios[0].vecs| && nr < bios[0].vecs[idx] && bioBytes + nr < Size(bios[0])
    {
      hide Drop, Ends, DropVecs, Chain, Bytes, Going;
      ghost var b0, e0, s0 := bios, ended, hardSector;
      var cut := false;
      nr, total, bioBytes, idx := nbytes, 0, 0, 0;
      GoingStart(b0, e0, s0, nbytes);
      while bios != [] && !cut
        invariant Going(b0, e0, s0, nbytes, bios, ended, bioBytes, idx, nr, total)
        invariant cut ==> bios != [] && idx < |bios[0].vecs| && nr < bios[0].vecs[idx] && bioBytes + nr < Size(bios[0])
        decreases |bios|, if bios == [] then 0 else |bios[0].vecs| - idx, !cut
      {
        GoingFacts(b0, e0, s0, nbytes, bios, ended, bioBytes, idx, nr, total);
        if nr >= Size(bios[0]) {
          FullBio(b0, e0, s0, nbytes, bios, ended, bioBytes, idx, nr, total);
          ended := ended + [End(bios[0].id, Size(bios[0]))];
          total, nr := total + Size(bios[0]), nr - Size(bios[0]);
          bios, bioBytes, idx := bios[1..], 0, 0;
        } else {
          var v := bios[0].vecs[idx];
          if v > nr {
            cut := true;
          } else {
            FullVec(b0, e0, s0, nbytes, bios, ended, bioBytes, idx, nr, total);
            bioBytes, total, nr, idx := bioBytes + v, total + v, nr - v, idx + 1;
          }
        }
        if bios != [] && nr == 0 {
          GoingFacts(b0, e0, s0, nbytes, bios, ended, bioBytes, idx, nr, total);
          cut := true;
        }
      }
    }

    /**
     __end_that_request_first: completes bios and segments from the front. The result says whether anything is
     left; if so, the request still tiles its stretch of the disk exactly when whole sectors were completed.
     */
    method EndFirst(nbytes: nat) returns (more: bool)
      requires Valid()
      modifies this
      ensures bios == Drop(old(bios), nbytes) && ended == old(ended) + Ends(old(bios), nbytes)
      ensures more <==> nbytes < SECTOR * old(hardNrSectors)
      ensures more ==> hardSector == old(hardSector) + nbytes / SECTOR
                       && hardNrSectors == old(hardNrSectors) - nbytes / SECTOR
      ensures more ==> (Valid() <==> nbytes % SECTOR == 0)
      ensures !more ==> bios == []
    {
      hide Drop, Ends, DropVecs, Chain, Bytes, Going;
      ghost var b0, e0, s0 := bios, ended, hardSector;
      var nr, total, bioBytes, idx := EndLoop(nbytes);
      if bios == [] {
        AllDone(b0, e0, s0, nbytes, ended, bioBytes, idx, nr, total);
        return false;
      }
      CutBio(b0, e0, s0, nbytes, bios, ended, bioBytes, idx, nr, total);
      total, bioBytes := total + nr, bioBytes + nr;
      if bioBytes > 0 {
        var b := bios[0];
        ended := ended + [End(b.id, bioBytes)];
        bios := [Bio(b.id, b.sector + bioBytes / SECTOR, [b.vecs[idx] - nr] + b.vecs[idx + 1..])] + bios[1..];
      }
      DropTiles(b0, s0, nbytes);
      Sectors(nbytes, hardNrSectors);
      RecalcSectors(total / SECTOR);
      return true;
    }

    /** The merging part of __make_request; `allowed` sums up the checks that do not look at sectors. */
    method MergeBio(b: Bio, allowed: bool) returns (m: Merge)
      requires Valid() && Good(b)
      modifies this
      ensures Valid() && ended == old(ended)
      ensures m == if allowed then TryMerge(old(sector), old(nrSectors), b) else NoMerge
      ensures m == BackMerge ==>
              && bios == old(bios) + [b] && hardSector == old(hardSector)
              && hardSector + hardNrSectors == b.sector + Size(b) / SECTOR
      ensures m == FrontMerge ==> bios == [b] + old(bios) && hardSector == b.sector
                                  && hardSector + hardNrSectors == old(hardSector) + old(hardNrSectors)
      ensures m == NoMerge ==> bios == old(bios) && hardSector == old(hardSector) && hardNrSectors == old(hardNrSectors)
    {
      if !allowed {
        return NoMerge;
      }
      m := TryMerge(sector, nrSectors, b);
      match m
      case BackMerge =>
        ChainConcat(bios, [b], hardSector);
        bios := bios + [b];
        hardNrSectors := hardNrSectors + Size(b) / SECTOR;
        nrSectors := hardNrSectors;
      case FrontMerge =>
        ghost var t := [b] + bios;
        assert t[1..] == bios;
        bios := [b] + bios;
        currentNrSectors := b.vecs[0] / SECTOR;
        hardCurSectors := currentNrSectors;
        sector, hardSector := b.sector, b.sector;
        hardNrSectors := hardNrSectors + Size(b) / SECTOR;
        nrSectors := hardNrSectors;
      case NoMerge =>
    }

    /** attempt_merge: the request takes over the bios of one that starts where it ends. */
    method AttemptMerge(next: Request, allowed: bool) returns (merged: bool)
      requires Valid() && next.Valid() && next != this
      modifies this
      ensures Valid() && ended == old(ended)
      ensures merged <==> allowed && old(sector) + old(nrSectors) == next.sector
      ensures merged ==> bios == old(bios) + next.bios && hardSector == old(hardSector)
                         && hardSector + hardNrSectors == next.hardSector + next.hardNrSectors
      ensures !merged ==> bios == old(bios) && hardSector == old(hardSector) && hardNrSectors == old(hardNrSectors)
    {
      if !allowed || sector + nrSectors != next.sector {
        return false;
      }
      ChainConcat(bios, next.bios, hardSector);
      bios := bios + next.bios;
      hardNrSectors := hardNrSectors + next.hardNrSectors;
      nrSectors := hardNrSectors;
      return true;
    }
  }

  datatype Merge = NoMerge | BackMerge | FrontMerge

  /** elv_try_merge, when the request may be merged with the bio at all. */
  function TryMerge(sector: nat, nrSectors: nat, b: Bio): Merge {
    if sector + nrSectors == b.sector then BackMerge
    else if b.sector + Size(b) / SECTOR == sector then FrontMerge
    else NoMerge
  }

  /**
   The completion loop between two turns: of the `n` bytes, `total` are done and `nr` are not; of the first
   bio the `k` bytes of its first `idx` segments are done.
   */
  ghost predicate Going(b0: seq<Bio>, e0: seq<End>, s0: nat, n: nat, bios: seq<Bio>, ended: seq<End>, k: nat,
                        idx: nat, nr: nat, total: nat) {
    && total + nr == n && k <= total && (total - k) % SECTOR == 0
    && Chain(bios, s0 + (total - k) / SECTOR) && Bytes(bios) + (total - k) == Bytes(b0)
    && Drop(b0, n) == Drop(bios, k + nr) && e0 + Ends(b0, n) == ended + Ends(bios, k + nr)
    && (bios == [] ==> k == 0)
    && (bios != [] ==> idx < |bios[0].vecs| && k == Sum(bios[0].vecs[..idx]) && (idx > 0 ==> k + nr < Size(bios[0])))
  }

  lemma GoingStart(b0: seq<Bio>, e0: seq<End>, s0: nat, n: nat)
    requires Chain(b0, s0)
    ensures Going(b0, e0, s0, n, b0, e0, 0, 0, n, 0)
  {
    hide Drop, Ends;
  }

  lemma GoingFacts(b0: seq<Bio>, e0: seq<End>, s0: nat, n: nat, bios: seq<Bio>, ended: seq<End>, k: nat, idx: nat,
                   nr: nat, total: nat)
    requires Going(b0, e0, s0, n, bios, ended, k, idx, nr, total) && bios != []
    ensures idx < |bios[0].vecs| && bios[0].vecs[idx] > 0 && k == Sum(bios[0].vecs[..idx])
    ensures nr < Size(bios[0]) ==> k + nr < Size(bios[0])
  {
    hide Drop, Ends, Bytes;
    assert idx == 0 ==> bios[0].vecs[..idx] == [];
  }

  lemma FirstBio(bios: seq<Bio>, s: nat, n: nat)
    requires Chain(bios, s) && bios != [] && n >= Size(bios[0])
    ensures Size(bios[0]) % SECTOR == 0 && Chain(bios[1..], s + Size(bios[0]) / SECTOR)
    ensures Bytes(bios) == Size(bios[0]) + Bytes(bios[1..])
    ensures bios[1..] != [] ==> bios[1].vecs != []
    ensures Drop(bios, n) == Drop(bios[1..], n - Size(bios[0]))
    ensures Ends(bios, n) == [End(bios[0].id, Size(bios[0]))] + Ends(bios[1..], n - Size(bios[0]))
  {}

  lemma FullBio(b0: seq<Bio>, e0: seq<End>, s0: nat, n: nat, bios: seq<Bio>, ended: seq<End>, k: nat, idx: nat,
                nr: nat, total: nat)
    requires Going(b0, e0, s0, n, bios, ended, k, idx, nr, total) && bios != [] && nr >= Size(bios[0])
    ensures var z := Size(bios[0]);
            Going(b0, e0, s0, n, bios[1..], ended + [End(bios[0].id, z)], 0, 0, nr - z, total + z)
  {
    hide Drop, Ends, Chain, Bytes, Size;
    var z := Size(bios[0]);
    assert idx == 0 && bios[0].vecs[..0] == [] && k == 0;
    FirstBio(bios, s0 + total / SECTOR, nr);
    var e := Ends(bios[1..], nr - z);
    assert (ended + [End(bios[0].id, z)]) + e == ended + ([End(bios[0].id, z)] + e);
    if bios[1..] != [] {
      assert bios[1..][0].vecs[..0] == [];
    }
  }

  lemma FullVec(b0: seq<Bio>, e0: seq<End>, s0: nat, n: nat, bios: seq<Bio>, ended: seq<End>, k: nat, idx: nat,
                nr: nat, total: nat)
    requires Going(b0, e0, s0, n, bios, ended, k, idx, nr, total) && bios != [] && nr < Size(bios[0])
    requires idx < |bios[0].vecs| && bios[0].vecs[idx] <= nr
    ensures var v := bios[0].vecs[idx];
            Going(b0, e0, s0, n, bios, ended, k + v, idx + 1, nr - v, total + v)
  {
    hide Drop, Ends, Chain, Bytes;
    var vecs := bios[0].vecs;
    assert idx == 0 ==> vecs[..idx] == [];
    SumNext(vecs, idx);
  }

  lemma AllDone(b0: seq<Bio>, e0: seq<End>, s0: nat, n: nat, ended: seq<End>, k: nat, idx: nat, nr: nat, total: nat)
    requires Going(b0, e0, s0, n, [], ended, k, idx, nr, total)
    ensures Drop(b0, n) == [] && e0 + Ends(b0, n) == ended && n >= Bytes(b0)
  {
    assert Drop([], k + nr) == [] && Ends([], k + nr) == [];
    hide Drop, Ends;
    assert ended + [] == ended;
  }

  lemma CutBio(b0: seq<Bio>, e0: seq<End>, s0: nat, n: nat, bios: seq<Bio>, ended: seq<End>, k: nat, idx: nat,
               nr: nat, total: nat)
    requires Going(b0, e0, s0, n, bios, ended, k, idx, nr, total) && bios != []
    requires idx < |bios[0].vecs| && nr < bios[0].vecs[idx] && k + nr < Size(bios[0])
    ensures total + nr == n < Bytes(b0)
    ensures var b := bios[0];
            Drop(b0, n) == (if k + nr == 0 then bios
                            else [Bio(b.id, b.sector + (k + nr) / SECTOR,
                                      [b.vecs[idx] - nr] + b.vecs[idx + 1..])] + bios[1..])
    ensures e0 + Ends(b0, n) == if k + nr == 0 then ended else ended + [End(bios[0].id, k + nr)]
  {
    var b := bios[0];
    DropVecsAt(b.vecs, idx, nr);
    hide Chain, DropVecs;
    if k + nr == 0 {
      assert ended + [] == ended;
      DropNone(bios);
    }
  }

  lemma DropNone(bios: seq<Bio>)
    requires bios != [] && bios[0].vecs != [] && bios[0].vecs[0] > 0
    ensures Drop(bios, 0) == bios
  {
    assert [bios[0].vecs[0] - 0] + bios[0].vecs[1..] == bios[0].vecs;
    assert [bios[0]] + bios[1..] == bios;
  }
}
