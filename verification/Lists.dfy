/**
 Lists and buffers: deletion, insertion and overwriting, and the lists of request
 numbers that the schedulers keep sorted by the sector a request starts at.
 */
module Lists {

  datatype Option<T> = None | Some(value: T)

  ghost function Extra<T>(x: Option<T>): multiset<T> { if x.Some? then multiset{x.value} else multiset{} }

  function Without<T>(s: seq<T>, i: nat): seq<T>
    requires i < |s|
  {
    s[..i] + s[i + 1..]
  }

  function IndexOf<T(==)>(s: seq<T>, r: T): (i: nat)
    requires r in s
    ensures i < |s| && s[i] == r
  {
    if s[0] == r then 0 else 1 + IndexOf(s[1..], r)
  }

  function Erase<T(==)>(s: seq<T>, r: T): seq<T> { if r in s then Without(s, IndexOf(s, r)) else s }

  lemma EraseMultiset<T>(s: seq<T>, r: T)
    ensures multiset(Erase(s, r)) == multiset(s) - multiset{r}
  {
    if r in s {
      var i := IndexOf(s, r);
      assert s == s[..i] + [s[i]] + s[i + 1..];
    }
  }

  ghost predicate NoDup<T>(s: seq<T>) { forall i, j :: 0 <= i < j < |s| ==> s[i] != s[j] }

  lemma ErasedAt<T>(s: seq<T>, r: T, i: nat)
    requires r in s && i < |Erase(s, r)|
    ensures |Erase(s, r)| == |s| - 1 && Erase(s, r)[i] == s[if i < IndexOf(s, r) then i else i + 1]
  {}

  lemma ErasedMembers<T>(s: seq<T>, r: T)
    ensures forall x :: x in Erase(s, r) ==> x in s
    ensures r !in s ==> Erase(s, r) == s
    ensures |Erase(s, r)| == if r in s then |s| - 1 else |s|
  {}

  lemma EraseNoDup<T>(s: seq<T>, r: T)
    requires NoDup(s)
    ensures NoDup(Erase(s, r)) && (forall x :: x in Erase(s, r) <==> x in s && x != r)
    ensures |Erase(s, r)| == if r in s then |s| - 1 else |s|
  {
    hide Erase;
    ErasedMembers(s, r);
    if r in s {
      var g, k := Erase(s, r), IndexOf(s, r);
      forall i, j | 0 <= i < j < |g|
        ensures g[i] != g[j]
      {
        ErasedAt(s, r, i);
        ErasedAt(s, r, j);
      }
      forall i | 0 <= i < |g|
        ensures g[i] != r
      {
        ErasedAt(s, r, i);
      }
      forall x | x in s && x != r
        ensures x in g
      {
        var j := IndexOf(s, x);
        ErasedAt(s, r, if j < k then j else j - 1);
      }
    }
  }

  function InsertAt<T>(s: seq<T>, i: nat, q: T): seq<T>
    requires i <= |s|
  {
    s[..i] + [q] + s[i..]
  }

  lemma InsertAtFacts<T>(s: seq<T>, i: nat, q: T)
    requires i <= |s| && NoDup(s) && q !in s
    ensures NoDup(InsertAt(s, i, q)) && forall x :: x in InsertAt(s, i, q) <==> x in s || x == q
  {
    var t := InsertAt(s, i, q);
    forall x | x in s
      ensures x in t
    {
      var j := IndexOf(s, x);
      assert t[if j < i then j else j + 1] == x;
    }
    assert t[i] == q;
  }

  /** In a list of both, the first takes the place of the second. */
  function TakePlace<T(==)>(s: seq<T>, a: T, b: T): seq<T> {
    var t := Erase(s, a);
    if a in s && b in t then InsertAt(t, IndexOf(t, b), a) else s
  }

  lemma TakePlaceMultiset<T>(s: seq<T>, a: T, b: T)
    ensures multiset(TakePlace(s, a, b)) == multiset(s)
  {
    hide Erase;
    var t := Erase(s, a);
    EraseMultiset(s, a);
    if a in s && b in t {
      var i := IndexOf(t, b);
      assert t == t[..i] + t[i..];
      assert multiset(InsertAt(t, i, a)) == multiset(t) + multiset{a};
      assert a in multiset(s);
    }
  }

  /** `a` with the part from `o` on overwritten by `s`. */
  function Splice<T>(a: seq<T>, o: nat, s: seq<T>): (r: seq<T>)
    requires o + |s| <= |a|
    ensures |r| == |a|
  {
    a[..o] + s + a[o + |s|..]
  }

  /** memcpy */
  method Write<T>(a: array<T>, o: nat, s: seq<T>)
    requires o + |s| <= a.Length
    modifies a
    ensures a[..] == Splice(old(a[..]), o, s) && a[o..o + |s|] == s
  {
    forall i | 0 <= i < |s| {
      a[o + i] := s[i];
    }
  }

  // Lists in sector order; no two requests start at the same sector

  ghost predicate Ordered(s: seq<nat>, sector: map<nat, nat>) {
    && (forall r :: r in s ==> r in sector)
    && (forall i, j :: 0 <= i < j < |s| ==> sector[s[i]] < sector[s[j]])
  }

  lemma OrderedNoDup(s: seq<nat>, sector: map<nat, nat>)
    requires Ordered(s, sector)
    ensures NoDup(s)
  {}

  lemma OrderedErase(s: seq<nat>, sector: map<nat, nat>, r: nat)
    requires Ordered(s, sector)
    ensures Ordered(Erase(s, r), sector)
  {
    OrderedNoDup(s, sector);
    EraseNoDup(s, r);
  }

  /** elv_rb_add, when no request starts at the same sector. */
  function Insert(s: seq<nat>, sector: map<nat, nat>, r: nat): seq<nat>
    requires r in sector && forall x :: x in s ==> x in sector
  {
    if s == [] then [r]
    else if sector[r] < sector[s[0]] then [r] + s
    else [s[0]] + Insert(s[1..], sector, r)
  }

  lemma {:induction false} InsertMembers(s: seq<nat>, sector: map<nat, nat>, r: nat)
    requires r in sector && forall x :: x in s ==> x in sector
    ensures (forall x :: x in Insert(s, sector, r) <==> x in s || x == r)
    ensures multiset(Insert(s, sector, r)) == multiset(s) + multiset{r}
  {
    if s != [] {
      assert s == [s[0]] + s[1..];
      if sector[r] >= sector[s[0]] {
        InsertMembers(s[1..], sector, r);
      }
    }
  }

  lemma OrderedCons(r: nat, s: seq<nat>, sector: map<nat, nat>)
    requires r in sector && Ordered(s, sector) && forall x :: x in s ==> sector[r] < sector[x]
    ensures Ordered([r] + s, sector)
  {}

  lemma OrderedTail(s: seq<nat>, sector: map<nat, nat>)
    requires Ordered(s, sector) && s != []
    ensures Ordered(s[1..], sector) && forall x :: x in s[1..] ==> sector[s[0]] < sector[x]
  {}

  lemma {:induction false} InsertOrdered(s: seq<nat>, sector: map<nat, nat>, r: nat)
    requires r in sector && Ordered(s, sector) && forall x :: x in s ==> sector[x] != sector[r]
    ensures Ordered(Insert(s, sector, r), sector)
  {
    if s == [] {
      OrderedCons(r, s, sector);
    } else {
      OrderedTail(s, sector);
      if sector[r] < sector[s[0]] {
        OrderedCons(r, s, sector);
      } else {
        InsertOrdered(s[1..], sector, r);
        InsertMembers(s[1..], sector, r);
        OrderedCons(s[0], Insert(s[1..], sector, r), sector);
      }
    }
  }

  /** elv_rb_find: the index of the request that starts at `at`, or the length when there is none. */
  function FindSector(s: seq<nat>, sector: map<nat, nat>, at: nat): (i: nat)
    requires forall x :: x in s ==> x in sector
    ensures i <= |s| && (i < |s| ==> sector[s[i]] == at)
    ensures i == |s| ==> forall x :: x in s ==> sector[x] != at
  {
    if s == [] then 0 else if sector[s[0]] == at then 0 else
      assert forall x :: x in s ==> x == s[0] || x in s[1..];
      1 + FindSector(s[1..], sector, at)
  }
}
