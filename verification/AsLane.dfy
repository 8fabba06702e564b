/**
 The operations on one direction of the anticipatory scheduler, and the invariant
 that each of them keeps: the cached request is the best of all queued ones.
 */
module AsLane {
  import opened Lists
  import opened AsCache

  /** elv_rb_add, when no request starts at the same sector. */
  function InsertRq(s: seq<Rq>, r: Rq): seq<Rq> {
    if s == [] then [r]
    else if r.sector < s[0].sector then [r] + s
    else [s[0]] + InsertRq(s[1..], r)
  }

  lemma {:induction false} InsertRqMembers(s: seq<Rq>, r: Rq)
    ensures forall b :: b in InsertRq(s, r) <==> b in s || b == r
    ensures multiset(InsertRq(s, r)) == multiset(s) + multiset{r}
  {
    if s != [] {
      assert s == [s[0]] + s[1..];
      if r.sector >= s[0].sector {
        InsertRqMembers(s[1..], r);
      }
    }
  }

  lemma {:induction false} InsertRqAscending(s: seq<Rq>, r: Rq)
    requires Ascending(s) && forall b :: b in s ==> b.sector != r.sector
    ensures Ascending(InsertRq(s, r))
  {
    if s != [] && r.sector >= s[0].sector {
      assert Ascending(s[1..]);
      InsertRqAscending(s[1..], r);
      InsertRqMembers(s[1..], r);
      var t := InsertRq(s[1..], r);
      forall k | 0 <= k < |t|
        ensures s[0].sector < t[k].sector
      {
        assert t[k] in t;
      }
    }
  }

  function End(l: Lane, r: Rq): nat
    requires r.id in l.size
  {
    r.sector + l.size[r.id]
  }

  ghost predicate Member(l: Lane, r: Rq) { r in l.sorted }

  /** The requests are apart from each other, and each has its own name. */
  ghost predicate Spread(s: seq<Rq>, size: map<nat, nat>) {
    && (forall a :: a in s ==> a.id in size)
    && (forall a, b :: a in s && b in s && a.sector < b.sector ==> a.sector + size[a.id] <= b.sector)
    && (forall a, b :: a in s && b in s && a.id == b.id ==> a == b)
  }

  ghost predicate LaneInv(l: Lane) {
    && Ascending(l.sorted) && Spread(l.sorted, l.size)
    && multiset(l.fifo) == multiset(l.sorted)
    && Best(l.last, l.sorted, l.next)
  }

  /** What a scheduler may rely on: the cache names a request exactly when there is one, and both lists agree. */
  lemma LaneFacts(l: Lane)
    requires LaneInv(l)
    ensures l.next.Some? <==> l.sorted != []
    ensures l.next.Some? ==> l.next.value in l.sorted
    ensures l.fifo != [] <==> l.sorted != []
    ensures l.fifo != [] ==> l.fifo[0] in l.sorted
    ensures |l.fifo| == |l.sorted|
  {
    hide Prefers;
    assert |multiset(l.fifo)| == |l.fifo| && |multiset(l.sorted)| == |l.sorted|;
    if l.fifo != [] {
      assert l.fifo[0] in multiset(l.fifo);
    }
  }

  lemma SpreadDisjoint(l: Lane)
    requires Ascending(l.sorted) && Spread(l.sorted, l.size)
    ensures Disjoint(l.sorted, l.size)
  {}

  lemma SectorNames(s: seq<Rq>, a: Rq, b: Rq)
    requires Ascending(s) && a in s && b in s && a.sector == b.sector
    ensures a == b
  {}

  /** as_add_request */
  function Add(l: Lane, r: Rq, nr: nat): Lane {
    l.(sorted := InsertRq(l.sorted, r), fifo := l.fifo + [r], size := l.size[r.id := nr],
       next := Choose(l.last, Some(r), l.next))
  }

  /** A request that may be added: a name of its own and sectors of its own. */
  ghost predicate Addable(l: Lane, r: Rq, nr: nat) {
    forall a {:trigger a in l.sorted} :: a in l.sorted ==>
      && a.id in l.size && a.id != r.id
      && (if a.sector < r.sector then End(l, a) <= r.sector else r.sector < a.sector && r.sector + nr <= a.sector)
  }

  lemma AddSpread(l: Lane, r: Rq, nr: nat, t: seq<Rq>)
    requires Spread(l.sorted, l.size) && Addable(l, r, nr) && forall b :: b in t <==> b in l.sorted || b == r
    ensures Spread(t, l.size[r.id := nr])
  {
    var size := l.size[r.id := nr];
    forall a, b | a in t && b in t && a.sector < b.sector
      ensures a.sector + size[a.id] <= b.sector
    {
      assert a != r ==> a in l.sorted;
      assert b != r ==> b in l.sorted;
    }
    forall a, b | a in t && b in t && a.id == b.id
      ensures a == b
    {
      assert a != r ==> a in l.sorted;
      assert b != r ==> b in l.sorted;
    }
  }

  lemma AddInv(l: Lane, r: Rq, nr: nat)
    requires LaneInv(l) && Addable(l, r, nr)
    ensures LaneInv(Add(l, r, nr))
  {
    hide Best, Choose, Spread, Ascending, InsertRq;
    var l' := Add(l, r, nr);
    InsertRqMembers(l.sorted, r);
    AddSpread(l, r, nr, l'.sorted);
    forall b | b in l.sorted
      ensures b.sector != r.sector
    {
      assert Member(l, b);
    }
    InsertRqAscending(l.sorted, r);
    forall b, c | b in l.sorted && c in l.sorted && b.sector == c.sector
      ensures b == c
    {
      SectorNames(l.sorted, b, c);
    }
    AddKeepsBest(l.last, l.sorted, l.next, r, l'.sorted);
  }

  /** Takes a queued request off both lists. */
  function Drop(l: Lane, i: nat, next: Option<Rq>): Lane
    requires i < |l.sorted|
  {
    l.(sorted := Without(l.sorted, i), fifo := Erase(l.fifo, l.sorted[i]), next := next)
  }

  /** as_move_to_dispatch */
  function Dispatched(l: Lane, i: nat): Lane
    requires i < |l.sorted| && l.sorted[i].id in l.size
  {
    var m := l.(last := End(l, l.sorted[i]));
    Drop(m, i, FindNext(m, i))
  }

  /** as_remove_queued_request */
  function Removed(l: Lane, i: nat): Lane
    requires i < |l.sorted|
  {
    Drop(l, i, if l.next == Some(l.sorted[i]) then FindNext(l, i) else l.next)
  }

  lemma WithoutMultiset(s: seq<Rq>, i: nat)
    requires i < |s|
    ensures multiset(Without(s, i)) == multiset(s) - multiset{s[i]}
  {
    assert s == s[..i] + [s[i]] + s[i + 1..];
  }

  lemma WithoutKeeps(s: seq<Rq>, i: nat, size: map<nat, nat>)
    requires i < |s| && Ascending(s) && Spread(s, size)
    ensures Ascending(Without(s, i)) && Spread(Without(s, i), size)
  {
    var t := Without(s, i);
    assert Ascending(t);
    forall b | b in t
      ensures b in s
    {
      WithoutMembers(s, i, b);
    }
  }

  lemma DropShape(l: Lane, i: nat, next: Option<Rq>)
    requires i < |l.sorted| && Ascending(l.sorted) && Spread(l.sorted, l.size) && multiset(l.fifo) == multiset(l.sorted)
    ensures l.sorted[i] in l.fifo
    ensures var m := Drop(l, i, next);
            Ascending(m.sorted) && Spread(m.sorted, m.size) && multiset(m.fifo) == multiset(m.sorted)
  {
    hide Without, Ascending, Spread, IndexOf;
    assert l.sorted[i] in multiset(l.sorted);
    WithoutMultiset(l.sorted, i);
    WithoutMultiset(l.fifo, IndexOf(l.fifo, l.sorted[i]));
    WithoutKeeps(l.sorted, i, l.size);
  }

  lemma DispatchInv(l: Lane, i: nat)
    requires LaneInv(l) && i < |l.sorted|
    ensures l.sorted[i].id in l.size && l.sorted[i] in l.fifo && LaneInv(Dispatched(l, i))
  {
    hide Best, Choose, FindNext;
    var m := l.(last := End(l, l.sorted[i]));
    SpreadDisjoint(m);
    DropShape(m, i, FindNext(m, i));
    DispatchKeepsBest(m, i);
  }

  lemma RemoveInv(l: Lane, i: nat)
    requires LaneInv(l) && i < |l.sorted|
    ensures LaneInv(Removed(l, i))
  {
    hide Choose, FindNext, Prefers;
    DropShape(l, i, Removed(l, i).next);
    if l.next == Some(l.sorted[i]) {
      RemoveKeepsBest(l, i);
    } else {
      BestStays(l, i);
    }
  }

  lemma BestStays(l: Lane, i: nat)
    requires i < |l.sorted| && Ascending(l.sorted) && Best(l.last, l.sorted, l.next) && l.next != Some(l.sorted[i])
    ensures Best(l.last, Without(l.sorted, i), l.next)
  {
    hide Prefers;
    var j := IndexOf(l.sorted, l.next.value);
    InWithout(l.sorted, i, j);
    forall b | b in Without(l.sorted, i)
      ensures b in l.sorted
    {
      WithoutMembers(l.sorted, i, b);
    }
  }

  /** A back merge: entry `i` grows by `nr` sectors. */
  function Grown(l: Lane, i: nat, nr: nat): Lane
    requires i < |l.sorted| && l.sorted[i].id in l.size
  {
    l.(size := l.size[l.sorted[i].id := l.size[l.sorted[i].id] + nr])
  }

  /** Entry `i` may grow as far as its successor. */
  lemma GrowInv(l: Lane, i: nat, nr: nat)
    requires LaneInv(l) && i < |l.sorted|
    requires i + 1 < |l.sorted| ==> End(l, l.sorted[i]) + nr <= l.sorted[i + 1].sector
    ensures LaneInv(Grown(l, i, nr))
  {
    hide Best;
    var r, m := l.sorted[i], Grown(l, i, nr);
    forall a, b | a in m.sorted && b in m.sorted && a.sector < b.sector
      ensures a.sector + m.size[a.id] <= b.sector
    {
      if a == r {
        var j := IndexOf(l.sorted, b);
        assert i < j;
      }
    }
  }

  function Requeued(l: Lane, i: nat, sooner: bool): (m: Lane)
    requires i + 1 < |l.sorted| && l.sorted[i] in l.fifo && l.sorted[i + 1] in l.fifo && l.sorted[i] != l.sorted[i + 1]
    ensures multiset(m.fifo) == multiset(l.fifo) && l.sorted[i + 1] in m.fifo && m == l.(fifo := m.fifo)
  {
    var req, next := l.sorted[i], l.sorted[i + 1];
    TakePlaceMultiset(l.fifo, req, next);
    assert next in multiset(l.fifo);
    if sooner then l.(fifo := TakePlace(l.fifo, req, next)) else l
  }

  /** as_merged_requests: entry `i` swallows the one behind it, and takes its place in the fifo when that is earlier. */
  function Merged(l: Lane, i: nat, sooner: bool): Lane
    requires i + 1 < |l.sorted| && l.sorted[i] in l.fifo && l.sorted[i + 1] in l.fifo && l.sorted[i] != l.sorted[i + 1]
    requires l.sorted[i].id in l.size && l.sorted[i + 1].id in l.size
  {
    Grown(Removed(Requeued(l, i, sooner), i + 1), i, l.size[l.sorted[i + 1].id])
  }

  /** Two requests that touch may be merged. */
  lemma MergeInv(l: Lane, i: nat, sooner: bool)
    requires LaneInv(l) && i + 1 < |l.sorted| && End(l, l.sorted[i]) == l.sorted[i + 1].sector
    ensures l.sorted[i] in l.fifo && l.sorted[i + 1] in l.fifo && l.sorted[i] != l.sorted[i + 1]
    ensures l.sorted[i].id in l.size && l.sorted[i + 1].id in l.size
    ensures LaneInv(Merged(l, i, sooner))
  {
    hide Best, Choose, Prefers, FindNext, IndexOf, TakePlace, Requeued, Without;
    assert l.sorted[i] in multiset(l.sorted) && l.sorted[i + 1] in multiset(l.sorted);
    var m := Requeued(l, i, sooner);
    RemoveInv(m, i + 1);
    MergeRoom(l, i);
    GrowInv(Removed(m, i + 1), i, l.size[l.sorted[i + 1].id]);
  }

  lemma MergeRoom(l: Lane, i: nat)
    requires Ascending(l.sorted) && Spread(l.sorted, l.size) && i + 1 < |l.sorted|
    requires End(l, l.sorted[i]) == l.sorted[i + 1].sector
    ensures var s := Without(l.sorted, i + 1);
            && i < |s| && s[i] == l.sorted[i]
            && (i + 1 < |s| ==> End(l, l.sorted[i]) + l.size[l.sorted[i + 1].id] <= s[i + 1].sector)
  {}
}
