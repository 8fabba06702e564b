/**
 The anticipatory scheduler's cached next request, for one direction. A lane has
 the requests in sector order, the same requests in arrival order, the request to
 go to next and the sector where the last dispatched request ended.
 */
module AsCache {
  import opened Lists

  const MAXBACK := 1024 * 1024
  const BACK_PENALTY := 2

  datatype Rq = Rq(id: nat, sector: nat)

  /** `size` maps a request to its number of sectors, which back merges let grow. */
  datatype Lane = Lane(sorted: seq<Rq>, fifo: seq<Rq>, size: map<nat, nat>, next: Option<Rq>, last: nat)

  /** as_choose_req */
  function Choose(last: nat, a: Option<Rq>, b: Option<Rq>): Option<Rq> {
    if a.None? || a == b then b
    else if b.None? then a
    else
      var s1, s2 := a.value.sector, b.value.sector;
      var wrap1, wrap2 := s1 < last && s1 + MAXBACK < last, s2 < last && s2 + MAXBACK < last;
      var d1 := if s1 >= last then s1 - last else (last - s1) * BACK_PENALTY;
      var d2 := if s2 >= last then s2 - last else (last - s2) * BACK_PENALTY;
      if !wrap1 && wrap2 then a
      else if !wrap2 && wrap1 then b
      else if wrap1 && wrap2 then (if s1 <= s2 then a else b)
      else if d1 < d2 then a
      else if d2 < d1 then b
      else if s1 >= s2 then a else b
  }

  /** Too far behind the head to go back to. */
  predicate Wraps(last: nat, r: Rq) { r.sector + MAXBACK < last }

  /** The distance from the head; going back costs twice as much. */
  ghost function Cost(last: nat, r: Rq): int {
    if r.sector < last then BACK_PENALTY * (last - r.sector) else r.sector - last
  }

  /** A short way comes before one round the disk, then the cheaper one, and behind the head the lowest. */
  ghost predicate Better(last: nat, a: Rq, b: Rq) {
    if Wraps(last, a) != Wraps(last, b) then Wraps(last, b)
    else if Wraps(last, a) then a.sector <= b.sector
    else Cost(last, a) < Cost(last, b) || (Cost(last, a) == Cost(last, b) && a.sector >= b.sector)
  }

  /** The choice is exactly the better one. */
  lemma ChooseExact(last: nat, a: Rq, b: Rq)
    ensures Choose(last, Some(a), Some(b)) == Some(if Better(last, a, b) then a else b)
    ensures Choose(last, None, Some(b)) == Some(b) && Choose(last, Some(a), None) == Some(a)
    ensures Choose(last, None, None) == None
  {}

  /** as_find_next_rq for entry `i`: its neighbours, or the first entry when nothing follows. */
  function FindNext(l: Lane, i: nat): Option<Rq>
    requires i < |l.sorted|
  {
    var prev := if i > 0 then Some(l.sorted[i - 1]) else None;
    var next := if i + 1 < |l.sorted| then Some(l.sorted[i + 1]) else if i > 0 then Some(l.sorted[0]) else None;
    Choose(l.last, next, prev)
  }

  /** `a` is at least as good a next request as `b`. */
  predicate Prefers(last: nat, a: Rq, b: Rq) { Choose(last, Some(a), Some(b)) == Some(a) }

  ghost predicate Ascending(s: seq<Rq>) {
    forall i, j :: 0 <= i < j < |s| ==> s[i].sector < s[j].sector
  }

  /** Every request has a size, and no request begins before its predecessor ends. */
  ghost predicate Disjoint(s: seq<Rq>, size: map<nat, nat>) {
    && (forall i :: 0 <= i < |s| ==> s[i].id in size)
    && (forall i, j :: 0 <= i < j < |s| ==> s[i].sector + size[s[i].id] <= s[j].sector)
  }

  /** `x` is the best choice over all of `s`, and there is none only when `s` is empty. */
  ghost predicate Best(last: nat, s: seq<Rq>, x: Option<Rq>) {
    match x
    case None => s == []
    case Some(a) => a in s && forall b :: b in s ==> Prefers(last, a, b)
  }

  lemma WithoutMembers(s: seq<Rq>, i: nat, b: Rq)
    requires i < |s| && b in Without(s, i)
    ensures exists j :: 0 <= j < |s| && j != i && s[j] == b
  {
    var k :| 0 <= k < |Without(s, i)| && Without(s, i)[k] == b;
    var j := if k < i then k else k + 1;
    assert s[j] == b;
  }

  lemma InWithout(s: seq<Rq>, i: nat, j: nat)
    requires i < |s| && j < |s| && i != j
    ensures s[j] in Without(s, i)
  {
    var k := if j < i then j else j - 1;
    assert Without(s, i)[k] == s[j];
  }

  lemma PrefersTrans(last: nat, a: Rq, b: Rq, c: Rq)
    requires Prefers(last, a, b) && Prefers(last, b, c)
    requires a.sector == b.sector ==> a == b
    requires b.sector == c.sector ==> b == c
    requires a.sector == c.sector ==> a == c
    ensures Prefers(last, a, c)
  {}

  lemma ChooseBest(last: nat, a: Rq, b: Rq)
    requires a.sector == b.sector ==> a == b
    ensures var c := Choose(last, Some(a), Some(b));
            c.Some? && (c.value == a || c.value == b) && Prefers(last, c.value, a) && Prefers(last, c.value, b)
  {}

  /** as_update_rq: weighing the new request against the cached one is enough. */
  lemma AddKeepsBest(last: nat, s: seq<Rq>, x: Option<Rq>, r: Rq, t: seq<Rq>)
    requires Best(last, s, x)
    requires forall b :: b in s && b.sector == r.sector ==> b == r
    requires forall b, c :: b in s && c in s && b.sector == c.sector ==> b == c
    requires forall b :: b in t <==> b in s || b == r
    ensures Best(last, t, Choose(last, Some(r), x))
  {
    if x.Some? {
      var y := Choose(last, Some(r), x);
      ChooseBest(last, r, x.value);
      forall b | b in t
        ensures Prefers(last, y.value, b)
      {
        if b != r {
          PrefersTrans(last, y.value, x.value, b);
        }
      }
    } else {
      assert forall b :: b in t ==> b == r;
      assert r in t;
    }
  }

  // Where the best of the others can be

  /** Among requests at or past `last` the lowest is best; it beats any request that wraps. */
  lemma ForwardOrder(last: nat, a: Rq, b: Rq)
    requires last <= a.sector && (a.sector < b.sector || b.sector + MAXBACK < last || a == b)
    ensures Prefers(last, a, b)
  {}

  /** Among requests before `last` the highest is best unless it wraps; then all below wrap and the lowest is best. */
  lemma BackwardOrder(last: nat, a: Rq, b: Rq)
    requires a.sector < last && b.sector < last
    ensures b.sector < a.sector && a.sector + MAXBACK >= last ==> Prefers(last, a, b)
    ensures a.sector < b.sector && b.sector + MAXBACK < last ==> Prefers(last, a, b)
    ensures a == b ==> Prefers(last, a, b)
  {}

  /** The head is between the entries before `i` and those after it. */
  ghost predicate Cut(last: nat, s: seq<Rq>, i: nat)
    requires i < |s|
  {
    && (forall j :: 0 <= j < i ==> s[j].sector < last)
    && (forall j :: i < j < |s| ==> s[j].sector >= last)
  }

  lemma CutPrefers(l: Lane, i: nat, j: nat)
    requires i < |l.sorted| && j < |l.sorted| && j != i && Ascending(l.sorted) && Cut(l.last, l.sorted, i)
    ensures FindNext(l, i).Some? && Prefers(l.last, FindNext(l, i).value, l.sorted[j])
  {
    hide Prefers, Choose;
    var s, n := l.sorted, |l.sorted|;
    var b := s[j];
    var p := if i > 0 then s[i - 1] else s[i + 1];
    var x := if i + 1 < n then s[i + 1] else s[0];
    NeighbourChoice(l, i, x, p);
    ChooseBest(l.last, x, p);
    var y := FindNext(l, i).value;
    var beaten := if j > i then x else if p.sector + MAXBACK >= l.last then p else x;
    assert Prefers(l.last, beaten, b) by {
      if j > i || (beaten == x && i + 1 < n) {
        ForwardOrder(l.last, x, b);
      } else {
        BackwardOrder(l.last, beaten, b);
      }
    }
    PrefersTrans(l.last, y, beaten, b);
  }

  lemma NeighbourChoice(l: Lane, i: nat, x: Rq, p: Rq)
    requires i < |l.sorted| && |l.sorted| > 1
    requires p == if i > 0 then l.sorted[i - 1] else l.sorted[i + 1]
    requires x == if i + 1 < |l.sorted| then l.sorted[i + 1] else l.sorted[0]
    ensures FindNext(l, i) == Choose(l.last, Some(x), Some(p))
  {}

  /** Looking at the neighbours is enough when the removed entry is where the head is. */
  lemma CutBest(l: Lane, i: nat)
    requires i < |l.sorted| && Ascending(l.sorted) && Cut(l.last, l.sorted, i)
    ensures Best(l.last, Without(l.sorted, i), FindNext(l, i))
  {
    hide Choose, Prefers;
    var s := l.sorted;
    if |s| > 1 {
      var j := if i == 0 then 1 else 0;
      CutPrefers(l, i, j);
      forall b | b in Without(s, i)
        ensures Prefers(l.last, FindNext(l, i).value, b)
      {
        WithoutMembers(s, i, b);
        var k :| 0 <= k < |s| && k != i && s[k] == b;
        CutPrefers(l, i, k);
      }
      FoundMember(l, i);
    } else {
      FoundNone(l, i);
    }
  }

  lemma FoundMember(l: Lane, i: nat)
    requires i < |l.sorted| && |l.sorted| > 1
    ensures FindNext(l, i).Some? && FindNext(l, i).value in Without(l.sorted, i)
  {
    InWithout(l.sorted, i, if i > 0 then i - 1 else i + 1);
    InWithout(l.sorted, i, if i + 1 < |l.sorted| then i + 1 else 0);
  }

  lemma FoundNone(l: Lane, i: nat)
    requires i < |l.sorted| == 1
    ensures FindNext(l, i) == None
  {}

  /** Dispatching any request: the head moves to its end, between its neighbours. */
  lemma DispatchKeepsBest(l: Lane, i: nat)
    requires i < |l.sorted| && Ascending(l.sorted) && Disjoint(l.sorted, l.size)
    requires l.last == l.sorted[i].sector + l.size[l.sorted[i].id]
    ensures Best(l.last, Without(l.sorted, i), FindNext(l, i))
  {
    CutBest(l, i);
  }

  /** When the neighbours of the dispatched entry `i` are enough, whether or not requests overlap. If the entry
      after it starts before the head, that one is taken, so nothing nearer may follow; if it is even too far back
      to go to, all others must be, and the lowest of them a neighbour. */
  predicate Clear(l: Lane, i: nat)
    requires i < |l.sorted|
  {
    var s, n := l.sorted, |l.sorted|;
    || i + 1 == n
    || s[i + 1].sector >= l.last
    || (if Wraps(l.last, s[i + 1]) then Wraps(l.last, s[n - 1]) && i <= 1
        else i + 2 == n || BACK_PENALTY * (l.last - s[i + 1].sector) < s[i + 2].sector - l.last)
  }

  /** The entry after the dispatched one starts before the head, but not too far back. */
  lemma OverlapNear(l: Lane, i: nat)
    requires i + 1 < |l.sorted| && Ascending(l.sorted) && l.last >= l.sorted[i].sector
    requires l.sorted[i + 1].sector < l.last && !Wraps(l.last, l.sorted[i + 1])
    ensures Best(l.last, Without(l.sorted, i), FindNext(l, i)) <==> Clear(l, i)
  {
    var s, a := l.sorted, l.sorted[i + 1];
    assert FindNext(l, i) == Some(a);
    InWithout(s, i, i + 1);
    if Clear(l, i) {
      forall b | b in Without(s, i)
        ensures Prefers(l.last, a, b)
      {
        WithoutMembers(s, i, b);
        var k :| 0 <= k < |s| && k != i && s[k] == b;
        if k <= i + 1 {
          BackwardOrder(l.last, a, b);
        } else {
          assert s[i + 2].sector <= b.sector;
        }
      }
    } else {
      InWithout(s, i, i + 2);
      assert !Prefers(l.last, a, s[i + 2]);
    }
  }

  lemma FarChoice(l: Lane, i: nat)
    requires i + 1 < |l.sorted| && Ascending(l.sorted) && Wraps(l.last, l.sorted[i + 1])
    ensures FindNext(l, i) == Some(if i > 0 then l.sorted[i - 1] else l.sorted[i + 1])
  {}

  lemma FarWorse(last: nat, a: Rq, b: Rq)
    requires Wraps(last, a) && (!Wraps(last, b) || b.sector < a.sector)
    ensures !Prefers(last, a, b)
  {}

  /** It is too far back. */
  lemma OverlapFar(l: Lane, i: nat)
    requires i + 1 < |l.sorted| && Ascending(l.sorted) && l.last >= l.sorted[i].sector
    requires l.sorted[i + 1].sector < l.last && Wraps(l.last, l.sorted[i + 1])
    ensures Best(l.last, Without(l.sorted, i), FindNext(l, i)) <==> Clear(l, i)
  {
    hide FindNext, Prefers, Choose;
    var s, n := l.sorted, |l.sorted|;
    var f := if i > 0 then s[i - 1] else s[i + 1];
    FarChoice(l, i);
    FoundMember(l, i);
    if Clear(l, i) {
      forall b | b in Without(s, i)
        ensures Prefers(l.last, f, b)
      {
        WithoutMembers(s, i, b);
        var k :| 0 <= k < |s| && k != i && s[k] == b;
        assert b.sector <= s[n - 1].sector;
        BackwardOrder(l.last, f, b);
      }
    } else if !Wraps(l.last, s[n - 1]) {
      InWithout(s, i, n - 1);
      FarWorse(l.last, f, s[n - 1]);
    } else {
      InWithout(s, i, 0);
      FarWorse(l.last, f, s[0]);
    }
  }

  /** Dispatching any request, with others that may overlap it: the request found is the best of all the others
      exactly if the way is clear. */
  lemma DispatchExact(l: Lane, i: nat)
    requires i < |l.sorted| && Ascending(l.sorted) && l.last >= l.sorted[i].sector
    ensures Best(l.last, Without(l.sorted, i), FindNext(l, i)) <==> Clear(l, i)
  {
    hide Best, FindNext, Wraps, Choose;
    if i + 1 == |l.sorted| || l.sorted[i + 1].sector >= l.last {
      CutBest(l, i);
    } else if Wraps(l.last, l.sorted[i + 1]) {
      OverlapFar(l, i);
    } else {
      OverlapNear(l, i);
    }
  }

  /** After a request of 100 sectors at 0 the scheduler goes back to one at 10 although one at 150 is nearer. */
  lemma OverlapMisses()
    ensures var l := Lane([Rq(0, 0), Rq(1, 10), Rq(2, 150)], [], map[], None, 100);
      Ascending(l.sorted) && !Clear(l, 0) && FindNext(l, 0) == Some(Rq(1, 10)) && Prefers(100, Rq(2, 150), Rq(1, 10))
  {}

  /** Removing the cached request while the head stays: the second best is among its neighbours, too. */
  lemma RemoveKeepsBest(l: Lane, i: nat)
    requires i < |l.sorted| && Ascending(l.sorted) && Best(l.last, l.sorted, Some(l.sorted[i]))
    ensures Best(l.last, Without(l.sorted, i), FindNext(l, i))
  {
    var s, x := l.sorted, l.sorted[i];
    if x.sector + MAXBACK >= l.last {
      forall j | 0 <= j < |s|
        ensures j < i ==> s[j].sector < l.last
        ensures j > i ==> s[j].sector >= l.last
      {
        assert Prefers(l.last, x, s[j]);
      }
      CutBest(l, i);
    } else {
      forall j | 0 <= j < |s|
        ensures s[j].sector + MAXBACK < l.last && (j != i ==> i < j)
      {
        assert Prefers(l.last, x, s[j]);
      }
      AllWrapped(l);
    }
  }

  lemma AllWrapped(l: Lane)
    requires |l.sorted| > 0 && Ascending(l.sorted)
    requires forall j :: 0 <= j < |l.sorted| ==> l.sorted[j].sector + MAXBACK < l.last
    ensures Best(l.last, Without(l.sorted, 0), FindNext(l, 0))
  {
    var s := l.sorted;
    assert Without(s, 0) == s[1..];
    if |s| > 1 {
      forall b | b in s[1..]
        ensures Prefers(l.last, s[1], b)
      {
        BackwardOrder(l.last, s[1], b);
      }
    }
  }
}
