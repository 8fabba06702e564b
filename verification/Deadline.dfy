/**
 The deadline scheduler: for reads and for writes a list in sector order and one
 in order of expiry, batches of sequential requests, and a limit to how long
 reads may keep writes waiting.
 */
module Deadline {
  import opened Lists

  const READ: nat := 0
  const WRITE: nat := 1

  datatype Lane = Lane(sorted: seq<nat>, fifo: seq<nat>, next: Option<nat>)

  function Successor(s: seq<nat>, r: nat): Option<nat> {
    if r !in s then None else
      var i := IndexOf(s, r);
      if i + 1 < |s| then Some(s[i + 1]) else None
  }

  /** deadline_del_rq_rb and rq_fifo_clear: request `r` leaves both lists. */
  function Removed(l: Lane, r: nat): Lane {
    Lane(Erase(l.sorted, r), Erase(l.fifo, r), if l.next == Some(r) then Successor(l.sorted, r) else l.next)
  }

  /** The lanes after request `r` of `dir` was dispatched: the next one is the one behind it. */
  function Gone(lanes: seq<Lane>, dir: nat, r: nat): seq<Lane>
    requires |lanes| == 2 && dir < 2
  {
    var l := lanes[dir];
    lanes[1 - dir := lanes[1 - dir].(next := None)][dir := Lane(Erase(l.sorted, r), Erase(l.fifo, r),
                                                                Successor(l.sorted, r))]
  }

  /** All requests of a list have a sector. */
  predicate Known(s: seq<nat>, sector: map<nat, nat>) { forall x :: x in s ==> x in sector }

  /** The request that starts at `at`, if there is one. */
  function Aliases(s: seq<nat>, sector: map<nat, nat>, at: nat): (a: seq<nat>)
    ensures a == [] || (|a| == 1 && a[0] in s)
    ensures Known(s, sector) ==> (a == [] <==> forall x :: x in s ==> sector[x] != at)
    ensures Known(s, sector) && a != [] ==> sector[a[0]] == at
  {
    if !Known(s, sector) then [] else
      var i := FindSector(s, sector, at);
      if i < |s| then [s[i]] else []
  }

  function GoneAlias(lanes: seq<Lane>, dir: nat, a: seq<nat>): (l: seq<Lane>)
    requires |lanes| == 2 && dir < 2
    ensures |l| == 2
  {
    if a == [] then lanes else Gone(lanes, dir, a[0])
  }

  /** The lanes with `r` put at its place. */
  function Placed(lanes: seq<Lane>, dir: nat, sector: map<nat, nat>, r: nat): seq<Lane>
    requires |lanes| == 2 && dir < 2
  {
    var s := lanes[dir].sorted;
    lanes[dir := lanes[dir].(sorted := if r in sector && Known(s, sector) then Insert(s, sector, r) else s + [r])]
  }

  /** The lanes with `r` at the end of the fifo. */
  function Queued(lanes: seq<Lane>, dir: nat, r: nat): (l: seq<Lane>)
    requires |lanes| == 2 && dir < 2
    ensures |l| == 2
  {
    lanes[dir := lanes[dir].(fifo := lanes[dir].fifo + [r])]
  }

  /** The lanes with `r` off its sort list. */
  function Unsorted(lanes: seq<Lane>, dir: nat, r: nat): (l: seq<Lane>)
    requires |lanes| == 2 && dir < 2
    ensures |l| == 2
  {
    lanes[dir := lanes[dir].(sorted := Erase(lanes[dir].sorted, r))]
  }

  /** A lane whose request `x`, if any, is off the sort list while it is being put at its place. */
  ghost predicate Part(l: Lane, sector: map<nat, nat>, x: Option<nat>) {
    && Ordered(l.sorted, sector)
    && (x.Some? ==> x.value in sector && x.value !in l.sorted)
    && multiset(l.fifo) == multiset(l.sorted) + Extra(x)
    && (l.next.Some? ==> l.next.value in l.sorted || l.next == x)
  }

  lemma SuccessorOther(s: seq<nat>, sector: map<nat, nat>, r: nat)
    requires Ordered(s, sector)
    ensures Successor(s, r).Some? ==> Successor(s, r).value in Erase(s, r)
  {
    OrderedNoDup(s, sector);
    EraseNoDup(s, r);
  }

  /** It is the next one up, and there is none only when no request starts further up. */
  lemma SuccessorIs(s: seq<nat>, sector: map<nat, nat>, r: nat)
    requires Ordered(s, sector) && r in s
    ensures match Successor(s, r)
            case None => forall x :: x in s ==> sector[x] <= sector[r]
            case Some(n) => n in s && sector[r] < sector[n]
                            && forall x :: x in s && sector[r] < sector[x] ==> sector[n] <= sector[x]
  {
    var i := IndexOf(s, r);
    forall x | x in s
      ensures IndexOf(s, x) <= i ==> sector[x] <= sector[r]
      ensures i < IndexOf(s, x) ==> sector[s[i + 1]] <= sector[x]
    {
      var j := IndexOf(s, x);
      assert s[j] == x;
    }
  }

  lemma RemovedPart(l: Lane, sector: map<nat, nat>, r: nat, x: Option<nat>)
    requires Part(l, sector, x) && r in l.sorted
    ensures Part(Removed(l, r), sector, x)
  {
    hide Erase, Successor;
    OrderedErase(l.sorted, sector, r);
    OrderedNoDup(l.sorted, sector);
    EraseNoDup(l.sorted, r);
    EraseMultiset(l.sorted, r);
    EraseMultiset(l.fifo, r);
    assert r in multiset(l.sorted);
    SuccessorOther(l.sorted, sector, r);
  }

  lemma PartFacts(l: Lane, sector: map<nat, nat>)
    requires Part(l, sector, None)
    ensures l.fifo == [] <==> l.sorted == []
    ensures |l.fifo| == |l.sorted|
    ensures forall r :: r in l.fifo <==> r in l.sorted
  {
    assert |multiset(l.fifo)| == |l.fifo| && |multiset(l.sorted)| == |l.sorted|;
    forall r | r in l.fifo || r in l.sorted
      ensures r in l.fifo && r in l.sorted
    {
      assert r in multiset(l.fifo) <==> r in multiset(l.sorted);
    }
  }

  lemma PartNext(l: Lane, sector: map<nat, nat>, x: Option<nat>, next: Option<nat>)
    requires Part(l, sector, x) && (next.Some? ==> next.value in l.sorted)
    ensures Part(l.(next := next), sector, x)
  {}

  lemma MovePart(l: Lane, sector: map<nat, nat>, x: Option<nat>, r: nat)
    requires Part(l, sector, x) && r in l.sorted
    ensures r in sector && r in l.fifo && Part(l.(next := Successor(l.sorted, r)), sector, x)
    ensures Successor(l.sorted, r) != Some(r)
  {
    hide Erase, Successor;
    OrderedNoDup(l.sorted, sector);
    EraseNoDup(l.sorted, r);
    SuccessorOther(l.sorted, sector, r);
    PartNext(l, sector, x, Successor(l.sorted, r));
    assert r in multiset(l.sorted);
    assert r in multiset(l.fifo);
  }

  /** The fifo is in order of expiry and nothing in it expires after `limit`. */
  ghost predicate Timed(f: seq<nat>, expires: map<nat, nat>, limit: nat) {
    && (forall r :: r in f ==> r in expires && expires[r] <= limit)
    && (forall i, j :: 0 <= i < j < |f| ==> expires[f[i]] <= expires[f[j]])
  }

  /** So looking at the head is enough: when it has not expired, nothing has. */
  lemma HeadExpiresFirst(f: seq<nat>, expires: map<nat, nat>, limit: nat, r: nat)
    requires Timed(f, expires, limit) && r in f
    ensures expires[f[0]] <= expires[r]
  {
    var i := IndexOf(f, r);
    assert i > 0 ==> expires[f[0]] <= expires[f[i]];
  }

  lemma TimedErase(f: seq<nat>, expires: map<nat, nat>, limit: nat, r: nat)
    requires Timed(f, expires, limit)
    ensures Timed(Erase(f, r), expires, limit)
  {
    hide Erase, IndexOf;
    ErasedMembers(f, r);
    if r in f {
      var g := Erase(f, r);
      forall i, j | 0 <= i < j < |g|
        ensures expires[g[i]] <= expires[g[j]]
      {
        ErasedAt(f, r, i);
        ErasedAt(f, r, j);
      }
    }
  }

  lemma TimedFrame(f: seq<nat>, expires: map<nat, nat>, limit: nat, r: nat, t: nat)
    requires Timed(f, expires, limit) && r !in f
    ensures Timed(f, expires[r := t], limit)
  {}

  lemma TimedAdd(f: seq<nat>, expires: map<nat, nat>, limit: nat, r: nat)
    requires Timed(f, expires, limit) && r !in f
    ensures Timed(f + [r], expires[r := limit], limit)
  {
    var g, e := f + [r], expires[r := limit];
    assert forall x :: x in g ==> x in f || x == r;
  }

  /** A merged request inherits the place and the expiry of the one it swallowed, when that is sooner. */
  lemma TimedTakePlace(f: seq<nat>, expires: map<nat, nat>, limit: nat, a: nat, b: nat)
    requires Timed(f, expires, limit) && NoDup(f) && a in f && b in f && a != b
    ensures Timed(TakePlace(f, a, b), expires[a := expires[b]], limit)
  {
    var t := Erase(f, a);
    EraseNoDup(f, a);
    TimedErase(f, expires, limit, a);
    TimedFrame(t, expires, limit, a, expires[b]);
    var i := IndexOf(t, b);
    TimedInsert(t, expires[a := expires[b]], limit, i, a);
  }

  lemma TimedInsert(t: seq<nat>, expires: map<nat, nat>, limit: nat, i: nat, a: nat)
    requires Timed(t, expires, limit) && i < |t| && a in expires && expires[a] == expires[t[i]]
    ensures Timed(InsertAt(t, i, a), expires, limit)
  {
    var u := InsertAt(t, i, a);
    assert t[i] in t;
    forall r | r in u
      ensures r in expires && expires[r] <= limit
    {
      assert r in t || r == a;
    }
  }

  /** An upper bound for how many reads may still go before a waiting write. */
  function Patience(writesStarved: nat, fifoBatch: nat, starved: nat, batching: nat): int {
    (writesStarved - starved) * (if fifoBatch > 0 then fifoBatch else 1)
    + if batching < fifoBatch then fifoBatch - batching else 0
  }

  function Bound(writesStarved: nat, fifoBatch: nat): nat {
    (writesStarved + 1) * (if fifoBatch > 0 then fifoBatch else 1)
  }

  lemma PatienceStep(ws: nat, fb: nat, starved: nat, batching: nat, batching': nat)
    requires starved < ws && 0 < batching'
    ensures Patience(ws, fb, starved + 1, batching') < Patience(ws, fb, starved, batching)
  {
    var c := if fb > 0 then fb else 1;
    assert (ws - starved) * c == (ws - starved - 1) * c + c;
  }

  lemma PatienceBound(ws: nat, fb: nat, starved: nat, batching: nat)
    requires starved <= ws
    ensures 0 <= Patience(ws, fb, starved, batching) <= Bound(ws, fb)
  {
    var c := if fb > 0 then fb else 1;
    assert (ws - starved) * c >= 0;
    assert (ws + 1) * c == (ws - starved) * c + starved * c + c;
    assert starved * c >= 0;
  }

  /** All requests, dispatched or queued. */
  ghost function HeldBy(dispatch: seq<nat>, lanes: seq<Lane>): multiset<nat>
    requires |lanes| == 2
  {
    multiset(dispatch) + multiset(lanes[0].sorted) + multiset(lanes[1].sorted)
  }

  lemma HeldErase(d: seq<nat>, l: seq<Lane>, l': seq<Lane>, dir: nat, r: nat)
    requires |l| == |l'| == 2 && dir < 2 && r in l[dir].sorted
    requires l'[dir].sorted == Erase(l[dir].sorted, r) && l'[1 - dir].sorted == l[1 - dir].sorted
    ensures HeldBy(d, l') + multiset{r} == HeldBy(d, l) && HeldBy(d + [r], l') == HeldBy(d, l)
  {
    hide Erase;
    EraseMultiset(l[dir].sorted, r);
    assert r in multiset(l[dir].sorted);
    HeldInsert(d, l', l, dir, r);
    assert multiset(d + [r]) == multiset(d) + multiset{r};
  }

  lemma HeldInsert(d: seq<nat>, l: seq<Lane>, l': seq<Lane>, dir: nat, r: nat)
    requires |l| == |l'| == 2 && dir < 2 && multiset(l'[dir].sorted) == multiset(l[dir].sorted) + multiset{r}
    requires l'[1 - dir].sorted == l[1 - dir].sorted
    ensures HeldBy(d, l') == HeldBy(d, l) + multiset{r}
  {}

  class DeadlineData {
    const fifoExpire: seq<nat>
    const fifoBatch: nat
    const writesStarved: nat
    var lanes: seq<Lane>
    var sector: map<nat, nat>
    var nrSectors: map<nat, nat>
    var expires: map<nat, nat>
    var now: nat
    var batching: nat
    var starved: nat
    var lastSector: nat
    var dispatch: seq<nat>
    /** Reads dispatched in a row while a write was waiting. */
    ghost var readsInRow: nat

    /** The lists of both lanes, with request `x` of lane `dir` possibly off its sort list. */
    ghost predicate Shape(dir: nat, x: Option<nat>)
      reads this
    {
      && |lanes| == |fifoExpire| == 2 && dir < 2
      && Part(lanes[dir], sector, x) && Part(lanes[1 - dir], sector, None)
      && (forall r :: r in lanes[0].fifo ==> r !in lanes[1].fifo)
      && (forall r :: r in lanes[0].fifo || r in lanes[1].fifo ==> r in nrSectors)
      && (lanes[READ].next.None? || lanes[WRITE].next.None?)
      && Timed(lanes[0].fifo, expires, now + fifoExpire[0]) && Timed(lanes[1].fifo, expires, now + fifoExpire[1])
    }

    ghost predicate Fair()
      reads this
    {
      && starved <= writesStarved
      && readsInRow + Patience(writesStarved, fifoBatch, starved, batching) <= Bound(writesStarved, fifoBatch)
    }

    ghost predicate Valid()
      reads this
    {
      Shape(READ, None) && Fair()
    }

    constructor (fifoExpire: seq<nat>, fifoBatch: nat, writesStarved: nat)
      requires |fifoExpire| == 2
      ensures Valid() && dispatch == [] && readsInRow == 0 && lanes == [Lane([], [], None), Lane([], [], None)]
      ensures batching == starved == lastSector == now == 0
      ensures this.fifoExpire == fifoExpire && this.fifoBatch == fifoBatch && this.writesStarved == writesStarved
    {
      this.fifoExpire, this.fifoBatch, this.writesStarved := fifoExpire, fifoBatch, writesStarved;
      lanes := [Lane([], [], None), Lane([], [], None)];
      sector, nrSectors, expires, now, batching, starved, lastSector, dispatch, readsInRow :=
        map[], map[], map[], 0, 0, 0, 0, [], 0;
      PatienceBound(writesStarved, fifoBatch, 0, 0);
    }

    /** The clock moves on. */
    method Tick(d: nat)
      requires Valid()
      modifies this`now
      ensures Valid() && now == old(now) + d
    {
      hide Part;
      now := now + d;
    }

    /** deadline_remove_request */
    method RemoveRequest(dir: nat, r: nat, ghost x: Option<nat>)
      requires Shape(dir, x) && r in lanes[dir].sorted
      modifies this`lanes
      ensures Shape(dir, x) && lanes == old(lanes)[dir := Removed(old(lanes[dir]), r)]
    {
      hide Part, Erase, Timed;
      RemovedPart(lanes[dir], sector, r, x);
      TimedErase(lanes[dir].fifo, expires, now + fifoExpire[dir], r);
      ErasedMembers(lanes[dir].fifo, r);
      lanes := lanes[dir := Removed(lanes[dir], r)];
    }

    /** deadline_move_request */
    method MoveRequest(dir: nat, r: nat, ghost x: Option<nat>)
      requires Shape(dir, x) && r in lanes[dir].sorted
      modifies this`lanes, this`lastSector, this`dispatch
      ensures Shape(dir, x) && dispatch == old(dispatch) + [r]
      ensures lanes == Gone(old(lanes), dir, r)
      ensures r in sector && r in nrSectors && lastSector == sector[r] + nrSectors[r]
      ensures HeldBy(dispatch, lanes) == HeldBy(old(dispatch), old(lanes))
    {
      hide Erase, Timed, Successor, Part, HeldBy;
      ghost var l := lanes;
      MovePart(lanes[dir], sector, x, r);
      PartNext(lanes[1 - dir], sector, None, None);
      var next := Successor(lanes[dir].sorted, r);
      lanes := [lanes[0].(next := None), lanes[1].(next := None)];
      lanes := lanes[dir := lanes[dir].(next := next)];
      lastSector := sector[r] + nrSectors[r];
      RemoveRequest(dir, r, x);
      HeldErase(dispatch, l, lanes, dir, r);
      dispatch := dispatch + [r];
    }
  
    /** The retry loop of deadline_add_rq_rb: requests that start at `at` are dispatched. */
    method MoveAliases(dir: nat, at: nat, ghost x: Option<nat>)
      requires Shape(dir, x)
      modifies this`lanes, this`lastSector, this`dispatch
      ensures Shape(dir, x) && forall r :: r in lanes[dir].sorted ==> r in sector && sector[r] != at
      ensures var a := Aliases(old(lanes[dir].sorted), sector, at);
              && lanes == GoneAlias(old(lanes), dir, a) && dispatch == old(dispatch) + a
              && (if a == [] then lastSector == old(lastSector)
                  else a[0] in nrSectors && lastSector == at + nrSectors[a[0]])
      ensures forall r :: r in lanes[dir].fifo ==> r in old(lanes[dir].fifo)
      ensures lanes[1 - dir].fifo == old(lanes[1 - dir].fifo)
      ensures HeldBy(dispatch, lanes) == HeldBy(old(dispatch), old(lanes))
    {
      hide Part, Timed, Erase, FindSector, HeldBy, Successor;
      PartSectors(lanes[dir], sector, x);
      var i := FindSector(lanes[dir].sorted, sector, at);
      ghost var a := Aliases(lanes[dir].sorted, sector, at);
      assert dispatch == dispatch + [];
      while i < |lanes[dir].sorted|
        invariant Shape(dir, x) && forall r :: r in lanes[dir].sorted ==> r in sector
        invariant i == FindSector(lanes[dir].sorted, sector, at)
        invariant if i < |lanes[dir].sorted| || a == []
                  then lanes == old(lanes) && dispatch == old(dispatch) && lastSector == old(lastSector)
                  else && lanes == Gone(old(lanes), dir, a[0]) && dispatch == old(dispatch) + a
                       && a[0] in sector && a[0] in nrSectors && lastSector == sector[a[0]] + nrSectors[a[0]]
        invariant forall r :: r in lanes[dir].fifo ==> r in old(lanes[dir].fifo)
        invariant HeldBy(dispatch, lanes) == HeldBy(old(dispatch), old(lanes))
        decreases |lanes[dir].sorted|
      {
        OneAlias(lanes[dir], sector, x, i);
        ErasedMembers(lanes[dir].fifo, lanes[dir].sorted[i]);
        MoveRequest(dir, lanes[dir].sorted[i], x);
        PartSectors(lanes[dir], sector, x);
        i := FindSector(lanes[dir].sorted, sector, at);
      }
    }

    /** deadline_add_request for a request that is new. */
    method AddRequest(dir: nat, r: nat, at: nat, nr: nat)
      requires Valid() && dir < 2 && r !in lanes[0].fifo && r !in lanes[1].fifo
      modifies this`lanes, this`lastSector, this`dispatch, this`sector, this`nrSectors, this`expires
      ensures Valid() && r in lanes[dir].sorted && old(dispatch) <= dispatch
      ensures HeldBy(dispatch, lanes) == HeldBy(old(dispatch), old(lanes)) + multiset{r}
      ensures sector == old(sector)[r := at] && nrSectors == old(nrSectors)[r := nr]
      ensures expires == old(expires)[r := now + fifoExpire[dir]]
      ensures var a := Aliases(old(lanes[dir].sorted), old(sector), at);
              && dispatch == old(dispatch) + a
              && (if a == [] then lastSector == old(lastSector)
                  else a[0] in old(nrSectors) && lastSector == at + old(nrSectors)[a[0]])
              && lanes == Placed(Queued(GoneAlias(old(lanes), dir, a), dir, r), dir, sector, r)
    {
      hide Part, Timed, Insert, HeldBy, Aliases, GoneAlias, Erase, Successor;
      MoveAliases(dir, at, None);
      ghost var l := lanes;
      var limit := now + fifoExpire[dir];
      AddPart(lanes[dir], sector, r, at);
      FramePart(lanes[1 - dir], sector, r, at);
      TimedAdd(lanes[dir].fifo, expires, limit, r);
      TimedFrame(lanes[1 - dir].fifo, expires, now + fifoExpire[1 - dir], r, limit);
      sector, nrSectors, expires := sector[r := at], nrSectors[r := nr], expires[r := limit];
      lanes := lanes[dir := Lane(Insert(lanes[dir].sorted, sector, r), lanes[dir].fifo + [r], lanes[dir].next)];
      HeldInsert(dispatch, l, lanes, dir, r);
    }

    /** deadline_merged_request after a front merge: the request starts at another sector and is put at its place. */
    method FrontMerged(dir: nat, r: nat, at: nat)
      requires Valid() && dir < 2 && r in lanes[dir].sorted
      modifies this`lanes, this`lastSector, this`dispatch, this`sector
      ensures Valid() && r in lanes[dir].sorted && old(dispatch) <= dispatch
      ensures HeldBy(dispatch, lanes) == HeldBy(old(dispatch), old(lanes))
      ensures sector == old(sector)[r := at]
      ensures var l := Unsorted(old(lanes), dir, r);
              var a := Aliases(l[dir].sorted, old(sector), at);
              && dispatch == old(dispatch) + a && lanes == Placed(GoneAlias(l, dir, a), dir, sector, r)
              && (if a == [] then lastSector == old(lastSector)
                  else a[0] in nrSectors && lastSector == at + nrSectors[a[0]])
    {
      hide Part, Timed, Insert, Erase, HeldBy, Aliases, GoneAlias, Successor;
      ghost var l := lanes;
      DetachPart(lanes[dir], sector, r);
      OtherLane(lanes[dir], lanes[1 - dir], sector, r);
      lanes := lanes[dir := lanes[dir].(sorted := Erase(lanes[dir].sorted, r))];
      HeldErase(dispatch, l, lanes, dir, r);
      MoveAliases(dir, at, Some(r));
      l := lanes;
      AttachPart(lanes[dir], sector, r, at);
      FramePart(lanes[1 - dir], sector, r, at);
      sector := sector[r := at];
      lanes := lanes[dir := lanes[dir].(sorted := Insert(lanes[dir].sorted, sector, r))];
      HeldInsert(dispatch, l, lanes, dir, r);
    }

    /** deadline_merged_requests: `next` has been swallowed by `req`. */
    method MergedRequests(dir: nat, req: nat, next: nat)
      requires Valid() && dir < 2 && req in lanes[dir].sorted && next in lanes[dir].sorted && req != next
      modifies this`lanes, this`expires
      ensures Valid() && lanes[dir].sorted == Erase(old(lanes[dir].sorted), next)
      ensures lanes[1 - dir] == old(lanes[1 - dir])
      ensures req in old(expires) && next in old(expires)
      ensures expires == if old(expires)[next] < old(expires)[req] then old(expires)[req := old(expires)[next]]
                         else old(expires)
      ensures var l, f := old(lanes[dir]), old(lanes[dir].fifo);
              var f' := if old(expires)[next] < old(expires)[req] then TakePlace(f, req, next) else f;
              lanes[dir] == Removed(l.(fifo := f'), next)
    {
      hide Part, Timed, Erase, TakePlace;
      MergeFacts(lanes[dir], sector, expires, now + fifoExpire[dir], req, next);
      if expires[next] < expires[req] {
        OtherLane(lanes[dir], lanes[1 - dir], sector, req);
        TimedTakePlace(lanes[dir].fifo, expires, now + fifoExpire[dir], req, next);
        TimedFrame(lanes[1 - dir].fifo, expires, now + fifoExpire[1 - dir], req, expires[next]);
        TakePlaceLane(lanes[dir], sector, req, next);
        lanes := lanes[dir := lanes[dir].(fifo := TakePlace(lanes[dir].fifo, req, next))];
        expires := expires[req := expires[next]];
      }
      RemoveRequest(dir, next, None);
    }

    /** deadline_check_fifo: the head says whether anything has expired. */
    predicate CheckFifo(dir: nat)
      requires |lanes| == 2 && dir < 2 && lanes[dir].fifo != [] && lanes[dir].fifo[0] in expires
      reads this
    {
      now > expires[lanes[dir].fifo[0]]
    }

    lemma CheckFifoExact(dir: nat)
      requires Valid() && dir < 2 && lanes[dir].fifo != []
      ensures lanes[dir].fifo[0] in expires
      ensures CheckFifo(dir) == exists r :: r in lanes[dir].fifo && r in expires && now > expires[r]
    {
      hide Part, Fair;
      assert lanes[dir].fifo[0] in lanes[dir].fifo;
      forall r | r in lanes[dir].fifo
        ensures expires[lanes[dir].fifo[0]] <= expires[r]
      {
        HeadExpiresFirst(lanes[dir].fifo, expires, now + fifoExpire[dir], r);
      }
    }

    /** The choice of a direction and of a request in it when no batch goes on. */
    method NewBatch(anyReads: bool, anyWrites: bool) returns (dir: nat, r: nat)
      requires Valid() && (anyReads || anyWrites) && anyReads == (lanes[READ].fifo != [])
      requires anyWrites == (lanes[WRITE].fifo != [])
      modifies this`batching, this`starved
      ensures dir < 2 && r in lanes[dir].sorted && starved <= writesStarved
      ensures dir == WRITE <==> !anyReads || (anyWrites && old(starved) >= writesStarved)
      ensures lanes[dir].fifo != [] && lanes[dir].fifo[0] in expires
      ensures if CheckFifo(dir) then r == lanes[dir].fifo[0] && batching == 0
              else if lanes[dir].next.Some? then r == lanes[dir].next.value && batching == old(batching)
              else r == lanes[dir].sorted[0] && batching == 0
      ensures starved == if dir == WRITE then 0 else if anyWrites then old(starved) + 1 else old(starved)
      ensures dir == READ && anyWrites ==>
                Patience(writesStarved, fifoBatch, starved, batching + 1)
                < Patience(writesStarved, fifoBatch, old(starved), old(batching))
    {
      hide Part, Patience, Timed;
      ghost var b0, s0 := batching, starved;
      dir := WRITE;
      if anyReads {
        dir := READ;
        if anyWrites {
          if starved >= writesStarved {
            dir := WRITE;
          }
          starved := starved + 1;
        }
      }
      if dir == WRITE {
        starved := 0;
      }
      PartFacts(lanes[dir], sector);
      assert lanes[dir].fifo[0] in lanes[dir].fifo;
      HasExpiry(lanes[dir].fifo, expires, now + fifoExpire[dir]);
      if CheckFifo(dir) {
        batching, r := 0, lanes[dir].fifo[0];
      } else if lanes[dir].next.Some? {
        PartMember(lanes[dir], sector);
        r := lanes[dir].next.value;
      } else {
        batching, r := 0, lanes[dir].sorted[0];
      }
      if dir == READ && anyWrites {
        PatienceStep(writesStarved, fifoBatch, s0, b0, batching + 1);
      }
    }

    /** Whether the running batch goes on, and with which request; one that is not sequential ends it. */
    method Batch() returns (rq: Option<nat>, dir: nat)
      requires Valid()
      modifies this`batching
      ensures dir < 2 && Valid()
      ensures Patience(writesStarved, fifoBatch, starved, batching)
              <= Patience(writesStarved, fifoBatch, starved, old(batching))
      ensures rq.Some? ==> rq.value in lanes[dir].sorted && batching < fifoBatch
      ensures dir == if lanes[WRITE].next.Some? then WRITE else READ
      ensures var next := lanes[dir].next; next.Some? ==> next.value in sector
      ensures var next := lanes[dir].next;
              && rq == (if next.Some? && lastSector == sector[next.value] && old(batching) < fifoBatch then next
                        else None)
              && batching == old(batching) + if next.Some? && lastSector != sector[next.value] then fifoBatch else 0
    {
      hide Part, Patience, Timed, Bound;
      PartMember(lanes[READ], sector);
      PartMember(lanes[WRITE], sector);
      dir := if lanes[WRITE].next.Some? then WRITE else READ;
      rq := lanes[dir].next;
      if rq.Some? && lastSector != sector[rq.value] {
        PatienceLess(writesStarved, fifoBatch, starved, batching, batching + fifoBatch);
        batching := batching + fifoBatch;
      }
      if batching >= fifoBatch {
        rq := None;
      }
    }

    /** The direction of the running batch; the lanes never both have a next request. */
    ghost function BatchDir(): nat
      requires |lanes| == 2
      reads this
    {
      if lanes[WRITE].next.Some? then WRITE else READ
    }

    /** The running batch goes on: it has a next request, which is sequential, and is not used up. */
    ghost predicate GoesOn()
      requires |lanes| == 2
      reads this
    {
      var next := lanes[BatchDir()].next;
      next.Some? && next.value in sector && lastSector == sector[next.value] && batching < fifoBatch
    }

    /** The direction of a new batch: reads, unless there are none or writes have waited long enough. */
    ghost function NewDir(): nat
      requires |lanes| == 2
      reads this
    {
      if lanes[READ].fifo == [] || (lanes[WRITE].fifo != [] && starved >= writesStarved) then WRITE else READ
    }

    /** The oldest request of a direction is past its deadline. */
    ghost predicate Late(dir: nat)
      requires |lanes| == 2 && dir < 2
      reads this
    {
      lanes[dir].fifo != [] && lanes[dir].fifo[0] in expires && now > expires[lanes[dir].fifo[0]]
    }

    /** The request to serve, and its direction: the next one of a batch that goes on, else of the new direction
        the oldest if it is late, the next one, or the one with the lowest sector. */
    ghost function Choice(): (c: (nat, nat))
      requires Valid() && (lanes[READ].fifo != [] || lanes[WRITE].fifo != [])
      reads this
      ensures c.1 < 2 && c.0 in lanes[c.1].sorted
    {
      PartMember(lanes[READ], sector);
      PartMember(lanes[WRITE], sector);
      PartFacts(lanes[READ], sector);
      PartFacts(lanes[WRITE], sector);
      if GoesOn() then (lanes[BatchDir()].next.value, BatchDir())
      else
        var l := lanes[NewDir()];
        (if Late(NewDir()) then l.fifo[0] else if l.next.Some? then l.next.value else l.sorted[0], NewDir())
    }

    /** The count of sequential requests afterwards: a new batch begins at one, and a request that is not
        sequential uses the running one up. */
    ghost function BatchingAfter(): nat
      requires Valid()
      reads this
    {
      var next := lanes[BatchDir()].next;
      if GoesOn() then batching + 1
      else if Late(NewDir()) || lanes[NewDir()].next.None? then 1
      else
        batching + 1
        + if next.Some? && next.value in sector && lastSector != sector[next.value] then fifoBatch else 0
    }

    ghost function StarvedAfter(): nat
      requires Valid()
      reads this
    {
      if GoesOn() then starved
      else if NewDir() == WRITE then 0 else if lanes[WRITE].fifo != [] then starved + 1 else starved
    }

    /** The choice of the next request: the running batch goes on, or a new one begins. */
    method Select() returns (rq: Option<nat>, dir: nat)
      requires Valid()
      modifies this`batching, this`starved, this`readsInRow
      ensures Valid() && dir < 2 && (rq.Some? ==> rq.value in lanes[dir].sorted)
      ensures rq.Some? <==> lanes[READ].fifo != [] || lanes[WRITE].fifo != []
      ensures rq.Some? ==> (rq.value, dir) == old(Choice()) && batching == old(BatchingAfter())
      ensures rq.Some? ==> starved == old(StarvedAfter())
      ensures rq.None? ==> batching == old(batching) && starved == old(starved)
      ensures readsInRow == (if rq.Some? && dir == READ && lanes[WRITE].fifo != [] then old(readsInRow) + 1 else 0)
    {
      hide Part, Patience, Timed, Bound;
      var anyReads, anyWrites := lanes[READ].fifo != [], lanes[WRITE].fifo != [];
      PartMember(lanes[READ], sector);
      PartMember(lanes[WRITE], sector);
      rq, dir := Batch();
      if rq.None? {
        if !anyReads && !anyWrites {
          readsInRow := 0;
          return None, READ;
        }
        var r;
        dir, r := NewBatch(anyReads, anyWrites);
        rq := Some(r);
      } else {
        PatienceLess(writesStarved, fifoBatch, starved, batching, batching + 1);
      }
      batching := batching + 1;
      PatienceBound(writesStarved, fifoBatch, starved, batching);
      readsInRow := if dir == READ && anyWrites then readsInRow + 1 else 0;
    }

    /** deadline_dispatch_requests */
    method Dispatch() returns (done: bool, dir: nat)
      requires Valid()
      modifies this`lanes, this`lastSector, this`dispatch, this`batching, this`starved, this`readsInRow
      ensures Valid() && dir < 2
      ensures done <==> old(lanes[READ].fifo) != [] || old(lanes[WRITE].fifo) != []
      ensures done ==>
                && dispatch == old(dispatch) + [old(Choice().0)] && dir == old(Choice().1)
                && batching == old(BatchingAfter()) && starved == old(StarvedAfter())
      ensures done ==>
                var r := old(Choice().0);
                && lanes == Gone(old(lanes), dir, r)
                && r in sector && r in nrSectors && lastSector == sector[r] + nrSectors[r]
      ensures !done ==> dispatch == old(dispatch) && lanes == old(lanes) && lastSector == old(lastSector)
      ensures !done ==> batching == old(batching) && starved == old(starved)
      ensures readsInRow == (if done && dir == READ && old(lanes[WRITE].fifo) != [] then old(readsInRow) + 1 else 0)
      ensures readsInRow <= (writesStarved + 1) * if fifoBatch > 0 then fifoBatch else 1
      ensures HeldBy(dispatch, lanes) == HeldBy(old(dispatch), old(lanes))
    {
      hide Part, Patience, Timed, Erase, HeldBy;
      var rq;
      rq, dir := Select();
      PatienceBound(writesStarved, fifoBatch, starved, batching);
      done := rq.Some?;
      if done {
        PartFacts(lanes[dir], sector);
        MoveRequest(dir, rq.value, None);
      }
    }
  }

  lemma HasExpiry(f: seq<nat>, expires: map<nat, nat>, limit: nat)
    requires Timed(f, expires, limit) && f != []
    ensures f[0] in expires
  {}

  lemma PartMember(l: Lane, sector: map<nat, nat>)
    requires Part(l, sector, None)
    ensures l.next.Some? ==> l.next.value in l.sorted && l.next.value in sector
    ensures l.fifo == [] <==> l.sorted == []
  {
    PartFacts(l, sector);
  }

  /** More sequential requests made, less patience; strictly while the batch goes on. */
  lemma PatienceLess(ws: nat, fb: nat, starved: nat, b: nat, b': nat)
    requires b <= b'
    ensures Patience(ws, fb, starved, b') <= Patience(ws, fb, starved, b)
    ensures b < b' && b < fb ==> Patience(ws, fb, starved, b') < Patience(ws, fb, starved, b)
  {}

  lemma PartSectors(l: Lane, sector: map<nat, nat>, x: Option<nat>)
    requires Part(l, sector, x)
    ensures (forall r :: r in l.sorted ==> r in sector) && NoDup(l.sorted)
  {
    OrderedNoDup(l.sorted, sector);
  }

  /** Requests start at sectors of their own. */
  lemma OneAlias(l: Lane, sector: map<nat, nat>, x: Option<nat>, i: nat)
    requires Part(l, sector, x) && i < |l.sorted|
    ensures l.sorted[i] in sector && |Erase(l.sorted, l.sorted[i])| < |l.sorted|
    ensures forall r :: r in Erase(l.sorted, l.sorted[i]) ==> r in sector && sector[r] != sector[l.sorted[i]]
  {
    hide Erase;
    PartSectors(l, sector, x);
    EraseNoDup(l.sorted, l.sorted[i]);
    ErasedMembers(l.sorted, l.sorted[i]);
    forall r | r in Erase(l.sorted, l.sorted[i])
      ensures r in sector && sector[r] != sector[l.sorted[i]]
    {
      var j :| 0 <= j < |l.sorted| && l.sorted[j] == r;
    }
  }

  lemma FramePart(l: Lane, sector: map<nat, nat>, r: nat, at: nat)
    requires Part(l, sector, None) && r !in l.fifo
    ensures Part(l, sector[r := at], None) && r !in l.sorted
  {
    PartFacts(l, sector);
  }

  lemma OtherLane(l: Lane, k: Lane, sector: map<nat, nat>, r: nat)
    requires Part(l, sector, None) && r in l.sorted
    requires forall a :: a in l.fifo ==> a !in k.fifo
    ensures r in l.fifo && r !in k.fifo
  {
    PartFacts(l, sector);
  }

  lemma AddPart(l: Lane, sector: map<nat, nat>, r: nat, at: nat)
    requires Part(l, sector, None) && r !in l.fifo && forall x :: x in l.sorted ==> x in sector && sector[x] != at
    ensures forall x :: x in l.sorted ==> x in sector[r := at]
    ensures var s := sector[r := at];
            && r in Insert(l.sorted, s, r) && multiset(Insert(l.sorted, s, r)) == multiset(l.sorted) + multiset{r}
            && Part(Lane(Insert(l.sorted, s, r), l.fifo + [r], l.next), s, None)
  {
    hide Insert;
    var s := sector[r := at];
    FramePart(l, sector, r, at);
    InsertMembers(l.sorted, s, r);
    InsertOrdered(l.sorted, s, r);
  }

  lemma DetachPart(l: Lane, sector: map<nat, nat>, r: nat)
    requires Part(l, sector, None) && r in l.sorted
    ensures Part(l.(sorted := Erase(l.sorted, r)), sector, Some(r))
  {
    hide Erase;
    OrderedErase(l.sorted, sector, r);
    OrderedNoDup(l.sorted, sector);
    EraseNoDup(l.sorted, r);
    EraseMultiset(l.sorted, r);
    assert r in multiset(l.sorted);
  }

  lemma AttachPart(l: Lane, sector: map<nat, nat>, r: nat, at: nat)
    requires Part(l, sector, Some(r)) && forall x :: x in l.sorted ==> x in sector && sector[x] != at
    ensures forall x :: x in l.sorted ==> x in sector[r := at]
    ensures var s := sector[r := at];
            && r in Insert(l.sorted, s, r) && multiset(Insert(l.sorted, s, r)) == multiset(l.sorted) + multiset{r}
            && Part(l.(sorted := Insert(l.sorted, s, r)), s, None)
  {
    hide Insert;
    var s := sector[r := at];
    InsertMembers(l.sorted, s, r);
    InsertOrdered(l.sorted, s, r);
  }

  lemma MergeFacts(l: Lane, sector: map<nat, nat>, expires: map<nat, nat>, limit: nat, a: nat, b: nat)
    requires Part(l, sector, None) && Timed(l.fifo, expires, limit) && a in l.sorted && b in l.sorted
    ensures a in l.fifo && b in l.fifo && a in expires && b in expires && NoDup(l.fifo)
  {
    PartFacts(l, sector);
    OrderedNoDup(l.sorted, sector);
    NoDupMultiset(l.sorted, l.fifo);
  }

  lemma NoDupMultiset(s: seq<nat>, t: seq<nat>)
    requires NoDup(s) && multiset(s) == multiset(t)
    ensures NoDup(t)
  {
    forall i, j | 0 <= i < j < |t|
      ensures t[i] != t[j]
    {
      Multiplicity(s, t[i]);
      assert t == t[..i] + [t[i]] + t[i + 1..j] + [t[j]] + t[j + 1..];
      assert t[i] == t[j] ==> multiset(t)[t[i]] >= 2;
    }
  }

  lemma {:induction false} Multiplicity(s: seq<nat>, r: nat)
    requires NoDup(s)
    ensures multiset(s)[r] <= 1
  {
    if s != [] {
      assert s == [s[0]] + s[1..];
      Multiplicity(s[1..], r);
      if r == s[0] {
        assert r !in s[1..];
        assert multiset(s[1..])[r] == 0;
      }
    }
  }

  lemma TakePlaceLane(l: Lane, sector: map<nat, nat>, a: nat, b: nat)
    requires Part(l, sector, None)
    ensures Part(l.(fifo := TakePlace(l.fifo, a, b)), sector, None)
    ensures forall r :: r in TakePlace(l.fifo, a, b) <==> r in l.fifo
  {
    hide TakePlace;
    var f := TakePlace(l.fifo, a, b);
    TakePlaceMultiset(l.fifo, a, b);
    forall r | r in f || r in l.fifo
      ensures r in f && r in l.fifo
    {
      assert r in multiset(f) <==> r in multiset(l.fifo);
    }
  }
}
