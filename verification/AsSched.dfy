/**
 The anticipatory scheduler: two lanes of queued requests and the batches in
 which it alternates between them. Clock comparisons and the decision to
 anticipate come in as parameters.
 */
module AsSched {
  import opened Lists
  import opened AsCache
  import opened AsLane

  const REQ_ASYNC: nat := 0
  const REQ_SYNC: nat := 1

  /** A request handed to the dispatch list; `removed` once the driver has taken it off (AS_RQ_REMOVED). */
  datatype Out = Out(rq: Rq, dir: nat, removed: bool)

  /** The count of writes left in a batch after one more request. */
  function Written(dir: nat, count: nat): nat { if dir == REQ_ASYNC && count != 0 then count - 1 else count }

  class AsData {
    var lanes: seq<Lane>
    var batchDir: nat
    var changedBatch: bool
    var newBatch: bool
    var currentWriteCount: nat
    var writeBatchCount: nat
    var nrDispatched: nat
    var outstanding: seq<Out>

    /** The caches are right and the counter counts. */
    ghost predicate Valid()
      reads this
    {
      && |lanes| == 2 && LaneInv(lanes[0]) && LaneInv(lanes[1])
      && batchDir < 2 && nrDispatched == |outstanding|
      && (newBatch ==> batchDir == REQ_SYNC && !changedBatch)
    }

    /** No batch mixes directions: while a change of batch waits, only requests of the old direction are out. */
    ghost predicate InDirection()
      reads this
    {
      && (forall o :: o in outstanding ==> o.dir == if changedBatch then 1 - batchDir else batchDir)
      && (changedBatch ==> outstanding != [])
    }

    /** as_init_queue; `writeExpire` is the time of a batch of writes. */
    constructor (writeExpire: nat)
      ensures Valid() && InDirection() && outstanding == [] && batchDir == REQ_ASYNC && !changedBatch && !newBatch
      ensures lanes == [Lane([], [], map[], None, 0), Lane([], [], map[], None, 0)] && currentWriteCount == 0
      ensures writeBatchCount == if writeExpire >= 20 then writeExpire / 10 else 2
    {
      lanes := [Lane([], [], map[], None, 0), Lane([], [], map[], None, 0)];
      batchDir, changedBatch, newBatch, currentWriteCount, writeBatchCount, nrDispatched, outstanding :=
        REQ_ASYNC, false, false, 0, if writeExpire / 10 < 2 then 2 else writeExpire / 10, 0, [];
    }

    /** as_move_to_dispatch */
    method MoveToDispatch(dir: nat, i: nat)
      requires Valid() && dir < 2 && i < |lanes[dir].sorted|
      modifies this`lanes, this`currentWriteCount, this`nrDispatched, this`outstanding
      ensures Valid()
      ensures lanes == old(lanes)[dir := Dispatched(old(lanes[dir]), i)]
      ensures outstanding == old(outstanding) + [Out(old(lanes[dir].sorted[i]), dir, false)]
      ensures currentWriteCount == Written(dir, old(currentWriteCount))
    {
      hide LaneInv, Dispatched;
      DispatchInv(lanes[dir], i);
      var rq := lanes[dir].sorted[i];
      if dir == REQ_ASYNC && currentWriteCount != 0 {
        currentWriteCount := currentWriteCount - 1;
      }
      lanes := lanes[dir := Dispatched(lanes[dir], i)];
      outstanding := outstanding + [Out(rq, dir, false)];
      nrDispatched := nrDispatched + 1;
    }
  
    /** as_batch_expired; `timeUp` is the clock past the batch's end. */
    predicate BatchExpired(timeUp: bool)
      reads this
    {
      !changedBatch && !newBatch && (timeUp || (batchDir == REQ_ASYNC && currentWriteCount == 0))
    }

    /** The head of the fifo of the running batch. */
    function FifoHead(): Option<Rq>
      requires |lanes| == 2 && batchDir < 2
      reads this
    {
      var fifo := lanes[batchDir].fifo;
      if fifo == [] then None else Some(fifo[0])
    }

    /** The running batch's time or count is up and there are requests of both directions. */
    ghost predicate Contended(timeUp: bool)
      requires |lanes| == 2
      reads this
    {
      && lanes[0].sorted != [] && lanes[1].sorted != [] && !changedBatch && !newBatch
      && (timeUp || (batchDir == REQ_ASYNC && currentWriteCount == 0))
    }

    /** Nothing is to be dispatched: there is nothing, a change of batch is under way, or a read is waited for. */
    ghost predicate Holds(waiting: bool, timeUp: bool, readExpired: bool, anticipate: bool)
      requires |lanes| == 2
      reads this
    {
      || (lanes[0].sorted == [] && lanes[1].sorted == []) || waiting || changedBatch
      || (!Contended(timeUp) && batchDir == REQ_SYNC && anticipate && !(readExpired && lanes[REQ_SYNC].sorted != []))
    }

    /** The running batch goes on. */
    ghost predicate GoesOn(timeUp: bool)
      requires |lanes| == 2 && batchDir < 2
      reads this
    {
      !Contended(timeUp) && lanes[batchDir].sorted != []
    }

    /**
     as_dispatch_request without force. `waiting`: an anticipation is under way; `readExpired`, `expired`: the
     outcomes of the two fifo checks, which an empty fifo never passes; `anticipate`: as_can_anticipate.

     The direction is kept exactly while the batch goes on; a change waits for the requests that are out. The
     oldest request goes out when a check finds it expired and when reads take over, else the cached one.
     */
    method Dispatch(waiting: bool, timeUp: bool, readExpired: bool, anticipate: bool, expired: bool) returns (n: nat)
      requires Valid()
      modifies this`lanes, this`batchDir, this`changedBatch, this`newBatch, this`currentWriteCount,
        this`nrDispatched, this`outstanding
      ensures Valid() && n <= 1
      ensures old(InDirection()) ==> InDirection()
      ensures n == 0 ==> lanes == old(lanes) && outstanding == old(outstanding)
      ensures old(Holds(waiting, timeUp, readExpired, anticipate)) ==>
                && n == 0 && batchDir == old(batchDir) && changedBatch == old(changedBatch)
                && newBatch == old(newBatch) && currentWriteCount == old(currentWriteCount)
      ensures !old(Holds(waiting, timeUp, readExpired, anticipate)) ==>
                && batchDir == (if old(GoesOn(timeUp)) then old(batchDir) else 1 - old(batchDir))
                && (n == 0 <==> !old(GoesOn(timeUp)) && old(outstanding) != [])
                && changedBatch == (n == 0)
                && newBatch == (if old(GoesOn(timeUp)) then old(newBatch) else n == 1 && batchDir == REQ_SYNC)
      ensures !old(Holds(waiting, timeUp, readExpired, anticipate)) ==>
                var count := if batchDir == REQ_ASYNC && !old(GoesOn(timeUp)) then writeBatchCount
                             else old(currentWriteCount);
                currentWriteCount == if n == 1 then Written(batchDir, count) else count
      ensures n == 1 ==>
                var l := old(lanes)[batchDir];
                var oldest := expired || (batchDir == REQ_SYNC && (readExpired || !old(GoesOn(timeUp))));
                && l.fifo != [] && l.next.Some?
                && outstanding == old(outstanding) + [Out(if oldest then l.fifo[0] else l.next.value, batchDir, false)]
    {
      hide LaneInv, Dispatched;
      LaneFacts(lanes[0]);
      LaneFacts(lanes[1]);
      var anyReads, anyWrites := lanes[REQ_SYNC].fifo != [], lanes[REQ_ASYNC].fifo != [];
      if (!anyReads && !anyWrites) || waiting || changedBatch {
        return 0;
      }
      var rq: Option<Rq> := None;
      var late := false;
      if !(anyReads && anyWrites && BatchExpired(timeUp)) {
        rq := lanes[batchDir].next;
        if batchDir == REQ_SYNC {
          if readExpired && anyReads {
            late := true;
          } else if anticipate {
            return 0;
          }
        }
      }
      if rq.None? && !late {
        SwitchBatch(anyReads, anyWrites);
        rq := if batchDir == REQ_SYNC then FifoHead() else lanes[batchDir].next;
      }
      if late || (expired && FifoHead().Some?) {
        rq := FifoHead();
      }
      if changedBatch {
        // the code warns when newBatch is set here
        assert !newBatch;
        if nrDispatched > 0 {
          return 0;
        }
        newBatch := newBatch || batchDir == REQ_SYNC;
        changedBatch := false;
      }
      var i := IndexOf(lanes[batchDir].sorted, rq.value);
      MoveToDispatch(batchDir, i);
      return 1;
    }

    /** The selection of a direction when no batch is running. */
    method SwitchBatch(anyReads: bool, anyWrites: bool)
      requires |lanes| == 2 && batchDir < 2 && (anyReads || anyWrites) && !changedBatch
      requires newBatch ==> batchDir == REQ_SYNC
      modifies this`batchDir, this`changedBatch, this`newBatch, this`currentWriteCount
      ensures batchDir == if anyReads && !(anyWrites && old(batchDir) == REQ_SYNC) then REQ_SYNC else REQ_ASYNC
      ensures changedBatch == (batchDir != old(batchDir))
      ensures newBatch == (old(newBatch) && batchDir == REQ_SYNC)
      ensures currentWriteCount == if batchDir == REQ_ASYNC then writeBatchCount else old(currentWriteCount)
    {
      if anyReads && !(anyWrites && batchDir == REQ_SYNC) {
        if batchDir == REQ_ASYNC {
          // and here
          assert !newBatch;
          changedBatch := true;
        }
        batchDir := REQ_SYNC;
      } else {
        if batchDir == REQ_SYNC {
          changedBatch, newBatch := true, false;
        }
        batchDir := REQ_ASYNC;
        currentWriteCount := writeBatchCount;
      }
    }
  
    /** Forced dispatch: both lanes are emptied, every queued request going out once. */
    method DispatchAll() returns (n: nat)
      requires Valid()
      modifies this
      ensures Valid() && lanes[0].sorted == lanes[1].sorted == [] && lanes[0].fifo == lanes[1].fifo == []
      ensures n == |old(lanes[0].sorted)| + |old(lanes[1].sorted)| && |outstanding| == |old(outstanding)| + n
      ensures Moved(old(lanes), old(outstanding), lanes, outstanding)
      ensures batchDir == REQ_SYNC && !changedBatch && !newBatch
      ensures InDirection() <==>
              old(lanes[REQ_ASYNC].sorted) == [] && forall o :: o in old(outstanding) ==> o.dir == REQ_SYNC
    {
      hide LaneInv, Dispatched, Moved;
      batchDir, changedBatch, newBatch := REQ_SYNC, false, false;
      ghost var l0, o0 := lanes, outstanding;
      MovedNone(l0, o0);
      n := 0;
      var dir := REQ_SYNC;
      while true
        invariant dir < 2 && Valid() && (dir == REQ_ASYNC ==> lanes[REQ_SYNC].sorted == [])
        invariant n == |l0[0].sorted| + |l0[1].sorted| - |lanes[0].sorted| - |lanes[1].sorted|
        invariant |outstanding| == |o0| + n && Moved(l0, o0, lanes, outstanding)
        invariant batchDir == REQ_SYNC && !changedBatch && !newBatch
        invariant |lanes[REQ_ASYNC].sorted| <= |l0[REQ_ASYNC].sorted|
        invariant (forall o :: o in outstanding ==> o.dir == REQ_SYNC) <==>
                  (forall o :: o in o0 ==> o.dir == REQ_SYNC) && |lanes[REQ_ASYNC].sorted| == |l0[REQ_ASYNC].sorted|
        decreases dir, |lanes[dir].sorted|
      {
        LaneFacts(lanes[dir]);
        if lanes[dir].next.None? {
          if dir == REQ_ASYNC {
            break;
          }
          dir := REQ_ASYNC;
        } else {
          ghost var l, o := lanes, outstanding;
          var i := IndexOf(lanes[dir].sorted, lanes[dir].next.value);
          DispatchInv(lanes[dir], i);
          MoveToDispatch(dir, i);
          DispatchedCount(l[dir], i);
          MovedStep(l0, o0, l, o, lanes, outstanding, dir, i);
          assert outstanding[|o|].dir == dir && outstanding[|o|] in outstanding;
          assert forall x :: x in outstanding <==> x in o || x == outstanding[|o|];
          n := n + 1;
        }
      }
      LaneFacts(lanes[0]);
      LaneFacts(lanes[1]);
    }

    /** as_add_request: a queued request that starts at the same sector is dispatched first. */
    method AddRequest(dir: nat, r: Rq, nr: nat)
      requires Valid() && dir < 2 && Fits(lanes[dir], r, nr)
      modifies this`lanes, this`currentWriteCount, this`nrDispatched, this`outstanding
      ensures Valid() && r in lanes[dir].sorted
      ensures FreshSector(old(lanes[dir].sorted), r.sector) ==>
                lanes == old(lanes)[dir := Add(old(lanes[dir]), r, nr)] && outstanding == old(outstanding)
      ensures !FreshSector(old(lanes[dir].sorted), r.sector) ==>
                && |outstanding| == |old(outstanding)| + 1 && outstanding[..|old(outstanding)|] == old(outstanding)
                && var o := outstanding[|old(outstanding)|];
                   o.dir == dir && o.rq in old(lanes[dir].sorted) && o.rq.sector == r.sector
      ensures old(InDirection()) ==>
                (InDirection() <==>
                   || FreshSector(old(lanes[dir].sorted), r.sector)
                   || dir == if changedBatch then 1 - batchDir else batchDir)
    {
      hide Dispatched, LaneInv, Add, Fits, Addable, FreshSector, FindAlias;
      var i := FindAlias(lanes[dir].sorted, r.sector);
      ghost var o := outstanding;
      if i < |lanes[dir].sorted| {
        AfterAlias(lanes[dir], r, nr, i);
        MoveToDispatch(dir, i);
        assert outstanding[|o|].dir == dir && outstanding[|o|] in outstanding;
      } else {
        NoAlias(lanes[dir], r, nr);
      }
      AddInv(lanes[dir], r, nr);
      AddMember(lanes[dir], r, nr);
      lanes := lanes[dir := Add(lanes[dir], r, nr)];
    }

    /** as_merged_requests, after the request in front has taken over the sectors of the one behind it. */
    method MergedRequests(dir: nat, i: nat, sooner: bool)
      requires Valid() && dir < 2 && i + 1 < |lanes[dir].sorted|
      requires lanes[dir].sorted[i].id in lanes[dir].size
      requires End(lanes[dir], lanes[dir].sorted[i]) == lanes[dir].sorted[i + 1].sector
      modifies this`lanes
      ensures Valid() && lanes[dir].sorted == Without(old(lanes[dir].sorted), i + 1)
      ensures var l := old(lanes[dir]); var req, next := l.sorted[i], l.sorted[i + 1];
              && lanes[dir].fifo == Erase(if sooner then TakePlace(l.fifo, req, next) else l.fifo, next)
              && req.id in l.size && next.id in l.size && lanes[dir].last == l.last
              && lanes[dir].size == l.size[req.id := l.size[req.id] + l.size[next.id]]
      ensures lanes[1 - dir] == old(lanes[1 - dir])
      ensures old(InDirection()) ==> InDirection()
    {
      hide LaneInv, Merged;
      MergeInv(lanes[dir], i, sooner);
      MergedSorted(lanes[dir], i, sooner);
      lanes := lanes[dir := Merged(lanes[dir], i, sooner)];
    }

    /** A back merge lets entry `i` grow, at most up to its successor. */
    method BackMerged(dir: nat, i: nat, nr: nat)
      requires Valid() && dir < 2 && i < |lanes[dir].sorted| && lanes[dir].sorted[i].id in lanes[dir].size
      requires i + 1 < |lanes[dir].sorted| ==>
              End(lanes[dir], lanes[dir].sorted[i]) + nr <= lanes[dir].sorted[i + 1].sector
      modifies this`lanes
      ensures Valid() && lanes == old(lanes)[dir := Grown(old(lanes[dir]), i, nr)]
      ensures old(InDirection()) ==> InDirection()
    {
      hide LaneInv;
      GrowInv(lanes[dir], i, nr);
      lanes := lanes[dir := Grown(lanes[dir], i, nr)];
    }

    /** as_activate_request: the driver takes request `k` of those out. */
    method Activate(k: nat)
      requires Valid() && k < |outstanding|
      modifies this`outstanding
      ensures Valid() && outstanding == old(outstanding)[k := old(outstanding[k]).(removed := true)]
      ensures old(InDirection()) ==> InDirection()
    {
      outstanding := outstanding[k := outstanding[k].(removed := true)];
    }

    /** as_deactivate_request: it is put back. */
    method Deactivate(k: nat)
      requires Valid() && k < |outstanding|
      modifies this`outstanding
      ensures Valid() && outstanding == old(outstanding)[k := old(outstanding[k]).(removed := false)]
      ensures old(InDirection()) ==> InDirection()
    {
      outstanding := outstanding[k := outstanding[k].(removed := false)];
    }

    /** as_completed_request: only a request the driver has taken completes; the last one out ends a change of batch. */
    method Completed(k: nat)
      requires Valid() && k < |outstanding|
      modifies this`changedBatch, this`newBatch, this`nrDispatched, this`outstanding
      ensures Valid()
      ensures !old(outstanding[k]).removed ==>
                outstanding == old(outstanding) && changedBatch == old(changedBatch) && newBatch == old(newBatch)
      ensures old(outstanding[k]).removed ==>
                && outstanding == Without(old(outstanding), k)
                && changedBatch == (old(changedBatch) && |old(outstanding)| > 1)
                && newBatch == ((old(newBatch) || (old(changedBatch) && !changedBatch && batchDir == REQ_SYNC))
                                && old(outstanding[k]).dir != batchDir)
      ensures old(InDirection()) ==> InDirection()
    {
      var o := outstanding[k];
      if !o.removed {
        return;
      }
      if changedBatch && nrDispatched == 1 {
        changedBatch := false;
        if batchDir == REQ_SYNC {
          newBatch := true;
        }
      }
      // the code warns when nothing is dispatched here
      assert nrDispatched > 0;
      nrDispatched := nrDispatched - 1;
      if newBatch && batchDir == o.dir {
        newBatch := false;
      }
      outstanding := Without(outstanding, k);
    }
  }

  // Aliases

  /** The new request has its own name, and apart from one that starts at the same sector, its own sectors. */
  ghost predicate Fits(l: Lane, r: Rq, nr: nat) {
    forall a {:trigger a in l.sorted} :: a in l.sorted ==>
      && a.id in l.size && a.id != r.id
      && (a.sector < r.sector ==> End(l, a) <= r.sector) && (r.sector < a.sector ==> r.sector + nr <= a.sector)
  }

  ghost predicate FreshSector(s: seq<Rq>, sector: nat) { forall a :: a in s ==> a.sector != sector }

  lemma AddMember(l: Lane, r: Rq, nr: nat)
    ensures r in Add(l, r, nr).sorted
  {
    InsertRqMembers(l.sorted, r);
  }

  function FindAlias(s: seq<Rq>, sector: nat): (i: nat)
    ensures i <= |s| && (i < |s| ==> s[i].sector == sector)
    ensures i == |s| <==> FreshSector(s, sector)
  {
    if s == [] then 0 else if s[0].sector == sector then 0 else
      assert forall a :: a in s ==> a == s[0] || a in s[1..];
      1 + FindAlias(s[1..], sector)
  }

  lemma NoAlias(l: Lane, r: Rq, nr: nat)
    requires Fits(l, r, nr) && FreshSector(l.sorted, r.sector)
    ensures Addable(l, r, nr)
  {}

  lemma AfterAlias(l: Lane, r: Rq, nr: nat, i: nat)
    requires LaneInv(l) && Fits(l, r, nr) && i < |l.sorted| && l.sorted[i].sector == r.sector
    ensures l.sorted[i].id in l.size && Addable(Dispatched(l, i), r, nr)
  {
    hide Best, FindNext;
    var m := Dispatched(l, i);
    forall a | a in m.sorted
      ensures a in l.sorted && a.sector != r.sector
    {
      WithoutMembers(l.sorted, i, a);
    }
  }

  lemma MergedSorted(l: Lane, i: nat, sooner: bool)
    requires i + 1 < |l.sorted| && l.sorted[i] in l.fifo && l.sorted[i + 1] in l.fifo && l.sorted[i] != l.sorted[i + 1]
    requires l.sorted[i].id in l.size && l.sorted[i + 1].id in l.size
    ensures Merged(l, i, sooner).sorted == Without(l.sorted, i + 1) && Merged(l, i, sooner).last == l.last
    ensures var req, next := l.sorted[i], l.sorted[i + 1];
      && Merged(l, i, sooner).fifo == Erase(if sooner then TakePlace(l.fifo, req, next) else l.fifo, next)
      && Merged(l, i, sooner).size == l.size[req.id := l.size[req.id] + l.size[next.id]]
  {}

  lemma DispatchedCount(l: Lane, i: nat)
    requires i < |l.sorted| && l.sorted[i].id in l.size
    ensures |Dispatched(l, i).sorted| == |l.sorted| - 1
  {}

  // Forced dispatch

  function Sent(o: seq<Out>, dir: nat): multiset<Rq> {
    if o == [] then multiset{}
    else Sent(o[..|o| - 1], dir) + if o[|o| - 1].dir == dir then multiset{o[|o| - 1].rq} else multiset{}
  }

  /** What left the lanes has been sent out in its direction. */
  ghost predicate Moved(l0: seq<Lane>, o0: seq<Out>, l: seq<Lane>, o: seq<Out>) {
    && |l0| == |l| == 2
    && (forall d: nat {:trigger Sent(o, d)} :: d < 2 ==>
          Sent(o, d) + multiset(l[d].sorted) == Sent(o0, d) + multiset(l0[d].sorted))
  }

  lemma MovedNone(l: seq<Lane>, o: seq<Out>)
    requires |l| == 2
    ensures Moved(l, o, l, o)
  {}

  lemma MovedStep(l0: seq<Lane>, o0: seq<Out>, l: seq<Lane>, o: seq<Out>, l': seq<Lane>, o': seq<Out>, dir: nat, i: nat)
    requires Moved(l0, o0, l, o) && dir < 2 && i < |l[dir].sorted| && l[dir].sorted[i].id in l[dir].size
    requires l' == l[dir := Dispatched(l[dir], i)] && o' == o + [Out(l[dir].sorted[i], dir, false)]
    ensures Moved(l0, o0, l', o')
  {
    hide FindNext;
    var r := l[dir].sorted[i];
    WithoutMultiset(l[dir].sorted, i);
    assert r in multiset(l[dir].sorted);
    assert o'[..|o'| - 1] == o;
    forall d: nat | d < 2
      ensures Sent(o', d) + multiset(l'[d].sorted) == Sent(o0, d) + multiset(l0[d].sorted)
    {
      assert Sent(o, d) + multiset(l[d].sorted) == Sent(o0, d) + multiset(l0[d].sorted);
    }
  }
}
