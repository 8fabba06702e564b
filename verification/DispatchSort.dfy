/**
 The sorted insertion into the dispatch list. Entries that must not be passed are
 fences: barriers, requests already started, and requests of the other direction.
 */
module DispatchSort {
  import opened Lists

  datatype Entry = Entry(id: nat, sector: nat, write: bool, barrier: bool, started: bool)

  /** One sweep of the disk from `boundary` on: the sectors at or past it come first. */
  predicate Less(boundary: nat, a: Entry, b: Entry) {
    if (a.sector >= boundary) != (b.sector >= boundary) then a.sector >= boundary else a.sector < b.sector
  }

  predicate Fence(rq: Entry, e: Entry) { e.write != rq.write || e.barrier || e.started }

  /** From entry `k` on there is no fence for `rq`. */
  ghost predicate Open(s: seq<Entry>, rq: Entry, k: nat) {
    forall i :: k <= i < |s| ==> !Fence(rq, s[i])
  }

  /** Where the entries behind the last fence begin. */
  function BehindFence(s: seq<Entry>, rq: Entry): (k: nat)
    ensures k <= |s| && Open(s, rq, k) && (k > 0 ==> Fence(rq, s[k - 1]))
  {
    if s == [] || Fence(rq, s[|s| - 1]) then |s| else BehindFence(s[..|s| - 1], rq)
  }

  ghost predicate Sorted(s: seq<Entry>, boundary: nat, k: nat) {
    forall i, j :: k <= i < j < |s| ==> !Less(boundary, s[j], s[i])
  }

  class Dispatch {
    var queueHead: seq<Entry>
    var endSector: nat

    /** The list walk of elv_dispatch_sort, from the tail. */
    method Place(rq: Entry) returns (p: nat)
      ensures p <= |queueHead| && Open(queueHead, rq, p)
      ensures forall i :: p <= i < |queueHead| ==> Less(endSector, rq, queueHead[i])
      ensures p > 0 ==> Fence(rq, queueHead[p - 1]) || !Less(endSector, rq, queueHead[p - 1])
    {
      p := |queueHead|;
      while p > 0
        invariant 0 <= p <= |queueHead| && Open(queueHead, rq, p)
        invariant forall i :: p <= i < |queueHead| ==> Less(endSector, rq, queueHead[i])
      {
        var pos := queueHead[p - 1];
        if pos.write != rq.write || pos.barrier || pos.started {
          break;
        }
        if rq.sector >= endSector {
          if pos.sector < endSector {
            p := p - 1;
            continue;
          }
        } else if pos.sector >= endSector {
          break;
        }
        if rq.sector >= pos.sector {
          break;
        }
        p := p - 1;
      }
    }

    /** elv_dispatch_sort: no fence is passed, the rest keeps its order, and what was sorted stays so. */
    method Sort(rq: Entry) returns (p: nat)
      modifies this`queueHead
      ensures p <= |old(queueHead)| && queueHead == InsertAt(old(queueHead), p, rq) && Open(old(queueHead), rq, p)
      ensures var k := BehindFence(old(queueHead), rq);
              k <= p && (Sorted(old(queueHead), endSector, k) ==> Sorted(queueHead, endSector, k))
      ensures forall i :: p <= i < |old(queueHead)| ==> Less(endSector, rq, old(queueHead)[i])
      ensures p > 0 && !Fence(rq, old(queueHead)[p - 1]) ==> !Less(endSector, rq, old(queueHead)[p - 1])
    {
      p := Place(rq);
      ghost var s, k := queueHead, BehindFence(queueHead, rq);
      if Sorted(s, endSector, k) {
        SortedInsert(s, endSector, rq, p, k);
      }
      queueHead := InsertAt(queueHead, p, rq);
    }

    /** elv_dispatch_add_tail: the sweep starts anew behind the request, which is then
        the last of it: nothing that starts outside the request comes after it. */
    method AddTail(rq: Entry, nrSectors: nat)
      modifies this
      ensures queueHead == old(queueHead) + [rq] && endSector == rq.sector + nrSectors
      ensures nrSectors > 0 ==>
                forall e: Entry :: e.sector <= rq.sector || e.sector >= endSector ==> !Less(endSector, rq, e)
    {
      endSector := rq.sector + nrSectors;
      queueHead := queueHead + [rq];
    }
  }

  lemma LessTotal(boundary: nat, a: Entry, b: Entry, c: Entry)
    ensures Less(boundary, a, b) && !Less(boundary, c, b) ==> Less(boundary, a, c)
    ensures !Less(boundary, b, a) && !Less(boundary, c, b) ==> !Less(boundary, c, a)
    ensures Less(boundary, a, b) ==> !Less(boundary, b, a)
  {}

  lemma SortedInsert(s: seq<Entry>, boundary: nat, rq: Entry, p: nat, k: nat)
    requires k <= p <= |s| && Open(s, rq, k) && Sorted(s, boundary, k)
    requires forall i :: p <= i < |s| ==> Less(boundary, rq, s[i])
    requires p > 0 ==> Fence(rq, s[p - 1]) || !Less(boundary, rq, s[p - 1])
    ensures Sorted(InsertAt(s, p, rq), boundary, k)
  {
    hide Less, Fence;
    var t := InsertAt(s, p, rq);
    forall i, j | k <= i < j < |t|
      ensures !Less(boundary, t[j], t[i])
    {
      if i == p {
        LessTotal(boundary, rq, t[j], t[j]);
        assert t[j] == s[j - 1];
      } else if j == p {
        assert t[i] == s[i];
        NotAfter(s, boundary, rq, p, k, i);
      } else if i < p {
        assert t[i] == s[i] && (if j < p then t[j] == s[j] else t[j] == s[j - 1]);
      } else {
        assert t[i] == s[i - 1] && t[j] == s[j - 1];
      }
    }
  }

  lemma NotAfter(s: seq<Entry>, boundary: nat, rq: Entry, p: nat, k: nat, i: nat)
    requires 0 < p <= |s| && k <= i < p && Open(s, rq, k) && Sorted(s, boundary, k)
    requires Fence(rq, s[p - 1]) || !Less(boundary, rq, s[p - 1])
    ensures !Less(boundary, rq, s[i])
  {
    assert !Fence(rq, s[p - 1]);
    if i < p - 1 {
      assert !Less(boundary, s[p - 1], s[i]);
      LessTotal(boundary, s[i], s[p - 1], rq);
    }
  }
}
