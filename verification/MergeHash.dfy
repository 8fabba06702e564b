/**
 The elevator's hash of requests by end sector, in which a bio looks for a
 request to be appended to, and the request that was last merged.
 */
module MergeHash {
  import opened Lists

  /** `end`: the queued requests and the sector after their last one; `nomerge`: those that may not be merged. */
  datatype Hash = Hash(fn: nat -> nat, buckets: seq<seq<nat>>, end: map<nat, nat>, nomerge: set<nat>)

  ghost predicate Total(h: Hash) {
    forall key {:trigger h.fn(key)} :: h.fn(key) < |h.buckets|
  }

  /** What is in a bucket is queued and belongs there. */
  ghost predicate BucketOk(h: Hash, b: nat)
    requires b < |h.buckets|
  {
    NoDup(h.buckets[b]) && forall r :: r in h.buckets[b] ==> r in h.end && h.fn(h.end[r]) == b
  }

  /** A request that may be merged is in the bucket of its end. */
  ghost predicate Found(h: Hash, r: nat)
    requires Total(h) && r in h.end
  {
    r !in h.nomerge ==> r in h.buckets[h.fn(h.end[r])]
  }

  ghost predicate Ok(h: Hash) {
    && Total(h)
    && (forall b: nat {:trigger BucketOk(h, b)} :: b < |h.buckets| ==> BucketOk(h, b))
    && (forall r {:trigger Found(h, r)} :: r in h.end ==> Found(h, r))
  }

  /** Takes `r` out of the bucket of its end. */
  function Unhash(h: Hash, r: nat): (g: Hash)
    requires r in h.end
    ensures g == h.(buckets := g.buckets) && |g.buckets| == |h.buckets|
  {
    var b := h.fn(h.end[r]);
    if b < |h.buckets| then h.(buckets := h.buckets[b := Erase(h.buckets[b], r)]) else h
  }

  /** Puts `r` into the bucket of a new end. */
  function Enter(h: Hash, r: nat, end: nat): Hash {
    var b := h.fn(end);
    h.(buckets := if b < |h.buckets| then h.buckets[b := [r] + h.buckets[b]] else h.buckets,
       end := h.end[r := end], nomerge := h.nomerge - {r})
  }

  function Forget(h: Hash, r: nat): Hash
    requires r in h.end
  {
    var g := Unhash(h, r);
    g.(end := h.end - {r}, nomerge := h.nomerge - {r})
  }

  lemma UnhashBuckets(h: Hash, r: nat, b: nat)
    requires Ok(h) && r in h.end && b < |h.buckets|
    ensures |Unhash(h, r).buckets| == |h.buckets| && NoDup(Unhash(h, r).buckets[b])
    ensures forall x :: x in Unhash(h, r).buckets[b] <==> x in h.buckets[b] && x != r
  {
    assert BucketOk(h, b);
    EraseNoDup(h.buckets[h.fn(h.end[r])], r) by { assert BucketOk(h, h.fn(h.end[r])); }
  }

  lemma ForgetOk(h: Hash, r: nat)
    requires Ok(h) && r in h.end
    ensures Ok(Forget(h, r))
  {
    hide Unhash;
    var g := Forget(h, r);
    forall b: nat | b < |h.buckets|
      ensures |g.buckets| == |h.buckets| && BucketOk(g, b)
    {
      UnhashBuckets(h, r, b);
      assert BucketOk(h, b);
    }
    UnhashBuckets(h, r, h.fn(h.end[r]));
    forall x | x in g.end
      ensures Found(g, x)
    {
      assert Found(h, x);
      UnhashBuckets(h, r, h.fn(h.end[x]));
    }
  }

  lemma EnterOk(h: Hash, r: nat, end: nat)
    requires Ok(h) && r !in h.end
    ensures Ok(Enter(h, r, end))
  {
    var g := Enter(h, r, end);
    forall b: nat | b < |h.buckets|
      ensures BucketOk(g, b)
    {
      assert BucketOk(h, b);
    }
    forall x | x in g.end
      ensures Found(g, x)
    {
      assert x != r ==> Found(h, x);
    }
  }

  /** A request that may not be merged need not be in the hash. */
  lemma UnmergeableOk(h: Hash, r: nat)
    requires Ok(h) && r in h.end && r in h.nomerge
    ensures Ok(Unhash(h, r))
  {
    var g := Unhash(h, r);
    hide Unhash;
    UnhashBuckets(h, r, h.fn(h.end[r]));
    forall b: nat | b < |h.buckets|
      ensures BucketOk(g, b)
    {
      UnhashBuckets(h, r, b);
      assert BucketOk(h, b);
    }
    forall x | x in g.end
      ensures Found(g, x)
    {
      assert Found(h, x);
      UnhashBuckets(h, r, h.fn(h.end[x]));
    }
  }

  lemma MarkOk(h: Hash, r: nat, end: nat)
    requires Ok(h) && (r !in h.end || end == h.end[r])
    ensures Ok(h.(end := h.end[r := end], nomerge := h.nomerge + {r}))
  {
    var g := h.(end := h.end[r := end], nomerge := h.nomerge + {r});
    forall b: nat | b < |h.buckets|
      ensures BucketOk(g, b)
    {
      assert BucketOk(h, b);
    }
    forall x | x in g.end
      ensures Found(g, x)
    {
      assert x != r ==> Found(h, x);
    }
  }

  class Elevator {
    var h: Hash
    var lastMerge: Option<nat>

    /** Neither the hash nor the cache names a request that is not queued. */
    ghost predicate Valid()
      reads this
    {
      Ok(h) && (lastMerge.Some? ==> lastMerge.value in h.end)
    }

    constructor (fn: nat -> nat, n: nat)
      requires forall key {:trigger fn(key)} :: fn(key) < n
      ensures Valid() && h.end == map[] && lastMerge == None
    {
      h, lastMerge := Hash(fn, seq(n, _ => []), map[], {}), None;
    }

    /** ELEVATOR_INSERT_SORT */
    method InsertSort(r: nat, end: nat, mergeable: bool)
      requires Valid() && r !in h.end
      modifies this
      ensures Valid() && h.end == old(h.end)[r := end]
      ensures h.nomerge == if mergeable then old(h.nomerge) - {r} else old(h.nomerge) + {r}
      ensures lastMerge == if mergeable && old(lastMerge).None? then Some(r) else old(lastMerge)
    {
      hide Ok;
      if mergeable {
        EnterOk(h, r, end);
        h := Enter(h, r, end);
        if lastMerge.None? {
          lastMerge := Some(r);
        }
      } else {
        MarkOk(h, r, end);
        h := h.(end := h.end[r := end], nomerge := h.nomerge + {r});
      }
    }

    /** A request that may no longer be merged, as ll_back_merge_fn finds: it is not tried
        first any more, but stays where it is until a look-up meets it. */
    method SetNoMerge(r: nat)
      requires Valid() && r in h.end
      modifies this
      ensures Valid() && h.end == old(h.end) && h.nomerge == old(h.nomerge) + {r}
      ensures lastMerge != Some(r) && (old(lastMerge) != Some(r) ==> lastMerge == old(lastMerge))
    {
      hide Ok;
      MarkOk(h, r, h.end[r]);
      assert h.end[r := h.end[r]] == h.end;
      h := h.(nomerge := h.nomerge + {r});
      if lastMerge == Some(r) {
        lastMerge := None;
      }
    }

    /** elv_merged_request: a back merge moves the end, a front merge does not. */
    method MergedRequest(r: nat, end: nat, back: bool)
      requires Valid() && r in h.end && r !in h.nomerge && (!back ==> end == h.end[r])
      modifies this
      ensures Valid() && h.end == old(h.end)[r := end] && h.nomerge == old(h.nomerge) && lastMerge == Some(r)
    {
      hide Ok;
      if back {
        Reposition(r, end);
      } else {
        assert h.end == h.end[r := end];
      }
      lastMerge := Some(r);
    }

    /** elv_rqhash_reposition */
    method Reposition(r: nat, end: nat)
      requires Valid() && r in h.end && r !in h.nomerge
      modifies this`h
      ensures Valid() && h.end == old(h.end)[r := end] && h.nomerge == old(h.nomerge)
    {
      hide Ok, Unhash;
      ForgetOk(h, r);
      ghost var e := h.end;
      h := Forget(h, r);
      EnterOk(h, r, end);
      h := Enter(h, r, end);
      assert (e - {r})[r := end] == e[r := end];
    }

    /** elv_merge_requests: `rq` has taken over `next` and ends where that ended. */
    method MergeRequests(rq: nat, next: nat)
      requires Valid() && rq in h.end && next in h.end && rq != next && rq !in h.nomerge
      modifies this
      ensures Valid() && h.end == old(h.end)[rq := old(h.end)[next]] - {next} && lastMerge == Some(rq)
      ensures h.nomerge == old(h.nomerge) - {next}
    {
      hide Ok, Unhash;
      Reposition(rq, h.end[next]);
      ForgetOk(h, next);
      h := Forget(h, next);
      lastMerge := Some(rq);
    }

    /** The hash and cache part of elv_dispatch_sort and elv_dispatch_add_tail. */
    method Dispatched(r: nat)
      requires Valid() && r in h.end
      modifies this
      ensures Valid() && h.end == old(h.end) - {r} && h.nomerge == old(h.nomerge) - {r}
      ensures lastMerge == if old(lastMerge) == Some(r) then None else old(lastMerge)
    {
      hide Ok, Unhash;
      if lastMerge == Some(r) {
        lastMerge := None;
      }
      ForgetOk(h, r);
      h := Forget(h, r);
    }

    /** elv_rqhash_find: finds a request iff a mergeable queued one ends at `offset`; drops unmergeable ones it
        meets. */
    method Find(offset: nat) returns (r: Option<nat>)
      requires Valid()
      modifies this`h
      ensures Valid() && h.end == old(h.end) && h.nomerge == old(h.nomerge)
      ensures r.Some? ==> r.value in h.end && r.value !in h.nomerge && h.end[r.value] == offset
      ensures r.None? ==> forall x :: x in h.end && x !in h.nomerge ==> h.end[x] != offset
    {
      hide Unhash;
      var b := h.fn(offset);
      var i := 0;
      while i < |h.buckets[b]|
        invariant Valid() && h.end == old(h.end) && h.nomerge == old(h.nomerge) && h.fn == old(h.fn)
        invariant b < |h.buckets| && 0 <= i <= |h.buckets[b]|
        invariant forall j :: 0 <= j < i ==> h.buckets[b][j] in h.end && h.end[h.buckets[b][j]] != offset
        decreases |h.buckets[b]| - i
      {
        assert BucketOk(h, b);
        var x := h.buckets[b][i];
        if x in h.nomerge {
          UnmergeableOk(h, x);
          UnhashAt(h, b, i);
          h := Unhash(h, x);
        } else if h.end[x] == offset {
          return Some(x);
        } else {
          i := i + 1;
        }
      }
      forall x | x in h.end && x !in h.nomerge
        ensures h.end[x] != offset
      {
        assert Found(h, x);
      }
      return None;
    }
  }

  lemma UnhashAt(h: Hash, b: nat, i: nat)
    requires b < |h.buckets| && BucketOk(h, b) && i < |h.buckets[b]|
    ensures Unhash(h, h.buckets[b][i]) == h.(buckets := h.buckets[b := Without(h.buckets[b], i)])
  {
    var s := h.buckets[b];
    assert s[i] in s;
  }
}
