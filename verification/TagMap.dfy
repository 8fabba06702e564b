/**
 Tagged command queueing: a bitmap of tags in use, the request that carries each
 tag, and a depth that may be changed while tags are outstanding.
 */
module TagMap {
  import opened Lists

  function Count(bits: seq<bool>): nat {
    if bits == [] then 0 else (if bits[0] then 1 else 0) + Count(bits[1..])
  }

  lemma {:induction false} CountSet(bits: seq<bool>, t: nat, b: bool)
    requires t < |bits| && bits[t] != b
    ensures Count(bits[t := b]) == Count(bits) + if b then 1 else -1
  {
    if t > 0 {
      assert bits[t := b][1..] == bits[1..][t - 1 := b];
      CountSet(bits[1..], t - 1, b);
    } else {
      assert bits[t := b][1..] == bits[1..];
    }
  }

  lemma {:induction false} CountPadded(bits: seq<bool>, n: nat)
    ensures Count(bits + seq(n, _ => false)) == Count(bits)
  {
    var z := seq(n, _ => false);
    if bits == [] {
      assert bits + z == z;
      CountNone(z);
    } else {
      assert (bits + z)[1..] == bits[1..] + z;
      CountPadded(bits[1..], n);
    }
  }

  lemma {:induction false} CountNone(bits: seq<bool>)
    requires forall i :: 0 <= i < |bits| ==> !bits[i]
    ensures Count(bits) == 0
  {
    if bits != [] {
      CountNone(bits[1..]);
    }
  }

  lemma FirstIn(s: seq<nat>)
    ensures s != [] ==> s[0] in s
  {}

  datatype Status = Ok | Full | Busy

  /** The depth that a new map gets. */
  function Clamp(depth: nat, limit: nat): nat { if depth > limit then limit else depth }

  /** The old map fits into a new, larger one exactly when the queue's limit is not below the old depth. */
  lemma CopyFits(depth: nat, limit: nat, before: nat)
    requires depth > before
    ensures before <= Clamp(depth, limit) <==> before <= limit
  {}

  /** A map of depth 200, to grow to 201 after the queue's number of requests was lowered to 4, does not fit
      into the new one. */
  lemma CopyOverflows()
    ensures Clamp(201, 2 * 4) < 200
  {}

  /** struct blk_queue_tag; `tag` is the tag that each outstanding request carries. */
  class BlkQueueTag {
    var tagIndex: seq<Option<nat>>
    var tagMap: seq<bool>
    var busyList: seq<nat>
    var busy: int
    var maxDepth: nat
    var realMaxDepth: nat
    var refcnt: nat
    var tag: map<nat, nat>

    /** A bit is set iff the index holds the request carrying that tag, and `busy` counts the bits. */
    ghost predicate Valid()
      reads this
    {
      && |tagIndex| == |tagMap| == realMaxDepth && maxDepth <= realMaxDepth
      && (forall t :: 0 <= t < realMaxDepth ==> (tagMap[t] <==> tagIndex[t].Some?))
      && (forall t :: 0 <= t < realMaxDepth && tagIndex[t].Some? ==>
            tagIndex[t].value in tag && tag[tagIndex[t].value] == t)
      && (forall r :: r in tag ==> tag[r] < realMaxDepth && tagIndex[tag[r]] == Some(r))
      && busy == Count(tagMap)
      && NoDup(busyList) && (forall r :: r in busyList <==> r in tag)
    }

    /** No two outstanding requests share a tag. */
    lemma NoSharing(a: nat, b: nat)
      requires Valid() && a in tag && b in tag && tag[a] == tag[b]
      ensures a == b
    {
      assert tagIndex[tag[a]] == Some(a);
    }

    /** __blk_queue_init_tags; there is no limit for a map that belongs to no queue. */
    constructor (depth: nat, limit: Option<nat>)
      ensures Valid() && tag == map[] && busy == 0 && refcnt == 1
      ensures maxDepth == realMaxDepth <= depth && (limit.Some? ==> maxDepth <= limit.value)
      ensures maxDepth == depth || limit == Some(maxDepth)
    {
      var n := if limit.Some? then Clamp(depth, limit.value) else depth;
      tagIndex, tagMap := seq(n, _ => None), seq(n, _ => false);
      busyList, busy, maxDepth, realMaxDepth, refcnt, tag := [], 0, n, n, 1, map[];
      CountNone(seq(n, _ => false));
    }

    /** A resize to this depth would need a larger map, which a shared one does not get. */
    predicate Refuses(depth: nat)
      reads this
    {
      depth > realMaxDepth && refcnt != 1
    }

    /** Another queue takes the map (blk_queue_init_tags): every depth that needs a larger map is refused
        from then on, and no other. */
    method Share()
      requires Valid() && refcnt > 0
      modifies this`refcnt
      ensures Valid() && refcnt == old(refcnt) + 1
      ensures forall depth: nat :: Refuses(depth) <==> depth > realMaxDepth
    {
      refcnt := refcnt + 1;
    }

    /** __blk_free_tags: the last one to let go has to find no tag in use. */
    method Free() returns (last: bool)
      requires Valid() && refcnt > 0 && (refcnt == 1 ==> tag == map[])
      modifies this`refcnt
      ensures Valid() && refcnt == old(refcnt) - 1 && (last <==> refcnt == 0)
    {
      refcnt := refcnt - 1;
      last := refcnt == 0;
      if last {
        NoneBusy();
        assert busy == 0 && busyList == [];
      }
    }

    lemma NoneBusy()
      requires Valid() && tag == map[]
      ensures busy == 0 && busyList == []
    {
      CountNone(tagMap);
      FirstIn(busyList);
    }

    /** find_first_zero_bit below the current depth */
    method FindFree() returns (t: nat)
      requires Valid()
      ensures t <= maxDepth && (forall i :: 0 <= i < t ==> tagMap[i]) && (t < maxDepth ==> !tagMap[t])
    {
      t := 0;
      while t < maxDepth && tagMap[t]
        invariant 0 <= t <= maxDepth && forall i :: 0 <= i < t ==> tagMap[i]
      {
        t := t + 1;
      }
    }

    /** blk_queue_start_tag: the lowest free tag, unless all below the depth are taken. */
    method Start(r: nat) returns (status: Status)
      requires Valid() && r !in tag
      modifies this`tagIndex, this`tagMap, this`busyList, this`busy, this`tag
      ensures Valid() && status != Busy
      ensures status == Full <==> forall t :: 0 <= t < maxDepth ==> old(tagMap[t])
      ensures status == Full ==> tag == old(tag) && tagMap == old(tagMap)
      ensures status == Ok ==> r in tag && tag == old(tag)[r := tag[r]] && tag[r] < maxDepth && !old(tagMap)[tag[r]]
                               && forall t :: 0 <= t < tag[r] ==> old(tagMap[t])
    {
      var t := FindFree();
      if t >= maxDepth {
        return Full;
      }
      CountSet(tagMap, t, true);
      tagMap, tagIndex := tagMap[t := true], tagIndex[t := Some(r)];
      tag, busyList, busy := tag[r := t], [r] + busyList, busy + 1;
      return Ok;
    }

    /** blk_queue_end_tag */
    method End(r: nat)
      requires Valid() && r in tag
      modifies this`tagIndex, this`tagMap, this`busyList, this`busy, this`tag
      ensures Valid() && tag == old(tag) - {r} && tagMap == old(tagMap)[old(tag)[r] := false] && busy == old(busy) - 1
    {
      var t := tag[r];
      // the code lets tags past the depth be, reports a missing one and one that is not busy
      assert t < realMaxDepth && tagIndex[t] == Some(r) && tagMap[t];
      EraseNoDup(busyList, r);
      CountSet(tagMap, t, false);
      busyList := Erase(busyList, r);
      tagIndex := tagIndex[t := None];
      tagMap := tagMap[t := false];
      busy := busy - 1;
      tag := tag - {r};
    }

    /**
     blk_queue_resize_tags; `limit` is twice the number of requests of the queue, which bounds a larger map. When
     the depth shrinks, or grows again to at most what is allocated, tags beyond it stay outstanding.
     */
    method Resize(depth: nat, limit: nat) returns (status: Status)
      requires Valid() && (depth > realMaxDepth && refcnt == 1 ==> realMaxDepth <= limit)
      modifies this`tagIndex, this`tagMap, this`maxDepth, this`realMaxDepth
      ensures Valid() && tag == old(tag) && busy == old(busy) && status != Full
      ensures status == Busy <==> old(Refuses(depth))
      ensures status == Busy ==> maxDepth == old(maxDepth) && realMaxDepth == old(realMaxDepth)
      ensures status == Ok ==> maxDepth == (if depth <= old(realMaxDepth) then depth else Clamp(depth, limit))
                               && realMaxDepth == (if depth <= old(realMaxDepth) then old(realMaxDepth) else maxDepth)
      ensures forall t :: 0 <= t < old(realMaxDepth) ==> tagMap[t] == old(tagMap)[t] && tagIndex[t] == old(tagIndex)[t]
    {
      if depth <= realMaxDepth {
        maxDepth := depth;
        return Ok;
      }
      if refcnt != 1 {
        return Busy;
      }
      var n := Clamp(depth, limit);
      CountPadded(tagMap, n - realMaxDepth);
      tagIndex := tagIndex + seq(n - realMaxDepth, _ => None);
      tagMap := tagMap + seq(n - realMaxDepth, _ => false);
      realMaxDepth, maxDepth := n, n;
      return Ok;
    }
  }
}
