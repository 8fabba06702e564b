/**
 One queue of the CFQ scheduler: the pending requests in sector order and in
 arrival order, the request to serve next, and the counters kept beside them.
 */
module CfqQueue {
  import opened Lists

  datatype Rq = Rq(sync: bool, meta: bool)

  /** `sorted` and `fifo` name requests by number; `sector` and `info` hold where they start and what they are. */
  datatype Queue = Queue(
    sorted: seq<nat>, fifo: seq<nat>, sector: map<nat, nat>, info: map<nat, Rq>, next: Option<nat>, onRr: bool,
    queuedSync: int, queuedAsync: int, metaPending: int, dispatched: nat,
    sync: bool, rt: bool, idle: bool, key: int, fifoChecked: bool
  )

  /** Where the head is and how dear it is to go back. */
  datatype Head = Head(position: nat, backMax: nat, backPenalty: nat)

  predicate Known(q: Queue, r: nat) { r in q.sector && r in q.info }

  /** cfq_choose_req */
  function Choose(h: Head, q: Queue, a: Option<nat>, b: Option<nat>): Option<nat>
    requires a.Some? ==> Known(q, a.value)
    requires b.Some? ==> Known(q, b.value)
  {
    if a.None? || a == b then b
    else if b.None? then a
    else
      var x, y, s1, s2 := q.info[a.value], q.info[b.value], q.sector[a.value], q.sector[b.value];
      if x.sync != y.sync then (if x.sync then a else b)
      else if x.meta != y.meta then (if x.meta then a else b)
      else
        var back := h.backMax * 2;
        var wrap1, wrap2 := s1 + back < h.position, s2 + back < h.position;
        var d1 := if s1 >= h.position then s1 - h.position else (h.position - s1) * h.backPenalty;
        var d2 := if s2 >= h.position then s2 - h.position else (h.position - s2) * h.backPenalty;
        if wrap1 != wrap2 then (if wrap2 then a else b)
        else if wrap1 then (if s1 <= s2 then a else b)
        else if d1 != d2 then (if d1 < d2 then a else b)
        else if s1 >= s2 then a else b
  }

  // What is best served now, without the code's case distinctions: requests are ranked by kind, then by cost

  /** Further behind the head than the scheduler goes back. */
  predicate Wraps(h: Head, sector: nat) { sector + 2 * h.backMax < h.position }

  /** Sync before async, metadata before the rest, those ahead or just behind before those that wrap. */
  function Rank(h: Head, q: Queue, r: nat): nat
    requires Known(q, r)
  {
    (if q.info[r].sync then 0 else 4) + (if q.info[r].meta then 0 else 2) + (if Wraps(h, q.sector[r]) then 1 else 0)
  }

  /** The way to go, backwards at a penalty; from the start of the disk for those that wrap. */
  function Cost(h: Head, q: Queue, r: nat): int
    requires Known(q, r)
  {
    var s := q.sector[r];
    if Wraps(h, s) then s else if s < h.position then (h.position - s) * h.backPenalty else s - h.position
  }

  predicate Better(h: Head, q: Queue, a: nat, b: nat)
    requires Known(q, a) && Known(q, b)
  {
    || Rank(h, q, a) < Rank(h, q, b)
    || (Rank(h, q, a) == Rank(h, q, b) && Cost(h, q, a) < Cost(h, q, b))
    || (Rank(h, q, a) == Rank(h, q, b) && Cost(h, q, a) == Cost(h, q, b) && q.sector[a] >= q.sector[b])
  }

  /** The choice is exactly the better one. */
  lemma ChooseExact(h: Head, q: Queue, a: nat, b: nat)
    requires Known(q, a) && Known(q, b)
    ensures Choose(h, q, Some(a), Some(b)) == Some(if Better(h, q, a, b) then a else b)
    ensures Choose(h, q, None, Some(b)) == Some(b) && Choose(h, q, Some(a), None) == Some(a)
  {}

  /** cfq_find_next_rq */
  function FindNext(h: Head, q: Queue, i: nat): Option<nat>
    requires i < |q.sorted| && forall r :: r in q.sorted ==> r in q.sector && r in q.info
  {
    var prev := if i > 0 then Some(q.sorted[i - 1]) else None;
    var next := if i + 1 < |q.sorted| then Some(q.sorted[i + 1]) else if i > 0 then Some(q.sorted[0]) else None;
    Choose(h, q, next, prev)
  }

  lemma ChooseNone(h: Head, q: Queue)
    ensures Choose(h, q, None, None) == None
  {}

  /** It is the better one of the neighbours of entry `i`, the first entry coming after the last. */
  lemma FindNextExact(h: Head, q: Queue, i: nat)
    requires i < |q.sorted| && forall r :: r in q.sorted ==> r in q.sector && r in q.info
    ensures |q.sorted| == 1 ==> FindNext(h, q, i) == None
    ensures |q.sorted| > 1 ==>
              var after := if i + 1 < |q.sorted| then q.sorted[i + 1] else q.sorted[0];
              var before := if i > 0 then q.sorted[i - 1] else after;
              FindNext(h, q, i) == Some(if Better(h, q, after, before) then after else before)
  {
    hide Choose, Better;
    ChooseNone(h, q);
    if |q.sorted| > 1 {
      var after := if i + 1 < |q.sorted| then q.sorted[i + 1] else q.sorted[0];
      var before := if i > 0 then q.sorted[i - 1] else after;
      ChooseExact(h, q, after, before);
    }
  }

  /** The kinds of requests that are counted. */
  datatype Kind = Sync | Async | Meta

  predicate Is(x: Rq, k: Kind) {
    match k
    case Sync => x.sync
    case Async => !x.sync
    case Meta => x.meta
  }

  ghost function Count(s: seq<nat>, info: map<nat, Rq>, k: Kind): nat
    requires forall r :: r in s ==> r in info
  {
    if s == [] then 0 else (if Is(info[s[0]], k) then 1 else 0) + Count(s[1..], info, k)
  }

  lemma {:induction false} CountConcat(s: seq<nat>, t: seq<nat>, info: map<nat, Rq>, k: Kind)
    requires forall r :: r in s + t ==> r in info
    ensures (forall r :: r in s ==> r in s + t) && (forall r :: r in t ==> r in s + t)
    ensures Count(s + t, info, k) == Count(s, info, k) + Count(t, info, k)
  {
    assert forall r :: r in t ==> r in s + t;
    if s == [] {
      assert s + t == t;
    } else {
      assert (s + t)[1..] == s[1..] + t;
      CountConcat(s[1..], t, info, k);
    }
  }

  lemma CountErase(s: seq<nat>, info: map<nat, Rq>, k: Kind, r: nat)
    requires (forall x :: x in s ==> x in info) && r in s
    ensures forall x :: x in Erase(s, r) ==> x in info
    ensures Count(s, info, k) == Count(Erase(s, r), info, k) + if Is(info[r], k) then 1 else 0
  {
    var i := IndexOf(s, r);
    assert s == s[..i] + ([r] + s[i + 1..]);
    assert forall x :: x in s[..i] + s[i + 1..] ==> x in s;
    CountConcat(s[..i], [r] + s[i + 1..], info, k);
    CountConcat([r], s[i + 1..], info, k);
    CountConcat(s[..i], s[i + 1..], info, k);
  }

  ghost predicate Counted(q: Queue, x: Option<nat>)
    requires (forall r :: r in q.sorted ==> r in q.info) && (x.Some? ==> x.value in q.info)
  {
    && q.queuedSync == Count(q.sorted, q.info, Sync)
    && q.queuedAsync == Count(q.sorted, q.info, Async)
    && q.metaPending == Count(q.sorted, q.info, Meta) + if x.Some? && q.info[x.value].meta then 1 else 0
  }

  /** A queue whose request `x`, if any, is off the sort list while it is being put at its place. */
  ghost predicate Part(q: Queue, x: Option<nat>) {
    && Ordered(q.sorted, q.sector) && (forall r :: r in q.sorted ==> r in q.info)
    && (x.Some? ==> Known(q, x.value) && x.value !in q.sorted)
    && multiset(q.fifo) == multiset(q.sorted) + Extra(x)
    && (q.next.Some? ==> q.next.value in q.sorted || q.next == x)
    && (q.next.None? ==> q.sorted == [])
    && Counted(q, x)
  }

  /** Between entry points: next is set iff there are requests, the queue is on the round robin iff there are. */
  ghost predicate Inv(q: Queue) { Part(q, None) && (q.onRr <==> q.sorted != []) }

  lemma InvFacts(q: Queue)
    requires Inv(q)
    ensures q.next.Some? <==> q.sorted != []
    ensures q.next.Some? ==> q.next.value in q.sorted
    ensures q.fifo == [] <==> q.sorted == []
    ensures q.fifo != [] ==> q.fifo[0] in q.sorted
    ensures |q.fifo| == |q.sorted|
  {
    assert |multiset(q.fifo)| == |q.fifo| && |multiset(q.sorted)| == |q.sorted|;
    if q.fifo != [] {
      assert q.fifo[0] in multiset(q.fifo);
    }
  }

  /** Takes request `r` off the sort list and its counts down (cfq_del_rq_rb without the round robin). */
  function Unsort(q: Queue, r: nat): Queue
    requires r in q.info
  {
    q.(sorted := Erase(q.sorted, r),
       queuedSync := q.queuedSync - if q.info[r].sync then 1 else 0,
       queuedAsync := q.queuedAsync - if q.info[r].sync then 0 else 1)
  }

  /** cfq_remove_request up to the round robin. */
  function Take(h: Head, q: Queue, r: nat): Queue
    requires r in q.sorted && forall x :: x in q.sorted ==> x in q.sector && x in q.info
  {
    var next := if q.next == Some(r) then FindNext(h, q, IndexOf(q.sorted, r)) else q.next;
    Unsort(q.(next := next, fifo := Erase(q.fifo, r),
              metaPending := q.metaPending - if q.info[r].meta then 1 else 0), r)
  }

  /** The queue once `r` has gone to the dispatch list. */
  function Left(h: Head, q: Queue, r: nat): Queue
    requires r in q.sorted && forall x :: x in q.sorted ==> x in q.sector && x in q.info
  {
    var t := Take(h, q, r);
    t.(onRr := q.onRr && t.sorted != [], dispatched := q.dispatched + 1)
  }

  lemma FoundOther(h: Head, q: Queue, i: nat)
    requires Ordered(q.sorted, q.sector) && (forall r :: r in q.sorted ==> r in q.info) && i < |q.sorted|
    ensures FindNext(h, q, i).None? <==> |q.sorted| == 1
    ensures FindNext(h, q, i).Some? ==> FindNext(h, q, i).value in q.sorted && FindNext(h, q, i).value != q.sorted[i]
  {
    OrderedNoDup(q.sorted, q.sector);
  }

  lemma CountsPositive(q: Queue, x: Option<nat>, r: nat)
    requires Part(q, x) && r in q.sorted
    ensures (if q.info[r].sync then q.queuedSync else q.queuedAsync) > 0
    ensures q.info[r].meta ==> q.metaPending > 0
  {
    CountErase(q.sorted, q.info, Sync, r);
    CountErase(q.sorted, q.info, Async, r);
    CountErase(q.sorted, q.info, Meta, r);
  }

  /** The counts after `r` has left the sort list; `meta` is what the metadata count becomes. */
  lemma UnsortCounts(s: seq<nat>, info: map<nat, Rq>, r: nat)
    requires (forall y :: y in s ==> y in info) && r in s
    ensures (forall y :: y in Erase(s, r) ==> y in info)
    ensures Count(Erase(s, r), info, Sync) == Count(s, info, Sync) - if info[r].sync then 1 else 0
    ensures Count(Erase(s, r), info, Async) == Count(s, info, Async) - if info[r].sync then 0 else 1
    ensures Count(Erase(s, r), info, Meta) == Count(s, info, Meta) - if info[r].meta then 1 else 0
  {
    hide Erase;
    CountErase(s, info, Sync, r);
    CountErase(s, info, Async, r);
    CountErase(s, info, Meta, r);
  }

  lemma TakeNext(h: Head, q: Queue, r: nat, x: Option<nat>)
    requires Part(q, x) && r in q.sorted
    ensures var q' := Take(h, q, r);
            (q'.next.Some? ==> q'.next.value in q'.sorted || q'.next == x) && (q'.next.None? ==> q'.sorted == [])
  {
    hide Choose, FindNext, Erase, Counted;
    OrderedNoDup(q.sorted, q.sector);
    EraseNoDup(q.sorted, r);
    FoundOther(h, q, IndexOf(q.sorted, r));
  }

  lemma TakeLists(s: seq<nat>, f: seq<nat>, r: nat, x: Option<nat>)
    requires multiset(f) == multiset(s) + Extra(x) && r in s
    ensures multiset(Erase(f, r)) == multiset(Erase(s, r)) + Extra(x)
  {
    hide Erase;
    EraseMultiset(s, r);
    EraseMultiset(f, r);
    assert r in multiset(s);
  }

  lemma TakePart(h: Head, q: Queue, r: nat, x: Option<nat>)
    requires Part(q, x) && r in q.sorted
    ensures Part(Take(h, q, r), x)
  {
    hide Choose, FindNext, Erase, Count, IndexOf;
    OrderedErase(q.sorted, q.sector, r);
    OrderedNoDup(q.sorted, q.sector);
    EraseNoDup(q.sorted, r);
    TakeLists(q.sorted, q.fifo, r, x);
    TakeNext(h, q, r, x);
    UnsortCounts(q.sorted, q.info, r);
  }

  // Putting a request in

  lemma DetachPart(q: Queue, r: nat)
    requires Part(q, None) && r in q.sorted
    ensures Part(Unsort(q, r), Some(r))
  {
    hide Erase, Count;
    OrderedErase(q.sorted, q.sector, r);
    OrderedNoDup(q.sorted, q.sector);
    EraseNoDup(q.sorted, r);
    EraseMultiset(q.sorted, r);
    assert r in multiset(q.sorted);
    UnsortCounts(q.sorted, q.info, r);
  }

  lemma {:induction false} CountFrame(s: seq<nat>, info: map<nat, Rq>, info': map<nat, Rq>, k: Kind)
    requires forall r :: r in s ==> r in info && r in info' && info[r] == info'[r]
    ensures Count(s, info, k) == Count(s, info', k)
  {
    if s != [] {
      CountFrame(s[1..], info, info', k);
    }
  }

  /** A front merge moves the start of a request that is off the sort list. */
  function Moved(q: Queue, r: nat, sector: nat): Queue { q.(sector := q.sector[r := sector]) }

  lemma MovedPart(q: Queue, r: nat, sector: nat)
    requires Part(q, Some(r))
    ensures Part(Moved(q, r, sector), Some(r))
  {
    hide Count;
  }

  /** A request that is new to the queue. */
  function Announced(q: Queue, r: nat, sector: nat, x: Rq): Queue {
    q.(sector := q.sector[r := sector], info := q.info[r := x], fifo := q.fifo + [r],
       metaPending := q.metaPending + if x.meta then 1 else 0)
  }

  lemma AnnouncedPart(q: Queue, r: nat, sector: nat, x: Rq)
    requires Part(q, None) && r !in q.sorted
    ensures Part(Announced(q, r, sector, x), Some(r))
  {
    hide Count;
    var info := Announced(q, r, sector, x).info;
    CountFrame(q.sorted, q.info, info, Sync);
    CountFrame(q.sorted, q.info, info, Async);
    CountFrame(q.sorted, q.info, info, Meta);
  }

  lemma {:induction false} InsertCounts(s: seq<nat>, sector: map<nat, nat>, info: map<nat, Rq>, r: nat, k: Kind)
    requires r in sector && r in info && forall x :: x in s ==> x in sector && x in info
    ensures forall x :: x in Insert(s, sector, r) ==> x in info
    ensures Count(Insert(s, sector, r), info, k) == Count(s, info, k) + if Is(info[r], k) then 1 else 0
  {
    InsertMembers(s, sector, r);
    if s != [] && sector[r] >= sector[s[0]] {
      InsertCounts(s[1..], sector, info, r, k);
    }
  }

  /** The rest of cfq_add_rq_rb once no alias is left. */
  function Attach(h: Head, q: Queue, r: nat): Queue
    requires Known(q, r) && (forall x :: x in q.sorted ==> x in q.sector && x in q.info)
    requires q.next.Some? ==> Known(q, q.next.value)
  {
    q.(sorted := Insert(q.sorted, q.sector, r), next := Choose(h, q, q.next, Some(r)),
       queuedSync := q.queuedSync + if q.info[r].sync then 1 else 0,
       queuedAsync := q.queuedAsync + if q.info[r].sync then 0 else 1)
  }

  lemma ChooseOne(h: Head, q: Queue, a: Option<nat>, r: nat)
    requires (a.Some? ==> Known(q, a.value)) && Known(q, r)
    ensures Choose(h, q, a, Some(r)) == Some(r) || (a.Some? && Choose(h, q, a, Some(r)) == a)
  {}

  lemma AttachNext(h: Head, q: Queue, r: nat)
    requires Part(q, Some(r))
    ensures (forall x :: x in q.sorted ==> x in q.sector && x in q.info) && (q.next.Some? ==> Known(q, q.next.value))
    ensures Attach(h, q, r).next.Some? && Attach(h, q, r).next.value in Attach(h, q, r).sorted
  {
    hide Choose, Insert, Counted;
    InsertMembers(q.sorted, q.sector, r);
    ChooseOne(h, q, q.next, r);
  }

  lemma AttachCounted(h: Head, q: Queue, r: nat)
    requires Part(q, Some(r)) && (forall x :: x in q.sorted ==> x in q.sector && x in q.info)
    requires q.next.Some? ==> Known(q, q.next.value)
    ensures (forall x :: x in Attach(h, q, r).sorted ==> x in q.info) && Counted(Attach(h, q, r), None)
  {
    hide Count, Choose, Insert;
    InsertCounts(q.sorted, q.sector, q.info, r, Sync);
    InsertCounts(q.sorted, q.sector, q.info, r, Async);
    InsertCounts(q.sorted, q.sector, q.info, r, Meta);
  }

  lemma AttachPart(h: Head, q: Queue, r: nat)
    requires Part(q, Some(r)) && forall x :: x in q.sorted ==> q.sector[x] != q.sector[r]
    ensures Part(Attach(h, q, r), None) && Attach(h, q, r).sorted != []
  {
    hide Choose, Insert, Counted;
    AttachNext(h, q, r);
    AttachCounted(h, q, r);
    InsertMembers(q.sorted, q.sector, r);
    InsertOrdered(q.sorted, q.sector, r);
  }
}
