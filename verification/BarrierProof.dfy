/**
 Safety of barrier sequencing over every run of the queue in `Barrier`.
 */
module BarrierProof {
  import opened Barrier
  import Lists

  ghost predicate Odd(n: nat) { n % 2 == 1 }

  ghost function H(r: Request): nat { if FsRq(r) && r.hard then 1 else 0 }

  ghost predicate FsRq(r: Request) { r.Rq? && r.fs }

  ghost predicate Known(q: Queue, r: Request) {
    r.Rq? ==> r.id < |q.submitted| && q.submitted[r.id] == r
  }

  /** One submission: numbered, coloured and counted as `Submit` says, and in
      some place of the queue. */
  ghost predicate Submitted(q: Queue, i: nat)
    requires i < |q.submitted|
  {
    var r := q.submitted[i];
    && r.Rq? && r.id == i
    && r.epoch + H(r) <= |q.barriers|
    && (r.fs && r.hard ==> q.barriers[r.epoch] == r)
    && (r in q.sorted || r in q.head || r in q.driver || r in q.done || (Active(q) && r == q.orig))
    && (r.fs && r.epoch < q.ended ==> r in q.done)
  }

  ghost predicate Earlier(a: Request, b: Request) {
    a.Rq? && b.Rq? && a.epoch + H(a) <= b.epoch
  }

  /** An fs request that was submitted and has not completed. */
  ghost predicate Outstanding(q: Queue, r: Request) {
    FsRq(r) && Known(q, r) && r !in q.done
  }

  /** Two outstanding requests have one colour exactly when an even number of
      barriers lies between them. */
  ghost predicate Colored(q: Queue) {
    forall a, b {:trigger Outstanding(q, a), Outstanding(q, b)} :: Outstanding(q, a) && Outstanding(q, b) ==>
      (a.color == b.color <==> Odd(a.epoch) == Odd(b.epoch))
  }

  /** The colour the next request will get fits the outstanding ones. */
  ghost predicate Current(q: Queue) {
    forall a {:trigger Outstanding(q, a)} :: Outstanding(q, a) ==>
      (a.color == q.ordcolor <==> Odd(a.epoch) == Odd(|q.barriers|))
  }

  lemma ColorFrame(q: Queue, q': Queue)
    requires Colored(q) && q'.submitted == q.submitted && q.done <= q'.done
    ensures Colored(q')
  {
    forall a, b | Outstanding(q', a) && Outstanding(q', b)
      ensures a.color == b.color <==> Odd(a.epoch) == Odd(b.epoch)
    {
      assert Outstanding(q, a) && Outstanding(q, b);
    }
  }

  ghost predicate HistoryOk(q: Queue) {
    && Colored(q)
    && q.ended <= |q.barriers|
    && (forall i {:trigger Submitted(q, i)} :: 0 <= i < |q.submitted| ==> Submitted(q, i))
    && (forall i, j {:trigger Earlier(q.submitted[i], q.submitted[j])} :: 0 <= i < j < |q.submitted| ==>
          Earlier(q.submitted[i], q.submitted[j]))
    && (forall k {:trigger BarrierOk(q, q.barriers[k], k)} :: 0 <= k < |q.barriers| ==> BarrierOk(q, q.barriers[k], k))
  }

  /** Barrier number `k` waits in the list until its turn. */
  ghost predicate BarrierOk(q: Queue, b: Request, k: nat) {
    && b.Rq? && b.hard && b.fs && b.epoch == k && Known(q, b)
    && (k > q.ended || (k == q.ended && !Active(q)) ==> b in q.head)
  }

  /** What it takes for the driver to hold a request. */
  ghost predicate MayRun(q: Queue, r: Request) {
    match r
    case Rq(_, fs, hard, _, epoch) => fs ==> !hard && epoch == q.ended && !q.ordseq.drain
    case PreFlush => q.ordseq.drain && !q.ordseq.pre
    case Bar => q.ordseq.drain && q.ordseq.pre && !q.ordseq.bar
    case PostFlush => q.ordseq.drain && q.ordseq.pre && q.ordseq.bar && !q.ordseq.post
  }

  /** The stage of a proxy is still open. */
  ghost predicate Open(o: OrdSeq, r: Request) {
    match r
    case Rq(_, _, _, _, _) => true
    case PreFlush => o.started && !o.pre
    case Bar => o.started && !o.bar
    case PostFlush => o.started && !o.post
  }

  ghost predicate HeadElem(q: Queue, r: Request) {
    && Known(q, r) && r !in q.sorted && r !in q.driver && r !in q.done
    && (r in q.started ==> MayRun(q, r))
    && (FsRq(r) ==> q.ended <= r.epoch && (Active(q) && r.epoch == q.ended ==> !r.hard && !q.ordseq.drain))
    && Open(q.ordseq, r)
    && (!r.Rq? ==> r in q.soft)
  }

  ghost predicate DriverElem(q: Queue, r: Request) {
    Known(q, r) && r !in q.sorted && r !in q.done && r in q.started && MayRun(q, r) && Open(q.ordseq, r)
  }

  ghost predicate SortedElem(q: Queue, r: Request) {
    Known(q, r) && FsRq(r) && !r.hard && r.epoch == |q.barriers| && r !in q.done && r !in q.started
  }

  ghost predicate DoneElem(q: Queue, r: Request) {
    Known(q, r) && r.Rq? && (r.fs ==> r.epoch + H(r) <= q.ended)
  }

  ghost predicate HandedElem(q: Queue, r: Request) {
    Known(q, r) && (FsRq(r) ==> !r.hard && r.epoch <= q.ended)
  }

  /** Position class of an entry while a sequence runs: 0 for entries that may stand anywhere. */
  ghost function Rank(q: Queue, r: Request): int {
    match r
    case PreFlush => 4
    case Bar => 8
    case PostFlush => 16
    case Rq(_, fs, _, _, epoch) => if !fs then 0 else if epoch == q.ended then 2 else 32
  }

  ghost predicate Before(q: Queue, a: Request, b: Request) {
    && a != b
    && (FsRq(a) && FsRq(b) ==> a.epoch + H(a) <= b.epoch)
    && (Active(q) && Rank(q, a) != 0 && Rank(q, b) != 0 ==> Rank(q, a) <= Rank(q, b))
  }

  ghost predicate HeadOk(q: Queue, s: seq<Request>) {
    && (forall i {:trigger HeadElem(q, s[i])} :: 0 <= i < |s| ==> HeadElem(q, s[i]))
    && (forall i, j {:trigger Before(q, s[i], s[j])} :: 0 <= i < j < |s| ==> Before(q, s[i], s[j]))
  }

  ghost function Fs(s: set<Request>): set<Request> { set r | r in s && IsFs(r) }

  ghost predicate SetsOk(q: Queue) {
    && (forall r :: r in q.driver ==> DriverElem(q, r))
    && (forall r :: r in q.sorted ==> SortedElem(q, r))
    && (forall r :: r in q.done ==> DoneElem(q, r))
    && (forall r :: r in q.handed ==> HandedElem(q, r))
    && (forall r :: r in q.started ==> HandedElem(q, r))
    && (forall r :: r in q.soft ==> Known(q, r))
    && q.inFlight == |Fs(q.driver)|
  }

  ghost predicate Placed(q: Queue, r: Request) {
    r in q.head || r in q.driver
  }

  ghost predicate StagesOk(q: Queue) {
    Active(q) ==>
      && q.ended < |q.barriers| && q.orig == q.barriers[q.ended]
      && q.orig !in q.sorted && q.orig !in q.done
      && q.ordseq.started && CurSeq(q.ordseq) != SEQ_DONE
      && (!q.ordseq.pre ==> Placed(q, PreFlush))
      && (!q.ordseq.bar ==> Placed(q, Bar))
      && (!q.ordseq.post ==> Placed(q, PostFlush))
      && (q.ordseq.bar ==> q.ordseq.drain && q.ordseq.pre)
  }

  ghost predicate Inv(q: Queue) {
    HistoryOk(q) && SetsOk(q) && HeadOk(q, q.head) && StagesOk(q)
  }

  /** What every disciplined run keeps. The colour of the next request is kept
      apart, since every step but the submission of an fs request keeps `Inv` without it. */
  ghost predicate Sound(q: Queue) {
    Inv(q) && Current(q)
  }

  lemma InvEmpty()
    ensures Sound(Empty) && Live(Empty)
  {}

  /** The order and the standing of two entries. */
  lemma Entries(q: Queue, i: nat, j: nat)
    requires HeadOk(q, q.head) && i < |q.head| && j < |q.head|
    ensures HeadElem(q, q.head[i]) && HeadElem(q, q.head[j])
    ensures i < j ==> Before(q, q.head[i], q.head[j])
  {
    assert HeadElem(q, q.head[i]) && HeadElem(q, q.head[j]);
    assert i < j ==> Before(q, q.head[i], q.head[j]);
  }

  lemma HeadInsert(q: Queue, s: seq<Request>, p: nat, r: Request)
    requires p <= |s| && HeadOk(q, s) && HeadElem(q, r)
    requires forall i :: 0 <= i < p ==> Before(q, s[i], r)
    requires forall i :: p <= i < |s| ==> Before(q, r, s[i])
    ensures HeadOk(q, Lists.InsertAt(s, p, r))
  {
    var t := Lists.InsertAt(s, p, r);
    assert forall i :: 0 <= i < |t| ==> t[i] == if i < p then s[i] else if i == p then r else s[i - 1];
  }

  lemma HeadRemove(q: Queue, s: seq<Request>, r: Request)
    requires HeadOk(q, s)
    ensures HeadOk(q, Lists.Erase(s, r))
  {
    if r in s {
      hide Lists.Erase;
      var k, t := Lists.IndexOf(s, r), Lists.Erase(s, r);
      forall i | 0 <= i < |t|
        ensures HeadElem(q, t[i])
      {
        Lists.ErasedAt(s, r, i);
        assert HeadElem(q, s[if i < k then i else i + 1]);
      }
      forall i, j | 0 <= i < j < |t|
        ensures Before(q, t[i], t[j])
      {
        Lists.ErasedAt(s, r, i);
        Lists.ErasedAt(s, r, j);
        assert Before(q, s[if i < k then i else i + 1], s[if j < k then j else j + 1]);
      }
    }
  }

  lemma EpochBound(q: Queue, r: Request)
    requires HistoryOk(q) && Known(q, r) && r.Rq?
    ensures r.epoch + H(r) <= |q.barriers|
    ensures r.fs && r.hard ==> q.barriers[r.epoch] == r
  {
    assert Submitted(q, r.id);
  }

  /** Entries keep their standing when nothing they depend on has changed. */
  lemma HeadFrame(q: Queue, q': Queue, s: seq<Request>)
    requires HeadOk(q, s) && q.submitted <= q'.submitted && q'.ended == q.ended && q'.ordseq == q.ordseq
    requires q.soft <= q'.soft
    requires forall r :: r in s ==>
      r !in q'.sorted && r !in q'.driver && r !in q'.done && (r in q'.started ==> r in q.started)
    ensures HeadOk(q', s)
  {
    forall i | 0 <= i < |s| ensures HeadElem(q', s[i]) {
      assert HeadElem(q, s[i]) && s[i] in s;
    }
    forall i, j | 0 <= i < j < |s| ensures Before(q', s[i], s[j]) {
      assert Before(q, s[i], s[j]);
    }
  }

  /** The new request is coloured like those of its epoch, if the colour was current. */
  lemma SubmitColored(q: Queue, fs: bool, hard: bool, where: Where)
    requires HistoryOk(q) && (fs ==> Current(q))
    ensures Colored(Submit(q, fs, hard, where))
    ensures fs || !hard ==> Current(q) ==> Current(Submit(q, fs, hard, where))
  {
    var q' := Submit(q, fs, hard, where);
    var r := q'.submitted[|q.submitted|];
    forall a | Outstanding(q', a) ensures Outstanding(q, a) || (fs && a == r) {
      assert a.id < |q.submitted| ==> q'.submitted[a.id] == q.submitted[a.id];
    }
  }

  lemma SubmitPlaces(q: Queue, fs: bool, hard: bool, where: Where, i: nat)
    requires HistoryOk(q) && i <= |q.submitted|
    ensures Submitted(Submit(q, fs, hard, where), i)
  {
    hide Colored;
    var q' := Submit(q, fs, hard, where);
    if i < |q.submitted| {
      assert Submitted(q, i);
      assert q.submitted[i] in q.head ==> q.submitted[i] in q'.head;
    }
  }

  lemma SubmitBarriers(q: Queue, fs: bool, hard: bool, where: Where, k: nat)
    requires HistoryOk(q) && k < |Submit(q, fs, hard, where).barriers| && (fs ==> where != Front)
    ensures BarrierOk(Submit(q, fs, hard, where), Submit(q, fs, hard, where).barriers[k], k)
  {
    hide Colored;
    var q' := Submit(q, fs, hard, where);
    if k < |q.barriers| {
      assert BarrierOk(q, q.barriers[k], k);
      assert q.barriers[k] in q.head ==> q.barriers[k] in q'.head;
    }
  }

  lemma SubmitHistory(q: Queue, fs: bool, hard: bool, where: Where)
    requires Inv(q) && Enabled(q, SubmitStep(fs, hard, where)) && (fs ==> Current(q))
    ensures HistoryOk(Submit(q, fs, hard, where))
  {
    hide HeadOk, SetsOk, Colored, BarrierOk, Submitted;
    SubmitColored(q, fs, hard, where);
    var q' := Submit(q, fs, hard, where);
    forall i | 0 <= i < |q'.submitted| ensures Submitted(q', i) { SubmitPlaces(q, fs, hard, where, i); }
    forall k | 0 <= k < |q'.barriers| ensures BarrierOk(q', q'.barriers[k], k) {
      SubmitBarriers(q, fs, hard, where, k);
    }
    forall i, j | 0 <= i < j < |q'.submitted| ensures Earlier(q'.submitted[i], q'.submitted[j]) {
      if j < |q.submitted| { assert Earlier(q.submitted[i], q.submitted[j]); } else { Bounded(q, i); }
    }
  }

  lemma Bounded(q: Queue, i: nat)
    requires HistoryOk(q) && i < |q.submitted|
    ensures q.submitted[i].Rq? && q.submitted[i].epoch + H(q.submitted[i]) <= |q.barriers|
  {
    assert Submitted(q, i);
  }

  lemma SubmitSets(q: Queue, fs: bool, hard: bool, where: Where)
    requires Inv(q) && Enabled(q, SubmitStep(fs, hard, where))
    ensures SetsOk(Submit(q, fs, hard, where))
  {
    var q' := Submit(q, fs, hard, where);
    var r := q'.submitted[|q.submitted|];
    forall x | x in q'.driver ensures DriverElem(q', x) {
      assert DriverElem(q, x);
    }
    forall x | x in q'.sorted ensures SortedElem(q', x) {
      if x != r { assert SortedElem(q, x); }
    }
    forall x | x in q'.done ensures DoneElem(q', x) { assert DoneElem(q, x); }
    forall x | x in q'.handed ensures HandedElem(q', x) { assert HandedElem(q, x); }
    forall x | x in q'.started ensures HandedElem(q', x) { assert HandedElem(q, x); }
  }

  /** A request that has not been submitted yet is nowhere. */
  lemma Fresh(q: Queue, r: Request)
    requires SetsOk(q) && HeadOk(q, q.head) && r.Rq? && r.id >= |q.submitted|
    ensures r !in q.sorted && r !in q.driver && r !in q.started && r !in q.done && r !in q.head
  {
    hide MayRun;
    assert r in q.driver ==> DriverElem(q, r);
    assert r in q.sorted ==> SortedElem(q, r);
    assert r in q.done ==> DoneElem(q, r);
    assert r in q.started ==> HandedElem(q, r);
    forall i | 0 <= i < |q.head| ensures q.head[i] != r { assert HeadElem(q, q.head[i]); }
  }

  lemma SubmitHead(q: Queue, fs: bool, hard: bool, where: Where)
    requires Inv(q) && Enabled(q, SubmitStep(fs, hard, where))
    ensures HeadOk(Submit(q, fs, hard, where), Submit(q, fs, hard, where).head)
  {
    hide HistoryOk, SetsOk, MayRun;
    var q' := Submit(q, fs, hard, where);
    var r := q'.submitted[|q.submitted|];
    Fresh(q, r);
    EndedBound(q);
    SubmitFrame(q, q');
    assert Place(hard, where) != Sort ==> HeadElem(q', r);
    if where == Front {
      forall i | 0 <= i < |q.head| ensures Before(q', r, q.head[i]) { assert HeadElem(q, q.head[i]); }
      HeadInsert(q', q.head, 0, r);
      assert Lists.InsertAt(q.head, 0, r) == q'.head;
    } else if Place(hard, where) == Back {
      forall i | 0 <= i < |q.head| ensures Before(q', q.head[i], r) { BeforeNewest(q, q', i, r); }
      HeadInsert(q', q.head, |q.head|, r);
      assert Lists.InsertAt(q.head, |q.head|, r) == q'.head;
    }
  }

  lemma SubmitFrame(q: Queue, q': Queue)
    requires HeadOk(q, q.head) && q.submitted <= q'.submitted && q'.ended == q.ended && q'.ordseq == q.ordseq
    requires q'.driver == q.driver && q'.done == q.done && q'.started == q.started && q.soft <= q'.soft
    requires forall r :: r in q'.sorted ==> r in q.sorted || !Known(q, r)
    ensures HeadOk(q', q.head)
  {
    hide MayRun, Open, Rank;
    forall r | r in q.head ensures r !in q'.sorted && r !in q'.driver && r !in q'.done {
      var i :| 0 <= i < |q.head| && q.head[i] == r;
      assert HeadElem(q, q.head[i]);
    }
    HeadFrame(q, q', q.head);
  }

  /** Every entry may stand before a request of the newest epoch. */
  lemma BeforeNewest(q: Queue, q': Queue, i: nat, r: Request)
    requires HistoryOk(q) && StagesOk(q) && HeadOk(q, q.head) && i < |q.head| && r != q.head[i]
    requires r.Rq? && r.epoch == |q.barriers| && q'.ended == q.ended && q'.ordseq == q.ordseq
    ensures Before(q', q.head[i], r)
  {
    assert HeadElem(q, q.head[i]);
    if q.head[i].Rq? { EpochBound(q, q.head[i]); }
  }

  lemma StagedBarrier(q: Queue)
    requires HistoryOk(q) && StagesOk(q) && Active(q)
    ensures BarrierOk(q, q.orig, q.ended)
  {
    assert BarrierOk(q, q.barriers[q.ended], q.ended);
  }

  /** A submission keeps the invariant; an fs request needs the colour to be current. */
  lemma InvSubmit(q: Queue, fs: bool, hard: bool, where: Where)
    requires Inv(q) && Enabled(q, SubmitStep(fs, hard, where)) && (fs ==> Current(q))
    ensures Inv(Submit(q, fs, hard, where))
  {
    hide HeadOk, HistoryOk, SetsOk;
    SubmitHistory(q, fs, hard, where);
    SubmitSets(q, fs, hard, where);
    SubmitHead(q, fs, hard, where);
    if Active(q) { StagedBarrier(q); }
  }

  /** Behind the last fence of a queue stand only requests of the newest epoch. */
  lemma BehindFences(q: Queue, p: nat, i: nat)
    requires Inv(q) && p <= i < |q.head|
    requires forall j :: p <= j < |q.head| ==> !Fence(q, q.head[j])
    ensures FsRq(q.head[i]) ==> q.head[i].epoch == |q.barriers|
  {
    var r := q.head[i];
    assert HeadElem(q, r);
    if FsRq(r) { EpochBound(q, r); }
    if FsRq(r) && r.epoch < |q.barriers| {
      var b := q.barriers[r.epoch];
      assert BarrierOk(q, b, r.epoch);
      if b in q.head {
        var k :| 0 <= k < |q.head| && q.head[k] == b;
        assert Fence(q, b);
        Entries(q, k, i);
      } else {
        assert Active(q) && r.epoch == q.ended && !q.ordseq.drain;
        assert Bar in q.head;
        var k :| 0 <= k < |q.head| && q.head[k] == Bar;
        assert Fence(q, Bar);
        Entries(q, k, i);
      }
    }
  }

  lemma EndedBound(q: Queue)
    requires HistoryOk(q)
    ensures q.ended <= |q.barriers|
  {}

  lemma DispatchHead(q: Queue, r: Request, p: nat)
    requires Inv(q) && Enabled(q, DispatchStep(r, p))
    ensures HeadOk(Dispatch(q, r, p), Dispatch(q, r, p).head)
  {
    hide HistoryOk, SetsOk, MayRun, Open, Rank, Fence;
    var q' := Dispatch(q, r, p);
    EndedBound(q);
    SortedStanding(q, r);
    SubmitFrame(q, q');
    forall i | 0 <= i < p ensures Before(q', q.head[i], r) {
      assert HeadElem(q, q.head[i]);
      BeforeNewest(q, q', i, r);
    }
    forall i | p <= i < |q.head| ensures Before(q', r, q.head[i]) {
      assert HeadElem(q, q.head[i]);
      BehindFences(q, p, i);
      RankBehind(q, q', p, i, r);
    }
    HeadInsert(q', q.head, p, r);
  }

  lemma SortedStanding(q: Queue, r: Request)
    requires SetsOk(q) && r in q.sorted
    ensures SortedElem(q, r) && r !in q.driver
  {
    assert SortedElem(q, r);
    assert r in q.driver ==> DriverElem(q, r);
  }

  lemma RankBehind(q: Queue, q': Queue, p: nat, i: nat, r: Request)
    requires StagesOk(q) && p <= i < |q.head| && r != q.head[i] && FsRq(r) && !r.hard && r.epoch == |q.barriers|
    requires forall j :: p <= j < |q.head| ==> !Fence(q, q.head[j])
    requires FsRq(q.head[i]) ==> q.head[i].epoch == |q.barriers|
    requires q'.ended == q.ended && q'.ordseq == q.ordseq
    ensures Before(q', r, q.head[i])
  {
    assert !Fence(q, q.head[i]);
  }

  lemma InvDispatch(q: Queue, r: Request, p: nat)
    requires Inv(q) && Enabled(q, DispatchStep(r, p))
    ensures Inv(Dispatch(q, r, p))
  {
    hide HistoryOk, HeadOk, Lists.InsertAt;
    var q' := Dispatch(q, r, p);
    DispatchHead(q, r, p);
    InsertMembers(q.head, p, r);
    HistoryFrame(q, q');
    assert SetsOk(q') by {
      forall x | x in q'.driver ensures DriverElem(q', x) { assert DriverElem(q, x); }
    }
  }

  lemma InsertMembers(s: seq<Request>, p: nat, r: Request)
    requires p <= |s|
    ensures forall x :: x in Lists.InsertAt(s, p, r) <==> x in s || x == r
  {
    assert s == s[..p] + s[p..];
  }

  lemma NoDuplicates(q: Queue)
    requires HeadOk(q, q.head)
    ensures Lists.NoDup(q.head)
  {
    forall i, j | 0 <= i < j < |q.head| ensures q.head[i] != q.head[j] { assert Before(q, q.head[i], q.head[j]); }
  }

  lemma HistoryFrame(q: Queue, q': Queue)
    requires HistoryOk(q) && q'.submitted == q.submitted && q'.barriers == q.barriers
    requires q'.ended == q.ended && Active(q') == Active(q) && q'.orig == q.orig
    requires forall r :: r in q.sorted ==> r in q'.sorted || r in q'.head
    requires forall r :: r in q.head ==> r in q'.head || r in q'.driver
    requires forall r :: r in q.driver ==> r in q'.driver || r in q'.head || r in q'.done
    requires forall r :: r in q.done ==> r in q'.done
    requires forall r :: r in q.head && FsRq(r) && r.hard ==> r in q'.head
    ensures HistoryOk(q')
  {
    ColorFrame(q, q');
    forall i | 0 <= i < |q'.submitted| ensures Submitted(q', i) { assert Submitted(q, i); }
    forall k | 0 <= k < |q'.barriers| ensures BarrierOk(q', q'.barriers[k], k) {
      assert BarrierOk(q, q.barriers[k], k);
    }
  }

  lemma FsAdd(s: set<Request>, r: Request)
    ensures r !in s && IsFs(r) ==> |Fs(s + {r})| == |Fs(s)| + 1
    ensures r in s && IsFs(r) ==> |Fs(s - {r})| == |Fs(s)| - 1
    ensures !IsFs(r) ==> Fs(s + {r}) == Fs(s) == Fs(s - {r})
  {
    if IsFs(r) {
      assert r !in s ==> Fs(s + {r}) == Fs(s) + {r};
      assert r in s ==> Fs(s - {r}) == Fs(s) - {r};
    }
  }

  lemma DequeueHead(q: Queue, r: Request)
    requires HeadOk(q, q.head) && r in q.head && r in q.started
    ensures var q' := Apply(q, DequeueStep(r));
      HeadOk(q', q'.head) && forall x :: x in q'.head <==> x in q.head && x != r
  {
    var q' := Apply(q, DequeueStep(r));
    NoDuplicates(q);
    Lists.EraseNoDup(q.head, r);
    HeadRemove(q, q.head, r);
    assert forall i :: 0 <= i < |q.head| ==> HeadElem(q, q.head[i]);
    HeadFrame(q, q', q'.head);
  }

  lemma InvDequeue(q: Queue, r: Request)
    requires Inv(q) && Enabled(q, DequeueStep(r))
    ensures Inv(Apply(q, DequeueStep(r)))
  {
    hide HistoryOk, Lists.Erase;
    var q' := Apply(q, DequeueStep(r));
    DequeueHead(q, r);
    assert HeadElem(q, r);
    if r.Rq? { EpochBound(q, r); }
    HistoryFrame(q, q');
    FsAdd(q.driver, r);
    assert SetsOk(q') by {
      forall x | x in q'.driver ensures DriverElem(q', x) { if x != r { assert DriverElem(q, x); } }
      forall x | x in q'.sorted ensures SortedElem(q', x) { assert SortedElem(q, x); }
    }
  }

  /** The colour test of `ReqSeq` in terms of epochs: it finds whether an even
      number of barriers lies between the running one and `r`. */
  lemma ColorMeaning(q: Queue, r: Request)
    requires HistoryOk(q) && StagesOk(q) && Active(q) && Outstanding(q, r)
    ensures ReqSeq(q, r) == if r.epoch % 2 == q.ended % 2 then SEQ_DRAIN else SEQ_DONE
  {
    assert BarrierOk(q, q.barriers[q.ended], q.ended);
    assert Outstanding(q, q.orig);
  }

  /** A request two or more epochs ahead stands behind a barrier that waits. */
  lemma LaterEpochsWait(q: Queue, i: nat) returns (m: nat)
    requires Inv(q) && Active(q) && i < |q.head| && FsRq(q.head[i]) && q.head[i].epoch > q.ended + 1
    ensures m < i && FsRq(q.head[m]) && ReqSeq(q, q.head[m]) == SEQ_DONE
  {
    assert HeadElem(q, q.head[i]);
    EpochBound(q, q.head[i]);
    var b := q.barriers[q.ended + 1];
    assert BarrierOk(q, b, q.ended + 1);
    m :| 0 <= m < |q.head| && q.head[m] == b;
    Entries(q, i, m);
    ColorMeaning(q, b);
  }

  lemma RequeueOrderProxy(q: Queue, r: Request, p: nat)
    requires Inv(q) && r in q.driver && !r.Rq? && Active(q) && p == RequeuePos(q, ReqSeq(q, r), 0)
    ensures forall i :: 0 <= i < p ==> Before(q, q.head[i], r)
    ensures forall i :: p <= i < |q.head| ==> Before(q, r, q.head[i])
  {
    forall i | 0 <= i < p ensures Before(q, q.head[i], r) {
      assert HeadElem(q, q.head[i]);
      if FsRq(q.head[i]) {
        ColorMeaning(q, q.head[i]);
        if q.head[i].epoch > q.ended + 1 { var m := LaterEpochsWait(q, i); }
      }
    }
    forall i | p <= i < |q.head| ensures Before(q, r, q.head[i]) {
      assert HeadElem(q, q.head[p]) && HeadElem(q, q.head[i]);
      if FsRq(q.head[p]) { ColorMeaning(q, q.head[p]); }
      if p < i { assert Before(q, q.head[p], q.head[i]); }
    }
  }

  /** Entries keep their order when only their standing may change. */
  lemma BeforeFrame(q: Queue, q': Queue)
    requires q'.ended == q.ended && q'.ordseq == q.ordseq
    ensures forall a, b {:trigger Before(q', a, b)} :: Before(q', a, b) <==> Before(q, a, b)
  {}

  /** A request that was running returns to the front, whatever stage is draining. */
  lemma RequeueOrderRq(q: Queue, r: Request)
    requires Inv(q) && r in q.driver && r.Rq?
    ensures Active(q) ==> RequeuePos(q, ReqSeq(q, r), 0) == 0
    ensures forall i :: 0 <= i < |q.head| ==> Before(q, r, q.head[i])
  {
    assert DriverElem(q, r);
    if Active(q) && r.fs { ColorMeaning(q, r); }
    forall i | 0 <= i < |q.head| ensures Before(q, r, q.head[i]) { assert HeadElem(q, q.head[i]); }
  }

  lemma RequeueOrder(q: Queue, r: Request, p: nat)
    requires Inv(q) && r in q.driver && p == if Active(q) then RequeuePos(q, ReqSeq(q, r), 0) else 0
    ensures forall i :: 0 <= i < p ==> Before(q, q.head[i], r)
    ensures forall i :: p <= i < |q.head| ==> Before(q, r, q.head[i])
  {
    hide HistoryOk, HeadOk, Before;
    if r.Rq? {
      RequeueOrderRq(q, r);
    } else {
      assert DriverElem(q, r);
      RequeueOrderProxy(q, r, p);
    }
  }

  lemma RequeueHead(q: Queue, r: Request)
    requires Inv(q) && r in q.driver
    ensures HeadOk(Requeue(q, r), Requeue(q, r).head)
    ensures forall x :: x in Requeue(q, r).head <==> x in q.head || x == r
  {
    hide HistoryOk, RequeuePos, Before, Lists.InsertAt, ReqSeq;
    var q' := Requeue(q, r);
    var p := if Active(q) then RequeuePos(q, ReqSeq(q, r), 0) else 0;
    assert DriverElem(q, r);
    assert forall i :: 0 <= i < |q.head| ==> HeadElem(q, q.head[i]);
    HeadFrame(q, q', q.head);
    RequeueOrder(q, r, p);
    BeforeFrame(q, q');
    HeadInsert(q', q.head, p, r);
    InsertMembers(q.head, p, r);
  }

  lemma InvRequeue(q: Queue, r: Request)
    requires Inv(q) && Enabled(q, RequeueStep(r))
    ensures Inv(Requeue(q, r))
  {
    hide HeadOk, RequeuePos, Lists.InsertAt, HistoryOk;
    var q' := Requeue(q, r);
    RequeueHead(q, r);
    assert DriverElem(q, r);
    HistoryFrame(q, q');
    FsAdd(q.driver, r);
    assert SetsOk(q') by {
      forall x | x in q'.driver ensures DriverElem(q', x) { assert DriverElem(q, x); }
      forall x | x in q'.sorted ensures SortedElem(q', x) { assert SortedElem(q, x); }
    }
  }

  lemma InvHandOut(q: Queue, r: Request)
    requires Inv(q) && r in q.head && MayRun(q, r)
    ensures Inv(HandOut(q, r).0)
  {
    hide HistoryOk, HeadOk;
    var q' := HandOut(q, r).0;
    HistoryFrame(q, q');
    HandOutHead(q, r);
    assert SetsOk(q') by {
      forall x | x in q'.driver ensures DriverElem(q', x) { assert DriverElem(q, x); }
      forall x | x in q'.sorted ensures SortedElem(q', x) { assert SortedElem(q, x); }
    }
  }

  lemma HandOutHead(q: Queue, r: Request)
    requires HeadOk(q, q.head) && r in q.head && MayRun(q, r)
    ensures HeadOk(HandOut(q, r).0, q.head) && HeadElem(q, r)
  {
    var q' := HandOut(q, r).0;
    assert HeadElem(q, r);
    forall i | 0 <= i < |q.head| ensures HeadElem(q', q.head[i]) { assert HeadElem(q, q.head[i]); }
    forall i, j | 0 <= i < j < |q.head| ensures Before(q', q.head[i], q.head[j]) {
      assert Before(q, q.head[i], q.head[j]);
    }
  }

  /** The flag and history sets only refer to submissions, so they survive anything that keeps those. */
  lemma FlagsFrame(q: Queue, q': Queue)
    requires SetsOk(q) && q.submitted <= q'.submitted && q.ended <= q'.ended
    requires q'.handed <= q.handed && q'.started <= q.started && (forall r :: r in q'.soft ==> r in q.soft || !r.Rq?)
    ensures forall r :: r in q.done ==> DoneElem(q', r)
    ensures forall r :: r in q'.handed ==> HandedElem(q', r)
    ensures forall r :: r in q'.started ==> HandedElem(q', r)
    ensures forall r :: r in q'.soft ==> Known(q', r)
  {
    forall r | r in q.done ensures DoneElem(q', r) { assert DoneElem(q, r); }
    forall r | r in q'.handed ensures HandedElem(q', r) { assert HandedElem(q, r); }
    forall r | r in q'.started ensures HandedElem(q', r) { assert HandedElem(q, r); }
    forall r | r in q'.soft ensures Known(q', r) { assert r.Rq? ==> Known(q, r); }
  }

  /** A barrier that has reached the front with no sequence running is the next to end. */
  lemma FrontBarrier(q: Queue)
    requires Inv(q) && !Active(q) && q.head != [] && IsBarrier(q.head[0])
    ensures q.ended < |q.barriers| && q.head[0] == q.barriers[q.ended] && q.head[0].Rq? && q.head[0].epoch == q.ended
    ensures q.head[0] !in q.started
    ensures forall i :: 1 <= i < |q.head| && FsRq(q.head[i]) ==> q.head[i].epoch > q.ended
  {
    var b := q.head[0];
    assert HeadElem(q, b);
    EpochBound(q, b);
    assert BarrierOk(q, q.barriers[q.ended], q.ended);
    var k :| 0 <= k < |q.head| && q.head[k] == q.barriers[q.ended];
    Entries(q, 0, k);
    forall i | 1 <= i < |q.head| && FsRq(q.head[i]) ensures q.head[i].epoch > q.ended {
      assert Before(q, q.head[0], q.head[i]);
    }
  }

  /** Ending the oldest barrier: nothing of its epoch may be left anywhere. */
  ghost predicate MayEnd(q: Queue, h: seq<Request>) {
    && q.ended < |q.barriers|
    && (forall r :: r in q.head ==> r in h || r == q.barriers[q.ended])
    && (forall r :: r in h ==> r.Rq? && (r.fs ==> r.epoch > q.ended))
    && (forall r :: r in q.driver ==> r.Rq? && !r.fs)
    && (Active(q) ==> q.orig == q.barriers[q.ended])
  }

  ghost function Ended(q: Queue, h: seq<Request>): Queue
    requires q.ended < |q.barriers|
  {
    q.(head := h, ordseq := Idle, done := q.done + {q.barriers[q.ended]}, ended := q.ended + 1)
  }

  lemma EndHistory(q: Queue, h: seq<Request>)
    requires HistoryOk(q) && SetsOk(q) && MayEnd(q, h)
    ensures HistoryOk(Ended(q, h))
  {
    var q' := Ended(q, h);
    ColorFrame(q, q');
    assert BarrierOk(q, q.barriers[q.ended], q.ended);
    forall i | 0 <= i < |q'.submitted| ensures Submitted(q', i) {
      assert Submitted(q, i);
      assert q.submitted[i] in q.sorted ==> SortedElem(q, q.submitted[i]);
    }
    forall i, j | 0 <= i < j < |q'.submitted| ensures Earlier(q'.submitted[i], q'.submitted[j]) {
      assert Earlier(q.submitted[i], q.submitted[j]);
    }
    forall k | 0 <= k < |q'.barriers| ensures BarrierOk(q', q'.barriers[k], k) {
      assert BarrierOk(q, q.barriers[k], k);
    }
  }

  lemma InvEnd(q: Queue, h: seq<Request>)
    requires HistoryOk(q) && SetsOk(q) && HeadOk(q, h) && MayEnd(q, h)
    ensures Inv(Ended(q, h))
  {
    var q' := Ended(q, h);
    EndHistory(q, h);
    FlagsFrame(q, q');
    assert BarrierOk(q, q.barriers[q.ended], q.ended);
    forall i | 0 <= i < |h| ensures HeadElem(q', h[i]) { assert HeadElem(q, h[i]) && h[i] in h; }
    forall i, j | 0 <= i < j < |h| ensures Before(q', h[i], h[j]) { assert Before(q, h[i], h[j]); }
    assert SetsOk(q') by {
      forall x | x in q'.driver ensures DriverElem(q', x) { assert DriverElem(q, x); }
      forall x | x in q'.sorted ensures SortedElem(q', x) { assert SortedElem(q, x); }
    }
  }

  /** A barrier that is refused with nothing in flight may end. */
  lemma RefuseEnds(q: Queue)
    requires Inv(q) && !Active(q) && q.head != [] && IsBarrier(q.head[0]) && q.inFlight == 0
    ensures HeadOk(q, q.head[1..]) && MayEnd(q, q.head[1..]) && Lists.Erase(q.head, q.head[0]) == q.head[1..]
    ensures q.head[0] == q.barriers[q.ended] && q.head[0] !in q.started
  {
    var b := q.head[0];
    var h := q.head[1..];
    FrontBarrier(q);
    assert Lists.Erase(q.head, b) == h;
    HeadRemove(q, q.head, b);
    forall i | 0 <= i < |h| ensures HeadElem(q, h[i]) { assert HeadElem(q, q.head[i + 1]); }
    forall r | r in q.driver ensures r.Rq? && !r.fs {
      assert DriverElem(q, r);
      assert IsFs(r) ==> r in Fs(q.driver);
    }
  }

  lemma InvRefuse(q: Queue)
    requires Inv(q) && !Active(q) && q.head != [] && IsBarrier(q.head[0]) && q.inFlight == 0
    ensures Inv(EndBarrier(Unlink(q, q.head[0]), q.head[0]))
  {
    hide HistoryOk, SetsOk, HeadOk, MayEnd, Lists.Erase;
    RefuseEnds(q);
    InvEnd(q, q.head[1..]);
    assert EndBarrier(Unlink(q, q.head[0]), q.head[0]) == Ended(q, q.head[1..]);
  }

  ghost function Proxies(m: Mode): seq<Request> {
    match m
    case DrainFlush => [PreFlush, Bar, PostFlush]
    case DrainFua => [PreFlush, Bar]
    case _ => [Bar]
  }

  ghost function ProxySet(m: Mode): (s: set<Request>)
    ensures forall r :: r in s <==> r in Proxies(m)
  {
    match m
    case DrainFlush => {PreFlush, Bar, PostFlush}
    case DrainFua => {PreFlush, Bar}
    case _ => {Bar}
  }

  lemma StartUnlink(q: Queue, b: Request)
    requires q.head != [] && b == q.head[0] && b !in q.started
    ensures Unlink(q, b) == q.(head := q.head[1..])
  {
    assert Lists.Erase(q.head, b) == q.head[1..];
  }

  lemma PushShape(q: Queue)
    requires q.mode != NoBarrier
    ensures PushProxies(q) == q.(head := Proxies(q.mode) + q.head, soft := q.soft + ProxySet(q.mode),
                                 started := q.started - ProxySet(q.mode))
  {
    var q' := PushProxies(q);
    assert q'.head == Proxies(q.mode) + q.head;
    assert q'.soft == q.soft + ProxySet(q.mode);
    assert q'.started == q.started - ProxySet(q.mode);
  }

  /** start_ordered replaces the barrier at the front by its proxies. */
  lemma StartShape(q: Queue, b: Request)
    requires q.head != [] && b == q.head[0] && b !in q.started && q.mode != NoBarrier
    ensures var q' := StartOrdered(q, b); var ps := Proxies(q.mode);
      && q' == q.(head := ps + q.head[1..], soft := q'.soft, started := q'.started, orig := b, ordseq := q'.ordseq)
      && q'.soft == q.soft + ProxySet(q.mode) && q'.started == q.started - ProxySet(q.mode)
      && q'.ordseq == OrdSeq(true, q.inFlight == 0, PreFlush !in ps, false, PostFlush !in ps)
  {
    hide Unlink, PushProxies;
    StartUnlink(q, b);
    PushShape(Unlink(q, b).(orig := b));
  }

  lemma StartRest(q: Queue, q': Queue)
    requires Inv(q) && !Active(q) && q.head != [] && IsBarrier(q.head[0])
    requires q' == q.(head := q'.head, soft := q'.soft, started := q'.started, orig := q.head[0], ordseq := q'.ordseq)
    requires q.soft <= q'.soft && q'.started <= q.started && Active(q')
    ensures HeadOk(q', q.head[1..])
    ensures forall r :: r in q.head[1..] ==> r.Rq? && Rank(q', r) in {0, 32}
  {
    FrontBarrier(q);
    var rest := q.head[1..];
    forall i | 0 <= i < |rest| ensures HeadElem(q', rest[i]) && rest[i].Rq? && Rank(q', rest[i]) in {0, 32} {
      assert HeadElem(q, q.head[i + 1]);
    }
    forall i, j | 0 <= i < j < |rest| ensures Before(q', rest[i], rest[j]) {
      assert HeadElem(q', rest[i]) && HeadElem(q', rest[j]);
      assert Before(q, q.head[i + 1], q.head[j + 1]);
    }
  }

  /** No proxy of an earlier sequence is left. */
  lemma NoProxyLeft(q: Queue, r: Request)
    requires Inv(q) && !Active(q) && !r.Rq?
    ensures r !in q.head && r !in q.driver && r !in q.sorted && r !in q.done
  {
    hide HistoryOk;
    forall i | 0 <= i < |q.head| ensures q.head[i] != r { assert HeadElem(q, q.head[i]); }
    assert r in q.driver ==> DriverElem(q, r);
    assert r in q.sorted ==> SortedElem(q, r);
    assert r in q.done ==> DoneElem(q, r);
  }

  lemma StartHead(q: Queue, b: Request)
    requires Inv(q) && !Active(q) && q.head != [] && IsBarrier(q.head[0]) && b == q.head[0] && q.mode != NoBarrier
    ensures HeadOk(StartOrdered(q, b), StartOrdered(q, b).head)
  {
    hide HistoryOk, SetsOk, StartOrdered;
    FrontBarrier(q);
    StartShape(q, b);
    var q' := StartOrdered(q, b);
    var ps := Proxies(q.mode);
    var rest := q.head[1..];
    StartRest(q, q');
    assert HeadOk(q', ps) by {
      forall i | 0 <= i < |ps| ensures HeadElem(q', ps[i]) {
        assert ps[i] in ps;
        NoProxyLeft(q, ps[i]);
      }
    }
    HeadConcat(q', ps, rest);
  }

  lemma HeadConcat(q: Queue, s: seq<Request>, t: seq<Request>)
    requires HeadOk(q, s) && HeadOk(q, t) && forall a, b :: a in s && b in t ==> Before(q, a, b)
    ensures HeadOk(q, s + t)
  {
    var u := s + t;
    forall i | 0 <= i < |u| ensures HeadElem(q, u[i]) {
      if i < |s| { assert HeadElem(q, s[i]); } else { assert HeadElem(q, t[i - |s|]); }
    }
    forall i, j | 0 <= i < j < |u| ensures Before(q, u[i], u[j]) {
      if j < |s| { assert Before(q, s[i], s[j]); }
      else if i >= |s| { assert Before(q, t[i - |s|], t[j - |s|]); }
      else { assert u[i] in s && u[j] in t; }
    }
  }

  lemma InvStart(q: Queue, b: Request)
    requires Inv(q) && !Active(q) && q.head != [] && IsBarrier(q.head[0]) && b == q.head[0] && q.mode != NoBarrier
    ensures Inv(StartOrdered(q, b))
  {
    hide HeadOk, HistoryOk, SetsOk, StartOrdered;
    var q' := StartOrdered(q, b);
    StartHead(q, b);
    FrontBarrier(q);
    StartShape(q, b);
    Entries(q, 0, 0);
    assert forall r :: r in q.head && r != b ==> r in q.head[1..];
    assert forall r :: r in q'.head <==> r in Proxies(q.mode) || r in q.head[1..];
    assert Bar in Proxies(q.mode);
    StartHistory(q, q');
    StartSets(q, q');
  }

  lemma StartSets(q: Queue, q': Queue)
    requires SetsOk(q) && !Active(q) && q.submitted == q'.submitted && q.barriers == q'.barriers
    requires q'.ended == q.ended && q'.sorted == q.sorted && q'.driver == q.driver && q'.done == q.done
    requires q'.handed == q.handed && q'.inFlight == q.inFlight && q'.started <= q.started
    requires forall r :: r in q.started && r.Rq? ==> r in q'.started
    requires forall r :: r in q'.soft ==> r in q.soft || !r.Rq?
    requires q'.ordseq.started && (q'.ordseq.drain ==> q.inFlight == 0)
    ensures SetsOk(q')
  {
    FlagsFrame(q, q');
    forall x | x in q'.driver ensures DriverElem(q', x) {
      assert DriverElem(q, x);
      assert IsFs(x) ==> x in Fs(q.driver);
    }
    forall x | x in q'.sorted ensures SortedElem(q', x) { assert SortedElem(q, x); }
  }

  lemma StartHistory(q: Queue, q': Queue)
    requires HistoryOk(q) && !Active(q) && q.ended < |q.barriers|
    requires q' == q.(head := q'.head, soft := q'.soft, started := q'.started, orig := q.barriers[q.ended],
                      ordseq := q'.ordseq)
    requires Active(q') && forall r :: r in q.head && r != q'.orig ==> r in q'.head
    ensures HistoryOk(q')
  {
    ColorFrame(q, q');
    forall i | 0 <= i < |q'.submitted| ensures Submitted(q', i) { assert Submitted(q, i); }
    forall i, j | 0 <= i < j < |q'.submitted| ensures Earlier(q'.submitted[i], q'.submitted[j]) {
      assert Earlier(q.submitted[i], q.submitted[j]);
    }
    forall k | 0 <= k < |q'.barriers| ensures BarrierOk(q', q'.barriers[k], k) {
      assert BarrierOk(q, q.barriers[k], k);
      assert BarrierOk(q, q.barriers[q.ended], q.ended);
    }
  }

  /** What the test in blk_do_ordered lets through. */
  lemma TurnMeansMayRun(q: Queue)
    requires Inv(q) && Active(q) && q.head != []
    ensures ReqSeq(q, q.head[0]) <= CurSeq(q.ordseq) || (q.head[0].Rq? && !q.head[0].fs) ==> MayRun(q, q.head[0])
    ensures (q.head[0].Rq? && !q.head[0].fs) || ReqSeq(q, q.head[0]) >= CurSeq(q.ordseq)
  {
    var r := q.head[0];
    assert HeadElem(q, r);
    if FsRq(r) {
      ColorMeaning(q, r);
      if r.epoch > q.ended + 1 { var m := LaterEpochsWait(q, 0); }
    }
  }

  lemma InvBegin(q: Queue)
    requires Inv(q) && !Active(q) && q.head != [] && IsBarrier(q.head[0]) && q.mode != NoBarrier
    ensures Inv(Next(q).0)
  {
    hide Inv, StartOrdered, HandOut;
    InvStart(q, q.head[0]);
    BeginFront(q);
    var q1 := StartOrdered(q, q.head[0]);
    if q1.ordseq.drain { InvHandOut(q1, q1.head[0]); }
  }

  /** If nothing is in flight, the first proxy may run at once. */
  lemma BeginFront(q: Queue)
    requires Inv(q) && !Active(q) && q.head != [] && IsBarrier(q.head[0]) && q.mode != NoBarrier
    ensures var q1 := StartOrdered(q, q.head[0]);
      q1.head != [] && (q1.ordseq.drain ==> MayRun(q1, q1.head[0]))
  {
    hide HistoryOk, SetsOk, StartOrdered;
    FrontBarrier(q);
    StartShape(q, q.head[0]);
  }

  lemma InvNext(q: Queue)
    requires Inv(q) && Disciplined(q, NextStep)
    ensures Inv(Next(q).0)
  {
    hide Inv, StartOrdered, ReqSeq, CurSeq;
    if q.head != [] {
      var r := q.head[0];
      if !Active(q) && IsBarrier(r) {
        if q.mode == NoBarrier { InvRefuse(q); } else { InvBegin(q); }
      } else if !Active(q) {
        FrontRunnable(q);
        InvHandOut(q, r);
      } else {
        TurnMeansMayRun(q);
        if Next(q).1 != [] { InvHandOut(q, r); }
      }
    }
  }

  lemma FrontRunnable(q: Queue)
    requires Inv(q) && !Active(q) && q.head != [] && !IsBarrier(q.head[0])
    ensures MayRun(q, q.head[0])
  {
    var r := q.head[0];
    assert HeadElem(q, r);
    if FsRq(r) && r.epoch > q.ended {
      EpochBound(q, r);
      assert BarrierOk(q, q.barriers[q.ended], q.ended);
      var k :| 0 <= k < |q.head| && q.head[k] == q.barriers[q.ended];
      Entries(q, 0, k);
    }
  }

  /** The queue right after `r` has left the driver. */
  ghost function Retired(q: Queue, r: Request): Queue {
    q.(driver := q.driver - {r},
       inFlight := q.inFlight - (if Account(q, r) then 1 else 0),
       done := if r.Rq? then q.done + {r} else q.done)
  }

  lemma RetireParts(q: Queue, r: Request)
    requires Inv(q) && r in q.driver
    ensures HistoryOk(Retired(q, r)) && SetsOk(Retired(q, r)) && HeadOk(Retired(q, r), q.head)
  {
    var q' := Retired(q, r);
    assert DriverElem(q, r);
    FsAdd(q.driver, r);
    assert forall i :: 0 <= i < |q.head| ==> HeadElem(q, q.head[i]);
    HeadFrame(q, q', q.head);
    FlagsFrame(q, q');
    RetireHistory(q, r);
    assert SetsOk(q') by {
      forall x | x in q'.driver ensures DriverElem(q', x) { assert DriverElem(q, x); }
      forall x | x in q'.sorted ensures SortedElem(q', x) { assert SortedElem(q, x); }
    }
  }

  lemma RetireHistory(q: Queue, r: Request)
    requires HistoryOk(q)
    ensures HistoryOk(Retired(q, r))
  {
    var q' := Retired(q, r);
    ColorFrame(q, q');
    forall i | 0 <= i < |q'.submitted| ensures Submitted(q', i) { assert Submitted(q, i); }
    forall i, j | 0 <= i < j < |q'.submitted| ensures Earlier(q'.submitted[i], q'.submitted[j]) {
      assert Earlier(q.submitted[i], q.submitted[j]);
    }
    forall k | 0 <= k < |q'.barriers| ensures BarrierOk(q', q'.barriers[k], k) {
      assert BarrierOk(q, q.barriers[k], k);
    }
  }

  /** Nothing of the barrier's epoch is left once `Drained` holds. */
  lemma DrainedMeansEmpty(q: Queue)
    requires Inv(q) && Drained(q)
    ensures forall r :: r in q.head && FsRq(r) ==> r.epoch > q.ended
    ensures forall r :: r in q.driver ==> !FsRq(r)
  {
    var f := q.head[0];
    assert HeadElem(q, f);
    if FsRq(f) { ColorMeaning(q, f); }
    forall r | r in q.head && FsRq(r) ensures r.epoch > q.ended {
      var i :| 0 <= i < |q.head| && q.head[i] == r;
      assert HeadElem(q, q.head[i]);
      Entries(q, 0, i);
    }
    forall r | r in q.driver ensures !FsRq(r) { assert IsFs(r) ==> r in Fs(q.driver); }
  }

  lemma StageFrame(q: Queue, o: OrdSeq)
    requires HistoryOk(q) && Active(q) && o != Idle
    ensures HistoryOk(q.(ordseq := o))
  {
    var q' := q.(ordseq := o);
    ColorFrame(q, q');
    forall i | 0 <= i < |q'.submitted| ensures Submitted(q', i) { assert Submitted(q, i); }
    forall i, j | 0 <= i < j < |q'.submitted| ensures Earlier(q'.submitted[i], q'.submitted[j]) {
      assert Earlier(q.submitted[i], q.submitted[j]);
    }
    forall k | 0 <= k < |q'.barriers| ensures BarrierOk(q', q'.barriers[k], k) {
      assert BarrierOk(q, q.barriers[k], k);
    }
  }

  lemma InvDrained(q: Queue)
    requires Inv(q) && Drained(q)
    ensures Inv(CompleteSeq(q, SEQ_DRAIN))
  {
    var q' := CompleteSeq(q, SEQ_DRAIN);
    DrainedMeansEmpty(q);
    StageFrame(q, q'.ordseq);
    FlagsFrame(q, q');
    forall i | 0 <= i < |q.head| ensures HeadElem(q', q.head[i]) {
      assert HeadElem(q, q.head[i]) && q.head[i] in q.head;
    }
    forall i, j | 0 <= i < j < |q.head| ensures Before(q', q.head[i], q.head[j]) {
      assert Before(q, q.head[i], q.head[j]);
    }
    assert SetsOk(q') by {
      forall x | x in q'.driver ensures DriverElem(q', x) { assert DriverElem(q, x); }
      forall x | x in q'.sorted ensures SortedElem(q', x) { assert SortedElem(q, x); }
    }
  }

  /** After the last stage the barrier may end. */
  lemma StageEnds(q: Queue, r: Request)
    requires Inv(q) && r in q.driver && !r.Rq? && CurSeq(SetBit(q.ordseq, ReqSeq(q, r))) == SEQ_DONE
    ensures var q1 := Retired(q, r); HistoryOk(q1) && SetsOk(q1) && HeadOk(q1, q.head) && MayEnd(q1, q.head)
    ensures q.orig == q.barriers[q.ended] && q.orig !in q.started
  {
    var q1 := Retired(q, r);
    RetireParts(q, r);
    assert DriverElem(q, r);
    forall i | 0 <= i < |q.head| ensures q.head[i] != r && HeadElem(q, q.head[i]) { assert HeadElem(q, q.head[i]); }
    forall x | x in q1.driver ensures DriverElem(q1, x) {}
    assert BarrierOk(q, q.orig, q.ended);
    assert q.orig in q.started ==> HandedElem(q, q.orig);
  }

  lemma InvStage(q: Queue, r: Request)
    requires Inv(q) && r in q.driver && !r.Rq?
    ensures Inv(CompleteSeq(Retired(q, r), ReqSeq(q, r)))
  {
    var q1 := Retired(q, r);
    var o := SetBit(q1.ordseq, ReqSeq(q, r));
    if CurSeq(o) == SEQ_DONE {
      hide HistoryOk, SetsOk, HeadOk, MayEnd;
      StageEnds(q, r);
      InvEnd(q1, q.head);
      assert CompleteSeq(q1, ReqSeq(q, r)) == Ended(q1, q.head);
    } else {
      RetireParts(q, r);
      assert DriverElem(q, r);
      forall i | 0 <= i < |q.head| ensures q.head[i] != r { assert HeadElem(q, q.head[i]); }
      InvStageOpen(q1, r, o);
    }
  }

  lemma InvStageOpen(q: Queue, r: Request, o: OrdSeq)
    requires HistoryOk(q) && SetsOk(q) && HeadOk(q, q.head) && Active(q) && !r.Rq? && r !in q.head && r !in q.driver
    requires StagesOk(q.(driver := q.driver + {r})) && MayRun(q, r)
    requires o == SetBit(q.ordseq, ReqSeq(q, r)) && CurSeq(o) != SEQ_DONE
    ensures Inv(q.(ordseq := o))
  {
    var q' := q.(ordseq := o);
    StageFrame(q, o);
    FlagsFrame(q, q');
    forall i | 0 <= i < |q.head| ensures HeadElem(q', q.head[i]) {
      assert HeadElem(q, q.head[i]) && q.head[i] in q.head;
    }
    forall i, j | 0 <= i < j < |q.head| ensures Before(q', q.head[i], q.head[j]) {
      assert Before(q, q.head[i], q.head[j]);
    }
    assert SetsOk(q') by {
      forall x | x in q'.driver ensures DriverElem(q', x) { assert DriverElem(q, x); }
      forall x | x in q'.sorted ensures SortedElem(q', x) { assert SortedElem(q, x); }
    }
  }

  lemma InvComplete(q: Queue, r: Request)
    requires Inv(q) && Enabled(q, CompleteStep(r))
    ensures Inv(Complete(q, r))
  {
    var q1 := Retired(q, r);
    assert DriverElem(q, r);
    if r.Rq? {
      RetireParts(q, r);
      if Active(q) { assert BarrierOk(q, q.orig, q.ended); EpochBound(q, r); }
      if Drained(q1) { InvDrained(q1); }
    } else {
      InvStage(q, r);
    }
  }

  lemma InvMode(q: Queue, m: Mode)
    requires Inv(q)
    ensures Inv(q.(mode := m))
  {
    var q' := q.(mode := m);
    HistoryFrame(q, q');
    assert forall i :: 0 <= i < |q.head| ==> HeadElem(q, q.head[i]);
    HeadFrame(q, q', q.head);
    FlagsFrame(q, q');
    assert SetsOk(q') by {
      forall x | x in q'.driver ensures DriverElem(q', x) { assert DriverElem(q, x); }
      forall x | x in q'.sorted ensures SortedElem(q', x) { assert SortedElem(q, x); }
    }
  }

  /** Every step keeps the invariant, a non-fs barrier at any time included; only
      the submission of an fs request needs the colour to be current. */
  lemma InvStep(q: Queue, s: Step)
    requires Inv(q) && Enabled(q, s) && (s.SubmitStep? && s.fs ==> Current(q))
    requires s.NextStep? ==> Disciplined(q, s)
    ensures Inv(Apply(q, s))
  {
    hide Inv, Current;
    match s
    case SubmitStep(fs, hard, where) => InvSubmit(q, fs, hard, where);
    case DispatchStep(r, p) => InvDispatch(q, r, p);
    case NextStep => InvNext(q);
    case DequeueStep(r) => InvDequeue(q, r);
    case CompleteStep(r) => InvComplete(q, r);
    case RequeueStep(r) => InvRequeue(q, r);
    case ModeStep(m) => InvMode(q, m);
  }

  /** What a step does to the history of submissions and completions. */
  lemma StepHistory(q: Queue, s: Step)
    requires Enabled(q, s) && !s.SubmitStep?
    ensures var q' := Apply(q, s);
      q'.submitted == q.submitted && q'.barriers == q.barriers && q'.ordcolor == q.ordcolor && q.done <= q'.done
  {
    hide ReqSeq, CurSeq, SetBit, RequeuePos, Lists.Erase, Lists.InsertAt, Account, IsBarrier, Drained, StartOrdered;
    if s.NextStep? && q.head != [] { StartKeepsHistory(q, q.head[0]); }
  }

  lemma StartKeepsHistory(q: Queue, b: Request)
    ensures var q' := StartOrdered(q, b);
      q'.submitted == q.submitted && q'.barriers == q.barriers && q'.ordcolor == q.ordcolor && q'.done == q.done
  {
    hide Lists.Erase, Account;
  }

  lemma CurrentStep(q: Queue, s: Step)
    requires Inv(q) && Current(q) && Enabled(q, s) && Disciplined(q, s)
    ensures Current(Apply(q, s))
  {
    if s.SubmitStep? {
      if s.hard && !s.fs {
        IdleMeansDone(q);
        var q' := Apply(q, s);
        forall a | Outstanding(q', a) ensures Outstanding(q, a) {
          assert a.id < |q.submitted| ==> q'.submitted[a.id] == q.submitted[a.id];
        }
      } else {
        SubmitColored(q, s.fs, s.hard, s.where);
      }
    } else {
      StepHistory(q, s);
      var q' := Apply(q, s);
      forall a | Outstanding(q', a) ensures Outstanding(q, a) {}
    }
  }

  lemma OutstandingPlace(q: Queue, r: Request)
    requires Inv(q) && Outstanding(q, r)
    ensures Active(q) || r in q.sorted || r in q.head || (r in q.driver && q.inFlight > 0)
  {
    assert Submitted(q, r.id);
    assert r in q.driver ==> r in Fs(q.driver);
  }

  /** The queue holds no fs request exactly when every one that was submitted has completed. */
  lemma IdleMeansDone(q: Queue)
    requires Inv(q)
    ensures FsIdle(q) <==> forall r :: !Outstanding(q, r)
  {
    if FsIdle(q) {
      forall r ensures !Outstanding(q, r) {
        if Outstanding(q, r) { OutstandingPlace(q, r); }
      }
    } else if Active(q) {
      StagedBarrier(q);
      assert Outstanding(q, q.orig);
    } else if q.inFlight != 0 {
      var r :| r in Fs(q.driver);
      assert DriverElem(q, r);
      assert Outstanding(q, r);
    } else if q.sorted != {} {
      var r :| r in q.sorted;
      assert SortedElem(q, r);
      assert Outstanding(q, r);
    } else {
      var r :| r in q.head && IsFs(r);
      assert HeadElem(q, r);
      assert Outstanding(q, r);
    }
  }

  /** Every disciplined step keeps the invariant with its colour. */
  lemma SoundStep(q: Queue, s: Step)
    requires Sound(q) && Enabled(q, s) && Disciplined(q, s)
    ensures Sound(Apply(q, s))
  {
    hide Inv, Current;
    InvStep(q, s);
    CurrentStep(q, s);
  }

  lemma {:induction false} InvRun(q: Queue, steps: seq<Step>)
    requires Sound(q) && Legal(q, steps) && DisciplinedRun(q, steps)
    ensures Sound(Final(q, steps))
    decreases |steps|
  {
    if steps != [] {
      SoundStep(q, steps[0]);
      InvRun(Apply(q, steps[0]), steps[1..]);
    }
  }

  lemma InvMeansOrdered(q: Queue)
    requires Inv(q)
    ensures Ordered(q)
  {
    forall i, j | 0 <= i < j < |q.submitted| && FsRq(q.submitted[i]) && FsRq(q.submitted[j])
      ensures q.submitted[j].hard && q.submitted[j] in q.done ==> q.submitted[i] in q.done
      ensures q.submitted[i].hard
              && (q.submitted[j] in q.handed || q.submitted[j] in q.driver || q.submitted[j] in q.done)
              ==> q.submitted[i] in q.done
    {
      var x, y := q.submitted[i], q.submitted[j];
      assert Earlier(x, y);
      assert Submitted(q, i);
      assert y in q.done ==> DoneElem(q, y);
      assert y in q.handed ==> HandedElem(q, y);
      assert y in q.driver ==> DriverElem(q, y);
    }
  }

  /** Barrier safety: in every disciplined run from the empty queue, barriers
      order the fs requests around them and end in submission order. */
  lemma BarrierSafety(steps: seq<Step>)
    requires Legal(Empty, steps) && DisciplinedRun(Empty, steps)
    ensures var q := Final(Empty, steps);
      && Ordered(q)
      && (forall k :: 0 <= k < |q.barriers| ==> (q.barriers[k] in q.done <==> k < q.ended))
  {
    InvEmpty();
    InvRun(Empty, steps);
    var q := Final(Empty, steps);
    InvMeansOrdered(q);
    forall k | 0 <= k < |q.barriers| ensures q.barriers[k] in q.done <==> k < q.ended {
      var b := q.barriers[k];
      assert BarrierOk(q, b, k);
      assert Submitted(q, b.id);
      assert b in q.done ==> DoneElem(q, b);
    }
  }

  /** Once the drain stage is closed, every fs request submitted before the barrier has completed. */
  lemma DrainClosed(q: Queue)
    requires Inv(q) && Active(q) && q.ordseq.drain
    ensures q.orig.Rq? && q.orig.id < |q.submitted|
    ensures forall i :: 0 <= i < q.orig.id && FsRq(q.submitted[i]) ==> q.submitted[i] in q.done
  {
    assert BarrierOk(q, q.orig, q.ended);
    forall i | 0 <= i < q.orig.id && FsRq(q.submitted[i]) ensures q.submitted[i] in q.done {
      var x := q.submitted[i];
      assert Earlier(x, q.submitted[q.orig.id]);
      assert Submitted(q, i);
      assert x in q.head ==> HeadElem(q, x);
      assert x in q.driver ==> DriverElem(q, x);
      assert x in q.sorted ==> SortedElem(q, x);
    }
  }

  /** When a proxy is handed to the driver, every fs request submitted before the
      original barrier has completed, and so have the earlier stages. */
  lemma ProxiesAfterDrain(steps: seq<Step>, r: Request)
    requires Legal(Empty, steps) && DisciplinedRun(Empty, steps)
    requires Disciplined(Final(Empty, steps), NextStep)
    requires Next(Final(Empty, steps)).1 == [r] && !r.Rq?
    ensures var q := Next(Final(Empty, steps)).0;
      && q.orig.Rq? && q.orig.id < |q.submitted|
      && (forall i :: 0 <= i < q.orig.id && FsRq(q.submitted[i]) ==> q.submitted[i] in q.done)
      && (r == Bar ==> q.ordseq.pre) && (r == PostFlush ==> q.ordseq.pre && q.ordseq.bar)
  {
    hide Inv, Next, Current, Live;
    InvEmpty();
    InvRun(Empty, steps);
    var p := Final(Empty, steps);
    InvNext(p);
    ProxyStarted(p, r);
    DrainClosed(Next(p).0);
  }

  lemma ProxyStarted(p: Queue, r: Request)
    requires Inv(p) && Next(p).1 == [r] && !r.Rq?
    requires Inv(Next(p).0)
    ensures Active(Next(p).0) && MayRun(Next(p).0, r)
  {
    var q := Next(p).0;
    assert r in q.started;
    assert r in q.head;
    var k :| 0 <= k < |q.head| && q.head[k] == r;
    assert HeadElem(q, q.head[k]);
  }

  /** None of the code's own checks ever fires. */
  lemma ChecksNeverFire(steps: seq<Step>, s: Step)
    requires Legal(Empty, steps) && DisciplinedRun(Empty, steps)
    requires Enabled(Final(Empty, steps), s)
    ensures !Trips(Final(Empty, steps), s)
  {
    InvEmpty();
    InvRun(Empty, steps);
    var q := Final(Empty, steps);
    match s
    case NextStep => if Active(q) && q.head != [] { TurnMeansMayRun(q); }
    case CompleteStep(r) =>
      assert DriverElem(q, r);
      assert IsFs(r) ==> r in Fs(q.driver);
      if CurSeq(q.ordseq) == SEQ_DRAIN { BarStillQueued(q); }
    case RequeueStep(r) => assert IsFs(r) ==> r in Fs(q.driver);
    case _ =>
  }

  lemma BarStillQueued(q: Queue)
    requires Inv(q) && CurSeq(q.ordseq) == SEQ_DRAIN
    ensures Bar in q.head
  {
    assert Bar in q.driver ==> DriverElem(q, Bar);
  }

  /** While draining with nothing in the driver, the front entry is one that may be handed out. */
  ghost predicate Live(q: Queue) {
    Active(q) && !q.ordseq.drain && q.driver == {} ==> q.head != [] && ReqSeq(q, q.head[0]) == SEQ_DRAIN
  }

  lemma LiveNext(q: Queue)
    requires Inv(q) && Live(q)
    ensures Live(Next(q).0)
  {
    if q.head != [] && !Active(q) && IsBarrier(q.head[0]) && q.mode != NoBarrier {
      FrontBarrier(q);
      StartShape(q, q.head[0]);
      if q.inFlight != 0 { assert Fs(q.driver) != {}; }
    }
  }

  lemma LiveOpen(q: Queue)
    requires Active(q) && q.ordseq.started && !q.ordseq.drain && q.head != []
    requires q.inFlight == |Fs(q.driver)| && !Drained(q)
    ensures Live(q)
  {
    assert ReqSeq(q, q.head[0]) >= SEQ_DRAIN;
    assert q.driver == {} ==> Fs(q.driver) == {};
  }

  lemma SeqKeepsDrain(q: Queue, s: int)
    ensures var o := CompleteSeq(q, s).ordseq; o == Idle || o.drain == (q.ordseq.drain || s == SEQ_DRAIN)
  {}

  lemma DrainedMeansOpen(q: Queue)
    ensures Drained(q) ==> Active(q) && !q.ordseq.drain
  {}

  lemma LiveComplete(q: Queue, r: Request)
    requires Inv(q) && r in q.driver
    ensures Live(Complete(q, r))
  {
    hide HistoryOk, HeadOk, Fs, ReqSeq, CompleteSeq;
    assert DriverElem(q, r);
    var q1 := Retired(q, r);
    SeqKeepsDrain(q1, SEQ_DRAIN);
    SeqKeepsDrain(q1, ReqSeq(q1, r));
    if Active(q) && !q.ordseq.drain {
      BarStillQueued(q);
      FsAdd(q.driver, r);
      if !Drained(q1) { LiveOpen(q1); }
    } else {
      assert !Drained(q1) by { DrainedMeansOpen(q1); }
    }
  }

  lemma LiveRequeue(q: Queue, r: Request)
    requires Inv(q) && r in q.driver
    ensures Live(Requeue(q, r))
  {
    assert DriverElem(q, r);
    if Active(q) && r.Rq? && r.fs { ColorMeaning(q, r); }
  }

  lemma LiveStep(q: Queue, s: Step)
    requires Inv(q) && Live(q) && Enabled(q, s)
    ensures Live(Apply(q, s))
  {
    match s
    case SubmitStep(_, _, _) =>
    case DispatchStep(r, p) => if Active(q) && !q.ordseq.drain { BarStillQueued(q); }
    case NextStep => LiveNext(q);
    case DequeueStep(r) =>
    case CompleteStep(r) => LiveComplete(q, r);
    case RequeueStep(r) => LiveRequeue(q, r);
    case ModeStep(_) =>
  }

  lemma {:induction false} LiveRun(q: Queue, steps: seq<Step>)
    requires Sound(q) && Live(q) && Legal(q, steps) && DisciplinedRun(q, steps)
    ensures Sound(Final(q, steps)) && Live(Final(q, steps))
    decreases |steps|
  {
    if steps != [] {
      SoundStep(q, steps[0]);
      LiveStep(q, steps[0]);
      LiveRun(Apply(q, steps[0]), steps[1..]);
    }
  }

  lemma NoWedge(q: Queue)
    requires Inv(q) && Live(q) && Active(q) && q.driver == {}
    ensures Next(q).1 != []
  {
    hide HistoryOk, SetsOk;
    if q.ordseq.drain {
      var stage := if !q.ordseq.pre then PreFlush else if !q.ordseq.bar then Bar else PostFlush;
      assert Placed(q, stage);
      var k :| 0 <= k < |q.head| && q.head[k] == stage;
      Entries(q, 0, k);
    }
  }

  /** The barrier at the front is refused instead of started. */
  predicate Refuses(q: Queue) {
    !Active(q) && q.head != [] && IsBarrier(q.head[0]) && q.mode == NoBarrier
  }

  lemma MayRunMeansTurn(q: Queue)
    requires Inv(q) && Active(q) && q.head != [] && MayRun(q, q.head[0])
    ensures (q.head[0].Rq? && !q.head[0].fs) || ReqSeq(q, q.head[0]) <= CurSeq(q.ordseq)
  {
    var r := q.head[0];
    assert HeadElem(q, r);
    if FsRq(r) { ColorMeaning(q, r); }
  }

  /** What a call gives out: unless a barrier is refused, the first entry is given out exactly if it may run,
      and it is the first proxy if the call started a sequence. */
  lemma NextExact(q: Queue)
    requires Inv(q) && q.head != [] && !Refuses(q)
    ensures var (q', rs) := Next(q);
      && q'.head == (if !Active(q) && IsBarrier(q.head[0]) then Proxies(q.mode) else [q.head[0]]) + q.head[1..]
      && rs == if MayRun(q', q'.head[0]) then [q'.head[0]] else []
  {
    hide HistoryOk, SetsOk, HeadOk, StartOrdered, ReqSeq;
    assert q.head == [q.head[0]] + q.head[1..];
    if !Active(q) && IsBarrier(q.head[0]) {
      FrontBarrier(q);
      StartShape(q, q.head[0]);
    } else if !Active(q) {
      FrontRunnable(q);
    } else {
      TurnMeansMayRun(q);
      if MayRun(q, q.head[0]) { MayRunMeansTurn(q); }
    }
  }

  /** With an idle driver the call gives the first entry out, in every mode and also when it starts a sequence:
      nothing else would call the driver again. */
  lemma IdleGivesOut(q: Queue)
    requires Inv(q) && Live(q) && q.driver == {} && q.head != [] && !Refuses(q)
    ensures Next(q).0.head != [] && Next(q).1 == [Next(q).0.head[0]]
  {
    hide HistoryOk, HeadOk, Next, MayRun;
    NextExact(q);
    if Active(q) {
      NoWedge(q);
    } else if IsBarrier(q.head[0]) {
      assert Fs(q.driver) == {};
      StartGivesOut(q);
    } else {
      FrontGivesOut(q);
    }
  }

  lemma StartGivesOut(q: Queue)
    requires Inv(q) && !Active(q) && q.head != [] && IsBarrier(q.head[0]) && !Refuses(q) && q.inFlight == 0
    ensures Next(q).1 != []
  {
    hide HistoryOk, SetsOk, HeadOk, StartOrdered;
    FrontBarrier(q);
    StartShape(q, q.head[0]);
  }

  lemma FrontGivesOut(q: Queue)
    requires !Active(q) && q.head != [] && !IsBarrier(q.head[0])
    ensures Next(q).1 != []
  {}

  /** Over every disciplined run: an idle driver that asks gets a request whenever there is one. */
  lemma DriverNeverStarves(steps: seq<Step>)
    requires Legal(Empty, steps) && DisciplinedRun(Empty, steps)
    ensures var q := Final(Empty, steps);
      q.driver == {} && q.head != [] && !Refuses(q) ==>
        Next(q).0.head != [] && Next(q).1 == [Next(q).0.head[0]]
  {
    hide Inv, Next, Live, Refuses;
    InvEmpty();
    LiveRun(Empty, steps);
    var q := Final(Empty, steps);
    if q.driver == {} && q.head != [] && !Refuses(q) { IdleGivesOut(q); }
  }

  /** A barrier sequence never wedges: as long as it runs, either the driver
      holds a request or the next call of elv_next_request hands one out. */
  lemma BarrierNeverWedges(steps: seq<Step>)
    requires Legal(Empty, steps) && DisciplinedRun(Empty, steps)
    ensures var q := Final(Empty, steps);
      Active(q) ==> q.driver != {} || Next(q).1 != []
  {
    hide Inv, Next;
    InvEmpty();
    LiveRun(Empty, steps);
    var q := Final(Empty, steps);
    if Active(q) && q.driver == {} { NoWedge(q); }
  }
}
