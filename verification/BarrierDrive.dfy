/**
 Driving a queue by hand: from any state that meets the invariant, disciplined
 steps bring a chosen request, or the last stage of the last barrier, into the
 driver.
 */
module BarrierDrive {
  import opened Barrier
  import opened BarrierProof
  import Lists

  /** A disciplined run leads from `q` to `q'`. */
  ghost predicate Reaches(q: Queue, q': Queue) {
    exists steps :: Legal(q, steps) && DisciplinedRun(q, steps) && Final(q, steps) == q'
  }

  lemma Here(q: Queue)
    ensures Reaches(q, q)
  {
    assert Legal(q, []) && DisciplinedRun(q, []) && Final(q, []) == q;
  }

  lemma Then(q: Queue, q': Queue, s: Step)
    requires Reaches(q, q') && Enabled(q', s) && Disciplined(q', s)
    ensures Reaches(q, Apply(q', s))
  {
    var steps :| Legal(q, steps) && DisciplinedRun(q, steps) && Final(q, steps) == q';
    FinalSnoc(q, steps, s);
  }

  lemma {:induction false} FinalSnoc(q: Queue, steps: seq<Step>, s: Step)
    requires Legal(q, steps) && DisciplinedRun(q, steps)
    requires Enabled(Final(q, steps), s) && Disciplined(Final(q, steps), s)
    ensures Legal(q, steps + [s]) && DisciplinedRun(q, steps + [s])
    ensures Final(q, steps + [s]) == Apply(Final(q, steps), s)
    decreases |steps|
  {
    hide Apply, Enabled, Disciplined;
    if steps == [] {
      assert Legal(Apply(q, s), []) && DisciplinedRun(Apply(q, s), []) && Final(Apply(q, s), []) == Apply(q, s);
      assert (steps + [s])[1..] == [];
    } else {
      FinalSnoc(Apply(q, steps[0]), steps[1..], s);
      assert (steps + [s])[1..] == steps[1..] + [s];
    }
  }

  /** Nothing was submitted in between. */
  ghost predicate SameHistory(q: Queue, q': Queue) {
    q'.submitted == q.submitted && q'.barriers == q.barriers && q'.ordcolor == q.ordcolor && q.done <= q'.done
  }

  /** One step that submits nothing, from a state in good order. */
  lemma Go(q0: Queue, q: Queue, s: Step) returns (r: Queue)
    requires Reaches(q0, q) && Inv(q) && Live(q) && q.mode == Drain
    requires Enabled(q, s) && !s.SubmitStep? && s != ModeStep(NoBarrier)
    ensures r == Apply(q, s) && Reaches(q0, r) && Inv(r) && Live(r) && SameHistory(q, r)
  {
    hide Inv, Live, Reaches, Enabled, Apply;
    Then(q0, q, s);
    InvStep(q, s);
    LiveStep(q, s);
    StepHistory(q, s);
    r := Apply(q, s);
  }

  /** Nothing with the io scheduler or the driver, and barriers are served. */
  ghost predicate Settled(q: Queue) {
    Inv(q) && Live(q) && q.sorted == {} && q.driver == {} && q.mode == Drain
  }

  /** What the io scheduler holds is dispatched and what the driver holds is
      requeued: nothing completes. */
  lemma {:induction false} Settle(q0: Queue, q: Queue) returns (r: Queue)
    requires Reaches(q0, q) && Inv(q) && Live(q) && q.mode == Drain
    ensures Reaches(q0, r) && Settled(r) && SameHistory(q, r) && r.done == q.done
    decreases |q.sorted| + |q.driver|
  {
    hide Inv, Live, Reaches, RequeuePos, ReqSeq, Lists.InsertAt;
    if q.sorted != {} {
      var x :| x in q.sorted;
      r := Go(q0, q, DispatchStep(x, |q.head|));
      r := Settle(q0, r);
    } else if q.driver != {} {
      var x :| x in q.driver;
      r := Go(q0, q, RequeueStep(x));
      r := Settle(q0, r);
    } else {
      r := q;
    }
  }

  lemma EraseFirst(s: seq<Request>)
    requires s != []
    ensures Lists.Erase(s, s[0]) == s[1..]
  {}

  /** elv_next_request on a settled queue gives out the first entry, or the proxy that replaces it. */
  lemma GivesOut(q: Queue) returns (f: Request)
    requires Settled(q) && q.head != []
    ensures var q' := Next(q).0;
      && q'.head == [f] + q.head[1..] && f in q'.started && q'.driver == {} && q'.sorted == {} && q'.mode == Drain
      && q'.ended == q.ended
    ensures f == q.head[0] || (f == Bar && IsBarrier(q.head[0]))
  {
    hide HistoryOk, SetsOk, HeadOk, StartOrdered, ReqSeq;
    f := q.head[0];
    if Active(q) {
      NoWedge(q);
    } else if IsBarrier(f) {
      FrontBarrier(q);
      StartShape(q, f);
      NothingInFlight(q);
      f := Bar;
    }
    assert q.head == [q.head[0]] + q.head[1..];
  }

  lemma NothingInFlight(q: Queue)
    requires SetsOk(q) && q.driver == {}
    ensures q.inFlight == 0
  {
    assert Fs(q.driver) == {};
  }

  /** The first entry of a settled queue, or its proxy, comes into the driver. */
  lemma TakeFront(q0: Queue, q: Queue) returns (r: Queue, f: Request)
    requires Reaches(q0, q) && Settled(q) && q.head != []
    ensures Reaches(q0, r) && Inv(r) && Live(r) && SameHistory(q, r)
    ensures r.head == q.head[1..] && r.driver == {f} && r.sorted == {} && r.mode == Drain && r.ended == q.ended
    ensures f == q.head[0] || (f == Bar && IsBarrier(q.head[0]))
  {
    hide Inv, Live, Reaches, Next, Lists.Erase;
    f := GivesOut(q);
    r := Go(q0, q, NextStep);
    assert r.head[0] == f && r.head[1..] == q.head[1..];
    EraseFirst(r.head);
    r := Go(q0, r, DequeueStep(f));
  }

  /** The driver completes the one request it holds. */
  lemma Finish(q0: Queue, q: Queue, f: Request) returns (r: Queue)
    requires Reaches(q0, q) && Inv(q) && Live(q) && q.sorted == {} && q.driver == {f} && q.mode == Drain
    ensures Reaches(q0, r) && Settled(r) && SameHistory(q, r) && r.head == q.head
    ensures r.ended == q.ended || (!f.Rq? && Last(q, f) && r.ended == q.ended + 1)
  {
    hide Inv, Live, Reaches, ReqSeq;
    FinishEnds(q, f);
    r := Go(q0, q, CompleteStep(f));
    hide CurSeq, SetBit;
    assert r.driver == {};
  }

  /** `f` is the last stage that is open. */
  predicate Last(q: Queue, f: Request) {
    Active(q) && !f.Rq? && CurSeq(SetBit(q.ordseq, ReqSeq(q, f))) == SEQ_DONE
  }

  lemma FinishEnds(q: Queue, f: Request)
    requires Inv(q) && f in q.driver
    ensures var r := Complete(q, f); r.ended == q.ended || (!f.Rq? && Last(q, f) && r.ended == q.ended + 1)
  {
    hide HistoryOk, HeadOk;
    assert DriverElem(q, f);
  }

  /** Any plain request of the newest epoch can be brought into the driver alone,
      once every barrier has ended. */
  lemma {:induction false} DriveToPlain(q0: Queue, q: Queue, x: Request) returns (r: Queue)
    requires Reaches(q0, q) && Settled(q)
    requires x in q.head && FsRq(x) && !x.hard && x.epoch == |q.barriers|
    ensures Reaches(q0, r) && Inv(r) && SameHistory(q, r)
    ensures r.driver == {x} && r.sorted == {} && r.mode == Drain && !Active(r) && r.ended == |r.barriers|
    decreases |q.head|
  {
    hide Inv, Live, Reaches;
    var f;
    r, f := TakeFront(q0, q);
    if f == x {
      RunsLast(r, x);
    } else {
      assert x in r.head;
      r := Finish(q0, r, f);
      r := DriveToPlain(q0, r, x);
    }
  }

  lemma RunsLast(q: Queue, x: Request)
    requires Inv(q) && x in q.driver && FsRq(x) && x.epoch == |q.barriers|
    ensures q.ended == |q.barriers| && !Active(q)
  {
    assert DriverElem(q, x);
  }

  /** All fs requests that are left were submitted before the last barrier. */
  ghost predicate BeforeLast(q: Queue) {
    q.ended < |q.barriers| && forall r :: r in q.head && FsRq(r) ==> r.epoch < |q.barriers|
  }

  /** If a barrier waits and nothing was submitted after it, the last stage of its
      sequence can be brought into the driver, with no fs request left in the list. */
  lemma {:induction false} DriveToLast(q0: Queue, q: Queue) returns (r: Queue)
    requires Reaches(q0, q) && Settled(q) && BeforeLast(q)
    ensures Reaches(q0, r) && Inv(r) && SameHistory(q, r)
    ensures Active(r) && r.ended == |r.barriers| - 1 && r.sorted == {}
    ensures forall x :: x in r.head ==> x.Rq? && !x.fs
    decreases |q.head|
  {
    hide Inv, Live, Reaches;
    SomethingLeft(q);
    var f;
    r, f := TakeFront(q0, q);
    if Last(r, f) && r.ended == |r.barriers| - 1 {
      OnlyPlainLeft(r, f);
    } else {
      r := Finish(q0, r, f);
      r := DriveToLast(q0, r);
    }
  }

  lemma SomethingLeft(q: Queue)
    requires Inv(q) && q.driver == {} && q.ended < |q.barriers|
    ensures q.head != []
  {
    assert BarrierOk(q, q.barriers[q.ended], q.ended);
  }

  lemma OnlyPlainLeft(q: Queue, f: Request)
    requires Inv(q) && q.driver == {f} && Last(q, f) && BeforeLast(q) && q.ended == |q.barriers| - 1
    ensures forall x :: x in q.head ==> x.Rq? && !x.fs
  {
    hide HistoryOk;
    assert DriverElem(q, f);
    forall i | 0 <= i < |q.head| ensures q.head[i].Rq? && !q.head[i].fs {
      assert HeadElem(q, q.head[i]);
    }
  }
}
