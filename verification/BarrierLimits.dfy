/**
 The discipline under which barriers order requests is the weakest one: a run
 may go on in every way with ordering kept exactly when its next step is
 disciplined.
 */
module BarrierLimits {
  import opened Barrier
  import opened BarrierProof
  import opened BarrierDrive
  import Lists

  /** Refusing a barrier, after a switch to no ordering, keeps ordering exactly
      when nothing is in flight. */
  lemma RefusalExact(q: Queue)
    requires Inv(q)
    ensures Ordered(Next(q).0) <==> Disciplined(q, NextStep)
  {
    if Disciplined(q, NextStep) {
      InvNext(q);
      InvMeansOrdered(Next(q).0);
    } else {
      RefusedEarly(q);
    }
  }

  lemma RefusedEarly(q: Queue)
    requires Inv(q) && !Disciplined(q, NextStep)
    ensures !Ordered(Next(q).0)
  {
    FrontBarrier(q);
    var b, q' := q.head[0], Next(q).0;
    var x :| x in Fs(q.driver);
    assert DriverElem(q, x) && HeadElem(q, b);
    assert b.id < x.id ==> Earlier(q.submitted[b.id], q.submitted[x.id]);
    assert q'.submitted[x.id] == x && q'.submitted[b.id] == b && b in q'.done && x !in q'.done;
  }

  // A non-fs barrier while a plain fs request of the newest epoch is left

  /** Only x is in the driver and the next request will get the other colour. */
  ghost predicate Stale(q: Queue, x: Request) {
    && FsRq(x) && !x.hard && Known(q, x) && x !in q.done && x.color != q.ordcolor
    && q.driver == {x} && q.sorted == {} && x in q.started && q.inFlight == 1 && !Active(q) && q.mode == Drain
  }

  ghost predicate Alone(q: Queue, x: Request) {
    Stale(q, x) && q.head == [] && forall r :: r in q.started && r.Rq? ==> r.id < |q.submitted|
  }

  lemma StaleDriver(q: Queue, x: Request)
    requires Inv(q) && q.driver == {x} && q.sorted == {} && q.mode == Drain && !Active(q)
    requires FsRq(x) && !x.hard && x.color != q.ordcolor
    ensures Stale(q, x)
  {
    hide HistoryOk, HeadOk;
    assert DriverElem(q, x);
    assert Fs(q.driver) == {x};
  }

  /** The rest of the list is served while x stays in the driver. */
  lemma {:induction false} ClearList(q0: Queue, q: Queue, x: Request) returns (r: Queue)
    requires Reaches(q0, q) && Inv(q) && Stale(q, x) && q.ended == |q.barriers|
    ensures Reaches(q0, r) && Alone(r, x)
    decreases |q.head|
  {
    hide Inv, Reaches, Lists.Erase;
    if q.head == [] {
      r := q;
      StartedKnown(q);
    } else {
      var f := q.head[0];
      PlainFront(q);
      EraseFirst(q.head);
      InvStep(q, NextStep);
      Then(q0, q, NextStep);
      r := Apply(q, NextStep);
      InvStep(r, DequeueStep(f));
      Then(q0, r, DequeueStep(f));
      r := Apply(r, DequeueStep(f));
      InvStep(r, CompleteStep(f));
      Then(q0, r, CompleteStep(f));
      r := Apply(r, CompleteStep(f));
      r := ClearList(q0, r, x);
    }
  }

  lemma StartedKnown(q: Queue)
    requires Inv(q)
    ensures forall r :: r in q.started && r.Rq? ==> r.id < |q.submitted|
  {
    forall r | r in q.started && r.Rq? ensures r.id < |q.submitted| { assert HandedElem(q, r); }
  }

  /** Once every barrier has ended, none stands in the list. */
  lemma PlainFront(q: Queue)
    requires Inv(q) && !Active(q) && q.head != [] && q.ended == |q.barriers|
    ensures !IsBarrier(q.head[0]) && q.head[0].Rq? && q.head[0] !in q.driver && Known(q, q.head[0])
  {
    var f := q.head[0];
    assert HeadElem(q, f);
    if f.Rq? { EpochBound(q, f); }
  }

  /** The queue once the barrier `b`, submitted behind x, has started. */
  ghost function Draining(q: Queue, b: Request): Queue {
    q.(head := [Bar], soft := q.soft + {b, Bar}, started := q.started - {Bar}, orig := b,
       ordseq := OrdSeq(true, false, true, false, true), ordcolor := !q.ordcolor,
       submitted := q.submitted + [b], barriers := q.barriers + [b])
  }

  lemma StartsDraining(q: Queue, b: Request)
    requires q.head == [] && q.inFlight == 1 && !Active(q) && q.mode == Drain && b !in q.started
    requires b == Rq(|q.submitted|, true, true, q.ordcolor, |q.barriers|)
    ensures Next(Submit(q, true, true, Back)).0 == Draining(q, b)
  {
    hide StartOrdered;
    var q1 := Submit(q, true, true, Back);
    assert q1.head == [b];
    StartShape(q1, b);
    assert q1.soft + {Bar} == q.soft + {b, Bar};
  }

  /** x has the other colour, so it is taken for a request submitted after the barrier. */
  lemma GoesBehind(q: Queue, x: Request)
    requires Active(q) && q.head == [Bar] && FsRq(x) && q.orig.Rq? && q.orig.color != x.color && x in q.started
    ensures Requeue(q, x) == q.(driver := q.driver - {x}, inFlight := q.inFlight - 1, started := q.started - {x},
                                soft := q.soft + {x}, head := [Bar, x])
  {
    assert RequeuePos(q, SEQ_DONE, 0) == 1;
  }

  /** The next barrier drains and x, requeued, lands behind it. */
  lemma RequeueLandsBehind(q0: Queue, q: Queue, x: Request) returns (r: Queue, b: Request)
    requires Reaches(q0, q) && Alone(q, x)
    ensures Reaches(q0, r) && b == Rq(|q.submitted|, true, true, q.ordcolor, |q.barriers|)
    ensures r.head == [Bar, x] && r.orig == b && r.inFlight == 0 && r.driver == {}
    ensures r.ordseq == OrdSeq(true, false, true, false, true) && b !in r.started && Bar !in r.started
    ensures r.submitted == q.submitted + [b] && r.done == q.done
    ensures forall n :: n in r.started && n.Rq? ==> n.id < |q.submitted|
  {
    hide Reaches, Next, Submit, Requeue;
    b := Rq(|q.submitted|, true, true, q.ordcolor, |q.barriers|);
    Then(q0, q, SubmitStep(true, true, Back));
    StartsDraining(q, b);
    r := Apply(q, SubmitStep(true, true, Back));
    assert r.mode == Drain by { SubmitKeepsMode(q); }
    Then(q0, r, NextStep);
    r := Draining(q, b);
    Then(q0, r, RequeueStep(x));
    GoesBehind(r, x);
    r := Apply(r, RequeueStep(x));
  }

  lemma SubmitKeepsMode(q: Queue)
    ensures Submit(q, true, true, Back).mode == q.mode
  {}

  /** Another command completes, which ends the draining although x has not completed. */
  lemma DrainsTooEarly(q0: Queue, q: Queue, x: Request) returns (r: Queue)
    requires Reaches(q0, q) && q.head == [Bar, x] && FsRq(x) && q.inFlight == 0 && q.driver == {}
    requires q.ordseq == OrdSeq(true, false, true, false, true) && Bar !in q.started && q.orig.Rq?
    requires forall n :: n in q.started && n.Rq? ==> n.id < |q.submitted|
    ensures Reaches(q0, r) && r.head == [Bar, x] && r.driver == {} && r.inFlight == 0
    ensures r.ordseq == OrdSeq(true, true, true, false, true) && r.orig == q.orig && Bar !in r.started
    ensures q.submitted <= r.submitted && (forall a :: a in r.done ==> a in q.done || !FsRq(a))
    ensures q.orig in r.started ==> q.orig in q.started || !FsRq(q.orig)
  {
    hide Reaches, Lists.Erase, RequeuePos, Complete;
    var n := Rq(|q.submitted|, false, false, q.ordcolor, |q.barriers|);
    Then(q0, q, SubmitStep(false, false, Front));
    var q1 := Apply(q, SubmitStep(false, false, Front));
    assert q1.head == [n, Bar, x];
    Then(q0, q1, NextStep);
    var q2 := Apply(q1, NextStep);
    EraseFirst(q2.head);
    assert q2.head[1..] == [Bar, x];
    Then(q0, q2, DequeueStep(n));
    var q3 := Apply(q2, DequeueStep(n));
    Then(q0, q3, CompleteStep(n));
    r := Apply(q3, CompleteStep(n));
    DrainEnds(q3, n);
  }

  lemma DrainEnds(q: Queue, n: Request)
    requires n.Rq? && !n.fs && q.head != [] && q.head[0] == Bar && q.inFlight == 0
    requires q.ordseq == OrdSeq(true, false, true, false, true)
    ensures Complete(q, n) == q.(driver := q.driver - {n}, done := q.done + {n},
                                 ordseq := OrdSeq(true, true, true, false, true))
  {}

  /** The barrier then runs and ends while x is still waiting. */
  lemma BarrierOvertakes(q0: Queue, q: Queue, x: Request) returns (r: Queue)
    requires Reaches(q0, q) && q.head == [Bar, x] && FsRq(x) && q.inFlight == 0 && q.driver == {}
    requires q.ordseq == OrdSeq(true, true, true, false, true) && q.orig.Rq? && q.orig !in q.started
    ensures Reaches(q0, r) && r.submitted == q.submitted && r.done == q.done + {q.orig}
  {
    hide Reaches, Lists.Erase;
    Then(q0, q, NextStep);
    var q1 := Apply(q, NextStep);
    EraseFirst(q1.head);
    Then(q0, q1, DequeueStep(Bar));
    var q2 := Apply(q1, DequeueStep(Bar));
    Then(q0, q2, CompleteStep(Bar));
    r := Apply(q2, CompleteStep(Bar));
  }

  lemma StaleBreaks(q0: Queue, q: Queue, x: Request) returns (r: Queue)
    requires Reaches(q0, q) && Inv(q) && Stale(q, x) && q.ended == |q.barriers|
    ensures Reaches(q0, r) && !Ordered(r)
  {
    hide Reaches, Inv;
    var b;
    r := ClearList(q0, q, x);
    var at := |r.submitted|;
    r, b := RequeueLandsBehind(q0, r, x);
    r := DrainsTooEarly(q0, r, x);
    r := BarrierOvertakes(q0, r, x);
    assert r.submitted[x.id] == x && r.submitted[at] == b;
  }

  // A non-fs barrier while an fs barrier is left and nothing was submitted after it

  /** A request submitted now gets the colour of the running barrier and is handed out with it. */
  lemma LastBreaks(q0: Queue, q: Queue) returns (r: Queue)
    requires Reaches(q0, q) && Inv(q) && Active(q) && q.sorted == {}
    requires q.orig.Rq? && q.orig.color == q.ordcolor
    requires forall x :: x in q.head ==> x.Rq? && !x.fs
    ensures Reaches(q0, r) && !Ordered(r)
  {
    hide Reaches;
    StagedBarrier(q);
    var y := Rq(|q.submitted|, true, false, q.ordcolor, |q.barriers|);
    Then(q0, q, SubmitStep(true, false, Back));
    r := Apply(q, SubmitStep(true, false, Back));
    r := Intrude(q0, r, y);
    assert r.submitted[q.orig.id] == q.orig && r.submitted[|q.submitted|] == y;
  }

  /** Commands that are not fs requests pass at any time, and then y is first. */
  lemma {:induction false} Intrude(q0: Queue, q: Queue, y: Request) returns (r: Queue)
    requires Reaches(q0, q) && Active(q) && q.ordseq.started && q.head != [] && q.head[|q.head| - 1] == y
    requires forall i :: 0 <= i < |q.head| - 1 ==> q.head[i].Rq? && !q.head[i].fs
    requires FsRq(y) && q.orig.Rq? && y.color == q.orig.color
    ensures Reaches(q0, r) && r.submitted == q.submitted && r.done == q.done && y in r.handed
    decreases |q.head|
  {
    hide Reaches, Lists.Erase;
    var f := q.head[0];
    Then(q0, q, NextStep);
    r := Apply(q, NextStep);
    if |q.head| > 1 {
      EraseFirst(q.head);
      Then(q0, r, DequeueStep(f));
      r := Apply(r, DequeueStep(f));
      r := Intrude(q0, r, y);
    }
  }

  // Both together

  /** Every outstanding request has the wrong colour for its distance. */
  ghost predicate Reversed(q: Queue) {
    forall a {:trigger Outstanding(q, a)} :: Outstanding(q, a) ==>
      (a.color == q.ordcolor <==> Odd(a.epoch) != Odd(|q.barriers|))
  }

  lemma FlipReverses(q: Queue, where: Where)
    requires Inv(q) && Current(q)
    ensures var q' := Submit(q, false, true, where);
      Reversed(q') && forall a :: Outstanding(q, a) <==> Outstanding(q', a)
  {
    var q' := Submit(q, false, true, where);
    forall a ensures Outstanding(q, a) <==> Outstanding(q', a) {
      assert FsRq(a) && a.id < |q.submitted| ==> q'.submitted[a.id] == q.submitted[a.id];
    }
  }

  /** With a reversed colour and any fs request left, ordering can be lost. */
  lemma ReversedBreaks(q0: Queue, q: Queue, a: Request) returns (r: Queue)
    requires Reaches(q0, q) && Settled(q) && Reversed(q) && Outstanding(q, a)
    ensures Reaches(q0, r) && !Ordered(r)
  {
    hide Reaches, Inv, Live, Current;
    if x :| x in q.head && FsRq(x) && !x.hard && x.epoch == |q.barriers| {
      r := DriveToPlain(q0, q, x);
      HeadOutstanding(q, x);
      StaleDriver(r, x);
      r := StaleBreaks(q0, r, x);
    } else {
      LastWaits(q, a);
      r := DriveToLast(q0, q);
      LastColor(q, r);
      r := LastBreaks(q0, r);
    }
  }

  lemma HeadOutstanding(q: Queue, x: Request)
    requires Inv(q) && x in q.head && FsRq(x)
    ensures Outstanding(q, x)
  {
    hide HistoryOk, SetsOk;
    var i :| 0 <= i < |q.head| && q.head[i] == x;
    assert HeadElem(q, q.head[i]);
  }

  /** The barrier that runs last has the wrong colour too. */
  lemma LastColor(q: Queue, r: Queue)
    requires Inv(r) && Active(r) && r.ended == |r.barriers| - 1 && Reversed(q) && SameHistory(q, r)
    ensures r.orig.Rq? && r.orig.color == r.ordcolor
  {
    hide HeadOk, SetsOk;
    StagedBarrier(r);
    assert Outstanding(q, r.orig);
  }

  lemma LastWaits(q: Queue, a: Request)
    requires Inv(q) && q.driver == {} && q.sorted == {} && Outstanding(q, a)
    requires forall x :: x in q.head && FsRq(x) && !x.hard ==> x.epoch != |q.barriers|
    ensures BeforeLast(q)
  {
    hide HeadOk;
    OutstandingPlace(q, a);
    forall x | x in q.head && FsRq(x) ensures q.ended <= x.epoch < |q.barriers| {
      HeadOutstanding(q, x);
      EpochBound(q, x);
      WaitsForTurn(q, x);
    }
  }

  lemma WaitsForTurn(q: Queue, x: Request)
    requires Inv(q) && x in q.head && FsRq(x)
    ensures q.ended <= x.epoch
  {
    hide HistoryOk, SetsOk;
    var i :| 0 <= i < |q.head| && q.head[i] == x;
    assert HeadElem(q, q.head[i]);
  }

  /** A non-fs barrier submitted while the queue holds any fs request lets some
      disciplined continuation lose ordering. */
  lemma NonFsBarrierBreaks(q: Queue, where: Where) returns (r: Queue)
    requires Sound(q) && Live(q) && Enabled(q, SubmitStep(false, true, where)) && !FsIdle(q)
    ensures Reaches(Apply(q, SubmitStep(false, true, where)), r) && !Ordered(r)
  {
    hide Inv, Current, Live, Reaches, FsIdle;
    var s := SubmitStep(false, true, where);
    var q0 := Apply(q, s);
    InvStep(q, s);
    LiveStep(q, s);
    FlipReverses(q, where);
    IdleMeansDone(q);
    var a :| Outstanding(q, a);
    Here(q0);
    Then(q0, q0, ModeStep(Drain));
    r := Apply(q0, ModeStep(Drain));
    InvStep(q0, ModeStep(Drain));
    LiveStep(q0, ModeStep(Drain));
    r := Settle(q0, r);
    assert Outstanding(q0, a);
    SettledReversed(q0, r, a);
    r := ReversedBreaks(q0, r, a);
  }

  lemma SettledReversed(q: Queue, r: Queue, a: Request)
    requires Reversed(q) && Outstanding(q, a) && SameHistory(q, r) && r.done == q.done
    ensures Reversed(r) && Outstanding(r, a)
  {
    forall x | Outstanding(r, x) ensures Outstanding(q, x) {}
  }

  /** The discipline is exact: after any disciplined run, a step leaves every
      disciplined continuation ordered if and only if it is disciplined itself. */
  lemma DisciplineExact(steps: seq<Step>, s: Step)
    requires Legal(Empty, steps) && DisciplinedRun(Empty, steps) && Enabled(Final(Empty, steps), s)
    ensures Disciplined(Final(Empty, steps), s)
            <==> forall q :: Reaches(Apply(Final(Empty, steps), s), q) ==> Ordered(q)
  {
    hide Inv, Current, Live, Reaches;
    InvEmpty();
    LiveRun(Empty, steps);
    var p := Final(Empty, steps);
    var p' := Apply(p, s);
    if Disciplined(p, s) {
      SoundStep(p, s);
      forall q | Reaches(p', q) ensures Ordered(q) { OrderedOn(p', q); }
    } else if s.NextStep? {
      RefusalExact(p);
      Here(p');
    } else {
      var q := NonFsBarrierBreaks(p, s.where);
    }
  }

  lemma OrderedOn(p: Queue, q: Queue)
    requires Sound(p) && Reaches(p, q)
    ensures Ordered(q)
  {
    hide Inv, Current;
    var steps :| Legal(p, steps) && DisciplinedRun(p, steps) && Final(p, steps) == q;
    InvRun(p, steps);
    InvMeansOrdered(q);
  }

  // One run for each way to lose ordering

  const X := Rq(0, true, false, false, 0)

  /** X has been submitted and handed to the driver. */
  const Busy := Queue([], {}, {X}, {X}, {}, 1, Idle, Drain, Bar, false, [X], [], 0, {X}, {})

  lemma BusyReached()
    ensures Reaches(Empty, Busy) && Sound(Busy) && Live(Busy)
  {
    hide Inv, Current, Live, Reaches, Lists.Erase;
    Here(Empty);
    InvEmpty();
    Then(Empty, Empty, SubmitStep(true, false, Sort));
    var q1 := Apply(Empty, SubmitStep(true, false, Sort));
    SoundStep(Empty, SubmitStep(true, false, Sort));
    LiveStep(Empty, SubmitStep(true, false, Sort));
    Then(Empty, q1, DispatchStep(X, 0));
    var q2 := Go(Empty, q1, DispatchStep(X, 0));
    SoundStep(q1, DispatchStep(X, 0));
    assert q2.head == [X];
    EraseFirst([X]);
    var q3 := Go(Empty, q2, NextStep);
    SoundStep(q2, NextStep);
    var q4 := Go(Empty, q3, DequeueStep(X));
    SoundStep(q3, DequeueStep(X));
    assert q4 == Busy;
  }

  /** A hard barrier that is not an fs request (as pktcdvd submits) flips the
      colour without a sequence, and ordering is lost. */
  lemma NonFsBarrierBreaksOrder()
    ensures exists q :: Reaches(Apply(Busy, SubmitStep(false, true, Back)), q) && !Ordered(q)
  {
    BusyReached();
    var q := NonFsBarrierBreaks(Busy, Back);
  }

  /** A barrier is refused while X, submitted before it, is in flight. */
  lemma RefusalInFlightBreaksOrder()
    ensures exists q :: Reaches(Empty, q) && !Ordered(Next(q).0)
  {
    hide Inv, Current, Live, Reaches;
    BusyReached();
    Then(Empty, Busy, SubmitStep(true, true, Back));
    SoundStep(Busy, SubmitStep(true, true, Back));
    var q1 := Apply(Busy, SubmitStep(true, true, Back));
    Then(Empty, q1, ModeStep(NoBarrier));
    SoundStep(q1, ModeStep(NoBarrier));
    var q2 := Apply(q1, ModeStep(NoBarrier));
    assert q2.head == [Rq(1, true, true, false, 0)];
    RefusalExact(q2);
  }
}
