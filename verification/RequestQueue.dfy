/**
 The request queue as the block layer keeps it, updated in place. Every entry
 point keeps the queue in good order, whatever was called before, and takes the
 step that `Barrier` describes; the checks of the code are asserted where it
 makes them.
 */
module RequestQueueImpl {
  import opened Barrier
  import opened BarrierProof
  import B = Barrier
  import Lists

  class RequestQueue {
    var queueHead: seq<Request>
    var started: set<Request>
    var soft: set<Request>
    var inFlight: int
    var ordseq: OrdSeq
    var nextOrdered: Mode
    var origBar: Request
    var ordcolor: bool
    ghost var sorted: set<Request>
    ghost var driver: set<Request>
    ghost var submitted: seq<Request>
    ghost var barriers: seq<Request>
    ghost var ended: nat
    ghost var handed: set<Request>
    ghost var done: set<Request>

    ghost function View(): Queue
      reads this
    {
      Queue(queueHead, sorted, driver, started, soft, inFlight, ordseq, nextOrdered, origBar, ordcolor,
            submitted, barriers, ended, handed, done)
    }

    ghost predicate Valid()
      reads this
    {
      Sound(View()) && Live(View())
    }

    /** A step that its caller may take and that keeps the colours meaningful. */
    ghost predicate May(s: Step)
      reads this
    {
      Enabled(View(), s) && Disciplined(View(), s)
    }

    constructor ()
      ensures View() == Empty && Valid()
    {
      queueHead, started, soft, inFlight, ordseq := [], {}, {}, 0, Idle;
      nextOrdered, origBar, ordcolor := Drain, Bar, false;
      sorted, driver, submitted, barriers, ended, handed, done := {}, {}, [], [], 0, {}, {};
      InvEmpty();
    }

    /** blk_queue_ordered */
    method SetOrdered(m: Mode)
      requires Valid()
      modifies this`nextOrdered
      ensures View() == old(View()).(mode := m) && Valid()
    {
      hide Sound, Live, Ordered;
      Took(View(), ModeStep(m));
      nextOrdered := m;
    }

    /** elv_dequeue_request: r and nothing else leaves the list, and `inFlight`
        counts the fs requests the driver holds, r included if it was handed out. */
    method Unlink(r: Request)
      requires Sound(View()) && r in queueHead
      modifies this`queueHead, this`inFlight
      ensures View() == B.Unlink(old(View()), r)
      ensures multiset(queueHead) == multiset(old(queueHead)) - multiset{r} && r !in queueHead
      ensures inFlight == |Fs(if r in started then driver + {r} else driver)|
    {
      UnlinkCounts(View(), r);
      var k := Lists.IndexOf(queueHead, r);
      queueHead := queueHead[..k] + queueHead[k + 1..];
      if Counts(r) { inFlight := inFlight + 1; }
    }

    /** blkdev_dequeue_request, as the driver calls it on a request it was given. */
    method Dequeue(r: Request)
      requires Valid() && May(DequeueStep(r))
      modifies this`queueHead, this`inFlight, this`driver
      ensures View() == Apply(old(View()), DequeueStep(r)) && Valid() && Ordered(View())
    {
      hide Sound, Live, Ordered, Disciplined, Lists.Erase, Lists.InsertAt;
      Took(View(), DequeueStep(r));
      Unlink(r);
      driver := driver + {r};
    }

    /** queue_flush and the proxy set-up of start_ordered */
    method PushFront(r: Request)
      modifies this`started, this`soft, this`queueHead
      ensures View() == B.PushFront(old(View()), r)
    {
      started := started - {r};
      soft := soft + {r};
      queueHead := [r] + queueHead;
    }

    method PushProxies() returns (pre: bool, post: bool)
      modifies this`started, this`soft, this`queueHead
      ensures View() == B.PushProxies(old(View()))
      ensures post == (nextOrdered == DrainFlush) && pre == (nextOrdered == DrainFlush || nextOrdered == DrainFua)
    {
      hide B.PushFront;
      pre, post := false, false;
      if nextOrdered == DrainFlush {
        PushFront(PostFlush);
        post := true;
      }
      PushFront(Bar);
      if nextOrdered == DrainFlush || nextOrdered == DrainFua {
        PushFront(PreFlush);
        pre := true;
      }
    }

    /** The end of an original barrier, the oldest one in `q`: nothing of its epoch is left, and the
        queue is in good order again. The barrier was never handed out, so the count stays. */
    method EndBarrier(b: Request, ghost q: Queue)
      requires HistoryOk(q) && SetsOk(q) && HeadOk(q, queueHead) && MayEnd(q, queueHead)
      requires b == q.barriers[q.ended] && b !in q.started && View() == q.(head := queueHead, ordseq := Idle)
      modifies this`inFlight, this`done, this`ended
      ensures View() == B.EndBarrier(old(View()), b) && Inv(View()) && Ordered(View())
      ensures inFlight == old(inFlight) && done == old(done) + {b} && ended == old(ended) + 1
    {
      hide HistoryOk, SetsOk, HeadOk, Inv, Ordered;
      InvEnd(q, queueHead);
      InvMeansOrdered(Ended(q, queueHead));
      NotCounted(View(), b);
      inFlight := inFlight - (if Counts(b) then 1 else 0);
      done, ended := done + {b}, ended + 1;
    }

    /** blk_account_rq */
    predicate Counts(r: Request)
      reads this
    {
      r in started && IsFs(r)
    }

    /** blk_ordered_complete_seq: closes a stage that was open, and ends the
        barrier exactly if no other stage is open. */
    method CompleteSeq(s: int)
      requires ordseq.started && s in {SEQ_DRAIN, SEQ_PREFLUSH, SEQ_BAR, SEQ_POSTFLUSH} && !Bit(ordseq, s)
      requires CurSeq(SetBit(ordseq, s)) == SEQ_DONE ==> Ready(View())
      modifies this`ordseq, this`inFlight, this`done, this`ended
      ensures View() == B.CompleteSeq(old(View()), s)
      ensures ordseq == Idle <==>
              forall t :: t in {SEQ_DRAIN, SEQ_PREFLUSH, SEQ_BAR, SEQ_POSTFLUSH} && t != s ==> Bit(old(ordseq), t)
      ensures done == old(done) + (if ordseq == Idle then {origBar} else {})
      ensures ended == old(ended) + (if ordseq == Idle then 1 else 0)
      ensures ordseq == Idle ==> Inv(View()) && Ordered(View())
      ensures ordseq != Idle ==> forall t :: t in {SEQ_DRAIN, SEQ_PREFLUSH, SEQ_BAR, SEQ_POSTFLUSH} ==>
                (Bit(ordseq, t) <==> t == s || Bit(old(ordseq), t))
    {
      hide HistoryOk, SetsOk, HeadOk, MayEnd, Inv, Ordered;
      ghost var q := View();
      ordseq := SetBit(ordseq, s);
      LastStage(q.ordseq, s);
      if CurSeq(ordseq) != SEQ_DONE { return; }
      ordseq := Idle;
      EndBarrier(origBar, q);
    }

    /** start_ordered: the proxies of the mode replace the barrier at the front, and
        draining is over at once exactly if the driver holds no fs request. */
    method StartOrdered(b: Request)
      requires Sound(View()) && ordseq == Idle && queueHead != [] && queueHead[0] == b && IsBarrier(b)
      requires nextOrdered != NoBarrier
      modifies this`queueHead, this`started, this`soft, this`inFlight, this`ordseq, this`origBar
      ensures View() == B.StartOrdered(old(View()), b) && Inv(View())
      ensures queueHead == Proxies(nextOrdered) + old(queueHead)[1..] && origBar == b && driver == old(driver)
      ensures ordseq.started && !ordseq.bar && (ordseq.drain <==> Fs(driver) == {})
      ensures (ordseq.pre <==> PreFlush !in queueHead) && (ordseq.post <==> PostFlush !in queueHead)
    {
      hide Inv, Current, Proxies, Fs, IsBarrier, Lists.Erase, B.PushProxies;
      InvStart(View(), b);
      StartStages(View(), b);
      var o := OrdSeq(true, false, false, false, false);
      Unlink(b);
      origBar := b;
      var pre, post := PushProxies();
      if !pre { o := o.(pre := true); }
      if !post { o := o.(post := true); }
      if inFlight == 0 { o := o.(drain := true); }
      ordseq := o;
    }

    /** One turn of elv_next_request; `again` asks for another because a barrier was
        refused. A proxy is given out only after every fs request submitted before
        its barrier has completed. */
    method NextRequest() returns (rs: seq<Request>, again: bool)
      requires Valid() && May(NextStep)
      modifies this
      ensures (View(), rs) == Next(old(View())) && Valid() && Ordered(View())
      ensures again ==> rs == [] && ended == old(ended) + 1
      ensures |rs| <= 1 && (|rs| == 1 && !rs[0].Rq? ==>
                && origBar.Rq? && origBar.id < |submitted|
                && forall i :: 0 <= i < origBar.id && FsRq(submitted[i]) ==> submitted[i] in done)
      ensures again <==> old(Refuses(View()))
      ensures old(queueHead) != [] && !again ==>
                queueHead != [] && rs == if MayRun(View(), queueHead[0]) then [queueHead[0]] else []
      ensures old(driver == {} && queueHead != []) && !again ==> queueHead != [] && rs == [queueHead[0]]
    {
      hide Sound, Inv, Live, Ordered, Refuses, Next, MayRun;
      Took(View(), NextStep);
      GivenInTurn(View());
      GivenExactly(View());
      rs, again := NextTurn();
    }

    /** __elv_next_request on the first entry, with blk_do_ordered in line. */
    method NextTurn() returns (rs: seq<Request>, again: bool)
      requires Sound(View()) && Disciplined(View(), NextStep)
      modifies this
      ensures (View(), rs) == Next(old(View()))
      ensures again ==> rs == [] && ended == old(ended) + 1
      ensures again <==> old(Refuses(View()))
    {
      rs, again := [], false;
      if queueHead == [] { return; }
      var r := queueHead[0];
      if ordseq == Idle && IsBarrier(r) {
        if nextOrdered == NoBarrier {
          ghost var q := View();
          RefuseEnds(q);
          Unlink(r);
          EndBarrier(r, q);
          again := true;
          return;
        }
        StartOrdered(r);
        if !ordseq.drain || queueHead == [] { return; }
        r := queueHead[0];
      } else if ordseq != Idle && !(r.Rq? && !r.fs) {
        TurnMeansMayRun(View());
        assert ReqSeqOf(r) >= CurSeq(ordseq);
        if ReqSeqOf(r) > CurSeq(ordseq) { return; }
      }
      started := started + {r};
      handed := handed + {r};
      rs := [r];
    }

    /** blk_ordered_req_seq */
    function ReqSeqOf(r: Request): (s: int)
      reads this
      ensures s == ReqSeq(View(), r)
    {
      match r
      case PreFlush => SEQ_PREFLUSH
      case Bar => SEQ_BAR
      case PostFlush => SEQ_POSTFLUSH
      case Rq(_, fs, _, color, _) =>
        if !fs || (origBar.Rq? && color == origBar.color) then SEQ_DRAIN else SEQ_DONE
    }

    /** The part of elv_completed_request that watches a draining sequence. The
        drain stage closes only when every fs request submitted before the barrier
        has completed; while it stays open with an idle driver, the front entry
        may be handed out. */
    method CheckDrained()
      requires Active(View()) && !ordseq.drain ==> Inv(View())
      modifies this`ordseq, this`inFlight, this`done, this`ended
      ensures View() == if Drained(old(View())) then B.CompleteSeq(old(View()), SEQ_DRAIN) else old(View())
      ensures old(Active(View()) && !ordseq.drain) ==> Inv(View()) && Live(View())
      ensures ordseq.drain && !old(ordseq.drain) ==>
                && origBar.Rq? && origBar.id < |submitted|
                && forall i :: 0 <= i < origBar.id && FsRq(submitted[i]) ==> submitted[i] in done
    {
      if Active(View()) && !ordseq.drain { DrainWatch(View()); }
      if ordseq != Idle && inFlight == 0 && CurSeq(ordseq) == SEQ_DRAIN {
        assert queueHead != [];
        var s := ReqSeqOf(queueHead[0]);
        if s > SEQ_DRAIN { CompleteSeq(SEQ_DRAIN); }
      }
    }

    /** r leaves the driver, which no longer counts it. */
    method Retire(r: Request)
      requires Account(View(), r) ==> inFlight > 0
      modifies this`inFlight, this`driver, this`done
      ensures View() == Retired(old(View()), r)
    {
      if Counts(r) {
        assert inFlight > 0;
        inFlight := inFlight - 1;
      }
      driver := driver - {r};
      if r.Rq? { done := done + {r}; }
    }

    /** elv_completed_request, and the end_io of the proxies */
    method Complete(r: Request)
      requires Valid() && May(CompleteStep(r))
      modifies this`ordseq, this`inFlight, this`driver, this`done, this`ended
      ensures View() == B.Complete(old(View()), r) && Valid() && Ordered(View())
    {
      hide Sound, Inv, Live, Ordered, Retired, Ready, Drained, Account, B.CompleteSeq;
      ghost var q := View();
      CompletesInTurn(q, r);
      Took(q, CompleteStep(r));
      Retire(r);
      DrainedMeansOpen(View());
      CheckDrained();
      if !r.Rq? {
        var s := ReqSeqOf(r);
        assert !Bit(ordseq, s);
        CompleteSeq(s);
      }
      CompleteParts(q, r);
    }

    /** The scan of elv_insert for the place of a requeued request in the sequence. */
    method FindPlace(s: int) returns (pos: nat)
      ensures pos == RequeuePos(View(), s, 0)
    {
      pos := 0;
      while pos < |queueHead| && ReqSeqOf(queueHead[pos]) < s
        invariant pos <= |queueHead|
        invariant RequeuePos(View(), s, 0) == RequeuePos(View(), s, pos)
      {
        pos := pos + 1;
      }
    }

    /** The driver gives r back. */
    method GiveBack(r: Request)
      requires Account(View(), r) ==> inFlight > 0
      modifies this`inFlight, this`driver, this`started
      ensures View() == old(View()).(driver := old(driver) - {r}, started := old(started) - {r},
                                     inFlight := old(inFlight) - (if Account(old(View()), r) then 1 else 0))
    {
      if Counts(r) {
        assert inFlight > 0;
        inFlight := inFlight - 1;
      }
      driver := driver - {r};
      started := started - {r};
    }

    /** elv_requeue_request */
    method Requeue(r: Request)
      requires Valid() && May(RequeueStep(r))
      modifies this`queueHead, this`started, this`soft, this`inFlight, this`driver
      ensures View() == B.Requeue(old(View()), r) && Valid() && Ordered(View())
    {
      hide Sound, Live, Ordered, Disciplined, RequeuePos, ReqSeq, Account, Lists.InsertAt;
      Took(View(), RequeueStep(r));
      CountedInFlight(View(), r);
      var pos := 0;
      if ordseq != Idle { pos := FindPlace(ReqSeqOf(r)); }
      GiveBack(r);
      soft := soft + {r};
      queueHead := Lists.InsertAt(queueHead, pos, r);
    }

    /** The io scheduler moves r to the dispatch list. */
    method Dispatch(r: Request, p: nat)
      requires Valid() && May(DispatchStep(r, p))
      modifies this`queueHead, this`sorted
      ensures View() == B.Dispatch(old(View()), r, p) && Valid() && Ordered(View())
    {
      hide Sound, Live, Ordered, Disciplined, Lists.Erase, Lists.InsertAt;
      Took(View(), DispatchStep(r, p));
      sorted := sorted - {r};
      queueHead := Lists.InsertAt(queueHead, p, r);
    }

    /** elv_insert at the front, at the back, or with the io scheduler */
    method Insert(rq: Request, where: Where)
      modifies this`queueHead, this`soft, this`sorted
      ensures View() == Inserted(old(View()), rq, where)
    {
      match where
      case Front =>
        soft := soft + {rq};
        queueHead := [rq] + queueHead;
      case Back =>
        soft := soft + {rq};
        queueHead := queueHead + [rq];
      case Sort =>
        sorted := sorted + {rq};
    }

    /** __elv_add_request; for a back insertion the io scheduler has been drained. */
    method AddRequest(r: Request, where: Where)
      requires r.Rq? && r == Rq(|submitted|, r.fs, r.hard, false, |barriers|)
      requires Valid() && May(SubmitStep(r.fs, r.hard, where))
      modifies this`queueHead, this`soft, this`ordcolor, this`sorted, this`submitted, this`barriers
      ensures View() == Submit(old(View()), r.fs, r.hard, where) && Valid() && Ordered(View())
    {
      hide Sound, Live, Ordered, Enabled, Disciplined, Inserted;
      Took(View(), SubmitStep(r.fs, r.hard, where));
      var rq, place := r.(color := ordcolor), where;
      submitted := submitted + [rq];
      if rq.hard {
        ordcolor := !ordcolor;
        if rq.fs { barriers := barriers + [rq]; }
        if where == Sort { place := Back; }
      }
      Insert(rq, place);
    }
  }

  /** Nothing of the epoch of the running barrier is left. */
  ghost predicate Ready(q: Queue) {
    && HistoryOk(q) && SetsOk(q) && HeadOk(q, q.head) && MayEnd(q, q.head)
    && q.orig == q.barriers[q.ended] && q.orig !in q.started
  }

  /** A step in good order leads to good order. */
  lemma Took(q: Queue, s: Step)
    requires Sound(q) && Live(q) && Enabled(q, s) && Disciplined(q, s)
    ensures Sound(Apply(q, s)) && Live(Apply(q, s)) && Ordered(Apply(q, s))
  {
    hide Inv, Live, Current, Enabled, Disciplined, Apply, Ordered;
    SoundStep(q, s);
    LiveStep(q, s);
    InvMeansOrdered(Apply(q, s));
  }

  lemma UnlinkCounts(q: Queue, r: Request)
    requires Sound(q) && r in q.head
    ensures B.Unlink(q, r).head == Lists.Without(q.head, Lists.IndexOf(q.head, r))
    ensures multiset(B.Unlink(q, r).head) == multiset(q.head) - multiset{r} && r !in B.Unlink(q, r).head
    ensures B.Unlink(q, r).inFlight == |Fs(if r in q.started then q.driver + {r} else q.driver)|
  {
    hide HistoryOk;
    NoDuplicates(q);
    Lists.EraseMultiset(q.head, r);
    Lists.EraseNoDup(q.head, r);
    FsAdd(q.driver, r);
    assert HeadElem(q, r);
  }

  lemma NotCounted(q: Queue, b: Request)
    requires b !in q.started
    ensures !Account(q, b)
  {}

  lemma LastStage(o: OrdSeq, s: int)
    requires o.started && s in {SEQ_DRAIN, SEQ_PREFLUSH, SEQ_BAR, SEQ_POSTFLUSH} && !Bit(o, s)
    ensures CurSeq(SetBit(o, s)) == SEQ_DONE <==>
            forall t :: t in {SEQ_DRAIN, SEQ_PREFLUSH, SEQ_BAR, SEQ_POSTFLUSH} && t != s ==> Bit(o, t)
    ensures SetBit(o, s) != Idle && forall t :: t in {SEQ_DRAIN, SEQ_PREFLUSH, SEQ_BAR, SEQ_POSTFLUSH} ==>
              (Bit(SetBit(o, s), t) <==> t == s || Bit(o, t))
  {
    assert Bit(o, SEQ_DRAIN) == o.drain && Bit(o, SEQ_PREFLUSH) == o.pre;
    assert Bit(o, SEQ_BAR) == o.bar && Bit(o, SEQ_POSTFLUSH) == o.post;
  }

  lemma StartStages(q: Queue, b: Request)
    requires Inv(q) && !Active(q) && q.head != [] && q.head[0] == b && IsBarrier(b) && q.mode != NoBarrier
    ensures var q' := B.StartOrdered(q, b);
      && q'.head == Proxies(q.mode) + q.head[1..] && (q'.ordseq.drain <==> Fs(q.driver) == {})
      && (q'.ordseq.pre <==> PreFlush !in q'.head) && (q'.ordseq.post <==> PostFlush !in q'.head)
  {
    hide HistoryOk, B.StartOrdered;
    FrontBarrier(q);
    StartShape(q, b);
    NoProxyLeft(q, PreFlush);
    NoProxyLeft(q, PostFlush);
  }

  /** A proxy is given out only after the drain. */
  lemma GivenInTurn(q: Queue)
    requires Sound(q) && Disciplined(q, NextStep)
    ensures var (q', rs) := Next(q);
      |rs| <= 1 && (|rs| == 1 && !rs[0].Rq? ==>
        && q'.orig.Rq? && q'.orig.id < |q'.submitted|
        && forall i :: 0 <= i < q'.orig.id && FsRq(q'.submitted[i]) ==> q'.submitted[i] in q'.done)
  {
    var (q', rs) := Next(q);
    if |rs| == 1 && !rs[0].Rq? {
      hide Inv, Next;
      InvNext(q);
      ProxyStarted(q, rs[0]);
      DrainClosed(q');
    }
  }

  /** What is given out, and that an idle driver is given something. */
  lemma GivenExactly(q: Queue)
    requires Sound(q) && Live(q)
    ensures q.head != [] && !Refuses(q) ==>
              var (q', rs) := Next(q);
              q'.head != [] && rs == if MayRun(q', q'.head[0]) then [q'.head[0]] else []
    ensures q.head != [] && !Refuses(q) && q.driver == {} ==> Next(q).1 == [Next(q).0.head[0]]
  {
    hide Inv, Live, Next, Refuses, MayRun;
    if q.head != [] && !Refuses(q) {
      NextExact(q);
      if q.driver == {} { IdleGivesOut(q); }
    }
  }

  /** What watching the drain relies on and establishes. */
  lemma DrainWatch(q: Queue)
    requires Inv(q) && Active(q) && !q.ordseq.drain
    ensures q.head != [] && q.ordseq.started && q.orig !in q.started
    ensures var q' := if Drained(q) then B.CompleteSeq(q, SEQ_DRAIN) else q;
      && Inv(q') && Live(q')
      && (q'.ordseq.drain ==>
            && q'.orig.Rq? && q'.orig.id < |q'.submitted|
            && forall i :: 0 <= i < q'.orig.id && FsRq(q'.submitted[i]) ==> q'.submitted[i] in q'.done)
  {
    hide HistoryOk, HeadOk, Drained, B.CompleteSeq, Fs, ReqSeq;
    BarStillQueued(q);
    NeverStarted(q);
    SeqKeepsDrain(q, SEQ_DRAIN);
    if Drained(q) {
      InvDrained(q);
      StaysActive(q);
      DrainClosed(B.CompleteSeq(q, SEQ_DRAIN));
    } else {
      LiveOpen(q);
    }
  }

  lemma StaysActive(q: Queue)
    requires Inv(q) && Active(q) && !q.ordseq.drain
    ensures Active(B.CompleteSeq(q, SEQ_DRAIN))
  {
    hide HistoryOk, HeadOk, SetsOk;
  }

  /** The original barrier is never handed out itself. */
  lemma NeverStarted(q: Queue)
    requires Inv(q) && Active(q)
    ensures q.orig !in q.started
  {
    hide HeadOk;
    StagedBarrier(q);
    assert q.orig in q.started ==> HandedElem(q, q.orig);
  }

  lemma CountedInFlight(q: Queue, r: Request)
    requires Sound(q) && r in q.driver
    ensures Account(q, r) ==> q.inFlight > 0
  {
    assert IsFs(r) ==> r in Fs(q.driver);
  }

  lemma CompleteParts(q: Queue, r: Request)
    ensures var q1 := Retired(q, r); var q2 := if Drained(q1) then B.CompleteSeq(q1, SEQ_DRAIN) else q1;
      B.Complete(q, r) == if r.Rq? then q2 else B.CompleteSeq(q2, ReqSeq(q2, r))
  {}

  /** What completing r relies on. */
  lemma CompletesInTurn(q: Queue, r: Request)
    requires Sound(q) && r in q.driver
    ensures Account(q, r) ==> q.inFlight > 0
    ensures Active(q) ==> q.orig !in q.started
    ensures r.Rq? && Active(q) && !q.ordseq.drain ==> Inv(Retired(q, r))
    ensures !r.Rq? ==> q.ordseq.started && q.ordseq.drain && !Bit(q.ordseq, ReqSeq(q, r))
    ensures !r.Rq? && CurSeq(SetBit(q.ordseq, ReqSeq(q, r))) == SEQ_DONE ==> Ready(Retired(q, r))
    ensures Retired(q, r).ordseq == q.ordseq && Retired(q, r).orig == q.orig && Retired(q, r).started == q.started
  {
    CountedInFlight(q, r);
    if Active(q) { NeverStarted(q); }
    RetireParts(q, r);
    assert DriverElem(q, r);
    if !r.Rq? && CurSeq(SetBit(q.ordseq, ReqSeq(q, r))) == SEQ_DONE { StageEnds(q, r); }
    if r.Rq? && Active(q) {
      StagedBarrier(q);
      EpochBound(q, r);
    }
  }
}
