/**
 Barrier sequencing of the block layer in the drain modes: submission, io
 scheduler dispatch, hand-out to the driver, dequeue, completion and requeue,
 as atomic steps on one request queue.
 */
module Barrier {
  import Lists

  // QUEUE_ORDSEQ_*
  const SEQ_STARTED := 1
  const SEQ_DRAIN := 2
  const SEQ_PREFLUSH := 4
  const SEQ_BAR := 8
  const SEQ_POSTFLUSH := 16
  const SEQ_DONE := 32

  /** `Rq` is a request that came through `__elv_add_request`; the other three
      are the proxies embedded in the queue. `id` is the submission number and
      `epoch` the number of fs barriers submitted earlier: both are history,
      read by no operation. */
  datatype Request =
    | Rq(id: nat, fs: bool, hard: bool, color: bool, epoch: nat)
    | PreFlush
    | Bar
    | PostFlush

  /** `q->ordseq`, one field per bit. */
  datatype OrdSeq = OrdSeq(started: bool, drain: bool, pre: bool, bar: bool, post: bool)

  const Idle := OrdSeq(false, false, false, false, false)

  datatype Mode = NoBarrier | Drain | DrainFlush | DrainFua

  datatype Where = Front | Back | Sort

  datatype Queue = Queue(
    head: seq<Request>,       // queue_head
    sorted: set<Request>,     // held by the io scheduler
    driver: set<Request>,     // dequeued and not yet completed
    started: set<Request>,    // REQ_STARTED
    soft: set<Request>,       // REQ_SOFTBARRIER
    inFlight: int,
    ordseq: OrdSeq,
    mode: Mode,               // next_ordered
    orig: Request,            // orig_bar_rq
    ordcolor: bool,
    // history, read by no operation
    submitted: seq<Request>,
    barriers: seq<Request>,   // the hard fs requests in submission order
    ended: nat,               // how many of them have ended
    handed: set<Request>,     // ever returned by elv_next_request
    done: set<Request>        // completed
  )

  const Empty := Queue([], {}, {}, {}, {}, 0, Idle, Drain, Bar, false, [], [], 0, {}, {})

  predicate IsFs(r: Request) {
    r.Bar? || (r.Rq? && r.fs)
  }

  predicate IsBarrier(r: Request) {
    r.Bar? || (r.Rq? && r.fs && r.hard)
  }

  /** blk_account_rq */
  predicate Account(q: Queue, r: Request) {
    r in q.started && IsFs(r)
  }

  predicate Active(q: Queue) {
    q.ordseq != Idle
  }

  /** blk_ordered_cur_seq: the lowest clear bit of `ordseq`. */
  function CurSeq(o: OrdSeq): int {
    if o == Idle then 0
    else if !o.started then SEQ_STARTED
    else if !o.drain then SEQ_DRAIN
    else if !o.pre then SEQ_PREFLUSH
    else if !o.bar then SEQ_BAR
    else if !o.post then SEQ_POSTFLUSH
    else SEQ_DONE
  }

  /** blk_ordered_req_seq */
  function ReqSeq(q: Queue, r: Request): int {
    match r
    case PreFlush => SEQ_PREFLUSH
    case Bar => SEQ_BAR
    case PostFlush => SEQ_POSTFLUSH
    case Rq(_, fs, _, color, _) =>
      if !fs then SEQ_DRAIN
      else if q.orig.Rq? && color == q.orig.color then SEQ_DRAIN
      else SEQ_DONE
  }

  function Bit(o: OrdSeq, s: int): bool {
    if s == SEQ_STARTED then o.started
    else if s == SEQ_DRAIN then o.drain
    else if s == SEQ_PREFLUSH then o.pre
    else if s == SEQ_BAR then o.bar
    else o.post
  }

  function SetBit(o: OrdSeq, s: int): OrdSeq {
    if s == SEQ_STARTED then o.(started := true)
    else if s == SEQ_DRAIN then o.(drain := true)
    else if s == SEQ_PREFLUSH then o.(pre := true)
    else if s == SEQ_BAR then o.(bar := true)
    else o.(post := true)
  }

  /** Where `elv_insert` puts a requeued request of sequence `s`: before the
      first entry of `head[from..]` whose own sequence is not lower. */
  function RequeuePos(q: Queue, s: int, from: nat): (p: nat)
    requires from <= |q.head|
    ensures from <= p <= |q.head|
    ensures forall i :: from <= i < p ==> ReqSeq(q, q.head[i]) < s
    ensures p < |q.head| ==> s <= ReqSeq(q, q.head[p])
    decreases |q.head| - from
  {
    if from == |q.head| || s <= ReqSeq(q, q.head[from]) then from
    else RequeuePos(q, s, from + 1)
  }

  /** elv_insert at the front, as used for the proxies. */
  function PushFront(q: Queue, r: Request): Queue {
    q.(head := [r] + q.head, soft := q.soft + {r}, started := q.started - {r})
  }

  /** elv_dequeue_request */
  function Unlink(q: Queue, r: Request): Queue {
    q.(head := Lists.Erase(q.head, r), inFlight := q.inFlight + (if Account(q, r) then 1 else 0))
  }

  /** end_that_request_first and _last of the original barrier, once `ordseq` is clear. */
  function EndBarrier(q: Queue, b: Request): Queue {
    q.(inFlight := q.inFlight - (if Account(q, b) then 1 else 0),
       done := q.done + {b},
       ended := q.ended + 1)
  }

  /** blk_ordered_complete_seq */
  function CompleteSeq(q: Queue, s: int): Queue {
    var o := SetBit(q.ordseq, s);
    if CurSeq(o) != SEQ_DONE then q.(ordseq := o)
    else EndBarrier(q.(ordseq := Idle), q.orig)
  }

  /** The proxies of the mode, stacked at the front in reverse order. */
  function PushProxies(q: Queue): Queue {
    var q1 := if q.mode == DrainFlush then PushFront(q, PostFlush) else q;
    var q2 := PushFront(q1, Bar);
    if q.mode == DrainFlush || q.mode == DrainFua then PushFront(q2, PreFlush) else q2
  }

  /** start_ordered, up to the choice of the request it returns. */
  function StartOrdered(q: Queue, b: Request): Queue {
    var flush := q.mode == DrainFlush || q.mode == DrainFua;
    var q1 := PushProxies(Unlink(q, b).(orig := b));
    q1.(ordseq := OrdSeq(true, q1.inFlight == 0, !flush, false, q.mode != DrainFlush))
  }

  /** blk_do_ordered on the first entry, together with the marking done by
      elv_next_request: the new queue and the request handed out, if any. */
  function Next(q: Queue): (Queue, seq<Request>)
  {
    if q.head == [] then (q, [])
    else
      var r := q.head[0];
      if !Active(q) && IsBarrier(r) then
        if q.mode == NoBarrier then
          (EndBarrier(Unlink(q, r), r), [])
        else
          var q1 := StartOrdered(q, r);
          if q1.ordseq.drain && q1.head != [] then HandOut(q1, q1.head[0]) else (q1, [])
      else if !Active(q) || (r.Rq? && !r.fs) then
        HandOut(q, r)
      else if ReqSeq(q, r) > CurSeq(q.ordseq) then (q, [])
      else HandOut(q, r)
  }

  function HandOut(q: Queue, r: Request): (Queue, seq<Request>) {
    (q.(started := q.started + {r}, handed := q.handed + {r}), [r])
  }

  /** elv_completed_request, then the proxies' own end_io. */
  function Complete(q: Queue, r: Request): Queue {
    var q1 := q.(driver := q.driver - {r},
                 inFlight := q.inFlight - (if Account(q, r) then 1 else 0),
                 done := if r.Rq? then q.done + {r} else q.done);
    var q2 := if Drained(q1) then CompleteSeq(q1, SEQ_DRAIN) else q1;
    if r.Rq? then q2 else CompleteSeq(q2, ReqSeq(q2, r))
  }

  /** The test of elv_completed_request for the end of draining. */
  predicate Drained(q: Queue) {
    Active(q) && q.inFlight == 0 && CurSeq(q.ordseq) == SEQ_DRAIN
    && q.head != [] && ReqSeq(q, q.head[0]) > SEQ_DRAIN
  }

  /** elv_requeue_request */
  function Requeue(q: Queue, r: Request): Queue {
    var p := if Active(q) then RequeuePos(q, ReqSeq(q, r), 0) else 0;
    q.(driver := q.driver - {r},
       inFlight := q.inFlight - (if Account(q, r) then 1 else 0),
       started := q.started - {r},
       soft := q.soft + {r},
       head := Lists.InsertAt(q.head, p, r))
  }

  /** Barriers implicitly indicate back insertion. */
  function Place(hard: bool, where: Where): Where {
    if hard && where == Sort then Back else where
  }

  /** elv_insert at the front, at the back, or with the io scheduler. */
  function Inserted(q: Queue, r: Request, where: Where): Queue {
    match where
    case Front => q.(head := [r] + q.head, soft := q.soft + {r})
    case Back => q.(head := q.head + [r], soft := q.soft + {r})
    case Sort => q.(sorted := q.sorted + {r})
  }

  /** __elv_add_request, after the io scheduler has been drained for `Back`. */
  function Submit(q: Queue, fs: bool, hard: bool, where: Where): Queue {
    var r := Rq(|q.submitted|, fs, hard, q.ordcolor, |q.barriers|);
    var q1 := q.(ordcolor := if hard then !q.ordcolor else q.ordcolor,
                 submitted := q.submitted + [r],
                 barriers := if fs && hard then q.barriers + [r] else q.barriers);
    Inserted(q1, r, Place(hard, where))
  }

  predicate Fence(q: Queue, r: Request) {
    r in q.soft || r in q.started || !r.Rq? || r.hard
  }

  /** An io scheduler moves `r` to position `p`, which lies after every fence. */
  function Dispatch(q: Queue, r: Request, p: nat): Queue
    requires p <= |q.head|
  {
    q.(sorted := q.sorted - {r}, head := Lists.InsertAt(q.head, p, r))
  }

  datatype Step =
    | SubmitStep(fs: bool, hard: bool, where: Where)
    | DispatchStep(r: Request, p: nat)
    | NextStep
    | DequeueStep(r: Request)
    | CompleteStep(r: Request)
    | RequeueStep(r: Request)
    | ModeStep(mode: Mode)

  /** What the callers of each entry point guarantee. */
  predicate Enabled(q: Queue, s: Step) {
    match s
    case SubmitStep(fs, hard, where) =>
      && (fs ==> where != Front)
      && (Place(hard, where) == Sort ==> fs)
      && (Place(hard, where) == Back ==> q.sorted == {})
    case DispatchStep(r, p) =>
      && r in q.sorted && p <= |q.head|
      && forall i :: p <= i < |q.head| ==> !Fence(q, q.head[i])
    case NextStep => true
    case DequeueStep(r) => r in q.head && r in q.started
    case CompleteStep(r) => r in q.driver
    case RequeueStep(r) => r in q.driver
    case ModeStep(_) => true
  }

  function Apply(q: Queue, s: Step): Queue
    requires Enabled(q, s)
  {
    match s
    case SubmitStep(fs, hard, where) => Submit(q, fs, hard, where)
    case DispatchStep(r, p) => Dispatch(q, r, p)
    case NextStep => Next(q).0
    case DequeueStep(r) => Unlink(q, r).(driver := q.driver + {r})
    case CompleteStep(r) => Complete(q, r)
    case RequeueStep(r) => Requeue(q, r)
    case ModeStep(m) => q.(mode := m)
  }

  /** Nothing in the queue is an fs request: the list, the io scheduler and the
      driver hold none, and no barrier sequence runs. */
  predicate FsIdle(q: Queue) {
    !Active(q) && q.inFlight == 0 && q.sorted == {} && forall r :: r in q.head ==> !IsFs(r)
  }

  /** The two uses under which the ordering colours stay meaningful: a hard
      barrier that is not an fs request is submitted only while the queue holds
      no fs request, and a barrier that is refused because the queue was switched
      to no ordering is refused with nothing in flight. */
  predicate Disciplined(q: Queue, s: Step) {
    match s
    case SubmitStep(fs, hard, _) => hard && !fs ==> FsIdle(q)
    case NextStep =>
      !(!Active(q) && q.head != [] && IsBarrier(q.head[0]) && q.mode == NoBarrier && q.inFlight != 0)
    case _ => true
  }

  /** Every step is one its callers may take. */
  predicate Legal(q: Queue, steps: seq<Step>)
    decreases |steps|
  {
    steps == [] || (Enabled(q, steps[0]) && Legal(Apply(q, steps[0]), steps[1..]))
  }

  function Final(q: Queue, steps: seq<Step>): Queue
    requires Legal(q, steps)
    decreases |steps|
  {
    if steps == [] then q else Final(Apply(q, steps[0]), steps[1..])
  }

  predicate DisciplinedRun(q: Queue, steps: seq<Step>)
    requires Legal(q, steps)
    decreases |steps|
  {
    steps == [] || (Disciplined(q, steps[0]) && DisciplinedRun(Apply(q, steps[0]), steps[1..]))
  }

  /** The checks the code itself makes on the way: the WARN_ON of blk_do_ordered,
      the BUG_ONs of blk_ordered_complete_seq and blk_ordered_req_seq, and the
      two things elv_completed_request takes for granted, a non-zero count and a
      first entry to look at. */
  predicate Trips(q: Queue, s: Step) {
    match s
    case NextStep =>
      && Active(q) && q.head != [] && !(q.head[0].Rq? && !q.head[0].fs)
      && ReqSeq(q, q.head[0]) < CurSeq(q.ordseq)
    case CompleteStep(r) =>
      || (Account(q, r) && q.inFlight <= 0)
      || (CurSeq(q.ordseq) == SEQ_DRAIN && q.head == [])
      || (!r.Rq? && (!Active(q) || CurSeq(q.ordseq) == SEQ_DRAIN || Bit(q.ordseq, ReqSeq(q, r))))
    case RequeueStep(r) => Account(q, r) && q.inFlight <= 0
    case _ => false
  }

  /** Barrier semantics: a barrier ends only after every fs request submitted
      before it, and an fs request submitted after it reaches the driver only
      once the barrier has ended. */
  ghost predicate Ordered(q: Queue) {
    forall i, j :: 0 <= i < j < |q.submitted| ==>
      var x, y := q.submitted[i], q.submitted[j];
      x.Rq? && y.Rq? && x.fs && y.fs ==>
        && (y.hard && y in q.done ==> x in q.done)
        && (x.hard && (y in q.handed || y in q.driver || y in q.done) ==> x in q.done)
  }
}
