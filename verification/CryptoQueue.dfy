/**
 The asynchronous crypto queue: a bounded list that may grow a backlog, a pointer
 to the first request in the backlog, and the worker that serves it.
 */
module CryptoQueue {
  import opened Lists

  datatype Status = InProgress | Busy

  /** A call of a request's completion: the interim -EINPROGRESS, or the final one. */
  datatype Event = Progress(rq: nat) | Done(rq: nat)

  function Served(log: seq<Event>): seq<nat> {
    if log == [] then []
    else Served(log[..|log| - 1]) + if log[|log| - 1].Done? then [log[|log| - 1].rq] else []
  }

  ghost predicate Once(log: seq<Event>, e: Event) {
    forall i, j :: 0 <= i < j < |log| ==> !(log[i] == e && log[j] == e)
  }

  /** Every final completion of a request of the backlog comes after its interim one. */
  ghost predicate Announced(log: seq<Event>, backlogged: set<nat>) {
    forall i :: 0 <= i < |log| && log[i].Done? && log[i].rq in backlogged ==> Progress(log[i].rq) in log[..i]
  }

  lemma ServedNext(log: seq<Event>, e: Event)
    ensures Served(log + [e]) == Served(log) + if e.Done? then [e.rq] else []
  {
    var l := log + [e];
    assert l[..|l| - 1] == log;
  }

  lemma LogProgress(log: seq<Event>, e: Event)
    ensures Served(log + [e]) == Served(log) + if e.Done? then [e.rq] else []
    ensures forall x :: x in log + [e] <==> x in log || x == e
    ensures forall x :: Once(log, x) && (x != e || x !in log) ==> Once(log + [e], x)
  {
    var l := log + [e];
    assert l[..|l| - 1] == log;
    forall x | Once(log, x) && (x != e || x !in log)
      ensures Once(l, x)
    {
      forall i, j | 0 <= i < j < |l|
        ensures !(l[i] == x && l[j] == x)
      {
        assert l[i] == log[i];
      }
    }
  }

  lemma AnnouncedNext(log: seq<Event>, backlogged: set<nat>, e: Event)
    requires Announced(log, backlogged) && (e.Done? && e.rq in backlogged ==> Progress(e.rq) in log)
    ensures Announced(log + [e], backlogged)
  {
    var l := log + [e];
    forall i | 0 <= i < |l| && l[i].Done? && l[i].rq in backlogged
      ensures Progress(l[i].rq) in l[..i]
    {
      assert l[..i] == log[..i];
      assert i == |log| ==> log[..i] == log;
    }
  }

  /** Where request `list[i]` stands: not served, and told to go on iff it waited and has moved up far enough. */
  ghost predicate Standing(list: seq<nat>, log: seq<Event>, backlogged: set<nat>, max: nat, i: nat)
    requires i < |list|
  {
    && Done(list[i]) !in log
    && (Progress(list[i]) in log <==> list[i] in backlogged && i < max)
    && (i >= max ==> list[i] in backlogged)
  }

  ghost predicate Standings(list: seq<nat>, log: seq<Event>, backlogged: set<nat>, max: nat) {
    forall i: nat {:trigger Standing(list, log, backlogged, max, i)} :: i < |list| ==>
      Standing(list, log, backlogged, max, i)
  }

  /** Interim completions go to requests that waited, to each exactly one once it is no longer in the list. */
  ghost predicate Told(list: seq<nat>, log: seq<Event>, backlogged: set<nat>) {
    && (forall r :: Progress(r) in log ==> r in backlogged)
    && (forall r :: r in backlogged && r !in list ==> Progress(r) in log)
  }

  ghost predicate Order(list: seq<nat>, log: seq<Event>, accepted: seq<nat>) {
    NoDup(accepted) && Served(log) + list == accepted && forall e :: e in log ==> e.rq in accepted
  }

  ghost predicate Books(list: seq<nat>, log: seq<Event>, accepted: seq<nat>, backlogged: set<nat>, max: nat) {
    && Order(list, log, accepted) && (forall r :: r in backlogged ==> r in accepted)
    && Standings(list, log, backlogged, max) && Told(list, log, backlogged)
    && (forall e :: Once(log, e)) && Announced(log, backlogged)
  }

  lemma ListDistinct(list: seq<nat>, log: seq<Event>, accepted: seq<nat>)
    requires Order(list, log, accepted)
    ensures NoDup(list) && forall r :: r in list ==> r in accepted
  {
    var n := |Served(log)|;
    forall i, j | 0 <= i < j < |list|
      ensures list[i] != list[j]
    {
      assert accepted[n + i] == list[i] && accepted[n + j] == list[j];
    }
    forall i | 0 <= i < |list|
      ensures list[i] in accepted
    {
      assert accepted[n + i] == list[i];
    }
  }

  /** A new request joins at the end. */
  lemma Joined(list: seq<nat>, log: seq<Event>, accepted: seq<nat>, backlogged: set<nat>, max: nat, r: nat)
    requires Books(list, log, accepted, backlogged, max) && r !in accepted
    ensures Books(list + [r], log, accepted + [r], if |list| >= max then backlogged + {r} else backlogged, max)
  {
    hide Served, Once;
    var l, b := list + [r], if |list| >= max then backlogged + {r} else backlogged;
    assert Done(r) !in log && Progress(r) !in log;
    forall i: nat | i < |l|
      ensures Standing(l, log, b, max, i)
    {
      assert i < |list| ==> Standing(list, log, backlogged, max, i);
      assert i < |list| ==> l[i] in list;
      ListDistinct(list, log, accepted);
    }
    assert forall i :: 0 <= i < |log| ==> log[i] in log;
  }

  /** The first of the backlog is told that it has moved up. */
  lemma Promoted(list: seq<nat>, log: seq<Event>, backlogged: set<nat>, max: nat)
    requires list != [] && Standings(list, log, backlogged, max) && Told(list, log, backlogged) && NoDup(list)
    ensures Standings(list[1..], if |list| > max then log + [Progress(list[max])] else log, backlogged, max)
    ensures Told(list, if |list| > max then log + [Progress(list[max])] else log, backlogged)
    ensures |list| > max ==> list[max] in backlogged && Progress(list[max]) !in log
    ensures list[0] in backlogged ==> Progress(list[0]) in if |list| > max then log + [Progress(list[max])] else log
    ensures Done(list[0]) !in log
  {
    var g := if |list| > max then log + [Progress(list[max])] else log;
    if |list| > max {
      assert Standing(list, log, backlogged, max, max);
    }
    assert Standing(list, log, backlogged, max, 0);
    var t := list[1..];
    forall i: nat | i < |t|
      ensures Standing(t, g, backlogged, max, i)
    {
      assert Standing(list, log, backlogged, max, i + 1);
      assert |list| > max && i + 1 != max ==> list[i + 1] != list[max];
    }
  }

  /** The oldest request is completed. */
  lemma Retired(list: seq<nat>, log: seq<Event>, backlogged: set<nat>, max: nat)
    requires list != [] && NoDup(list) && Standings(list[1..], log, backlogged, max) && Told(list, log, backlogged)
    requires list[0] in backlogged ==> Progress(list[0]) in log
    ensures Standings(list[1..], log + [Done(list[0])], backlogged, max)
    ensures Told(list[1..], log + [Done(list[0])], backlogged)
  {
    var t, g := list[1..], log + [Done(list[0])];
    assert forall e :: e in g <==> e in log || e == Done(list[0]);
    forall i: nat | i < |t|
      ensures Standing(t, g, backlogged, max, i)
    {
      assert Standing(t, log, backlogged, max, i);
    }
    assert list == [list[0]] + t;
  }

  function TurnLog(list: seq<nat>, log: seq<Event>, max: nat): seq<Event>
    requires list != []
  {
    (if |list| > max then log + [Progress(list[max])] else log) + [Done(list[0])]
  }

  lemma OrderTold(list: seq<nat>, log: seq<Event>, accepted: seq<nat>, r: nat)
    requires Order(list, log, accepted) && r in accepted
    ensures Order(list, log + [Progress(r)], accepted)
  {
    hide Served, NoDup;
    ServedNext(log, Progress(r));
    assert Served(log) + [] == Served(log);
  }

  lemma OrderDone(list: seq<nat>, log: seq<Event>, accepted: seq<nat>)
    requires Order(list, log, accepted) && list != []
    ensures Order(list[1..], log + [Done(list[0])], accepted)
  {
    hide Served, NoDup;
    ServedNext(log, Done(list[0]));
    assert accepted[|Served(log)|] == list[0];
    assert Served(log) + list == (Served(log) + [list[0]]) + list[1..];
  }

  lemma TurnOrder(list: seq<nat>, log: seq<Event>, accepted: seq<nat>, max: nat)
    requires Order(list, log, accepted) && list != []
    ensures Order(list[1..], TurnLog(list, log, max), accepted)
  {
    hide Order;
    ListDistinct(list, log, accepted);
    if |list| > max {
      OrderTold(list, log, accepted, list[max]);
      OrderDone(list, log + [Progress(list[max])], accepted);
    } else {
      OrderDone(list, log, accepted);
    }
  }

  lemma TurnBooks(list: seq<nat>, log: seq<Event>, accepted: seq<nat>, backlogged: set<nat>, max: nat)
    requires Books(list, log, accepted, backlogged, max) && list != []
    ensures Books(list[1..], TurnLog(list, log, max), accepted, backlogged, max)
  {
    hide Served, Once, Announced, Standings, Told, Order;
    var g := if |list| > max then log + [Progress(list[max])] else log;
    ListDistinct(list, log, accepted);
    Promoted(list, log, backlogged, max);
    if |list| > max {
      LogProgress(log, Progress(list[max]));
      AnnouncedNext(log, backlogged, Progress(list[max]));
    }
    Retired(list, g, backlogged, max);
    LogProgress(g, Done(list[0]));
    AnnouncedNext(g, backlogged, Done(list[0]));
    TurnOrder(list, log, accepted, max);
  }

  lemma {:induction false} ServedMember(log: seq<Event>, r: nat)
    ensures r in Served(log) <==> Done(r) in log
  {
    if log != [] {
      ServedMember(log[..|log| - 1], r);
      assert log == log[..|log| - 1] + [log[|log| - 1]];
    }
  }

  /** What the books say of a request that has left the list: completed once, and told once before iff it had to
      wait. */
  lemma LeftExactlyOnce(list: seq<nat>, log: seq<Event>, accepted: seq<nat>, backlogged: set<nat>, max: nat, r: nat)
    requires Books(list, log, accepted, backlogged, max) && r in accepted && r !in list
    ensures Done(r) in log && Once(log, Done(r)) && Once(log, Progress(r))
    ensures Progress(r) in log <==> r in backlogged
    ensures r in backlogged ==> forall i :: 0 <= i < |log| && log[i] == Done(r) ==> Progress(r) in log[..i]
  {
    hide Served, Once;
    assert r in Served(log) + list;
    ServedMember(log, r);
  }

  class Cryptd {
    var list: seq<nat>
    var backlog: Option<nat>
    var qlen: nat
    const maxQlen: nat
    var log: seq<Event>
    /** All requests accepted so far, in order, and those of them that were told to wait. */
    ghost var accepted: seq<nat>
    ghost var backlogged: set<nat>

    /** The pointer is at the head of the list iff the queue is not over-full, else at the first request too many. */
    ghost predicate Pointer()
      reads this
    {
      qlen == |list| && backlog == if |list| <= maxQlen then None else Some(list[maxQlen])
    }

    ghost predicate Valid()
      reads this
    {
      Pointer() && Books(list, log, accepted, backlogged, maxQlen)
    }

    constructor (maxQlen: nat)
      ensures Valid() && list == [] && log == [] && accepted == [] && this.maxQlen == maxQlen
    {
      this.maxQlen, list, backlog, qlen, log, accepted, backlogged := maxQlen, [], None, 0, [], [], {};
    }

    /** crypto_enqueue_request: beyond the limit a request is refused unless it may wait in the backlog. */
    method Enqueue(r: nat, mayBacklog: bool) returns (status: Status)
      requires Valid() && r !in accepted
      modifies this
      ensures Valid() && log == old(log)
      ensures status == Busy <==> |old(list)| >= maxQlen
      ensures if status == Busy && !mayBacklog then list == old(list) && accepted == old(accepted)
              else list == old(list) + [r] && accepted == old(accepted) + [r]
      ensures backlogged == old(backlogged) + (if status == Busy && mayBacklog then {r} else {})
    {
      hide Books;
      Joined(list, log, accepted, backlogged, maxQlen, r);
      status := InProgress;
      if qlen >= maxQlen {
        status := Busy;
        if !mayBacklog {
          return;
        }
        if backlog.None? {
          backlog := Some(r);
        }
        backlogged := backlogged + {r};
      }
      qlen := qlen + 1;
      list := list + [r];
      accepted := accepted + [r];
    }

    /** crypto_dequeue_request, with crypto_get_backlog before it as the worker calls them. */
    method Dequeue() returns (rq: Option<nat>, waiting: Option<nat>)
      requires Pointer() && NoDup(list)
      modifies this`list, this`backlog, this`qlen
      ensures Pointer() && waiting == old(backlog)
      ensures if old(list) == [] then rq == None && list == [] else rq == Some(old(list)[0]) && list == old(list)[1..]
    {
      waiting := backlog;
      if qlen == 0 {
        return None, waiting;
      }
      qlen := qlen - 1;
      if backlog.Some? {
        var i := IndexOf(list, backlog.value);
        assert i == maxQlen;
        backlog := if i + 1 < |list| then Some(list[i + 1]) else None;
      }
      rq := Some(list[0]);
      list := list[1..];
    }

    /** One turn of cryptd_thread: the oldest request is served, after the first of the backlog has been told. */
    method Turn() returns (rq: Option<nat>)
      requires Valid()
      modifies this`list, this`backlog, this`qlen, this`log
      ensures Valid()
      ensures if old(list) == [] then rq == None && log == old(log) && list == []
              else rq == Some(old(list)[0]) && list == old(list)[1..] && log == TurnLog(old(list), old(log), maxQlen)
    {
      hide Books, Order;
      ghost var l, g := list, log;
      assert NoDup(list) by { BooksDistinct(list, log, accepted, backlogged, maxQlen); }
      if list != [] {
        TurnBooks(list, log, accepted, backlogged, maxQlen);
      }
      var waiting;
      rq, waiting := Dequeue();
      if rq.Some? {
        if waiting.Some? {
          log := log + [Progress(waiting.value)];
        }
        log := log + [Done(rq.value)];
      }
    }
  }

  lemma BooksDistinct(list: seq<nat>, log: seq<Event>, accepted: seq<nat>, backlogged: set<nat>, max: nat)
    requires Books(list, log, accepted, backlogged, max)
    ensures NoDup(list)
  {
    ListDistinct(list, log, accepted);
  }
}
