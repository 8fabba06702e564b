/**
 The CFQ scheduler: queues with pending requests are kept in a service tree whose
 leftmost node is cached. The tree is given by its nodes in order; a descent
 meets an arbitrary node of the range it is in, so every tree shape is covered.
 */
module Cfq {
  import opened Lists
  import opened CfqQueue

  /** A request on the dispatch list, with its queue. */
  datatype Sent = Sent(queue: nat, rq: nat)

  /** The comparison on the way down the service tree. */
  predicate GoesLeft(q: Queue, key: int, node: Queue) {
    if q.rt != node.rt then q.rt
    else if q.idle != node.idle then !q.idle
    else key < node.key
  }

  /** Queue `a` is to be served before queue `b`. */
  predicate Sooner(a: Queue, b: Queue) { GoesLeft(a, a.key, b) }

  /** The tree is sorted in the order in which the queues will be served. */
  ghost predicate InOrder(t: seq<nat>, qs: map<nat, Queue>) {
    && (forall p :: p in t ==> p in qs)
    && (forall i, j :: 0 <= i < j < |t| ==> !Sooner(qs[t[j]], qs[t[i]]))
  }

  lemma SoonerOrder(a: Queue, key: int, b: Queue, c: Queue)
    ensures GoesLeft(a, key, b) && !Sooner(c, b) ==> GoesLeft(a, key, c)
    ensures GoesLeft(a, key, c) && !Sooner(c, b) && !GoesLeft(a, key, b) ==> c != b
    ensures !GoesLeft(a, key, c) && !Sooner(c, b) ==> !GoesLeft(a, key, b)
    ensures Sooner(a, b) ==> !Sooner(b, a)
  {}

  /** A queue that keeps its class and key keeps its place. */
  lemma OrderSame(t: seq<nat>, qs: map<nat, Queue>, q: nat, x: Queue)
    requires InOrder(t, qs)
    requires q in t ==> x.rt == qs[q].rt && x.idle == qs[q].idle && x.key == qs[q].key
    ensures InOrder(t, qs[q := x])
  {
    var qs' := qs[q := x];
    forall i, j | 0 <= i < j < |t|
      ensures !Sooner(qs'[t[j]], qs'[t[i]])
    {
      assert !Sooner(qs[t[j]], qs[t[i]]);
    }
  }

  lemma OrderErase(t: seq<nat>, qs: map<nat, Queue>, q: nat)
    requires InOrder(t, qs)
    ensures InOrder(Erase(t, q), qs)
  {
    hide Erase;
    ErasedMembers(t, q);
    if q in t {
      var g, k := Erase(t, q), IndexOf(t, q);
      forall i, j | 0 <= i < j < |g|
        ensures !Sooner(qs[g[j]], qs[g[i]])
      {
        ErasedAt(t, q, i);
        ErasedAt(t, q, j);
      }
    }
  }

  /** The leftmost queue is one to be served first. */
  lemma FirstServed(t: seq<nat>, qs: map<nat, Queue>)
    requires InOrder(t, qs)
    ensures t != [] ==> forall p :: p in t ==> p in qs && !Sooner(qs[p], qs[t[0]])
  {
    forall p | p in t
      ensures p in qs && !Sooner(qs[p], qs[t[0]])
    {
      var i := IndexOf(t, p);
      assert i > 0 ==> !Sooner(qs[t[i]], qs[t[0]]);
    }
  }

  /** Place `pos` is behind all that `q` does not go before and before the rest. */
  ghost predicate Fits(t: seq<nat>, qs: map<nat, Queue>, q: Queue, key: int, pos: nat)
    requires forall p :: p in t ==> p in qs
  {
    && pos <= |t|
    && (forall i :: 0 <= i < pos ==> !GoesLeft(q, key, qs[t[i]]))
    && (forall i :: pos <= i < |t| ==> GoesLeft(q, key, qs[t[i]]))
  }

  lemma OrderInsert(t: seq<nat>, qs: map<nat, Queue>, q: nat, key: int, pos: nat)
    requires InOrder(t, qs) && q in qs && q !in t && Fits(t, qs, qs[q], key, pos)
    ensures InOrder(InsertAt(t, pos, q), qs[q := qs[q].(key := key)])
  {
    hide GoesLeft;
    var x := qs[q].(key := key);
    var u, qs' := InsertAt(t, pos, q), qs[q := x];
    GoesLeftSame(qs[q], key);
    forall i, j | 0 <= i < j < |u|
      ensures !Sooner(qs'[u[j]], qs'[u[i]])
    {
      if i == pos {
        assert u[j] == t[j - 1];
        SoonerOrder(x, key, x, qs[t[j - 1]]);
        SoonerOrder(x, key, qs[t[j - 1]], x);
      } else if j == pos {
        assert u[i] == t[i];
      } else {
        assert u[i] == (if i < pos then t[i] else t[i - 1]) && u[j] == (if j < pos then t[j] else t[j - 1]);
      }
    }
  }

  lemma FrontIff(t: seq<nat>, qs: map<nat, Queue>, q: nat, key: int, pos: nat)
    requires (forall p :: p in t ==> p in qs) && q in qs && q !in t && Fits(t, qs, qs[q], key, pos)
    ensures pos == 0 <==> forall p :: p in t ==> GoesLeft(qs[q].(key := key), key, qs[q := qs[q].(key := key)][p])
  {
    hide GoesLeft;
    GoesLeftKey(qs[q], key);
    if pos > 0 {
      assert t[0] in t;
    }
  }

  lemma GoesLeftKey(q: Queue, key: int)
    ensures forall n: Queue :: GoesLeft(q.(key := key), key, n) <==> GoesLeft(q, key, n)
  {}

  lemma GoesLeftSame(q: Queue, key: int)
    ensures forall n: Queue :: GoesLeft(q, key, n) <==> Sooner(q.(key := key), n)
  {}

  /** Two requests of one kind from sector `at` on, the first one nearer. */
  predicate Nearer(q: Queue, at: nat, a: nat, b: nat) {
    && Known(q, a) && Known(q, b) && q.info[a] == q.info[b]
    && at <= q.sector[a] < q.sector[b]
  }

  lemma ChooseNearer(h: Head, q: Queue, a: nat, b: nat)
    requires Nearer(q, h.position, a, b)
    ensures Known(q, a) && Known(q, b) && Choose(h, q, Some(a), Some(b)) == Choose(h, q, Some(b), Some(a)) == Some(a)
  {}

  lemma EraseFirst(s: seq<nat>, r: nat)
    requires s != [] && s[0] != r
    ensures Erase(s, r) != [] && Erase(s, r)[0] == s[0]
  {}

  lemma InsertAtEnds(s: seq<nat>, i: nat, q: nat)
    requires i <= |s|
    ensures |InsertAt(s, i, q)| == |s| + 1 && InsertAt(s, i, q)[0] == if i == 0 then q else s[0]
  {}

  class CfqData {
    var queues: map<nat, Queue>
    var tree: seq<nat>
    var left: Option<nat>
    var busy: int
    var active: Option<nat>
    var head: Head
    var dispatch: seq<Sent>
    var syncFlight: int

    /** The service tree holds exactly the queues flagged as on it, `busy` counts them, `left` is unset or right. */
    ghost predicate TreeInv()
      reads this`queues, this`tree, this`left, this`busy, this`active
    {
      && NoDup(tree) && (forall q :: q in tree <==> q in queues && queues[q].onRr)
      && busy == |tree| && InOrder(tree, queues)
      && (left.Some? ==> tree != [] && left.value == tree[0])
      && (active.Some? ==> active.value in queues)
    }

    ghost predicate Valid()
      reads this`queues, this`tree, this`left, this`busy, this`active
    {
      TreeInv() && forall p :: p in queues ==> Inv(queues[p])
    }

    constructor (head: Head)
      ensures Valid() && queues == map[] && dispatch == [] && active.None? && syncFlight == 0 && this.head == head
    {
      queues, tree, left, busy, active, this.head, dispatch, syncFlight := map[], [], None, 0, None, head, [], 0;
    }

    /** cfq_get_queue: the queue of a task, allocated empty and off the round robin when there is none. */
    method GetQueue(q: nat, sync: bool, rt: bool, idle: bool)
      requires Valid()
      modifies this`queues
      ensures Valid() && q in queues && forall p :: p in old(queues) ==> p in queues && queues[p] == old(queues[p])
      ensures queues.Keys == old(queues).Keys + {q}
      ensures q !in old(queues) ==> queues[q].sorted == [] && queues[q].fifo == [] && queues[q].dispatched == 0
      ensures q !in old(queues) ==> queues[q].sync == sync && queues[q].rt == rt && queues[q].idle == idle
    {
      hide Inv, InOrder;
      if q !in queues {
        NewQueue(sync, rt, idle);
        OrderSame(tree, queues, q, Queue([], [], map[], map[], None, false, 0, 0, 0, 0, sync, rt, idle, 0, false));
        queues := queues[q := Queue([], [], map[], map[], None, false, 0, 0, 0, 0, sync, rt, idle, 0, false)];
      }
    }

    /** cfq_activate_request: the head moves behind the request that is served. Of two requests of one kind
        that start there or further on, the nearer one is then chosen. */
    method Activate(sector: nat, sectors: nat)
      requires Valid()
      modifies this`head
      ensures Valid() && head == old(head).(position := sector + sectors)
      ensures forall p: nat, a: nat, b: nat :: p in queues && Nearer(queues[p], sector + sectors, a, b) ==>
                Choose(head, queues[p], Some(a), Some(b)) == Choose(head, queues[p], Some(b), Some(a)) == Some(a)
    {
      hide Inv, Choose, Nearer;
      head := head.(position := sector + sectors);
      forall p: nat, a: nat, b: nat | p in queues && Nearer(queues[p], sector + sectors, a, b)
        ensures Known(queues[p], a) && Known(queues[p], b)
        ensures Choose(head, queues[p], Some(a), Some(b)) == Choose(head, queues[p], Some(b), Some(a)) == Some(a)
      {
        ChooseNearer(head, queues[p], a, b);
      }
    }

    /** cfq_completed_request, up to the clock. */
    method Completed(q: nat)
      requires Valid() && q in queues && queues[q].dispatched > 0
      modifies this`queues, this`syncFlight
      ensures Valid() && queues == old(queues)[q := old(queues[q]).(dispatched := old(queues[q].dispatched) - 1)]
      ensures syncFlight == old(syncFlight) - (if old(queues[q].sync) then 1 else 0)
    {
      hide Part, InOrder, NoDup;
      PartDispatched(queues[q], None, queues[q].dispatched - 1);
      if queues[q].sync {
        syncFlight := syncFlight - 1;
      }
      Put(q, queues[q].(dispatched := queues[q].dispatched - 1));
    }

    /** cfq_rb_first: looks the leftmost node up once and remembers it. */
    method RbFirst() returns (n: Option<nat>)
      requires TreeInv()
      modifies this`left
      ensures TreeInv() && n == if tree == [] then None else Some(tree[0])
    {
      if left.None? && tree != [] {
        left := Some(tree[0]);
      }
      n := left;
    }

    /** cfq_rb_erase */
    method RbErase(q: nat)
      requires NoDup(tree) && q in tree && (left.Some? ==> tree != [] && left.value == tree[0])
      modifies this`left, this`tree
      ensures tree == Erase(old(tree), q) && (left.Some? ==> tree != [] && left.value == tree[0])
    {
      if left == Some(q) {
        left := None;
      } else if left.Some? {
        EraseFirst(tree, q);
      }
      tree := Erase(tree, q);
    }

    /** cfq_del_cfqq_rr */
    method DelCfqqRr(q: nat)
      requires TreeInv() && q in queues && queues[q].onRr
      modifies this`queues, this`tree, this`left, this`busy
      ensures TreeInv() && queues == old(queues)[q := old(queues[q]).(onRr := false)]
    {
      hide InOrder, Erase;
      EraseNoDup(tree, q);
      OrderSame(tree, queues, q, queues[q].(onRr := false));
      queues := queues[q := queues[q].(onRr := false)];
      OrderErase(tree, queues, q);
      RbErase(q);
      // the code stops when no queue is counted here
      assert busy > 0;
      busy := busy - 1;
    }

    /** The walk down to a free place: the place fits the order, and the way is all to the left iff it is the first. */
    method Descend(q: nat, key: int) returns (pos: nat, first: bool)
      requires q in queues && InOrder(tree, queues)
      ensures Fits(tree, queues, queues[q], key, pos) && (first <==> pos == 0)
    {
      hide GoesLeft;
      var lo, hi := 0, |tree|;
      first := true;
      while lo < hi
        invariant 0 <= lo <= hi <= |tree| && (first <==> lo == 0)
        invariant forall i :: 0 <= i < lo ==> !GoesLeft(queues[q], key, queues[tree[i]])
        invariant forall i :: hi <= i < |tree| ==> GoesLeft(queues[q], key, queues[tree[i]])
      {
        var m :| lo <= m < hi;
        if GoesLeft(queues[q], key, queues[tree[m]]) {
          forall i | m <= i < |tree| ensures GoesLeft(queues[q], key, queues[tree[i]]) {
            SoonerOrder(queues[q], key, queues[tree[m]], queues[tree[i]]);
          }
          hi := m;
        } else {
          forall i | 0 <= i <= m ensures !GoesLeft(queues[q], key, queues[tree[i]]) {
            SoonerOrder(queues[q], key, queues[tree[i]], queues[tree[m]]);
          }
          lo, first := m + 1, false;
        }
      }
      pos := lo;
    }

    /** The tree's invariant while `q`, already counted, may be missing from it. */
    ghost predicate TreeButOne(q: nat)
      reads this
    {
      && NoDup(tree) && q in queues && queues[q].onRr
      && (forall p :: p != q ==> (p in tree <==> p in queues && queues[p].onRr))
      && busy == |tree| + (if q in tree then 0 else 1) && InOrder(tree, queues)
      && (left.Some? ==> tree != [] && left.value == tree[0])
      && (active.Some? ==> active.value in queues)
    }

    /** Puts a queue that is not in the tree at the place the descent finds. */
    method Link(q: nat, key: int)
      requires TreeButOne(q) && q !in tree
      modifies this`queues, this`tree, this`left
      ensures TreeInv() && queues == old(queues)[q := old(queues[q]).(key := key)]
      ensures tree[0] == q <==> forall p :: p in old(tree) ==> GoesLeft(queues[q], key, queues[p])
    {
      hide InsertAt, InOrder, GoesLeft;
      var pos, first := Descend(q, key);
      InsertAtFacts(tree, pos, q);
      InsertAtEnds(tree, pos, q);
      OrderInsert(tree, queues, q, key, pos);
      FrontIff(tree, queues, q, key, pos);
      if first {
        left := Some(q);
      }
      tree := InsertAt(tree, pos, q);
      queues := queues[q := queues[q].(key := key)];
    }

    /** cfq_service_tree_add; `key` is 0 when the queue is to go to the front, else computed from the clock. A queue
        that is sorted in comes first exactly if it is to be served before every other. */
    method ServiceTreeAdd(q: nat, key: int)
      requires TreeButOne(q)
      modifies this`queues, this`tree, this`left
      ensures TreeInv() && queues == old(queues)[q := old(queues[q]).(key := key)]
      ensures old(q !in tree || queues[q].key != key) ==>
                (tree[0] == q <==> forall p :: p in tree && p != q ==> Sooner(queues[q], queues[p]))
    {
      hide Erase, InOrder, GoesLeft;
      if q in tree {
        if key == queues[q].key {
          assert queues == queues[q := queues[q].(key := key)];
          return;
        }
        EraseNoDup(tree, q);
        OrderErase(tree, queues, q);
        RbErase(q);
      }
      Link(q, key);
    }

    /** cfq_add_cfqq_rr */
    method AddCfqqRr(q: nat, key: int)
      requires TreeInv() && q in queues && !queues[q].onRr
      modifies this`queues, this`tree, this`left, this`busy
      ensures TreeInv() && queues == old(queues)[q := old(queues[q]).(onRr := true, key := key)]
    {
      hide InOrder, Sooner, NoDup;
      OrderSame(tree, queues, q, queues[q].(onRr := true));
      queues := queues[q := queues[q].(onRr := true)];
      busy := busy + 1;
      SetTwice(old(queues), q, queues[q], queues[q].(key := key));
      ServiceTreeAdd(q, key);
    }
  
    /** A queue changes, but neither its place in the tree nor what that depends on. */
    method Put(q: nat, x: Queue)
      requires TreeInv() && q in queues && SamePlace(queues[q], x)
      modifies this`queues
      ensures TreeInv() && queues == old(queues)[q := x]
    {
      hide InOrder, NoDup;
      OrderSame(tree, queues, q, x);
      queues := queues[q := x];
    }

    /** cfq_remove_request */
    method RemoveRequest(q: nat, r: nat, ghost x: Option<nat>)
      requires TreeInv() && q in queues && Part(queues[q], x) && r in queues[q].sorted
      modifies this`queues, this`tree, this`left, this`busy
      ensures TreeInv() && q in queues && queues == old(queues)[q := queues[q]] && Part(queues[q], x)
      ensures queues[q].sorted == Erase(old(queues[q].sorted), r)
      ensures queues[q] == Take(head, old(queues[q]), r).(onRr := old(queues[q].onRr) && queues[q].sorted != [])
    {
      hide Part, Erase, InOrder, NoDup, Take;
      // the code stops when these counts are zero
      CountsPositive(queues[q], x, r);
      TakeKnown(head, queues[q], r, x);
      TakePart(head, queues[q], r, x);
      ghost var t := Take(head, queues[q], r);
      Put(q, Take(head, queues[q], r));
      if queues[q].onRr && queues[q].sorted == [] {
        SetTwice(old(queues), q, t, t.(onRr := false));
        DelCfqqRr(q);
        PartFlag(t, x, false);
      }
    }

    /** cfq_dispatch_insert */
    method DispatchInsert(q: nat, r: nat, ghost x: Option<nat>)
      requires TreeInv() && q in queues && Part(queues[q], x) && r in queues[q].sorted
      modifies this`queues, this`tree, this`left, this`busy, this`dispatch, this`syncFlight
      ensures TreeInv() && q in queues && queues == old(queues)[q := queues[q]] && Part(queues[q], x)
      ensures queues[q].sorted == Erase(old(queues[q].sorted), r) && queues[q] == Left(head, old(queues[q]), r)
      ensures dispatch == old(dispatch) + [Sent(q, r)]
      ensures syncFlight == old(syncFlight) + Flight(old(queues[q]), 1)
    {
      hide Part, Erase, TreeInv, Take, Left, SamePlace;
      ghost var q0 := queues;
      TakeKnown(head, queues[q], r, x);
      RemoveRequest(q, r, x);
      LeftFrom(head, q0[q], r, x, queues[q]);
      PartDispatched(queues[q], x, queues[q].dispatched + 1);
      SetTwice(q0, q, queues[q], queues[q].(dispatched := queues[q].dispatched + 1));
      Put(q, queues[q].(dispatched := queues[q].dispatched + 1));
      dispatch := dispatch + [Sent(q, r)];
      if queues[q].sync {
        syncFlight := syncFlight + 1;
      }
    }

    /** cfq_dispatch_insert between entry points. */
    method SendOne(q: nat, r: nat)
      requires Valid() && q in queues && r in queues[q].sorted
      modifies this`queues, this`tree, this`left, this`busy, this`dispatch, this`syncFlight
      ensures Valid() && q in queues && (forall p :: p in old(queues[q].sorted) ==> Known(old(queues[q]), p))
      ensures queues == old(queues)[q := Left(head, old(queues[q]), r)] && dispatch == old(dispatch) + [Sent(q, r)]
      ensures |queues[q].sorted| == |old(queues[q].sorted)| - 1 && queues[q].sync == old(queues[q].sync)
      ensures syncFlight == old(syncFlight) + Flight(old(queues[q]), 1)
      ensures Drained(old(queues), old(dispatch), queues, dispatch)
    {
      hide Part, Erase, TreeInv, Left, Drained;
      ghost var q0, d0 := queues, dispatch;
      PartKnown(queues[q], None);
      EraseNoDup(queues[q].sorted, r);
      LeftInv(head, queues[q], r);
      LeftClass(head, queues[q], r);
      DispatchInsert(q, r, None);
      DrainedNone(q0, d0);
      DrainedStep(q0, d0, q0, d0, queues, dispatch, q, r);
    }

    /** The loop of cfq_add_rq_rb: a request that starts at the same sector goes to the dispatch list first. */
    method DispatchAliases(q: nat, r: nat)
      requires TreeInv() && q in queues && Part(queues[q], Some(r))
      modifies this`queues, this`tree, this`left, this`busy, this`dispatch, this`syncFlight
      ensures TreeInv() && q in queues && queues == old(queues)[q := queues[q]] && Part(queues[q], Some(r))
      ensures queues[q] == NoAlias(head, old(queues[q]), r)
      ensures dispatch == old(dispatch) + AliasSent(old(queues[q]), r, q)
      ensures syncFlight == old(syncFlight) + Flight(old(queues[q]), |dispatch| - |old(dispatch)|)
      ensures Drained(old(queues), old(dispatch), queues, dispatch)
      ensures forall x :: x in queues[q].sorted ==> queues[q].sector[x] != queues[q].sector[r]
    {
      hide Part, Erase, FindSector, Drained, Left;
      ghost var q0, d0 := queues, dispatch;
      DrainedNone(queues, dispatch);
      PartKnown(queues[q], Some(r));
      assert dispatch == dispatch + [];
      var i := FindSector(queues[q].sorted, queues[q].sector, queues[q].sector[r]);
      while i < |queues[q].sorted|
        invariant TreeInv() && q in queues && queues == q0[q := queues[q]] && Part(queues[q], Some(r))
        invariant Known(queues[q], r)
        invariant forall x :: x in queues[q].sorted ==> x in queues[q].sector && x in queues[q].info
        invariant i == FindSector(queues[q].sorted, queues[q].sector, queues[q].sector[r])
        invariant Drained(q0, d0, queues, dispatch)
        invariant syncFlight == old(syncFlight) + Flight(q0[q], |dispatch| - |d0|)
        invariant if i < |queues[q].sorted| then queues[q] == q0[q] && dispatch == d0
                  else queues[q] == NoAlias(head, q0[q], r) && dispatch == d0 + AliasSent(q0[q], r, q)
        decreases |queues[q].sorted|
      {
        PartKnown(queues[q], Some(r));
        EraseNoDup(queues[q].sorted, queues[q].sorted[i]);
        ghost var q1, d1, alias := queues, dispatch, queues[q].sorted[i];
        OneAlias(head, queues[q], r, i);
        LeftKeeps(head, queues[q], alias, Some(r));
        DispatchInsert(q, queues[q].sorted[i], Some(r));
        DrainedStep(q0, d0, q1, d1, queues, dispatch, q, alias);
        PartKnown(queues[q], Some(r));
        i := FindSector(queues[q].sorted, queues[q].sector, queues[q].sector[r]);
      }
    }

    /** cfq_add_rq_rb */
    method AddRqRb(q: nat, r: nat, key: int)
      requires TreeInv() && q in queues && Part(queues[q], Some(r))
      modifies this`queues, this`tree, this`left, this`busy, this`dispatch, this`syncFlight
      ensures TreeInv() && q in queues && queues == old(queues)[q := queues[q]] && Inv(queues[q])
      ensures r in queues[q].sorted && queues[q] == Placed(head, old(queues[q]), r, key)
      ensures dispatch == old(dispatch) + AliasSent(old(queues[q]), r, q)
      ensures syncFlight == old(syncFlight) + Flight(old(queues[q]), |dispatch| - |old(dispatch)|)
      ensures Held(queues[q], dispatch, q) == Held(old(queues[q]), old(dispatch), q) + multiset{r}
    {
      hide Part, Attach, Drained, Held, InOrder, NoAlias, AliasSent;
      ghost var q0, d0 := queues, dispatch;
      DispatchAliases(q, r);
      HeldDrained(q0, d0, queues, dispatch, q);
      ghost var x := queues[q];
      PartKnown(queues[q], Some(r));
      AttachPart(head, queues[q], r);
      AttachMember(head, queues[q], r);
      ghost var t := Attach(head, queues[q], r);
      SetTwice(q0, q, x, t);
      Put(q, Attach(head, queues[q], r));
      HeldMore(x, t, dispatch, q, r);
      if !queues[q].onRr {
        SetTwice(q0, q, t, t.(onRr := true, key := key));
        AddCfqqRr(q, key);
        PartFlag(t, None, true);
        PartKey(t.(onRr := true), key);
        HeldSame(t, queues[q], dispatch, q);
      }
    }

    /** cfq_insert_request for a request that is new to queue `q`. */
    method InsertRequest(q: nat, r: nat, sector: nat, x: Rq, key: int)
      requires Valid() && q in queues && r !in queues[q].sorted
      modifies this`queues, this`tree, this`left, this`busy, this`dispatch, this`syncFlight
      ensures Valid() && q in queues && queues == old(queues)[q := queues[q]] && r in queues[q].sorted
      ensures var y := Announced(old(queues[q]), r, sector, x);
              && Part(y, Some(r)) && queues[q] == Placed(head, y, r, key)
              && dispatch == old(dispatch) + AliasSent(y, r, q)
      ensures syncFlight == old(syncFlight) + Flight(old(queues[q]), |dispatch| - |old(dispatch)|)
      ensures Held(queues[q], dispatch, q) == Held(old(queues[q]), old(dispatch), q) + multiset{r}
    {
      hide Part, Held, InOrder, Placed, AliasSent;
      AnnouncedPart(queues[q], r, sector, x);
      HeldSame(queues[q], Announced(queues[q], r, sector, x), dispatch, q);
      Put(q, Announced(queues[q], r, sector, x));
      AddRqRb(q, r, key);
    }

    /** cfq_merged_request after a front merge: the request starts at another sector and is put at its place. */
    method FrontMerged(q: nat, r: nat, sector: nat, key: int)
      requires Valid() && q in queues && r in queues[q].sorted
      modifies this`queues, this`tree, this`left, this`busy, this`dispatch, this`syncFlight
      ensures Valid() && q in queues && queues == old(queues)[q := queues[q]] && r in queues[q].sorted
      ensures r in old(queues[q]).info && var y := Moved(Unsort(old(queues[q]), r), r, sector);
              && Part(y, Some(r)) && queues[q] == Placed(head, y, r, key)
              && dispatch == old(dispatch) + AliasSent(y, r, q)
      ensures syncFlight == old(syncFlight) + Flight(old(queues[q]), |dispatch| - |old(dispatch)|)
      ensures Held(queues[q], dispatch, q) == Held(old(queues[q]), old(dispatch), q)
    {
      hide Part, Held, Moved, Unsort, InOrder, Placed, AliasSent;
      Detached(queues[q], r, sector, dispatch, q);
      Put(q, Moved(Unsort(queues[q], r), r, sector));
      AddRqRb(q, r, key);
    }

    /** cfq_merged_requests: `next` has been swallowed by `rq`, which takes its place in the fifo when that is older. */
    method MergedRequests(q: nat, rq: nat, next: nat, older: bool)
      requires Valid() && q in queues && rq in queues[q].sorted && next in queues[q].sorted && rq != next
      modifies this`queues, this`tree, this`left, this`busy
      ensures Valid() && q in queues && queues == old(queues)[q := queues[q]]
      ensures queues[q].sorted == Erase(old(queues[q].sorted), next)
      ensures queues[q] == Take(head, old(queues[q]).(fifo := if older then TakePlace(old(queues[q].fifo), rq, next)
                                                              else old(queues[q].fifo)), next)
    {
      hide Part, Erase, TakePlace, TreeInv, Take;
      PartKnown(queues[q], None);
      EraseNoDup(queues[q].sorted, next);
      if older {
        TakePlacePart(queues[q], rq, next);
        SetTwice(queues, q, queues[q].(fifo := TakePlace(queues[q].fifo, rq, next)),
                 Take(head, queues[q].(fifo := TakePlace(queues[q].fifo, rq, next)), next));
        Put(q, queues[q].(fifo := TakePlace(queues[q].fifo, rq, next)));
      }
      TakeKnown(head, queues[q], next, None);
      RemoveRequest(q, next, None);
    }

    /** The forced dispatch of one queue. */
    method ForcedQueue(q: nat) returns (n: nat)
      requires Valid() && q in queues
      modifies this`queues, this`tree, this`left, this`busy, this`dispatch, this`syncFlight
      ensures Valid() && q in queues && queues == old(queues)[q := queues[q]]
      ensures queues[q].sorted == [] && !queues[q].onRr && n == |old(queues[q].sorted)|
      ensures Drained(old(queues), old(dispatch), queues, dispatch)
      ensures dispatch == old(dispatch) + Sends(q, Round(head, old(queues[q]), false, false, n).0)
      ensures syncFlight == old(syncFlight) + Flight(old(queues[q]), n)
    {
      hide Inv, TreeInv, Drained, Round, Left, Sends;
      ghost var q0, d0 := queues, dispatch;
      DrainedNone(queues, dispatch);
      n := 0;
      InvFacts(queues[q]);
      RoundNone(head, q0[q], false, false, q);
      assert dispatch == dispatch + [];
      while queues[q].next.Some?
        invariant Valid() && q in queues && queues == q0[q := queues[q]] && n + |queues[q].sorted| == |q0[q].sorted|
        invariant (dispatch, queues[q]) == Sofar(d0, q, Round(head, q0[q], false, false, n))
        invariant queues[q].next.Some? <==> queues[q].sorted != []
        invariant queues[q].sync == q0[q].sync && syncFlight == old(syncFlight) + Flight(q0[q], n)
        invariant Drained(q0, d0, queues, dispatch)
        decreases |queues[q].sorted|
      {
        RoundStep(head, q0[q], false, false, n, d0, q);
        ghost var q1, d1 := queues, dispatch;
        InvFacts(queues[q]);
        SendOne(q, queues[q].next.value);
        n := n + 1;
        InvFacts(queues[q]);
        DrainedTrans(q0, d0, q1, d1, queues, dispatch);
        SetTwice(q0, q, q1[q], queues[q]);
      }
      InvFacts(queues[q]);
      OffTree(queues[q]);
      // the code stops when the fifo is not empty here
      assert queues[q].fifo == [];
    }

    /** cfq_forced_dispatch: drains the service tree from the left. */
    method ForcedDispatch(key: int) returns (n: nat)
      requires Valid()
      modifies this
      ensures Valid() && tree == [] && busy == 0 && active == None && queues.Keys == old(queues).Keys
      ensures forall q :: q in queues ==> queues[q].sorted == [] && queues[q].fifo == [] && queues[q].next == None
      ensures Drained(old(queues), old(dispatch), queues, dispatch) && |dispatch| == |old(dispatch)| + n
    {
      hide Inv, Drained;
      n := 0;
      ghost var q0, d0 := queues, dispatch;
      DrainedNone(queues, dispatch);
      var first := RbFirst();
      while first.Some?
        invariant Valid() && first == (if tree == [] then None else Some(tree[0])) && queues.Keys == q0.Keys
        invariant Drained(q0, d0, queues, dispatch) && |dispatch| == |d0| + n
        decreases |tree|
      {
        ghost var q1, d1, t := queues, dispatch, tree;
        assert first.value in tree;
        var k := ForcedQueue(first.value);
        n := n + k;
        SendsLength(first.value, Round(head, q1[first.value], false, false, k).0);
        DrainedTrans(q0, d0, q1, d1, queues, dispatch);
        Fewer(t, tree, t[0]);
        first := RbFirst();
      }
      ghost var q1 := queues;
      SliceExpired(key);
      DrainedSame(q1, queues, dispatch);
      DrainedTrans(q0, d0, q1, dispatch, queues, dispatch);
      // the code stops when a queue is still counted here
      assert busy == 0;
      AllEmpty();
    }

    /** __cfq_slice_expired for the active queue: it is sorted in again, with `key` computed from the clock. */
    method SliceExpired(key: int)
      requires Valid()
      modifies this`queues, this`tree, this`left, this`active
      ensures Valid() && active == None && queues == Aged(old(queues), old(active), key)
      ensures queues.Keys == old(queues).Keys && busy == |tree| == |old(tree)|
    {
      hide Part, InOrder, Sooner, NoDup;
      if active.Some? {
        var q := active.value;
        if queues[q].onRr {
          PartKey(queues[q], key);
          ServiceTreeAdd(q, key);
        }
        active := None;
      }
    }

    /** cfq_preempt_queue: the active queue gives way to `q`, which is sorted in with key 0. It is at the front, and
        so selected next, exactly if no other queue is of a better class or of the same class with such a key. */
    method Preempt(q: nat, key: int)
      requires Valid() && q in queues && queues[q].sorted != []
      modifies this`queues, this`tree, this`left, this`active
      ensures Valid() && active == None && q in Aged(old(queues), old(active), key) && q in tree
      ensures var qs := Aged(old(queues), old(active), key); queues == qs[q := qs[q].(key := 0)]
      ensures old(active != Some(q) && queues[q].key != 0) ==>
                (tree[0] == q <==> forall p :: p in tree && p != q ==> Sooner(queues[q], queues[p]))
    {
      hide Part, InOrder, GoesLeft;
      SliceExpired(key);
      // the code stops when the queue is not on the round robin here
      assert queues[q].onRr;
      PartKey(queues[q], 0);
      ServiceTreeAdd(q, 0);
    }

    /** cfq_select_queue. Whether the slice is used up, whether the active queue is
        waited for and whether the idle class must wait come from the clock. The active
        queue goes on while it has requests and time; otherwise the leftmost queue of the
        tree is served, if there is one and it need not wait. */
    method SelectQueue(key: int, sliceUsed: bool, idling: bool, grace: bool) returns (q: Option<nat>)
      requires Valid()
      modifies this`queues, this`tree, this`left, this`active
      ensures Valid() && queues.Keys == old(queues).Keys
      ensures q.Some? ==> q.value in queues && queues[q.value].sorted != []
      ensures Picks(old(queues), old(active), key, sliceUsed, idling, grace, q)
      ensures queues == Selected(old(queues), old(active), key, sliceUsed, idling, q)
      ensures active == if Stays(old(queues), old(active), sliceUsed, idling) then old(active) else q
      ensures q.None? ==> Unserved()
    {
      hide Part, InOrder, Sooner, NoDup;
      if active.Some? {
        if !sliceUsed {
          if queues[active.value].sorted != [] {
            return active;
          } else if idling {
            return None;
          }
        }
        SliceExpired(key);
      }
      ghost var qs := queues;
      q := RbFirst();
      FirstServed(tree, queues);
      if q.Some? {
        assert q.value in tree;
        assert First(qs, q.value);
        if queues[q.value].idle && grace {
          q := None;
        }
      }
      SetActive(q);
    }

    /** __cfq_set_active_queue: the fifo of a queue is looked at once in a slice. */
    method SetActive(q: Option<nat>)
      requires Valid() && (q.Some? ==> q.value in queues)
      modifies this`queues, this`active
      ensures Valid() && active == q
      ensures queues == if q.Some? then old(queues)[q.value := old(queues[q.value]).(fifoChecked := false)]
                        else old(queues)
    {
      hide Part, InOrder, NoDup;
      if q.Some? {
        PartChecked(queues[q.value], false);
        Put(q.value, queues[q.value].(fifoChecked := false));
      }
      active := q;
    }

    /** cfq_check_fifo and the alternative: the oldest request if it is `late` and was not looked at in this
        slice, else next_rq. */
    method PickRequest(q: nat, late: bool) returns (r: nat)
      requires Valid() && q in queues && queues[q].sorted != []
      modifies this`queues
      ensures Valid() && queues == old(queues)[q := old(queues[q]).(fifoChecked := true)]
      ensures r == Pick(old(queues[q]), true, late) && r in queues[q].sorted
    {
      hide Part, InOrder, NoDup;
      InvFacts(queues[q]);
      PartChecked(queues[q], true);
      r := queues[q].next.value;
      if !queues[q].fifoChecked {
        Put(q, queues[q].(fifoChecked := true));
        if late {
          r := queues[q].fifo[0];
        }
      } else {
        assert queues == queues[q := queues[q].(fifoChecked := true)];
      }
    }

    /** One turn of the loop of __cfq_dispatch_requests. */
    method ServeOne(q: nat, late: bool)
      requires Valid() && q in queues && queues[q].sorted != []
      modifies this`queues, this`tree, this`left, this`busy, this`dispatch, this`syncFlight
      ensures Valid() && q in queues && queues == old(queues)[q := queues[q]]
      ensures var x := old(queues[q]); var r := Pick(x, true, late);
        && r in x.sorted && (forall p :: p in x.sorted ==> p in x.sector && p in x.info)
        && queues[q] == Left(head, x.(fifoChecked := true), r) && dispatch == old(dispatch) + [Sent(q, r)]
      ensures |queues[q].sorted| == |old(queues[q].sorted)| - 1
      ensures queues[q].sync == old(queues[q].sync) && syncFlight == old(syncFlight) + Flight(old(queues[q]), 1)
      ensures Drained(old(queues), old(dispatch), queues, dispatch)
    {
      hide Inv, TreeInv, Drained, Left, Pick;
      ghost var q0, d0 := queues, dispatch;
      InvKnown(queues[q]);
      var r := PickRequest(q, late);
      ghost var q1 := queues;
      DrainedSame(q0, q1, d0);
      SetTwice(q0, q, q1[q], Left(head, q1[q], r));
      SendOne(q, r);
      DrainedTrans(q0, d0, q1, d0, queues, dispatch);
    }

    /** The loop of __cfq_dispatch_requests: at least one request of `q` and at most `max`. The first one is the
        oldest, if that is late and was not looked at in this slice; every other is next_rq. */
    method DispatchRound(q: nat, max: nat, late: bool) returns (n: nat)
      requires Valid() && q in queues && queues[q].sorted != []
      modifies this`queues, this`tree, this`left, this`busy, this`dispatch, this`syncFlight
      ensures Valid() && q in queues && queues == old(queues)[q := queues[q]]
      ensures n == RoundLength(old(queues[q]), max)
      ensures n + |queues[q].sorted| == |old(queues[q].sorted)|
      ensures syncFlight == old(syncFlight) + Flight(old(queues[q]), n)
      ensures (dispatch, queues[q]) == Sofar(old(dispatch), q, Round(head, old(queues[q]), true, late, n))
      ensures Drained(old(queues), old(dispatch), queues, dispatch)
    {
      hide Inv, TreeInv, Drained, Round, Left, Sends, Pick;
      ghost var q0, d0 := queues, dispatch;
      DrainedNone(queues, dispatch);
      n := 0;
      RoundNone(head, q0[q], true, late, q);
      assert dispatch == dispatch + [];
      while n == 0 || (queues[q].sorted != [] && n < max)
        invariant Valid() && q in queues && queues == q0[q := queues[q]] && n + |queues[q].sorted| == |q0[q].sorted|
        invariant (dispatch, queues[q]) == Sofar(d0, q, Round(head, q0[q], true, late, n))
        invariant Drained(q0, d0, queues, dispatch) && (n <= 1 || n <= max)
        invariant queues[q].sync == q0[q].sync && syncFlight == old(syncFlight) + Flight(q0[q], n)
        decreases |queues[q].sorted|
      {
        RoundStep(head, q0[q], true, late, n, d0, q);
        ghost var q1, d1 := queues, dispatch;
        ServeOne(q, late);
        n := n + 1;
        DrainedTrans(q0, d0, q1, d1, queues, dispatch);
        SetTwice(q0, q, q1[q], queues[q]);
      }
    }

    /** Why no queue is selected. */
    ghost predicate Unserved()
      reads this
    {
      || tree == []
      || (active.Some? && active.value in queues && queues[active.value].sorted == [])
      || (tree[0] in queues && queues[tree[0]].idle)
    }

    /** A queue with requests that has to wait. */
    ghost predicate Waits(q: nat, quantum: nat)
      reads this
    {
      && q in queues && queues[q].sorted != []
      && Throttled(queues[q], busy, syncFlight, if queues[q].idle then 1 else quantum)
    }

    /** __cfq_dispatch_requests: a round, after which an async queue that used its share and an idle queue make
        way for others. */
    method ServeQueue(q: nat, max: nat, key: int, c: Clock, ghost keys: seq<nat>) returns (n: nat)
      requires Valid() && q in queues && queues[q].sorted != []
      modifies this
      ensures Valid() && queues.Keys == old(queues).Keys && Drained(old(queues), old(dispatch), queues, dispatch)
      ensures n == RoundLength(old(queues[q]), max)
      ensures dispatch == old(dispatch) + Sends(q, Round(old(head), old(queues[q]), true, c.late, n).0)
      ensures |dispatch| == |old(dispatch)| + n && head == old(head)
      ensures active == if busy > 1 && (old(queues[q].idle) || (!old(queues[q].sync) && n >= c.share)) then None
                        else old(active)
      ensures var qs := old(queues)[q := Round(old(head), old(queues[q]), true, c.late, n).1];
              queues == if active == old(active) then qs else Aged(qs, old(active), key)
      ensures syncFlight == old(syncFlight) + Flight(old(queues[q]), n)
      ensures (forall k :: k in keys <==> k in queues) ==>
                (forall k :: k in keys ==> k in old(queues)) && SumOver(keys, queues) < SumOver(keys, old(queues))
    {
      hide Inv, Drained, SumOver, Round, Sends, InOrder;
      ghost var q0, d0 := queues, dispatch;
      n := DispatchRound(q, max, c.late);
      SendsLength(q, Round(head, q0[q], true, c.late, n).0);
      RoundKeeps(head, q0[q], true, c.late, n);
      ghost var q1, d1 := queues, dispatch;
      if busy > 1 && ((!queues[q].sync && n >= c.share) || queues[q].idle) {
        SliceExpired(key);
      }
      DrainedSame(q1, queues, dispatch);
      DrainedTrans(q0, d0, q1, d1, queues, dispatch);
      if forall k :: k in keys <==> k in queues {
        SumLess(keys, q0, q1, q);
        SumSame(keys, q1, queues);
      }
    }

    /** The rest of a turn of the dispatch loop: the queue selected is served unless it has to wait. */
    method ServeSelected(q: nat, quantum: nat, key: int, c: Clock, ghost keys: seq<nat>) returns (n: nat)
      requires Valid() && q in queues && queues[q].sorted != []
      modifies this
      ensures Valid() && queues.Keys == old(queues).Keys && Drained(old(queues), old(dispatch), queues, dispatch)
      ensures n == 0 <==> old(Waits(q, quantum))
      ensures n == 0 ==>
                queues == old(queues) && dispatch == old(dispatch) && active == old(active) && Waits(q, quantum)
      ensures n > 0 ==>
                && n == RoundLength(old(queues[q]), if old(queues[q].idle) then 1 else quantum)
                && dispatch == old(dispatch) + Sends(q, Round(old(head), old(queues[q]), true, c.late, n).0)
      ensures n > 0 && (forall k :: k in keys <==> k in queues) ==>
                (forall k :: k in keys ==> k in old(queues)) && SumOver(keys, queues) < SumOver(keys, old(queues))
      ensures |dispatch| == |old(dispatch)| + n
    {
      hide Inv, Drained, SumOver, InOrder, Round, Sends;
      var x := queues[q];
      var max := if x.idle then 1 else quantum;
      if x.dispatched >= max {
        if busy > 1 {
          DrainedNone(queues, dispatch);
          return 0;
        }
        if x.dispatched >= 4 * max {
          DrainedNone(queues, dispatch);
          return 0;
        }
      }
      if syncFlight != 0 && !x.sync {
        DrainedNone(queues, dispatch);
        return 0;
      }
      n := ServeQueue(q, max, key, c, keys);
    }

    /** One turn of the dispatch loop: queue `q` is selected and served unless it has to wait. */
    method Turn(quantum: nat, key: int, c: Clock, ghost keys: seq<nat>) returns (n: nat, q: Option<nat>)
      requires Valid() && forall k :: k in keys <==> k in queues
      modifies this
      ensures Valid() && queues.Keys == old(queues).Keys && Drained(old(queues), old(dispatch), queues, dispatch)
      ensures Picks(old(queues), old(active), key, c.sliceUsed, c.idling, c.grace, q)
      ensures n == 0 ==> queues == Selected(old(queues), old(active), key, c.sliceUsed, c.idling, q)
      ensures n == 0 ==> dispatch == old(dispatch) && if q.Some? then Waits(q.value, quantum) else Unserved()
      ensures n > 0 ==> Served(old(head), Selected(old(queues), old(active), key, c.sliceUsed, c.idling, q), q, c.late,
                               quantum, old(busy), old(syncFlight), n, old(dispatch), dispatch)
      ensures n > 0 ==> SumOver(keys, queues) < SumOver(keys, old(queues))
      ensures n == 0 ==> SumOver(keys, queues) == SumOver(keys, old(queues))
      ensures |dispatch| == |old(dispatch)| + n && old(dispatch) <= dispatch
      ensures n > 0 ==> q == Some(dispatch[|old(dispatch)|].queue)
    {
      hide Inv, Drained, SumOver, InOrder, Round, Sends, Picks, Selected, Throttled;
      ghost var q0, d0, a0 := queues, dispatch, active;
      n := 0;
      q := SelectQueue(key, c.sliceUsed, c.idling, c.grace);
      SelectedRekeyed(q0, a0, key, c.sliceUsed, c.idling, q);
      DrainedSame(q0, queues, dispatch);
      SumSame(keys, q0, queues);
      if q.Some? {
        ghost var q1, d1 := queues, dispatch;
        n := ServeSelected(q.value, quantum, key, c, keys);
        DrainedTrans(q0, d0, q1, d1, queues, dispatch);
      }
    }

    /** cfq_dispatch_requests without force: queues are served until none is selected or the selected one,
        `held`, has to wait. None is selected only if no queue has requests, an empty one is waited for or
        only the idle class has requests. */
    method DispatchRequests(quantum: nat, key: int, clock: nat -> Clock) returns (n: nat, held: Option<nat>)
      requires Valid()
      modifies this
      ensures Valid() && Drained(old(queues), old(dispatch), queues, dispatch)
      ensures |dispatch| == |old(dispatch)| + n && old(dispatch) <= dispatch
      ensures n > 0 ==>
                Picks(old(queues), old(active), key, clock(0).sliceUsed, clock(0).idling, clock(0).grace,
                      Some(dispatch[|old(dispatch)|].queue))
      ensures if held.Some? then Waits(held.value, quantum) else Unserved()
      ensures n == 0 ==>
                queues.Keys == old(queues).Keys && forall q :: q in queues ==> Rekeyed(old(queues[q]), queues[q])
    {
      hide Inv, Drained, SumOver, Waits, Rekeyed, Picks, Selected, Served;
      ghost var q0, d0 := queues, dispatch;
      DrainedNone(queues, dispatch);
      RekeyedSame(queues);
      n, held := 0, None;
      ghost var keys := Listed(queues.Keys);
      var stop := busy == 0;
      var turn := 0;
      while !stop
        invariant Valid() && queues.Keys == q0.Keys && Drained(q0, d0, queues, dispatch) && |dispatch| == |d0| + n
        invariant d0 <= dispatch && forall k :: k in keys <==> k in queues
        invariant turn == 0 ==> queues == q0 && dispatch == d0 && active == old(active)
        invariant n == 0 <==> turn == 0 || (turn == 1 && stop)
        invariant n > 0 ==>
                    Picks(q0, old(active), key, clock(0).sliceUsed, clock(0).idling, clock(0).grace,
                          Some(dispatch[|d0|].queue))
        invariant stop ==> if held.Some? then Waits(held.value, quantum) else Unserved()
        invariant n == 0 ==> forall q :: q in queues ==> Rekeyed(q0[q], queues[q])
        decreases SumOver(keys, queues), !stop
      {
        ghost var q1, d1, a1 := queues, dispatch, active;
        var c := clock(turn);
        var k;
        k, held := Turn(quantum, key, c, keys);
        DrainedTrans(q0, d0, q1, d1, queues, dispatch);
        SelectedRekeyed(q1, a1, key, c.sliceUsed, c.idling, held);
        if n == 0 && k == 0 { RekeyedTrans(q0, q1, queues); }
        n := n + k;
        turn := turn + 1;
        stop := k == 0;
      }
    }

    lemma AllEmpty()
      requires Valid() && tree == []
      ensures forall q :: q in queues ==> queues[q].sorted == [] && queues[q].fifo == [] && queues[q].next == None
    {
      forall q | q in queues
        ensures queues[q].sorted == [] && queues[q].fifo == [] && queues[q].next == None
      {
        assert q !in tree;
        InvFacts(queues[q]);
      }
    }
  }

  /** How many sync requests are among `n` of queue `x`. */
  ghost function Flight(x: Queue, n: int): int { if x.sync then n else 0 }

  /** A queue that has to wait: it has enough in flight, or it is async beside sync requests in flight. */
  ghost predicate Throttled(x: Queue, busy: int, syncFlight: int, max: nat) {
    || (x.dispatched >= max && (busy > 1 || x.dispatched >= 4 * max))
    || (syncFlight != 0 && !x.sync)
  }

  /** A round sends at most `max` requests, but one at least. */
  ghost function RoundLength(x: Queue, max: nat): (n: nat)
    requires x.sorted != []
    ensures 0 < n <= |x.sorted|
  {
    if |x.sorted| <= max then |x.sorted| else if max == 0 then 1 else max
  }

  /** Queue `q` did not have to wait and a round of it was sent. */
  ghost predicate Served(h: Head, qs: map<nat, Queue>, q: Option<nat>, late: bool, quantum: nat, busy: int,
                         syncFlight: int, n: nat, d: seq<Sent>, d': seq<Sent>)
  {
    && q.Some? && q.value in qs && Inv(qs[q.value]) && qs[q.value].sorted != []
    && var x := qs[q.value];
    var max := if x.idle then 1 else quantum;
    && !Throttled(x, busy, syncFlight, max) && n == RoundLength(x, max)
    && d' == d + Sends(q.value, Round(h, x, true, late, n).0)
  }

  /** The queues after the slice of the active one ended: it has a new key if it is on the round robin. */
  ghost function Aged(qs: map<nat, Queue>, active: Option<nat>, key: int): map<nat, Queue> {
    if active.Some? && active.value in qs && qs[active.value].onRr
    then qs[active.value := qs[active.value].(key := key)] else qs
  }

  /** The active queue is not given up: it has requests or is waited for, and its slice is not over. */
  ghost predicate Stays(qs: map<nat, Queue>, active: Option<nat>, sliceUsed: bool, idling: bool) {
    active.Some? && !sliceUsed && active.value in qs && (qs[active.value].sorted != [] || idling)
  }

  /** On the round robin, and no other queue there is to be served before it. */
  ghost predicate First(qs: map<nat, Queue>, q: nat) {
    q in qs && qs[q].onRr && forall p :: p in qs && qs[p].onRr ==> !Sooner(qs[p], qs[q])
  }

  /** Which queue is selected. The active one goes on while it has requests and time, and no queue is selected
      while it is waited for. Otherwise it is one that is first after the active one was sorted in again, unless
      there is none or it is of the idle class and has to wait. */
  ghost predicate Picks(qs: map<nat, Queue>, active: Option<nat>, key: int, sliceUsed: bool, idling: bool, grace: bool,
                        q: Option<nat>)
  {
    if Stays(qs, active, sliceUsed, idling) then q == if qs[active.value].sorted != [] then active else None
    else
      var qs' := Aged(qs, active, key);
      match q
      case Some(p) => First(qs', p) && !(qs'[p].idle && grace)
      case None => (forall p :: p in qs' ==> !qs'[p].onRr) || (grace && exists p :: First(qs', p) && qs'[p].idle)
  }

  /** The queues after `q` was selected: a new slice begins with a look at the fifo. */
  ghost function Selected(qs: map<nat, Queue>, active: Option<nat>, key: int, sliceUsed: bool, idling: bool,
                          q: Option<nat>): map<nat, Queue>
  {
    if Stays(qs, active, sliceUsed, idling) then qs
    else
      var qs' := Aged(qs, active, key);
      if q.Some? && q.value in qs' then qs'[q.value := qs'[q.value].(fifoChecked := false)] else qs'
  }

  lemma SelectedRekeyed(qs: map<nat, Queue>, active: Option<nat>, key: int, sliceUsed: bool, idling: bool,
                        q: Option<nat>)
    ensures var qs' := Selected(qs, active, key, sliceUsed, idling, q);
      qs'.Keys == qs.Keys && forall p :: p in qs ==> Rekeyed(qs[p], qs'[p])
  {
    var qs' := Aged(qs, active, key);
    if active.Some? && active.value in qs { PutRekeyed(qs, active.value, qs[active.value].(key := key)); }
    if q.Some? && q.value in qs' { PutRekeyed(qs', q.value, qs'[q.value].(fifoChecked := false)); }
    hide Rekeyed;
    RekeyedSame(qs);
    RekeyedSame(qs');
    RekeyedTrans(qs, qs', Selected(qs, active, key, sliceUsed, idling, q));
  }

  lemma PutRekeyed(qs: map<nat, Queue>, p: nat, x: Queue)
    requires p in qs && Rekeyed(qs[p], x)
    ensures qs[p := x].Keys == qs.Keys && forall k :: k in qs ==> Rekeyed(qs[k], qs[p := x][k])
  {}

  /** Only the key and the mark of the fifo check may differ. */
  ghost predicate Rekeyed(x: Queue, y: Queue) { y == x.(key := y.key, fifoChecked := y.fifoChecked) }

  lemma RekeyedSame(qs: map<nat, Queue>)
    ensures forall p :: p in qs ==> Rekeyed(qs[p], qs[p])
  {}

  lemma RekeyedTrans(q0: map<nat, Queue>, q1: map<nat, Queue>, q2: map<nat, Queue>)
    requires q0.Keys == q1.Keys == q2.Keys
    requires forall p :: p in q0 ==> Rekeyed(q0[p], q1[p])
    requires forall p :: p in q1 ==> Rekeyed(q1[p], q2[p])
    ensures forall p :: p in q0 ==> Rekeyed(q0[p], q2[p])
  {}

  lemma PartChecked(q: Queue, b: bool)
    requires Part(q, None)
    ensures Part(q.(fifoChecked := b), None)
  {}

  // Which requests a round sends

  /** What the code finds out from the clock in one turn of the dispatch loop. */
  datatype Clock = Clock(sliceUsed: bool, idling: bool, grace: bool, late: bool, share: nat)

  function Pick(x: Queue, check: bool, late: bool): nat
    requires x.fifo != [] && x.next.Some?
  {
    if check && late && !x.fifoChecked then x.fifo[0] else x.next.value
  }

  /** The requests that `n` turns send and the queue after them; `check`: the fifo is looked at. */
  ghost function Round(h: Head, x: Queue, check: bool, late: bool, n: nat): (r: (seq<nat>, Queue))
    requires Inv(x) && n <= |x.sorted|
    ensures |r.0| == n && Inv(r.1) && |r.1.sorted| == |x.sorted| - n
  {
    if n == 0 then ([], x)
    else
      var (sent, y) := Round(h, x, check, late, n - 1);
      InvFacts(y);
      PartKnown(y, None);
      var z := y.(fifoChecked := y.fifoChecked || check);
      LeftInv(h, z, Pick(y, check, late));
      (sent + [Pick(y, check, late)], Left(h, z, Pick(y, check, late)))
  }

  lemma LeftFrom(h: Head, q: Queue, r: nat, x: Option<nat>, t: Queue)
    requires Part(q, x) && r in q.sorted && forall y :: y in q.sorted ==> y in q.sector && y in q.info
    requires t == Take(h, q, r).(onRr := q.onRr && t.sorted != [])
    ensures var u := t.(dispatched := t.dispatched + 1); u == Left(h, q, r) && u.sync == q.sync && SamePlace(t, u)
  {
    hide Part, Take, Erase;
    TakeKnown(h, q, r, x);
  }

  lemma LeftKeeps(h: Head, q: Queue, r: nat, x: Option<nat>)
    requires Part(q, x) && r in q.sorted
    ensures forall y :: y in q.sorted ==> y in q.sector && y in q.info
    ensures var t := Left(h, q, r);
      && t.sorted == Erase(q.sorted, r) && t.sector == q.sector && t.info == q.info && t.fifoChecked == q.fifoChecked
      && t.sync == q.sync && t.rt == q.rt && t.idle == q.idle && t.key == q.key
  {
    hide Part, Take;
    TakeKnown(h, q, r, x);
  }

  lemma LeftInv(h: Head, q: Queue, r: nat)
    requires Inv(q) && r in q.sorted
    ensures forall x :: x in q.sorted ==> x in q.sector && x in q.info
    ensures Inv(Left(h, q, r)) && |Left(h, q, r).sorted| == |q.sorted| - 1
  {
    hide Part, Take;
    PartKnown(q, None);
    TakePart(h, q, r, None);
    TakeKnown(h, q, r, None);
    EraseNoDup(q.sorted, r);
    var t := Take(h, q, r);
    PartFlag(t, None, q.onRr && t.sorted != []);
    PartDispatched(t.(onRr := q.onRr && t.sorted != []), None, q.dispatched + 1);
  }

  ghost function Sends(q: nat, rs: seq<nat>): (d: seq<Sent>)
    ensures |d| == |rs| && forall i :: 0 <= i < |d| ==> d[i] == Sent(q, rs[i])
  {
    seq(|rs|, i requires 0 <= i < |rs| => Sent(q, rs[i]))
  }

  /** The dispatch list and the queue after a part of a round. */
  ghost function Sofar(d: seq<Sent>, q: nat, r: (seq<nat>, Queue)): (seq<Sent>, Queue) { (d + Sends(q, r.0), r.1) }

  lemma SendsLength(q: nat, rs: seq<nat>)
    ensures |Sends(q, rs)| == |rs|
  {}

  lemma RoundNone(h: Head, x: Queue, check: bool, late: bool, q: nat)
    requires Inv(x)
    ensures Round(h, x, check, late, 0) == ([], x) && Sends(q, []) == []
  {}

  lemma RoundStep(h: Head, x: Queue, check: bool, late: bool, n: nat, d: seq<Sent>, q: nat)
    requires Inv(x) && n < |x.sorted|
    ensures var (sent, y) := Round(h, x, check, late, n);
      && y.fifo != [] && y.next.Some?
      && var r, z := Pick(y, check, late), y.(fifoChecked := y.fifoChecked || check);
      && r in z.sorted && (forall p :: p in z.sorted ==> p in z.sector && p in z.info)
      && Sofar(d, q, Round(h, x, check, late, n + 1)) == (d + Sends(q, sent) + [Sent(q, r)], Left(h, z, r))
  {
    hide Part, Left;
    var (sent, y) := Round(h, x, check, late, n);
    InvFacts(y);
    PartKnown(y, None);
    var r := Pick(y, check, late);
    assert Sends(q, sent + [r]) == Sends(q, sent) + [Sent(q, r)];
    assert d + (Sends(q, sent) + [Sent(q, r)]) == d + Sends(q, sent) + [Sent(q, r)];
  }

  lemma RoundTurn(h: Head, x: Queue, check: bool, late: bool, n: nat)
    requires Inv(x) && 0 < n <= |x.sorted|
    ensures var y, z := Round(h, x, check, late, n - 1).1, Round(h, x, check, late, n).1;
      && z.sync == y.sync && z.idle == y.idle && z.rt == y.rt && z.key == y.key
      && z.fifoChecked == (y.fifoChecked || check)
  {
    hide Inv, Left, Round, Pick, Sends;
    RoundStep(h, x, check, late, n - 1, [], 0);
    var y := Round(h, x, check, late, n - 1).1;
    LeftClass(h, y.(fifoChecked := y.fifoChecked || check), Pick(y, check, late));
  }

  lemma LeftClass(h: Head, q: Queue, r: nat)
    requires r in q.sorted && forall x :: x in q.sorted ==> x in q.sector && x in q.info
    ensures var t := Left(h, q, r);
      t.sync == q.sync && t.rt == q.rt && t.idle == q.idle && t.key == q.key && t.fifoChecked == q.fifoChecked
  {
    hide Erase, FindNext;
  }

  lemma {:induction false} RoundKeeps(h: Head, x: Queue, check: bool, late: bool, n: nat)
    requires Inv(x) && n <= |x.sorted|
    ensures var y := Round(h, x, check, late, n).1;
      y.sync == x.sync && y.idle == x.idle && y.rt == x.rt && y.key == x.key
    ensures n > 0 && check ==> Round(h, x, check, late, n).1.fifoChecked
  {
    hide Inv, Round;
    if n > 0 {
      RoundKeeps(h, x, check, late, n - 1);
      RoundTurn(h, x, check, late, n);
    } else {
      RoundNone(h, x, check, late, 0);
    }
  }

  /** Only the first request of a round can be the oldest for being late; each other one is next_rq at its turn. */
  lemma RoundOrder(h: Head, x: Queue, late: bool, i: nat, n: nat)
    requires Inv(x) && i < n <= |x.sorted|
    ensures x.fifo != [] && x.next.Some? && Round(h, x, true, late, i).1.next.Some?
    ensures Round(h, x, true, late, n).0[i]
            == if i == 0 && late && !x.fifoChecked then x.fifo[0] else Round(h, x, true, late, i).1.next.value
    decreases n
  {
    hide Part, Left;
    InvFacts(x);
    var y := Round(h, x, true, late, i).1;
    InvFacts(y);
    if n > i + 1 {
      RoundOrder(h, x, late, i, n - 1);
    } else {
      RoundKeeps(h, x, true, late, i);
    }
  }

  // Putting a request at its place

  /** The queue without the request that starts where `r` does, if there is one. */
  ghost function NoAlias(h: Head, x: Queue, r: nat): Queue
    requires Part(x, Some(r))
  {
    PartKnown(x, Some(r));
    var i := FindSector(x.sorted, x.sector, x.sector[r]);
    if i < |x.sorted| then Left(h, x, x.sorted[i]) else x
  }

  ghost function AliasSent(x: Queue, r: nat, q: nat): seq<Sent>
    requires Part(x, Some(r))
  {
    PartKnown(x, Some(r));
    var i := FindSector(x.sorted, x.sector, x.sector[r]);
    if i < |x.sorted| then [Sent(q, x.sorted[i])] else []
  }

  /** No other request starts there. */
  lemma OneAlias(h: Head, x: Queue, r: nat, i: nat)
    requires Part(x, Some(r)) && i < |x.sorted| && x.sector[x.sorted[i]] == x.sector[r]
    requires i == FindSector(x.sorted, x.sector, x.sector[r])
    ensures var s := Left(h, x, x.sorted[i]).sorted; forall p :: p in s ==> x.sector[p] != x.sector[r]
  {
    hide FindNext, Count, FindSector;
    OrderedNoDup(x.sorted, x.sector);
    EraseNoDup(x.sorted, x.sorted[i]);
  }

  lemma NoAliasPart(h: Head, x: Queue, r: nat)
    requires Part(x, Some(r))
    ensures Part(NoAlias(h, x, r), Some(r))
  {
    hide Part, FindSector, Take;
    PartKnown(x, Some(r));
    var i := FindSector(x.sorted, x.sector, x.sector[r]);
    if i < |x.sorted| {
      var a := x.sorted[i];
      TakePart(h, x, a, Some(r));
      var t := Take(h, x, a);
      PartFlag(t, Some(r), x.onRr && t.sorted != []);
      PartDispatched(t.(onRr := x.onRr && t.sorted != []), Some(r), x.dispatched + 1);
    }
  }

  /** The queue once `r`, which was off the sort list, is at its place. */
  ghost function Placed(h: Head, x: Queue, r: nat, key: int): Queue
    requires Part(x, Some(r))
  {
    NoAliasPart(h, x, r);
    var y := NoAlias(h, x, r);
    PartKnown(y, Some(r));
    var z := Attach(h, y, r);
    if z.onRr then z else z.(onRr := true, key := key)
  }

  lemma InvKnown(q: Queue)
    requires Inv(q)
    ensures forall x :: x in q.sorted ==> x in q.sector && x in q.info
    ensures q.sorted != [] ==> q.fifo != [] && q.next.Some? && q.fifo[0] in q.sorted && q.next.value in q.sorted
  {
    InvFacts(q);
    PartKnown(q, None);
  }

  lemma OffTree(q: Queue)
    requires Inv(q) && q.sorted == []
    ensures !q.onRr
  {}

  predicate SamePlace(x: Queue, y: Queue) {
    x.onRr == y.onRr && x.rt == y.rt && x.idle == y.idle && x.key == y.key
  }

  lemma SetTwice(qs: map<nat, Queue>, q: nat, x: Queue, y: Queue)
    ensures qs[q := x][q := y] == qs[q := y]
  {}

  lemma NewQueue(sync: bool, rt: bool, idle: bool)
    ensures Inv(Queue([], [], map[], map[], None, false, 0, 0, 0, 0, sync, rt, idle, 0, false))
  {}

  lemma TakePlacePart(q: Queue, a: nat, b: nat)
    requires Part(q, None)
    ensures Part(q.(fifo := TakePlace(q.fifo, a, b)), None)
  {
    hide TakePlace;
    TakePlaceMultiset(q.fifo, a, b);
  }

  lemma TakeKnown(h: Head, q: Queue, r: nat, x: Option<nat>)
    requires Part(q, x) && r in q.sorted
    ensures forall y :: y in q.sorted ==> y in q.sector && y in q.info
    ensures var t := Take(h, q, r);
            t == q.(sorted := Erase(q.sorted, r), fifo := t.fifo, next := t.next,
                    queuedSync := t.queuedSync, queuedAsync := t.queuedAsync, metaPending := t.metaPending)
  {
    hide Erase, FindNext;
  }

  lemma PartKnown(q: Queue, x: Option<nat>)
    requires Part(q, x)
    ensures (forall y :: y in q.sorted ==> y in q.sector && y in q.info) && NoDup(q.sorted)
    ensures (q.next.Some? ==> Known(q, q.next.value)) && (x.Some? ==> Known(q, x.value))
  {
    OrderedNoDup(q.sorted, q.sector);
  }

  lemma PartFlag(q: Queue, x: Option<nat>, on: bool)
    requires Part(q, x)
    ensures Part(q.(onRr := on), x)
  {}

  lemma PartKey(q: Queue, key: int)
    requires Part(q, None)
    ensures Part(q.(key := key), None)
  {}

  lemma PartDispatched(q: Queue, x: Option<nat>, d: nat)
    requires Part(q, x)
    ensures Part(q.(dispatched := d), x)
  {}

  lemma AttachMember(h: Head, q: Queue, r: nat)
    requires Known(q, r) && (forall x :: x in q.sorted ==> x in q.sector && x in q.info)
    requires q.next.Some? ==> Known(q, q.next.value)
    ensures r in Attach(h, q, r).sorted && Attach(h, q, r).onRr == q.onRr && Attach(h, q, r).sector == q.sector
    ensures var t := Attach(h, q, r); t.rt == q.rt && t.idle == q.idle && t.key == q.key
    ensures multiset(Attach(h, q, r).sorted) == multiset(q.sorted) + multiset{r}
  {
    InsertMembers(q.sorted, q.sector, r);
  }

  // Conservation

  function SentBy(d: seq<Sent>, q: nat): multiset<nat> {
    if d == [] then multiset{}
    else SentBy(d[..|d| - 1], q) + if d[|d| - 1].queue == q then multiset{d[|d| - 1].rq} else multiset{}
  }

  /** The requests of queue `q`, pending or sent. */
  ghost function Held(x: Queue, d: seq<Sent>, q: nat): multiset<nat> { SentBy(d, q) + multiset(x.sorted) }

  /** What left a queue went to the dispatch list, each request once. */
  ghost predicate Drained(q0: map<nat, Queue>, d0: seq<Sent>, q1: map<nat, Queue>, d1: seq<Sent>) {
    && q1.Keys == q0.Keys
    && forall q {:trigger SentBy(d1, q)} :: q in q0 ==>
      SentBy(d1, q) + multiset(q1[q].sorted) == SentBy(d0, q) + multiset(q0[q].sorted)
  }

  lemma HeldDrained(q0: map<nat, Queue>, d0: seq<Sent>, q1: map<nat, Queue>, d1: seq<Sent>, q: nat)
    requires Drained(q0, d0, q1, d1) && q in q0
    ensures q in q1 && Held(q1[q], d1, q) == Held(q0[q], d0, q)
  {
    hide SentBy;
    assert SentBy(d1, q) + multiset(q1[q].sorted) == SentBy(d0, q) + multiset(q0[q].sorted);
  }

  lemma HeldMore(x: Queue, y: Queue, d: seq<Sent>, q: nat, r: nat)
    requires multiset(y.sorted) == multiset(x.sorted) + multiset{r}
    ensures Held(y, d, q) == Held(x, d, q) + multiset{r}
  {}

  /** A request off the sort list at its new place, the rest of the queue as it was. */
  lemma Detached(x: Queue, r: nat, sector: nat, d: seq<Sent>, q: nat)
    requires Part(x, None) && r in x.sorted
    ensures r in x.info
    ensures var y := Moved(Unsort(x, r), r, sector);
            && Part(y, Some(r)) && y.onRr == x.onRr && Held(y, d, q) + multiset{r} == Held(x, d, q)
            && y.sector == x.sector[r := sector]
            && y.sync == x.sync && y.rt == x.rt && y.idle == x.idle && y.key == x.key
  {
    hide Part, Erase;
    PartKnown(x, None);
    DetachPart(x, r);
    MovedPart(Unsort(x, r), r, sector);
    EraseMultiset(x.sorted, r);
    assert r in multiset(x.sorted);
    HeldMore(Moved(Unsort(x, r), r, sector), x, d, q, r);
  }

  lemma HeldSame(x: Queue, y: Queue, d: seq<Sent>, q: nat)
    requires y.sorted == x.sorted
    ensures Held(y, d, q) == Held(x, d, q)
  {}

  lemma DrainedNone(q: map<nat, Queue>, d: seq<Sent>)
    ensures Drained(q, d, q, d)
  {}

  lemma DrainedSame(q: map<nat, Queue>, q': map<nat, Queue>, d: seq<Sent>)
    requires q'.Keys == q.Keys && forall p :: p in q ==> q'[p].sorted == q[p].sorted
    ensures Drained(q, d, q', d)
  {}

  lemma DrainedTrans(q0: map<nat, Queue>, d0: seq<Sent>, q1: map<nat, Queue>, d1: seq<Sent>, q2: map<nat, Queue>,
                     d2: seq<Sent>)
    requires Drained(q0, d0, q1, d1) && Drained(q1, d1, q2, d2)
    ensures Drained(q0, d0, q2, d2)
  {
    forall q | q in q0
      ensures SentBy(d2, q) + multiset(q2[q].sorted) == SentBy(d0, q) + multiset(q0[q].sorted)
    {
      assert SentBy(d1, q) + multiset(q1[q].sorted) == SentBy(d0, q) + multiset(q0[q].sorted);
    }
  }

  lemma DrainedStep(q0: map<nat, Queue>, d0: seq<Sent>, q1: map<nat, Queue>, d1: seq<Sent>, q2: map<nat, Queue>,
                    d2: seq<Sent>, q: nat, r: nat)
    requires Drained(q0, d0, q1, d1) && q in q1 && q in q2 && q2 == q1[q := q2[q]] && r in q1[q].sorted
    requires q2[q].sorted == Erase(q1[q].sorted, r) && d2 == d1 + [Sent(q, r)]
    ensures Drained(q0, d0, q2, d2)
  {
    hide Erase;
    EraseMultiset(q1[q].sorted, r);
    assert r in multiset(q1[q].sorted);
    assert d2[..|d2| - 1] == d1;
    forall p | p in q1
      ensures SentBy(d2, p) + multiset(q2[p].sorted) == SentBy(d1, p) + multiset(q1[p].sorted)
    {}
    DrainedTrans(q0, d0, q1, d1, q2, d2);
  }

  /** A tree that lost a node and gained none is smaller. */
  lemma Fewer(t: seq<nat>, t': seq<nat>, r: nat)
    requires NoDup(t) && NoDup(t') && r in t && r !in t' && forall x :: x in t' ==> x in t
    ensures |t'| < |t|
  {
    var a, b := set x | x in t, set x | x in t';
    SetSize(t, a);
    SetSize(t', b);
    assert b <= a - {r};
    SubsetSize(b, a - {r});
  }

  lemma {:induction false} SetSize(s: seq<nat>, a: set<nat>)
    requires NoDup(s) && forall x :: x in s <==> x in a
    ensures |a| == |s|
  {
    if s != [] {
      assert s == [s[0]] + s[1..];
      forall x | x in a - {s[0]}
        ensures x in s[1..]
      {}
      SetSize(s[1..], a - {s[0]});
    } else {
      assert a == {};
    }
  }

  lemma {:induction false} SubsetSize(a: set<nat>, b: set<nat>)
    requires a <= b
    ensures |a| <= |b|
  {
    if a != {} {
      var x :| x in a;
      SubsetSize(a - {x}, b - {x});
    }
  }

  // Termination of the dispatch loop: the requests left, over the queues in some order

  ghost function SumOver(keys: seq<nat>, qs: map<nat, Queue>): nat
    requires forall k :: k in keys ==> k in qs
  {
    if keys == [] then 0 else |qs[keys[0]].sorted| + SumOver(keys[1..], qs)
  }

  ghost function Listed(s: set<nat>): (l: seq<nat>)
    ensures forall k :: k in l <==> k in s
  {
    if s == {} then [] else var x :| x in s; [x] + Listed(s - {x})
  }

  lemma {:induction false} SumMost(keys: seq<nat>, qs: map<nat, Queue>, qs': map<nat, Queue>)
    requires forall k :: k in keys ==> k in qs && k in qs' && |qs'[k].sorted| <= |qs[k].sorted|
    ensures SumOver(keys, qs') <= SumOver(keys, qs)
  {
    if keys != [] {
      SumMost(keys[1..], qs, qs');
    }
  }

  lemma SumSame(keys: seq<nat>, qs: map<nat, Queue>, qs': map<nat, Queue>)
    requires forall k :: k in keys ==> k in qs && k in qs' && |qs'[k].sorted| == |qs[k].sorted|
    ensures SumOver(keys, qs') == SumOver(keys, qs)
  {
    SumMost(keys, qs, qs');
    SumMost(keys, qs', qs);
  }

  lemma {:induction false} SumLess(keys: seq<nat>, qs: map<nat, Queue>, qs': map<nat, Queue>, q: nat)
    requires forall k :: k in keys ==> k in qs && k in qs' && |qs'[k].sorted| <= |qs[k].sorted|
    requires q in keys && |qs'[q].sorted| < |qs[q].sorted|
    ensures SumOver(keys, qs') < SumOver(keys, qs)
  {
    if keys[0] == q {
      SumMost(keys[1..], qs, qs');
    } else {
      SumLess(keys[1..], qs, qs', q);
    }
  }
}
