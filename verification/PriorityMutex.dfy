/** The hand-off lock with one first-in-first-out queue per priority. */
module PriorityMutex {
  import opened Options

  // A channel, by the order in which channels are made, and the priority its maker asked
  // for.
  datatype Waiter = Waiter(priority: int, chan: nat)

  // Priority to the channels waiting there, oldest first.
  type Queues = map<int, seq<Waiter>>

  // The priorities that Unlock looks at.
  const FIRST := 1
  const LAST := 10

  predicate Served(priority: int) {
    FIRST <= priority <= LAST
  }

  // Waiters stand in the queue of their priority, and no empty queue is kept.
  ghost predicate Tidy(q: Queues) {
    forall p :: p in q ==> q[p] != [] && forall w :: w in q[p] ==> w.priority == p
  }

  function QueueAt(q: Queues, p: int): seq<Waiter> {
    if p in q then q[p] else []
  }

  // The waiters that Unlock can see, in the order in which it will wake them.
  function RankedFrom(q: Queues, p: int): seq<Waiter>
    decreases LAST + 1 - p, |q|
  {
    if p > LAST then [] else QueueAt(q, p) + RankedFrom(q, p + 1)
  }

  function Ranked(q: Queues): seq<Waiter> {
    RankedFrom(q, FIRST)
  }

  lemma {:induction false} RankedMembers(q: Queues, p: int, w: Waiter)
    requires Tidy(q)
    ensures w in RankedFrom(q, p) <==> p <= w.priority <= LAST && Queued(q, w)
    decreases LAST + 1 - p
  {
    if p <= LAST {
      RankedMembers(q, p + 1, w);
      var here, later := QueueAt(q, p), RankedFrom(q, p + 1);
      assert w in here + later <==> w in here || w in later;
      assert w in here ==> w.priority == p;
    }
  }

  function Enqueue(q: Queues, w: Waiter): Queues {
    q[w.priority := QueueAt(q, w.priority) + [w]]
  }

  function Dequeue(q: Queues, p: int): Queues
    requires p in q && q[p] != []
  {
    if |q[p]| == 1 then q - {p} else q[p := q[p][1..]]
  }

  predicate Queued(q: Queues, w: Waiter) {
    w in QueueAt(q, w.priority)
  }

  lemma EnqueueMembers(q: Queues, w: Waiter, v: Waiter)
    ensures Queued(Enqueue(q, w), v) <==> Queued(q, v) || v == w
  {
  }

  lemma DequeueMembers(q: Queues, p: int, v: Waiter)
    requires p in q && q[p] != []
    ensures Queued(Dequeue(q, p), v) <==> if v.priority == p then v in q[p][1..] else Queued(q, v)
  {
  }

  // ----- The abstract queue: one list -----

  // w joins behind everybody of the same or a smaller number.
  function Insert(s: seq<Waiter>, w: Waiter): seq<Waiter> {
    if s == [] || s[0].priority > w.priority then [w] + s else [s[0]] + Insert(s[1..], w)
  }

  lemma {:induction false} InsertAppend(a: seq<Waiter>, s: seq<Waiter>, w: Waiter)
    requires forall v :: v in a ==> v.priority <= w.priority
    ensures Insert(a + s, w) == a + Insert(s, w)
  {
    if a == [] {
      assert a + s == s;
    } else {
      assert (a + s)[1..] == a[1..] + s;
      InsertAppend(a[1..], s, w);
      assert [a[0]] + (a[1..] + Insert(s, w)) == a + Insert(s, w);
    }
  }

  lemma {:induction false} Unseen(q: Queues, r: Queues, p: int)
    requires forall k :: p <= k <= LAST ==> QueueAt(q, k) == QueueAt(r, k)
    ensures RankedFrom(q, p) == RankedFrom(r, p)
    decreases LAST + 1 - p
  {
    if p <= LAST {
      Unseen(q, r, p + 1);
    }
  }

  lemma {:induction false} InsertBetween(a: seq<Waiter>, s: seq<Waiter>, w: Waiter)
    requires forall v :: v in a ==> v.priority <= w.priority
    requires forall v :: v in s ==> v.priority > w.priority
    ensures Insert(a + s, w) == (a + [w]) + s
  {
    InsertAppend(a, s, w);
    assert Insert(s, w) == [w] + s;
    assert a + ([w] + s) == (a + [w]) + s;
  }

  lemma {:induction false} EnqueueHere(q: Queues, w: Waiter)
    requires Tidy(q) && w.priority <= LAST
    ensures RankedFrom(Enqueue(q, w), w.priority) == Insert(RankedFrom(q, w.priority), w)
  {
    var p := w.priority;
    var here, later := QueueAt(q, p), RankedFrom(q, p + 1);
    forall v | v in later ensures v.priority > p {
      RankedMembers(q, p + 1, v);
    }
    InsertBetween(here, later, w);
    Unseen(q, Enqueue(q, w), p + 1);
  }

  // The map of lists refines the one list: a newcomer is inserted.
  lemma {:induction false} EnqueueInserts(q: Queues, w: Waiter, p: int)
    requires Tidy(q) && p <= w.priority <= LAST
    ensures RankedFrom(Enqueue(q, w), p) == Insert(RankedFrom(q, p), w)
    decreases LAST + 1 - p
  {
    if p == w.priority {
      EnqueueHere(q, w);
    } else {
      EnqueueInserts(q, w, p + 1);
      InsertAppend(QueueAt(q, p), RankedFrom(q, p + 1), w);
    }
  }

  // The newcomer is inserted if Unlock looks at its priority, and invisible otherwise.
  lemma {:induction false} EnqueueEffect(q: Queues, w: Waiter)
    requires Tidy(q)
    ensures Tidy(Enqueue(q, w))
    ensures Ranked(Enqueue(q, w)) == if 1 <= w.priority <= 10 then Insert(Ranked(q), w) else Ranked(q)
  {
    if Served(w.priority) {
      EnqueueInserts(q, w, FIRST);
    } else {
      Unseen(q, Enqueue(q, w), FIRST);
    }
  }

  // Waking the first waiter takes the head of the one list.
  lemma {:induction false} DequeueTakesHead(q: Queues, p: int)
    requires Tidy(q) && RankedFrom(q, p) != []
    ensures var w := RankedFrom(q, p)[0];
            && p <= w.priority <= LAST && w.priority in q && q[w.priority][0] == w
            && Tidy(Dequeue(q, w.priority))
            && RankedFrom(Dequeue(q, w.priority), p) == RankedFrom(q, p)[1..]
    decreases LAST + 1 - p
  {
    var here, later := QueueAt(q, p), RankedFrom(q, p + 1);
    if here == [] {
      assert here + later == later;
      DequeueTakesHead(q, p + 1);
    } else {
      Unseen(q, Dequeue(q, p), p + 1);
      assert (here + later)[1..] == here[1..] + later;
    }
  }

  // The same two facts for the whole list.
  lemma RankedHas(q: Queues, w: Waiter)
    requires Tidy(q)
    ensures w in Ranked(q) <==> 1 <= w.priority <= 10 && Queued(q, w)
  {
    RankedMembers(q, FIRST, w);
  }

  lemma HeadLeaves(q: Queues)
    requires Tidy(q) && Ranked(q) != []
    ensures var w := Ranked(q)[0];
            && Served(w.priority) && w.priority in q && q[w.priority][0] == w
            && Tidy(Dequeue(q, w.priority)) && Ranked(Dequeue(q, w.priority)) == Ranked(q)[1..]
  {
    DequeueTakesHead(q, FIRST);
  }

  lemma {:induction false} EmptyBetween(q: Queues, lo: int, hi: int)
    requires lo <= hi <= LAST + 1
    requires forall k :: lo <= k < hi ==> QueueAt(q, k) == []
    ensures RankedFrom(q, lo) == RankedFrom(q, hi)
    decreases hi - lo
  {
    if lo < hi {
      EmptyBetween(q, lo + 1, hi);
      assert [] + RankedFrom(q, lo + 1) == RankedFrom(q, lo + 1);
    }
  }

  lemma {:induction false} EmptyBelow(q: Queues, p: int)
    requires FIRST <= p <= LAST + 1
    requires forall k :: FIRST <= k < p ==> QueueAt(q, k) == []
    ensures Ranked(q) == RankedFrom(q, p)
  {
    EmptyBetween(q, FIRST, p);
  }

  // ----- The code -----

  class PriorityMutex {
    var isLocked: bool
    var waitQueue: Queues

    ghost predicate Valid()
      reads this
    {
      Tidy(waitQueue)
    }

    constructor ()
      ensures Valid() && !isLocked && waitQueue == map[]
    {
      isLocked, waitQueue := false, map[];
    }

    // The part of Lock that runs under the inner mutex.  When it does not acquire the
    // lock, the caller goes on to wait for its new channel ch to be closed.
    method Lock(priority: int, ch: nat) returns (acquired: bool)
      requires Valid()
      modifies this
      ensures Valid() && isLocked && acquired == !old(isLocked)
      ensures waitQueue == if acquired then old(waitQueue) else Enqueue(old(waitQueue), Waiter(priority, ch))
      ensures Ranked(waitQueue) == if !acquired && 1 <= priority <= 10 then
          Insert(old(Ranked(waitQueue)), Waiter(priority, ch))
                                   else old(Ranked(waitQueue))
    {
      EnqueueEffect(waitQueue, Waiter(priority, ch));
      if !isLocked {
        isLocked := true;
        return true;
      }
      if priority !in waitQueue {
        waitQueue := waitQueue[priority := []];
      }
      waitQueue := waitQueue[priority := waitQueue[priority] + [Waiter(priority, ch)]];
      return false;
    }

    // Hands the lock to the waiter whose channel is returned for closing, or frees it.
    method Unlock() returns (closing: Option<Waiter>)
      requires Valid()
      modifies this
      ensures Valid()
      // Free if and only if nobody waits at 1 to 10.
      ensures !isLocked <==> forall p :: 1 <= p <= 10 ==> QueueAt(old(waitQueue), p) == []
      // Otherwise it goes to the oldest waiter at the smallest number.
      ensures closing.Some? ==>
                var p := closing.value.priority;
                && 1 <= p <= 10 && old(QueueAt(waitQueue, p)) != [] && closing.value == old(QueueAt(waitQueue, p))[0]
                && forall k :: 1 <= k < p ==> old(QueueAt(waitQueue, k)) == []
      ensures if old(Ranked(waitQueue)) == [] then
                !isLocked && closing == None && waitQueue == old(waitQueue)
              else var w := old(Ranked(waitQueue))[0];
                && isLocked && closing == Some(w)
                && w.priority in old(waitQueue) && waitQueue == Dequeue(old(waitQueue), w.priority)
                && Ranked(waitQueue) == old(Ranked(waitQueue))[1..]
    {
      isLocked := false;
      for priority := FIRST to LAST + 1
        invariant !isLocked && waitQueue == old(waitQueue) && Valid()
        invariant forall k :: FIRST <= k < priority ==> QueueAt(waitQueue, k) == []
      {
        if priority in waitQueue && |waitQueue[priority]| > 0 {
          EmptyBelow(waitQueue, priority);
          HeadLeaves(waitQueue);
          var queue := waitQueue[priority];
          var ch := queue[0];
          queue := queue[1..];
          waitQueue := if |queue| == 0 then waitQueue - {priority} else waitQueue[priority := queue];
          isLocked := true;
          return Some(ch);
        }
      }
      EmptyBelow(waitQueue, LAST + 1);
      return None;
    }
  }
}
