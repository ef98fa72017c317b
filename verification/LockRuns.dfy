/** Any number of threads using one PriorityMutex, in every interleaving.

    Each step is one critical section of the inner mutex, or the wake-up of a thread whose
    channel has been closed.  Between the close and the wake-up a thread is still blocked,
    but the lock is already its own. */
module LockRuns {
  import opened PriorityMutex

  datatype Thread = Running | Blocked(waiter: Waiter) | Holding

  datatype State = State(
    isLocked: bool,
    queues: Queues,
    threads: map<nat, Thread>,
    maker: map<nat, nat>,  // which thread made each channel
    made: nat,             // how many channels have been made
    closed: set<nat>,
    doubleClose: bool)     // a closed channel has been closed again, which panics

  datatype Step = Lock(thread: nat, priority: int) | Wake(thread: nat) | Unlock(thread: nat)

  ghost predicate Initial(s: State) {
    && !s.isLocked && s.queues == map[] && s.maker == map[] && s.made == 0 && s.closed == {} && !s.doubleClose
    && forall t :: t in s.threads ==> s.threads[t] == Running
  }

  // Lock is called by a thread that does not hold the lock, Unlock by one that does.
  predicate Enabled(s: State, step: Step) {
    step.thread in s.threads &&
    match step
    case Lock(t, _) => s.threads[t].Running?
    case Wake(t) => s.threads[t].Blocked? && s.threads[t].waiter.chan in s.closed
    case Unlock(t) => s.threads[t].Holding?
  }

  function Apply(s: State, step: Step): State
    requires Enabled(s, step)
  {
    match step
    case Lock(t, priority) =>
      if !s.isLocked then s.(isLocked := true, threads := s.threads[t := Holding])
      else Park(s, t, Waiter(priority, s.made))
    case Wake(t) => s.(threads := s.threads[t := Holding])
    case Unlock(t) =>
      if Ranked(s.queues) == [] then s.(isLocked := false, threads := s.threads[t := Running])
      else HandOff(s, t, Ranked(s.queues)[0])
  }

  function Park(s: State, t: nat, w: Waiter): State {
    s.(queues := Enqueue(s.queues, w), threads := s.threads[t := Blocked(w)],
       maker := s.maker[w.chan := t], made := s.made + 1)
  }

  function HandOff(s: State, t: nat, w: Waiter): State {
    s.(threads := s.threads[t := Running],
       queues := if QueueAt(s.queues, w.priority) != [] then Dequeue(s.queues, w.priority) else s.queues,
       closed := s.closed + {w.chan}, doubleClose := s.doubleClose || w.chan in s.closed)
  }

  // The lock belongs to t: it runs with it, or has been handed it and will wake up.
  predicate Owns(s: State, t: nat) {
    t in s.threads &&
    (s.threads[t].Holding? || (s.threads[t].Blocked? && s.threads[t].waiter.chan in s.closed))
  }

  predicate Waits(s: State, t: nat) {
    t in s.threads && s.threads[t].Blocked? && s.threads[t].waiter.chan !in s.closed
  }

  // v was ranked before w: a smaller number, or the same number and an older channel.
  predicate Before(v: Waiter, w: Waiter) {
    v.priority < w.priority || (v.priority == w.priority && v.chan < w.chan)
  }

  ghost predicate Sorted(s: seq<Waiter>) {
    forall i, j :: 0 <= i < j < |s| ==> Before(s[i], s[j])
  }

  // ----- The invariant -----

  // Whoever stands in a queue is a thread blocked on an open channel of its own.
  ghost predicate QueuedAreBlocked(s: State) {
    forall w :: Queued(s.queues, w) ==>
      && w.chan in s.maker && w.chan !in s.closed
      && s.maker[w.chan] in s.threads && s.threads[s.maker[w.chan]] == Blocked(w)
  }

  // A blocked thread has its own channel, and stands in a queue until that is closed.
  ghost predicate BlockedAreQueued(s: State) {
    forall t :: t in s.threads && s.threads[t].Blocked? ==>
      var w := s.threads[t].waiter;
      w.chan in s.maker && s.maker[w.chan] == t && (w.chan in s.closed || Queued(s.queues, w))
  }

  ghost predicate ChannelsAreOld(s: State) {
    (forall c :: c in s.maker ==> c < s.made) && (forall c :: c in s.closed ==> c < s.made)
  }

  ghost predicate QueuesMatch(s: State) {
    && Tidy(s.queues) && Sorted(Ranked(s.queues))
    && QueuedAreBlocked(s) && BlockedAreQueued(s) && ChannelsAreOld(s)
  }

  ghost predicate OneOwner(s: State) {
    && (forall t, u :: Owns(s, t) && Owns(s, u) ==> t == u)
    && (s.isLocked <==> exists t :: Owns(s, t))
    && (!s.isLocked ==> Ranked(s.queues) == [])
    && !s.doubleClose
  }

  ghost predicate Inv(s: State) {
    QueuesMatch(s) && OneOwner(s)
  }

  lemma {:induction false} InsertMembers(s: seq<Waiter>, w: Waiter, v: Waiter)
    ensures v in Insert(s, w) <==> v in s || v == w
  {
    if s != [] {
      assert s == [s[0]] + s[1..];
      if s[0].priority <= w.priority {
        InsertMembers(s[1..], w, v);
      }
    }
  }

  lemma {:induction false} InsertSorted(s: seq<Waiter>, w: Waiter)
    requires Sorted(s) && forall v :: v in s ==> v.chan < w.chan
    ensures Sorted(Insert(s, w))
  {
    if s != [] && s[0].priority <= w.priority {
      InsertSorted(s[1..], w);
      var later := Insert(s[1..], w);
      forall i | 0 <= i < |later| ensures Before(s[0], later[i]) {
        InsertMembers(s[1..], w, later[i]);
        assert later[i] in later;
      }
    }
  }

  lemma ParkKeepsSorted(s: State, w: Waiter)
    requires QueuesMatch(s) && w.chan == s.made
    ensures Tidy(Enqueue(s.queues, w)) && Sorted(Ranked(Enqueue(s.queues, w)))
  {
    EnqueueEffect(s.queues, w);
    forall v | v in Ranked(s.queues) ensures v.chan < w.chan {
      RankedHas(s.queues, v);
    }
    InsertSorted(Ranked(s.queues), w);
  }

  lemma ParkQueued(s: State, t: nat, w: Waiter)
    requires QueuesMatch(s) && t in s.threads && s.threads[t].Running? && w.chan == s.made
    ensures QueuedAreBlocked(Park(s, t, w))
  {
    var r := Park(s, t, w);
    forall v | Queued(r.queues, v)
      ensures v.chan in r.maker && v.chan !in r.closed
      ensures r.maker[v.chan] in r.threads && r.threads[r.maker[v.chan]] == Blocked(v)
    {
      EnqueueMembers(s.queues, w, v);
    }
  }

  lemma ParkBlocked(s: State, t: nat, w: Waiter)
    requires QueuesMatch(s) && t in s.threads && s.threads[t].Running? && w.chan == s.made
    ensures BlockedAreQueued(Park(s, t, w))
  {
    var r := Park(s, t, w);
    forall u | u in r.threads && r.threads[u].Blocked?
      ensures var v := r.threads[u].waiter;
              v.chan in r.maker && r.maker[v.chan] == u && (v.chan in r.closed || Queued(r.queues, v))
    {
      EnqueueMembers(s.queues, w, r.threads[u].waiter);
    }
  }

  lemma LockKeepsInv(s: State, t: nat, priority: int)
    requires Inv(s) && Enabled(s, Lock(t, priority))
    ensures Inv(Apply(s, Lock(t, priority)))
  {
    var r := Apply(s, Lock(t, priority));
    if !s.isLocked {
      assert Owns(r, t);
      assert forall u :: u != t ==> (Owns(r, u) <==> Owns(s, u));
    } else {
      var w := Waiter(priority, s.made);
      ParkKeepsSorted(s, w);
      ParkQueued(s, t, w);
      ParkBlocked(s, t, w);
      assert forall u :: Owns(r, u) <==> Owns(s, u);
    }
  }

  lemma WakeKeepsInv(s: State, t: nat)
    requires Inv(s) && Enabled(s, Wake(t))
    ensures Inv(Apply(s, Wake(t)))
  {
    var r := Apply(s, Wake(t));
    assert forall u :: Owns(r, u) <==> Owns(s, u);
  }

  // The waiter that Unlock picks is a live one.
  lemma HeadIsLive(s: State)
    requires QueuesMatch(s) && Ranked(s.queues) != []
    ensures var w := Ranked(s.queues)[0];
            && Queued(s.queues, w) && QueueAt(s.queues, w.priority)[0] == w && Served(w.priority)
            && w.chan in s.maker && w.chan !in s.closed
            && s.maker[w.chan] in s.threads && s.threads[s.maker[w.chan]] == Blocked(w)
  {
    HeadLeaves(s.queues);
  }

  // Waking w removes w from the queues and nobody else.
  lemma HandOffMembers(q: Queues, v: Waiter)
    requires Tidy(q) && Ranked(q) != [] && Sorted(Ranked(q))
    ensures var w := Ranked(q)[0];
            && w.priority in q && q[w.priority] != []
            && Tidy(Dequeue(q, w.priority)) && Ranked(Dequeue(q, w.priority)) == Ranked(q)[1..]
            && (Queued(Dequeue(q, w.priority), v) <==> Queued(q, v) && v != w)
  {
    var ranked := Ranked(q);
    var w := ranked[0];
    HeadLeaves(q);
    DequeueMembers(q, w.priority, v);
    RankedHas(Dequeue(q, w.priority), w);
    if w in ranked[1..] {
      var i :| 0 <= i < |ranked[1..]| && ranked[1..][i] == w;
      assert Before(ranked[0], ranked[1 + i]);
    }
  }

  // What is left in the queues after w has been taken out.
  ghost predicate Without(q: Queues, r: Queues, w: Waiter) {
    forall v :: Queued(r, v) <==> Queued(q, v) && v != w
  }

  lemma HandOffKeepsBlocked(s: State, r: State, t: nat, w: Waiter)
    requires QueuedAreBlocked(s) && BlockedAreQueued(s) && Without(s.queues, r.queues, w)
    requires Queued(s.queues, w) && t in s.threads && s.threads[t].Holding?
    requires r.threads == s.threads[t := Running] && r.maker == s.maker && r.closed == s.closed + {w.chan}
    ensures QueuedAreBlocked(r) && BlockedAreQueued(r)
  {
    forall v | Queued(r.queues, v) ensures v.chan != w.chan && s.maker[v.chan] != t {
    }
  }

  lemma HandOffKeepsQueues(s: State, t: nat)
    requires QueuesMatch(s) && t in s.threads && s.threads[t].Holding? && Ranked(s.queues) != []
    ensures QueuesMatch(HandOff(s, t, Ranked(s.queues)[0]))
  {
    var w := Ranked(s.queues)[0];
    var r := HandOff(s, t, w);
    HeadIsLive(s);
    assert r.queues == Dequeue(s.queues, w.priority);
    forall v ensures Queued(r.queues, v) <==> Queued(s.queues, v) && v != w {
      HandOffMembers(s.queues, v);
    }
    HandOffMembers(s.queues, w);
    HandOffKeepsBlocked(s, r, t, w);
  }

  lemma HandOffKeepsOwner(s: State, t: nat)
    requires Inv(s) && t in s.threads && s.threads[t].Holding? && Ranked(s.queues) != []
    ensures OneOwner(HandOff(s, t, Ranked(s.queues)[0]))
  {
    var w := Ranked(s.queues)[0];
    var r := HandOff(s, t, w);
    HeadIsLive(s);
    assert Owns(s, t);
    var next := s.maker[w.chan];
    assert Owns(r, next);
    forall u | Owns(r, u) ensures u == next {
      if u != t && !Owns(s, u) {
        assert s.threads[u].waiter.chan == w.chan;
      }
    }
  }

  lemma UnlockKeepsInv(s: State, t: nat)
    requires Inv(s) && Enabled(s, Unlock(t))
    ensures Inv(Apply(s, Unlock(t)))
  {
    assert Owns(s, t);
    if Ranked(s.queues) == [] {
      var r := Apply(s, Unlock(t));
      assert forall u :: Owns(r, u) ==> Owns(s, u) && u != t;
    } else {
      HandOffKeepsQueues(s, t);
      HandOffKeepsOwner(s, t);
    }
  }

  lemma StepKeepsInv(s: State, step: Step)
    requires Inv(s) && Enabled(s, step)
    ensures Inv(Apply(s, step))
  {
    match step
    case Lock(t, priority) => LockKeepsInv(s, t, priority);
    case Wake(t) => WakeKeepsInv(s, t);
    case Unlock(t) => UnlockKeepsInv(s, t);
  }

  // ----- Runs -----

  predicate Possible(s: State, steps: seq<Step>)
    decreases |steps|
  {
    steps == [] || (Enabled(s, steps[0]) && Possible(Apply(s, steps[0]), steps[1..]))
  }

  function After(s: State, steps: seq<Step>): State
    requires Possible(s, steps)
    decreases |steps|
  {
    if steps == [] then s else After(Apply(s, steps[0]), steps[1..])
  }

  lemma {:induction false} RunKeepsInv(s: State, steps: seq<Step>)
    requires Inv(s) && Possible(s, steps)
    ensures Inv(After(s, steps))
    decreases |steps|
  {
    if steps != [] {
      StepKeepsInv(s, steps[0]);
      RunKeepsInv(Apply(s, steps[0]), steps[1..]);
    }
  }

  lemma InitialInv(s: State)
    requires Initial(s)
    ensures Inv(s)
  {
    EmptyBelow(s.queues, LAST + 1);
  }

  // In every reachable state: at most one thread holds the lock, isLocked says whether it
  // is anybody's, no channel has been closed twice, and when the lock is free nobody waits
  // at a priority that Unlock serves.
  lemma {:induction false} Safety(s: State, steps: seq<Step>)
    requires Initial(s) && Possible(s, steps)
    ensures var r := After(s, steps);
            && (forall t, u ::
                  t in r.threads && u in r.threads && r.threads[t].Holding? && r.threads[u].Holding? ==> t == u)
            && (r.isLocked <==> exists t :: Owns(r, t))
            && (forall t, u :: Owns(r, t) && Owns(r, u) ==> t == u)
            && !r.doubleClose
            && (!r.isLocked ==> forall t :: Waits(r, t) ==> !(1 <= r.threads[t].waiter.priority <= 10))
  {
    InitialInv(s);
    RunKeepsInv(s, steps);
    var r := After(s, steps);
    forall t | Waits(r, t) && !r.isLocked ensures !Served(r.threads[t].waiter.priority) {
      RankedHas(r.queues, r.threads[t].waiter);
    }
    assert forall t :: t in r.threads && r.threads[t].Holding? ==> Owns(r, t);
  }

  // Unlock grants the lock to the waiter with the smallest number, the oldest among
  // equals: every other waiter it could have chosen comes after.
  lemma GrantOrder(s: State, t: nat, u: nat)
    requires Inv(s) && Enabled(s, Unlock(t))
    requires Waits(s, u) && 1 <= s.threads[u].waiter.priority <= 10
    ensures var r := Apply(s, Unlock(t));
            exists next :: Owns(r, next) && Waits(s, next)
              && (next == u || Before(s.threads[next].waiter, s.threads[u].waiter))
  {
    var ranked, v := Ranked(s.queues), s.threads[u].waiter;
    RankedHas(s.queues, v);
    var i :| 0 <= i < |ranked| && ranked[i] == v;
    HeadIsLive(s);
    var next := s.maker[ranked[0].chan];
    assert Owns(Apply(s, Unlock(t)), next);
    assert i == 0 || Before(ranked[0], v);
  }

  // Exactly when a release strands waiters: Unlock leaves the lock free although threads
  // are waiting if and only if none of them waits at a priority from 1 to 10.
  lemma StrandedExactlyWhen(s: State, t: nat)
    requires Inv(s) && Enabled(s, Unlock(t))
    ensures !Apply(s, Unlock(t)).isLocked
            <==> forall u :: Waits(s, u) ==> !(1 <= s.threads[u].waiter.priority <= 10)
  {
    assert Owns(s, t);
    if Ranked(s.queues) == [] {
      forall u | Waits(s, u) ensures !Served(s.threads[u].waiter.priority) {
        RankedHas(s.queues, s.threads[u].waiter);
      }
    } else {
      HeadIsLive(s);
      var w := Ranked(s.queues)[0];
      assert Waits(s, s.maker[w.chan]);
    }
  }

  // ----- Overtaking -----

  // How many waiters are ahead of w.
  function Rank(s: seq<Waiter>, w: Waiter): (n: nat)
    requires w in s
    ensures n < |s| && s[n] == w
  {
    if s[0] == w then 0 else 1 + Rank(s[1..], w)
  }

  lemma {:induction false} RankAfterInsert(s: seq<Waiter>, v: Waiter, w: Waiter)
    requires Sorted(s) && w in s && v.chan > w.chan
    ensures w in Insert(s, v)
    ensures Rank(Insert(s, v), w) == Rank(s, w) + if v.priority < w.priority then 1 else 0
  {
    if s[0].priority > v.priority {
      var i :| 0 <= i < |s| && s[i] == w;
      assert i > 0 ==> Before(s[0], s[i]);
      assert ([v] + s)[1..] == s;
    } else if s[0] != w {
      assert w in s[1..];
      RankAfterInsert(s[1..], v, w);
      assert Insert(s, v)[1..] == Insert(s[1..], v);
    }
  }

  // Whether w is still waiting after every step of the run.
  predicate StillWaiting(s: State, steps: seq<Step>, w: Waiter)
    requires Possible(s, steps)
    decreases |steps|
  {
    w in Ranked(s.queues) && (steps == [] || StillWaiting(Apply(s, steps[0]), steps[1..], w))
  }

  function Release(step: Step): nat {
    if step.Unlock? then 1 else 0
  }

  // A call of Lock with a strictly smaller number than w's.
  function Overtake(step: Step, w: Waiter): nat {
    if step.Lock? && 1 <= step.priority < w.priority then 1 else 0
  }

  function Releases(steps: seq<Step>): nat {
    if steps == [] then 0 else Release(steps[0]) + Releases(steps[1..])
  }

  function Overtakes(steps: seq<Step>, w: Waiter): nat {
    if steps == [] then 0 else Overtake(steps[0], w) + Overtakes(steps[1..], w)
  }

  lemma {:induction false} RankAfterLock(s: State, t: nat, priority: int, w: Waiter)
    requires Inv(s) && Enabled(s, Lock(t, priority)) && w in Ranked(s.queues)
    ensures var r := Apply(s, Lock(t, priority));
            w in Ranked(r.queues)
            && Rank(Ranked(r.queues), w) == Rank(Ranked(s.queues), w) + Overtake(Lock(t, priority), w)
  {
    RankedHas(s.queues, w);
    var v := Waiter(priority, s.made);
    EnqueueEffect(s.queues, v);
    if Served(priority) {
      RankAfterInsert(Ranked(s.queues), v, w);
    }
  }

  lemma {:induction false} RankAfterUnlock(s: State, t: nat, w: Waiter)
    requires Inv(s) && Enabled(s, Unlock(t)) && w in Ranked(s.queues)
    ensures var ranked, r := Ranked(s.queues), Apply(s, Unlock(t));
            if w == ranked[0] then w.chan in r.closed
            else w in Ranked(r.queues) && Rank(Ranked(r.queues), w) == Rank(ranked, w) - 1
  {
    HeadIsLive(s);
    HandOffMembers(s.queues, w);
  }

  // One step moves a waiter back only for a newcomer with a smaller number, and forward at
  // every release.
  lemma {:induction false} RankMoves(s: State, step: Step, w: Waiter)
    requires Inv(s) && Enabled(s, step) && w in Ranked(s.queues) && w in Ranked(Apply(s, step).queues)
    ensures Rank(Ranked(Apply(s, step).queues), w) + Release(step) == Rank(Ranked(s.queues), w) + Overtake(step, w)
  {
    match step
    case Wake(t) =>
    case Lock(t, priority) => RankAfterLock(s, t, priority, w);
    case Unlock(t) =>
      RankAfterUnlock(s, t, w);
      StepKeepsInv(s, step);
      RankedHas(Apply(s, step).queues, w);
  }

  // The overtaking bound, over any stretch of any run: while w waits, the lock is released
  // at most as often as there were waiters ahead of w plus callers with smaller numbers.
  lemma {:induction false} BoundedOvertaking(s: State, steps: seq<Step>, w: Waiter)
    requires Inv(s) && Possible(s, steps) && StillWaiting(s, steps, w)
    ensures w in Ranked(After(s, steps).queues)
    ensures Rank(Ranked(After(s, steps).queues), w) + Releases(steps)
            == Rank(Ranked(s.queues), w) + Overtakes(steps, w)
    ensures Releases(steps) <= Rank(Ranked(s.queues), w) + Overtakes(steps, w)
    decreases |steps|
  {
    if steps != [] {
      var next := Apply(s, steps[0]);
      assert w in Ranked(next.queues);
      StepKeepsInv(s, steps[0]);
      RankMoves(s, steps[0], w);
      BoundedOvertaking(next, steps[1..], w);
    }
  }

  // ----- Who can ever get the lock -----

  // A step leaves a waiter at a priority that Unlock does not look at where it is.
  lemma StepPassesOver(s: State, step: Step, u: nat)
    requires Inv(s) && Enabled(s, step) && Waits(s, u) && !(1 <= s.threads[u].waiter.priority <= 10)
    ensures Waits(Apply(s, step), u) && Apply(s, step).threads[u] == s.threads[u]
  {
    if step.Unlock? && Ranked(s.queues) != [] {
      HeadIsLive(s);
    }
  }

  // So does every run: it waits for ever.
  lemma {:induction false} UnservedForGood(s: State, steps: seq<Step>, u: nat)
    requires Inv(s) && Possible(s, steps) && Waits(s, u) && !(1 <= s.threads[u].waiter.priority <= 10)
    ensures Waits(After(s, steps), u) && After(s, steps).threads[u] == s.threads[u]
    decreases |steps|
  {
    if steps != [] {
      StepKeepsInv(s, steps[0]);
      StepPassesOver(s, steps[0], u);
      UnservedForGood(Apply(s, steps[0]), steps[1..], u);
    }
  }

  // Some run gives thread u the lock.
  ghost predicate CanHold(s: State, u: nat) {
    exists steps :: Possible(s, steps) && u in After(s, steps).threads && After(s, steps).threads[u].Holding?
  }

  lemma CanHoldBefore(s: State, step: Step, u: nat)
    requires Enabled(s, step) && CanHold(Apply(s, step), u)
    ensures CanHold(s, u)
  {
    var next := Apply(s, step);
    var more :| Possible(next, more) && u in After(next, more).threads && After(next, more).threads[u].Holding?;
    assert ([step] + more)[1..] == more;
    assert Possible(s, [step] + more) && After(s, [step] + more) == After(next, more);
  }

  lemma GrantedCanHold(s: State, u: nat)
    requires u in s.threads && s.threads[u].Blocked? && s.threads[u].waiter.chan in s.closed
    ensures CanHold(s, u)
  {
    var r := Apply(s, Wake(u));
    assert Possible(r, []) && After(r, []) == r;
    CanHoldBefore(s, Wake(u), u);
  }

  // Whoever has been handed the lock can take it up, which moves nobody in the queues.
  lemma OwnerWakes(s: State, u: nat, w: Waiter) returns (r: State, t: nat)
    requires Inv(s) && Waits(s, u) && s.threads[u] == Blocked(w) && w in Ranked(s.queues)
    ensures Inv(r) && Enabled(r, Unlock(t)) && (CanHold(r, u) ==> CanHold(s, u))
    ensures r.queues == s.queues && Waits(r, u) && r.threads[u] == Blocked(w) && t != u
  {
    assert s.isLocked;
    t :| Owns(s, t);
    if s.threads[t].Holding? {
      r := s;
    } else {
      r := Apply(s, Wake(t));
      StepKeepsInv(s, Wake(t));
      if CanHold(r, u) {
        CanHoldBefore(s, Wake(t), u);
      }
    }
  }

  // A waiter that Unlock looks at can be granted the lock: after as many releases as its rank.
  lemma {:induction false} RankedCanHold(s: State, u: nat, w: Waiter)
    requires Inv(s) && Waits(s, u) && s.threads[u] == Blocked(w) && w in Ranked(s.queues)
    ensures CanHold(s, u)
    decreases Rank(Ranked(s.queues), w)
  {
    var at, t := OwnerWakes(s, u, w);
    RankAfterUnlock(at, t, w);
    StepKeepsInv(at, Unlock(t));
    var r := Apply(at, Unlock(t));
    assert r.threads[u] == Blocked(w);
    if w.chan in r.closed {
      GrantedCanHold(r, u);
    } else {
      RankedCanHold(r, u, w);
    }
    CanHoldBefore(at, Unlock(t), u);
  }

  // Exactly which waiters can ever get the lock: those at priorities 1 to 10.
  lemma GrantedExactlyWhen(s: State, u: nat)
    requires Inv(s) && Waits(s, u)
    ensures CanHold(s, u) <==> 1 <= s.threads[u].waiter.priority <= 10
  {
    if Served(s.threads[u].waiter.priority) {
      RankedHas(s.queues, s.threads[u].waiter);
      RankedCanHold(s, u, s.threads[u].waiter);
    } else {
      forall steps | Possible(s, steps) ensures !(u in After(s, steps).threads && After(s, steps).threads[u].Holding?) {
        UnservedForGood(s, steps, u);
      }
    }
  }

  // A step that leads to r, followed by a run from there.
  lemma StepThen(s: State, step: Step, r: State, more: seq<Step>, last: State)
    requires Enabled(s, step) && r == Apply(s, step) && Possible(r, more) && last == After(r, more)
    ensures Possible(s, [step] + more) && After(s, [step] + more) == last
  {
    assert ([step] + more)[1..] == more;
  }

  // The state in which thread 0 holds the lock, thread 2 waits at q and then came thread 1 at p.
  function TwoWait(p: int, q: int): State {
    var low, high := Waiter(q, 0), Waiter(p, 1);
    State(true, map[q := [low], p := [high]], map[0 := Holding, 1 := Blocked(high), 2 := Blocked(low)],
          map[0 := 2, 1 := 1], 2, {}, false)
  }

  // And in which thread 1 holds it.
  function OneWaits(q: int): State {
    var low := Waiter(q, 0);
    State(true, map[q := [low]], map[0 := Running, 1 := Holding, 2 := Blocked(low)], map[0 := 2, 1 := 1], 2, {1}, false)
  }

  const ALONE := State(false, map[], map[0 := Running, 1 := Running, 2 := Running], map[], 0, {}, false)

  // Whatever two of the priorities 1 to 10 there are: thread 1 waits at the smaller number,
  // thread 2, which came first, at the larger, and thread 1 gets the lock first; then thread 2.
  lemma SmallerGoesFirst(p: int, q: int) returns (steps: seq<Step>, more: seq<Step>, last: seq<Step>)
    requires 1 <= p < q <= 10
    ensures Initial(ALONE) && Possible(ALONE, steps) && After(ALONE, steps) == TwoWait(p, q)
    ensures Possible(TwoWait(p, q), more) && After(TwoWait(p, q), more) == OneWaits(q)
    ensures Possible(OneWaits(q), last)
    ensures After(OneWaits(q), last).threads == map[0 := Running, 1 := Running, 2 := Holding]
  {
    steps := TwoCome(p, q);
    var s := TwoWait(p, q);
    QueueOfTwo(Waiter(p, 1), Waiter(q, 0));
    var s1 := Apply(s, Unlock(0));
    assert s1.queues == map[q := [Waiter(q, 0)]];
    assert Apply(s1, Wake(1)) == OneWaits(q);
    more := [Unlock(0)] + ([Wake(1)] + []);
    StepThen(s1, Wake(1), OneWaits(q), [], OneWaits(q));
    StepThen(s, Unlock(0), s1, [Wake(1)] + [], OneWaits(q));
    last := LastGets(q);
  }

  lemma TwoCome(p: int, q: int) returns (steps: seq<Step>)
    requires 1 <= p < q <= 10
    ensures Possible(ALONE, steps) && After(ALONE, steps) == TwoWait(p, q)
  {
    var s1 := Apply(ALONE, Lock(0, 5));
    var s2 := Apply(s1, Lock(2, q));
    var s3 := Apply(s2, Lock(1, p));
    assert [] + [Waiter(q, 0)] == [Waiter(q, 0)] && [] + [Waiter(p, 1)] == [Waiter(p, 1)];
    assert s3.queues == map[q := [Waiter(q, 0)], p := [Waiter(p, 1)]];
    assert s3.maker == map[0 := 2, 1 := 1];
    assert s3 == TwoWait(p, q);
    steps := [Lock(0, 5)] + ([Lock(2, q)] + ([Lock(1, p)] + []));
    StepThen(s2, Lock(1, p), s3, [], s3);
    StepThen(s1, Lock(2, q), s2, [Lock(1, p)] + [], s3);
    StepThen(ALONE, Lock(0, 5), s1, [Lock(2, q)] + ([Lock(1, p)] + []), s3);
  }

  lemma LastGets(q: int) returns (last: seq<Step>)
    requires 1 < q <= 10
    ensures Possible(OneWaits(q), last)
    ensures After(OneWaits(q), last).threads == map[0 := Running, 1 := Running, 2 := Holding]
  {
    QueueOfOne(Waiter(q, 0));
    var r1 := Apply(OneWaits(q), Unlock(1));
    var r2 := Apply(r1, Wake(2));
    last := [Unlock(1)] + ([Wake(2)] + []);
    StepThen(r1, Wake(2), r2, [], r2);
    StepThen(OneWaits(q), Unlock(1), r1, [Wake(2)] + [], r2);
  }

  lemma QueueOfOne(w: Waiter)
    requires 1 <= w.priority <= 10
    ensures Ranked(map[w.priority := [w]]) == [w]
  {
    EmptyBelow(map[], LAST + 1);
    EnqueueEffect(map[], w);
    assert [] + [w] == [w];
    assert Enqueue(map[], w) == map[w.priority := [w]];
  }

  lemma QueueOfTwo(high: Waiter, low: Waiter)
    requires 1 <= high.priority < low.priority <= 10
    ensures Ranked(map[low.priority := [low], high.priority := [high]]) == [high, low]
  {
    QueueOfOne(low);
    var q := map[low.priority := [low]];
    EnqueueEffect(q, high);
    assert [] + [high] == [high];
    assert Enqueue(q, high) == map[low.priority := [low], high.priority := [high]];
  }

  // The eleventh control algorithm gets priority 11: two threads suffice to strand it, and
  // from then on it waits in every run.
  lemma EleventhIsStranded() returns (s: State, steps: seq<Step>)
    ensures Initial(s) && Possible(s, steps)
    ensures var r := After(s, steps);
            !r.isLocked && Waits(r, 1) && forall more :: Possible(r, more) ==> Waits(After(r, more), 1)
  {
    s := State(false, map[], map[0 := Running, 1 := Running], map[], 0, {}, false);
    var s1 := Apply(s, Lock(0, 1));
    var s2 := Apply(s1, Lock(1, 11));
    EmptyBelow(s2.queues, LAST + 1);
    var s3 := Apply(s2, Unlock(0));
    steps := [Lock(0, 1), Lock(1, 11), Unlock(0)];
    assert steps[1..] == [Lock(1, 11), Unlock(0)] && steps[1..][1..] == [Unlock(0)] && steps[1..][1..][1..] == [];
    assert Possible(s3, []) && Possible(s2, [Unlock(0)]) && Possible(s1, steps[1..]);
    assert After(s2, [Unlock(0)]) == s3 && After(s1, steps[1..]) == s3;
    StrandedForGood(s, steps, s3);
  }

  lemma {:induction false} StrandedForGood(s: State, steps: seq<Step>, r: State)
    requires Initial(s) && Possible(s, steps) && r == After(s, steps) && Waits(r, 1)
    requires r.threads[1].waiter.priority == 11
    ensures forall more :: Possible(r, more) ==> Waits(After(r, more), 1)
  {
    InitialInv(s);
    RunKeepsInv(s, steps);
    forall more | Possible(r, more) ensures Waits(After(r, more), 1) {
      UnservedForGood(r, more, 1);
    }
  }
}
