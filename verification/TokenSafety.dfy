/** The token is never held twice, never handed to nobody, and never free while a thread waits for it. */
module TokenSafety {
  import opened Runs
  import opened Lists
  import opened TokenProtocol

  // ---------- Queues ----------

  lemma EnqueueFacts(fifo: bool, q: seq<Thread>, t: Thread)
    requires Distinct(q) && t !in q
    ensures var q' := Enqueue(fifo, q, t);
            Distinct(q') && |q'| == |q| + 1 && forall u :: u in q' <==> u in q || u == t
    ensures q != [] && fifo ==> First(Enqueue(fifo, q, t)) == First(q)
  {}

  lemma DequeueFacts(q: seq<Thread>, t: Thread)
    requires Distinct(q) && t in q
    ensures var q' := Dequeue(q, t);
            Distinct(q') && |q'| == |q| - 1 && (forall u :: u in q' <==> u in q && u != t)
    ensures q[0] != t ==> First(Dequeue(q, t)) == q[0]
    ensures q[0] == t ==> Dequeue(q, t) == q[1..]
  {
    var i := IndexOf(q, t);
    DistinctRemove(q, i, Remove(q, i));
    RemoveFacts(q, i, Remove(q, i));
    forall u | u in Remove(q, i) ensures u in q {}
  }

  // ---------- Handing over ----------

  /** wakeup_next_waiter, when no thread holds the token any more, hands it to a thread that waits, if there is one. */
  lemma WakeupSafe(s: State)
    requires QueuesOk(s) && (forall t :: !StatusOf(s, t).Holding?) && s.token.nesting == 0
    ensures Safe(s.(token := WakeupNext(s.token)))
    ensures Handed(s.(token := WakeupNext(s.token))) <== s.token.runable == {}
  {
    var k := s.token;
    assert k.writers != [] ==> k.writers[0] in k.writers;
    assert k.readers != [] ==> k.readers[0] in k.readers;
  }

  // ---------- Leaving a queue ----------

  lemma ReaderLeaves(s: State, t: Thread, status: Status)
    requires QueuesOk(s) && StatusOf(s, t) == Waiting(Read) && !status.Waiting?
    ensures QueuesOk(State(Leave(s.token, t, Read), s.status[t := status]))
  {
    var s' := State(Leave(s.token, t, Read), s.status[t := status]);
    DequeueFacts(s.token.readers, t);
    forall u ensures u in s'.token.writers <==> StatusOf(s', u) == Waiting(Write) {
      assert u in s.token.writers <==> StatusOf(s, u) == Waiting(Write);
    }
    forall u ensures u in s'.token.readers <==> StatusOf(s', u) == Waiting(Read) {
      assert u in s.token.readers <==> StatusOf(s, u) == Waiting(Read);
    }
  }

  lemma WriterLeaves(s: State, t: Thread, status: Status)
    requires QueuesOk(s) && StatusOf(s, t) == Waiting(Write) && !status.Waiting?
    ensures QueuesOk(State(Leave(s.token, t, Write), s.status[t := status]))
  {
    var s' := State(Leave(s.token, t, Write), s.status[t := status]);
    DequeueFacts(s.token.writers, t);
    forall u ensures u in s'.token.writers <==> StatusOf(s', u) == Waiting(Write) {
      assert u in s.token.writers <==> StatusOf(s, u) == Waiting(Write);
    }
    forall u ensures u in s'.token.readers <==> StatusOf(s', u) == Waiting(Read) {
      assert u in s.token.readers <==> StatusOf(s, u) == Waiting(Read);
    }
  }

  lemma LeaveQueues(s: State, t: Thread, kind: Kind, status: Status)
    requires QueuesOk(s) && StatusOf(s, t) == Waiting(kind) && !status.Waiting?
    ensures QueuesOk(State(Leave(s.token, t, kind), s.status[t := status]))
  {
    if kind == Read {
      ReaderLeaves(s, t, status);
    } else {
      WriterLeaves(s, t, status);
    }
  }

  lemma LeaveSafe(s: State, t: Thread, kind: Kind)
    requires Safe(s) && StatusOf(s, t) == Waiting(kind) && t != s.token.owner
    ensures Safe(State(Leave(s.token, t, kind), s.status[t := Idle]))
  {
    LeaveQueues(s, t, kind, Idle);
    DequeueFacts(Queue(s.token, kind), t);
  }

  // ---------- Steps ----------

  lemma AcquireKeeps(s: State, t: Thread, kind: Kind)
    requires Safe(s) && Enabled(s, Acquire(t, kind))
    ensures Safe(Step(s, Acquire(t, kind)))
    ensures Handed(s) ==> Handed(Step(s, Acquire(t, kind)))
  {
    var k := s.token;
    if k.inUse != Free && k.owner != t {
      EnqueueFacts(k.fifo, Queue(k, kind), t);
    }
  }

  lemma WokenKeeps(s: State, t: Thread)
    requires Safe(s) && Enabled(s, Woken(t))
    ensures Safe(Step(s, Woken(t)))
    ensures Handed(s) ==> Handed(Step(s, Woken(t)))
  {
    var k := s.token;
    if k.owner == t {
      LeaveQueues(s, t, s.status[t].kind, Holding);
    }
  }

  lemma ReleasedKeeps(s: State, t: Thread)
    requires Safe(s) && Enabled(s, Released(t))
    ensures Safe(Step(s, Released(t)))
    ensures Handed(s) ==> Handed(Step(s, Released(t)))
  {
    if s.token.nesting == 0 {
      var s1 := s.(status := s.status[t := Idle]);
      assert QueuesOk(s1);
      WakeupSafe(s1);
    }
  }

  lemma TimedOutKeeps(s: State, t: Thread)
    requires Safe(s) && Enabled(s, TimedOut(t)) && forall u :: !StatusOf(s, u).Holding?
    ensures Safe(Step(s, TimedOut(t)))
  {
    var s1, kind := s.(token := WakeupNext(s.token)), s.status[t].kind;
    WakeupSafe(s);
    var s2 := State(Leave(s1.token, t, kind), s.status[t := Idle]);
    if t in s1.token.runable {
      LeaveQueues(s1, t, kind, Idle);
      WakeupSafe(s2);
    } else {
      LeaveSafe(s1, t, kind);
    }
  }

  // ---------- Runs ----------

  ghost predicate Goes(s: State, e: Event, s': State) {
    Enabled(s, e) && s' == Step(s, e)
  }

  ghost function Next(): (State, Event, State) -> bool {
    (s: State, e: Event, s': State) => Goes(s, e, s')
  }

  lemma InitInv(fifo: bool)
    ensures Inv(Init(fifo))
  {}

  lemma StepKeeps(s: State, e: Event)
    requires Inv(s) && Enabled(s, e) && !e.TimedOut?
    ensures Inv(Step(s, e))
  {
    match e
    case Acquire(t, kind) => AcquireKeeps(s, t, kind);
    case Woken(t) => WokenKeeps(s, t);
    case Released(t) => ReleasedKeeps(s, t);
  }

  /** The states that threads reach without time limits. */
  ghost predicate Reached(fifo: bool, es: seq<Event>, s: State) {
    Leads(Next(), Init(fifo), es, s) && forall i | 0 <= i < |es| :: !es[i].TimedOut?
  }

  lemma ReachedInv(fifo: bool, es: seq<Event>, s: State)
    requires Reached(fifo, es, s)
    ensures Inv(s)
  {
    InitInv(fifo);
    forall m, e: Event, m' | Inv(m) && !e.TimedOut? && Goes(m, e, m') ensures Inv(m') {
      StepKeeps(m, e);
    }
    Keeps(Next(), (e: Event) => !e.TimedOut?, m => Inv(m), Init(fifo), es, s);
  }

  /**
   * In every state that is reached: at most one thread holds the token, at most one is marked to run, nobody
   * waits for a free token, and the count of waiters is right.
   */
  lemma MutualExclusion(fifo: bool, es: seq<Event>, s: State, t: Thread, u: Thread)
    requires Reached(fifo, es, s)
    ensures StatusOf(s, t).Holding? && StatusOf(s, u).Holding? ==> t == u
    ensures t in s.token.runable && u in s.token.runable ==> t == u
    ensures s.token.inUse == Free ==> !StatusOf(s, t).Waiting? && s.token.readers == s.token.writers == []
    ensures s.token.waiters == |s.token.readers| + |s.token.writers|
    ensures StatusOf(s, t) == Waiting(Read) <==> t in s.token.readers
    ensures StatusOf(s, t) == Waiting(Write) <==> t in s.token.writers
  {
    ReachedInv(fifo, es, s);
    match StatusOf(s, t)
    case Waiting(kind) => assert kind == Read || kind == Write;
    case _ =>
  }

  /**
   * A thread that wakes up as the owner is marked, as asserted; with first-in-first-out it is the one that
   * waited longest.
   */
  lemma WakesMarked(fifo: bool, es: seq<Event>, s: State, t: Thread)
    requires Reached(fifo, es, s) && Enabled(s, Woken(t)) && s.token.owner == t
    ensures t in s.token.runable && s.token.fifo == fifo
    ensures fifo ==> t == First(Queue(s.token, s.status[t].kind))
    ensures var s' := Step(s, Woken(t)); StatusOf(s', t).Holding? && t !in Queue(s'.token, s.status[t].kind)
  {
    ReachedInv(fifo, es, s);
    WokenKeeps(s, t);
    FifoStays(fifo, es, s);
  }

  lemma StrategyStays(s: State, e: Event)
    requires Enabled(s, e)
    ensures Step(s, e).token.fifo == s.token.fifo
  {
    match e
    case Acquire(t, kind) => assert Enter(s.token, t, kind).fifo == s.token.fifo;
    case Woken(t) => LeaveStrategy(s.token, t, s.status[t].kind);
    case Released(t) => assert Release(s.token).fifo == s.token.fifo;
    case TimedOut(t) =>
      LeaveStrategy(WakeupNext(s.token), t, s.status[t].kind);
      assert TimeOut(s.token, t, s.status[t].kind).fifo == s.token.fifo;
  }

  lemma LeaveStrategy(k: Token, t: Thread, kind: Kind)
    ensures Leave(k, t, kind).fifo == k.fifo && WakeupNext(Leave(k, t, kind)).fifo == k.fifo
  {}

  lemma FifoStays(fifo: bool, es: seq<Event>, s: State)
    requires Leads(Next(), Init(fifo), es, s)
    ensures s.token.fifo == fifo
  {
    forall m: State, e: Event, m': State | m.token.fifo == fifo && Goes(m, e, m') ensures m'.token.fifo == fifo {
      StrategyStays(m, e);
    }
    Keeps(Next(), (e: Event) => true, (m: State) => m.token.fifo == fifo, Init(fifo), es, s);
  }

  /** The last release hands the token to the first writer, or else to the first reader, or frees it. */
  lemma HandOver(fifo: bool, es: seq<Event>, s: State, t: Thread)
    requires Reached(fifo, es, s) && Enabled(s, Released(t)) && s.token.nesting == 0
    ensures var k, s' := s.token, Step(s, Released(t));
            && s'.token.owner ==
               (if k.writers != [] then k.writers[0] else if k.readers != [] then k.readers[0] else NIL)
            && (s'.token.inUse == Free <==> k.writers == [] && k.readers == [])
            && (s'.token.inUse != Free ==>
                  && s'.token.owner in s'.token.runable && StatusOf(s', s'.token.owner).Waiting?
                  && s'.token.inUse == Used(StatusOf(s', s'.token.owner).kind))
            && forall u :: !StatusOf(s', u).Holding?
  {
    ReachedInv(fifo, es, s);
    ReleasedKeeps(s, t);
  }

  // ---------- Time limits ----------

  /** A wait that times out leaves the token in order exactly when no thread holds it at that moment. */
  lemma TimeoutExact(s: State, t: Thread)
    requires Safe(s) && Enabled(s, TimedOut(t))
    ensures Safe(Step(s, TimedOut(t))) <==> forall u :: !StatusOf(s, u).Holding?
  {
    if u :| StatusOf(s, u).Holding? {
      var s' := Step(s, TimedOut(t));
      OwnerWaits(s);
      LeaveQueues(s.(token := WakeupNext(s.token)), t, s.status[t].kind, Idle);
      OwnerWaits(State(Leave(WakeupNext(s.token), t, s.status[t].kind), s.status[t := Idle]));
      assert StatusOf(s', u).Holding? && s'.token.owner != u;
    } else {
      TimedOutKeeps(s, t);
    }
  }

  /** Whoever wakeup_next_waiter makes the owner does not hold the token yet. */
  lemma OwnerWaits(s: State)
    requires QueuesOk(s)
    ensures !StatusOf(s, WakeupNext(s.token).owner).Holding?
    ensures QueuesOk(s.(token := WakeupNext(s.token)))
  {
    var k := s.token;
    assert k.writers != [] ==> k.writers[0] in k.writers;
    assert k.readers != [] ==> k.readers[0] in k.readers;
  }

  /** Thread 1 holds the token, 2 tries to get it and gives up: now 3 gets the token, which 1 still holds. */
  lemma TimeoutBreaksExclusion()
    ensures exists es, s :: Leads(Next(), Init(true), es, s) && StatusOf(s, 1).Holding? && StatusOf(s, 3).Holding?
  {
    var s0 := Init(true);
    var s1 := FirstHolds();
    var s3 := SecondGivesUp(s1);
    var s := Step(s3, Acquire(3, Write));
    Single(Next(), s0, Acquire(1, Write), s1);
    Single(Next(), s3, Acquire(3, Write), s);
    Concat(Next(), s0, [Acquire(1, Write)], s1, [Acquire(2, Write)] + [TimedOut(2)], s3);
    Concat(Next(), s0, [Acquire(1, Write)] + ([Acquire(2, Write)] + [TimedOut(2)]), s3, [Acquire(3, Write)], s);
  }

  lemma FirstHolds() returns (s: State)
    ensures Goes(Init(true), Acquire(1, Write), s)
    ensures s == State(Token(true, Used(Write), 1, 0, 0, [], [], {}), map[1 := Holding])
  {
    s := Step(Init(true), Acquire(1, Write));
  }

  lemma SecondGivesUp(s: State) returns (s': State)
    requires s == State(Token(true, Used(Write), 1, 0, 0, [], [], {}), map[1 := Holding])
    ensures Leads(Next(), s, [Acquire(2, Write)] + [TimedOut(2)], s')
    ensures s'.token.inUse == Free && StatusOf(s', 1).Holding? && StatusOf(s', 3) == Idle
  {
    var s1 := Step(s, Acquire(2, Write));
    assert s1.token.writers == [2] && Dequeue([2], 2) == [];
    s' := Step(s1, TimedOut(2));
    Single(Next(), s, Acquire(2, Write), s1);
    Single(Next(), s1, TimedOut(2), s');
    Concat(Next(), s, [Acquire(2, Write)], s1, [TimedOut(2)], s');
  }
}
