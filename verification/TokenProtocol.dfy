/**
 * The token as a protocol: threads acquire it, wait for it in one of two queues,
 * are handed it and release it, one critical section at a time.
 */
module TokenProtocol {
  import opened Lists

  datatype Kind = Read | Write
  datatype Use = Free | Used(kind: Kind)

  type Thread = Ref

  /** The token's fields: the queues by the threads that wait in them, and the threads whose entry is marked runable. */
  datatype Token = Token(fifo: bool, inUse: Use, owner: Thread, nesting: nat, waiters: int,
                         readers: seq<Thread>, writers: seq<Thread>, runable: set<Thread>)

  function Queue(k: Token, kind: Kind): seq<Thread> {
    if kind == Read then k.readers else k.writers
  }

  function WithQueue(k: Token, kind: Kind, q: seq<Thread>): Token {
    if kind == Read then k.(readers := q) else k.(writers := q)
  }

  // ---------- What each critical section does to the token ----------

  /** wakeup_next_waiter: the first writer, or else the first reader, becomes the owner. */
  function WakeupNext(k: Token): Token {
    if k.writers != [] then k.(inUse := Used(Write), owner := k.writers[0], runable := k.runable + {k.writers[0]})
    else if k.readers != [] then k.(inUse := Used(Read), owner := k.readers[0], runable := k.runable + {k.readers[0]})
    else k.(inUse := Free, owner := NIL)
  }

  /** insert_entry */
  function Enqueue(fifo: bool, q: seq<Thread>, t: Thread): seq<Thread> {
    if fifo then q + [t] else [t] + q
  }

  function IndexOf(q: seq<Thread>, t: Thread): (i: nat)
    ensures i <= |q| && (i < |q| ==> q[i] == t) && (i == |q| <==> t !in q)
  {
    if q == [] || q[0] == t then 0 else 1 + IndexOf(q[1..], t)
  }

  /** remove_entry */
  function Dequeue(q: seq<Thread>, t: Thread): seq<Thread> {
    var i := IndexOf(q, t);
    if i < |q| then Remove(q, i) else q
  }

  /** shared_acquire up to the point where the thread has the token or goes to sleep. */
  function Enter(k: Token, t: Thread, kind: Kind): Token {
    if k.inUse == Free then k.(inUse := Used(kind), owner := t)
    else if k.owner == t then k.(nesting := k.nesting + 1)
    else WithQueue(k, kind, Enqueue(k.fifo, Queue(k, kind), t)).(waiters := k.waiters + 1)
  }

  /** The thread's entry leaves its queue. */
  function Leave(k: Token, t: Thread, kind: Kind): Token {
    WithQueue(k, kind, Dequeue(Queue(k, kind), t)).(waiters := k.waiters - 1, runable := k.runable - {t})
  }

  /** A wait that ended by a signal, for no reason, or by an interruption: the thread looks whether it is the owner. */
  function Wake(k: Token, t: Thread, kind: Kind): Token {
    if k.owner == t then Leave(k, t, kind) else k
  }

  /** A wait that ended by its time limit. */
  function TimeOut(k: Token, t: Thread, kind: Kind): Token {
    var k1 := WakeupNext(k);
    var k2 := Leave(k1, t, kind);
    if t in k1.runable then WakeupNext(k2) else k2
  }

  function Release(k: Token): Token {
    if k.nesting > 0 then k.(nesting := k.nesting - 1) else WakeupNext(k)
  }

  // ---------- The protocol ----------

  datatype Status = Idle | Waiting(kind: Kind) | Holding

  datatype State = State(token: Token, status: map<Thread, Status>)

  datatype Event =
    | Acquire(t: Thread, kind: Kind)
    | Woken(t: Thread)
    | Released(t: Thread)
    | TimedOut(t: Thread)

  function StatusOf(s: State, t: Thread): Status {
    if t in s.status then s.status[t] else Idle
  }

  ghost function Init(fifo: bool): State {
    State(Token(fifo, Free, NIL, 0, 0, [], [], {}), map[])
  }

  /** Threads release only what they hold. */
  ghost predicate Enabled(s: State, e: Event) {
    && e.t != NIL
    && match e
       case Acquire(t, _) => !StatusOf(s, t).Waiting?
       case Woken(t) => StatusOf(s, t).Waiting?
       case Released(t) => StatusOf(s, t).Holding?
       case TimedOut(t) => StatusOf(s, t).Waiting?
  }

  ghost function Step(s: State, e: Event): State
    requires Enabled(s, e)
  {
    match e
    case Acquire(t, kind) =>
      var gets := s.token.inUse == Free || s.token.owner == t;
      State(Enter(s.token, t, kind), s.status[t := if gets then Holding else Waiting(kind)])
    case Woken(t) =>
      State(Wake(s.token, t, s.status[t].kind), if s.token.owner == t then s.status[t := Holding] else s.status)
    case Released(t) =>
      State(Release(s.token), if s.token.nesting > 0 then s.status else s.status[t := Idle])
    case TimedOut(t) =>
      State(TimeOut(s.token, t, s.status[t].kind), s.status[t := Idle])
  }

  // ---------- What holds in every state ----------

  /** The queues hold exactly the waiting threads. */
  ghost predicate QueuesOk(s: State) {
    var k := s.token;
    && Distinct(k.readers) && Distinct(k.writers)
    && (forall t :: t in k.readers <==> StatusOf(s, t) == Waiting(Read))
    && (forall t :: t in k.writers <==> StatusOf(s, t) == Waiting(Write))
    && k.waiters == |k.readers| + |k.writers|
    && (forall t | t in k.runable :: StatusOf(s, t).Waiting?)
    && StatusOf(s, NIL) == Idle
  }

  /** Who holds the token is its owner. */
  ghost predicate Exclusive(s: State) {
    forall t | StatusOf(s, t).Holding? :: t == s.token.owner
  }

  /** A token in use belongs to a thread that holds it or has been handed it; a free one has nobody waiting. */
  ghost predicate OwnerOk(s: State) {
    var k := s.token;
    && (k.inUse == Free ==> k.owner == NIL && k.readers == [] && k.writers == [] && k.nesting == 0)
    && (k.inUse != Free ==> StatusOf(s, k.owner).Holding? || (StatusOf(s, k.owner).Waiting? && k.owner in k.runable))
    && (k.nesting > 0 ==> StatusOf(s, k.owner).Holding?)
  }

  ghost predicate Safe(s: State) {
    QueuesOk(s) && Exclusive(s) && OwnerOk(s)
  }

  /**
   * Without timeouts, moreover: only the owner is runable, and with first-in-first-out it is the first of its
   * queue.
   */
  ghost predicate Handed(s: State) {
    var k := s.token;
    && (forall t | t in k.runable :: t == k.owner)
    && (k.fifo && StatusOf(s, k.owner).Waiting? ==> k.owner == First(Queue(k, StatusOf(s, k.owner).kind)))
  }

  ghost predicate Inv(s: State) {
    Safe(s) && Handed(s)
  }
}
