/** What a run of the token amounts to for each thread: how often it has acquired it, and when it began to wait. */
module TokenHistory {
  import opened Lists
  import opened Runs
  import opened TokenProtocol
  import opened TokenSafety

  // ---------- Nesting ----------

  /** How often the thread has asked for the token, and given it back. */
  function Acquires(es: seq<Event>, t: Thread): nat {
    if es == [] then 0 else Acquires(es[1..], t) + if es[0].Acquire? && es[0].t == t then 1 else 0
  }

  function Releases(es: seq<Event>, t: Thread): nat {
    if es == [] then 0 else Releases(es[1..], t) + if es[0].Released? && es[0].t == t then 1 else 0
  }

  /** How many releases the thread owes. */
  function Depth(s: State, t: Thread): nat {
    match StatusOf(s, t)
    case Idle => 0
    case Waiting(_) => 1
    case Holding => s.token.nesting + 1
  }

  lemma StepDepth(s: State, e: Event, t: Thread)
    requires Inv(s) && Enabled(s, e) && !e.TimedOut? && t != NIL
    ensures Depth(Step(s, e), t) == Depth(s, t) + Acquires([e], t) - Releases([e], t)
  {
    assert Acquires([e][1..], t) == 0 && Releases([e][1..], t) == 0;
    match e
    case Acquire(u, kind) =>
    case Woken(u) =>
    case Released(u) =>
  }

  lemma {:induction false} DepthCounts(s: State, es: seq<Event>, s': State, t: Thread)
    requires Inv(s) && Leads(Next(), s, es, s') && t != NIL && forall i | 0 <= i < |es| :: !es[i].TimedOut?
    ensures Depth(s', t) == Depth(s, t) + Acquires(es, t) - Releases(es, t)
    decreases |es|
  {
    if es != [] {
      var m :| Next()(s, es[0], m) && Leads(Next(), m, es[1..], s');
      StepKeeps(s, es[0]);
      StepDepth(s, es[0], t);
      DepthCounts(m, es[1..], s', t);
      assert Acquires([es[0]], t) + Acquires(es[1..], t) == Acquires(es, t) by {
        assert Acquires([es[0]][1..], t) == 0;
      }
      assert Releases([es[0]], t) + Releases(es[1..], t) == Releases(es, t) by {
        assert Releases([es[0]][1..], t) == 0;
      }
    }
  }

  /**
   * In every run without time limits: a thread that holds the token has released it as often as it acquired
   * it, but for nesting + 1 times; an idle one as often; and a waiting one but for the acquire it waits in.
   */
  lemma NestingCounts(fifo: bool, es: seq<Event>, s: State, t: Thread)
    requires Reached(fifo, es, s) && t != NIL
    ensures StatusOf(s, t).Holding? ==> s.token.nesting + 1 == Acquires(es, t) - Releases(es, t)
    ensures StatusOf(s, t).Idle? <==> Acquires(es, t) == Releases(es, t)
    ensures StatusOf(s, t).Waiting? ==> Acquires(es, t) - Releases(es, t) == 1
  {
    InitInv(fifo);
    DepthCounts(Init(fifo), es, s, t);
  }

  /** A thread that has the token keeps it until it has released it once for each acquire. */
  lemma {:induction false} HoldsUntilReleased(s: State, es: seq<Event>, s': State, t: Thread)
    requires Inv(s) && Leads(Next(), s, es, s') && t != NIL && forall i | 0 <= i < |es| :: !es[i].TimedOut?
    requires StatusOf(s, t).Holding?
    requires forall n | 0 <= n <= |es| :: Releases(es[..n], t) < Depth(s, t) + Acquires(es[..n], t)
    ensures StatusOf(s', t).Holding? && s'.token.owner == t
    decreases |es|
  {
    if es != [] {
      var m :| Next()(s, es[0], m) && Leads(Next(), m, es[1..], s');
      StepKeeps(s, es[0]);
      StepDepth(s, es[0], t);
      assert es[..1] == [es[0]];
      assert StatusOf(m, t).Holding?;
      forall n | 0 <= n <= |es[1..]| ensures Releases(es[1..][..n], t) < Depth(m, t) + Acquires(es[1..][..n], t) {
        assert es[..n + 1][1..] == es[1..][..n];
        assert [es[0]][1..] == [];
      }
      HoldsUntilReleased(m, es[1..], s', t);
    }
  }

  // ---------- Waiting in turn ----------

  /** When the thread last asked for the token: the number of events up to then. */
  function LastAsked(es: seq<Event>, t: Thread): nat {
    if es == [] then 0
    else if es[|es| - 1].Acquire? && es[|es| - 1].t == t then |es|
    else LastAsked(es[..|es| - 1], t)
  }

  lemma {:induction false} LastAskedBound(es: seq<Event>, t: Thread)
    ensures LastAsked(es, t) <= |es|
  {
    if es != [] {
      LastAskedBound(es[..|es| - 1], t);
    }
  }

  /** The queue is in the order in which its threads began to wait, or in the opposite order. */
  ghost predicate InTurn(fifo: bool, q: seq<Thread>, es: seq<Event>) {
    forall i, j | 0 <= i < j < |q| ::
      if fifo then LastAsked(es, q[i]) < LastAsked(es, q[j]) else LastAsked(es, q[i]) > LastAsked(es, q[j])
  }

  ghost predicate QueuesInTurn(k: Token, es: seq<Event>) {
    InTurn(k.fifo, k.readers, es) && InTurn(k.fifo, k.writers, es)
  }

  lemma EnqueueInTurn(fifo: bool, q: seq<Thread>, es: seq<Event>, t: Thread, kind: Kind)
    requires InTurn(fifo, q, es) && t !in q
    ensures InTurn(fifo, Enqueue(fifo, q, t), es + [Acquire(t, kind)])
  {
    var es' := es + [Acquire(t, kind)];
    assert es'[..|es|] == es;
    forall i | 0 <= i < |q| ensures LastAsked(es', q[i]) == LastAsked(es, q[i]) < LastAsked(es', t) {
      LastAskedBound(es, q[i]);
    }
  }

  /** Events of other threads do not matter. */
  lemma OthersInTurn(fifo: bool, q: seq<Thread>, es: seq<Event>, e: Event)
    requires InTurn(fifo, q, es) && (e.Acquire? ==> e.t !in q)
    ensures InTurn(fifo, q, es + [e])
  {
    assert (es + [e])[..|es|] == es;
    forall i | 0 <= i < |q| ensures LastAsked(es + [e], q[i]) == LastAsked(es, q[i]) {}
  }

  lemma DequeueInTurn(fifo: bool, q: seq<Thread>, es: seq<Event>, t: Thread)
    requires InTurn(fifo, q, es)
    ensures InTurn(fifo, Dequeue(q, t), es)
  {
    var i := IndexOf(q, t);
    if i < |q| {
      RemoveFacts(q, i, Remove(q, i));
    }
  }

  lemma StepInTurn(s: State, e: Event, es: seq<Event>)
    requires Inv(s) && Enabled(s, e) && !e.TimedOut? && QueuesInTurn(s.token, es)
    ensures QueuesInTurn(Step(s, e).token, es + [e])
  {
    var k := s.token;
    match e
    case Acquire(t, kind) =>
      assert t !in k.readers && t !in k.writers;
      EnqueueInTurn(k.fifo, k.readers, es, t, kind);
      EnqueueInTurn(k.fifo, k.writers, es, t, kind);
      OthersInTurn(k.fifo, k.readers, es, e);
      OthersInTurn(k.fifo, k.writers, es, e);
    case Woken(t) =>
      DequeueInTurn(k.fifo, k.readers, es, t);
      DequeueInTurn(k.fifo, k.writers, es, t);
      OthersInTurn(k.fifo, Step(s, e).token.readers, es, e);
      OthersInTurn(k.fifo, Step(s, e).token.writers, es, e);
    case Released(t) =>
      OthersInTurn(k.fifo, k.readers, es, e);
      OthersInTurn(k.fifo, k.writers, es, e);
  }

  lemma {:induction false} RunInTurn(s: State, before: seq<Event>, es: seq<Event>, s': State)
    requires Inv(s) && QueuesInTurn(s.token, before) && Leads(Next(), s, es, s')
    requires forall i | 0 <= i < |es| :: !es[i].TimedOut?
    ensures QueuesInTurn(s'.token, before + es)
    decreases |es|
  {
    if es == [] {
      assert before + es == before;
    } else {
      var m :| Next()(s, es[0], m) && Leads(Next(), m, es[1..], s');
      StepKeeps(s, es[0]);
      StepInTurn(s, es[0], before);
      RunInTurn(m, before + [es[0]], es[1..], s');
      assert before + [es[0]] + es[1..] == before + es;
    }
  }

  /**
   * In every run without time limits each queue is in the order in which its threads began to wait;
   * with last-in-first-out it is the opposite order.
   */
  lemma WaitingInTurn(fifo: bool, es: seq<Event>, s: State, kind: Kind, i: nat, j: nat)
    requires Reached(fifo, es, s) && i < j < |Queue(s.token, kind)|
    ensures var first, second := LastAsked(es, Queue(s.token, kind)[i]), LastAsked(es, Queue(s.token, kind)[j]);
            if fifo then first < second else first > second
  {
    InitInv(fifo);
    RunInTurn(Init(fifo), [], es, s);
    assert [] + es == es;
    FifoStays(fifo, es, s);
  }
}
