/**
 * The scheduler as an object: its request queue and its running list together.  Each critical
 * section of a submitter, a canceller or a worker does to them what the protocol's step says.
 */
module AioTask {
  import opened AioSpec
  import opened Hints
  import opened Lists
  import opened AioLinks
  import opened AioMoves
  import opened AioProtocol
  import opened AioSafety
  import opened AioTheorems
  import opened Runs
  import AioQueue
  import AioRunning

  /** The requests of the listed nodes. */
  ghost function Listed(m: Cells, r: seq<Ref>): seq<Ticket>
    requires m.Ok() && AllOut(m, r)
  {
    seq(|r|, i requires 0 <= i < |r| => m.req[r[i]].ticket)
  }

  /** The nodes are in the hands of workers. */
  ghost predicate AllOut(m: Cells, r: seq<Ref>)
    requires m.Ok()
  {
    forall i | 0 <= i < |r| :: 0 < r[i] < |m.req| && m.place[r[i]] == Out
  }

  lemma ListedFrame(m: Cells, m': Cells, r: seq<Ref>)
    requires m.Ok() && m'.Ok() && AllOut(m, r) && HeldKept(m, m', NIL)
    ensures AllOut(m', r) && Listed(m', r) == Listed(m, r)
  {}

  lemma ListedConcat(m: Cells, r: seq<Ref>, b: seq<Ref>)
    requires m.Ok() && AllOut(m, r) && AllOut(m, b)
    ensures AllOut(m, r + b) && Listed(m, r + b) == Listed(m, r) + Listed(m, b)
  {}

  lemma ListedIds(m: Cells, r: seq<Ref>, id: int)
    requires m.Ok() && AllOut(m, r)
    ensures id in Ids(multiset(Listed(m, r))) <==> exists i :: 0 <= i < |r| && m.req[r[i]].ticket.id == id
  {
    var b := Listed(m, r);
    BatchIdsAreIds(b);
    assert id in BatchIds(b) <==> exists i :: 0 <= i < |b| && b[i].id == id;
    forall i | 0 <= i < |r| && m.req[r[i]].ticket.id == id ensures id in BatchIds(b) {
      assert b[i].id == id;
    }
  }

  lemma SpellListed(m: Cells, b: seq<Ref>)
    requires m.Ok() && AllOut(m, b)
    ensures Listed(m, b) == Tickets(Spell(m, b))
  {}

  /** When all ids differ, the node of a request is found where the request is. */
  lemma SamePlace(m: Cells, r: seq<Ref>, p: Ref)
    requires m.Ok() && AllOut(m, r) && p in r && DistinctIds(multiset(Listed(m, r)))
    ensures var r' := Remove(r, AioRunning.IndexOf(r, p));
            AllOut(m, r') && Listed(m, r') == Without(Listed(m, r), m.req[p].ticket) && p !in r'
  {
    var b, k := Listed(m, r), AioRunning.IndexOf(r, p);
    BatchDistinct(b);
    OnlyPlace(b, k);
    RemoveListed(m, r, k);
    NotTwice(m, r, k);
  }

  lemma OnlyPlace(b: seq<Ticket>, k: nat)
    requires DistinctTickets(b) && k < |b|
    ensures Without(b, b[k]) == b[..k] + b[k + 1..]
  {
    assert Find(b, b[k]) == k;
  }

  lemma RemoveListed(m: Cells, r: seq<Ref>, k: nat)
    requires m.Ok() && AllOut(m, r) && k < |r|
    ensures var b := Listed(m, r); AllOut(m, Remove(r, k)) && Listed(m, Remove(r, k)) == b[..k] + b[k + 1..]
  {
    RemoveFacts(r, k, Remove(r, k));
    var b := Listed(m, r);
    var b' := b[..k] + b[k + 1..];
    assert forall i | 0 <= i < |b'| :: b'[i] == if i < k then b[i] else b[i + 1];
  }

  lemma NotTwice(m: Cells, r: seq<Ref>, k: nat)
    requires m.Ok() && AllOut(m, r) && k < |r| && DistinctTickets(Listed(m, r))
    ensures r[k] !in Remove(r, k)
  {
    var b := Listed(m, r);
    RemoveFacts(r, k, Remove(r, k));
    forall i | 0 <= i < |r| && i != k ensures r[i] != r[k] {
      assert b[i].id != b[k].id;
    }
  }

  // ---------- What the steps make of the queue and the running list ----------

  /** The queue, the running list and the counter are those of the protocol's state. */
  ghost predicate Agrees(q: Queue, running: seq<Ticket>, idItor: int, s: Sched) {
    q == s.queue && running == s.running && idItor == s.book.count % INT_MAX
  }

  lemma SubmitAgrees(q: Queue, running: seq<Ticket>, idItor: int, q': Queue, idItor': int, s: Sched, t: Ticket,
                     fdPrio: int)
    requires Agrees(q, running, idItor, s) && Submits(q, q', Request(t.(id := IdOf(s.book.count)), fdPrio))
    requires idItor' == (if idItor + 1 == INT_MAX then 0 else idItor + 1)
    ensures Enabled(s, Submit(t, fdPrio)) ==> Agrees(q', running, idItor', Step(s, Submit(t, fdPrio)))
  {}

  lemma CancelAgrees(q: Queue, running: seq<Ticket>, idItor: int, s: Sched, h: int, id: int)
    requires Agrees(q, running, idItor, s) && NonemptyGroups(q)
    ensures Enabled(s, Cancel(h, id)) && Agrees(AioSpec.Cancel(q, h, id), running, idItor, Step(s, Cancel(h, id)))
    ensures AnswersCanceled(Step(s, Cancel(h, id)), id) <==> id !in Ids(multiset(running))
  {}

  lemma PopAgrees(q: Queue, running: seq<Ticket>, idItor: int, s: Sched, w: int)
    requires Agrees(q, running, idItor, s) && Enabled(s, Pop(w))
    ensures Agrees(q[PopGroups(q, POP_COUNT)..], running + AioProtocol.Batch(q), idItor, Step(s, Pop(w)))
    ensures Step(s, Pop(w)).workers[w].batch == AioProtocol.Batch(q)
  {
    CountStays(s.book, AioProtocol.Batch(q));
  }

  lemma {:induction false} CountStays(b: Book, batch: seq<Ticket>)
    ensures BeginAll(b, batch).count == b.count
    decreases |batch|
  {
    if batch != [] {
      CountStays(b, batch[..|batch| - 1]);
    }
  }

  lemma DequeueAgrees(q: Queue, running: seq<Ticket>, idItor: int, s: Sched, w: int)
    requires Agrees(q, running, idItor, s) && Enabled(s, Dequeue(w))
    ensures Agrees(q, Without(running, Current(s, w)), idItor, Step(s, Dequeue(w)))
  {}

  lemma FreeAgrees(q: Queue, running: seq<Ticket>, idItor: int, s: Sched, w: int)
    requires Agrees(q, running, idItor, s) && Enabled(s, AioProtocol.Free(w))
    ensures Agrees(q, running, idItor, Step(s, AioProtocol.Free(w)))
  {}

  // ---------- A worker's steps for one request ----------

  function Round(w: int, result: int): seq<Event> {
    [Pread(w, result)] + [Callback(w)] + [Dequeue(w)]
  }

  /** The state after the request was read and its handler called. */
  ghost function ReadAndCalled(s: Sched, w: int, result: int): Sched
    requires NonemptyGroups(s.queue) && At(s, w) && s.workers[w].phase.Start?
  {
    Step(Step(s, Pread(w, result)), Callback(w))
  }

  /** Reading and calling back are the worker's own affair. */
  lemma CallsMoves(s: Sched, w: int, result: int)
    requires Inv(s) && NonemptyGroups(s.queue) && At(s, w) && s.workers[w].phase.Start?
    ensures var s2 := ReadAndCalled(s, w, result);
            && s2.queue == s.queue && s2.running == s.running && s2.book == s.book
            && At(s2, w) && s2.workers[w] == s.workers[w].(phase := Called) && Enabled(s2, Dequeue(w))
            && Inv(s2) && DistinctIds(multiset(s2.running))
  {
    StepKeeps(s, Pread(w, result));
    StepKeeps(Step(s, Pread(w, result)), Callback(w));
    DistinctPart(Held(s.queue), multiset(s.running));
  }

  lemma RoundKeeps(s: Sched, w: int, result: int)
    requires Inv(s) && NonemptyGroups(s.queue) && At(s, w) && s.workers[w].phase.Start?
    ensures var s2 := ReadAndCalled(s, w, result);
            && Enabled(s2, Dequeue(w)) && Inv(Step(s2, Dequeue(w))) && Step(s2, Dequeue(w)).queue == s.queue
            && Step(s2, Dequeue(w)).workers == s2.workers[w := Busy(s.workers[w].batch, s.workers[w].at + 1, Start)]
  {
    CallsMoves(s, w, result);
    StepKeeps(ReadAndCalled(s, w, result), Dequeue(w));
  }

  lemma RoundLeads(s: Sched, w: int, result: int)
    requires NonemptyGroups(s.queue) && At(s, w) && s.workers[w].phase.Start?
    requires Enabled(ReadAndCalled(s, w, result), Dequeue(w))
    ensures Leads(Next(), s, Round(w, result), Step(ReadAndCalled(s, w, result), Dequeue(w)))
  {
    var s1, s2 := Step(s, Pread(w, result)), ReadAndCalled(s, w, result);
    Single(Next(), s, Pread(w, result), s1);
    Single(Next(), s1, Callback(w), s2);
    Single(Next(), s2, Dequeue(w), Step(s2, Dequeue(w)));
    Concat(Next(), s, [Pread(w, result)], s1, [Callback(w)], s2);
    Concat(Next(), s, [Pread(w, result)] + [Callback(w)], s2, [Dequeue(w)], Step(s2, Dequeue(w)));
  }

  /** Taking the first of the rest off the list, when it is there only once, leaves the others. */
  lemma FirstOfRest(r: seq<Ref>, b: seq<Ref>, i: nat, k: nat)
    requires i < |b| && k < |r + b[i..]| && (r + b[i..])[k] == b[i] && b[i] !in Remove(r + b[i..], k)
    ensures Remove(r + b[i..], k) == r + b[i + 1..]
  {
    var all := r + b[i..];
    assert all[|r|] == b[i];
    OthersStay(all, k, |r|);
    assert all[..|r|] == r && all[|r| + 1..] == b[i + 1..];
  }

  lemma OthersStay(s: seq<Ref>, k: nat, n: nat)
    requires k < |s| && n < |s|
    ensures k != n ==> s[n] in Remove(s, k)
  {
    RemoveFacts(s, k, Remove(s, k));
    if k != n {
      assert Remove(s, k)[if n < k then n else n - 1] == s[n];
    }
  }

  /** The protocol's invariant, looked into only where it is asked for. */
  ghost predicate Regular(s: Sched) {
    forall i {:trigger Asked(i)} | Asked(i) :: Inv(s)
  }

  lemma Opened(s: Sched)
    requires Regular(s)
    ensures Inv(s)
  {
    assert Asked(0);
  }

  lemma BatchTaken(s: Sched, w: int)
    requires Regular(s) && Enabled(s, Pop(w))
    ensures Regular(Step(s, Pop(w)))
  {
    Opened(s);
    StepKeeps(s, Pop(w));
  }

  lemma BatchFreed(s: Sched, w: int, calls: seq<Event>, s2: Sched)
    requires Enabled(s, Pop(w)) && Leads(Next(), Step(s, Pop(w)), calls, s2)
    requires Regular(s2) && Enabled(s2, AioProtocol.Free(w))
    ensures var s' := Step(s2, AioProtocol.Free(w));
            Regular(s') && Leads(Next(), s, [Pop(w)] + calls + [AioProtocol.Free(w)], s')
  {
    var s1, s' := Step(s, Pop(w)), Step(s2, AioProtocol.Free(w));
    Opened(s2);
    StepKeeps(s2, AioProtocol.Free(w));
    Single(Next(), s, Pop(w), s1);
    Single(Next(), s2, AioProtocol.Free(w), s');
    Concat(Next(), s, [Pop(w)], s1, calls, s2);
    Concat(Next(), s, [Pop(w)] + calls, s2, [AioProtocol.Free(w)], s');
  }

  // ---------- The object ----------

  class Scheduler {
    const queue: AioQueue.RequestQueue
    const running: AioRunning.RunningList

    ghost predicate Intact()
      reads queue, running
    {
      && queue.Valid() && running.Valid() && AllOut(queue.m, running.Running)
      && 0 <= queue.idItor < INT_MAX
    }

    ghost predicate Valid()
      reads queue, running
    {
      forall i {:trigger Asked(i)} | Asked(i) :: Intact()
    }

    lemma Inside(s: Sched)
      requires Shows(s)
      ensures Intact() && Agrees(queue.Q, Listed(queue.m, running.Running), queue.idItor, s)
    {
      assert Asked(0);
    }

    /** The object is in the protocol's state. */
    ghost predicate Shows(s: Sched)
      reads queue, running
    {
      forall i {:trigger Asked(i)} | Asked(i) ::
        Intact() && Agrees(queue.Q, Listed(queue.m, running.Running), queue.idItor, s)
    }

    /** A worker's batch: its nodes are linked, and in the worker's hands. */
    ghost predicate Holds(b: seq<Ref>)
      reads queue
    {
      queue.m.Ok() && Chained(queue.m.next, b) && Distinct(b) && AllOut(queue.m, b)
    }

    /** Batches in workers' hands stay as they are, but for one that is freed. */
    twostate lemma BatchesStay(gone: seq<Ref>)
      requires old(queue.m.Ok()) && queue.m.Ok() && |old(queue.m).req| <= |queue.m.req|
      requires forall x | 0 < x < |old(queue.m).req| && old(queue.m).place[x] == Out && x !in gone ::
                 queue.m.next[x] == old(queue.m).next[x] && queue.m.place[x] == Out
      ensures forall b | old(Holds(b)) && (forall x | x in b :: x !in gone) :: Holds(b)
    {
      forall b | old(Holds(b)) && (forall x | x in b :: x !in gone) ensures Holds(b) {
        ChainKept(old(queue.m).next, queue.m.next, b);
      }
    }

    /** A request of this id is in the running list. */
    ghost predicate Runs(id: int)
      requires Valid()
      reads queue, running
    {
      assert Asked(0);
      id in Ids(multiset(Listed(queue.m, running.Running)))
    }

    /** A state of the protocol, for a caller who does not follow it. */
    ghost function SomeState(): (s: Sched)
      requires Valid()
      reads queue, running
      ensures Shows(s)
    {
      assert Asked(0);
      Sched(queue.Q, Listed(queue.m, running.Running), map[], Book(queue.idItor, map[], map[], map[]), map[], {})
    }

    /** A group is never empty. */
    lemma GroupsNonempty(s: Sched)
      requires Shows(s)
      ensures NonemptyGroups(s.queue)
    {
      Inside(s);
      queue.QueueNonempty();
    }

    /** What a change of the queue leaves of the running list, as long as it keeps the nodes in use. */
    twostate lemma RunningStays()
      requires old(Intact()) && queue.Valid() && running.Valid() && old(running.Running) == running.Running
      requires old(queue.m.Ok()) && queue.m.Ok() && 0 <= queue.idItor < INT_MAX && HeldKept(old(queue.m), queue.m, NIL)
      ensures Intact() && Listed(queue.m, running.Running) == old(Listed(queue.m, running.Running))
    {
      ListedFrame(old(queue.m), queue.m, running.Running);
    }

    constructor (handles: nat, max: nat)
      ensures Valid() && Shows(Init()) && |queue.fdPool| == handles && queue.maxQueueSize == max
              && queue.queueListSize == 0
      ensures fresh(queue) && fresh(running)
    {
      queue := new AioQueue.RequestQueue(handles, max);
      running := new AioRunning.RunningList();
    }

    method PostNext(t: Ticket, fdPrio: int) returns (id: int)
      requires Intact() && 0 <= t.handle < |queue.fdPool|
      modifies queue
      ensures Intact() && |queue.fdPool| == old(|queue.fdPool|)
      ensures Listed(queue.m, running.Running) == old(Listed(queue.m, running.Running))
      ensures forall b | old(Holds(b)) :: Holds(b)
      ensures if old(queue.queueListSize) > queue.maxQueueSize then id == -1 && queue.Q == old(queue.Q)
                   && queue.idItor == old(queue.idItor)
              else id == old(queue.idItor) + 1 && queue.idItor == (if id == INT_MAX then 0 else id)
                   && Submits(old(queue.Q), queue.Q, Request(t.(id := id), fdPrio))
    {
      id := queue.StartAio(t, fdPrio);
      RunningStays();
      BatchesStay([]);
    }

    /** start_aio: refuses when too many requests are outstanding, and otherwise posts the request under the next id. */
    method StartAio(t: Ticket, fdPrio: int, ghost s: Sched) returns (id: int)
      requires Valid() && Shows(s) && 0 <= t.handle < |queue.fdPool|
      modifies queue
      ensures Valid() && |queue.fdPool| == old(|queue.fdPool|)
      ensures id == -1 <==> old(queue.queueListSize) > queue.maxQueueSize
      ensures forall b | old(Holds(b)) :: Holds(b)
      ensures id == -1 ==> Shows(s)
      ensures id != -1 ==> id == IdOf(s.book.count)
      ensures id != -1 && Enabled(s, Submit(t, fdPrio)) ==> Shows(Step(s, Submit(t, fdPrio)))
      ensures if id == -1 then queue.Q == old(queue.Q)
              else Submits(old(queue.Q), queue.Q, Request(t.(id := id), fdPrio))
    {
      Inside(s);
      ghost var q, i := queue.Q, queue.idItor;
      id := PostNext(t, fdPrio);
      if id != -1 {
        SubmitAgrees(q, Listed(queue.m, running.Running), i, queue.Q, queue.idItor, s, t, fdPrio);
      }
    }

    /** cancel_aio: takes the request out of the queue, if it is there, and then looks for it in the running list. */
    method CancelAio(handle: int, id: int, ghost s: Sched) returns (canceled: bool)
      requires Valid() && Shows(s) && 0 < handle < |queue.fdPool| && id > 0
      modifies queue
      ensures Valid() && |queue.fdPool| == old(|queue.fdPool|)
      ensures Enabled(s, Cancel(handle, id)) && Shows(Step(s, Cancel(handle, id)))
      ensures canceled <==> AnswersCanceled(Step(s, Cancel(handle, id)), id)
      ensures canceled <==> !old(Runs(id))
      ensures forall b | old(Holds(b)) :: Holds(b)
    {
      Inside(s);
      ghost var q := queue.Q;
      var _ := queue.CancelQueued(handle, id);
      RunningStays();
      BatchesStay([]);
      CancelAgrees(q, Listed(queue.m, running.Running), queue.idItor, s, handle, id);
      var found := running.FindInRunningList(id, queue.m.req);
      ListedIds(queue.m, running.Running, id);
      canceled := !found;
    }

    /** A worker pops a batch and enters it in the running list. */
    method TakeBatch(ghost s: Sched, ghost w: int) returns (popList: Ref, ghost b: seq<Ref>)
      requires Valid() && Shows(s) && queue.queueList != NIL && Enabled(s, Pop(w))
      modifies queue, running
      ensures Valid() && |queue.fdPool| == old(|queue.fdPool|)
      ensures Shows(Step(s, Pop(w))) && Holds(b) && b != [] && popList == b[0]
      ensures running.Running == old(running.Running) + b
      ensures forall c | old(Holds(c)) :: Holds(c) && forall x | x in c :: x !in b
      ensures Listed(queue.m, b) == Step(s, Pop(w)).workers[w].batch
    {
      Inside(s);
      ghost var q := queue.Q;
      popList, b := queue.PopBatch(POP_COUNT);
      RunningStays();
      BatchesStay([]);
      PopAgrees(q, Listed(queue.m, running.Running), queue.idItor, s, w);
      SpellListed(queue.m, b);
      ListedConcat(queue.m, running.Running, b);
      running.EnqueueToRunningList(popList, queue.m.next, b);
    }

    /**
     * After its callback the j-th request of a batch leaves the running list, and no other does; in every
     * reachable state the ids are distinct.
     */
    method Finish(p: Ref, ghost b: seq<Ref>, ghost j: nat, ghost s: Sched, ghost w: int)
      requires Valid() && Shows(s) && Holds(b) && j < |b| && p == b[j]
      requires p in running.Running && DistinctIds(multiset(s.running))
      requires Enabled(s, Dequeue(w)) && Current(s, w) == queue.m.req[p].ticket
      modifies running
      ensures Valid() && Shows(Step(s, Dequeue(w)))
      ensures running.Running == Remove(old(running.Running), AioRunning.IndexOf(old(running.Running), p))
      ensures p !in running.Running
    {
      Inside(s);
      ghost var r := running.Running;
      SamePlace(queue.m, r, p);
      running.DequeueFromRunningList(p);
      DequeueAgrees(queue.Q, Listed(queue.m, r), queue.idItor, s, w);
    }

    /** A finished batch goes back to the node pool. */
    method FreeBatch(p: Ref, ghost b: seq<Ref>, ghost s: Sched, ghost w: int)
      requires Valid() && Shows(s) && Enabled(s, AioProtocol.Free(w))
      requires Holds(b) && b != [] && p == b[0] && forall x | x in b :: x !in running.Running
      modifies queue
      ensures Valid() && Shows(Step(s, AioProtocol.Free(w))) && queue.queueListSize == old(queue.queueListSize) - |b|
      ensures forall c | old(Holds(c)) && (forall x | x in c :: x !in b) :: Holds(c)
    {
      Inside(s);
      FreeAgrees(queue.Q, Listed(queue.m, running.Running), queue.idItor, s, w);
      queue.FreeAioOptN(p, b);
      BatchesStay(b);
      assert Listed(queue.m, running.Running) == old(Listed(queue.m, running.Running));
    }

    // ---------- A worker's round ----------

    /** The worker has finished the first i requests of batch b, and the running list has the others, behind r. */
    ghost predicate Serving(s: Sched, w: int, r: seq<Ref>, b: seq<Ref>, i: nat)
      reads queue, running
    {
      && Valid() && Shows(s) && Regular(s) && Holds(b) && i <= |b|
      && running.Running == r + b[i..]
      && w in s.workers && s.workers[w] == Busy(Listed(queue.m, b), i, Start)
    }

    /** One request is read, its handler called, and the request taken off the running list. */
    method ServeOne(p: Ref, result: int, ghost s: Sched, ghost w: int, ghost r: seq<Ref>, ghost b: seq<Ref>,
                    ghost i: nat)
      returns (ghost s': Sched)
      requires Serving(s, w, r, b, i) && i < |b| && p == b[i]
      modifies running
      ensures Serving(s', w, r, b, i + 1) && b[i] !in running.Running
      ensures Leads(Next(), s, Round(w, result), s') && s'.queue == s.queue
    {
      Opened(s);
      Inside(s);
      CallsMoves(s, w, result);
      RoundKeeps(s, w, result);
      RoundLeads(s, w, result);
      ghost var s2 := ReadAndCalled(s, w, result);
      StillShown(s, s2);
      assert running.Running[|r|] == p;
      Finish(p, b, i, s2, w);
      s' := Step(s2, Dequeue(w));
      FirstOfRest(r, b, i, AioRunning.IndexOf(r + b[i..], p));
    }

    /** Nothing that the object shows has changed. */
    lemma StillShown(s: Sched, s': Sched)
      requires Shows(s) && s'.queue == s.queue && s'.running == s.running && s'.book.count == s.book.count
      ensures Shows(s')
    {
      Inside(s);
    }

    /** handle_aio_requests, but for the last line: goes along the batch. */
    method ServeAll(popList: Ref, results: nat -> int, ghost s: Sched, ghost w: int, ghost r: seq<Ref>,
                    ghost b: seq<Ref>)
      returns (ghost s': Sched, ghost es: seq<Event>)
      requires Serving(s, w, r, b, 0) && popList == First(b)
      modifies running
      ensures Serving(s', w, r, b, |b|) && Leads(Next(), s, es, s') && s'.queue == s.queue
      ensures forall x | x in b :: x !in running.Running
    {
      var itor, i := popList, 0;
      s', es := s, [];
      while itor != NIL
        invariant Serving(s', w, r, b, i) && itor == First(b[i..]) && Leads(Next(), s, es, s') && s'.queue == s.queue
        invariant forall j | 0 <= j < i :: b[j] !in running.Running
        decreases |b| - i
      {
        ghost var m := s';
        s' := ServeOne(itor, results(i), m, w, r, b, i);
        Concat(Next(), s, es, m, Round(w, results(i)), s');
        es := es + Round(w, results(i));
        itor, i := queue.m.next[itor], i + 1;
      }
    }

    /** Pops a batch, serves its requests one after the other, and frees it: one round of a worker, by itself. */
    method ServeBatch(results: nat -> int, ghost s: Sched, ghost w: int) returns (ghost s': Sched, ghost es: seq<Event>)
      requires Valid() && Shows(s) && Regular(s) && queue.queueList != NIL && Enabled(s, Pop(w))
      modifies queue, running
      ensures Valid() && Shows(s') && Regular(s') && Leads(Next(), s, es, s')
      ensures w in s'.workers && s'.workers[w].Idle? && s'.queue == s.queue[PopGroups(s.queue, POP_COUNT)..]
      ensures running.Running == old(running.Running)
    {
      ghost var r := running.Running;
      var popList;
      ghost var b;
      popList, b := TakeBatch(s, w);
      BatchTaken(s, w);
      assert b[0..] == b;
      ghost var s2, calls := ServeAll(popList, results, Step(s, Pop(w)), w, r, b);
      GroupsNonempty(s2);
      FreeBatch(popList, b, s2, w);
      s', es := Step(s2, AioProtocol.Free(w)), [Pop(w)] + calls + [AioProtocol.Free(w)];
      BatchFreed(s, w, calls, s2);
    }
  }
}
