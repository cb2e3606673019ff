/** What the scheduler promises over whole runs. */
module AioTheorems {
  import opened Runs
  import opened AioSpec
  import opened AioSpecLemmas
  import opened AioProtocol
  import opened AioSafety

  ghost predicate Goes(s: Sched, e: Event, s': Sched) {
    Enabled(s, e) && s' == Step(s, e)
  }

  /** The step relation of the scheduler. */
  ghost function Next(): (Sched, Event, Sched) -> bool {
    (s: Sched, e: Event, s': Sched) => Goes(s, e, s')
  }

  /** The states of the scheduler's runs. */
  ghost predicate Reached(es: seq<Event>, s: Sched) {
    Leads(Next(), Init(), es, s)
  }

  lemma ReachedInv(es: seq<Event>, s: Sched)
    requires Reached(es, s)
    ensures Inv(s)
  {
    InitInv();
    forall m, e, m' | Inv(m) && Goes(m, e, m') ensures Inv(m') {
      StepKeeps(m, e);
    }
    Keeps(Next(), e => true, m => Inv(m), Init(), es, s);
  }

  /**
   * In every state of every run, each accepted request is in exactly one place:
   * waiting in the queue, in the running list, completed or cancelled.
   */
  lemma OnePlace(es: seq<Event>, s: Sched, n: nat)
    requires Reached(es, s) && n < s.book.count
    ensures n in s.book.status
    ensures QueuedIds(s) == s.book.waiting.Keys && RunningIds(s) == s.book.running.Keys
    ensures QueuedIds(s) !! RunningIds(s)
    ensures s.book.status[n] == Waiting <==> IdOf(n) in QueuedIds(s) && s.book.waiting[IdOf(n)] == n
    ensures s.book.status[n] == Running <==> IdOf(n) in RunningIds(s) && s.book.running[IdOf(n)] == n
  {
    ReachedInv(es, s);
    PlaceOf(s, n);
  }

  lemma PlaceOf(s: Sched, n: nat)
    requires Inv(s) && n < s.book.count
    ensures n in s.book.status
    ensures QueuedIds(s) == s.book.waiting.Keys && RunningIds(s) == s.book.running.Keys
    ensures QueuedIds(s) !! RunningIds(s)
    ensures s.book.status[n] == Waiting <==> IdOf(n) in QueuedIds(s) && s.book.waiting[IdOf(n)] == n
    ensures s.book.status[n] == Running <==> IdOf(n) in RunningIds(s) && s.book.running[IdOf(n)] == n
  {
    DistinctPart(Held(s.queue), multiset(s.running));
  }

  /**
   * What cancel_aio leaves behind.  The id is out of the queue exactly when no
   * request of that id waits on a different handle than the caller named.
   */
  lemma CancelClears(s: Sched, h: int, id: int)
    requires Inv(s)
    ensures var s' := Step(s, Cancel(h, id));
            id !in QueuedIds(s') <==> forall t | t in Held(s.queue) && t.id == id :: t.handle == h
  {
    var s' := Step(s, Cancel(h, id));
    CancelCorrect(s.queue, h, id);
    DistinctPart(Held(s.queue), multiset(s.running));
    if QueuedOn(s.queue, h, id) {
      var t: Ticket :| t.handle == h && t.id == id && Held(s.queue) == Held(s'.queue) + multiset{t};
      IdsRemove(Held(s'.queue), t);
      assert t in Held(s.queue);
    } else {
      if id in QueuedIds(s') {
        var t :| t in Held(s'.queue) && t.id == id;
        assert t in Held(s.queue);
      }
      forall t | t in Held(s.queue) && t.id == id ensures t.handle != h && id in QueuedIds(s') {}
    }
  }

  /**
   * What cancel_aio answers for the n-th accepted request, and what becomes of it: one that waits on the handle is
   * cancelled, and so answered; one that runs goes on running, and is answered as not cancelled; and one that was
   * completed or cancelled before stays what it was.
   */
  lemma CancelAnswers(es: seq<Event>, s: Sched, n: nat, h: int)
    requires Reached(es, s) && n < s.book.count && Enabled(s, Cancel(h, IdOf(n)))
    ensures n in s.book.status
    ensures var s' := Step(s, Cancel(h, IdOf(n)));
            && n in s'.book.status
            && (s.book.status[n] == Waiting && QueuedOn(s.queue, h, IdOf(n)) ==>
                  s'.book.status[n] == Cancelled && AnswersCanceled(s', IdOf(n)))
            && (s.book.status[n] == Running ==> s'.book.status[n] == Running && !AnswersCanceled(s', IdOf(n)))
            && (Final(s.book, n) ==> s'.book.status[n] == s.book.status[n])
  {
    ReachedInv(es, s);
    StepKeeps(s, Cancel(h, IdOf(n)));
    PlaceOf(s, n);
    if Final(s.book, n) {
      FinalStays(s, Cancel(h, IdOf(n)), n);
    }
  }

  /** The request is answered as cancelled, and waits on: the caller named another handle. */
  ghost predicate CanceledYetQueued(s: Sched, h: int, id: int) {
    && Enabled(s, Cancel(h, id)) && AnswersCanceled(Step(s, Cancel(h, id)), id)
    && id in QueuedIds(Step(s, Cancel(h, id)))
  }

  /** A run to such a state: one request on handle 1, cancelled on handle 2. */
  lemma CanceledOnOtherHandle()
    ensures exists es, s :: Reached(es, s) && CanceledYetQueued(s, 2, 1)
  {
    var t := Ticket(0, 1, 0, 0, 1, 1, 1);
    var s := Step(Init(), Submit(t, 0));
    InitInv();
    StepKeeps(Init(), Submit(t, 0));
    SubmitCorrect([], Request(t.(id := 1), 0));
    Single(Next(), Init(), Submit(t, 0), s);
    assert t.(id := 1) in Held(s.queue);
    CancelClears(s, 2, 1);
    assert Reached([Submit(t, 0)], s);
  }

  ghost predicate Final(b: Book, n: nat) {
    n in b.status && (b.status[n] == Completed || b.status[n] == Cancelled)
  }

  lemma {:induction false} BeginAllFinal(b: Book, batch: seq<Ticket>, n: nat)
    requires Final(b, n) && forall id | id in b.waiting :: b.waiting[id] != n
    ensures Final(BeginAll(b, batch), n) && BeginAll(b, batch).status[n] == b.status[n]
    ensures forall id | id in BeginAll(b, batch).waiting ::
              id in b.waiting && BeginAll(b, batch).waiting[id] == b.waiting[id]
    decreases |batch|
  {
    if batch != [] {
      BeginAllFinal(b, batch[..|batch| - 1], n);
    }
  }

  /** A completed or cancelled request stays so. */
  lemma FinalStays(s: Sched, e: Event, n: nat)
    requires BookOk(s.book) && Enabled(s, e) && Final(s.book, n)
    ensures Final(Step(s, e).book, n) && Step(s, e).book.status[n] == s.book.status[n]
  {
    if e.Pop? {
      BeginAllFinal(s.book, Batch(s.queue), n);
    }
  }

  lemma FinalForever(s: Sched, es: seq<Event>, s': Sched, n: nat)
    requires Inv(s) && Leads(Next(), s, es, s') && Final(s.book, n)
    ensures Inv(s') && Final(s'.book, n)
  {
    forall m, e, m' | Inv(m) && Final(m.book, n) && Goes(m, e, m') ensures Inv(m') && Final(m'.book, n) {
      StepKeeps(m, e);
      FinalStays(m, e, n);
    }
    Keeps(Next(), e => true, m => Inv(m) && Final(m.book, n), s, es, s');
  }

  /** The step invokes the callback of the n-th accepted request. */
  ghost predicate CallsBack(s: Sched, e: Event, n: nat) {
    e.Callback? && At(s, e.worker) && Current(s, e.worker).id in s.book.running
    && s.book.running[Current(s, e.worker).id] == n
  }

  /** Every callback is the callback of one accepted request, and that request is running. */
  lemma CallbackOfRunning(s: Sched, e: Event) returns (n: nat)
    requires Inv(s) && Enabled(s, e) && e.Callback?
    ensures CallsBack(s, e, n) && n in s.book.status && s.book.status[n] == Running
  {
    CurrentRuns(s, e.worker);
    var t := Current(s, e.worker);
    assert t in multiset(s.running) && t.id in Ids(multiset(s.running));
    n := s.book.running[t.id];
  }

  /**
   * Once cancel_aio has answered that a request is cancelled, no callback for
   * that request ever starts, whatever the rest of the run does.
   */
  lemma CanceledNeverCalledBack(es: seq<Event>, s: Sched, n: nat, h: int, more: seq<Event>, s': Sched, e: Event)
    requires Reached(es, s) && n < s.book.count
    requires forall t | t in Held(s.queue) && t.id == IdOf(n) :: t.handle == h
    requires Enabled(s, Cancel(h, IdOf(n))) && AnswersCanceled(Step(s, Cancel(h, IdOf(n))), IdOf(n))
    requires Leads(Next(), Step(s, Cancel(h, IdOf(n))), more, s') && Enabled(s', e)
    ensures Final(s'.book, n) && !CallsBack(s', e, n)
  {
    ReachedInv(es, s);
    CanceledIsFinal(s, n, h);
    FinalForever(Step(s, Cancel(h, IdOf(n))), more, s', n);
  }

  lemma CanceledIsFinal(s: Sched, n: nat, h: int)
    requires Inv(s) && n < s.book.count
    requires forall t | t in Held(s.queue) && t.id == IdOf(n) :: t.handle == h
    requires AnswersCanceled(Step(s, Cancel(h, IdOf(n))), IdOf(n))
    ensures var s' := Step(s, Cancel(h, IdOf(n))); Inv(s') && Final(s'.book, n)
  {
    CancelClears(s, h, IdOf(n));
    StepKeeps(s, Cancel(h, IdOf(n)));
    PlaceOf(Step(s, Cancel(h, IdOf(n))), n);
  }
}
