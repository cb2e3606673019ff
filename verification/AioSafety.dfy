/** Every step of the scheduler keeps its invariant, and so does every run. */
module AioSafety {
  import opened AioSpec
  import opened AioSpecLemmas
  import opened AioProtocol

  // ---------- The book ----------

  lemma AcceptOk(b: Book)
    requires BookOk(b) && IdOf(b.count) !in b.waiting
    ensures BookOk(Accept(b)) && Accept(b).waiting.Keys == b.waiting.Keys + {IdOf(b.count)}
  {}

  lemma DropOk(b: Book, id: int)
    requires BookOk(b) && id in b.waiting
    ensures BookOk(Drop(b, id)) && Drop(b, id).waiting.Keys == b.waiting.Keys - {id}
  {}

  lemma BeginOk(b: Book, id: int)
    requires BookOk(b) && id in b.waiting && id !in b.running
    ensures var b' := Begin(b, id);
            BookOk(b') && b'.waiting.Keys == b.waiting.Keys - {id} && b'.running.Keys == b.running.Keys + {id}
  {}

  lemma FinishOk(b: Book, id: int)
    requires BookOk(b) && id in b.running
    ensures BookOk(Finish(b, id)) && Finish(b, id).running.Keys == b.running.Keys - {id}
  {}

  ghost predicate DistinctTickets(b: seq<Ticket>) {
    forall i, j | 0 <= i < j < |b| :: b[i].id != b[j].id
  }

  ghost function BatchIds(b: seq<Ticket>): set<int> {
    set i | 0 <= i < |b| :: b[i].id
  }

  lemma BatchIdsSnoc(front: seq<Ticket>, last: Ticket)
    requires DistinctTickets(front + [last])
    ensures BatchIds(front + [last]) == BatchIds(front) + {last.id} && last.id !in BatchIds(front)
    ensures DistinctTickets(front)
  {
    var b := front + [last];
    assert b[|front|] == last;
    assert forall i | 0 <= i < |front| :: b[i] == front[i];
  }

  lemma {:induction false} BeginAllOk(b: Book, batch: seq<Ticket>)
    requires BookOk(b) && DistinctTickets(batch)
    requires BatchIds(batch) <= b.waiting.Keys && BatchIds(batch) !! b.running.Keys
    ensures var b' := BeginAll(b, batch);
            && BookOk(b')
            && b'.waiting.Keys == b.waiting.Keys - BatchIds(batch)
            && b'.running.Keys == b.running.Keys + BatchIds(batch)
    decreases |batch|
  {
    if batch != [] {
      var front, last := batch[..|batch| - 1], batch[|batch| - 1];
      assert batch == front + [last];
      BatchIdsSnoc(front, last);
      BeginAllOk(b, front);
      BeginOk(BeginAll(b, front), last.id);
    }
  }

  lemma BatchIdsAreIds(b: seq<Ticket>)
    ensures BatchIds(b) == Ids(multiset(b))
  {
    forall i | 0 <= i < |b| ensures b[i].id in Ids(multiset(b)) {
      assert b[i] in multiset(b);
    }
    forall id | id in Ids(multiset(b)) ensures id in BatchIds(b) {
      var t :| t in multiset(b) && t.id == id;
      assert t in b;
      var i :| 0 <= i < |b| && b[i] == t;
    }
  }

  lemma IdsSum(a: multiset<Ticket>, b: multiset<Ticket>)
    ensures Ids(a + b) == Ids(a) + Ids(b)
  {
    forall id | id in Ids(a) + Ids(b) ensures id in Ids(a + b) {
      var t :| (t in a || t in b) && t.id == id;
      assert t in a + b;
    }
  }

  /** With distinct ids, taking one request out takes its id out of use. */
  lemma IdsRemove(ms: multiset<Ticket>, t: Ticket)
    requires DistinctIds(ms + multiset{t})
    ensures Ids(ms) == Ids(ms + multiset{t}) - {t.id} && DistinctIds(ms)
  {
    var all := ms + multiset{t};
    assert t in all && all[t] == 1;
    IdsSum(ms, multiset{t});
    assert Ids(multiset{t}) == {t.id} by {
      assert t in multiset{t};
    }
    forall u | u in ms ensures u.id != t.id {
      assert u in all;
    }
    assert forall u | u in ms :: u in all && ms[u] == all[u];
  }

  lemma IdsAdd(ms: multiset<Ticket>, t: Ticket)
    requires DistinctIds(ms) && t.id !in Ids(ms)
    ensures DistinctIds(ms + multiset{t}) && Ids(ms + multiset{t}) == Ids(ms) + {t.id}
  {
    forall u | u in ms ensures u.id != t.id {}
    IdsSum(ms, multiset{t});
    assert Ids(multiset{t}) == {t.id} by {
      assert t in multiset{t};
    }
  }

  lemma DistinctPart(a: multiset<Ticket>, b: multiset<Ticket>)
    requires DistinctIds(a + b)
    ensures DistinctIds(a) && DistinctIds(b) && Ids(a) !! Ids(b)
  {
    forall t, u | t in a && u in a && t.id == u.id ensures t == u && a[t] == 1 {
      assert t in a + b && u in a + b;
    }
    forall t, u | t in b && u in b && t.id == u.id ensures t == u && b[t] == 1 {
      assert t in a + b && u in a + b;
    }
    forall t, u | t in a && u in b ensures t.id != u.id {
      assert t in a + b && u in a + b;
    }
  }

  // ---------- Posting and cancelling ----------

  lemma SubmitConsistent(held: multiset<Ticket>, running: multiset<Ticket>, book: Book,
                         workers: map<int, Worker>, slot: map<int, (int, nat)>, pending: set<Ticket>, t: Ticket)
    requires Consistent(held, running, book, workers, slot, pending)
    requires t.id == IdOf(book.count) && t.id !in Ids(held) + Ids(running)
    ensures Consistent(held + multiset{t}, running, Accept(book), workers, slot, pending)
  {
    IdsSum(held, running);
    IdsAdd(held + running, t);
    assert held + multiset{t} + running == held + running + multiset{t};
    DistinctPart(held, running);
    IdsAdd(held, t);
    AcceptOk(book);
  }

  lemma SubmitKeeps(s: Sched, e: Event)
    requires Inv(s) && e.Submit? && Enabled(s, e)
    ensures Inv(Step(s, e))
  {
    var t := e.ticket.(id := IdOf(s.book.count));
    SubmitCorrect(s.queue, Request(t, e.fdPrio));
    SubmitConsistent(Held(s.queue), multiset(s.running), s.book, s.workers, s.slot, s.pending, t);
  }

  lemma CancelConsistent(held: multiset<Ticket>, held': multiset<Ticket>, running: multiset<Ticket>, book: Book,
                         workers: map<int, Worker>, slot: map<int, (int, nat)>, pending: set<Ticket>, t: Ticket)
    requires Consistent(held, running, book, workers, slot, pending) && held == held' + multiset{t}
    ensures t.id in book.waiting && Consistent(held', running, Drop(book, t.id), workers, slot, pending)
  {
    assert held + running == running + held && held' + running == running + held';
    OneLeaves(running, held, held', t);
    DropOk(book, t.id);
  }

  lemma CancelKeeps(s: Sched, e: Event)
    requires Inv(s) && e.Cancel? && Enabled(s, e)
    ensures Inv(Step(s, e))
  {
    CancelCorrect(s.queue, e.handle, e.id);
    if QueuedOn(s.queue, e.handle, e.id) {
      var q' := AioSpec.Cancel(s.queue, e.handle, e.id);
      var t: Ticket :| t.handle == e.handle && t.id == e.id && Held(s.queue) == Held(q') + multiset{t};
      CancelConsistent(Held(s.queue), Held(q'), multiset(s.running), s.book, s.workers, s.slot, s.pending, t);
    }
  }

  // ---------- Workers ----------

  lemma BatchDistinct(b: seq<Ticket>)
    requires DistinctIds(multiset(b))
    ensures DistinctTickets(b)
  {
    forall i, j | 0 <= i < j < |b| ensures b[i].id != b[j].id {
      Twice(b, i, j);
    }
  }

  /** Two places with the same ticket count twice. */
  lemma Twice(b: seq<Ticket>, i: nat, j: nat)
    requires i < j < |b|
    ensures b[i] in multiset(b) && b[j] in multiset(b) && (b[i] == b[j] ==> multiset(b)[b[i]] >= 2)
  {
    assert b == b[..j] + ([b[j]] + b[j + 1..]);
    assert b[..j][i] in b[..j];
  }

  lemma SlotsOk(w: int, b: seq<Ticket>, i: nat)
    requires DistinctTickets(b) && i < |b|
    ensures b[i].id in Slots(w, b) && Slots(w, b)[b[i].id] == (w, i)
  {
    assert b[i].id in (set j | 0 <= j < |b| :: b[j].id);
    assert PositionOf(b, b[i].id) == i;
  }

  lemma PopWorkers(running: multiset<Ticket>, workers: map<int, Worker>, slot: map<int, (int, nat)>,
                   pending: set<Ticket>, w: int, b: seq<Ticket>)
    requires WorkersOk(running, workers, slot, pending) && (w in workers ==> workers[w].Idle?)
    requires DistinctTickets(b) && BatchIds(b) !! Ids(running)
    ensures WorkersOk(running + multiset(b), workers[w := Busy(b, 0, Start)], slot + Slots(w, b), pending + Elements(b))
  {
    var workers', slot' := workers[w := Busy(b, 0, Start)], slot + Slots(w, b);
    forall v, i | v in workers' && workers'[v].Busy? && workers'[v].at <= i < |workers'[v].batch|
      ensures Placed(running + multiset(b), slot', pending + Elements(b), workers'[v], v, i)
    {
      if v == w {
        SlotsOk(w, b, i);
        assert b[i] in multiset(b) && b[i] in Elements(b);
      } else {
        assert Placed(running, slot, pending, workers[v], v, i);
        NoSlot(running, b, w, workers[v].batch[i]);
      }
    }
    forall t | t in pending + Elements(b) ensures t in running + multiset(b) {
      assert t in pending || t in multiset(b);
    }
  }

  lemma PopManned(running: multiset<Ticket>, workers: map<int, Worker>, slot: map<int, (int, nat)>, w: int,
                  b: seq<Ticket>)
    requires Manned(running, workers, slot) && (w in workers ==> workers[w].Idle?)
    requires DistinctTickets(b) && BatchIds(b) !! Ids(running)
    ensures Manned(running + multiset(b), workers[w := Busy(b, 0, Start)], slot + Slots(w, b))
  {
    forall t | t in running + multiset(b) ensures HeldBy(workers[w := Busy(b, 0, Start)], slot + Slots(w, b), t) {
      if t in multiset(b) {
        var i :| 0 <= i < |b| && b[i] == t;
        SlotsOk(w, b, i);
      } else {
        assert HeldBy(workers, slot, t);
        NoSlot(running, b, w, t);
      }
    }
  }

  lemma NoSlot(running: multiset<Ticket>, b: seq<Ticket>, w: int, t: Ticket)
    requires BatchIds(b) !! Ids(running) && t in running
    ensures t.id !in Slots(w, b) && t !in b
  {
    assert t.id in Ids(running);
    forall i | 0 <= i < |b| ensures b[i] != t {
      assert b[i].id in BatchIds(b);
    }
  }

  lemma PopHeld(q: Queue)
    requires WellFormed(q)
    ensures var rest := q[PopGroups(q, POP_COUNT)..];
            WellFormed(rest) && Held(q) == multiset(Batch(q)) + Held(rest)
  {
    PopCorrect(q, POP_COUNT);
  }

  lemma PopConsistent(held: multiset<Ticket>, held': multiset<Ticket>, running: multiset<Ticket>, book: Book,
                      workers: map<int, Worker>, slot: map<int, (int, nat)>, pending: set<Ticket>,
                      w: int, b: seq<Ticket>)
    requires Consistent(held, running, book, workers, slot, pending) && held == multiset(b) + held'
    requires w in workers ==> workers[w].Idle?
    ensures Consistent(held', running + multiset(b), BeginAll(book, b),
                       workers[w := Busy(b, 0, Start)], slot + Slots(w, b), pending + Elements(b))
  {
    assert held + running == held' + (running + multiset(b));
    DistinctPart(held, running);
    DistinctPart(multiset(b), held');
    BatchDistinct(b);
    BatchIdsAreIds(b);
    IdsSum(multiset(b), held');
    IdsSum(running, multiset(b));
    BeginAllOk(book, b);
    PopWorkers(running, workers, slot, pending, w, b);
    PopManned(running, workers, slot, w, b);
  }

  lemma PopKeeps(s: Sched, e: Event)
    requires Inv(s) && e.Pop? && Enabled(s, e)
    ensures Inv(Step(s, e))
  {
    var b := Batch(s.queue);
    var q' := s.queue[PopGroups(s.queue, POP_COUNT)..];
    PopHeld(s.queue);
    assert multiset(s.running + b) == multiset(s.running) + multiset(b);
    PopConsistent(Held(s.queue), Held(q'), multiset(s.running), s.book, s.workers, s.slot, s.pending, e.worker, b);
  }

  /** Requests in different places of the workers' batches are different. */
  lemma OtherPlace(running: multiset<Ticket>, workers: map<int, Worker>, slot: map<int, (int, nat)>,
                   pending: set<Ticket>,
                   w: int, v: int, i: nat)
    requires WorkersOk(running, workers, slot, pending)
    requires w in workers && workers[w].Busy? && workers[w].at < |workers[w].batch|
    requires v in workers && workers[v].Busy? && workers[v].at <= i < |workers[v].batch|
             && (v != w || i != workers[w].at)
    ensures workers[v].batch[i].id != workers[w].batch[workers[w].at].id
  {
    assert Placed(running, slot, pending, workers[v], v, i);
    assert Placed(running, slot, pending, workers[w], w, workers[w].at);
  }

  lemma CallbackWorkers(running: multiset<Ticket>, workers: map<int, Worker>, slot: map<int, (int, nat)>,
                        pending: set<Ticket>, w: int)
    requires WorkersOk(running, workers, slot, pending)
    requires w in workers && workers[w].Busy? && workers[w].at < |workers[w].batch|
    ensures var t := workers[w].batch[workers[w].at];
            WorkersOk(running, workers[w := workers[w].(phase := Called)], slot, pending - {t})
  {
    var t := workers[w].batch[workers[w].at];
    var workers' := workers[w := workers[w].(phase := Called)];
    forall v, i | v in workers' && workers'[v].Busy? && workers'[v].at <= i < |workers'[v].batch|
      ensures Placed(running, slot, pending - {t}, workers'[v], v, i)
    {
      assert Placed(running, slot, pending, workers[v], v, i);
      if v != w || i != workers[w].at {
        OtherPlace(running, workers, slot, pending, w, v, i);
      }
    }
  }

  lemma DequeueWorkers(running: multiset<Ticket>, workers: map<int, Worker>, slot: map<int, (int, nat)>,
                       pending: set<Ticket>, w: int, t: Ticket)
    requires WorkersOk(running + multiset{t}, workers, slot, pending)
    requires w in workers && workers[w].Busy? && workers[w].at < |workers[w].batch| && workers[w].phase == Called
    requires t == workers[w].batch[workers[w].at] && t !in pending
    ensures WorkersOk(running, workers[w := Busy(workers[w].batch, workers[w].at + 1, Start)], slot, pending)
  {
    var all := running + multiset{t};
    var workers' := workers[w := Busy(workers[w].batch, workers[w].at + 1, Start)];
    forall v, i | v in workers' && workers'[v].Busy? && workers'[v].at <= i < |workers'[v].batch|
      ensures Placed(running, slot, pending, workers'[v], v, i)
    {
      assert Placed(all, slot, pending, workers[v], v, i);
      OtherPlace(all, workers, slot, pending, w, v, i);
      assert workers[v].batch[i] in all && workers[v].batch[i] != t;
    }
    forall u | u in pending ensures u in running {
      assert u in all && u != t;
    }
  }

  lemma DequeueManned(running: multiset<Ticket>, workers: map<int, Worker>, slot: map<int, (int, nat)>, w: int,
                      t: Ticket)
    requires Manned(running + multiset{t}, workers, slot) && DistinctIds(running + multiset{t})
    requires w in workers && workers[w].Busy? && workers[w].at < |workers[w].batch|
             && t == workers[w].batch[workers[w].at]
    ensures Manned(running, workers[w := Busy(workers[w].batch, workers[w].at + 1, Start)], slot)
  {
    forall u | u in running ensures HeldBy(workers[w := Busy(workers[w].batch, workers[w].at + 1, Start)], slot, u) {
      assert u in running + multiset{t} && HeldBy(workers, slot, u);
      assert u != t by {
        assert (running + multiset{t})[t] == running[t] + 1;
      }
    }
  }

  /** A worker that keeps its batch and its place, or that has finished its batch, lets go of nothing. */
  lemma PhaseManned(running: multiset<Ticket>, workers: map<int, Worker>, slot: map<int, (int, nat)>, w: int,
                    wk: Worker)
    requires Manned(running, workers, slot) && w in workers && workers[w].Busy?
    requires (wk.Busy? && wk.batch == workers[w].batch && wk.at == workers[w].at) || workers[w].at == |workers[w].batch|
    ensures Manned(running, workers[w := wk], slot)
  {
    forall t | t in running ensures HeldBy(workers[w := wk], slot, t) {
      assert HeldBy(workers, slot, t);
    }
  }

  lemma WithoutHeld(r: seq<Ticket>, t: Ticket)
    requires t in r
    ensures multiset(r) == multiset(Without(r, t)) + multiset{t}
  {
    var k := Find(r, t);
    assert r == r[..k] + ([r[k]] + r[k + 1..]);
  }

  /** One request leaves; the others keep distinct ids. */
  lemma OneLeaves(held: multiset<Ticket>, running: multiset<Ticket>, running': multiset<Ticket>, t: Ticket)
    requires DistinctIds(held + running) && running == running' + multiset{t}
    ensures DistinctIds(held + running') && t.id in Ids(running) && Ids(running') == Ids(running) - {t.id}
  {
    assert held + running' + multiset{t} == held + running;
    IdsRemove(held + running', t);
    DistinctPart(held, running);
    IdsRemove(running', t);
    assert t in running;
  }

  lemma DequeueConsistent(held: multiset<Ticket>, running: multiset<Ticket>, running': multiset<Ticket>, book: Book,
                          workers: map<int, Worker>, slot: map<int, (int, nat)>, pending: set<Ticket>,
                          w: int, t: Ticket)
    requires Consistent(held, running, book, workers, slot, pending) && running == running' + multiset{t}
    requires w in workers && workers[w].Busy? && workers[w].at < |workers[w].batch| && workers[w].phase == Called
    requires t == workers[w].batch[workers[w].at]
    ensures t.id in book.running
    ensures Consistent(held, running', Finish(book, t.id),
                       workers[w := Busy(workers[w].batch, workers[w].at + 1, Start)], slot, pending)
  {
    assert Placed(running, slot, pending, workers[w], w, workers[w].at);
    OneLeaves(held, running, running', t);
    FinishOk(book, t.id);
    DequeueWorkers(running', workers, slot, pending, w, t);
    assert DistinctIds(running) by {
      DistinctPart(held, running);
    }
    DequeueManned(running', workers, slot, w, t);
  }

  /** The request a worker is handling is in the running list, so that the list's search for it succeeds. */
  lemma CurrentRuns(s: Sched, w: int)
    requires Inv(s) && At(s, w)
    ensures Current(s, w) in s.running
    ensures Current(s, w) in s.pending <==> s.workers[w].phase != Called
  {
    assert Placed(multiset(s.running), s.slot, s.pending, s.workers[w], w, s.workers[w].at);
  }

  /** Worker w has called the handler of t, and has yet to take t off the running list. */
  ghost predicate AfterCallback(s: Sched, w: int, t: Ticket) {
    At(s, w) && s.workers[w].phase.Called? && Current(s, w) == t
  }

  /**
   * A request that no longer waits for its callback is still listed exactly while a worker is between the two
   * steps.
   */
  lemma ListedAfterCallback(s: Sched, t: Ticket)
    requires Inv(s) && t !in s.pending
    ensures t in s.running <==> exists w :: AfterCallback(s, w, t)
  {
    if t in s.running {
      assert t in multiset(s.running) && HeldBy(s.workers, s.slot, t);
      var (w, i) := s.slot[t.id];
      assert Placed(multiset(s.running), s.slot, s.pending, s.workers[w], w, i);
      assert AfterCallback(s, w, t);
    }
    forall w | AfterCallback(s, w, t) ensures t in s.running {
      CurrentRuns(s, w);
    }
  }

  lemma CurrentLeaves(s: Sched, w: int)
    requires Inv(s) && At(s, w)
    ensures multiset(s.running) == multiset(Without(s.running, Current(s, w))) + multiset{Current(s, w)}
  {
    CurrentRuns(s, w);
    WithoutHeld(s.running, Current(s, w));
  }

  lemma DequeueKeeps(s: Sched, w: int)
    requires Inv(s) && At(s, w) && s.workers[w].phase == Called
    ensures Inv(FinishCurrent(s, w))
  {
    CurrentLeaves(s, w);
    LeavingKeeps(s, w, Without(s.running, Current(s, w)));
  }

  lemma LeavingKeeps(s: Sched, w: int, r: seq<Ticket>)
    requires Inv(s) && At(s, w) && s.workers[w].phase == Called
    requires multiset(s.running) == multiset(r) + multiset{Current(s, w)}
    ensures Current(s, w).id in s.book.running
    ensures Inv(s.(running := r, workers := s.workers[w := Busy(s.workers[w].batch, s.workers[w].at + 1, Start)],
                   book := Finish(s.book, Current(s, w).id)))
  {
    var t := Current(s, w);
    DequeueConsistent(Held(s.queue), multiset(s.running), multiset(r), s.book, s.workers, s.slot, s.pending, w, t);
  }

  lemma PhaseWorkers(running: multiset<Ticket>, workers: map<int, Worker>, slot: map<int, (int, nat)>,
                     pending: set<Ticket>, w: int, wk: Worker)
    requires WorkersOk(running, workers, slot, pending) && w in workers
    requires wk.Idle? || (workers[w].Busy? && workers[w].phase == Start && wk.Busy? && wk.batch == workers[w].batch
                          && wk.at == workers[w].at && wk.phase != Called)
    ensures WorkersOk(running, workers[w := wk], slot, pending)
  {
    var workers' := workers[w := wk];
    forall v, i | v in workers' && workers'[v].Busy? && workers'[v].at <= i < |workers'[v].batch|
      ensures Placed(running, slot, pending, workers'[v], v, i)
    {
      assert Placed(running, slot, pending, workers[v], v, i);
    }
  }

  /** Every step keeps the invariant. */
  lemma StepKeeps(s: Sched, e: Event)
    requires Inv(s) && Enabled(s, e)
    ensures Inv(Step(s, e))
  {
    match e
    case Submit(_, _) => SubmitKeeps(s, e);
    case Cancel(_, _) => CancelKeeps(s, e);
    case Pop(_) => PopKeeps(s, e);
    case Pread(w, result) =>
      PhaseWorkers(multiset(s.running), s.workers, s.slot, s.pending, w, s.workers[w].(phase := Read(result)));
      PhaseManned(multiset(s.running), s.workers, s.slot, w, s.workers[w].(phase := Read(result)));
    case Callback(w) =>
      CallbackWorkers(multiset(s.running), s.workers, s.slot, s.pending, w);
      PhaseManned(multiset(s.running), s.workers, s.slot, w, s.workers[w].(phase := Called));
    case Dequeue(w) => DequeueKeeps(s, w);
    case Free(w) =>
      PhaseWorkers(multiset(s.running), s.workers, s.slot, s.pending, w, Idle);
      PhaseManned(multiset(s.running), s.workers, s.slot, w, Idle);
  }
}
