/**
 * The scheduler as a protocol: submitters, cancellers and workers take turns,
 * one critical section at a time.  A state of the protocol holds the request
 * queue, the running list and what each worker is doing.
 */
module AioProtocol {
  import opened AioSpec
  import opened AioSpecLemmas

  const POP_COUNT := 5

  /** Where a worker is with the request it is handling. */
  datatype Phase = Start | Read(result: int) | Called

  /** A worker handles its batch in order; the first `at` requests are finished. */
  datatype Worker = Idle | Busy(batch: seq<Ticket>, at: nat, phase: Phase)

  /** The life of an accepted request. */
  datatype Status = Waiting | Running | Completed | Cancelled

  datatype Sched = Sched(
    queue: Queue,
    running: seq<Ticket>,
    workers: map<int, Worker>,
    // History: the accepted requests and what became of them; for each id, which worker took it
    // and in what place; and the running requests that have not had their callback.
    book: Book,
    slot: map<int, (int, nat)>,
    pending: set<Ticket>)

  /** The n-th accepted request has status[n]; the maps lead from the ids in use to the requests they name. */
  datatype Book = Book(count: nat, waiting: map<int, nat>, running: map<int, nat>, status: map<nat, Status>)

  /** The id of the n-th accepted request: ids count up from 1 and wrap around at INT_MAX. */
  function IdOf(n: nat): int {
    n % INT_MAX + 1
  }

  ghost function Init(): Sched {
    Sched([], [], map[], Book(0, map[], map[], map[]), map[], {})
  }

  /** The ids of the requests in the queue, and in the running list. */
  ghost function QueuedIds(s: Sched): set<int> {
    Ids(Held(s.queue))
  }

  ghost function RunningIds(s: Sched): set<int> {
    Ids(multiset(s.running))
  }

  // ---------- Steps ----------

  datatype Event =
    | Submit(ticket: Ticket, fdPrio: int)
    | Cancel(handle: int, id: int)
    | Pop(worker: int)
    | Pread(worker: int, result: int)
    | Callback(worker: int)
    | Dequeue(worker: int)
    | Free(worker: int)

  predicate At(s: Sched, w: int) {
    w in s.workers && s.workers[w].Busy? && s.workers[w].at < |s.workers[w].batch|
  }

  function Current(s: Sched, w: int): Ticket
    requires At(s, w)
  {
    s.workers[w].batch[s.workers[w].at]
  }

  /** When a step can be taken.  A request is posted only while its id is not in use by an older one. */
  ghost predicate Enabled(s: Sched, e: Event) {
    && NonemptyGroups(s.queue)
    && match e
       case Submit(_, _) => IdOf(s.book.count) !in QueuedIds(s) + RunningIds(s)
       case Cancel(_, _) => true
       case Pop(w) => s.queue != [] && (w !in s.workers || s.workers[w].Idle?)
       case Pread(w, _) => At(s, w) && s.workers[w].phase.Start?
       case Callback(w) => At(s, w) && s.workers[w].phase.Read?
       case Dequeue(w) => At(s, w) && s.workers[w].phase.Called?
       case Free(w) => w in s.workers && s.workers[w].Busy? && s.workers[w].at == |s.workers[w].batch|
  }

  function Batch(q: Queue): seq<Ticket> {
    Tickets(Flatten(q[..PopGroups(q, POP_COUNT)]))
  }

  /** The tickets of a batch by their position. */
  ghost function Slots(w: int, b: seq<Ticket>): map<int, (int, nat)> {
    map id | id in (set i | 0 <= i < |b| :: b[i].id) :: (w, PositionOf(b, id))
  }

  function PositionOf(b: seq<Ticket>, id: int): (k: nat)
    ensures k <= |b| && (k < |b| ==> b[k].id == id) && (forall j | 0 <= j < k :: b[j].id != id)
  {
    if b == [] || b[0].id == id then 0
    else
      var k := PositionOf(b[1..], id);
      assert forall j | 1 <= j < k + 1 :: b[j] == b[1..][j - 1];
      k + 1
  }

  ghost function Elements(b: seq<Ticket>): set<Ticket> {
    set t | t in b
  }

  // ---------- Keeping the book ----------

  function Accept(b: Book): Book {
    Book(b.count + 1, b.waiting[IdOf(b.count) := b.count], b.running, b.status[b.count := Waiting])
  }

  function Drop(b: Book, id: int): Book
    requires id in b.waiting
  {
    b.(waiting := b.waiting - {id}, status := b.status[b.waiting[id] := Cancelled])
  }

  function Begin(b: Book, id: int): Book
    requires id in b.waiting
  {
    b.(waiting := b.waiting - {id}, running := b.running[id := b.waiting[id]],
       status := b.status[b.waiting[id] := Running])
  }

  function Finish(b: Book, id: int): Book
    requires id in b.running
  {
    b.(running := b.running - {id}, status := b.status[b.running[id] := Completed])
  }

  /** All requests of a batch begin. */
  function BeginAll(b: Book, batch: seq<Ticket>): Book
    decreases |batch|
  {
    if batch == [] then b
    else
      var b' := BeginAll(b, batch[..|batch| - 1]);
      var id := batch[|batch| - 1].id;
      if id in b'.waiting then Begin(b', id) else b'
  }

  function Find(r: seq<Ticket>, t: Ticket): (k: nat)
    ensures k <= |r| && (k < |r| ==> r[k] == t) && (k == |r| ==> t !in r)
  {
    if r == [] || r[0] == t then 0 else 1 + Find(r[1..], t)
  }

  function Without(r: seq<Ticket>, t: Ticket): seq<Ticket> {
    var k := Find(r, t);
    if k < |r| then r[..k] + r[k + 1..] else r
  }

  /** The finished request leaves the running list. */
  function FinishCurrent(s: Sched, w: int): Sched
    requires At(s, w)
  {
    var t := Current(s, w);
    s.(running := Without(s.running, t),
       workers := s.workers[w := Busy(s.workers[w].batch, s.workers[w].at + 1, Start)],
       book := if t.id in s.book.running then Finish(s.book, t.id) else s.book)
  }

  ghost function Step(s: Sched, e: Event): Sched
    requires Enabled(s, e)
  {
    match e
    case Submit(t, fdPrio) =>
      // the critical section of start_aio
      s.(queue := AioSpec.Submit(s.queue, Request(t.(id := IdOf(s.book.count)), fdPrio)), book := Accept(s.book))
    case Cancel(h, id) =>
      // the critical section of cancel_aio: the request leaves the queue, if it is there
      s.(queue := AioSpec.Cancel(s.queue, h, id),
         book := if QueuedOn(s.queue, h, id) && id in s.book.waiting then Drop(s.book, id) else s.book)
    case Pop(w) =>
      // a worker pops a batch and enters it in the running list, both under the queue's lock
      var b := Batch(s.queue);
      s.(queue := s.queue[PopGroups(s.queue, POP_COUNT)..], running := s.running + b,
         workers := s.workers[w := Busy(b, 0, Start)], slot := s.slot + Slots(w, b),
         book := BeginAll(s.book, b), pending := s.pending + Elements(b))
    case Pread(w, result) =>
      s.(workers := s.workers[w := s.workers[w].(phase := Read(result))])
    case Callback(w) =>
      s.(workers := s.workers[w := s.workers[w].(phase := Called)], pending := s.pending - {Current(s, w)})
    case Dequeue(w) =>
      FinishCurrent(s, w)
    case Free(w) =>
      s.(workers := s.workers[w := Idle])
  }

  /** What cancel_aio answers. */
  ghost predicate AnswersCanceled(s: Sched, id: int) {
    id !in RunningIds(s)
  }

  // ---------- What every reachable state satisfies ----------

  /** No two outstanding requests share an id. */
  ghost predicate DistinctIds(ms: multiset<Ticket>) {
    forall t, u | t in ms && u in ms && t.id == u.id :: t == u && ms[t] == 1
  }

  ghost function Ids(ms: multiset<Ticket>): set<int> {
    set t | t in ms :: t.id
  }

  /** The ids in use name the requests that have the status, and no others. */
  ghost predicate Names(ids: map<int, nat>, status: map<nat, Status>, st: Status) {
    && (forall id | id in ids :: ids[id] in status && status[ids[id]] == st && IdOf(ids[id]) == id)
    && (forall n | n in status && status[n] == st :: IdOf(n) in ids && ids[IdOf(n)] == n)
  }

  /** Every accepted request has one status. */
  ghost predicate BookOk(b: Book) {
    && (forall n: nat :: n in b.status <==> n < b.count)
    && Names(b.waiting, b.status, Waiting)
    && Names(b.running, b.status, Running)
  }

  /** Request i of a worker's batch, still to be finished, is running, and pending until its callback. */
  ghost predicate Placed(running: multiset<Ticket>, slot: map<int, (int, nat)>, pending: set<Ticket>, wk: Worker,
                         w: int, i: nat)
    requires wk.Busy? && i < |wk.batch|
  {
    var t := wk.batch[i];
    && t in running && t.id in slot && slot[t.id] == (w, i)
    && (t in pending <==> i > wk.at || wk.phase != Called)
  }

  /** What the workers have yet to do is in the running list, each request in one place only. */
  ghost predicate WorkersOk(running: multiset<Ticket>, workers: map<int, Worker>, slot: map<int, (int, nat)>,
                            pending: set<Ticket>) {
    && (forall t | t in pending :: t in running)
    && (forall w, i | w in workers && workers[w].Busy? && workers[w].at <= i < |workers[w].batch| ::
          Placed(running, slot, pending, workers[w], w, i))
    && (forall w | w in workers && workers[w].Busy? :: workers[w].at <= |workers[w].batch|)
  }

  /** Request t is one that worker w has yet to finish, in the place that `slot` tells. */
  ghost predicate HeldBy(workers: map<int, Worker>, slot: map<int, (int, nat)>, t: Ticket) {
    && t.id in slot
    && var (w, i) := slot[t.id];
       w in workers && workers[w].Busy? && workers[w].at <= i < |workers[w].batch| && workers[w].batch[i] == t
  }

  /** Every running request is in the unfinished part of some worker's batch. */
  ghost predicate Manned(running: multiset<Ticket>, workers: map<int, Worker>, slot: map<int, (int, nat)>) {
    forall t | t in running :: HeldBy(workers, slot, t)
  }

  /** The queue's contents, the running list, the book and the workers agree. */
  ghost predicate Consistent(held: multiset<Ticket>, running: multiset<Ticket>, book: Book,
                             workers: map<int, Worker>, slot: map<int, (int, nat)>, pending: set<Ticket>)
  {
    && DistinctIds(held + running)
    && BookOk(book)
    && Ids(held) == book.waiting.Keys
    && Ids(running) == book.running.Keys
    && WorkersOk(running, workers, slot, pending)
    && Manned(running, workers, slot)
  }

  ghost predicate Inv(s: Sched) {
    WellFormed(s.queue) && Consistent(Held(s.queue), multiset(s.running), s.book, s.workers, s.slot, s.pending)
  }

  lemma InitInv()
    ensures Inv(Init())
  {
    assert Flatten([]) == [] && Tickets([]) == [];
  }
}
