/** The timer queue: timers are scheduled, cancelled by id or by handler, and expire in the order of their deadlines. */
module TimerQueue {
  import opened TimeValue
  import opened TimerHeap
  import opened TimerSpec

  const NO_TIMER := Timer(-1, 0, 0, ZERO, ZERO)

  class Queue {
    const maxSize: nat
    var heap: array<Timer>
    var ids: array<int>
    var size: nat
    var minId: int

    /** The live timers by id. */
    ghost var timers: map<int, Timer>

    ghost predicate Valid()
      reads this, heap, ids
    {
      && heap.Length == ids.Length >= 3 && size <= maxSize && |timers| == size
      && Settled(heap[..], ids[..], size, timers, -1)
      && HintOk(timers, minId)
      && AllNormal(timers)
    }

    /** There is a free slot; and the last id of the table is free, or the table never needs to grow. */
    ghost predicate Roomy()
      reads this
    {
      size < ids.Length && (ids.Length > maxSize || ids.Length - 1 !in timers)
    }

    /** The queue is full, or one more timer fits without another's entry being lost (GrowthKeepsIds). */
    ghost predicate Fits()
      reads this
    {
      size < maxSize ==> Growable(timers, size, ids.Length)
    }

    constructor (max: nat, preAlloc: nat)
      requires preAlloc >= 3
      ensures Valid() && Roomy() && timers == map[] && maxSize == max && fresh(heap) && fresh(ids)
              && ids.Length == preAlloc
    {
      maxSize := max;
      heap := new Timer[preAlloc](_ => NO_TIMER);
      ids := new int[preAlloc](_ => -1);
      size, minId, timers := 0, 0, map[];
    }

    // ---------- Moving timers about ----------

    method Copy(slot: nat, t: Timer)
      requires slot < heap.Length && 0 <= t.id < ids.Length && heap.Length == ids.Length
      modifies heap, ids
      ensures heap[..] == old(heap[..])[slot := t] && ids[..] == old(ids[..])[t.id := slot]
    {
      heap[slot] := t;
      ids[t.id] := slot;
    }

    method ReheapUp(moved: Timer, start: nat, ghost n: nat, ghost x: int)
      requires n <= heap.Length == ids.Length && SiftingUp(heap[..], ids[..], n, timers, x, start, moved)
      modifies heap, ids
      ensures Settled(heap[..], ids[..], n, timers, x)
    {
      var slot, parent := start, Parent(start);
      while slot > 0
        invariant SiftingUp(heap[..], ids[..], n, timers, x, slot, moved) && parent == Parent(slot)
      {
        if !Lt(moved.due, heap[parent].due) {
          break;
        }
        UpMove(heap[..], ids[..], n, timers, x, slot, moved);
        Copy(slot, heap[parent]);
        slot := parent;
        parent := Parent(slot);
      }
      UpEnd(heap[..], ids[..], n, timers, x, slot, moved);
      Copy(slot, moved);
    }

    /** The earlier of the two children of a slot. */
    method EarlierChild(slot: nat) returns (child: nat)
      requires LeftChild(slot) < size <= heap.Length
      ensures Chosen(heap[..], size, slot, child)
    {
      child := LeftChild(slot);
      if child + 1 < size && Lt(heap[child + 1].due, heap[child].due) {
        child := child + 1;
      }
    }

    method ReheapDown(moved: Timer, start: nat, ghost x: int)
      requires size <= heap.Length == ids.Length && SiftingDown(heap[..], ids[..], size, timers, x, start, moved)
      modifies heap, ids
      ensures Settled(heap[..], ids[..], size, timers, x)
    {
      var slot := start;
      while LeftChild(slot) < size
        invariant SiftingDown(heap[..], ids[..], size, timers, x, slot, moved)
        decreases size - slot
      {
        var child := EarlierChild(slot);
        ChosenIsLesser(heap[..], size, slot, child, moved);
        if !Lt(heap[child].due, moved.due) {
          break;
        }
        DownMove(heap[..], ids[..], size, timers, x, slot, moved, child);
        Copy(slot, heap[child]);
        slot := child;
      }
      if LeftChild(slot) >= size {
        NoChildren(heap[..], size, slot, moved);
      }
      DownEnd(heap[..], ids[..], size, timers, x, slot, moved);
      Copy(slot, moved);
    }

    // ---------- Ids ----------

    /** The smallest id that is not in use. */
    method AllocId() returns (id: int)
      requires 0 <= minId <= ids.Length && forall i | 0 <= i < minId :: ids[i] != -1
      modifies `minId
      ensures id == -1 ==> minId == old(minId) && forall i | 0 <= i < ids.Length :: ids[i] != -1
      ensures id != -1 ==> 0 <= id < ids.Length && ids[id] == -1 && minId == old(minId) + 1
      ensures id != -1 ==> (forall i | 0 <= i < id :: ids[i] != -1) && minId <= id + 1
    {
      for i := minId to ids.Length
        invariant forall j | 0 <= j < i :: ids[j] != -1
      {
        if ids[i] == -1 {
          minId := minId + 1;
          return i;
        }
      }
      id := -1;
    }

    /** free_node: the id is free again. */
    method ReleaseId(id: int)
      requires size <= maxSize && |timers| == size && heap.Length == ids.Length >= 3
      requires 0 <= id < ids.Length && Settled(heap[..], ids[..], size, timers, id)
      requires 0 <= minId && (forall i | 0 <= i < minId && i != id :: i in timers) && AllNormal(timers)
      modifies ids, `minId
      ensures Valid() && ids[..] == old(ids[..])[id := -1]
    {
      ReleaseRep(heap[..], ids[..], size, timers, id);
      ids[id] := -1;
      minId := if id < minId then id else minId;
    }

    // ---------- Inserting and removing ----------

    /** Only the entries of the first `size` slots and ids are copied. */
    method GrowHeap()
      requires heap.Length == ids.Length <= size + 1 && 2 <= size < maxSize && size <= heap.Length
      modifies `heap, `ids, `minId
      ensures fresh(heap) && fresh(ids) && heap.Length == ids.Length && minId == size
      ensures ids.Length == (if 2 * size < maxSize then 2 * size else maxSize)
      ensures heap[..size] == old(heap[..size]) && ids[..size] == old(ids[..size])
      ensures forall i | size <= i < ids.Length :: ids[i] == -1
    {
      var newSize := if 2 * size < maxSize then 2 * size else maxSize;
      var newHeap := new Timer[newSize](_ => NO_TIMER);
      var newIds := new int[newSize](_ => -1);
      forall i | 0 <= i < size {
        newHeap[i] := heap[i];
      }
      forall i | 0 <= i < size {
        newIds[i] := ids[i];
      }
      heap, ids, minId := newHeap, newIds, size;
    }

    /** There is room for one more timer, or the arrays can grow without losing an id. */
    ghost predicate CanInsert(x: int)
      reads this, heap, ids
    {
      && heap.Length == ids.Length >= 3 && size < maxSize && |timers| == size
      && Settled(heap[..], ids[..], size, timers, x)
      && (size + 1 < ids.Length || (x == -1 && size + 1 == ids.Length && size !in timers))
    }

    method GrowIfFull(ghost x: int)
      requires CanInsert(x)
      modifies `heap, `ids, `minId
      ensures heap.Length == ids.Length == NextLength(old(size), old(ids.Length), maxSize) && size < heap.Length
      ensures Settled(heap[..], ids[..], size, timers, x)
      ensures old(size + 1 < ids.Length) ==> unchanged(this)
      ensures old(size + 1 == ids.Length) ==>
                && fresh(heap) && fresh(ids) && (size + 1 < maxSize ==> ids.Length > size + 1)
                && HintOk(timers, minId) && minId == size
    {
      if size + 1 >= heap.Length {
        ghost var h, t := heap[..], ids[..];
        LastEntry(h, t, size, timers);
        GrowHeap();
        GrowRep(h, t, heap[..], ids[..], size, timers);
      }
    }

    /** Puts the timer behind the last one and lets it rise. */
    method Place(t: Timer, ghost x: int)
      requires size < heap.Length == ids.Length && Settled(heap[..], ids[..], size, timers, x)
      requires 0 <= t.id < ids.Length && t.id !in timers && (x == t.id || x == -1)
      modifies heap, ids, `size, `timers
      ensures Settled(heap[..], ids[..], size, timers, -1)
      ensures size == old(size) + 1 && timers == old(timers)[t.id := t]
    {
      InsertSifts(heap[..], ids[..], size, timers, t, x);
      timers := timers[t.id := t];
      ReheapUp(t, size, size + 1, -1);
      size := size + 1;
    }

    method Insert(t: Timer, ghost x: int)
      requires CanInsert(x) && 0 <= t.id < ids.Length && t.id !in timers && (x == t.id || x == -1)
      requires HintOk(timers[t.id := t], minId) && AllNormal(timers[t.id := t])
               && (size + 1 == ids.Length ==> t.id == size)
      modifies this, heap, ids
      ensures Valid() && size == old(size) + 1 && timers == old(timers)[t.id := t]
      ensures old(size + 1 < ids.Length) ==> heap == old(heap) && ids == old(ids)
      ensures old(size + 1 == ids.Length) ==> fresh(heap) && fresh(ids)
      ensures ids.Length == NextLength(old(size), old(ids.Length), maxSize)
    {
      GrowIfFull(x);
      Place(t, x);
    }

    /** The last timer takes the place of the one in the slot and is sifted from there. */
    method Refill(slot: nat, ghost x: int, ghost m: map<int, Timer>)
      requires slot < size < heap.Length == ids.Length && Settled(heap[..], ids[..], size + 1, m, -1)
      requires x == heap[slot].id && timers == m - {x}
      modifies heap, ids
      ensures Settled(heap[..], ids[..], size, timers, x)
    {
      var moved := heap[size];
      ghost var h, table := heap[..], ids[..];
      RemoveSifts(h, table, size + 1, m, slot);
      Copy(slot, moved);
      assert heap[Parent(slot)] == h[slot := moved][Parent(slot)];
      if Lt(moved.due, heap[Parent(slot)].due) {
        ReheapUp(moved, slot, size, x);
      } else {
        ReheapDown(moved, slot, x);
      }
    }

    /** Takes a timer out of the heap; its entry in the table is left as it is. */
    method Remove(slot: nat) returns (removed: Timer)
      requires Valid() && slot < size
      modifies heap, ids, `size, `timers
      ensures removed == old(heap[slot]) && size == old(size) - 1
      ensures removed.id in old(timers) && old(timers)[removed.id] == removed && timers == old(timers) - {removed.id}
      ensures Settled(heap[..], ids[..], size, timers, removed.id)
    {
      removed := heap[slot];
      size := size - 1;
      timers := timers - {removed.id};
      if slot < size {
        Refill(slot, removed.id, old(timers));
      } else {
        RemoveLast(heap[..], ids[..], size + 1, old(timers));
      }
    }

    // ---------- Scheduling and cancelling ----------

    /**
     * Refuses when the queue is full; otherwise the timer gets the smallest id that is not in use.
     * The room for the next one is kept as long as the queue stays below its capacity.
     */
    method Schedule(handler: int, arg: int, due: Time, interval: Time) returns (id: int)
      requires Valid() && Fits() && Normal(due) && Normal(interval)
      modifies this, heap, ids
      ensures Valid() && (heap == old(heap) || fresh(heap)) && (ids == old(ids) || fresh(ids))
      ensures old(size) >= maxSize ==> id == -1 && timers == old(timers)
      ensures old(size) < maxSize ==>
                && id >= 0 && id !in old(timers) && (forall i | 0 <= i < id :: i in old(timers))
                && timers == old(timers)[id := Timer(id, handler, arg, due, interval)]
                && ids.Length == NextLength(old(size), old(ids.Length), maxSize)
      ensures old(Roomy()) && size < maxSize ==> Roomy()
    {
      if size >= maxSize {
        return -1;
      }
      HintInTable(heap[..], ids[..], size, timers, minId);
      id := AllocId();
      FreshId(id);
      Insert(Timer(id, handler, arg, due, interval), -1);
    }

    lemma FreshId(id: int)
      requires Settled(heap[..], ids[..], size, timers, -1) && |timers| == size < maxSize
               && heap.Length == ids.Length >= 3
      requires Fits()
      requires id == -1 ==> forall i | 0 <= i < ids.Length :: ids[i] != -1
      requires id != -1 ==> 0 <= id < ids.Length && ids[id] == -1 && forall i | 0 <= i < id :: ids[i] != -1
      ensures id != -1 && id !in timers && id <= size && CanInsert(-1) && (forall i | 0 <= i < id :: i in timers)
      ensures size + 1 == ids.Length ==> id == size && Below(timers, size)
    {
      NextId(heap[..], ids[..], size, timers, id);
    }

    /** A client need not look at the table: below capacity, Roomy is enough. */
    lemma RoomyFits()
      requires Valid() && Roomy()
      ensures Fits()
    {}

    /** A table whose last id is free has a free slot. */
    lemma LastIdFree()
      requires Valid() && (ids.Length > maxSize || ids.Length - 1 !in timers)
      ensures Roomy()
    {
      if ids.Length <= maxSize {
        LastFree(timers, ids.Length);
      }
    }

    /** Takes the timer in the slot out of the queue for good. */
    method Drop(slot: nat) returns (t: Timer)
      requires Valid() && slot < size
      modifies heap, ids, `size, `timers, `minId
      ensures Valid() && t == old(heap[slot]) && t.id in old(timers) && old(timers)[t.id] == t
      ensures timers == old(timers) - {t.id} && size == old(size) - 1
    {
      t := Remove(slot);
      ReleaseId(t.id);
    }

    /**
     * An id that is not in use is refused; where assertions are compiled in, one in range stops the program
     * instead.
     */
    method Cancel(id: int) returns (rc: int, arg: int)
      requires Valid()
      modifies heap, ids, `size, `timers, `minId
      ensures Valid() && (old(Roomy()) ==> Roomy())
      ensures id in old(timers) ==> rc == 0 && arg == old(timers)[id].arg && timers == old(timers) - {id}
      ensures id !in old(timers) ==> rc == -1 && timers == old(timers)
    {
      arg := 0;
      if id < 0 || id >= ids.Length {
        return -1, arg;
      }
      InUse(heap[..], ids[..], size, timers, id);
      var slot := ids[id];
      if slot < 0 {
        return -1, arg;
      }
      var t := Drop(slot);
      rc, arg := 0, t.arg;
    }

    /** All timers of a handler are cancelled; after each one the search starts over, since the heap has changed. */
    method CancelHandler(handler: int) returns (count: nat)
      requires Valid()
      modifies heap, ids, `size, `timers, `minId
      ensures Valid() && (old(Roomy()) ==> Roomy())
      ensures if handler == 0 then timers == old(timers) && count == 0
              else timers == Without(old(timers), handler) && count == |old(timers)| - |timers|
    {
      count := 0;
      if handler == 0 {
        return;
      }
      var i := 0;
      while i < size
        invariant Valid() && i <= size && count == |old(timers)| - size
        invariant Without(timers, handler) == Without(old(timers), handler)
        invariant forall id | id in timers :: id in old(timers)
        invariant forall j | 0 <= j < i :: heap[j].handler != handler
        decreases size, size - i
      {
        if heap[i].handler == handler {
          ghost var m := timers;
          var t := Drop(i);
          assert Without(m - {t.id}, handler) == Without(m, handler);
          count := count + 1;
          i := 0;
        } else {
          i := i + 1;
        }
      }
      NoneLeft(heap[..], ids[..], size, timers, handler);
    }

    // ---------- Expiring ----------

    /** The first timer can be put back: there is a free slot, or it need not be. */
    ghost predicate Expirable()
      requires size <= heap.Length
      reads this, heap
    {
      size > 0 ==> size < ids.Length || !Periodic(heap[0])
    }

    /** The first timer leaves the heap if it is due; a periodic one is put back with its next deadline. */
    method DispatchTimer(now: Time) returns (fired: bool, t: Timer)
      requires Valid() && size > 0 && Expirable() && Normal(now)
      modifies this, heap, ids
      ensures Valid() && heap == old(heap) && ids == old(ids) && size <= old(size) && (old(Roomy()) ==> Roomy())
      ensures !fired ==> NoneDue(old(timers), now) && timers == old(timers)
      ensures fired ==> size < ids.Length
      ensures fired ==> Earliest(old(timers), t) && Due(t, now) && Normal(t.interval)
                        && timers == Fire(old(timers), t, now)
    {
      t := heap[0];
      fired := false;
      EarliestFirst(heap[..], ids[..], size, timers);
      if Le(heap[0].due, now) {
        fired := true;
        FireFirst(now);
      }
    }

    method FireFirst(now: Time)
      requires Valid() && size > 0 && Expirable() && Normal(now)
      modifies this, heap, ids
      ensures Valid() && heap == old(heap) && ids == old(ids) && size <= old(size) && size < ids.Length
              && timers.Keys <= old(timers.Keys)
      ensures Normal(old(heap[0]).interval) && timers == Fire(old(timers), old(heap[0]), now)
    {
      var expired := Remove(0);
      PutBack(expired, old(timers), now);
    }

    /** The timer that just left the heap is put back with its next deadline, if it has one. */
    method PutBack(expired: Timer, ghost m: map<int, Timer>, now: Time)
      requires heap.Length == ids.Length >= 3 && size < maxSize && |timers| == size < ids.Length
      requires Periodic(expired) ==> size + 1 < ids.Length
      requires Settled(heap[..], ids[..], size, timers, expired.id) && HintOk(m, minId) && AllNormal(m) && Normal(now)
      requires expired.id in m && m[expired.id] == expired && timers == m - {expired.id} && 0 <= expired.id < ids.Length
      modifies this, heap, ids
      ensures Valid() && heap == old(heap) && ids == old(ids)
      ensures size <= old(size) + 1 && size < ids.Length && timers == Fire(m, expired, now) && timers.Keys <= m.Keys
    {
      if Lt(ZERO, expired.interval) {
        var due := NextDeadline(expired.due, expired.interval, now);
        var t := expired.(due := due);
        assert timers[t.id := t] == m[t.id := t];
        Insert(t, expired.id);
      } else {
        ReleaseId(expired.id);
      }
    }

    /**
     * One call fires at most one timer.  When the handler fails, a periodic timer is
     * cancelled again; that of a one-shot timer is only told so.
     */
    method Expire(now: Time, handlerFails: bool) returns (r: int, t: Timer)
      requires Valid() && Expirable() && Normal(now)
      modifies this, heap, ids
      ensures Valid() && heap == old(heap) && ids == old(ids) && size <= old(size) && (old(Roomy()) ==> Roomy())
      ensures r == 0 || r == 1
      ensures r == 0 ==> NoneDue(old(timers), now) && timers == old(timers)
      ensures r == 1 ==>
                && size < ids.Length && Earliest(old(timers), t) && Due(t, now) && Normal(t.interval)
                && timers == if handlerFails then old(timers) - {t.id} else Fire(old(timers), t, now)
    {
      t := NO_TIMER;
      if size == 0 {
        return 0, t;
      }
      var fired;
      fired, t := DispatchTimer(now);
      if !fired {
        return 0, t;
      }
      CancelFired(old(timers), t, now);
      if handlerFails && Lt(ZERO, t.interval) {
        var _, _ := Cancel(t.id);
      }
      r := 1;
    }

    /**
     * Calling expire until it has nothing to do, with handlers that succeed: it ends, and
     * it fires exactly the timers that were due, each once, in the order of their deadlines.
     */
    method ExpireAll(now: Time) returns (fired: seq<Timer>)
      requires Valid() && Expirable() && Normal(now)
      modifies this, heap, ids
      ensures Valid() && heap == old(heap) && ids == old(ids) && size <= old(size) && (old(Roomy()) ==> Roomy())
      ensures timers == Settle(old(timers), now)
      ensures InOrder(old(timers), fired, now)
      ensures forall id | id in old(timers) :: Due(old(timers)[id], now) <==> id in FiredIds(fired)
      ensures Canonical(now) ==>
                forall id | id in old(timers) :: Micros(old(timers)[id].due) <= Micros(now) <==> id in FiredIds(fired)
    {
      ghost var m := timers;
      fired := [];
      while true
        invariant Valid() && heap == old(heap) && ids == old(ids) && size <= old(size) && (old(Roomy()) ==> Roomy())
        invariant Expirable() && Progress(m, fired, timers, now)
        decreases |m| - |fired|
      {
        ghost var was := timers;
        var r, t := Expire(now, false);
        if r == 0 {
          break;
        }
        ProgressStep(m, fired, was, now, t);
        fired := fired + [t];
      }
      ProgressEnd(m, fired, timers, now);
      if Canonical(now) {
        forall id | id in m ensures Due(m[id], now) <==> Micros(m[id].due) <= Micros(now) {
          DueIsNumeric(m[id], now);
        }
      }
    }

    // ---------- Histories ----------

    /** Carries out one operation. */
    method Perform(op: Operation)
      requires Valid() && Roomy() && op.Ready()
      modifies this, heap, ids
      ensures Valid() && (heap == old(heap) || fresh(heap)) && (ids == old(ids) || fresh(ids))
      ensures Becomes(old(timers), op, timers, maxSize) && (size < maxSize ==> Roomy())
    {
      match op
      case Put(handler, arg, due, interval) =>
        var _ := Schedule(handler, arg, due, interval);
      case Withdraw(id) =>
        var _, _ := Cancel(id);
      case WithdrawAll(handler) =>
        var _ := CancelHandler(handler);
      case Tick(now, handlerFails) =>
        var _, _ := Expire(now, handlerFails);
      case Drain(now) =>
        var _ := ExpireAll(now);
    }

    /**
     * Any history of operations, as long as it does not fill the queue: the heap and its table stay in order,
     * and each operation does to the timers what it says.  It stops when the queue is full.
     */
    method Run(ops: seq<Operation>) returns (done: nat, ghost states: seq<map<int, Timer>>)
      requires Valid() && Roomy() && forall i | 0 <= i < |ops| :: ops[i].Ready()
      modifies this, heap, ids
      ensures Valid() && done <= |ops| && (size < maxSize ==> Roomy()) && (done < |ops| ==> size >= maxSize)
      ensures |states| == done + 1 && states[0] == old(timers) && states[done] == timers
      ensures forall i | 0 <= i < done :: Becomes(states[i], ops[i], states[i + 1], maxSize)
    {
      done, states := 0, [timers];
      while done < |ops| && size < maxSize
        invariant Valid() && done <= |ops| && (size < maxSize || done == 0 ==> Roomy())
        invariant (heap == old(heap) || fresh(heap)) && (ids == old(ids) || fresh(ids))
        invariant |states| == done + 1 && states[0] == old(timers) && states[done] == timers
        invariant forall i | 0 <= i < done :: Becomes(states[i], ops[i], states[i + 1], maxSize)
      {
        Perform(ops[done]);
        done, states := done + 1, states + [timers];
      }
    }

    // ---------- Waiting ----------

    /**
     * How long to wait: until the first deadline, but no longer than the caller wants, and not at all if a
     * timer is due.
     */
    method CalculateTimeout(maxWait: Option<Time>, now: Time) returns (r: Option<Time>)
      requires Valid() && Canonical(now) && (maxWait.Some? ==> Canonical(maxWait.value))
      ensures r.None? <==> timers == map[] && maxWait.None?
      ensures r.Some? ==> IsLongestWait(timers, maxWait, now, r.value)
    {
      if size == 0 {
        return maxWait;
      }
      EarliestFirst(heap[..], ids[..], size, timers);
      GapIsLeast(timers, heap[0], now);
      if Lt(now, heap[0].due) {
        var gap := Minus(heap[0].due, now);
        CanonicalUnique(gap, now);
        if maxWait.None? || Lt(gap, maxWait.value) {
          return Some(gap);
        }
        return maxWait;
      }
      return Some(ZERO);
    }
  }

  /** The length of the arrays after one more timer was put in: twice the number of timers when one entry is left. */
  function NextLength(size: nat, length: nat, max: nat): nat {
    if size + 1 < length then length else if 2 * size < max then 2 * size else max
  }

  // ---------- Operations ----------

  /** What a client can ask for. */
  datatype Operation =
    | Put(handler: int, arg: int, due: Time, interval: Time)
    | Withdraw(id: int)
    | WithdrawAll(handler: int)
    | Tick(now: Time, handlerFails: bool)
    | Drain(now: Time)
  {
    predicate Ready() {
      match this
      case Put(_, _, due, interval) => Normal(due) && Normal(interval)
      case Tick(now, _) => Normal(now)
      case Drain(now) => Normal(now)
      case _ => true
    }
  }

  /** What an operation makes of the timers. */
  ghost predicate Becomes(m: map<int, Timer>, op: Operation, m': map<int, Timer>, max: nat) {
    match op
    case Put(handler, arg, due, interval) =>
      if |m| >= max then m' == m
      else exists id :: NextInLine(m, id) && m' == m[id := Timer(id, handler, arg, due, interval)]
    case Withdraw(id) => m' == m - {id}
    case WithdrawAll(handler) => m' == if handler == 0 then m else Without(m, handler)
    case Tick(now, handlerFails) => Ticked(m, now, handlerFails, m')
    case Drain(now) => AllNormal(m) && Normal(now) && m' == Settle(m, now)
  }

  /** The smallest id that is not in use. */
  ghost predicate NextInLine(m: map<int, Timer>, id: int) {
    id >= 0 && id !in m && forall i | 0 <= i < id :: i in m
  }

  /** None is due, or one of the earliest fires. */
  ghost predicate Ticked(m: map<int, Timer>, now: Time, handlerFails: bool, m': map<int, Timer>) {
    if NoneDue(m, now) then m' == m
    else exists t :: Earliest(m, t) && Due(t, now) && Normal(t.interval) && Normal(now)
                     && m' == if handlerFails then m - {t.id} else Fire(m, t, now)
  }

  // ---------- At capacity ----------

  /**
   * A queue for three timers is filled, and one is cancelled.  Then a timer no earlier than the first is put in, with
   * the statements of Schedule: it gets the free id, the table grows, and the timer stays behind the others.  A live
   * timer has lost its entry: its id counts as free, and can no longer be cancelled.
   */
  method LosesTimerAtCapacity() returns (q: Queue)
    ensures fresh(q) && q.heap.Length == q.ids.Length == q.size == 3
    ensures 0 in q.timers && 2 in q.timers && q.ids[2] == -1
    ensures !Rep(q.heap[..], q.ids[..], q.size, q.timers, -1)
  {
    q := AlmostFullQueue();
    var due := q.heap[0].due;
    HintInTable(q.heap[..], q.ids[..], q.size, q.timers, q.minId);
    InUse(q.heap[..], q.ids[..], q.size, q.timers, 0);
    var id := q.AllocId();
    assert q.ids[0] == -1;
    assert id == 0;
    ghost var h := q.heap[..];
    q.GrowHeap();
    assert q.heap[..2][0] == h[..2][0];
    assert !Lt(due, q.heap[Parent(q.size)].due);
    var t := Timer(id, 1, 0, due, ZERO);
    q.Copy(q.size, t);
    q.size, q.timers := q.size + 1, q.timers[id := t];
  }

  method AlmostFullQueue() returns (q: Queue)
    ensures fresh(q) && fresh(q.heap) && fresh(q.ids) && q.Valid()
    ensures q.maxSize == 3 && q.ids.Length == 3 && q.size == 2 && forall id :: id in q.timers <==> 1 <= id < 3
  {
    q := FullQueue();
    ghost var m := q.timers;
    var _, _ := q.Cancel(0);
    assert 0 in m && |m - {0}| == |m| - 1;
  }

  /** The ids in use are those below k. */
  ghost predicate FirstIds(m: map<int, Timer>, k: nat) {
    forall id :: id in m <==> 0 <= id < k
  }

  method FullQueue() returns (q: Queue)
    ensures fresh(q) && fresh(q.heap) && fresh(q.ids) && q.Valid()
    ensures q.maxSize == q.ids.Length == q.size == 3 && FirstIds(q.timers, 3)
  {
    q := new Queue(3, 3);
    for k := 0 to 3
      invariant fresh(q.heap) && fresh(q.ids) && q.Valid() && (k < 3 ==> q.Roomy())
      invariant q.maxSize == q.ids.Length == 3 && q.size == k && FirstIds(q.timers, k)
    {
      PutNext(q, k);
    }
  }

  /** The next id of a queue that was never cancelled from is the number of its timers. */
  method PutNext(q: Queue, k: nat)
    requires q.Valid() && q.Roomy() && q.maxSize == q.ids.Length == 3 && q.size == k < 3 && FirstIds(q.timers, k)
    modifies q, q.heap, q.ids
    ensures (q.heap == old(q.heap) || fresh(q.heap)) && (q.ids == old(q.ids) || fresh(q.ids)) && q.Valid()
    ensures (k < 2 ==> q.Roomy()) && q.ids.Length == 3 && q.size == k + 1 && FirstIds(q.timers, k + 1)
  {
    ghost var m := q.timers;
    var id := q.Schedule(1, 0, Time(k + 1, 0), ZERO);
    NextOfFirst(m, k, id);
    ghost var t := q.timers[k];
    assert |m[k := t]| == |m| + 1;
  }

  lemma NextOfFirst(m: map<int, Timer>, k: nat, id: int)
    requires FirstIds(m, k) && id >= 0 && id !in m && forall i | 0 <= i < id :: i in m
    ensures id == k
  {
    assert id > k ==> k in m;
  }

  /** The time from now to the deadline, in microseconds; nothing if the timer is due. */
  function Gap(t: Timer, now: Time): int {
    if Micros(t.due) <= Micros(now) then 0 else Micros(t.due) - Micros(now)
  }

  /** The smallest of the gaps to the deadlines and the caller's limit. */
  ghost predicate IsLongestWait(m: map<int, Timer>, maxWait: Option<Time>, now: Time, r: Time) {
    && Canonical(r)
    && (forall id | id in m :: Micros(r) <= Gap(m[id], now))
    && (maxWait.Some? ==> Micros(r) <= Micros(maxWait.value))
    && (maxWait == Some(r) || exists id :: id in m && Micros(r) == Gap(m[id], now))
  }

  lemma GapIsLeast(m: map<int, Timer>, t: Timer, now: Time)
    requires AllNormal(m) && Earliest(m, t) && Canonical(now)
    ensures Le(t.due, now) <==> Gap(t, now) == 0
    ensures forall id | id in m :: Gap(t, now) <= Gap(m[id], now)
  {
    CompareIsNumeric(t.due, now);
    CanonicalUnique(t.due, now);
    forall id | id in m ensures Gap(t, now) <= Gap(m[id], now) {
      if Canonical(t.due) {
        CompareIsNumeric(t.due, m[id].due);
      }
    }
  }

  datatype Option<T> = None | Some(value: T)

  /** The do-while loop that puts a deadline past `now`. */
  method NextDeadline(due: Time, interval: Time, now: Time) returns (r: Time)
    requires Normal(interval) && Lt(ZERO, interval) && Normal(now)
    ensures r == Rearmed(due, interval, now)
  {
    r := Plus(due, interval);
    while Le(r, now)
      invariant Normal(r)
      invariant Rearmed(due, interval, now) == if Le(r, now) then Rearmed(r, interval, now) else r
      decreases Micros(now) + 2 * MILLION - Micros(r)
    {
      r := Plus(r, interval);
    }
  }

  lemma NoneLeft(h: seq<Timer>, ids: seq<int>, n: nat, m: map<int, Timer>, handler: int)
    requires Rep(h, ids, n, m, -1) && forall j | 0 <= j < n :: h[j].handler != handler
    ensures m == Without(m, handler)
  {
    forall id | id in m ensures m[id].handler != handler {
      assert h[ids[id]] == m[id];
    }
  }

  lemma EarliestFirst(h: seq<Timer>, ids: seq<int>, n: nat, m: map<int, Timer>)
    requires Settled(h, ids, n, m, -1) && n > 0
    ensures Earliest(m, h[0])
  {
    forall id | id in m ensures Le(h[0].due, m[id].due) {
      FirstIsEarliest(h, n, ids[id]);
    }
  }

  /** All ids in use are below n. */
  ghost predicate Below(m: map<int, Timer>, n: int) {
    forall id | id in m :: id < n
  }
}
