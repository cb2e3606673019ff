/** The token itself: wait queues of entries linked through the threads' stacks, and the critical sections on them. */
module Token {
  import opened Lists
  import opened TokenProtocol

  /** A singly linked queue of entries; an entry is named by its thread. */
  class WaitQueue {
    var next: Arena
    var head: Ref
    var tail: Ref
    ghost var list: seq<Thread>

    ghost predicate Valid()
      reads this
    {
      Chained(next, list) && Distinct(list) && head == First(list) && tail == Last(list)
    }

    constructor (threads: nat)
      ensures Valid() && list == [] && |next| == threads + 1
    {
      next := seq(threads + 1, i => NIL);
      head, tail, list := NIL, NIL, [];
    }

    /** The entry, new and unlinked, goes to the end of the queue, or to its front. */
    method Insert(t: Thread, fifo: bool)
      requires Valid() && 0 < t < |next| && t !in list
      modifies this
      ensures Valid() && list == Enqueue(fifo, old(list), t) && |next| == old(|next|)
    {
      InsertLinks(next, list, t, fifo);
      next := next[t := NIL];
      if head == NIL {
        head, tail := t, t;
      } else if !fifo {
        next := next[t := head];
        head := t;
      } else {
        next := next[tail := t];
        tail := t;
      }
      list := Enqueue(fifo, list, t);
    }

    /** The entry and the one before it. */
    method Find(t: Thread) returns (curr: Ref, prev: Ref)
      requires Valid() && t != NIL
      ensures var i := IndexOf(list, t);
              curr == (if i < |list| then t else NIL) && prev == (if i > 0 then list[i - 1] else NIL)
    {
      curr, prev := head, NIL;
      ghost var i := 0;
      while curr != NIL && curr != t
        invariant i <= |list|
                  && curr == (if i < |list| then list[i] else NIL) && prev == (if i > 0 then list[i - 1] else NIL)
        invariant forall j | 0 <= j < i :: list[j] != t
        decreases |list| - i
      {
        prev := curr;
        curr := next[curr];
        i := i + 1;
      }
      Found(list, t, i);
    }

    /** Searches the queue for the entry and unlinks it. */
    method RemoveEntry(t: Thread)
      requires Valid() && t != NIL
      modifies this
      ensures Valid() && list == Dequeue(old(list), t) && |next| == old(|next|)
    {
      var curr, prev := Find(t);
      if curr == NIL {
        return;
      }
      ghost var i := IndexOf(list, t);
      RemoveLinks(next, list, i);
      var n := next[curr];
      if prev == NIL {
        head := n;
      } else {
        next := next[prev := n];
      }
      if n == NIL {
        tail := prev;
      }
      list := Remove(list, i);
    }
  }

  /** The token's critical sections do to its fields what the protocol's steps do to its value. */
  class SharedToken {
    const fifo: bool
    const readers: WaitQueue
    const writers: WaitQueue
    var waiters: int
    var inUse: Use
    var nesting: nat
    var owner: Thread
    var runable: set<Thread>

    ghost predicate Valid()
      reads this, readers, writers
    {
      readers != writers && readers.Valid() && writers.Valid()
    }

    ghost function View(): TokenProtocol.Token
      reads this, readers, writers
    {
      Token(fifo, inUse, owner, nesting, waiters, readers.list, writers.list, runable)
    }

    /** A thread of the program, which both queues have room for. */
    ghost predicate Knows(t: Thread)
      reads readers, writers
    {
      0 < t < |readers.next| && t < |writers.next|
    }

    constructor (firstInFirstOut: bool, threads: nat)
      ensures Valid() && View() == Init(firstInFirstOut).token && fresh(readers) && fresh(writers)
      ensures forall t | 0 < t <= threads :: Knows(t)
    {
      fifo := firstInFirstOut;
      readers := new WaitQueue(threads);
      writers := new WaitQueue(threads);
      waiters, inUse, nesting, owner, runable := 0, Free, 0, NIL, {};
    }

    method Insert(t: Thread, kind: Kind)
      requires Valid() && Knows(t) && t !in Queue(View(), kind)
      modifies readers, writers
      ensures Valid() && View() == WithQueue(old(View()), kind, Enqueue(fifo, Queue(old(View()), kind), t))
    {
      if kind == Read {
        readers.Insert(t, fifo);
      } else {
        writers.Insert(t, fifo);
      }
    }

    /** shared_acquire, up to where the thread has the token or goes to sleep. */
    method BeginAcquire(t: Thread, kind: Kind) returns (got: bool)
      requires Valid() && Knows(t) && t !in Queue(View(), kind)
      modifies this, readers, writers
      ensures Valid() && View() == Enter(old(View()), t, kind)
      ensures got <==> old(inUse) == Free || old(owner) == t
    {
      if inUse == Free {
        inUse, owner := Used(kind), t;
        return true;
      }
      if owner == t {
        nesting := nesting + 1;
        return true;
      }
      Insert(t, kind);
      waiters := waiters + 1;
      got := false;
    }

    method PassOn()
      requires Valid()
      modifies this
      ensures Valid() && View() == WakeupNext(old(View()))
    {
      inUse, owner := Free, NIL;
      if writers.head == NIL && readers.head == NIL {
        return;
      }
      var next;
      if writers.head != NIL {
        inUse, next := Used(Write), writers.head;
      } else {
        inUse, next := Used(Read), readers.head;
      }
      runable := runable + {next};
      owner := next;
    }

    /** What a thread does when its wait is over, whatever the reason. */
    method Quit(t: Thread, kind: Kind)
      requires Valid() && t != NIL
      modifies this, readers, writers
      ensures Valid() && View() == Leave(old(View()), t, kind)
    {
      waiters := waiters - 1;
      if kind == Read {
        readers.RemoveEntry(t);
      } else {
        writers.RemoveEntry(t);
      }
      runable := runable - {t};
    }

    /** The body of the wait loop after a wait that did not time out. */
    method AfterWait(t: Thread, kind: Kind) returns (got: bool)
      requires Valid() && t != NIL
      modifies this, readers, writers
      ensures Valid() && View() == Wake(old(View()), t, kind) && (got <==> old(owner) == t)
    {
      got := owner == t;
      if got {
        Quit(t, kind);
      }
    }

    /** What follows a wait that timed out. */
    method AfterTimeout(t: Thread, kind: Kind)
      requires Valid() && t != NIL
      modifies this, readers, writers
      ensures Valid() && View() == TimeOut(old(View()), t, kind)
    {
      PassOn();
      var selected := t in runable;
      Quit(t, kind);
      if selected {
        PassOn();
      }
    }

    method GiveBack()
      requires Valid()
      modifies this
      ensures Valid() && View() == Release(old(View()))
    {
      if nesting > 0 {
        nesting := nesting - 1;
      } else {
        PassOn();
      }
    }
  }

  lemma InsertLinks(next: Arena, list: seq<Thread>, t: Thread, fifo: bool)
    requires Chained(next, list) && Distinct(list) && 0 < t < |next| && t !in list
    ensures var next' := next[t := NIL];
            && Chained(if list == [] then next'
                       else if fifo then next'[Last(list) := t] else next'[t := First(list)], Enqueue(fifo, list, t))
            && Distinct(Enqueue(fifo, list, t))
    ensures list != [] ==> First(list) != NIL && 0 < Last(list) < |next|
  {
    if fifo && list != [] {
      assert forall i | 0 <= i < |list| :: list[i] != t;
    } else if !fifo {
      ChainPrepend(next, list, t);
      assert next[t := NIL][t := First(list)] == next[t := First(list)];
    }
  }

  lemma {:induction false} Found(list: seq<Thread>, t: Thread, i: nat)
    requires i <= |list| && (forall j | 0 <= j < i :: list[j] != t) && (i < |list| ==> list[i] == t)
    ensures IndexOf(list, t) == i
  {
    if i > 0 {
      Found(list[1..], t, i - 1);
    }
  }

  lemma RemoveLinks(next: Arena, list: seq<Thread>, i: nat)
    requires Chained(next, list) && Distinct(list) && i < |list|
    ensures 0 < list[i] < |next| && next[list[i]] == (if i + 1 < |list| then list[i + 1] else NIL)
    ensures Chained(if i == 0 then next else next[list[i - 1] := next[list[i]]], Remove(list, i))
            && Distinct(Remove(list, i))
    ensures First(Remove(list, i)) == (if i > 0 then list[0] else next[list[0]])
    ensures Last(Remove(list, i)) == (if i + 1 < |list| then Last(list) else if i > 0 then list[i - 1] else NIL)
  {
    ChainRemove(next, list, i);
    RemoveFacts(list, i, Remove(list, i));
    DistinctRemove(list, i, Remove(list, i));
  }
}
