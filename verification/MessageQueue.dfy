/**
 * The message queue: a doubly linked list of message blocks that takes chains of
 * blocks, and gives single blocks or chains, at either end.
 */
module MessageQueue {
  import opened Lists
  import opened MessageLinks

  class Queue {
    const highMark: nat
    var next: Arena
    var prev: Arena
    var head: Ref
    var tail: Ref
    var count: int
    ghost var list: seq<Ref>

    ghost predicate Valid()
      reads this
    {
      && |next| == |prev| && Linked(next, prev, list)
      && head == First(list) && tail == Last(list) && count == |list|
    }

    /** A chain of blocks, outside of the queue, that starts at the given block; backward links may be anything. */
    ghost predicate Chain(item: Ref, chain: seq<Ref>)
      reads this
    {
      chain != [] && chain[0] == item && Chained(next, chain) && Distinct(chain) && Apart(list, chain)
    }

    constructor (blocks: nat, high: nat)
      ensures Valid() && list == [] && highMark == high && |next| == blocks + 1
    {
      highMark := high;
      next := seq(blocks + 1, i => NIL);
      prev := seq(blocks + 1, i => NIL);
      head, tail, count, list := NIL, NIL, 0, [];
    }

    // ---------- Putting chains ----------

    /** Walks the chain, sets its backward links and counts its blocks. */
    method Seal(item: Ref, ghost chain: seq<Ref>) returns (last: Ref, num: nat)
      requires Valid() && Chain(item, chain)
      modifies `prev
      ensures |prev| == |next| && Linked(next, prev, list) && Linked(next, prev, chain)
      ensures last == Last(chain) && num == |chain| && SameElsewhere(old(prev), prev, list, chain)
    {
      last, num := item, 1;
      while next[last] != NIL
        invariant Sealing(old(prev), prev, chain, num) && last == chain[num - 1]
        decreases |chain| - num
      {
        assert next[last] == chain[num];
        SealStep(old(prev), prev, chain, num);
        prev := prev[next[last] := last];
        last := next[last];
        num := num + 1;
      }
      Sealed(next, old(prev), prev, chain, list);
      prev := prev[item := NIL];
    }

    /** The chain goes to the end. */
    method PutTail(item: Ref, ghost chain: seq<Ref>) returns (num: nat)
      requires Valid() && Chain(item, chain)
      modifies this
      ensures Valid() && list == old(list) + chain && num == |chain|
      ensures SameElsewhere(old(prev), prev, old(list), chain) && SameElsewhere(old(next), next, old(list), chain)
    {
      var last;
      last, num := Seal(item, chain);
      if tail == NIL {
        head := item;
      } else {
        Join(next, prev, list, chain);
        LastMember(list);
        LastMember(chain);
        JoinElsewhere(old(prev), prev, list, chain, item, tail);
        JoinElsewhere(old(next), next, list, chain, tail, item);
        prev := prev[item := tail];
        next := next[tail := item];
      }
      tail := last;
      list := list + chain;
      count := count + num;
    }

    /** The chain goes to the front. */
    method PutHead(item: Ref, ghost chain: seq<Ref>) returns (num: nat)
      requires Valid() && Chain(item, chain)
      modifies this
      ensures Valid() && list == chain + old(list) && num == |chain|
      ensures SameElsewhere(old(prev), prev, old(list), chain) && SameElsewhere(old(next), next, old(list), chain)
    {
      var last;
      last, num := Seal(item, chain);
      if head != NIL {
        Join(next, prev, chain, list);
        LastMember(list);
        LastMember(chain);
        JoinElsewhere(old(next), next, list, chain, last, head);
        JoinElsewhere(old(prev), prev, list, chain, head, last);
        next := next[last := head];
        prev := prev[head := last];
      } else {
        tail := last;
      }
      head := item;
      list := chain + list;
      count := count + num;
    }

    /** Refuses null and, since it does not wait, a full queue. */
    method Enqueue(item: Ref, ghost chain: seq<Ref>, atTail: bool) returns (rc: int)
      requires Valid() && (item != NIL ==> Chain(item, chain))
      modifies this
      ensures Valid()
      ensures item == NIL || old(|list|) >= highMark ==> rc == -1 && unchanged(this)
      ensures item != NIL && old(|list|) < highMark ==>
                rc == |chain| && list == if atTail then old(list) + chain else chain + old(list)
      ensures SameElsewhere(old(prev), prev, old(list), chain) && SameElsewhere(old(next), next, old(list), chain)
    {
      if item == NIL || count >= highMark {
        return -1;
      }
      if atTail {
        rc := PutTail(item, chain);
      } else {
        rc := PutHead(item, chain);
      }
    }

    // ---------- Taking blocks ----------

    /** Cuts the list before position k. */
    method CutBefore(last: Ref, first: Ref, ghost k: nat)
      requires Valid() && 0 < k < |list| && last == list[k - 1] && first == list[k]
      modifies `next, `prev
      ensures |next| == |prev| == old(|next|) && Linked(next, prev, list[..k]) && Linked(next, prev, list[k..])
      ensures SameElsewhere(old(next), next, list, []) && SameElsewhere(old(prev), prev, list, [])
    {
      Cut(next, prev, list, k);
      next, prev := next[last := NIL], prev[first := NIL];
    }

    /** One block from the front, with its links cleared. */
    method TakeHead() returns (rc: int, item: Ref)
      requires Valid()
      modifies this
      ensures Valid() && |next| == old(|next|)
      ensures old(list) == [] ==> rc == -1 && list == []
      ensures SameElsewhere(old(prev), prev, old(list), []) && SameElsewhere(old(next), next, old(list), [])
      ensures old(list) != [] ==> rc == 0 && item == old(list)[0] && list == old(list)[1..] && Cleared(item)
    {
      if head == NIL {
        return -1, NIL;
      }
      item := head;
      var n := next[item];
      if n == NIL {
        head, tail, list := NIL, NIL, [];
      } else {
        CutBefore(item, n, 1);
        head, list := n, list[1..];
      }
      count := count - 1;
      rc := 0;
    }

    /** One block from the end, with its links cleared. */
    method TakeTail() returns (rc: int, item: Ref)
      requires Valid()
      modifies this
      ensures Valid() && |next| == old(|next|)
      ensures old(list) == [] ==> rc == -1 && list == []
      ensures SameElsewhere(old(prev), prev, old(list), []) && SameElsewhere(old(next), next, old(list), [])
      ensures old(list) != [] ==> rc == 0 && item == Last(old(list))
                                   && list == old(list)[..|old(list)| - 1] && Cleared(item)
    {
      if tail == NIL {
        return -1, NIL;
      }
      item := tail;
      var p := prev[item];
      if p == NIL {
        head, tail, list := NIL, NIL, [];
      } else {
        CutBefore(p, item, |list| - 1);
        tail, list := p, list[..|list| - 1];
      }
      count := count - 1;
      rc := 0;
    }

    ghost predicate Cleared(item: Ref)
      reads this
    {
      item < |next| == |prev| && next[item] == prev[item] == NIL
    }

    /** How many blocks a request for `number` gets; -1 asks for all. */
    ghost function Granted(number: int, size: nat): nat {
      if number == -1 || number >= size then size else if number < 0 then 0 else number
    }

    /** All blocks. */
    method TakeAll() returns (n: int, items: Ref)
      requires Valid() && head != NIL
      modifies `head, `tail, `count, `list
      ensures Valid() && list == [] && n == |old(list)| && items == First(old(list)) && Linked(next, prev, old(list))
    {
      items, n := head, count;
      head, tail, count, list := NIL, NIL, 0, [];
    }

    /** Cuts off the first n blocks; `first` is the one behind them. */
    method KeepFrom(last: Ref, first: Ref, n: nat)
      requires Valid() && 0 < n < |list| && last == list[n - 1] && first == list[n]
      modifies this
      ensures Valid() && |next| == old(|next|) && list == old(list)[n..] && Linked(next, prev, old(list)[..n])
      ensures SameElsewhere(old(prev), prev, old(list), []) && SameElsewhere(old(next), next, old(list), [])
    {
      CutBefore(last, first, n);
      head, list := first, list[n..];
      count := count - n;
    }

    /** Cuts off the last n blocks; `last` is the one in front of them. */
    method KeepTo(last: Ref, first: Ref, n: nat)
      requires Valid() && 0 < n < |list| && last == list[|list| - n - 1] && first == list[|list| - n]
      modifies this
      ensures Valid() && |next| == old(|next|) && list == old(list)[..|old(list)| - n]
              && Linked(next, prev, old(list)[|old(list)| - n..])
      ensures SameElsewhere(old(prev), prev, old(list), []) && SameElsewhere(old(next), next, old(list), [])
    {
      CutBefore(last, first, |list| - n);
      tail, list := last, list[..|list| - n];
      count := count - n;
    }

    /** The first blocks, as a chain with all its links right.  A number below -1 leads to a null pointer. */
    method TakeHeadN(number: int) returns (ok: bool, n: int, items: Ref)
      requires Valid() && number != 0
      modifies this
      ensures Valid() && |next| == old(|next|) && (ok <==> number >= -1 || old(list) == [])
      ensures n == Granted(number, |old(list)|) && (!ok ==> unchanged(this))
      ensures SameElsewhere(old(prev), prev, old(list), []) && SameElsewhere(old(next), next, old(list), [])
      ensures list == old(list)[n..] && items == First(old(list)[..n]) && Linked(next, prev, old(list)[..n])
    {
      ok := true;
      if head == NIL {
        return ok, 0, NIL;
      }
      if number == -1 {
        n, items := TakeAll();
        return;
      }
      var first, last;
      n, first, last := Walk(number);
      items := head;
      if first == NIL {
        var all, it := TakeAll();
      } else if last == NIL {
        return false, 0, NIL;
      } else {
        KeepFrom(last, first, n);
      }
    }

    /** Steps over `number` blocks, as far as there are; `last` is what the block reached has for its predecessor. */
    method Walk(number: int) returns (n: int, first: Ref, last: Ref)
      requires Valid()
      ensures n == if number < 0 then 0 else if number < |list| then number else |list|
      ensures first == if n < |list| then list[n] else NIL
      ensures last == if n > 0 then list[n - 1] else NIL
    {
      var left := number;
      first, last, n := head, NIL, 0;
      while left > 0 && first != NIL
        invariant 0 <= n <= |list| && left == number - n && (n > 0 ==> left >= 0)
        invariant first == (if n < |list| then list[n] else NIL) && last == (if n > 0 then list[n - 1] else NIL)
      {
        last, first := first, next[first];
        n, left := n + 1, left - 1;
      }
      if first != NIL {
        last := prev[first];
      }
    }

    /** Steps back over `number` blocks, as far as there are. */
    method WalkBack(number: int) returns (n: int, last: Ref)
      requires Valid()
      ensures n == if number < 0 then 0 else if number < |list| then number else |list|
      ensures last == if n < |list| then list[|list| - 1 - n] else NIL
    {
      var left := number;
      n, last := 0, tail;
      while left > 0 && last != NIL
        invariant 0 <= n <= |list| && left == number - n && (n > 0 ==> left >= 0)
        invariant last == (if n < |list| then list[|list| - 1 - n] else NIL)
      {
        last := prev[last];
        n, left := n + 1, left - 1;
      }
    }

    /** The last blocks, as a chain with all its links right. */
    method TakeTailN(number: int) returns (ok: bool, n: int, items: Ref)
      requires Valid() && number != 0
      modifies this
      ensures Valid() && |next| == old(|next|) && (ok <==> number >= -1 || old(list) == [])
      ensures n == Granted(number, |old(list)|) && (!ok ==> unchanged(this))
      ensures SameElsewhere(old(prev), prev, old(list), []) && SameElsewhere(old(next), next, old(list), [])
      ensures list == old(list)[..|old(list)| - n]
      ensures items == First(old(list)[|old(list)| - n..]) && Linked(next, prev, old(list)[|old(list)| - n..])
    {
      ok := true;
      if tail == NIL {
        return ok, 0, NIL;
      }
      if number == -1 {
        n, items := TakeAll();
        return;
      }
      var last;
      n, last := WalkBack(number);
      if last == NIL {
        n, items := TakeAll();
      } else {
        items := next[last];
        if items == NIL {
          return false, 0, NIL;
        }
        KeepTo(last, items, n);
      }
    }

    /**
     * Asking for no blocks gives none; an empty queue, since this does not wait, is reported.  With a number below -1
     * and blocks in the queue a null pointer is followed, and only then.
     */
    method DequeueN(number: int, atTail: bool) returns (ok: bool, n: int, items: Ref)
      requires Valid()
      modifies this
      ensures Valid() && (ok <==> number >= -1 || old(list) == []) && (!ok ==> unchanged(this))
      ensures SameElsewhere(old(prev), prev, old(list), []) && SameElsewhere(old(next), next, old(list), [])
      ensures number == 0 ==> n == 0 && unchanged(this)
      ensures number != 0 && old(list) == [] ==> n == -1 && list == []
      ensures ok && number != 0 && old(list) != [] ==>
                && n == (if number == -1 || number >= |old(list)| then |old(list)| else number)
                && list == (if atTail then old(list)[..|old(list)| - n] else old(list)[n..])
                && var taken := if atTail then old(list)[|old(list)| - n..] else old(list)[..n];
                   items == First(taken) && Linked(next, prev, taken)
    {
      if number == 0 {
        return true, 0, NIL;
      }
      if count == 0 {
        return true, -1, NIL;
      }
      if atTail {
        ok, n, items := TakeTailN(number);
      } else {
        ok, n, items := TakeHeadN(number);
      }
    }
  }
}
