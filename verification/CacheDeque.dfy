/** The recency list of the cache: a doubly linked deque of items that keeps unused items in a free list. */
module CacheDeque {
  import opened Lists
  import opened CacheStore

  /** The deque's links and ends describe the list, and the free list holds other items. */
  ghost predicate DequeOk(next: Arena, prev: Arena, head: Ref, tail: Ref, freeHead: Ref, order: seq<Ref>,
                          free: seq<Ref>) {
    && |next| == |prev| > 0
    && Linked(next, prev, order) && head == First(order) && tail == Last(order)
    && Chained(next, free) && Distinct(free) && freeHead == First(free)
    && (forall i, j | 0 <= i < |order| && 0 <= j < |free| :: order[i] != free[j])
  }

  /** The item at position k leaves the list; its own links are left as they are. */
  function UnlinkNext(next: Arena, prev: Arena, r: Ref): Arena
    requires r < |next| == |prev| && prev[r] < |next|
  {
    if prev[r] != NIL then next[prev[r] := next[r]] else next
  }

  function UnlinkPrev(next: Arena, prev: Arena, r: Ref): Arena
    requires r < |next| == |prev| && next[r] < |next|
  {
    if next[r] != NIL then prev[next[r] := prev[r]] else prev
  }

  lemma UnlinkLinked(next: Arena, prev: Arena, order: seq<Ref>, k: nat)
    requires |next| == |prev| && Linked(next, prev, order) && k < |order|
    ensures var r := order[k];
            && 0 < r < |next|
            && prev[r] == (if k > 0 then order[k - 1] else NIL)
            && next[r] == (if k + 1 < |order| then order[k + 1] else NIL)
            && prev[r] < |next| && next[r] < |next|
            && Linked(UnlinkNext(next, prev, r), UnlinkPrev(next, prev, r), Remove(order, k)) && r !in Remove(order, k)
  {
    ChainRemove(next, order, k);
    BackRemove(prev, order, k);
    DistinctRemove(order, k, Remove(order, k));
  }

  lemma UnlinkEnds(order: seq<Ref>, k: nat)
    requires Distinct(order) && k < |order|
    ensures First(Remove(order, k)) == (if k > 0 then First(order) else if |order| > 1 then order[1] else NIL)
    ensures Last(Remove(order, k)) == (if k + 1 < |order| then Last(order) else if k > 0 then order[k - 1] else NIL)
  {
    RemoveFacts(order, k, Remove(order, k));
  }

  lemma UnlinkOk(next: Arena, prev: Arena, head: Ref, tail: Ref, freeHead: Ref, order: seq<Ref>, free: seq<Ref>, k: nat)
    requires DequeOk(next, prev, head, tail, freeHead, order, free) && k < |order|
    ensures var r := order[k];
            && 0 < r < |next| && prev[r] < |next| && next[r] < |next|
            && DequeOk(UnlinkNext(next, prev, r), UnlinkPrev(next, prev, r),
                       if prev[r] == NIL then next[r] else head, if next[r] == NIL then prev[r] else tail,
                       freeHead, Remove(order, k), free)
            && r !in Remove(order, k) && r !in free
  {
    UnlinkLinked(next, prev, order, k);
    UnlinkEnds(order, k);
    RemoveFacts(order, k, Remove(order, k));
    var p := prev[order[k]];
    forall j | 0 <= j < |free| ensures free[j] != p {
      assert k > 0 ==> order[k - 1] != free[j];
    }
  }

  /** An item that is nowhere goes to the end. */
  lemma AppendOk(next: Arena, prev: Arena, head: Ref, tail: Ref, freeHead: Ref, order: seq<Ref>, free: seq<Ref>, r: Ref)
    requires DequeOk(next, prev, head, tail, freeHead, order, free) && 0 < r < |next| && r !in order && r !in free
    ensures (tail == NIL <==> order == []) && (head == NIL <==> order == []) && tail < |next|
    ensures var next' := next[r := NIL];
            DequeOk(if tail != NIL then next'[tail := r] else next', prev[r := tail],
                    if head == NIL then r else head, r, freeHead, order + [r], free)
  {
    var order' := order + [r];
    forall i | 0 <= i < |order| ensures order[i] != r {}
    forall j | 0 <= j < |free| ensures free[j] != r {}
    if order != [] {
      forall j | 0 <= j < |free| ensures free[j] != tail {
        assert order[|order| - 1] != free[j];
      }
    }
  }

  /** An item that is nowhere goes to the free list. */
  lemma ReleaseOk(next: Arena, prev: Arena, head: Ref, tail: Ref, freeHead: Ref, order: seq<Ref>, free: seq<Ref>,
                  r: Ref)
    requires DequeOk(next, prev, head, tail, freeHead, order, free) && 0 < r < |next| && r !in order && r !in free
    ensures DequeOk(next[r := freeHead], prev, head, tail, r, order, [r] + free)
  {
    forall i | 0 <= i < |order| ensures order[i] != r {}
    ChainPrepend(next, free, r);
  }

  /** The first free item leaves the free list. */
  lemma ReuseOk(next: Arena, prev: Arena, head: Ref, tail: Ref, freeHead: Ref, order: seq<Ref>, free: seq<Ref>)
    requires DequeOk(next, prev, head, tail, freeHead, order, free) && freeHead != NIL
    ensures 0 < freeHead < |next| && freeHead !in order && freeHead !in free[1..]
    ensures DequeOk(next, prev, head, tail, next[freeHead], order, free[1..])
  {
    assert free[0] == freeHead;
  }

  lemma GrowOk(next: Arena, prev: Arena, head: Ref, tail: Ref, freeHead: Ref, order: seq<Ref>, free: seq<Ref>)
    requires DequeOk(next, prev, head, tail, freeHead, order, free)
    ensures DequeOk(next + [NIL], prev + [NIL], head, tail, freeHead, order, free)
    ensures |next| !in order && |next| !in free
  {}

  class Deque {
    var next: Arena
    var prev: Arena
    var keys: seq<Key>
    var objs: seq<Id>
    var head: Ref
    var tail: Ref
    var freeHead: Ref
    var size: nat

    ghost var order: seq<Ref>
    ghost var free: seq<Ref>

    ghost predicate Valid()
      reads this
    {
      && DequeOk(next, prev, head, tail, freeHead, order, free)
      && |keys| == |objs| == |next| && size == |order|
    }

    constructor ()
      ensures Valid() && order == []
    {
      next, prev, keys, objs := [NIL], [NIL], [0], [0];
      head, tail, freeHead, size := NIL, NIL, NIL, 0;
      order, free := [], [];
    }

    /** remove_i */
    method Unlink(r: Ref, ghost k: nat)
      requires Valid() && k < |order| && r == order[k]
      modifies `next, `prev, `head, `tail, `order
      ensures DequeOk(next, prev, head, tail, freeHead, order, free) && |next| == old(|next|)
      ensures order == Remove(old(order), k) && r !in order && r !in free
    {
      UnlinkOk(next, prev, head, tail, freeHead, order, free, k);
      var n, p := next[r], prev[r];
      next, prev := UnlinkNext(next, prev, r), UnlinkPrev(next, prev, r);
      if p == NIL {
        head := n;
      }
      if n == NIL {
        tail := p;
      }
      order := Remove(order, k);
    }

    /** insert_i */
    method Append(r: Ref)
      requires DequeOk(next, prev, head, tail, freeHead, order, free) && 0 < r < |next| && r !in order && r !in free
      modifies `next, `prev, `head, `tail, `order
      ensures DequeOk(next, prev, head, tail, freeHead, order, free) && |next| == old(|next|)
      ensures order == old(order) + [r]
    {
      AppendOk(next, prev, head, tail, freeHead, order, free, r);
      next := next[r := NIL];
      prev := prev[r := tail];
      if tail != NIL {
        next := next[tail := r];
      }
      tail := r;
      if head == NIL {
        head := tail;
      }
      order := order + [r];
    }

    /** alloc_item */
    method AllocItem(k: Key, id: Id) returns (r: Ref)
      requires Valid()
      modifies `next, `prev, `keys, `objs, `freeHead, `free
      ensures Valid() && 0 < r < |next| && r !in order && r !in free && keys[r] == k && objs[r] == id
      ensures SameItems(old(keys), old(objs), keys, objs, r)
    {
      if freeHead == NIL {
        GrowOk(next, prev, head, tail, freeHead, order, free);
        r := |next|;
        next, prev, keys, objs := next + [NIL], prev + [NIL], keys + [k], objs + [id];
      } else {
        ReuseOk(next, prev, head, tail, freeHead, order, free);
        r := freeHead;
        freeHead := next[freeHead];
        free := free[1..];
        keys, objs := keys[r := k], objs[r := id];
      }
    }

    /** A new item goes to the end. */
    method Insert(k: Key, id: Id) returns (r: Ref)
      requires Valid()
      modifies this
      ensures Valid() && 0 < r < |keys| && r !in old(order) && order == old(order) + [r] && keys[r] == k
              && objs[r] == id
      ensures SameItems(old(keys), old(objs), keys, objs, r)
    {
      r := AllocItem(k, id);
      Append(r);
      size := size + 1;
    }

    /** The first item leaves. */
    method RemoveFirst() returns (ok: bool, k: Key, id: Id)
      requires Valid()
      modifies this
      ensures Valid() && keys == old(keys) && objs == old(objs)
      ensures !ok ==> old(order) == [] && order == []
      ensures ok ==> old(order) != [] && order == old(order)[1..] && k == keys[old(order)[0]]
                     && id == objs[old(order)[0]]
    {
      var r := head;
      if r == NIL {
        return false, 0, 0;
      }
      ok, k, id := true, keys[r], objs[r];
      Unlink(r, 0);
      size := size - 1;
      ReleaseOk(next, prev, head, tail, freeHead, order, free, r);
      next := next[r := freeHead];
      freeHead := r;
      free := [r] + free;
    }

    /** An item moves to the end. */
    method Adjust(r: Ref, ghost k: nat)
      requires Valid() && k < |order| && r == order[k]
      modifies `next, `prev, `head, `tail, `order
      ensures Valid() && order == Remove(old(order), k) + [r]
    {
      Unlink(r, k);
      Append(r);
    }
  }
}
