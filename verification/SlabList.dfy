/** The list of slabs, kept in the order of their largest known free chunk by swapping neighbours. */
module SlabList {
  import opened Lists

  /** The two nodes before and after the gap change places. */
  function SwapNext(next: Arena, prev: Arena, p: Ref, s: Ref): Arena
    requires p < |next| == |prev| && s < |next| && prev[p] < |next|
  {
    (if prev[p] != NIL then next[prev[p] := s] else next)[p := next[s]][s := p]
  }

  function SwapPrev(next: Arena, prev: Arena, p: Ref, s: Ref): Arena
    requires p < |next| == |prev| && s < |next| && next[s] < |next|
  {
    (if next[s] != NIL then prev[next[s] := p] else prev)[s := prev[p]][p := s]
  }

  function Swapped(order: seq<Ref>, k: nat): seq<Ref>
    requires 0 < k < |order|
  {
    order[k - 1 := order[k]][k := order[k - 1]]
  }

  lemma SwapChained(next: Arena, prev: Arena, order: seq<Ref>, k: nat)
    requires |next| == |prev| && Linked(next, prev, order) && 0 < k < |order|
    ensures prev[order[k - 1]] < |next| && Chained(SwapNext(next, prev, order[k - 1], order[k]), Swapped(order, k))
  {
    var order' := Swapped(order, k);
    assert prev[order[k - 1]] == if k - 1 > 0 then order[k - 2] else NIL;
  }

  lemma SwapBackChained(next: Arena, prev: Arena, order: seq<Ref>, k: nat)
    requires |next| == |prev| && Linked(next, prev, order) && 0 < k < |order|
    ensures next[order[k]] < |next| && BackChained(SwapPrev(next, prev, order[k - 1], order[k]), Swapped(order, k))
  {
    assert next[order[k]] == if k + 1 < |order| then order[k + 1] else NIL;
  }

  lemma SwapLinked(next: Arena, prev: Arena, order: seq<Ref>, k: nat)
    requires |next| == |prev| && Linked(next, prev, order) && 0 < k < |order|
    ensures var p, s := order[k - 1], order[k];
            && next[p] == s && prev[s] == p && prev[p] < |next| && next[s] < |next|
            && Linked(SwapNext(next, prev, p, s), SwapPrev(next, prev, p, s), Swapped(order, k))
            && (prev[p] == NIL <==> k == 1) && (next[s] == NIL <==> k + 1 == |order|)
  {
    SwapChained(next, prev, order, k);
    SwapBackChained(next, prev, order, k);
  }

  // ---------- Order ----------

  ghost predicate InRange(order: seq<Ref>, size: seq<nat>) {
    forall i | 0 <= i < |order| :: order[i] < |size|
  }

  /** Sizes do not decrease along the list, leaving out position k. */
  ghost predicate SortedBut(order: seq<Ref>, size: seq<nat>, k: int)
    requires InRange(order, size)
  {
    forall i, j | 0 <= i < j < |order| && i != k && j != k :: size[order[i]] <= size[order[j]]
  }

  ghost predicate Sorted(order: seq<Ref>, size: seq<nat>) {
    InRange(order, size) && forall i, j | 0 <= i < j < |order| :: size[order[i]] <= size[order[j]]
  }

  /** Only position k may be too small for those before it. */
  ghost predicate RollsAhead(order: seq<Ref>, size: seq<nat>, k: nat) {
    InRange(order, size) && k < |order| && SortedBut(order, size, k)
    && forall j | k < j < |order| :: size[order[k]] <= size[order[j]]
  }

  ghost predicate RollsBack(order: seq<Ref>, size: seq<nat>, k: nat) {
    InRange(order, size) && k < |order| && SortedBut(order, size, k)
    && forall i | 0 <= i < k :: size[order[i]] <= size[order[k]]
  }

  lemma AheadStep(order: seq<Ref>, size: seq<nat>, k: nat)
    requires RollsAhead(order, size, k) && k > 0 && size[order[k - 1]] > size[order[k]]
    ensures RollsAhead(Swapped(order, k), size, k - 1)
  {}

  lemma AheadEnd(order: seq<Ref>, size: seq<nat>, k: nat)
    requires RollsAhead(order, size, k) && (k == 0 || size[order[k - 1]] <= size[order[k]])
    ensures Sorted(order, size)
  {}

  lemma BackStep(order: seq<Ref>, size: seq<nat>, k: nat)
    requires RollsBack(order, size, k) && k + 1 < |order| && size[order[k + 1]] < size[order[k]]
    ensures RollsBack(Swapped(order, k + 1), size, k + 1)
  {}

  lemma BackEnd(order: seq<Ref>, size: seq<nat>, k: nat)
    requires RollsBack(order, size, k)
    requires k + 1 == |order| || size[order[k + 1]] >= size[order[k]]
    ensures Sorted(order, size)
  {}

  /** One size changed. */
  lemma ChangedSize(order: seq<Ref>, size: seq<nat>, size': seq<nat>, k: nat)
    requires Sorted(order, size) && Distinct(order) && k < |order|
    requires |size'| == |size| && forall r | 0 <= r < |size| && r != order[k] :: size'[r] == size[r]
    ensures order[k] < |size'| == |size|
    ensures size'[order[k]] <= size[order[k]] ==> RollsAhead(order, size', k)
    ensures size'[order[k]] >= size[order[k]] ==> RollsBack(order, size', k)
  {}

  /** Every slab r is in the list, at position pos[r]. */
  ghost predicate Placed(order: seq<Ref>, pos: seq<nat>) {
    |pos| > 0 && forall r | 0 < r < |pos| :: pos[r] < |order| && order[pos[r]] == r
  }

  lemma PlacedPush(order: seq<Ref>, pos: seq<nat>)
    requires Placed(order, pos)
    ensures Placed(order + [|pos|], pos + [|order|])
  {}

  lemma PlacedSwap(order: seq<Ref>, pos: seq<nat>, k: nat)
    requires Placed(order, pos) && Distinct(order) && 0 < k < |order| && order[k] < |pos| && order[k - 1] < |pos|
    ensures Placed(Swapped(order, k), pos[order[k] := k - 1][order[k - 1] := k])
  {}

  // ---------- The list with its ends ----------

  /** The links, ends and positions all describe the same list of slabs 1 to n. */
  ghost predicate ChainOk(next: Arena, prev: Arena, head: Ref, tail: Ref, order: seq<Ref>, pos: seq<nat>, n: nat) {
    && |next| == |prev| == n + 1 && Linked(next, prev, order) && head == First(order) && tail == Last(order)
    && |pos| == n + 1 && Placed(order, pos)
  }

  lemma ChainSwap(next: Arena, prev: Arena, head: Ref, tail: Ref, order: seq<Ref>, pos: seq<nat>, n: nat, k: nat)
    requires ChainOk(next, prev, head, tail, order, pos, n) && 0 < k < |order|
    ensures var p, s := order[k - 1], order[k];
            && 0 < p <= n && 0 < s <= n && next[p] == s && prev[s] == p && prev[p] <= n && next[s] <= n
            && ChainOk(SwapNext(next, prev, p, s), SwapPrev(next, prev, p, s),
                       if prev[p] == NIL then s else head, if next[s] == NIL then p else tail,
                       Swapped(order, k), pos[s := k - 1][p := k], n)
  {
    SwapLinked(next, prev, order, k);
    PlacedSwap(order, pos, k);
  }

  lemma PushLinked(next: Arena, prev: Arena, order: seq<Ref>, r: Ref, tail: Ref)
    requires |next| == |prev| == r && r > 0 && Linked(next, prev, order) && tail == Last(order)
    ensures var next', prev' := next + [NIL], prev + [tail];
            Linked(if order == [] then next' else next'[tail := r], prev', order + [r])
  {}

  lemma ChainPush(next: Arena, prev: Arena, head: Ref, tail: Ref, order: seq<Ref>, pos: seq<nat>, n: nat)
    requires ChainOk(next, prev, head, tail, order, pos, n)
    ensures var r, next' := n + 1, next + [NIL];
            && (head == NIL <==> order == []) && tail <= n
            && ChainOk(if order == [] then next' else next'[tail := r], prev + [tail],
                       if order == [] then r else head, r, order + [r], pos + [|order|], n + 1)
  {
    PushLinked(next, prev, order, n + 1, tail);
    PlacedPush(order, pos);
  }

  /** Neighbours in the list. */
  lemma ChainAt(next: Arena, prev: Arena, head: Ref, tail: Ref, order: seq<Ref>, pos: seq<nat>, n: nat, k: nat)
    requires ChainOk(next, prev, head, tail, order, pos, n) && k < |order|
    ensures 0 < order[k] <= n
    ensures next[order[k]] == (if k + 1 < |order| then order[k + 1] else NIL)
    ensures prev[order[k]] == (if k > 0 then order[k - 1] else NIL)
    ensures forall i | 0 <= i < |order| :: 0 < order[i] <= n
  {}

  lemma ChainHas(next: Arena, prev: Arena, head: Ref, tail: Ref, order: seq<Ref>, pos: seq<nat>, n: nat, r: Ref)
    requires ChainOk(next, prev, head, tail, order, pos, n) && 0 < r <= n
    ensures pos[r] < |order| && order[pos[r]] == r
  {}

  lemma FirstIsTightest(next: Arena, prev: Arena, head: Ref, tail: Ref, order: seq<Ref>, pos: seq<nat>, n: nat,
                        size: seq<nat>, min: nat, k: nat)
    requires ChainOk(next, prev, head, tail, order, pos, n) && Sorted(order, size) && |size| == n + 1 && k <= |order|
    requires forall i | 0 <= i < k :: size[order[i]] < min
    ensures k == |order| ==> forall r: Ref | 0 < r <= n :: size[r] < min
    ensures k < |order| ==> forall r: Ref | 0 < r <= n && size[r] >= min :: size[order[k]] <= size[r]
  {
    forall r: Ref | 0 < r <= n ensures order[pos[r]] == r && pos[r] < |order| {
      ChainHas(next, prev, head, tail, order, pos, n, r);
    }
    forall r: Ref | 0 < r <= n && k < |order| && size[r] >= min ensures size[order[k]] <= size[r] {
      assert size[order[pos[r]]] >= min;
    }
    forall r: Ref | 0 < r <= n && k == |order| ensures size[r] < min {
      assert size[order[pos[r]]] < min;
    }
  }
}
