/** The memory pool: slabs that are split into chunks on demand and merge freed chunks again. */
module MemPool {
  import opened Lists
  import opened SlabTiles
  import opened SlabMarks
  import opened SlabList

  function RoundUp(n: nat): (r: nat)
    ensures n <= r < n + ALIGN && r % ALIGN == 0
    ensures forall m: nat | m % ALIGN == 0 && n <= m :: r <= m
  {
    (n + (ALIGN - 1)) / ALIGN * ALIGN
  }

  lemma RoundUpRises(m: nat, n: nat)
    requires m <= n
    ensures RoundUp(m) <= RoundUp(n)
  {}

  class Slab {
    const slabSize: nat
    var inuseObjs: nat
    var maxSize: nat
    var freeHead: int
    var mem: Memory

    /** The addresses of the chunks, and the blocks handed out with the sizes asked for. */
    ghost var chunks: seq<int>
    ghost var live: map<int, nat>

    ghost predicate Valid()
      reads this
    {
      && SlabOk(mem, chunks, slabSize + HEADER, live, maxSize, freeHead) && inuseObjs == |live|
      && (live == map[] && |chunks| == 1 ==> maxSize == slabSize)
    }

    /** A fresh slab is one free chunk, whose in-use mark is whatever was there. */
    constructor (size: nat, junk: int)
      requires size > 0
      ensures Valid() && slabSize == size && maxSize == size && live == map[]
      ensures chunks == [0] && freeHead == 0 && mem == map[0 := Header(junk, size, NULL, NULL)]
      ensures junk == 0 ==> Tidy(mem, chunks, live)
    {
      slabSize := size;
      inuseObjs, maxSize, freeHead := 0, size, 0;
      mem := map[0 := Header(junk, size, NULL, NULL)];
      chunks, live := [0], map[];
      FreshOk(size, junk);
    }

    /** The chunk at x keeps n bytes, and a header is written behind them. */
    method SplitChunk(x: int, n: nat, junk: int)
      requires x in mem && NULL !in mem && n + HEADER <= mem[x].size && (mem[x].next != NULL ==> mem[x].next in mem)
      modifies `mem
      ensures mem == Split(old(mem), x, n, junk)
    {
      var h, b := mem[x], x + HEADER + n;
      if h.next != NULL {
        mem := mem[h.next := mem[h.next].(prev := b)];
      }
      mem := mem[x := Header(INUSE, n, h.prev, b)];
      mem := mem[b := Header(junk, h.size - n - HEADER, x, h.next)];
    }

    /** What the slab tracks after handing out n bytes: all but them and a header, or nothing if that is no more. */
    static function Leftover(tracked: nat, n: nat): (r: nat)
      requires n <= tracked
      ensures r > 0 <==> tracked > n + HEADER
      ensures r > 0 ==> r + HEADER + n == tracked
    {
      if tracked - n > HEADER then tracked - n - HEADER else 0
    }

    /** pop_usable_object: the front of the tracked chunk is handed out. */
    method Pop(n: nat, junk: int) returns (x: int)
      requires Valid() && 0 < n <= maxSize
      modifies this
      ensures Valid() && x !in old(live) && live == old(live)[x := n] && SameSizes(old(mem), mem, old(live))
      ensures maxSize == Leftover(old(maxSize), n) && x == old(freeHead)
      ensures old(maxSize) - n > HEADER ==>
                && x in old(mem) && n + HEADER <= old(mem)[x].size && mem == Split(old(mem), x, n, junk)
                && x in old(chunks) && chunks == Insert(old(chunks), Position(old(chunks), x) + 1, x + HEADER + n)
      ensures junk == 0 && old(Tidy(mem, chunks, live)) ==> Tidy(mem, chunks, live)
    {
      x := freeHead;
      if maxSize - n > HEADER {
        if junk == 0 && Tidy(mem, chunks, live) {
          SplitTidy(mem, chunks, slabSize + HEADER, live, maxSize, x, n);
        }
        PopFront(x, n, junk);
      } else {
        PopWhole(x, n);
      }
    }

    /** The tracked chunk is split, and its rest tracked. */
    method PopFront(x: int, n: nat, junk: int)
      requires Valid() && 0 < n && n + HEADER < maxSize && x == freeHead
      modifies this
      ensures Valid() && x !in old(live) && live == old(live)[x := n] && SameSizes(old(mem), mem, old(live))
      ensures maxSize == Leftover(old(maxSize), n)
      ensures x in old(mem) && n + HEADER <= old(mem)[x].size && mem == Split(old(mem), x, n, junk)
      ensures x in old(chunks) && chunks == Insert(old(chunks), Position(old(chunks), x) + 1, x + HEADER + n)
    {
      SplitOk(mem, chunks, slabSize + HEADER, live, maxSize, x, n, junk);
      LinksOk(mem, chunks, slabSize + HEADER, x);
      var b := x + HEADER + n;
      ghost var m, a := Split(mem, x, n, junk), Insert(chunks, Position(chunks, x) + 1, b);
      SplitChunk(x, n, junk);
      assert mem == m;
      Took(x, n, maxSize - n - HEADER, b, a);
    }

    /** A block was handed out; another chunk is tracked, or none. */
    method Took(x: int, n: nat, size: nat, tracked: int, ghost a: seq<int>)
      requires x !in live && inuseObjs == |live| && SlabOk(mem, a, slabSize + HEADER, live[x := n], size, tracked)
      modifies `maxSize, `freeHead, `inuseObjs, `chunks, `live
      ensures Valid() && live == old(live)[x := n] && maxSize == size && chunks == a
    {
      maxSize, freeHead := size, tracked;
      inuseObjs := inuseObjs + 1;
      chunks, live := a, live[x := n];
    }

    /** The tracked chunk is handed out whole, and nothing is tracked. */
    method PopWhole(x: int, n: nat)
      requires Valid() && 0 < n <= maxSize && maxSize - n <= HEADER && x == freeHead
      modifies this
      ensures Valid() && x !in old(live) && live == old(live)[x := n] && SameSizes(old(mem), mem, old(live))
      ensures maxSize == Leftover(old(maxSize), n)
      ensures old(Tidy(mem, chunks, live)) ==> Tidy(mem, chunks, live)
    {
      if Tidy(mem, chunks, live) {
        WholeTidy(mem, chunks, slabSize + HEADER, live, maxSize, x, n);
      }
      WholeOk(mem, chunks, slabSize + HEADER, live, maxSize, x, n);
      mem := mem[x := mem[x].(inuse := INUSE)];
      Took(x, n, 0, NULL, chunks);
    }

    /** The chunk at x takes in the one behind it. */
    method AbsorbNext(x: int)
      requires x in mem && NULL !in mem && mem[x].next in mem
      requires mem[mem[x].next].next != NULL ==> mem[mem[x].next].next in mem
      modifies `mem
      ensures mem == Absorb(old(mem), x)
    {
      var h, g := mem[x], mem[mem[x].next];
      if g.next != NULL {
        mem := mem[g.next := mem[g.next].(prev := x)];
      }
      mem := mem[x := h.(size := h.size + HEADER + g.size, next := g.next)];
    }

    /** The chunk behind x is not marked as free. */
    predicate BusyBehind(x: int)
      requires x in mem
      reads `mem
    {
      mem[x].next != NULL && mem[x].next != x && mem[x].next in mem && mem[mem[x].next].inuse != 0
    }

    method MergeBehind(c: int)
      requires Freeing(mem, chunks, slabSize + HEADER, live, maxSize, freeHead, c)
      modifies `mem, `chunks
      ensures Freeing(mem, chunks, slabSize + HEADER, live, maxSize, freeHead, c) && SameSizes(old(mem), mem, live)
      ensures old(TidyBehind(mem, chunks, live, c)) ==> Tidy(mem, chunks, live)
      ensures old(c in mem && BusyBehind(c)) ==> mem == old(mem) && chunks == old(chunks)
      ensures mem[c].size >= old(mem)[c].size
    {
      LinksOk(mem, chunks, slabSize + HEADER, c);
      if TidyBehind(mem, chunks, live, c) {
        NextTidy(mem, chunks, slabSize + HEADER, live, c);
      }
      if mem[c].next != NULL && mem[mem[c].next].inuse == 0 {
        AbsorbBehind(c);
      }
    }

    method AbsorbBehind(c: int)
      requires Freeing(mem, chunks, slabSize + HEADER, live, maxSize, freeHead, c)
      requires mem[c].next != NULL && mem[c].next in mem && mem[mem[c].next].inuse == 0
      modifies `mem, `chunks
      ensures Freeing(mem, chunks, slabSize + HEADER, live, maxSize, freeHead, c) && SameSizes(old(mem), mem, live)
      ensures mem == Absorb(old(mem), c) && Position(old(chunks), c) + 1 < |old(chunks)|
              && chunks == Remove(old(chunks), Position(old(chunks), c) + 1)
    {
      MergeNext(mem, chunks, slabSize + HEADER, live, maxSize, freeHead, c);
      NextLinks(mem, chunks, slabSize + HEADER, c);
      chunks := Remove(chunks, Position(chunks, c) + 1);
      AbsorbNext(c);
    }

    method MergeBefore(c: int) returns (c': int)
      requires Freeing(mem, chunks, slabSize + HEADER, live, maxSize, freeHead, c)
      requires TrackedOk(mem, chunks, live, maxSize, freeHead)
      modifies `mem, `chunks
      ensures Freeing(mem, chunks, slabSize + HEADER, live, maxSize, freeHead, c') && SameSizes(old(mem), mem, live)
      ensures old(TidyBut(mem, chunks, live, c)) ==> TidyBehind(mem, chunks, live, c')
      ensures old(mem[c].prev == NULL) ==> c' == c && mem == old(mem) && chunks == old(chunks)
      ensures mem[c'].size >= old(mem)[c].size
    {
      LinksOk(mem, chunks, slabSize + HEADER, c);
      c' := c;
      if TidyBut(mem, chunks, live, c) {
        PrevTidy(mem, chunks, slabSize + HEADER, live, c);
      }
      if mem[c].prev != NULL && mem[mem[c].prev].inuse == 0 {
        MergePrev(mem, chunks, slabSize + HEADER, live, maxSize, freeHead, c);
        c' := mem[c].prev;
        chunks := Remove(chunks, Position(chunks, c));
        AbsorbNext(c');
      }
    }

    /** The returned block is marked as free. */
    method Mark(x: int)
      requires Valid() && x in live
      modifies `mem, `live
      ensures live == old(live) - {x} && SameSizes(old(mem), mem, live)
      ensures Freeing(mem, chunks, slabSize + HEADER, live, maxSize, freeHead, x)
              && TrackedOk(mem, chunks, live, maxSize, freeHead)
      ensures old(Tidy(mem, chunks, live)) ==> TidyBut(mem, chunks, live, x)
      ensures x in old(mem) && mem[x].prev == old(mem)[x].prev && mem[x].size == old(mem)[x].size
      ensures old(BusyBehind(x)) ==> BusyBehind(x)
    {
      if Tidy(mem, chunks, live) {
        FreeTidy(mem, chunks, slabSize + HEADER, live, maxSize, freeHead, x);
      }
      MarkFree(mem, chunks, slabSize + HEADER, live, maxSize, freeHead, x);
      live := live - {x};
      mem := mem[x := mem[x].(inuse := 0)];
    }

    /**
     * The returned block merges with a free chunk before it and a free chunk behind it; the result is tracked
     * if it is larger than the chunk tracked so far.  What is tracked afterwards is no smaller than the block.
     */
    method Free(x: int)
      requires Valid() && x in live
      modifies this
      ensures Valid() && live == old(live) - {x} && SameSizes(old(mem), mem, live)
      ensures x in old(mem) && maxSize >= old(maxSize) && maxSize >= old(mem)[x].size >= old(live)[x]
      ensures old(Tidy(mem, chunks, live)) ==> Tidy(mem, chunks, live)
      ensures old(mem[x].prev == NULL && BusyBehind(x)) ==> chunks == old(chunks)
    {
      Mark(x);
      var c := MergeBefore(x);
      MergeBehind(c);
      Track(c);
      inuseObjs := inuseObjs - 1;
    }

    /** The merged chunk is tracked if it is larger than the one tracked so far. */
    method Track(c: int)
      requires Freeing(mem, chunks, slabSize + HEADER, live, maxSize, freeHead, c)
      modifies `maxSize, `freeHead
      ensures SlabOk(mem, chunks, slabSize + HEADER, live, maxSize, freeHead)
      ensures maxSize == if mem[c].size > old(maxSize) then mem[c].size else old(maxSize)
      ensures |chunks| == 1 ==> maxSize == slabSize
    {
      TrackLarger(mem, chunks, slabSize + HEADER, live, maxSize, freeHead, c);
      OnlyChunk(mem, chunks, slabSize + HEADER, c);
      if mem[c].size > maxSize {
        maxSize, freeHead := mem[c].size, c;
      }
      TrackedFits(mem, chunks, slabSize + HEADER, live, maxSize, freeHead);
    }
  }

  /** A slab of one chunk. */
  lemma OnlyChunk(mem: Memory, a: seq<int>, total: int, c: int)
    requires Tiled(mem, a, total) && c in a
    ensures c in mem && (|a| == 1 ==> mem[c].size == total - HEADER)
  {
    var i := Position(a, c);
    assert TileOk(mem, a, total, i);
  }

  /**
   * With zeros behind every split, a slab whose blocks have all come back is one chunk again, and tracks it: all
   * of it can be handed out.
   */
  lemma AllMerged(s: Slab)
    requires s.Valid() && Tidy(s.mem, s.chunks, s.live) && s.live == map[]
    ensures s.chunks == [0] && 0 in s.mem && s.mem[0].size == s.slabSize
    ensures s.maxSize == s.slabSize && s.freeHead == 0
  {
    OneChunk(s.mem, s.chunks, s.slabSize + HEADER);
    assert TileOk(s.mem, s.chunks, s.slabSize + HEADER, 0);
  }

  /** With something else behind a split, the one block that was handed out comes back and the slab stays split. */
  method StaysSplit(junk: int) returns (s: Slab)
    requires junk != 0
    ensures fresh(s) && s.Valid() && s.live == map[] && |s.chunks| == 2
  {
    s := new Slab(64, junk);
    var x := s.Pop(8, junk);
    s.Free(x);
  }

  ghost predicate SlabOf(slab: Slab, size: nat, tracked: nat, live: map<int, nat>)
    reads slab
  {
    slab.Valid() && slab.slabSize == size && slab.maxSize == tracked && slab.live == live
  }

  /** Marks the slabs whose state matters to a proof. */
  predicate Look(i: int) {
    true
  }

  /** Different slabs, all in order; sizes[r] is what slab r tracks, and lives[r] what it has handed out. */
  ghost predicate SlabsOk(slabs: seq<Slab>, sizes: seq<nat>, lives: seq<map<int, nat>>, slabSize: nat)
    reads slabs
  {
    && |sizes| == |lives| == |slabs| + 1
    && (forall i {:trigger Look(i)} | Look(i) && 0 <= i < |slabs| ::
          SlabOf(slabs[i], slabSize, sizes[i + 1], lives[i + 1]))
    && (forall i, j | 0 <= i < j < |slabs| :: slabs[i] != slabs[j])
  }

  ghost predicate SizesOk(slabs: seq<Slab>, sizes: seq<nat>)
    reads slabs
  {
    |sizes| == |slabs| + 1
    && forall i {:trigger Look(i)} | Look(i) && 0 <= i < |slabs| :: slabs[i].maxSize == sizes[i + 1]
  }

  lemma AddSlab(slabs: seq<Slab>, sizes: seq<nat>, lives: seq<map<int, nat>>, slabSize: nat, slab: Slab)
    requires SlabsOk(slabs, sizes, lives, slabSize)
    requires slab !in slabs && slab.Valid() && slab.slabSize == slab.maxSize == slabSize && slab.live == map[]
    ensures SlabsOk(slabs + [slab], sizes + [slabSize], lives + [map[]], slabSize)
  {
    var slabs', sizes', lives' := slabs + [slab], sizes + [slabSize], lives + [map[]];
    forall i | Look(i) && 0 <= i < |slabs'| ensures SlabOf(slabs'[i], slabSize, sizes'[i + 1], lives'[i + 1]) {
      assert i < |slabs| ==> SlabOf(slabs[i], slabSize, sizes[i + 1], lives[i + 1]);
    }
  }

  lemma Tracked(slabs: seq<Slab>, sizes: seq<nat>, lives: seq<map<int, nat>>, slabSize: nat, r: Ref)
    requires SlabsOk(slabs, sizes, lives, slabSize) && 0 < r <= |slabs|
    ensures slabs[r - 1].Valid() && slabs[r - 1].slabSize == slabSize && slabs[r - 1].maxSize == sizes[r]
            && slabs[r - 1].live == lives[r]
  {
    assert Look(r - 1) && SlabOf(slabs[r - 1], slabSize, sizes[r - 1 + 1], lives[r - 1 + 1]);
  }

  /** No slab tracks more than a whole slab. */
  lemma SizesBound(slabs: seq<Slab>, sizes: seq<nat>, lives: seq<map<int, nat>>, slabSize: nat, r: Ref)
    requires SlabsOk(slabs, sizes, lives, slabSize) && 0 < r <= |slabs|
    ensures sizes[r] <= slabSize
  {
    var s := slabs[r - 1];
    assert Look(r - 1) && SlabOf(s, slabSize, sizes[r - 1 + 1], lives[r - 1 + 1]);
    TrackedFits(s.mem, s.chunks, slabSize + HEADER, s.live, s.maxSize, s.freeHead);
  }

  lemma PushSorted(slabs: seq<Slab>, order: seq<Ref>, sizes: seq<nat>, lives: seq<map<int, nat>>, slabSize: nat)
    requires SlabsOk(slabs, sizes, lives, slabSize) && Sorted(order, sizes)
             && forall i | 0 <= i < |order| :: order[i] > 0
    ensures Sorted(order + [|sizes|], sizes + [slabSize])
  {
    forall i | 0 <= i < |order| ensures sizes[order[i]] <= slabSize {
      SizesBound(slabs, sizes, lives, slabSize, order[i]);
    }
  }

  /** The slabs, linked in the order of the sizes they track.  Slab r is slabs[r - 1]. */
  class Pool {
    const slabSize: nat
    const preallocSlabs: nat
    const maxSlabs: nat
    var slabs: seq<Slab>
    var next: Arena
    var prev: Arena
    var head: Ref
    var tail: Ref

    /**
     * The list as a sequence, with each slab's position; the tracked sizes by slab, and the blocks each has
     * handed out.
     */
    ghost var order: seq<Ref>
    ghost var pos: seq<nat>
    ghost var sizes: seq<nat>
    ghost var lives: seq<map<int, nat>>

    ghost predicate Links()
      reads `next, `prev, `head, `tail, `order, `pos, `slabs
    {
      ChainOk(next, prev, head, tail, order, pos, |slabs|)
    }

    ghost predicate Valid()
      reads this, slabs
    {
      && slabSize > 0 && slabSize % ALIGN == 0 && preallocSlabs > 0 && |slabs| <= maxSlabs
      && Links() && Sorted(order, sizes)
      && SlabsOk(slabs, sizes, lives, slabSize)
    }

    // ---------- Order ----------

    /** Two neighbours change places. */
    method SwapNeighbours(p: Ref, s: Ref, ghost k: nat)
      requires Links() && 0 < k < |order| && p == order[k - 1] && s == order[k]
      modifies `next, `prev, `head, `tail, `order, `pos
      ensures Links() && order == Swapped(old(order), k)
    {
      ChainSwap(next, prev, head, tail, order, pos, |slabs|, k);
      var pp, ns := prev[p], next[s];
      next, prev := SwapNext(next, prev, p, s), SwapPrev(next, prev, p, s);
      if ns == NIL {
        tail := p;
      }
      if pp == NIL {
        head := s;
      }
      pos := pos[s := k - 1][p := k];
      order := Swapped(order, k);
    }

    /** A slab whose tracked size has shrunk moves toward the head. */
    method RollAhead(r: Ref, ghost at: nat)
      requires Links() && SizesOk(slabs, sizes) && RollsAhead(order, sizes, at) && order[at] == r
      modifies `next, `prev, `head, `tail, `order, `pos
      ensures Links() && Sorted(order, sizes)
    {
      ghost var k: nat := at;
      ChainAt(next, prev, head, tail, order, pos, |slabs|, k);
      while prev[r] != NIL
        invariant Links() && SizesOk(slabs, sizes) && 0 < r <= |slabs|
        invariant RollsAhead(order, sizes, k) && order[k] == r && prev[r] == if k > 0 then order[k - 1] else NIL
        decreases k
      {
        ChainAt(next, prev, head, tail, order, pos, |slabs|, k - 1);
        assert Look(prev[r] - 1) && Look(r - 1);
        if slabs[prev[r] - 1].maxSize <= slabs[r - 1].maxSize {
          break;
        }
        AheadStep(order, sizes, k);
        SwapNeighbours(prev[r], r, k);
        k := k - 1;
        ChainAt(next, prev, head, tail, order, pos, |slabs|, k);
      }
      AheadEnd(order, sizes, k);
    }

    /** A slab whose tracked size has grown moves toward the tail. */
    method RollBack(r: Ref, ghost at: nat)
      requires Links() && SizesOk(slabs, sizes) && RollsBack(order, sizes, at) && order[at] == r
      modifies `next, `prev, `head, `tail, `order, `pos
      ensures Links() && Sorted(order, sizes)
    {
      ghost var k: nat := at;
      ChainAt(next, prev, head, tail, order, pos, |slabs|, k);
      while next[r] != NIL
        invariant Links() && SizesOk(slabs, sizes) && 0 < r <= |slabs|
        invariant RollsBack(order, sizes, k) && order[k] == r
                  && next[r] == if k + 1 < |order| then order[k + 1] else NIL
        decreases |order| - k
      {
        ChainAt(next, prev, head, tail, order, pos, |slabs|, k + 1);
        assert Look(next[r] - 1) && Look(r - 1);
        if slabs[next[r] - 1].maxSize >= slabs[r - 1].maxSize {
          break;
        }
        BackStep(order, sizes, k);
        SwapNeighbours(r, next[r], k + 1);
        k := k + 1;
        ChainAt(next, prev, head, tail, order, pos, |slabs|, k);
      }
      BackEnd(order, sizes, k);
    }

    // ---------- Slabs ----------

    /** The new slab is linked behind the tail. */
    method LinkTail(r: Ref)
      requires Links() && r == |slabs| + 1
      modifies `next, `prev, `head, `tail, `order, `pos
      ensures ChainOk(next, prev, head, tail, order, pos, r) && order == old(order) + [r]
    {
      ChainPush(next, prev, head, tail, order, pos, |slabs|);
      ghost var chained, first := if order == [] then next + [NIL] else (next + [NIL])[tail := r], order == [];
      next, prev := next + [NIL], prev + [tail];
      if head == NIL {
        head := r;
      } else {
        next := next[tail := r];
      }
      tail := r;
      assert next == chained && head == if first then r else old(head);
      pos := pos + [|order|];
      order := order + [r];
    }

    /** A new slab goes to the tail: none tracks a larger chunk. */
    method Adopt(slab: Slab)
      requires Valid() && |slabs| < maxSlabs && slab !in slabs
      requires slab.Valid() && slab.slabSize == slab.maxSize == slabSize && slab.live == map[]
      modifies this
      ensures Valid() && slabs == old(slabs) + [slab] && sizes == old(sizes) + [slabSize]
              && lives == old(lives) + [map[]]
    {
      MembersPositive();
      PushSorted(slabs, order, sizes, lives, slabSize);
      AddSlab(slabs, sizes, lives, slabSize, slab);
      LinkTail(|slabs| + 1);
      slabs := slabs + [slab];
      sizes, lives := sizes + [slabSize], lives + [map[]];
    }

    lemma MembersPositive()
      requires Links()
      ensures forall i | 0 <= i < |order| :: order[i] > 0
    {
      if |order| > 0 {
        ChainAt(next, prev, head, tail, order, pos, |slabs|, 0);
      }
    }

    method PushSlab(junk: int) returns (slab: Slab)
      requires Valid() && |slabs| < maxSlabs
      modifies this
      ensures Valid() && fresh(slab) && slabs == old(slabs) + [slab]
      ensures sizes == old(sizes) + [slabSize] && lives == old(lives) + [map[]]
    {
      slab := new Slab(slabSize, junk);
      Adopt(slab);
    }

    /** Allocates slabs, at most until there are as many as allowed; the first of them is returned. */
    method AllocSlabs(count: nat, junk: nat -> int) returns (first: Ref, ghost added: seq<Slab>)
      requires Valid() && count > 0
      modifies this
      ensures Valid() && slabs == old(slabs) + added && Extends(old(lives), lives)
      ensures Grown(old(sizes), sizes, slabSize)
      ensures forall i | 0 <= i < |added| :: fresh(added[i])
      ensures if old(|slabs|) >= maxSlabs then first == NIL && added == []
              else first == old(|slabs|) + 1 && added != [] && sizes[first] == slabSize
      ensures |added| == if old(|slabs|) >= maxSlabs then 0
                         else if count < maxSlabs - old(|slabs|) then count else maxSlabs - old(|slabs|)
    {
      added := [];
      if |slabs| >= maxSlabs {
        return NIL, added;
      }
      first := |slabs| + 1;
      var slab := PushSlab(junk(0));
      added := [slab];
      var i := 1;
      while i < count && |slabs| < maxSlabs
        invariant Valid() && slabs == old(slabs) + added && added != [] && Extends(old(lives), lives)
        invariant Grown(old(sizes), sizes, slabSize)
        invariant forall j | 0 <= j < |added| :: fresh(added[j])
        invariant sizes[first] == slabSize && i == |added| <= count && |slabs| <= maxSlabs
      {
        slab := PushSlab(junk(i));
        added := added + [slab];
        i := i + 1;
      }
    }

    /** init, for the sizes it accepts: the slab size is rounded up, and the first slabs are allocated. */
    constructor (size: nat, prealloc: nat, max: nat, junk: nat -> int)
      requires size > HEADER && max > 0
      ensures Valid()
              && (forall r | 0 <= r < |lives| :: lives[r] == map[]) && slabSize == RoundUp(size) && maxSlabs == max
      ensures var asked := if prealloc == 0 then PREALLOC_SLABS else prealloc;
              |slabs| == if asked < max then asked else max
      ensures forall i | 0 <= i < |slabs| :: fresh(slabs[i])
    {
      slabSize := RoundUp(size);
      preallocSlabs := if prealloc == 0 then PREALLOC_SLABS else prealloc;
      maxSlabs := max;
      slabs, next, prev, head, tail := [], [NIL], [NIL], NIL, NIL;
      order, pos, sizes, lives := [], [0], [0], [map[]];
      new;
      var _, _ := AllocSlabs(preallocSlabs, junk);
    }

    /** The first slab that tracks a chunk of n bytes is, by the order of the list, the tightest. */
    method FindUsable(n: nat) returns (r: Ref)
      requires Valid()
      ensures r == NIL ==> forall q: Ref | 0 < q <= |slabs| :: sizes[q] < n
      ensures r != NIL ==> 0 < r <= |slabs| && sizes[r] >= n
      ensures r != NIL ==> forall q: Ref | 0 < q <= |slabs| && sizes[q] >= n :: sizes[r] <= sizes[q]
    {
      r := head;
      ghost var k := 0;
      while r != NIL
        invariant k <= |order| && r == (if k < |order| then order[k] else NIL)
        invariant forall i | 0 <= i < k :: sizes[order[i]] < n
        decreases |order| - k
      {
        ChainAt(next, prev, head, tail, order, pos, |slabs|, k);
        Tracked(slabs, sizes, lives, slabSize, r);
        if slabs[r - 1].maxSize >= n {
          break;
        }
        r := next[r];
        k := k + 1;
      }
      FirstIsTightest(next, prev, head, tail, order, pos, |slabs|, sizes, n, k);
    }

    // ---------- Blocks ----------

    /** Slab r hands out a block of n bytes. */
    method PopFrom(r: Ref, n: nat, junk: int) returns (x: int)
      requires SlabsOk(slabs, sizes, lives, slabSize) && 0 < r <= |slabs| && 0 < n <= sizes[r]
      modifies slabs[r - 1], `sizes, `lives
      ensures SlabsOk(slabs, sizes, lives, slabSize)
      ensures x !in old(lives)[r] && lives == old(lives)[r := WithBlock(old(lives)[r], x, n)]
      ensures sizes == old(sizes)[r := Slab.Leftover(old(sizes)[r], n)]
    {
      Tracked(slabs, sizes, lives, slabSize, r);
      x := slabs[r - 1].Pop(n, junk);
      sizes := sizes[r := slabs[r - 1].maxSize];
      lives := lives[r := slabs[r - 1].live];
      forall i | Look(i) && 0 <= i < |slabs| ensures SlabOf(slabs[i], slabSize, sizes[i + 1], lives[i + 1]) {
        assert i != r - 1 ==> old(SlabOf(slabs[i], slabSize, sizes[i + 1], lives[i + 1]));
      }
    }

    method FreeIn(r: Ref, x: int)
      requires SlabsOk(slabs, sizes, lives, slabSize) && 0 < r <= |slabs| && x in lives[r]
      modifies slabs[r - 1], `sizes, `lives
      ensures SlabsOk(slabs, sizes, lives, slabSize)
      ensures lives == old(lives)[r := old(lives)[r] - {x}]
      ensures sizes == old(sizes)[r := sizes[r]] && sizes[r] >= old(sizes[r]) && sizes[r] >= old(lives)[r][x]
    {
      Tracked(slabs, sizes, lives, slabSize, r);
      slabs[r - 1].Free(x);
      sizes := sizes[r := slabs[r - 1].maxSize];
      lives := lives[r := slabs[r - 1].live];
      forall i | Look(i) && 0 <= i < |slabs| ensures SlabOf(slabs[i], slabSize, sizes[i + 1], lives[i + 1]) {
        assert i != r - 1 ==> old(SlabOf(slabs[i], slabSize, sizes[i + 1], lives[i + 1]));
      }
    }

    /** Slab r hands out a block and finds its new place in the list. */
    method Serve(r: Ref, n: nat, junk: int) returns (x: int)
      requires Valid() && 0 < r <= |slabs| && 0 < n <= sizes[r]
      modifies `next, `prev, `head, `tail, `order, `pos, `sizes, `lives, slabs[r - 1]
      ensures Valid() && x !in old(lives)[r] && lives == old(lives)[r := WithBlock(old(lives)[r], x, n)]
      ensures sizes == old(sizes)[r := Slab.Leftover(old(sizes)[r], n)]
    {
      ChainHas(next, prev, head, tail, order, pos, |slabs|, r);
      x := PopFrom(r, n, junk);
      ChangedSize(order, old(sizes), sizes, pos[r]);
      SizesFrom(slabs, sizes, lives, slabSize);
      RollAhead(r, pos[r]);
    }

    /** Some slab tracks a chunk of n bytes. */
    ghost predicate Serves(n: nat)
      requires |sizes| == |slabs| + 1
      reads `sizes, `slabs
    {
      exists r: Ref :: 0 < r <= |slabs| && sizes[r] >= n
    }

    /**
     * A block of at least `size` bytes, at address x of slab r.  There is none exactly when the size exceeds
     * a slab's, or no slab tracks a large enough chunk and no more slabs may be allocated.  If there are slabs that
     * do, the block comes from the tightest of them; new ones are allocated only if there are none.
     */
    method Malloc(size: nat, junk: int, junks: nat -> int) returns (r: Ref, x: int)
      requires Valid() && size > 0
      modifies this, slabs
      ensures Valid() && old(slabs) <= slabs && forall i | |old(slabs)| <= i < |slabs| :: fresh(slabs[i])
      ensures r == NIL <==>
                size > slabSize ||
                ((forall q: Ref | 0 < q <= |old(slabs)| :: old(sizes)[q] < RoundUp(size)) && |old(slabs)| == maxSlabs)
      ensures r == NIL ==> lives == old(lives) && slabs == old(slabs) && sizes == old(sizes)
      ensures r != NIL ==> r < |lives| && Extends(old(lives), lives[r := lives[r] - {x}])
      ensures r != NIL ==> x in lives[r] && lives[r][x] == RoundUp(size) && (r < |old(lives)| ==> x !in old(lives)[r])
      ensures r != NIL ==> ServedFrom(old(sizes), sizes, slabSize, r, RoundUp(size))
      ensures r != NIL && old(Serves(RoundUp(size))) ==> slabs == old(slabs) && Tightest(old(sizes), r, RoundUp(size))
      ensures r != NIL && !old(Serves(RoundUp(size))) ==>
                |slabs| == if preallocSlabs < maxSlabs - |old(slabs)| then |old(slabs)| + preallocSlabs else maxSlabs
    {
      x := 0;
      if size > slabSize {
        return NIL, x;
      }
      var n := RoundUp(size);
      r := FindUsable(n);
      if r == NIL {
        ghost var added;
        r, added := AllocSlabs(preallocSlabs, junks);
        if r == NIL {
          return;
        }
      }
      ghost var was, tracked := lives, sizes;
      x := Serve(r, n, junk);
      assert lives[r] - {x} == was[r];
    }

    /** Null is ignored; any other pointer must be a block that has been handed out. */
    method Free(r: Ref, x: int)
      requires Valid() && (r != NIL ==> r <= |slabs| && x in lives[r])
      modifies `next, `prev, `head, `tail, `order, `pos, `sizes, `lives, slabs
      ensures Valid()
              && (r == NIL ==> lives == old(lives)) && (r != NIL ==> lives == old(lives)[r := old(lives)[r] - {x}])
      ensures r == NIL ==> sizes == old(sizes)
      ensures r != NIL ==> sizes == old(sizes)[r := sizes[r]]
                           && sizes[r] >= old(sizes)[r] && sizes[r] >= old(lives)[r][x]
    {
      if r == NIL {
        return;
      }
      ChainHas(next, prev, head, tail, order, pos, |slabs|, r);
      FreeIn(r, x);
      ChangedSize(order, old(sizes), sizes, pos[r]);
      SizesFrom(slabs, sizes, lives, slabSize);
      RollBack(r, pos[r]);
    }

    // ---------- Histories ----------

    /** Carries out one operation for a client that holds the given blocks. */
    method Perform(op: Operation, held: seq<Block>) returns (got: Block, held': seq<Block>)
      requires Valid() && HeldOk(lives, held) && (op.Take? ==> op.size > 0)
      modifies this, slabs
      ensures Valid() && old(slabs) <= slabs && forall i | |old(slabs)| <= i < |slabs| :: fresh(slabs[i])
      ensures held' == After(held, op, got) && HeldOk(lives, held')
      ensures op.Take? && old(Serves(RoundUp(op.size))) ==> got.slab != NIL
      ensures op.GiveBack? && op.i < |held| ==> Serves(RoundUp(held[op.i].size))
    {
      got := Block(NIL, 0, 0);
      match op
      case Take(size, junk, junks) =>
        if Serves(RoundUp(size)) {
          ServedFits(RoundUp(size));
        }
        var r, x := Malloc(size, junk, junks);
        got, held' := Block(r, x, size), held;
        if r != NIL {
          TakeHeld(old(lives), lives, held, got);
          held' := held + [got];
        }
      case GiveBack(i) =>
        held' := held;
        if i < |held| {
          assert Has(lives, held[i]);
          Free(held[i].slab, held[i].at);
          GiveHeld(old(lives), held, i);
          held' := held[..i] + held[i + 1..];
        } else {
          Free(NIL, 0);
        }
    }

    lemma ServedFits(n: nat)
      requires Valid() && Serves(n)
      ensures n <= slabSize
    {
      var r: Ref :| 0 < r <= |slabs| && sizes[r] >= n;
      SizesBound(slabs, sizes, lives, slabSize, r);
    }

    /**
     * Any history of a client that gives back what it has got, in any order: the pool stays in order, and the
     * blocks handed out and not taken back are exactly those that the client holds.  Right after a block was given
     * back, no request fails for as much, or less.
     */
    method Run(ops: seq<Operation>) returns (got: seq<Block>, held: seq<Block>)
      requires Valid() && HeldOk(lives, []) && forall i | 0 <= i < |ops| && ops[i].Take? :: ops[i].size > 0
      modifies this, slabs
      ensures Valid() && |got| == |ops| && held == History(ops, got) && HeldOk(lives, held)
      ensures Reuses(ops, got)
    {
      got, held := [], [];
      for n := 0 to |ops|
        invariant Valid() && old(slabs) <= slabs && forall i | |old(slabs)| <= i < |slabs| :: fresh(slabs[i])
        invariant |got| == n && held == History(ops[..n], got) && HeldOk(lives, held) && Reuses(ops, got)
        invariant n > 0 && GivenBack(ops, got, n - 1) > 0 ==> Serves(RoundUp(GivenBack(ops, got, n - 1)))
      {
        var b;
        b, held := Go(ops, got, held);
        got := got + [b];
      }
      assert ops[..|ops|] == ops;
    }

    /** The next operation of a history. */
    method Go(ops: seq<Operation>, got: seq<Block>, held: seq<Block>) returns (b: Block, held': seq<Block>)
      requires Valid() && |got| < |ops| && HeldOk(lives, held) && (ops[|got|].Take? ==> ops[|got|].size > 0)
      requires held == History(ops[..|got|], got) && Reuses(ops, got)
      requires |got| > 0 && GivenBack(ops, got, |got| - 1) > 0 ==> Serves(RoundUp(GivenBack(ops, got, |got| - 1)))
      modifies this, slabs
      ensures Valid() && old(slabs) <= slabs && forall i | |old(slabs)| <= i < |slabs| :: fresh(slabs[i])
      ensures held' == History(ops[..|got| + 1], got + [b]) && HeldOk(lives, held') && Reuses(ops, got + [b])
      ensures GivenBack(ops, got + [b], |got|) > 0 ==> Serves(RoundUp(GivenBack(ops, got + [b], |got|)))
    {
      ghost var n := |got|;
      if n > 0 && ops[n].Take? && ops[n].size <= GivenBack(ops, got, n - 1) {
        RoundUpRises(ops[n].size, GivenBack(ops, got, n - 1));
      }
      b, held' := Perform(ops[|got|], held);
      ReusesMore(ops, got, b);
      assert ops[..n + 1][..n] == ops[..n] && (got + [b])[..n] == got[..n] == got;
    }

    /** Two blocks that the client holds in the same slab are in bounds, large enough, and do not overlap. */
    lemma HeldApart(held: seq<Block>, i: nat, j: nat)
      requires Valid() && HeldOk(lives, held) && i < j < |held| && held[i].slab == held[j].slab
      ensures held[i].slab <= |slabs|
      ensures var mem := slabs[held[i].slab - 1].mem;
              && held[i].at in mem && held[j].at in mem
              && mem[held[i].at].size >= held[i].size && mem[held[j].at].size >= held[j].size
              && 0 <= held[i].at && End(mem, held[i].at) <= slabSize + HEADER
              && (End(mem, held[i].at) <= held[j].at || End(mem, held[j].at) <= held[i].at)
    {
      assert Has(lives, held[i]) && Has(lives, held[j]);
      BlocksApart(held[i].slab, held[i].at, held[j].at);
      BlocksApart(held[i].slab, held[j].at, held[i].at);
    }

    /** Two blocks of the pool are in bounds, at least as large as asked for, and do not overlap. */
    lemma BlocksApart(r: Ref, x: int, y: int)
      requires Valid() && 0 < r <= |slabs| && x in lives[r] && y in lives[r] && x != y
      ensures var mem := slabs[r - 1].mem;
              && x in mem && y in mem && mem[x].size >= lives[r][x]
              && 0 <= x && End(mem, x) <= slabSize + HEADER
              && (End(mem, x) <= y || End(mem, y) <= x)
    {
      Tracked(slabs, sizes, lives, slabSize, r);
      var s := slabs[r - 1];
      LiveApart(s.mem, s.chunks, slabSize + HEADER, s.live, s.maxSize, s.freeHead, x, y);
    }
  }

  // ---------- Clients ----------

  /** A pointer that malloc returned, with the size that was asked for. */
  datatype Block = Block(slab: Ref, at: int, size: nat)

  /** A client asks for a block, or gives back the i-th of those it holds; a null pointer if it holds fewer. */
  datatype Operation = Take(size: nat, junk: int, junks: nat -> int) | GiveBack(i: nat)

  /** What the client holds after an operation that returned `got`. */
  function After(held: seq<Block>, op: Operation, got: Block): seq<Block> {
    match op
    case Take(_, _, _) => if got.slab == NIL then held else held + [got]
    case GiveBack(i) => if i < |held| then held[..i] + held[i + 1..] else held
  }

  function History(ops: seq<Operation>, got: seq<Block>): seq<Block>
    requires |got| == |ops|
  {
    if ops == [] then []
    else
      var n := |ops| - 1;
      After(History(ops[..n], got[..n]), ops[n], got[n])
  }

  /** The size of the block that the client gave back in step n, or 0. */
  function GivenBack(ops: seq<Operation>, got: seq<Block>, n: nat): nat
    requires n < |ops| && n <= |got|
  {
    match ops[n]
    case Take(_, _, _) => 0
    case GiveBack(i) =>
      var held := History(ops[..n], got[..n]);
      if i < |held| then held[i].size else 0
  }

  /** No request fails that comes right after a block was given back which is no smaller. */
  ghost predicate Reuses(ops: seq<Operation>, got: seq<Block>)
    requires |got| <= |ops|
  {
    forall n | 0 < n < |got| && ops[n].Take? && ops[n].size <= GivenBack(ops, got, n - 1) :: got[n].slab != NIL
  }

  lemma ReusesMore(ops: seq<Operation>, got: seq<Block>, b: Block)
    requires |got| < |ops| && Reuses(ops, got)
    requires |got| > 0 && ops[|got|].Take? && ops[|got|].size <= GivenBack(ops, got, |got| - 1) ==> b.slab != NIL
    ensures Reuses(ops, got + [b])
  {
    forall k | 0 <= k < |got| ensures GivenBack(ops, got + [b], k) == GivenBack(ops, got, k) {
      assert (got + [b])[..k] == got[..k];
    }
  }

  /** n is what a client gets that asks for size bytes. */
  ghost predicate Sized(n: nat, size: nat) {
    n == RoundUp(size)
  }

  /** The block is handed out, and as large as asked for, rounded up. */
  ghost predicate Has(lives: seq<map<int, nat>>, b: Block) {
    0 < b.slab < |lives| && b.at in lives[b.slab] && Sized(lives[b.slab][b.at], b.size)
  }

  ghost predicate Same(b: Block, r: Ref, x: int) {
    b.slab == r && b.at == x
  }

  ghost predicate HeldAt(held: seq<Block>, r: Ref, x: int) {
    exists i :: 0 <= i < |held| && Same(held[i], r, x)
  }

  /** The blocks held are handed out, different, and all that are handed out. */
  ghost predicate HeldOk(lives: seq<map<int, nat>>, held: seq<Block>) {
    && (forall i | 0 <= i < |held| :: Has(lives, held[i]))
    && (forall i, j | 0 <= i < j < |held| :: !Same(held[i], held[j].slab, held[j].at))
    && (forall r: Ref, x | r < |lives| && x in lives[r] :: HeldAt(held, r, x))
  }

  lemma TakeHeld(lives: seq<map<int, nat>>, lives': seq<map<int, nat>>, held: seq<Block>, b: Block)
    requires HeldOk(lives, held) && Has(lives', b)
    requires Extends(lives, lives'[b.slab := lives'[b.slab] - {b.at}]) && (b.slab < |lives| ==> b.at !in lives[b.slab])
    ensures HeldOk(lives', held + [b])
  {
    var held' := held + [b];
    var rest := lives'[b.slab := lives'[b.slab] - {b.at}];
    forall i | 0 <= i < |held'| ensures Has(lives', held'[i]) && (i < |held| ==> !Same(held[i], b.slab, b.at)) {
      if i < |held| {
        assert Has(lives, held[i]) && rest[held[i].slab] == lives[held[i].slab];
      }
    }
    forall r: Ref, x | r < |lives'| && x in lives'[r] ensures HeldAt(held', r, x) {
      if r == b.slab && x == b.at {
        assert Same(held'[|held|], r, x);
      } else {
        assert x in rest[r] && r < |lives|;
        var i :| 0 <= i < |held| && Same(held[i], r, x);
        assert Same(held'[i], r, x);
      }
    }
  }

  lemma GiveHeld(lives: seq<map<int, nat>>, held: seq<Block>, k: nat)
    requires HeldOk(lives, held) && k < |held|
    ensures var b := held[k];
            b.slab < |lives| && HeldOk(lives[b.slab := lives[b.slab] - {b.at}], held[..k] + held[k + 1..])
  {
    assert Has(lives, held[k]);
    var held' := held[..k] + held[k + 1..];
    assert forall i | 0 <= i < |held'| :: held'[i] == held[if i < k then i else i + 1];
    RestHas(lives, held, k, held');
    RestIsAll(lives, held, k, held');
  }

  lemma RestHas(lives: seq<map<int, nat>>, held: seq<Block>, k: nat, held': seq<Block>)
    requires HeldOk(lives, held) && k < |held| && |held'| == |held| - 1 && Has(lives, held[k])
    requires forall i | 0 <= i < |held'| :: held'[i] == held[if i < k then i else i + 1]
    ensures var b := held[k]; forall i | 0 <= i < |held'| :: Has(lives[b.slab := lives[b.slab] - {b.at}], held'[i])
  {
    var b := held[k];
    forall i | 0 <= i < |held'| ensures Has(lives[b.slab := lives[b.slab] - {b.at}], held'[i]) {
      var n := if i < k then i else i + 1;
      assert Has(lives, held[n]) && !Same(held[n], b.slab, b.at);
    }
  }

  lemma RestIsAll(lives: seq<map<int, nat>>, held: seq<Block>, k: nat, held': seq<Block>)
    requires HeldOk(lives, held) && k < |held| && |held'| == |held| - 1 && Has(lives, held[k])
    requires forall i | 0 <= i < |held'| :: held'[i] == held[if i < k then i else i + 1]
    ensures var b := held[k];
            var lives' := lives[b.slab := lives[b.slab] - {b.at}];
            forall r: Ref, x | r < |lives'| && x in lives'[r] :: HeldAt(held', r, x)
  {
    var b := held[k];
    var lives' := lives[b.slab := lives[b.slab] - {b.at}];
    forall r: Ref, x | r < |lives'| && x in lives'[r] ensures HeldAt(held', r, x) {
      var i :| 0 <= i < |held| && Same(held[i], r, x);
      assert i != k;
      assert Same(held'[if i < k then i else i - 1], r, x);
    }
  }

  lemma SizesFrom(slabs: seq<Slab>, sizes: seq<nat>, lives: seq<map<int, nat>>, slabSize: nat)
    requires SlabsOk(slabs, sizes, lives, slabSize)
    ensures SizesOk(slabs, sizes)
  {
    forall i | Look(i) && 0 <= i < |slabs| ensures slabs[i].maxSize == sizes[i + 1] {
      assert SlabOf(slabs[i], slabSize, sizes[i + 1], lives[i + 1]);
    }
  }

  ghost function WithBlock(live: map<int, nat>, x: int, n: nat): map<int, nat> {
    live[x := n]
  }

  /** More slabs, which track all that they have. */
  ghost predicate Grown(sizes: seq<nat>, sizes': seq<nat>, slabSize: nat) {
    |sizes| <= |sizes'| && forall r | 0 <= r < |sizes'| :: sizes'[r] == if r < |sizes| then sizes[r] else slabSize
  }

  /** Slab r, perhaps a new one, has given n bytes of what it tracked; the others track what they did. */
  ghost predicate ServedFrom(sizes: seq<nat>, sizes': seq<nat>, slabSize: nat, r: Ref, n: nat) {
    && |sizes| <= |sizes'| && r < |sizes'|
    && (forall q | 0 <= q < |sizes'| && q != r :: sizes'[q] == if q < |sizes| then sizes[q] else slabSize)
    && var tracked := if r < |sizes| then sizes[r] else slabSize;
       n <= tracked && sizes'[r] == Slab.Leftover(tracked, n)
  }

  /** Of the slabs that track n bytes, slab r tracks the fewest. */
  ghost predicate Tightest(sizes: seq<nat>, r: Ref, n: nat) {
    r < |sizes| && n <= sizes[r] && forall q | 0 < q < |sizes| && sizes[q] >= n :: sizes[r] <= sizes[q]
  }

  /** More slabs, with nothing handed out. */
  ghost predicate Extends(lives: seq<map<int, nat>>, lives': seq<map<int, nat>>) {
    |lives| <= |lives'| && forall r | 0 <= r < |lives'| :: lives'[r] == if r < |lives| then lives[r] else map[]
  }

  const PREALLOC_SLABS := 64
}
