/**
 * The chunks of one slab.  A slab is a stretch of memory that chunks fill without
 * gaps; each chunk starts with a header that holds its size and links it to its neighbours.
 */
module SlabTiles {
  import opened Lists

  const HEADER: nat := 32
  const ALIGN: nat := 8
  const INUSE := 0x13
  const NULL := -1

  datatype Header = Header(inuse: int, size: nat, prev: int, next: int)

  /** Headers by the address, within the slab, of their chunk. */
  type Memory = map<int, Header>

  function End(mem: Memory, x: int): int
    requires x in mem
  {
    x + HEADER + mem[x].size
  }

  ghost predicate Rising(a: seq<int>) {
    forall i, j | 0 <= i < j < |a| :: a[i] < a[j]
  }

  /** Chunk i is nonempty, linked to its neighbours, and ends where the next one starts. */
  ghost predicate TileOk(mem: Memory, a: seq<int>, total: int, i: int)
    requires 0 <= i < |a|
  {
    && a[i] in mem
    && mem[a[i]].size > 0
    && End(mem, a[i]) == (if i + 1 < |a| then a[i + 1] else total)
    && mem[a[i]].next == (if i + 1 < |a| then a[i + 1] else NULL)
    && mem[a[i]].prev == (if i > 0 then a[i - 1] else NULL)
  }

  /** The chunks at the addresses a fill the slab. */
  ghost predicate Tiled(mem: Memory, a: seq<int>, total: int) {
    && a != [] && a[0] == 0 && Rising(a)
    && forall i | 0 <= i < |a| :: TileOk(mem, a, total, i)
  }

  // ---------- Splitting ----------

  /** The chunk at x keeps n bytes; the rest becomes a chunk of its own, whose in-use mark is whatever was there. */
  function Split(mem: Memory, x: int, n: nat, junk: int): Memory
    requires x in mem && n + HEADER <= mem[x].size
  {
    var h, b := mem[x], x + HEADER + n;
    var m1 := if h.next in mem then mem[h.next := mem[h.next].(prev := b)] else mem;
    m1[x := Header(INUSE, n, h.prev, b)][b := Header(junk, h.size - n - HEADER, x, h.next)]
  }

  /** The new chunk lies between its neighbours. */
  lemma SplitRising(a: seq<int>, i: nat, b: int, total: int)
    requires Rising(a) && i < |a| && a[i] < b && (i + 1 < |a| ==> b < a[i + 1])
    ensures Rising(Insert(a, i + 1, b)) && b !in a
  {
    InsertFacts(a, i + 1, b, Insert(a, i + 1, b));
    forall j | 0 <= j < |a| ensures a[j] != b {}
  }

  /** What a split leaves alone. */
  lemma SplitElsewhere(mem: Memory, x: int, n: nat, junk: int, y: int)
    requires x in mem && n + HEADER <= mem[x].size && y in mem && y != x && y != x + HEADER + n
    ensures var mem' := Split(mem, x, n, junk);
            y in mem' && mem'[y].size == mem[y].size && mem'[y].next == mem[y].next
            && mem'[y].prev == if y == mem[x].next then x + HEADER + n else mem[y].prev
  {}

  lemma SplitTile(mem: Memory, a: seq<int>, total: int, i: nat, n: nat, junk: int, a': seq<int>, j: nat)
    requires Tiled(mem, a, total) && NULL !in mem && i < |a| && a[i] in mem && 0 < n && n + HEADER < mem[a[i]].size
    requires a' == Insert(a, i + 1, a[i] + HEADER + n) && Rising(a') && j < |a'|
    ensures TileOk(Split(mem, a[i], n, junk), a', total, j)
  {
    var b := a[i] + HEADER + n;
    InsertFacts(a, i + 1, b, a');
    assert TileOk(mem, a, total, i);
    if j < i {
      assert TileOk(mem, a, total, j);
      SplitElsewhere(mem, a[i], n, junk, a[j]);
    } else if j > i + 1 {
      assert TileOk(mem, a, total, j - 1);
      SplitElsewhere(mem, a[i], n, junk, a[j - 1]);
    }
  }

  lemma SplitTiled(mem: Memory, a: seq<int>, total: int, i: nat, n: nat, junk: int)
    requires Tiled(mem, a, total) && NULL !in mem && i < |a| && a[i] in mem && 0 < n && n + HEADER < mem[a[i]].size
    ensures Tiled(Split(mem, a[i], n, junk), Insert(a, i + 1, a[i] + HEADER + n), total)
    ensures a[i] + HEADER + n !in a
  {
    var b := a[i] + HEADER + n;
    var a', mem' := Insert(a, i + 1, b), Split(mem, a[i], n, junk);
    assert TileOk(mem, a, total, i);
    SplitRising(a, i, b, total);
    forall j | 0 <= j < |a'| ensures TileOk(mem', a', total, j) {
      SplitTile(mem, a, total, i, n, junk, a', j);
    }
  }

  // ---------- Merging ----------

  /** The chunk at x takes in the chunk behind it. */
  function Absorb(mem: Memory, x: int): Memory
    requires x in mem && mem[x].next in mem
  {
    var h, g := mem[x], mem[mem[x].next];
    var m1 := if g.next in mem then mem[g.next := mem[g.next].(prev := x)] else mem;
    m1[x := h.(size := h.size + HEADER + g.size, next := g.next)]
  }

  lemma AbsorbTiled(mem: Memory, a: seq<int>, total: int, i: nat)
    requires Tiled(mem, a, total) && NULL !in mem && i + 1 < |a|
    ensures a[i] in mem && a[i + 1] in mem && mem[a[i]].next == a[i + 1]
    ensures Tiled(Absorb(mem, a[i]), Remove(a, i + 1), total)
  {
    assert TileOk(mem, a, total, i) && TileOk(mem, a, total, i + 1);
    var a', mem' := Remove(a, i + 1), Absorb(mem, a[i]);
    RemoveFacts(a, i + 1, a');
    forall j | 0 <= j < |a'| ensures TileOk(mem', a', total, j) {
      assert TileOk(mem, a, total, if j <= i then j else j + 1);
      assert i + 2 < |a| ==> TileOk(mem, a, total, i + 2);
      AbsorbTile(mem, a, total, i, j);
    }
  }

  /** Tile j of the rest is tile j, or the one behind it, of what was there. */
  lemma AbsorbTile(mem: Memory, a: seq<int>, total: int, i: nat, j: nat)
    requires NULL !in mem && i + 1 < |a| && j + 1 < |a| && Rising(a)
    requires TileOk(mem, a, total, i) && TileOk(mem, a, total, i + 1)
             && TileOk(mem, a, total, if j <= i then j else j + 1)
    requires i + 2 < |a| ==> a[i + 2] in mem
    ensures TileOk(Absorb(mem, a[i]), Remove(a, i + 1), total, j)
  {
    RemoveFacts(a, i + 1, Remove(a, i + 1));
  }

  lemma RemoveMembers(a: seq<int>, k: nat, x: int)
    requires Rising(a) && k < |a| && x in a && x != a[k]
    ensures x in Remove(a, k)
  {
    var i :| 0 <= i < |a| && a[i] == x;
    assert Remove(a, k)[if i < k then i else i - 1] == x;
  }

  /** Different chunks do not overlap, and all lie within the slab. */
  lemma {:induction false} Apart(mem: Memory, a: seq<int>, total: int, i: nat, j: nat)
    requires Tiled(mem, a, total) && i < j < |a|
    ensures a[i] in mem && End(mem, a[i]) <= a[j]
    decreases j
  {
    assert TileOk(mem, a, total, i);
    if i + 1 < j {
      Apart(mem, a, total, i, j - 1);
    }
  }

  // ---------- Live blocks ----------

  /** The blocks handed out, with the sizes asked for, are chunks that are marked and large enough. */
  ghost predicate LiveOk(mem: Memory, a: seq<int>, live: map<int, nat>) {
    forall x | x in live :: x in a && x in mem && mem[x].inuse == INUSE && mem[x].size >= live[x]
  }

  /** The tracked chunk is free and has the recorded size. */
  ghost predicate TrackedOk(mem: Memory, a: seq<int>, live: map<int, nat>, maxSize: nat, freeHead: int) {
    if freeHead == NULL then maxSize == 0
    else freeHead in a && freeHead !in live && freeHead in mem && mem[freeHead].size == maxSize > 0
  }

  ghost predicate SlabOk(mem: Memory, a: seq<int>, total: int, live: map<int, nat>, maxSize: nat, freeHead: int) {
    && NULL !in mem && Tiled(mem, a, total)
    && LiveOk(mem, a, live) && TrackedOk(mem, a, live, maxSize, freeHead)
  }

  ghost function Position(a: seq<int>, x: int): (i: nat)
    requires x in a
    ensures i < |a| && a[i] == x
  {
    var i :| 0 <= i < |a| && a[i] == x;
    i
  }

  /** No live block changes its size. */
  ghost predicate SameSizes(mem: Memory, mem': Memory, live: map<int, nat>) {
    forall x | x in live :: x in mem && x in mem' && mem'[x].size == mem[x].size
  }

  /** Handing out the front of the tracked chunk; the rest is tracked from now on. */
  lemma SplitOk(mem: Memory, a: seq<int>, total: int, live: map<int, nat>, maxSize: nat, x: int, n: nat, junk: int)
    requires SlabOk(mem, a, total, live, maxSize, x) && x != NULL && 0 < n && n + HEADER < maxSize
    ensures x in mem && n + HEADER <= mem[x].size
    ensures var b := x + HEADER + n;
            var mem' := Split(mem, x, n, junk);
            && SlabOk(mem', Insert(a, Position(a, x) + 1, b), total, live[x := n], maxSize - n - HEADER, b)
            && SameSizes(mem, mem', live)
  {
    var i, b := Position(a, x), x + HEADER + n;
    SplitTiled(mem, a, total, i, n, junk);
    InsertMembers(a, i + 1, b);
    assert TileOk(mem, a, total, i);
  }

  /** Handing out all of the tracked chunk. */
  lemma WholeOk(mem: Memory, a: seq<int>, total: int, live: map<int, nat>, maxSize: nat, x: int, n: nat)
    requires SlabOk(mem, a, total, live, maxSize, x) && x != NULL && n <= maxSize
    ensures x in mem
    ensures var mem' := mem[x := mem[x].(inuse := INUSE)];
            SlabOk(mem', a, total, live[x := n], 0, NULL) && SameSizes(mem, mem', live)
  {
    var mem' := mem[x := mem[x].(inuse := INUSE)];
    forall i | 0 <= i < |a| ensures TileOk(mem', a, total, i) {
      assert TileOk(mem, a, total, i);
    }
  }

  // ---------- Returning a block ----------

  /** While c, a free chunk, is being merged: the tracked chunk is in order, or c has outgrown it. */
  ghost predicate Freeing(mem: Memory, a: seq<int>, total: int, live: map<int, nat>, maxSize: nat, freeHead: int,
                          c: int) {
    && NULL !in mem && Tiled(mem, a, total) && LiveOk(mem, a, live)
    && c in a && c !in live && c in mem
    && (TrackedOk(mem, a, live, maxSize, freeHead) || mem[c].size > maxSize)
  }

  lemma MarkFree(mem: Memory, a: seq<int>, total: int, live: map<int, nat>, maxSize: nat, freeHead: int, c: int)
    requires SlabOk(mem, a, total, live, maxSize, freeHead) && c in live
    ensures var mem' := mem[c := mem[c].(inuse := 0)];
            Freeing(mem', a, total, live - {c}, maxSize, freeHead, c) && SameSizes(mem, mem', live)
  {
    var mem' := mem[c := mem[c].(inuse := 0)];
    forall i | 0 <= i < |a| ensures TileOk(mem', a, total, i) {
      assert TileOk(mem, a, total, i);
    }
  }

  lemma AbsorbElsewhere(mem: Memory, x: int, y: int)
    requires x in mem && mem[x].next in mem && y in mem && y != x
    ensures var mem' := Absorb(mem, x); y in mem' && mem'[y].size == mem[y].size && mem'[y].inuse == mem[y].inuse
  {}

  /** Chunks i and i + 1, both free, become one. */
  lemma AbsorbLive(mem: Memory, a: seq<int>, total: int, live: map<int, nat>, i: nat)
    requires NULL !in mem && Tiled(mem, a, total) && LiveOk(mem, a, live) && i + 1 < |a| && a[i] !in live
             && a[i + 1] !in live
    ensures a[i] in mem && a[i + 1] in mem && mem[a[i]].next == a[i + 1]
    ensures var mem' := Absorb(mem, a[i]);
            && NULL !in mem' && Tiled(mem', Remove(a, i + 1), total) && LiveOk(mem', Remove(a, i + 1), live)
            && SameSizes(mem, mem', live)
  {
    AbsorbTiled(mem, a, total, i);
    var a', mem' := Remove(a, i + 1), Absorb(mem, a[i]);
    forall x | x in live ensures x in a' && x in mem' && mem'[x].size == mem[x].size && mem'[x].inuse == mem[x].inuse {
      RemoveMembers(a, i + 1, x);
      AbsorbElsewhere(mem, a[i], x);
    }
  }

  lemma AbsorbTracked(mem: Memory, a: seq<int>, total: int, live: map<int, nat>, maxSize: nat, freeHead: int, i: nat)
    requires NULL !in mem && Tiled(mem, a, total) && LiveOk(mem, a, live) && i + 1 < |a| && a[i] !in live
             && a[i + 1] !in live
    requires TrackedOk(mem, a, live, maxSize, freeHead)
    ensures a[i] in mem && mem[a[i]].next in mem
    ensures var mem' := Absorb(mem, a[i]);
            TrackedOk(mem', Remove(a, i + 1), live, maxSize, freeHead) || mem'[a[i]].size > maxSize
  {
    AbsorbTiled(mem, a, total, i);
    assert TileOk(mem, a, total, i) && TileOk(mem, a, total, i + 1);
    if freeHead != NULL && freeHead != a[i] && freeHead != a[i + 1] {
      RemoveMembers(a, i + 1, freeHead);
    }
  }

  /** c takes in the free chunk behind it. */
  lemma MergeNext(mem: Memory, a: seq<int>, total: int, live: map<int, nat>, maxSize: nat, freeHead: int, c: int)
    requires Freeing(mem, a, total, live, maxSize, freeHead, c) && mem[c].next != NULL
    requires mem[c].next in mem && mem[mem[c].next].inuse == 0
    ensures var i := Position(a, c);
            i + 1 < |a| && Freeing(Absorb(mem, c), Remove(a, i + 1), total, live, maxSize, freeHead, c)
            && SameSizes(mem, Absorb(mem, c), live)
  {
    var i := Position(a, c);
    assert TileOk(mem, a, total, i);
    AbsorbLive(mem, a, total, live, i);
    RemoveMembers(a, i + 1, c);
    if TrackedOk(mem, a, live, maxSize, freeHead) {
      AbsorbTracked(mem, a, total, live, maxSize, freeHead, i);
    }
  }

  /** The free chunk before c takes c in. */
  lemma MergePrev(mem: Memory, a: seq<int>, total: int, live: map<int, nat>, maxSize: nat, freeHead: int, c: int)
    requires Freeing(mem, a, total, live, maxSize, freeHead, c) && mem[c].prev != NULL
    requires mem[c].prev in mem && mem[mem[c].prev].inuse == 0
    requires TrackedOk(mem, a, live, maxSize, freeHead)
    ensures var p, i := mem[c].prev, Position(a, c);
            && mem[p].next == c
            && Freeing(Absorb(mem, p), Remove(a, i), total, live, maxSize, freeHead, p)
            && SameSizes(mem, Absorb(mem, p), live)
  {
    var i := Position(a, c);
    assert TileOk(mem, a, total, i);
    assert TileOk(mem, a, total, i - 1);
    AbsorbLive(mem, a, total, live, i - 1);
    AbsorbTracked(mem, a, total, live, maxSize, freeHead, i - 1);
    RemoveMembers(a, i, a[i - 1]);
  }

  /** The links lead to chunks of the slab. */
  lemma LinksOk(mem: Memory, a: seq<int>, total: int, c: int)
    requires Tiled(mem, a, total) && c in a
    ensures c in mem && mem[c].size > 0
    ensures mem[c].next != NULL ==> mem[c].next in mem
    ensures mem[c].prev != NULL ==> mem[c].prev in mem && mem[mem[c].prev].next == c
  {
    var i := Position(a, c);
    assert TileOk(mem, a, total, i);
    assert i > 0 ==> TileOk(mem, a, total, i - 1);
    assert i + 1 < |a| ==> TileOk(mem, a, total, i + 1);
  }

  lemma NextLinks(mem: Memory, a: seq<int>, total: int, c: int)
    requires Tiled(mem, a, total) && c in a && c in mem && mem[c].next != NULL
    ensures mem[c].next in mem && (mem[mem[c].next].next != NULL ==> mem[mem[c].next].next in mem)
  {
    var i := Position(a, c);
    assert TileOk(mem, a, total, i);
    assert TileOk(mem, a, total, i + 1);
    assert i + 2 < |a| ==> TileOk(mem, a, total, i + 2);
  }

  /** The merged chunk becomes the tracked one if it is larger. */
  lemma TrackLarger(mem: Memory, a: seq<int>, total: int, live: map<int, nat>, maxSize: nat, freeHead: int, c: int)
    requires Freeing(mem, a, total, live, maxSize, freeHead, c)
    ensures if mem[c].size > maxSize then SlabOk(mem, a, total, live, mem[c].size, c)
            else SlabOk(mem, a, total, live, maxSize, freeHead)
  {
    LinksOk(mem, a, total, c);
  }

  lemma FreshOk(size: nat, junk: int)
    requires size > 0
    ensures SlabOk(map[0 := Header(junk, size, NULL, NULL)], [0], size + HEADER, map[], size, 0)
  {
    assert TileOk(map[0 := Header(junk, size, NULL, NULL)], [0], size + HEADER, 0);
  }

  /** A chunk lies within the slab. */
  lemma Within(mem: Memory, a: seq<int>, total: int, x: int)
    requires Tiled(mem, a, total) && x in a
    ensures x in mem && 0 <= x && End(mem, x) <= total
  {
    var i, last := Position(a, x), |a| - 1;
    assert TileOk(mem, a, total, i) && TileOk(mem, a, total, last);
    if i < last {
      Apart(mem, a, total, i, last);
    }
    assert i > 0 ==> a[0] < a[i];
  }

  /** Blocks handed out are in bounds, large enough, and do not overlap each other's memory or headers. */
  lemma LiveApart(mem: Memory, a: seq<int>, total: int, live: map<int, nat>, maxSize: nat, freeHead: int, x: int,
                  y: int)
    requires SlabOk(mem, a, total, live, maxSize, freeHead) && x in live && y in live && x != y
    ensures mem[x].size >= live[x] && 0 <= x && End(mem, x) <= total
    ensures End(mem, x) <= y || End(mem, y) <= x
  {
    Within(mem, a, total, x);
    var i, j := Position(a, x), Position(a, y);
    if i < j {
      Apart(mem, a, total, i, j);
    } else {
      Apart(mem, a, total, j, i);
    }
  }

  lemma TrackedFits(mem: Memory, a: seq<int>, total: int, live: map<int, nat>, maxSize: nat, freeHead: int)
    requires SlabOk(mem, a, total, live, maxSize, freeHead) && total >= HEADER
    ensures maxSize <= total - HEADER
  {
    if freeHead != NULL {
      Within(mem, a, total, freeHead);
    }
  }
}
