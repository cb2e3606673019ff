/**
 * The in-use marks of a slab.  When the memory behind a split happens to be zero, freed chunks merge
 * completely; when it is not, they may stay split.
 */
module SlabMarks {
  import opened Hints
  import opened Lists
  import opened SlabTiles

  /** All chunks but the live ones are marked as free. */
  ghost predicate Marked(mem: Memory, a: seq<int>, live: map<int, nat>) {
    forall i | 0 <= i < |a| :: a[i] in mem && (a[i] !in live ==> mem[a[i]].inuse == 0)
  }

  /** Of two neighbours one is live, or c. */
  ghost predicate ApartBut(a: seq<int>, live: map<int, nat>, c: int) {
    forall i | 0 <= i < |a| - 1 :: a[i] in live || a[i + 1] in live || a[i] == c || a[i + 1] == c
  }

  ghost predicate CleanBut(mem: Memory, a: seq<int>, live: map<int, nat>, c: int) {
    Marked(mem, a, live) && ApartBut(a, live, c)
  }

  /** What is free is marked so, and no two free chunks are neighbours. */
  ghost predicate Clean(mem: Memory, a: seq<int>, live: map<int, nat>) {
    Marked(mem, a, live) && forall i | 0 <= i < |a| - 1 :: a[i] in live || a[i + 1] in live
  }

  /** There is no free chunk before c. */
  ghost predicate FrontLive(a: seq<int>, live: map<int, nat>, c: int) {
    forall i | 0 < i < |a| && a[i] == c :: a[i - 1] in live
  }

  // ---------- The same, looked into only where it is asked for ----------

  ghost predicate Tidy(mem: Memory, a: seq<int>, live: map<int, nat>) {
    forall k {:trigger Asked(k)} | Asked(k) :: Clean(mem, a, live)
  }

  ghost predicate TidyBut(mem: Memory, a: seq<int>, live: map<int, nat>, c: int) {
    forall k {:trigger Asked(k)} | Asked(k) :: CleanBut(mem, a, live, c)
  }

  ghost predicate TidyBehind(mem: Memory, a: seq<int>, live: map<int, nat>, c: int) {
    forall k {:trigger Asked(k)} | Asked(k) :: CleanBut(mem, a, live, c) && FrontLive(a, live, c)
  }

  lemma SplitTidy(mem: Memory, a: seq<int>, total: int, live: map<int, nat>, maxSize: nat, x: int, n: nat)
    requires SlabOk(mem, a, total, live, maxSize, x) && x != NULL && 0 < n && n + HEADER < maxSize && Tidy(mem, a, live)
    ensures x in mem && n + HEADER <= mem[x].size
    ensures Tidy(Split(mem, x, n, 0), Insert(a, Position(a, x) + 1, x + HEADER + n), live[x := n])
  {
    assert Asked(0);
    SplitClean(mem, a, total, live, maxSize, x, n);
  }

  lemma WholeTidy(mem: Memory, a: seq<int>, total: int, live: map<int, nat>, maxSize: nat, x: int, n: nat)
    requires SlabOk(mem, a, total, live, maxSize, x) && x != NULL && Tidy(mem, a, live)
    ensures x in mem && Tidy(mem[x := mem[x].(inuse := INUSE)], a, live[x := n])
  {
    assert Asked(0);
    WholeClean(mem, a, total, live, maxSize, x, n);
  }

  lemma FreeTidy(mem: Memory, a: seq<int>, total: int, live: map<int, nat>, maxSize: nat, freeHead: int, c: int)
    requires SlabOk(mem, a, total, live, maxSize, freeHead) && c in live && Tidy(mem, a, live)
    ensures TidyBut(mem[c := mem[c].(inuse := 0)], a, live - {c}, c)
  {
    assert Asked(0);
    FreeClean(mem, a, total, live, maxSize, freeHead, c);
  }

  /** Whether or not there is a free chunk before c to take it in, there is none before the result. */
  lemma PrevTidy(mem: Memory, a: seq<int>, total: int, live: map<int, nat>, c: int)
    requires NULL !in mem && Tiled(mem, a, total) && LiveOk(mem, a, live) && c in a && c !in live && c in mem
    requires TidyBut(mem, a, live, c) && (mem[c].prev != NULL ==> mem[c].prev in mem)
    ensures mem[c].prev == NULL || mem[mem[c].prev].inuse != 0 ==> TidyBehind(mem, a, live, c)
    ensures mem[c].prev != NULL && mem[mem[c].prev].inuse == 0 ==>
              mem[mem[c].prev].next in mem
              && TidyBehind(Absorb(mem, mem[c].prev), Remove(a, Position(a, c)), live, mem[c].prev)
  {
    assert Asked(0);
    PrevClean(mem, a, total, live, c);
  }

  /** Whether or not there is a free chunk behind c to be taken in, no two free chunks are left. */
  lemma NextTidy(mem: Memory, a: seq<int>, total: int, live: map<int, nat>, c: int)
    requires NULL !in mem && Tiled(mem, a, total) && LiveOk(mem, a, live) && c in a && c !in live && c in mem
    requires TidyBehind(mem, a, live, c) && (mem[c].next != NULL ==> mem[c].next in mem)
    ensures mem[c].next == NULL || mem[mem[c].next].inuse != 0 ==> Tidy(mem, a, live)
    ensures mem[c].next != NULL && mem[mem[c].next].inuse == 0 ==>
              Position(a, c) + 1 < |a| && Tidy(Absorb(mem, c), Remove(a, Position(a, c) + 1), live)
  {
    assert Asked(0);
    NextClean(mem, a, total, live, c);
  }

  // ---------- Splitting and merging ----------

  lemma SplitClean(mem: Memory, a: seq<int>, total: int, live: map<int, nat>, maxSize: nat, x: int, n: nat)
    requires SlabOk(mem, a, total, live, maxSize, x) && x != NULL && 0 < n && n + HEADER < maxSize
             && Clean(mem, a, live)
    ensures x in mem && n + HEADER <= mem[x].size
    ensures var b := x + HEADER + n;
            Clean(Split(mem, x, n, 0), Insert(a, Position(a, x) + 1, b), live[x := n])
  {
    var i, b := Position(a, x), x + HEADER + n;
    SplitTiled(mem, a, total, i, n, 0);
    assert TileOk(mem, a, total, i);
    SplitMarked(mem, a, live, i, n);
    SplitApart(a, live, i, b, n);
  }

  lemma SplitMarked(mem: Memory, a: seq<int>, live: map<int, nat>, i: nat, n: nat)
    requires Marked(mem, a, live) && i < |a| && n + HEADER <= mem[a[i]].size && a[i] + HEADER + n !in a
    ensures Marked(Split(mem, a[i], n, 0), Insert(a, i + 1, a[i] + HEADER + n), live[a[i] := n])
  {
    var x, b := a[i], a[i] + HEADER + n;
    var a', mem' := Insert(a, i + 1, b), Split(mem, x, n, 0);
    InsertFacts(a, i + 1, b, a');
    forall j | 0 <= j < |a'| ensures a'[j] in mem' && (a'[j] !in live[x := n] ==> mem'[a'[j]].inuse == 0) {
      assert j != i + 1 ==> a'[j] == a[if j <= i then j else j - 1];
    }
  }

  lemma SplitApart(a: seq<int>, live: map<int, nat>, i: nat, b: int, n: nat)
    requires (forall j | 0 <= j < |a| - 1 :: a[j] in live || a[j + 1] in live) && i < |a| && a[i] !in live
    ensures var a', live' := Insert(a, i + 1, b), live[a[i] := n];
            forall j | 0 <= j < |a'| - 1 :: a'[j] in live' || a'[j + 1] in live'
  {
    var a', live' := Insert(a, i + 1, b), live[a[i] := n];
    InsertFacts(a, i + 1, b, a');
    forall j | 0 <= j < |a'| - 1 ensures a'[j] in live' || a'[j + 1] in live' {
      if j > i + 1 {
        assert a'[j] == a[j - 1] && a'[j + 1] == a[j - 1 + 1];
      } else if j == i + 1 {
        assert a'[j + 1] == a[i + 1];
      } else if j < i {
        assert a'[j] == a[j] && a'[j + 1] == a[j + 1];
      }
    }
  }

  lemma WholeClean(mem: Memory, a: seq<int>, total: int, live: map<int, nat>, maxSize: nat, x: int, n: nat)
    requires SlabOk(mem, a, total, live, maxSize, x) && x != NULL && Clean(mem, a, live)
    ensures x in mem && Clean(mem[x := mem[x].(inuse := INUSE)], a, live[x := n])
  {}

  lemma FreeClean(mem: Memory, a: seq<int>, total: int, live: map<int, nat>, maxSize: nat, freeHead: int, c: int)
    requires SlabOk(mem, a, total, live, maxSize, freeHead) && c in live && Clean(mem, a, live)
    ensures CleanBut(mem[c := mem[c].(inuse := 0)], a, live - {c}, c)
  {}

  /** Merging chunk k + 1 into chunk k keeps the marks. */
  lemma AbsorbMarked(mem: Memory, a: seq<int>, total: int, live: map<int, nat>, k: nat)
    requires NULL !in mem && Tiled(mem, a, total) && Marked(mem, a, live) && k + 1 < |a|
    ensures a[k] in mem && mem[a[k]].next in mem && Marked(Absorb(mem, a[k]), Remove(a, k + 1), live)
  {
    AbsorbTiled(mem, a, total, k);
    var a', mem' := Remove(a, k + 1), Absorb(mem, a[k]);
    RemoveFacts(a, k + 1, a');
    forall i | 0 <= i < |a'| ensures a'[i] in mem' && (a'[i] !in live ==> mem'[a'[i]].inuse == 0) {
      var x := a'[i];
      assert x == a[if i <= k then i else i + 1];
      if x != a[k] {
        AbsorbElsewhere(mem, a[k], x);
      }
    }
  }

  /** Whether or not there is a free chunk before c to take it in, there is none before the result. */
  lemma PrevClean(mem: Memory, a: seq<int>, total: int, live: map<int, nat>, c: int)
    requires NULL !in mem && Tiled(mem, a, total) && LiveOk(mem, a, live) && c in a && c !in live && c in mem
    requires CleanBut(mem, a, live, c) && (mem[c].prev != NULL ==> mem[c].prev in mem)
    ensures mem[c].prev == NULL || mem[mem[c].prev].inuse != 0 ==> FrontLive(a, live, c)
    ensures mem[c].prev != NULL && mem[mem[c].prev].inuse == 0 ==>
              var p := mem[c].prev;
              && mem[p].next in mem && CleanBut(Absorb(mem, p), Remove(a, Position(a, c)), live, p)
              && FrontLive(Remove(a, Position(a, c)), live, p)
  {
    var i := Position(a, c);
    assert TileOk(mem, a, total, i);
    if mem[c].prev != NULL && mem[mem[c].prev].inuse == 0 {
      AbsorbMarked(mem, a, total, live, i - 1);
      PrevApart(a, live, i);
    }
  }

  /** Chunk i and the one before it, both free, have become one: it has no free neighbour before it. */
  lemma PrevApart(a: seq<int>, live: map<int, nat>, i: nat)
    requires Rising(a) && 0 < i < |a| && ApartBut(a, live, a[i]) && a[i] !in live && a[i - 1] !in live
    ensures ApartBut(Remove(a, i), live, a[i - 1]) && FrontLive(Remove(a, i), live, a[i - 1])
  {
    var a' := Remove(a, i);
    RemoveFacts(a, i, a');
    forall j | 0 <= j < |a'| - 1
      ensures a'[j] in live || a'[j + 1] in live || a'[j] == a[i - 1] || a'[j + 1] == a[i - 1] {
      if j >= i {
        assert a'[j] == a[j + 1] && a'[j + 1] == a[j + 1 + 1];
      }
    }
    forall j | 0 < j < |a'| && a'[j] == a[i - 1] ensures a'[j - 1] in live {
      assert j == i - 1 && a'[j - 1] == a[i - 2];
    }
  }

  /** Whether or not there is a free chunk behind c to be taken in, no two free chunks are left. */
  lemma NextClean(mem: Memory, a: seq<int>, total: int, live: map<int, nat>, c: int)
    requires NULL !in mem && Tiled(mem, a, total) && LiveOk(mem, a, live) && c in a && c !in live && c in mem
    requires CleanBut(mem, a, live, c) && FrontLive(a, live, c) && (mem[c].next != NULL ==> mem[c].next in mem)
    ensures mem[c].next == NULL || mem[mem[c].next].inuse != 0 ==> Clean(mem, a, live)
    ensures mem[c].next != NULL && mem[mem[c].next].inuse == 0 ==>
              Position(a, c) + 1 < |a| && Clean(Absorb(mem, c), Remove(a, Position(a, c) + 1), live)
  {
    var i := Position(a, c);
    assert TileOk(mem, a, total, i);
    if mem[c].next != NULL && mem[mem[c].next].inuse == 0 {
      AbsorbMarked(mem, a, total, live, i);
      RemoveFacts(a, i + 1, Remove(a, i + 1));
    }
  }

  /** A clean slab with nothing handed out is one chunk. */
  lemma OneChunk(mem: Memory, a: seq<int>, total: int)
    requires Tiled(mem, a, total) && Tidy(mem, a, map[])
    ensures a == [0] && 0 in mem && mem[0].size + HEADER == total
  {
    assert Asked(0);
    assert TileOk(mem, a, total, 0);
  }
}
