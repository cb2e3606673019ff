/**
 * The running list of the scheduler: the requests that workers have taken out of
 * the queue and have not finished.  Its cells live in an arena of their own and
 * each points at a request node.
 */
module AioRunning {
  import opened AioSpec
  import opened Lists

  /** The position of a request node in the running list, or its length. */
  function IndexOf(s: seq<Ref>, p: Ref): (k: nat)
    ensures k <= |s| && (k < |s| ==> s[k] == p) && (forall j | 0 <= j < k :: s[j] != p)
  {
    if s == [] || s[0] == p then 0
    else
      var k := IndexOf(s[1..], p);
      assert forall j | 1 <= j < k + 1 :: s[j] == s[1..][j - 1];
      k + 1
  }

  /** The cells spell out the running requests, and the free cells are apart from them. */
  ghost predicate CellsOk(next: Arena, ptr: seq<Ref>, cells: seq<Ref>, free: seq<Ref>, running: seq<Ref>) {
    && |next| == |ptr| > 0
    && Chained(next, cells) && Distinct(cells)
    && Chained(next, free) && Distinct(free)
    && (forall i, j | 0 <= i < |cells| && 0 <= j < |free| :: cells[i] != free[j])
    && |running| == |cells| && (forall i | 0 <= i < |cells| :: ptr[cells[i]] == running[i])
  }

  lemma GrowCells(next: Arena, ptr: seq<Ref>, cells: seq<Ref>, running: seq<Ref>)
    requires CellsOk(next, ptr, cells, [], running)
    ensures CellsOk(next + [NIL], ptr + [NIL], cells, [|next|], running)
  {}

  lemma TakeCell(next: Arena, ptr: seq<Ref>, cells: seq<Ref>, free: seq<Ref>, running: seq<Ref>, p: Ref)
    requires CellsOk(next, ptr, cells, free, running) && free != []
    ensures CellsOk(next[free[0] := NIL], ptr[free[0] := p], cells, free[1..], running)
    ensures next[free[0]] == First(free[1..]) && free[0] !in cells && free[0] !in free[1..]
  {
    ChainTail(next, next[free[0] := NIL], free);
    ChainFrame(next, cells, free[0], NIL);
  }

  lemma AppendCell(next: Arena, ptr: seq<Ref>, cells: seq<Ref>, free: seq<Ref>, running: seq<Ref>, c: Ref)
    requires CellsOk(next, ptr, cells, free, running)
    requires 0 < c < |next| && c !in cells && c !in free && next[c] == NIL
    ensures CellsOk(if cells == [] then next else next[Last(cells) := c], ptr, cells + [c], free, running + [ptr[c]])
  {
    if cells != [] {
      ChainJoin(next, cells, [c]);
      assert Last(cells) !in free;
      ChainFrame(next, free, Last(cells), c);
    } else {
      assert cells + [c] == [c];
    }
  }

  lemma DropCell(next: Arena, ptr: seq<Ref>, cells: seq<Ref>, free: seq<Ref>, running: seq<Ref>, k: nat)
    requires CellsOk(next, ptr, cells, free, running) && k < |cells|
    ensures var next' := if k == 0 then next else next[cells[k - 1] := next[cells[k]]];
            CellsOk(next', ptr, Remove(cells, k), free, Remove(running, k))
    ensures cells[k] !in Remove(cells, k) && cells[k] !in free
  {
    ChainRemove(next, cells, k);
    DistinctRemove(cells, k, Remove(cells, k));
    RemoveFacts(cells, k, Remove(cells, k));
    RemoveFacts(running, k, Remove(running, k));
    if k > 0 {
      ChainFrame(next, free, cells[k - 1], next[cells[k]]);
    }
  }

  /** The ends of the list without its k-th cell. */
  lemma EndsAfterDrop(s: seq<Ref>, k: nat)
    requires Distinct(s) && k < |s|
    ensures First(Remove(s, k)) == if k == 0 then First(s[1..]) else s[0]
    ensures Last(Remove(s, k)) == if k + 1 < |s| then Last(s) else if k > 0 then s[k - 1] else NIL
    ensures s[k] == Last(s) <==> k + 1 == |s|
  {
    RemoveFacts(s, k, Remove(s, k));
  }

  lemma ReturnCell(next: Arena, ptr: seq<Ref>, cells: seq<Ref>, free: seq<Ref>, running: seq<Ref>, c: Ref)
    requires CellsOk(next, ptr, cells, free, running) && 0 < c < |next| && c !in cells && c !in free
    ensures CellsOk(next[c := First(free)], ptr, cells, [c] + free, running)
  {
    ChainPrepend(next, free, c);
    ChainFrame(next, cells, c, First(free));
  }

  class RunningList {
    var next: Arena
    var ptr: seq<Ref>
    var list: Ref
    var tail: Ref
    var freeList: Ref

    ghost var Running: seq<Ref>    // the request nodes, in list order
    ghost var cells: seq<Ref>
    ghost var free: seq<Ref>

    ghost predicate Valid()
      reads this
    {
      && CellsOk(next, ptr, cells, free, Running)
      && list == First(cells) && tail == Last(cells) && freeList == First(free)
    }

    constructor ()
      ensures Valid() && Running == []
    {
      next, ptr := [NIL], [NIL];
      list, tail, freeList := NIL, NIL, NIL;
      Running, cells, free := [], [], [];
    }

    /** A cell from the free list, or a new one, holding p and linked to nothing. */
    method AllocCell(p: Ref) returns (c: Ref)
      requires Valid()
      modifies this`next, this`ptr, this`freeList, this`free
      ensures Valid() && 0 < c < |next| && c !in cells && c !in free && ptr[c] == p && next[c] == NIL
    {
      if freeList == NIL {
        GrowCells(next, ptr, cells, Running);
        freeList, free := |next|, [|next|];
        next, ptr := next + [NIL], ptr + [NIL];
      }
      c := freeList;
      TakeCell(next, ptr, cells, free, Running, p);
      freeList := next[c];
      next, ptr := next[c := NIL], ptr[c := p];
      free := free[1..];
    }

    /** Links a cell behind the last one. */
    method Append(p: Ref)
      requires Valid()
      modifies this
      ensures Valid() && Running == old(Running) + [p]
    {
      var c := AllocCell(p);
      AppendCell(next, ptr, cells, free, Running, c);
      if list == NIL {
        tail := c;
        list := c;
      } else {
        next := next[tail := c];
        tail := c;
      }
      cells, Running := cells + [c], Running + [p];
    }

    /** Appends a whole batch, following the next links of the request nodes. */
    method EnqueueToRunningList(head: Ref, nodeNext: Arena, ghost b: seq<Ref>)
      requires Valid() && head == First(b) && Chained(nodeNext, b)
      modifies this
      ensures Valid() && Running == old(Running) + b
    {
      var itor := head;
      ghost var i := 0;
      while itor != NIL
        invariant Valid() && i <= |b| && itor == First(b[i..]) && Running == old(Running) + b[..i]
        decreases |b| - i
      {
        assert itor == b[i] && nodeNext[itor] == First(b[i + 1..]);
        Append(itor);
        assert b[..i] + [b[i]] == b[..i + 1];
        itor, i := nodeNext[itor], i + 1;
      }
      assert b[..i] == b;
    }

    /** Finds the cell in front of the one that holds p. */
    method CellBefore(p: Ref) returns (itor: Ref, ghost k: nat)
      requires Valid() && p in Running && list != NIL && ptr[list] != p
      ensures 0 < k == IndexOf(Running, p) < |Running| && itor == cells[k - 1] && next[itor] == cells[k]
    {
      itor, k := list, 1;
      while ptr[next[itor]] != p
        invariant 0 < k < |cells| && itor == cells[k - 1] && next[itor] == cells[k]
        invariant forall j | 0 <= j < k :: Running[j] != p
        decreases |cells| - k
      {
        assert k + 1 < |cells| by {
          assert exists j :: 0 <= j < |Running| && Running[j] == p;
        }
        itor, k := next[itor], k + 1;
      }
      IndexAt(Running, p, k);
    }

    lemma IndexAt(s: seq<Ref>, p: Ref, k: nat)
      requires k < |s| && s[k] == p && forall j | 0 <= j < k :: s[j] != p
      ensures IndexOf(s, p) == k
    {}

    /** Unlinks the cell that holds p. */
    method UnlinkCell(p: Ref) returns (freePtr: Ref, ghost k: nat)
      requires Valid() && p in Running
      modifies this`next, this`list, this`tail, this`cells, this`Running
      ensures k == IndexOf(old(Running), p) < |old(Running)| == |old(cells)| && Running == Remove(old(Running), k)
      ensures CellsOk(next, ptr, cells, free, Running) && list == First(cells) && (cells != [] ==> tail == Last(cells))
      ensures 0 < freePtr < |next| && freePtr !in cells && freePtr !in free
    {
      k := 0;
      if ptr[list] == p {
        freePtr := list;
        IndexAt(Running, p, 0);
        list := next[list];
      } else {
        var itor;
        itor, k := CellBefore(p);
        if next[itor] == tail {
          tail := itor;
        }
        freePtr := next[itor];
        next := next[itor := next[freePtr]];
      }
      EndsAfterDrop(cells, k);
      DropCell(old(next), ptr, cells, free, Running, k);
      cells, Running := Remove(cells, k), Remove(Running, k);
    }

    /** Takes the cell of a finished request out of the list and frees it. */
    method DequeueFromRunningList(p: Ref)
      requires Valid() && p in Running
      modifies this
      ensures Valid() && IndexOf(old(Running), p) < |old(Running)|
              && Running == Remove(old(Running), IndexOf(old(Running), p))
    {
      var freePtr;
      ghost var k;
      freePtr, k := UnlinkCell(p);
      ReturnCell(next, ptr, cells, free, Running, freePtr);
      next := next[freePtr := freeList];
      freeList := freePtr;
      free := [freePtr] + free;
      if list == NIL || next[list] == NIL {
        tail := list;
      }
    }

    /** Whether a request of the given id is running: the scan of find_in_running_list. */
    method FindInRunningList(id: int, req: seq<Request>) returns (found: bool)
      requires Valid() && forall i | 0 <= i < |Running| :: Running[i] < |req|
      ensures found <==> exists i :: 0 <= i < |Running| && req[Running[i]].ticket.id == id
    {
      var itor := list;
      ghost var i := 0;
      while itor != NIL
        invariant i <= |cells| && itor == First(cells[i..])
        invariant forall j | 0 <= j < i :: req[Running[j]].ticket.id != id
        decreases |cells| - i
      {
        assert itor == cells[i] && next[itor] == First(cells[i + 1..]);
        if req[ptr[itor]].ticket.id == id {
          assert req[Running[i]].ticket.id == id;
          return true;
        }
        itor, i := next[itor], i + 1;
      }
      return false;
    }
  }
}
