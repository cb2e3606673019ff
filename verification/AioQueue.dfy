/**
 * The request queue of the asynchronous file I/O scheduler, with its pool of
 * request nodes: posting, cancelling and popping requests in place.
 */
module AioQueue {
  import opened AioSpec
  import opened Lists
  import opened AioLinks
  import opened AioMoves

  class RequestQueue {
    var m: Cells
    var fdPool: seq<Ref>
    var queueList: Ref
    var freeList: Ref
    var queueListSize: int
    const maxQueueSize: nat
    var idItor: int

    ghost var Q: Queue                    // the abstract value
    ghost var tops: seq<Ref>              // the top-level list
    ghost var sub: map<int, seq<Ref>>     // the sub-queue of each handle that has a group
    ghost var free: seq<Ref>              // the free list

    ghost predicate Valid()
      reads `m, `fdPool, `queueList, `tops, `sub, `Q, `freeList, `free, `queueListSize
    {
      && Wired(m, fdPool, queueList, tops, sub, Q)
      && FreeOk(m, freeList, free)
      && queueListSize == |m.req| - 1 - |free|
    }

    ghost predicate TopsLinked()
      reads this
    {
      m.Ok() && queueList == First(tops) && Linked(m.next, m.prev, tops)
    }

    constructor (handles: nat, max: nat)
      ensures Valid() && |fdPool| == handles && Q == [] && maxQueueSize == max && queueListSize == 0 && idItor == 0
    {
      m := Cells([NIL], [NIL], [NIL], [Request(Ticket(0, 0, 0, 0, 0, 0, 0), 0)], [Out]);
      fdPool := seq(handles, _ => NIL);
      queueList, freeList, queueListSize, maxQueueSize, idItor := NIL, NIL, 0, max, 0;
      Q, tops, sub, free := [], [], map[], [];
    }

    // ---------- The top-level list ----------

    method LinkFirst(opt: Ref)
      requires TopsLinked() && 0 < opt < |m.req| && opt !in tops && m.next[opt] == NIL && m.prev[opt] == NIL
      modifies this`m, this`queueList, this`tops
      ensures TopsLinked() && tops == [opt] + old(tops)
      ensures m == old(m).(next := old(m.next)[opt := First(old(tops))], prev := m.prev)
    {
      BackPrepend(m.prev, tops, opt);
      ChainPrepend(m.next, tops, opt);
      if queueList == NIL {
        queueList := opt;
        assert m.next == m.next[opt := NIL] && m.prev == m.prev[opt := NIL];
      } else {
        m := m.SetNext(opt, queueList);
        m := m.SetPrev(queueList, opt);
        queueList := opt;
        m := m.SetPrev(queueList, NIL);
        assert m.prev == old(m).prev[opt := NIL][tops[0] := opt];
      }
      tops := [opt] + tops;
    }

    method LinkBehind(opt: Ref, itor: Ref, ghost k: nat)
      requires TopsLinked() && 0 < opt < |m.req| && opt !in tops
      requires 0 < k <= |tops| && itor == tops[k - 1]
      modifies this`m, this`tops
      ensures TopsLinked() && tops == Insert(old(tops), k, opt)
      ensures m == old(m).(next := old(m.next)[opt := old(m.next[itor])][itor := opt], prev := m.prev)
    {
      ChainInsert(m.next, tops, k, opt);
      BackInsert(m.prev, tops, k, opt);
      DistinctInsert(tops, k, opt);
      m := m.SetNext(opt, m.next[itor]);
      m := m.SetPrev(opt, itor);
      if m.next[itor] != NIL {
        m := m.SetPrev(m.next[itor], opt);
      }
      m := m.SetNext(itor, opt);
      tops := Insert(tops, k, opt);
    }

    /** Puts x in the place of the top of index k. */
    method SwapTop(x: Ref, top: Ref, ghost k: nat)
      requires TopsLinked() && 0 < x < |m.req| && x !in tops && k < |tops| && top == tops[k]
      modifies this`m, this`queueList, this`tops
      ensures TopsLinked() && tops == old(tops)[k := x]
      ensures m == old(m).(next := m.next, prev := m.prev) && |m.next| == old(|m.next|)
      ensures forall y | 0 <= y < |m.next| && y !in old(tops) && y != x :: m.next[y] == old(m.next)[y]
    {
      ChainReplace(m.next, tops, k, x);
      BackReplace(m.prev, tops, k, x);
      m := m.SetNext(x, m.next[top]);
      if m.next[top] != NIL {
        m := m.SetPrev(m.next[top], x);
      }
      m := m.SetPrev(x, m.prev[top]);
      if m.prev[top] != NIL {
        m := m.SetNext(m.prev[top], x);
      }
      if queueList == top {
        queueList := x;
      }
      tops := tops[k := x];
    }

    method UnlinkTop(top: Ref, ghost k: nat)
      requires TopsLinked() && k < |tops| && top == tops[k]
      modifies this`m, this`queueList, this`tops
      ensures TopsLinked() && tops == Remove(old(tops), k)
      ensures m == old(m).(next := m.next, prev := m.prev) && |m.next| == old(|m.next|)
      ensures forall y | 0 <= y < |m.next| && y !in old(tops) :: m.next[y] == old(m.next)[y]
    {
      ChainRemove(m.next, tops, k);
      BackRemove(m.prev, tops, k);
      DistinctRemove(tops, k, Remove(tops, k));
      if m.prev[top] != NIL {
        m := m.SetNext(m.prev[top], m.next[top]);
      }
      if m.next[top] != NIL {
        m := m.SetPrev(m.next[top], m.prev[top]);
      }
      if queueList == top {
        queueList := m.next[queueList];
      }
      tops := Remove(tops, k);
    }

    // ---------- Posting ----------

    /** The top behind which a new group of the given priority goes. */
    method FindTop(prio: int) returns (itor: Ref, ghost i: nat)
      requires TopsLinked() && Grouped(m, tops, sub, Q) && NonemptyGroups(Q)
      requires queueList != NIL && prio <= m.req[queueList].fdPrio
      ensures i < |tops| && itor == tops[i] && WalkGroups(Q, prio, 0) == i + 1
    {
      itor, i := queueList, 0;
      assert m.req[itor] == Q[0][0];
      while m.next[itor] != NIL && prio <= m.req[m.next[itor]].fdPrio
        invariant i < |tops| && itor == tops[i]
        invariant WalkGroups(Q, prio, 0) == WalkGroups(Q, prio, i + 1)
        decreases |tops| - i
      {
        assert m.req[tops[i + 1]] == Q[i + 1][0];
        itor, i := m.next[itor], i + 1;
      }
      assert i + 1 < |tops| ==> m.req[tops[i + 1]] == Q[i + 1][0];
    }

    /** Links a new top into the list, behind every top of at least its descriptor priority. */
    method LinkTop(opt: Ref)
      requires TopsLinked() && Grouped(m, tops, sub, Q) && NonemptyGroups(Q)
      requires 0 < opt < |m.req| && opt !in tops && m.next[opt] == NIL && m.prev[opt] == NIL
      modifies this`m, this`queueList, this`tops
      ensures TopsLinked() && m == old(m).(next := m.next, prev := m.prev) && |m.next| == old(|m.next|)
      ensures tops == Insert(old(tops), WalkGroups(Q, m.req[opt].fdPrio, 0), opt)
      ensures forall y | 0 <= y < |m.next| && y !in old(tops) && y != opt :: m.next[y] == old(m.next)[y]
    {
      if queueList == NIL {
        LinkFirst(opt);
      } else {
        assert m.req[queueList] == Q[0][0];
        if m.req[opt].fdPrio > m.req[queueList].fdPrio {
          LinkFirst(opt);
        } else {
          var itor, i := FindTop(m.req[opt].fdPrio);
          LinkBehind(opt, itor, i + 1);
        }
      }
    }

    /** A node that has been reset and filled in, on its way into the queue. */
    ghost predicate Ready(opt: Ref)
      reads this
    {
      && m.Ok() && 0 < opt < |m.req| && m.place[opt] == Out
      && m.next[opt] == NIL && m.prev[opt] == NIL && m.header[opt] == NIL
      && 0 <= m.Handle(opt) < |fdPool|
    }

    /** The slot of the handle is empty: open a group and keep the tops ordered by descriptor priority. */
    method OpenGroup(opt: Ref)
      requires Wired(m, fdPool, queueList, tops, sub, Q) && NonemptyGroups(Q)
      requires Ready(opt) && fdPool[m.Handle(opt)] == NIL
      modifies this`m, this`fdPool, this`queueList, this`tops, this`sub, this`Q
      ensures Wired(m, fdPool, queueList, tops, sub, Q) && |fdPool| == old(|fdPool|)
      ensures Q == Insert(old(Q), WalkGroups(old(Q), old(m.req)[opt].fdPrio, 0), [old(m.req)[opt]])
      ensures Kept(old(m), m, opt) && m.place == old(m.place)[opt := Queued]
    {
      ghost var s := WalkGroups(Q, m.req[opt].fdPrio, 0);
      NotQueued(opt);
      fdPool := fdPool[m.req[opt].ticket.handle := opt];
      LinkTop(opt);
      OpenWired(old(m), m, old(fdPool), old(queueList), old(tops), sub, Q, s, opt);
      m := m.(place := m.place[opt := Queued]);
      sub := sub[m.Handle(opt) := []];
      Q := Insert(Q, s, [m.req[opt]]);
    }

    lemma NotQueued(opt: Ref)
      requires Wired(m, fdPool, queueList, tops, sub, Q) && 0 < opt < |m.req| && m.place[opt] != Queued
      ensures opt !in tops
    {}

    /** The new node has the highest I/O priority of its handle: it replaces the old top. */
    method TakeOver(opt: Ref, top: Ref, ghost k: nat)
      requires Wired(m, fdPool, queueList, tops, sub, Q)
      requires Ready(opt) && k < |tops| && top == tops[k] && m.Handle(opt) == m.Handle(top)
      requires m.req[opt].ticket.ioPrio > m.req[top].ticket.ioPrio
      modifies this`m, this`fdPool, this`queueList, this`tops, this`sub, this`Q
      ensures Wired(m, fdPool, queueList, tops, sub, Q) && |fdPool| == old(|fdPool|)
      ensures old(Q[k] != []) && Q == old(Q)[k := Join(old(Q)[k], old(m.req)[opt])]
      ensures Kept(old(m), m, opt) && m.place == old(m.place)[opt := Queued]
    {
      assert m.req[top] == Q[k][0];
      NotQueued(opt);
      SwapTop(opt, top, k);
      fdPool := fdPool[m.req[opt].ticket.handle := opt];
      ghost var m1 := m;
      m := m.SetFdPrio(opt, m.req[top].fdPrio);
      m := m.SetHeader(opt, top);
      m := m.SetNext(top, m.header[top]);
      m := m.SetHeader(top, NIL);
      m := m.(place := m.place[opt := Queued]);
      ghost var h := m.Handle(opt);
      TakeOverWired(old(m), m1, old(fdPool), old(queueList), old(tops), sub, Q, k, opt, m);
      sub := sub[h := [top] + sub[h]];
      Q := Q[k := Join(Q[k], old(m).req[opt])];
    }

    /** The member of the sub-queue behind which a request goes that does not precede the first one. */
    method FindMember(t: Ticket, top: Ref, ghost h: int, ghost s: seq<Ref>, ghost v: Group)
      returns (itor: Ref, ghost i: nat)
      requires m.Ok() && GroupOk(m, h, top, s, v) && m.header[top] != NIL
      ensures |v| > 1 && i < |s| && itor == s[i]
      ensures WalkMembers(v, t, 2) == i + 2
    {
      itor, i := m.header[top], 0;
      while m.next[itor] != NIL
        invariant i < |s| && itor == s[i]
        invariant WalkMembers(v, t, 2) == WalkMembers(v, t, i + 2)
        decreases |s| - i
      {
        assert m.req[s[i + 1]] == v[i + 2];
        if t.ioPrio > m.req[m.next[itor]].ticket.ioPrio {
          break;
        }
        if t.ioPrio == m.req[m.next[itor]].ticket.ioPrio && t.offset < m.req[m.next[itor]].ticket.offset {
          break;
        }
        itor, i := m.next[itor], i + 1;
      }
    }

    /** Links the new node into the sub-queue behind the member that FindMember finds. */
    method LinkMemberBehind(opt: Ref, top: Ref, ghost h: int, ghost s: seq<Ref>, ghost v: Group) returns (ghost p: nat)
      requires m.Ok() && GroupOk(m, h, top, s, v) && Ready(opt) && opt !in s && m.header[top] != NIL
      modifies this`m
      ensures 1 < p <= |v| && |v| > 1 && p == WalkMembers(v, old(m).req[opt].ticket, 2)
              && MemberLinked(old(m), m, top, s, opt, p)
    {
      var itor, i := FindMember(m.req[opt].ticket, top, h, s, v);
      ChainInsert(m.next, s, i + 1, opt);
      InsertFacts(s, i + 1, opt, Insert(s, i + 1, opt));
      m := m.SetNext(opt, m.next[itor]);
      m := m.SetNext(itor, opt);
      p := i + 2;
      assert m.header == m.header[top := s[0]];
    }

    /** Links the new node into the sub-queue of the top, as member p of the group. */
    method LinkMember(opt: Ref, top: Ref, ghost h: int, ghost s: seq<Ref>, ghost v: Group) returns (ghost p: nat)
      requires m.Ok() && GroupOk(m, h, top, s, v) && Ready(opt)
      requires m.req[opt].ticket.ioPrio <= m.req[top].ticket.ioPrio
      modifies this`m
      ensures 0 < p <= |v| && p == MemberSlot(v, old(m).req[opt].ticket) && MemberLinked(old(m), m, top, s, opt, p)
    {
      assert opt !in s;
      p := 1;
      assert Insert(s, 0, opt) == [opt] + s;
      ChainPrepend(m.next, s, opt);
      if m.header[top] == NIL {
        m := m.SetHeader(top, opt);
        assert m.next == m.next[opt := NIL];
      } else {
        assert m.req[s[0]] == v[1];
        if m.req[opt].ticket.ioPrio > m.req[m.header[top]].ticket.ioPrio {
          m := m.SetNext(opt, m.header[top]);
          m := m.SetHeader(top, opt);
        } else {
          p := LinkMemberBehind(opt, top, h, s, v);
        }
      }
    }

    /** The new node goes into the sub-queue of its handle. */
    method JoinSub(opt: Ref, top: Ref, ghost k: nat)
      requires Wired(m, fdPool, queueList, tops, sub, Q)
      requires Ready(opt) && k < |tops| && top == tops[k] && m.Handle(opt) == m.Handle(top)
      requires m.req[opt].ticket.ioPrio <= m.req[top].ticket.ioPrio
      modifies this`m, this`sub, this`Q
      ensures Wired(m, fdPool, queueList, tops, sub, Q)
      ensures old(Q[k] != []) && Q == old(Q)[k := Join(old(Q)[k], old(m.req)[opt])]
      ensures Kept(old(m), m, opt) && m.place == old(m.place)[opt := Queued]
    {
      ghost var h := m.Handle(opt);
      assert GroupOk(m, h, top, sub[h], Q[k]);
      ghost var p := LinkMember(opt, top, h, sub[h], Q[k]);
      ghost var m1 := m;
      m := m.(place := m.place[opt := Queued]);
      JoinWired(old(m), m1, m, fdPool, queueList, tops, sub, Q, k, opt, p);
      sub := sub[h := Insert(sub[h], p - 1, opt)];
      Q := Q[k := Join(Q[k], m.req[opt])];
    }

    /** Puts a filled-in node into the queue (the critical section of start_aio). */
    method Enqueue(opt: Ref)
      requires Wired(m, fdPool, queueList, tops, sub, Q) && NonemptyGroups(Q) && Ready(opt)
      modifies this`m, this`fdPool, this`queueList, this`tops, this`sub, this`Q
      ensures Wired(m, fdPool, queueList, tops, sub, Q) && |fdPool| == old(|fdPool|)
      ensures Q == Submit(old(Q), old(m.req)[opt])
      ensures Kept(old(m), m, opt) && m.place == old(m.place)[opt := Queued]
    {
      var h := m.req[opt].ticket.handle;
      ghost var k := FindHandle(h);
      if fdPool[h] == NIL {
        OpenGroup(opt);
      } else {
        var top := fdPool[h];
        if m.req[opt].ticket.ioPrio > m.req[top].ticket.ioPrio {
          TakeOver(opt, top, k);
        } else {
          JoinSub(opt, top, k);
        }
      }
    }

    /** Where the pool leads, and where the abstract queue has the group of a handle, agree. */
    lemma FindHandle(h: int) returns (k: nat)
      requires Wired(m, fdPool, queueList, tops, sub, Q) && NonemptyGroups(Q) && 0 <= h < |fdPool|
      ensures k == FindGroup(Q, h)
      ensures fdPool[h] == NIL ==> k == |Q|
      ensures fdPool[h] != NIL ==> k < |Q| == |tops| && tops[k] == fdPool[h] && m.Handle(tops[k]) == h
    {
      k := FindGroup(Q, h);
      assert IsHandle(h);
      assert forall i | 0 <= i < |tops| :: m.req[tops[i]] == Q[i][0];
      if k < |Q| {
        assert m.Handle(tops[k]) == h;
      } else {
        assert forall i | 0 <= i < |tops| :: m.Handle(tops[i]) != h;
      }
    }

    // ---------- Cancelling ----------

    /** Takes the top out of the queue; the head of its sub-queue, if any, takes its place. */
    method RemoveTop(top: Ref, ghost k: nat)
      requires Wired(m, fdPool, queueList, tops, sub, Q) && k < |tops| && top == tops[k]
      modifies this`m, this`fdPool, this`queueList, this`tops, this`sub, this`Q
      ensures Wired(m, fdPool, queueList, tops, sub, Q) && |fdPool| == old(|fdPool|)
      ensures old(Q[k] != []) && Q == if |old(Q)[k]| == 1 then Remove(old(Q), k) else old(Q)[k := Leave(old(Q)[k], 0)]
      ensures Kept(old(m), m, NIL) && m.place == old(m.place)[top := Out]
    {
      var h := m.req[top].ticket.handle;
      assert GroupOk(m, h, top, sub[h], Q[k]);
      if m.header[top] == NIL {
        UnlinkTop(top, k);
        fdPool := fdPool[h := NIL];
        CloseWired(old(m), m, old(fdPool), old(queueList), old(tops), sub, Q, k);
        m := m.(place := m.place[top := Out]);
        Q := Remove(Q, k);
      } else {
        var x := m.header[top];
        SubIsNotTop(m, tops, sub, Q, k, 0);
        m := m.SetFdPrio(x, m.req[top].fdPrio);
        fdPool := fdPool[h := x];
        m := m.SetHeader(x, m.next[x]);
        SwapTop(x, top, k);
        PromoteWired(old(m), m, old(fdPool), old(queueList), old(tops), sub, Q, k);
        m := m.(place := m.place[top := Out]);
        sub := sub[h := sub[h][1..]];
        Q := Q[k := Leave(Q[k], 0)];
      }
    }

    /** Looks for the id in the sub-queue and unlinks the member that has it. */
    method UnlinkMember(top: Ref, id: int, ghost h: int, ghost s: seq<Ref>, ghost v: Group)
      returns (item: Ref, ghost j: nat)
      requires m.Ok() && GroupOk(m, h, top, s, v) && m.header[top] != NIL && m.req[top].ticket.id != id
      modifies this`m
      ensures j == FindId(v, id) && (item == NIL <==> j == |v|) && j > 0
      ensures item == NIL ==> m == old(m)
      ensures item != NIL ==> j <= |s| && item == s[j - 1] && MemberUnlinked(old(m), m, top, s, j)
    {
      assert m.req[s[0]] == v[1];
      if m.req[m.header[top]].ticket.id == id {
        item, j := m.header[top], 1;
        UnlinkFirst(m, top, s);
        m := m.SetHeader(top, m.next[item]);
        FindIdStep(v, id, 1);
      } else {
        var itor;
        ghost var i;
        itor, i := FindBehind(m.header[top], id, s, v[1..]);
        item, j := m.next[itor], i + 2;
        if item != NIL {
          UnlinkAfter(m, top, s, i);
          m := m.SetNext(itor, m.next[item]);
        }
        FindIdStep(v, id, j);
      }
    }

    /** The last member, or the one before the first that has the id; the first member has another. */
    method FindBehind(first: Ref, id: int, ghost s: seq<Ref>, ghost w: Group) returns (itor: Ref, ghost i: nat)
      requires m.Ok() && |s| == |w| && |s| > 0 && first == s[0] && Chained(m.next, s)
      requires (forall n | 0 <= n < |s| :: m.req[s[n]] == w[n]) && w[0].ticket.id != id
      ensures i < |s| && itor == s[i] && (forall n | 0 <= n <= i :: w[n].ticket.id != id)
      ensures m.next[itor] == NIL <==> i + 1 == |s|
      ensures i + 1 < |s| ==> m.next[itor] == s[i + 1] && w[i + 1].ticket.id == id
    {
      itor, i := first, 0;
      while m.next[itor] != NIL && m.req[m.next[itor]].ticket.id != id
        invariant i < |s| && itor == s[i]
        invariant forall n | 0 <= n <= i :: w[n].ticket.id != id
        decreases |s| - i
      {
        itor, i := m.next[itor], i + 1;
      }
    }

    lemma FindIdStep(v: Group, id: int, j: nat)
      requires j <= |v| && (forall n | 0 <= n < j :: v[n].ticket.id != id) && (j < |v| ==> v[j].ticket.id == id)
      ensures FindId(v, id) == j
    {}

    /** Takes the request of the given handle and id out of the queue, if it is there. */
    method Withdraw(handle: int, id: int) returns (item: Ref)
      requires Wired(m, fdPool, queueList, tops, sub, Q) && NonemptyGroups(Q) && 0 <= handle < |fdPool|
      modifies this`m, this`fdPool, this`queueList, this`tops, this`sub, this`Q
      ensures Wired(m, fdPool, queueList, tops, sub, Q) && |fdPool| == old(|fdPool|)
      ensures Q == Cancel(old(Q), handle, id)
      ensures Kept(old(m), m, NIL)
      ensures item == NIL ==> m == old(m)
      ensures item != NIL ==>
        && 0 < item < |old(m).req| && old(m).req[item].ticket.id == id && old(m).req[item].ticket.handle == handle
        && old(m).place[item] == Queued && m.place == old(m.place)[item := Out]
    {
      ghost var k := FindHandle(handle);
      if fdPool[handle] == NIL {
        return NIL;
      }
      var top := fdPool[handle];
      assert GroupOk(m, handle, top, sub[handle], Q[k]);
      if m.req[top].ticket.id == id {
        FindIdStep(Q[k], id, 0);
        CancelFirst(Q, handle, id, k);
        RemoveTop(top, k);
        return top;
      } else if m.header[top] != NIL {
        item := WithdrawMember(top, handle, id, k);
      } else {
        FindIdStep(Q[k], id, 1);
        return NIL;
      }
    }

    /** The request is searched for in the sub-queue of the k-th group. */
    method WithdrawMember(top: Ref, handle: int, id: int, ghost k: nat) returns (item: Ref)
      requires Wired(m, fdPool, queueList, tops, sub, Q) && NonemptyGroups(Q) && 0 <= handle < |fdPool|
      requires k < |tops| && top == tops[k] && m.Handle(top) == handle && k == FindGroup(Q, handle)
      requires GroupOk(m, handle, top, sub[handle], Q[k]) && m.req[top].ticket.id != id && m.header[top] != NIL
      modifies this`m, this`sub, this`Q
      ensures Wired(m, fdPool, queueList, tops, sub, Q)
      ensures Q == Cancel(old(Q), handle, id)
      ensures Kept(old(m), m, NIL)
      ensures item == NIL ==> m == old(m)
      ensures item != NIL ==>
        && 0 < item < |old(m).req| && old(m).req[item].ticket.id == id && old(m).req[item].ticket.handle == handle
        && old(m).place[item] == Queued && m.place == old(m.place)[item := Out]
    {
      ghost var j;
      item, j := UnlinkMember(top, id, handle, sub[handle], Q[k]);
      if item != NIL {
        MemberIs(old(m), handle, top, sub[handle], Q[k], j);
        CancelAt(Q, handle, id, k, j);
        LeaveWired(old(m), m, fdPool, queueList, tops, sub, Q, k, j);
        m := m.(place := m.place[item := Out]);
        sub := sub[handle := Remove(sub[handle], j - 1)];
        Q := Q[k := Leave(Q[k], j)];
      }
    }

    // ---------- Popping ----------

    /** Links one whole group behind the batch. */
    method LinkGroup(itor: Ref, top: Ref, ghost s: seq<Ref>) returns (last: Ref, top': Ref, n: nat)
      requires m.Ok() && 0 < top < |m.req| && m.header[top] == First(s) && Chained(m.next, s) && Distinct([top] + s)
      requires itor < |m.req| && itor != top && itor !in s
      modifies this`m
      ensures m == old(m).(next := m.next) && |m.next| == |old(m).next|
      ensures forall x | 0 <= x < |m.next| && x != top && x != itor :: m.next[x] == old(m).next[x]
      ensures itor != NIL ==> m.next[itor] == top
      ensures s != [] ==> m.next[top] == s[0]
      ensures last == Last([top] + s) && top' == old(m).next[top] && n == 1 + |s|
    {
      ghost var g := [top] + s;
      if itor != NIL {
        m := m.SetNext(itor, top);
      }
      last, n := top, 1;
      var node := m.header[top];
      top' := m.next[top];
      ghost var m1 := m;
      ghost var i := 0;
      while node != NIL
        invariant i <= |s| && node == First(s[i..]) && last == g[i] && n == 1 + i
        invariant m == m1.(next := if i == 0 then m1.next else m1.next[top := s[0]])
        decreases |s| - i
      {
        assert node == s[i] && g[i + 1] == s[i];
        assert m.next[node] == First(s[i + 1..]);
        assert i > 0 ==> m.next[last] == node;
        m := m.SetNext(last, node);
        last, n, i := node, n + 1, i + 1;
        node := m.next[node];
      }
    }

    method TakeGroup(itor: Ref, top: Ref, ghost b: seq<Ref>, ghost rest: seq<Ref>, ghost q: Queue)
      returns (last: Ref, top': Ref, n: nat, ghost g: seq<Ref>)
      requires m.Ok() && Batch(m, b) && itor == Last(b)
      requires Rest(m, fdPool, rest, sub, q) && rest != [] && top == rest[0]
      modifies this`m, this`fdPool
      ensures TookGroup(old(m), m, fdPool, rest, sub, q, b, g) && |fdPool| == old(|fdPool|)
      ensures last == Last(g) && top' == First(rest[1..]) && n == |g|
    {
      LinkReady(m, fdPool, rest, sub, q, b);
      g := GroupNodes(m, sub, top);
      fdPool := fdPool[m.req[top].ticket.handle := NIL];
      last, top', n := LinkGroup(itor, top, sub[m.Handle(top)]);
      TakeDone(old(m), m, old(fdPool), rest, sub, q, b);
      m := m.(place := HandOut(m, g).place);
    }

    /** The loop of pop_some_request: moves groups into a batch until num requests are in hand. */
    method PopLoop(num: int) returns (popList: Ref, itor: Ref, top: Ref, ghost marks: seq<nat>, ghost b: seq<Ref>)
      requires m.Ok() && Popping(m, m, fdPool, tops, sub, Q, num, [0], [], NIL, queueList) && queueList != NIL
               && num > 0
      modifies this`m, this`fdPool
      ensures Popping(old(m), m, fdPool, tops, sub, Q, num, marks, b, itor, top) && |fdPool| == old(|fdPool|)
      ensures popList == First(b) && (|b| >= num || top == NIL)
    {
      b, marks := [], [0];
      popList, itor, top := NIL, NIL, queueList;
      var i := 0;
      while i < num && top != NIL
        invariant Popping(old(m), m, fdPool, tops, sub, Q, num, marks, b, itor, top) && |fdPool| == old(|fdPool|)
        invariant i == |b| && popList == First(b) && 0 < |marks| <= |Q| + 1
        decreases |Q| - |marks|
      {
        if popList == NIL {
          popList := top;
        }
        var n;
        itor, top, n, marks, b := PopNext(itor, top, marks, b, old(m), num);
        i := i + n;
      }
    }

    method PopNext(itor: Ref, top: Ref, ghost marks: seq<nat>, ghost b: seq<Ref>, ghost m0: Cells, ghost num: int)
      returns (last: Ref, top': Ref, n: nat, ghost marks': seq<nat>, ghost b': seq<Ref>)
      requires m0.Ok() && Popping(m0, m, fdPool, tops, sub, Q, num, marks, b, itor, top) && |b| < num && top != NIL
      modifies this`m, this`fdPool
      ensures |marks'| == |marks| + 1 <= |Q| + 1 && |fdPool| == old(|fdPool|)
      ensures Popping(m0, m, fdPool, tops, sub, Q, num, marks', b', last, top')
      ensures |b'| == |b| + n && First(b') == if b == [] then top else First(b)
    {
      ghost var g;
      ghost var k := |marks| - 1;
      PoppingReady(m0, m, fdPool, tops, sub, Q, num, marks, b, itor, top);
      last, top', n, g := TakeGroup(itor, top, b, tops[k..], Q[k..]);
      GroupTaken(old(m), m, fdPool, tops[k..], sub, Q[k..], b, g);
      PopStep(m0, old(m), m, old(fdPool), fdPool, tops, sub, Q, k, b, g);
      PoppingStep(m0, m, fdPool, tops, sub, Q, num, marks, k, b, g);
      assert tops[k..][1..] == tops[k + 1..] && First(b + g) == First(b + [top]);
      marks', b' := marks + [|b + g|], b + g;
    }

    /** Takes whole groups off the front of the queue until num requests are in hand. */
    method PopSomeRequest(num: int) returns (popList: Ref, ghost b: seq<Ref>)
      requires Wired(m, fdPool, queueList, tops, sub, Q) && queueList != NIL && num > 0
      modifies this`m, this`fdPool, this`queueList, this`tops, this`Q
      ensures Wired(m, fdPool, queueList, tops, sub, Q) && |fdPool| == old(|fdPool|)
      ensures (forall i | 0 <= i < |b| :: 0 < b[i] < |m.req|)
              && Spell(m, b) == Flatten(old(Q)[..PopGroups(old(Q), num)])
      ensures Q == old(Q)[PopGroups(old(Q), num)..]
      ensures popList == First(b) && b != [] && Chained(m.next, b) && Distinct(b) && m.req == old(m.req)
      ensures Handed(old(m), m, b) && forall i | 0 <= i < |b| :: old(m).place[b[i]] == Queued
    {
      ghost var marks;
      var itor, top;
      PopStart(m, fdPool, queueList, tops, sub, Q);
      PoppingStart(m, fdPool, tops, sub, Q, num);
      QueueNonempty();
      popList, itor, top, marks, b := PopLoop(num);
      PoppingEnd(old(m), m, fdPool, tops, sub, Q, num, marks, b, itor, top);
      EndPop(itor, top, old(m), |marks| - 1, b);
    }

    /** Ends the batch, and makes the first of the remaining groups the head of the list. */
    method EndPop(itor: Ref, top: Ref, ghost m0: Cells, ghost k: nat, ghost b: seq<Ref>)
      requires m0.Ok() && PopState(m0, m, fdPool, tops, sub, Q, k, b) && b != [] && itor == Last(b)
               && top == First(tops[k..])
      modifies this`m, this`queueList, this`tops, this`Q
      ensures Wired(m, fdPool, queueList, tops, sub, Q) && Q == old(Q)[k..]
      ensures (forall i | 0 <= i < |b| :: 0 < b[i] < |m.req|) && Spell(m, b) == Flatten(old(Q)[..k])
      ensures Chained(m.next, b) && Distinct(b) && m.req == m0.req && Handed(m0, m, b)
    {
      ghost var m1 := m;
      assert itor != NIL;
      queueList := top;
      if queueList != NIL {
        m := m.SetPrev(queueList, NIL);
      }
      if itor != NIL {
        m := m.SetNext(itor, NIL);
      }
      PopDone(m0, m1, m, fdPool, tops, sub, Q, k, b);
      tops, Q := tops[k..], Q[k..];
    }

    // ---------- The node pool ----------

    lemma QueueNonempty()
      requires Wired(m, fdPool, queueList, tops, sub, Q)
      ensures NonemptyGroups(Q)
    {
      assert forall i | 0 <= i < |tops| :: GroupOk(m, m.Handle(tops[i]), tops[i], sub[m.Handle(tops[i])], Q[i]);
    }

    /** Adds one node to an empty free list. */
    method GrowPool()
      requires Valid() && freeList == NIL
      modifies this`m, this`freeList, this`free
      ensures m.Ok() && Wired(m, fdPool, queueList, tops, sub, Q) && FreeOk(m, freeList, free) && free != []
      ensures |m.req| - |free| == old(|m.req| - |free|) && HeldKept(old(m), m, NIL)
      ensures forall x | 0 < x < |m.req| && m.place[x] == Free :: x >= |old(m).req|
    {
      assert free == [];
      GrowOk(m, fdPool, queueList, tops, sub, Q);
      freeList, free := |m.req|, [|m.req|];
      m := Grown(m);
      KeptHeld(old(m), m, NIL);
    }

    /** A node that has been reset and holds request r. */
    ghost predicate Allocated(opt: Ref, r: Request)
      reads this
    {
      && m.Ok() && 0 < opt < |m.req| && m.place[opt] == Out && m.req[opt] == r
      && m.next[opt] == NIL && m.prev[opt] == NIL && m.header[opt] == NIL
    }

    method TakeFree(r: Request) returns (opt: Ref)
      requires Wired(m, fdPool, queueList, tops, sub, Q) && FreeOk(m, freeList, free) && freeList != NIL
      modifies this`m, this`freeList, this`free
      ensures Wired(m, fdPool, queueList, tops, sub, Q) && FreeOk(m, freeList, free)
      ensures |m.req| == |old(m).req| && |free| == old(|free|) - 1
      ensures Allocated(opt, r) && old(m).place[opt] == Free && HeldKept(old(m), m, NIL)
    {
      opt := freeList;
      AllocOk(m, fdPool, queueList, tops, sub, Q, free, r);
      freeList := m.next[opt];
      m := Reset(m, opt, r);
      free := free[1..];
      KeptHeld(old(m), m, opt);
    }

    /** Takes a node from the free list and resets it; refuses when too many are outstanding. */
    method AllocAioOpt(r: Request) returns (opt: Ref)
      requires Valid()
      modifies this`m, this`freeList, this`free, this`queueListSize
      ensures Valid()
      ensures opt == NIL <==> old(queueListSize) > maxQueueSize
      ensures opt == NIL ==> m == old(m) && queueListSize == old(queueListSize)
      ensures opt != NIL ==> Allocated(opt, r) && queueListSize == old(queueListSize) + 1 && HeldKept(old(m), m, NIL)
      ensures opt != NIL && opt < |old(m).req| ==> old(m).place[opt] == Free
    {
      if queueListSize > maxQueueSize {
        return NIL;
      }
      if freeList == NIL {
        GrowPool();
      }
      ghost var m1 := m;
      opt := TakeFree(r);
      queueListSize := queueListSize + 1;
      HeldThrough(old(m), m1, m, NIL);
    }

    /** Returns one node to the free list. */
    method FreeAioOpt(p: Ref)
      requires Valid() && 0 < p < |m.req| && m.place[p] == Out
      modifies this`m, this`freeList, this`free, this`queueListSize
      ensures Valid() && HeldKept(old(m), m, p) && queueListSize == old(queueListSize) - 1
    {
      m := m.SetNext(p, freeList);
      freeList := p;
      queueListSize := queueListSize - 1;
      m := m.(place := m.place[p := Free]);
      FreePush(old(m), m, old(freeList), free, p);
      WiredFrame(old(m), m, fdPool, queueList, tops, sub, Q);
      free := [p] + free;
    }

    /** The last node of a batch, and the length of the batch. */
    method TailOf(p: Ref, ghost b: seq<Ref>) returns (tail: Ref, n: nat)
      requires b != [] && p == b[0] && Chained(m.next, b)
      ensures tail == Last(b) && n == |b|
    {
      tail, n := p, 1;
      while m.next[tail] != NIL
        invariant 0 < n <= |b| && tail == b[n - 1]
        decreases |b| - n
      {
        tail, n := m.next[tail], n + 1;
      }
    }

    /** Returns a finished batch to the free list. */
    method FreeAioOptN(p: Ref, ghost b: seq<Ref>)
      requires Valid() && b != [] && p == b[0] && Chained(m.next, b) && Distinct(b)
      requires forall i | 0 <= i < |b| :: m.place[b[i]] == Out
      modifies this`m, this`freeList, this`free, this`queueListSize
      ensures Valid() && queueListSize == old(queueListSize) - |b|
      ensures |m.req| == |old(m).req|
      ensures forall x | 0 < x < |m.req| && x !in b && old(m).place[x] == Out ::
        m.place[x] == Out && m.next[x] == old(m).next[x] && m.req[x] == old(m).req[x]
    {
      var tail, n := TailOf(p, b);
      FreeBatchOk(m, fdPool, queueList, tops, sub, Q, freeList, free, b);
      m := m.SetNext(tail, freeList);
      m := m.(place := Freed(m.place, b));
      freeList := p;
      queueListSize := queueListSize - n;
      free := b + free;
    }

    // ---------- The public operations ----------

    /** Posts a request under the next id: -1 when too many are outstanding, and otherwise the id. */
    method StartAio(t: Ticket, fdPrio: int) returns (id: int)
      requires Valid() && 0 <= t.handle < |fdPool| && 0 <= idItor < INT_MAX
      modifies this
      ensures Valid() && |fdPool| == old(|fdPool|) && 0 <= idItor < INT_MAX
      ensures id == -1 <==> old(queueListSize) > maxQueueSize
      ensures id == -1 ==> Q == old(Q) && queueListSize == old(queueListSize) && idItor == old(idItor)
      ensures id != -1 ==>
        && id == old(idItor) + 1 <= INT_MAX && idItor == (if id == INT_MAX then 0 else id)
        && Submits(old(Q), Q, Request(t.(id := id), fdPrio))
        && queueListSize == old(queueListSize) + 1
      ensures HeldKept(old(m), m, NIL)
    {
      id := idItor + 1;
      var ok := Post(Request(t.(id := id), fdPrio));
      if !ok {
        return -1;
      }
      idItor := if id == INT_MAX then 0 else id;
    }

    /** Allocates a node for the request and puts it into the queue. */
    method Post(r: Request) returns (ok: bool)
      requires Valid() && 0 <= r.ticket.handle < |fdPool|
      modifies `m, `fdPool, `queueList, `tops, `sub, `Q, `freeList, `free, `queueListSize
      ensures Valid() && |fdPool| == old(|fdPool|)
      ensures ok <==> old(queueListSize) <= maxQueueSize
      ensures !ok ==> Q == old(Q) && queueListSize == old(queueListSize)
      ensures ok ==> Submits(old(Q), Q, r) && queueListSize == old(queueListSize) + 1
      ensures HeldKept(old(m), m, NIL)
    {
      var opt := AllocAioOpt(r);
      ok := opt != NIL;
      if ok {
        ghost var m1 := m;
        EnqueueReady(opt);
        HeldThrough(old(m), m1, m, opt);
      }
    }

    method EnqueueReady(opt: Ref)
      requires Valid() && Ready(opt)
      modifies this`m, this`fdPool, this`queueList, this`tops, this`sub, this`Q
      ensures Valid() && |fdPool| == old(|fdPool|)
      ensures Submits(old(Q), Q, old(m).req[opt]) && HeldKept(old(m), m, opt)
    {
      QueueNonempty();
      Enqueue(opt);
      FreeFrame(old(m), m, freeList, free, opt);
      KeptHeld(old(m), m, opt);
    }

    /** What a worker does under the queue's lock: it leaves with a batch linked through its nodes. */
    method PopBatch(num: int) returns (popList: Ref, ghost b: seq<Ref>)
      requires Valid() && queueList != NIL && num > 0
      modifies this
      ensures Valid() && |fdPool| == old(|fdPool|) && queueListSize == old(queueListSize) && idItor == old(idItor)
      ensures popList == First(b) && b != [] && Chained(m.next, b) && Distinct(b)
      ensures forall i | 0 <= i < |b| :: b[i] < |old(m).req| && old(m).place[b[i]] == Queued && m.place[b[i]] == Out
      ensures Spell(m, b) == Flatten(old(Q)[..PopGroups(old(Q), num)])
      ensures Q == old(Q)[PopGroups(old(Q), num)..] && HeldKept(old(m), m, NIL)
    {
      popList, b := PopSomeRequest(num);
      PopFree(old(m), m, freeList, free, b);
      KeptHeld(old(m), m, NIL);
    }

    /** Takes a request out of the queue, if it is there, and frees its node. */
    method CancelQueued(handle: int, id: int) returns (removed: bool)
      requires Valid() && 0 <= handle < |fdPool|
      modifies this
      ensures Valid() && |fdPool| == old(|fdPool|) && idItor == old(idItor)
      ensures NonemptyGroups(old(Q)) && Q == Cancel(old(Q), handle, id)
      ensures queueListSize == old(queueListSize) - (if removed then 1 else 0)
      ensures HeldKept(old(m), m, NIL)
    {
      QueueNonempty();
      var item := Withdraw(handle, id);
      removed := item != NIL;
      KeptHeld(old(m), m, NIL);
      if removed {
        WithdrawFree(old(m), m, freeList, free, item);
        ghost var m1 := m;
        FreeAioOpt(item);
        HeldThrough(old(m), m1, m, item);
      }
    }
  }
}
