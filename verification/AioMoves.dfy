/**
 * What each operation on the request queue does to the whole linked structure:
 * one lemma per operation, from the memory before to the memory after.
 */
module AioMoves {
  import opened AioSpec
  import opened Lists
  import opened AioLinks

  /** Nothing outside the queue, except e, is written. */
  ghost predicate Kept(m: Cells, m': Cells, e: Ref)
    requires m.Ok() && m'.Ok()
  {
    && |m.req| <= |m'.req|
    && forall x | 0 < x < |m.req| && m.place[x] != Queued && x != e ::
         m'.next[x] == m.next[x] && m'.req[x] == m.req[x] && m'.place[x] == m.place[x]
  }

  /** The nodes that workers and submitters hold, other than e, stay as they are. */
  ghost predicate HeldKept(m: Cells, m': Cells, e: Ref)
    requires m.Ok() && m'.Ok()
  {
    && |m.req| <= |m'.req|
    && forall x | 0 < x < |m.req| && m.place[x] == Out && x != e ::
         m'.next[x] == m.next[x] && m'.req[x] == m.req[x] && m'.place[x] == Out
  }

  lemma KeptHeld(m: Cells, m': Cells, e: Ref)
    requires m.Ok() && m'.Ok() && Kept(m, m', e)
    ensures HeldKept(m, m', e)
  {}

  /** First a node is allocated, then something else happens to it: other held nodes are kept. */
  lemma HeldThrough(m: Cells, m1: Cells, m': Cells, e: Ref)
    requires m.Ok() && m1.Ok() && m'.Ok() && HeldKept(m, m1, NIL) && HeldKept(m1, m', e)
    requires 0 < e < |m.req| ==> m.place[e] != Out
    ensures HeldKept(m, m', NIL)
  {}

  /** The free list: every free node, once. */
  ghost predicate FreeOk(m: Cells, head: Ref, free: seq<Ref>)
    requires m.Ok()
  {
    && head == First(free) && Chained(m.next, free) && Distinct(free)
    && (forall i | 0 <= i < |free| :: m.place[free[i]] == Free)
    && (forall x | 0 < x < |m.req| && m.place[x] == Free :: x in free)
  }

  lemma FreeFrame(m: Cells, m': Cells, head: Ref, free: seq<Ref>, e: Ref)
    requires m.Ok() && m'.Ok() && FreeOk(m, head, free) && Kept(m, m', e) && |m'.req| == |m.req|
    requires 0 < e < |m.req| && m.place[e] != Free && m'.place[e] != Free
    requires forall x | 0 < x < |m.req| && m.place[x] == Queued :: m'.place[x] != Free
    ensures FreeOk(m', head, free)
  {
    forall i | 0 <= i < |free| ensures m'.next[free[i]] == m.next[free[i]] && m'.place[free[i]] == Free {
      assert m.place[free[i]] == Free && free[i] != e;
    }
    ChainKept(m.next, m'.next, free);
    forall x | 0 < x < |m'.req| && m'.place[x] == Free ensures x in free {
      assert m.place[x] == Free;
    }
  }

  lemma OpenWired(m: Cells, m1: Cells, pool: seq<Ref>, head: Ref, tops: seq<Ref>, sub: map<int, seq<Ref>>, q: Queue,
                  s: nat, opt: Ref)
    requires Wired(m, pool, head, tops, sub, q) && s <= |q|
    requires 0 < opt < |m.req| && m.header[opt] == NIL && m.place[opt] == Out
    requires 0 <= m.Handle(opt) < |pool| && pool[m.Handle(opt)] == NIL
    requires m1.Ok() && m1 == m.(next := m1.next, prev := m1.prev) && |m1.next| == |m.next|
    requires forall y | 0 <= y < |m1.next| && y !in tops && y != opt :: m1.next[y] == m.next[y]
    requires Linked(m1.next, m1.prev, Insert(tops, s, opt))
    ensures var m' := m1.(place := m1.place[opt := Queued]);
            && Wired(m', pool[m.Handle(opt) := opt], First(Insert(tops, s, opt)),
                     Insert(tops, s, opt), sub[m.Handle(opt) := []], Insert(q, s, [m.req[opt]]))
            && Kept(m, m', opt)
  {
    var m' := m1.(place := m1.place[opt := Queued]);
    OpenDone(m, m', pool, tops, sub, q, s, opt);
    KeptBecauseQueued(m, m', tops, sub, q, opt);
  }

  /** Writing next links of tops, and the node e, keeps everything outside the queue. */
  lemma KeptBecauseQueued(m: Cells, m': Cells, tops: seq<Ref>, sub: map<int, seq<Ref>>, q: Queue, e: Ref)
    requires m.Ok() && m'.Ok() && |m'.req| == |m.req| && Grouped(m, tops, sub, q)
    requires forall x | 0 < x < |m.req| && x !in tops && x != e && m.place[x] != Queued ::
      m'.next[x] == m.next[x] && m'.req[x] == m.req[x] && m'.place[x] == m.place[x]
    ensures Kept(m, m', e)
  {
    assert forall i | 0 <= i < |tops| :: m.place[tops[i]] == Queued;
  }

  /** Only nodes of handle h, tops' next links and nodes outside the queue are written. */
  ghost predicate OnlyGroup(m: Cells, m': Cells, tops: seq<Ref>, h: int)
    requires m.Ok() && m'.Ok()
  {
    && |m'.req| == |m.req|
    && (forall x | 0 <= x < |m.req| :: m'.req[x].ticket == m.req[x].ticket)
    && (forall x | 0 <= x < |m.req| && m.place[x] == Queued && m.Handle(x) != h ::
          && m'.header[x] == m.header[x] && m'.req[x] == m.req[x] && m'.place[x] == Queued
          && (x !in tops ==> m'.next[x] == m.next[x]))
  }

  /** The k-th group is replaced: the rest of the structure carries over. */
  lemma ChangeWired(m: Cells, m': Cells, pool: seq<Ref>, head: Ref, tops: seq<Ref>, sub: map<int, seq<Ref>>, q: Queue,
                    k: nat, top': Ref, s': seq<Ref>, v': Group)
    requires Wired(m, pool, head, tops, sub, q) && k < |tops| && m'.Ok()
    requires OnlyGroup(m, m', tops, m.Handle(tops[k]))
    requires GroupOk(m', m.Handle(tops[k]), top', s', v')
    requires Linked(m'.next, m'.prev, tops[k := top'])
    ensures var h := m.Handle(tops[k]);
            Wired(m', pool[h := top'], First(tops[k := top']), tops[k := top'], sub[h := s'], q[k := v'])
  {
    assert m'.Handle(top') == m.Handle(tops[k]);
    ReplaceGroup(m, m', tops, sub, q, k, top', s', v');
    IndexedReplace(m, m', pool, tops, k, top');
  }

  /** The new node has taken over as top of the k-th group. */
  lemma TakeOverWired(m: Cells, m1: Cells, pool: seq<Ref>, head: Ref, tops: seq<Ref>, sub: map<int, seq<Ref>>, q: Queue,
                      k: nat, opt: Ref, m': Cells)
    requires Wired(m, pool, head, tops, sub, q) && k < |tops|
    requires 0 < opt < |m.req| && m.place[opt] == Out && m.Handle(opt) == m.Handle(tops[k])
    requires MemberSlot(q[k], m.req[opt].ticket) == 0
    requires m1.Ok() && m1 == m.(next := m1.next, prev := m1.prev) && |m1.next| == |m.next|
    requires forall y | 0 <= y < |m1.next| && y !in tops && y != opt :: m1.next[y] == m.next[y]
    requires Linked(m1.next, m1.prev, tops[k := opt])
    requires m' == Cells(m1.next[tops[k] := m.header[tops[k]]], m1.prev, m.header[opt := tops[k]][tops[k] := NIL],
                         m.req[opt := m.req[opt].(fdPrio := m.req[tops[k]].fdPrio)], m.place[opt := Queued])
    ensures var h := m.Handle(opt);
            Wired(m', pool[h := opt], First(tops[k := opt]), tops[k := opt],
                  sub[h := [tops[k]] + sub[h]], q[k := Join(q[k], m.req[opt])])
    ensures Kept(m, m', opt)
  {
    var top, h := tops[k], m.Handle(opt);
    var s := sub[h];
    forall j | 0 <= j < |s| ensures s[j] !in tops && s[j] != opt {
      SubIsNotTop(m, tops, sub, q, k, j);
    }
    assert top !in tops[k := opt];
    assert Linked(m'.next, m'.prev, tops[k := opt]);
    GroupAfterTakeOver(m, m', h, top, s, q[k], opt);
    ChangeWired(m, m', pool, head, tops, sub, q, k, opt, [top] + s, Join(q[k], m.req[opt]));
    KeptBecauseQueued(m, m', tops, sub, q, opt);
  }

  /** The new node has been linked into the sub-queue s as member p of the group. */
  ghost predicate MemberLinked(m: Cells, m1: Cells, top: Ref, s: seq<Ref>, opt: Ref, p: nat)
    requires m.Ok()
  {
    && 0 < p <= |s| + 1 && top < |m.header| && m1.Ok()
    && m1 == m.(next := m1.next, header := m.header[top := First(Insert(s, p - 1, opt))])
    && |m1.next| == |m.next| && Chained(m1.next, Insert(s, p - 1, opt))
    && forall y | 0 <= y < |m1.next| && y !in s && y != opt :: m1.next[y] == m.next[y]
  }

  /** The new node has been linked into the sub-queue of the k-th group, as member p. */
  lemma JoinWired(m: Cells, m1: Cells, m': Cells, pool: seq<Ref>, head: Ref, tops: seq<Ref>,
                  sub: map<int, seq<Ref>>, q: Queue,
                  k: nat, opt: Ref, p: nat)
    requires Wired(m, pool, head, tops, sub, q) && k < |tops|
    requires 0 < opt < |m.req| && m.place[opt] == Out && m.Handle(opt) == m.Handle(tops[k])
    requires 0 < p <= |q[k]| && p == MemberSlot(q[k], m.req[opt].ticket)
    requires m1.Ok() && MemberLinked(m, m1, tops[k], sub[m.Handle(opt)], opt, p)
             && m' == m1.(place := m1.place[opt := Queued])
    ensures var h := m.Handle(opt);
            && Wired(m', pool, head, tops, sub[h := Insert(sub[h], p - 1, opt)], q[k := Join(q[k], m.req[opt])])
            && Kept(m, m', opt)
  {
    var top, h := tops[k], m.Handle(opt);
    var s := sub[h];
    forall j | 0 <= j < |s| ensures s[j] !in tops && m.Handle(s[j]) == h && m.place[s[j]] == Queued {
      SubIsNotTop(m, tops, sub, q, k, j);
      assert m.req[s[j]] == q[k][j + 1];
    }
    assert opt !in tops;
    assert Linked(m'.next, m'.prev, tops);
    GroupAfterJoin(m, m', h, top, s, q[k], opt, p);
    assert Join(q[k], m.req[opt]) == Insert(q[k], p, m.req[opt]);
    assert tops[k := top] == tops && pool[h := top] == pool;
    ChangeWired(m, m', pool, head, tops, sub, q, k, top, Insert(s, p - 1, opt), Join(q[k], m.req[opt]));
  }

  /** The only member of the k-th group has been unlinked. */
  lemma CloseWired(m: Cells, m1: Cells, pool: seq<Ref>, head: Ref, tops: seq<Ref>, sub: map<int, seq<Ref>>,
                   q: Queue, k: nat)
    requires Wired(m, pool, head, tops, sub, q) && k < |tops|
    requires m1.Ok() && m1 == m.(next := m1.next, prev := m1.prev) && |m1.next| == |m.next|
    requires forall y | 0 <= y < |m1.next| && y !in tops :: m1.next[y] == m.next[y]
    requires Linked(m1.next, m1.prev, Remove(tops, k))
    ensures var m' := m1.(place := m1.place[tops[k] := Out]);
            && Wired(m', pool[m.Handle(tops[k]) := NIL], First(Remove(tops, k)), Remove(tops, k), sub, Remove(q, k))
            && Kept(m, m', NIL)
  {
    var m' := m1.(place := m1.place[tops[k] := Out]);
    CloseDone(m, m', pool, tops, sub, q, k);
    KeptBecauseQueued(m, m', tops, sub, q, NIL);
  }

  /** The head of the sub-queue has taken the place of the top of the k-th group. */
  lemma PromoteWired(m: Cells, m1: Cells, pool: seq<Ref>, head: Ref, tops: seq<Ref>, sub: map<int, seq<Ref>>,
                     q: Queue, k: nat)
    requires Wired(m, pool, head, tops, sub, q) && k < |tops| && sub[m.Handle(tops[k])] != []
    requires var x := sub[m.Handle(tops[k])][0];
             && m1.Ok() && m1 == Cells(m1.next, m1.prev, m.header[x := m.next[x]],
                                       m.req[x := m.req[x].(fdPrio := m.req[tops[k]].fdPrio)], m.place)
             && |m1.next| == |m.next|
             && (forall y | 0 <= y < |m1.next| && y !in tops && y != x :: m1.next[y] == m.next[y])
             && Linked(m1.next, m1.prev, tops[k := x])
    ensures var h := m.Handle(tops[k]);
            var x := sub[h][0];
            var m' := m1.(place := m1.place[tops[k] := Out]);
            && Wired(m', pool[h := x], First(tops[k := x]), tops[k := x], sub[h := sub[h][1..]], q[k := Leave(q[k], 0)])
            && Kept(m, m', NIL)
  {
    var top, h := tops[k], m.Handle(tops[k]);
    var s := sub[h];
    var x := s[0];
    var m' := m1.(place := m1.place[top := Out]);
    assert GroupOk(m, h, top, s, q[k]) && m.req[x] == q[k][1];
    forall j | 1 <= j < |s| ensures s[j] !in tops && s[j] != x {
      SubIsNotTop(m, tops, sub, q, k, j);
    }
    GroupAfterPromotion(m, m', h, top, s, q[k]);
    ChangeWired(m, m', pool, head, tops, sub, q, k, x, s[1..], Leave(q[k], 0));
    KeptBecauseQueued(m, m', tops, sub, q, NIL);
  }

  /** Member j of the group has been unlinked from the sub-queue s. */
  ghost predicate MemberUnlinked(m: Cells, m1: Cells, top: Ref, s: seq<Ref>, j: nat)
    requires m.Ok()
  {
    && 0 < j <= |s| && top < |m.header|
    && m1.Ok() && m1 == m.(next := m1.next, header := m.header[top := First(Remove(s, j - 1))])
    && |m1.next| == |m.next| && Chained(m1.next, Remove(s, j - 1))
    && (forall y | 0 <= y < |m1.next| && y !in s :: m1.next[y] == m.next[y])
  }

  lemma UnlinkFirst(m: Cells, top: Ref, s: seq<Ref>)
    requires m.Ok() && top < |m.header| && Chained(m.next, s) && Distinct(s) && s != []
    ensures MemberUnlinked(m, m.SetHeader(top, m.next[s[0]]), top, s, 1)
  {
    ChainRemove(m.next, s, 0);
    assert Remove(s, 0) == s[1..];
  }

  lemma UnlinkAfter(m: Cells, top: Ref, s: seq<Ref>, i: nat)
    requires m.Ok() && top < |m.header| && Chained(m.next, s) && Distinct(s) && i + 1 < |s| && m.header[top] == s[0]
    ensures MemberUnlinked(m, m.SetNext(s[i], m.next[s[i + 1]]), top, s, i + 2)
  {
    ChainRemove(m.next, s, i + 1);
    assert First(Remove(s, i + 1)) == s[0];
    assert m.header == m.header[top := s[0]];
  }

  lemma MemberIs(m: Cells, h: int, top: Ref, s: seq<Ref>, v: Group, j: nat)
    requires m.Ok() && GroupOk(m, h, top, s, v) && 0 < j <= |s|
    ensures 0 < s[j - 1] < |m.req| && m.req[s[j - 1]] == v[j] && m.place[s[j - 1]] == Queued && v[j].ticket.handle == h
  {
    assert m.req[s[j - 1]] == v[j];
  }

  /** What cancelling does when the top of a group has the id. */
  lemma CancelFirst(q: Queue, h: int, id: int, k: nat)
    requires NonemptyGroups(q) && k == FindGroup(q, h) && k < |q| && FindId(q[k], id) == 0
    ensures Cancel(q, h, id) == if |q[k]| == 1 then Remove(q, k) else q[k := Leave(q[k], 0)]
  {
    if |q[k]| > 1 {
      CancelAt(q, h, id, k, 0);
    }
  }

  /** What cancelling does to a group with more than one member. */
  lemma CancelAt(q: Queue, h: int, id: int, k: nat, j: nat)
    requires NonemptyGroups(q) && k == FindGroup(q, h) && k < |q| && j == FindId(q[k], id) && j < |q[k]| && |q[k]| > 1
    ensures Cancel(q, h, id) == q[k := Leave(q[k], j)]
  {}

  /** Member j of the k-th group, which is not its top, has been unlinked. */
  lemma LeaveWired(m: Cells, m1: Cells, pool: seq<Ref>, head: Ref, tops: seq<Ref>, sub: map<int, seq<Ref>>,
                   q: Queue, k: nat, j: nat)
    requires Wired(m, pool, head, tops, sub, q) && k < |tops| && 0 < j <= |sub[m.Handle(tops[k])]|
    requires MemberUnlinked(m, m1, tops[k], sub[m.Handle(tops[k])], j)
    ensures var h := m.Handle(tops[k]);
            var m' := m1.(place := m1.place[sub[h][j - 1] := Out]);
            && Wired(m', pool, head, tops, sub[h := Remove(sub[h], j - 1)], q[k := Leave(q[k], j)])
            && Kept(m, m', NIL)
  {
    var top, h := tops[k], m.Handle(tops[k]);
    var s := sub[h];
    var m' := m1.(place := m1.place[s[j - 1] := Out]);
    assert GroupOk(m, h, top, s, q[k]);
    forall i | 0 <= i < |s| ensures s[i] !in tops && m.Handle(s[i]) == h && m.place[s[i]] == Queued {
      SubIsNotTop(m, tops, sub, q, k, i);
      assert m.req[s[i]] == q[k][i + 1];
    }
    assert Linked(m'.next, m'.prev, tops);
    GroupAfterLeave(m, m', h, top, s, q[k], j);
    assert tops[k := top] == tops && pool[h := top] == pool;
    ChangeWired(m, m', pool, head, tops, sub, q, k, top, Remove(s, j - 1), Leave(q[k], j));
  }

  // ---------- Popping ----------

  /** The requests of a list of nodes. */
  ghost function Spell(m: Cells, b: seq<Ref>): seq<Request>
    requires forall i | 0 <= i < |b| :: b[i] < |m.req|
  {
    seq(|b|, i requires 0 <= i < |b| => m.req[b[i]])
  }

  /** The batch built so far: linked, except that the last link is still to be written. */
  ghost predicate Batch(m: Cells, b: seq<Ref>)
    requires m.Ok()
  {
    && Distinct(b)
    && (forall i | 0 <= i < |b| :: 0 < b[i] < |m.req| && m.place[b[i]] == Out)
    && (forall i {:trigger m.next[b[i]]} | 0 <= i < |b| - 1 :: m.next[b[i]] == b[i + 1])
  }

  /** What is left of the queue while groups are taken off its front. */
  ghost predicate Rest(m: Cells, pool: seq<Ref>, tops: seq<Ref>, sub: map<int, seq<Ref>>, q: Queue)
    requires m.Ok()
  {
    && Grouped(m, tops, sub, q) && Indexed(m, pool, tops)
    && Chained(m.next, tops) && Distinct(tops)
    && (tops != [] ==> BackChained(m.prev[tops[0] := NIL], tops))
  }

  ghost function GroupNodes(m: Cells, sub: map<int, seq<Ref>>, top: Ref): seq<Ref>
    requires top < |m.req| && m.Handle(top) in sub
  {
    [top] + sub[m.Handle(top)]
  }

  /** The nodes of g have been handed out, and only they and the last node of the batch were relinked. */
  ghost predicate Taken(m: Cells, m': Cells, itor: Ref, g: seq<Ref>)
    requires m.Ok() && m'.Ok()
  {
    && |m'.req| == |m.req| && m'.req == m.req && m'.header == m.header && m'.prev == m.prev
    && (forall x | 0 <= x < |m.req| :: m'.place[x] == if x in g then Out else m.place[x])
    && (forall x | 0 <= x < |m.req| && x !in g && x != itor :: m'.next[x] == m.next[x])
  }

  lemma GroupNodesFacts(m: Cells, tops: seq<Ref>, sub: map<int, seq<Ref>>, q: Queue)
    requires m.Ok() && Grouped(m, tops, sub, q) && tops != []
    ensures var g := GroupNodes(m, sub, tops[0]);
            && (forall x | x in g :: 0 < x < |m.req| && m.Handle(x) == m.Handle(tops[0]) && m.place[x] == Queued)
            && Distinct(g) && Spell(m, g) == q[0]
  {
    var h := m.Handle(tops[0]);
    WholeGroup(m, h, tops[0], sub[h], q[0], GroupNodes(m, sub, tops[0]));
  }

  lemma WholeGroup(m: Cells, h: int, top: Ref, s: seq<Ref>, v: Group, g: seq<Ref>)
    requires m.Ok() && GroupOk(m, h, top, s, v) && g == [top] + s
    ensures forall x | x in g :: 0 < x < |m.req| && m.Handle(x) == h && m.place[x] == Queued
    ensures Distinct(g) && Spell(m, g) == v
  {
    forall i | 0 <= i < |g|
      ensures 0 < g[i] < |m.req| && m.req[g[i]] == v[i] && m.Handle(g[i]) == h && m.place[g[i]] == Queued
    {
      MemberOfGroup(m, h, top, s, v, i);
    }
    assert top !in s;
    PrependDistinct(top, s);
  }

  lemma MemberOfGroup(m: Cells, h: int, top: Ref, s: seq<Ref>, v: Group, i: nat)
    requires m.Ok() && GroupOk(m, h, top, s, v) && i < |v|
    ensures var x := ([top] + s)[i]; 0 < x < |m.req| && m.req[x] == v[i] && m.Handle(x) == h && m.place[x] == Queued
  {
    if i > 0 {
      assert m.req[s[i - 1]] == v[i];
    }
  }

  lemma PrependDistinct(x: Ref, s: seq<Ref>)
    requires Distinct(s) && x !in s
    ensures Distinct([x] + s)
  {}

  lemma TakeGrouped(m: Cells, m': Cells, tops: seq<Ref>, sub: map<int, seq<Ref>>, q: Queue, itor: Ref, g: seq<Ref>)
    requires m.Ok() && m'.Ok() && Grouped(m, tops, sub, q) && tops != []
    requires itor < |m.req| && (itor == NIL || m.place[itor] == Out)
    requires forall x | x in g :: 0 < x < |m.req| && m.Handle(x) == m.Handle(tops[0])
    requires Taken(m, m', itor, g)
    ensures Grouped(m', tops[1..], sub, q[1..])
  {
    var t := tops[1..];
    forall i | 0 <= i < |t|
      ensures m'.Handle(t[i]) == m.Handle(t[i]) && GroupOk(m', m.Handle(t[i]), t[i], sub[m.Handle(t[i])], q[1..][i])
    {
      TakeOther(m, m', tops, sub, q, i + 1, itor, g);
    }
  }

  lemma TakeChains(m: Cells, m': Cells, tops: seq<Ref>, itor: Ref, g: seq<Ref>)
    requires m.Ok() && m'.Ok() && Chained(m.next, tops) && Distinct(tops) && tops != []
    requires BackChained(m.prev[tops[0] := NIL], tops)
    requires forall i | 1 <= i < |tops| :: tops[i] !in g && tops[i] != itor
    requires Taken(m, m', itor, g)
    ensures Chained(m'.next, tops[1..]) && Distinct(tops[1..])
    ensures |tops| > 1 ==> BackChained(m'.prev[tops[1] := NIL], tops[1..])
  {
    ChainTail(m.next, m'.next, tops);
    if |tops| > 1 {
      BackTail(m.prev, tops);
    }
  }

  /** Handing out the first group leaves the rest of the structure in order. */
  lemma TakeRest(m: Cells, m': Cells, pool: seq<Ref>, tops: seq<Ref>, sub: map<int, seq<Ref>>, q: Queue, itor: Ref)
    requires m.Ok() && m'.Ok() && Rest(m, pool, tops, sub, q) && tops != []
    requires itor < |m.req| && (itor == NIL || m.place[itor] == Out)
    requires Taken(m, m', itor, GroupNodes(m, sub, tops[0]))
    ensures Rest(m', pool[m.Handle(tops[0]) := NIL], tops[1..], sub, q[1..])
  {
    var g := GroupNodes(m, sub, tops[0]);
    GroupNodesFacts(m, tops, sub, q);
    forall i | 1 <= i < |tops| ensures tops[i] !in g && tops[i] != itor {
      assert m.Handle(tops[i]) != m.Handle(tops[0]);
      assert GroupOk(m, m.Handle(tops[i]), tops[i], sub[m.Handle(tops[i])], q[i]);
    }
    TakeGrouped(m, m', tops, sub, q, itor, g);
    TakeChains(m, m', tops, itor, g);
    TakeIndexed(m, m', pool, tops);
  }

  lemma TakeOther(m: Cells, m': Cells, tops: seq<Ref>, sub: map<int, seq<Ref>>, q: Queue, i: nat, itor: Ref,
                  g: seq<Ref>)
    requires m.Ok() && m'.Ok() && Grouped(m, tops, sub, q) && 0 < i < |tops|
    requires itor < |m.req| && (itor == NIL || m.place[itor] == Out)
    requires forall x | x in g :: 0 < x < |m.req| && m.Handle(x) == m.Handle(tops[0])
    requires Taken(m, m', itor, g)
    ensures GroupOk(m', m.Handle(tops[i]), tops[i], sub[m.Handle(tops[i])], q[i])
  {
    var h := m.Handle(tops[i]);
    assert h != m.Handle(tops[0]);
    forall j | 0 <= j < |sub[h]| ensures sub[h][j] !in g {
      assert m.req[sub[h][j]] == q[i][j + 1];
    }
    GroupFrame(m, m', h, tops[i], sub[h], q[i]);
  }

  lemma TakeIndexed(m: Cells, m': Cells, pool: seq<Ref>, tops: seq<Ref>)
    requires Indexed(m, pool, tops) && tops != [] && DistinctHandles(m, tops) && m'.req == m.req
    ensures Indexed(m', pool[m.Handle(tops[0]) := NIL], tops[1..])
  {
    var h := m.Handle(tops[0]);
    forall g | 0 <= g < |pool| && IsHandle(g) && pool[h := NIL][g] != NIL ensures pool[g] in tops[1..] {
      var i :| 0 <= i < |tops| && tops[i] == pool[g];
      assert i != 0;
      assert tops[1..][i - 1] == pool[g];
    }
  }

  /** Linking the group behind the batch makes one batch of both. */
  lemma TakeBatch(m: Cells, m': Cells, b: seq<Ref>, g: seq<Ref>)
    requires m.Ok() && m'.Ok() && Batch(m, b) && Distinct(g) && g != []
    requires forall i | 0 <= i < |g| :: 0 < g[i] < |m.req| && m.place[g[i]] == Queued
    requires Taken(m, m', Last(b), g)
    requires b != [] ==> m'.next[Last(b)] == g[0]
    requires forall i | 0 <= i < |g| - 1 :: m'.next[g[i]] == g[i + 1]
    ensures Batch(m', b + g)
  {
    var c := b + g;
    assert forall i | 0 <= i < |b| :: c[i] == b[i] && b[i] !in g;
    assert forall i | |b| <= i < |c| :: c[i] == g[i - |b|];
    forall i | 0 <= i < |c| - 1 ensures m'.next[c[i]] == c[i + 1] {
      if i < |b| - 1 {
        assert b[i] != Last(b) && m.next[b[i]] == b[i + 1];
      } else if i == |b| - 1 {
        assert c[i] == Last(b);
      }
    }
  }

  ghost function HandOut(m: Cells, g: seq<Ref>): Cells {
    m.(place := seq(|m.place|, x requires 0 <= x < |m.place| => if x in g then Out else m.place[x]))
  }

  /** The first group g of the list has moved behind the batch b. */
  ghost predicate TookGroup(m: Cells, m': Cells, pool': seq<Ref>, tops: seq<Ref>, sub: map<int, seq<Ref>>, q: Queue,
                            b: seq<Ref>, g: seq<Ref>)
    requires m.Ok() && tops != [] && q != []
  {
    && m'.Ok() && Batch(m', b + g) && Taken(m, m', Last(b), g)
    && Rest(m', pool', tops[1..], sub, q[1..])
    && g != [] && g[0] == tops[0]
    && (forall i | 0 <= i < |g| :: g[i] < |m.req| && m.place[g[i]] == Queued)
    && Spell(m, g) == q[0]
  }

  /** The top is linked to its sub-queue. */
  lemma GroupLinks(next: Arena, next': Arena, top: Ref, s: seq<Ref>, itor: Ref)
    requires Chained(next, s) && |next'| == |next| && top < |next| && top !in s && itor !in s
    requires forall x | 0 <= x < |next| && x != top && x != itor :: next'[x] == next[x]
    requires s != [] ==> next'[top] == s[0]
    ensures forall i | 0 <= i < |[top] + s| - 1 :: next'[([top] + s)[i]] == ([top] + s)[i + 1]
  {
    var g := [top] + s;
    forall i | 0 <= i < |g| - 1 ensures next'[g[i]] == g[i + 1] {
      if i > 0 {
        assert g[i] == s[i - 1] && g[i + 1] == s[i] && next[s[i - 1]] == s[i];
      }
    }
  }

  lemma TakeDone(m: Cells, m1: Cells, pool: seq<Ref>, tops: seq<Ref>, sub: map<int, seq<Ref>>, q: Queue, b: seq<Ref>)
    requires m.Ok() && Batch(m, b) && Rest(m, pool, tops, sub, q) && tops != []
    requires m1 == m.(next := m1.next) && |m1.next| == |m.next|
    requires forall x | 0 <= x < |m1.next| && x != tops[0] && x != Last(b) :: m1.next[x] == m.next[x]
    requires Last(b) != NIL ==> m1.next[Last(b)] == tops[0]
    requires sub[m.Handle(tops[0])] != [] ==> m1.next[tops[0]] == sub[m.Handle(tops[0])][0]
    ensures var g := GroupNodes(m, sub, tops[0]);
            TookGroup(m, HandOut(m1, g), pool[m.Handle(tops[0]) := NIL], tops, sub, q, b, g)
  {
    var g := GroupNodes(m, sub, tops[0]);
    var s := sub[m.Handle(tops[0])];
    var m' := HandOut(m1, g);
    GroupNodesFacts(m, tops, sub, q);
    TakeFacts(m, b, g);
    assert Taken(m, m', Last(b), g);
    assert GroupOk(m, m.Handle(tops[0]), tops[0], s, q[0]);
    GroupLinks(m.next, m1.next, tops[0], s, Last(b));
    TakeBatch(m, m', b, g);
    TakeRest(m, m', pool, tops, sub, q, Last(b));
  }

  lemma LinkReady(m: Cells, pool: seq<Ref>, tops: seq<Ref>, sub: map<int, seq<Ref>>, q: Queue, b: seq<Ref>)
    requires m.Ok() && Batch(m, b) && Rest(m, pool, tops, sub, q) && tops != []
    ensures var s := sub[m.Handle(tops[0])];
            && 0 < tops[0] < |m.req| && m.header[tops[0]] == First(s) && Chained(m.next, s) && Distinct([tops[0]] + s)
            && Last(b) < |m.req| && Last(b) != tops[0] && Last(b) !in s
            && m.next[tops[0]] == First(tops[1..])
            && q != [] && 0 <= m.Handle(tops[0]) < |pool|
  {
    var g := GroupNodes(m, sub, tops[0]);
    GroupNodesFacts(m, tops, sub, q);
    TakeFacts(m, b, g);
    assert GroupOk(m, m.Handle(tops[0]), tops[0], sub[m.Handle(tops[0])], q[0]);
  }

  lemma TakeFacts(m: Cells, b: seq<Ref>, g: seq<Ref>)
    requires m.Ok() && Batch(m, b)
    requires forall x | x in g :: 0 < x < |m.req| && m.place[x] == Queued
    ensures Last(b) < |m.req| && (Last(b) == NIL || m.place[Last(b)] == Out) && (b == [] <==> Last(b) == NIL)
    ensures Last(b) !in g
  {}

  /** Popping has moved the first k groups of the queue q0 into the batch b. */
  ghost predicate PopState(m0: Cells, m: Cells, pool: seq<Ref>, tops: seq<Ref>, sub: map<int, seq<Ref>>, q: Queue,
                           k: nat, b: seq<Ref>)
    requires m0.Ok()
  {
    && m.Ok() && k <= |tops| == |q| && Batch(m, b) && Rest(m, pool, tops[k..], sub, q[k..])
    && m.req == m0.req && Kept(m0, m, NIL)
    && (forall i | 0 <= i < |b| :: m0.place[b[i]] == Queued)
    && (forall x | 0 <= x < |m.req| :: m.place[x] == if x in b then Out else m0.place[x])
    && Spell(m, b) == Flatten(q[..k])
  }

  lemma PopStep(m0: Cells, m: Cells, m': Cells, pool: seq<Ref>, pool': seq<Ref>, tops: seq<Ref>,
                sub: map<int, seq<Ref>>, q: Queue,
                k: nat, b: seq<Ref>, g: seq<Ref>)
    requires m0.Ok() && PopState(m0, m, pool, tops, sub, q, k, b) && k < |tops|
    requires TookGroup(m, m', pool', tops[k..], sub, q[k..], b, g)
    ensures PopState(m0, m', pool', tops, sub, q, k + 1, b + g)
  {
    assert tops[k..][1..] == tops[k + 1..] && q[k..][1..] == q[k + 1..];
    var c := b + g;
    assert forall i | 0 <= i < |c| :: c[i] == if i < |b| then b[i] else g[i - |b|];
    forall i | 0 <= i < |g| ensures m0.place[g[i]] == Queued {}
    PopKept(m0, m, m', b, g);
    FlattenSnoc(q, k);
    SpellConcat(m', b, g);
    assert Spell(m', b) == Spell(m, b) && Spell(m', g) == Spell(m, g);
  }

  lemma PopKept(m0: Cells, m: Cells, m': Cells, b: seq<Ref>, g: seq<Ref>)
    requires m0.Ok() && m.Ok() && m'.Ok() && Kept(m0, m, NIL) && |m.req| == |m0.req| && Taken(m, m', Last(b), g)
    requires forall i | 0 <= i < |b| :: 0 < b[i] < |m0.req| && m0.place[b[i]] == Queued
    requires forall i | 0 <= i < |g| :: g[i] < |m0.req| && m0.place[g[i]] == Queued
    ensures Kept(m0, m', NIL)
  {}

  lemma {:induction false} FlattenSnoc(q: Queue, k: nat)
    requires k < |q|
    ensures Flatten(q[..k + 1]) == Flatten(q[..k]) + q[k]
  {
    if k == 0 {
      assert q[..1] == [q[0]];
      assert Flatten([q[0]]) == q[0] + Flatten([]);
    } else {
      FlattenSnoc(q[1..], k - 1);
      assert q[..k + 1][1..] == q[1..][..k] && q[..k][1..] == q[1..][..k - 1];
      assert Flatten(q[..k + 1]) == q[0] + Flatten(q[1..][..k]);
      assert Flatten(q[..k]) == q[0] + Flatten(q[1..][..k - 1]);
    }
  }

  lemma EndBatch(m: Cells, b: seq<Ref>)
    requires m.Ok() && Batch(m, b) && b != []
    ensures Chained(m.next[Last(b) := NIL], b)
  {}

  /** Making the first remaining group the head of the list. */
  lemma RestWired(m: Cells, m': Cells, pool: seq<Ref>, t: seq<Ref>, sub: map<int, seq<Ref>>, q: Queue, last: Ref)
    requires m.Ok() && Rest(m, pool, t, sub, q) && 0 < last < |m.req| && m.place[last] == Out
    requires m' == m.(next := m.next[last := NIL], prev := if t == [] then m.prev else m.prev[t[0] := NIL])
    ensures Wired(m', pool, First(t), t, sub, q)
  {
    RestTops(m, t, sub, q);
    ChainFrame(m.next, t, last, NIL);
    GroupedFrame(m, m', t, sub, q);
    assert Indexed(m', pool, t);
  }

  lemma RestTops(m: Cells, t: seq<Ref>, sub: map<int, seq<Ref>>, q: Queue)
    requires m.Ok() && Grouped(m, t, sub, q)
    ensures forall x | x in t :: x < |m.place| && m.place[x] == Queued
  {
    forall i | 0 <= i < |t| ensures m.place[t[i]] == Queued {
      assert GroupOk(m, m.Handle(t[i]), t[i], sub[m.Handle(t[i])], q[i]);
    }
  }

  /** Ending the batch and making the first remaining group the head of the list. */
  lemma PopDone(m0: Cells, m: Cells, m': Cells, pool: seq<Ref>, tops: seq<Ref>, sub: map<int, seq<Ref>>, q: Queue,
                k: nat, b: seq<Ref>)
    requires m0.Ok() && PopState(m0, m, pool, tops, sub, q, k, b) && b != []
    requires var t := tops[k..];
             m' == m.(next := m.next[Last(b) := NIL], prev := if t == [] then m.prev else m.prev[t[0] := NIL])
    ensures Wired(m', pool, First(tops[k..]), tops[k..], sub, q[k..])
    ensures Chained(m'.next, b) && Distinct(b) && Handed(m0, m', b) && Spell(m', b) == Flatten(q[..k])
  {
    assert Last(b) == b[|b| - 1];
    EndBatch(m, b);
    RestWired(m, m', pool, tops[k..], sub, q[k..], Last(b));
    assert Kept(m0, m', NIL) && Handed(m0, m', b);
    assert Spell(m', b) == Spell(m, b);
  }

  lemma PopStart(m: Cells, pool: seq<Ref>, head: Ref, tops: seq<Ref>, sub: map<int, seq<Ref>>, q: Queue)
    requires Wired(m, pool, head, tops, sub, q) && tops != []
    ensures PopState(m, m, pool, tops, sub, q, 0, []) && tops[0..] == tops && q[0..] == q
  {
    assert tops[0..] == tops && q[0..] == q && q[..0] == [];
    assert m.prev[tops[0] := NIL] == m.prev;
  }

  /** marks[j] requests are in hand after j groups; more were taken only while these were fewer than num. */
  ghost predicate Counted(q: Queue, marks: seq<nat>, num: int) {
    && 0 < |marks| <= |q| + 1 && marks[0] == 0
    && forall j | 0 <= j < |marks| - 1 :: marks[j] < num && marks[j + 1] == marks[j] + |q[j]|
  }

  /**
   * The state of pop_some_request's loop: the groups counted so far are in the batch b, which ends in itor; top
   * is next.
   */
  ghost predicate Popping(m0: Cells, m: Cells, pool: seq<Ref>, tops: seq<Ref>, sub: map<int, seq<Ref>>, q: Queue,
                          num: int, marks: seq<nat>, b: seq<Ref>, itor: Ref, top: Ref)
    requires m0.Ok()
  {
    && Counted(q, marks, num) && Last(marks) == |b|
    && PopState(m0, m, pool, tops, sub, q, |marks| - 1, b)
    && itor == Last(b) && top == First(tops[|marks| - 1..])
  }

  lemma PoppingStart(m: Cells, pool: seq<Ref>, tops: seq<Ref>, sub: map<int, seq<Ref>>, q: Queue, num: int)
    requires m.Ok() && PopState(m, m, pool, tops, sub, q, 0, [])
    ensures Popping(m, m, pool, tops, sub, q, num, [0], [], NIL, First(tops))
  {
    var marks: seq<nat> := [0];
    assert tops[|marks| - 1..] == tops;
    assert Counted(q, marks, num) && Last(marks) == 0;
  }

  /** As long as there is a top, there is a group to take. */
  lemma PoppingReady(m0: Cells, m: Cells, pool: seq<Ref>, tops: seq<Ref>, sub: map<int, seq<Ref>>, q: Queue,
                     num: int, marks: seq<nat>, b: seq<Ref>, itor: Ref, top: Ref)
    requires m0.Ok() && Popping(m0, m, pool, tops, sub, q, num, marks, b, itor, top) && top != NIL
    ensures |marks| <= |q| == |tops| && m.Ok() && Batch(m, b) && itor == Last(b)
    ensures var rest := tops[|marks| - 1..];
            Rest(m, pool, rest, sub, q[|marks| - 1..]) && rest != [] && top == rest[0]
  {}

  lemma GroupTaken(m: Cells, m': Cells, pool': seq<Ref>, tops: seq<Ref>, sub: map<int, seq<Ref>>, q: Queue,
                   b: seq<Ref>, g: seq<Ref>)
    requires m.Ok() && tops != [] && q != [] && TookGroup(m, m', pool', tops, sub, q, b, g)
    ensures g != [] && g[0] == tops[0] && |g| == |q[0]|
  {}

  /** One more group, g, is in the batch. */
  lemma PoppingStep(m0: Cells, m: Cells, pool: seq<Ref>, tops: seq<Ref>, sub: map<int, seq<Ref>>, q: Queue,
                    num: int, marks: seq<nat>, k: nat, b: seq<Ref>, g: seq<Ref>)
    requires m0.Ok() && Counted(q, marks, num) && Last(marks) == |b| < num
    requires k == |marks| - 1 < |q| && g != [] && |g| == |q[k]| && PopState(m0, m, pool, tops, sub, q, k + 1, b + g)
    ensures Popping(m0, m, pool, tops, sub, q, num, marks + [|b + g|], b + g, Last(g), First(tops[k + 1..]))
  {
    CountedStep(q, marks, num, |g|);
    LastTaken(b, g);
    NowPopping(m0, m, pool, tops, sub, q, num, marks + [|b + g|], b + g);
  }

  lemma LastTaken(b: seq<Ref>, g: seq<Ref>)
    requires g != []
    ensures Last(b + g) == Last(g)
  {}

  lemma NowPopping(m0: Cells, m: Cells, pool: seq<Ref>, tops: seq<Ref>, sub: map<int, seq<Ref>>, q: Queue,
                   num: int, marks: seq<nat>, b: seq<Ref>)
    requires m0.Ok() && Counted(q, marks, num) && Last(marks) == |b|
             && PopState(m0, m, pool, tops, sub, q, |marks| - 1, b)
    ensures Popping(m0, m, pool, tops, sub, q, num, marks, b, Last(b), First(tops[|marks| - 1..]))
  {}

  lemma CountedStep(q: Queue, marks: seq<nat>, num: int, n: nat)
    requires Counted(q, marks, num) && |marks| <= |q| && Last(marks) < num && n == |q[|marks| - 1]|
    ensures Counted(q, marks + [Last(marks) + n], num)
  {}

  lemma PoppingEnd(m0: Cells, m: Cells, pool: seq<Ref>, tops: seq<Ref>, sub: map<int, seq<Ref>>, q: Queue,
                   num: int, marks: seq<nat>, b: seq<Ref>, itor: Ref, top: Ref)
    requires m0.Ok() && Popping(m0, m, pool, tops, sub, q, num, marks, b, itor, top) && (|b| >= num || top == NIL)
    requires num > 0 && First(tops) != NIL && NonemptyGroups(q)
    ensures |marks| - 1 == PopGroups(q, num) && b != []
  {
    if |b| < num {
      TopsEnd(m, pool, tops, sub, q, |marks| - 1);
    }
    MarksArePopped(q, marks, num, 0);
    assert |b| < num ==> |marks| > 1;
  }

  /** The groups taken are those that PopGroups tells. */
  lemma {:induction false} MarksArePopped(q: Queue, marks: seq<nat>, num: int, j: nat)
    requires Counted(q, marks, num) && j < |marks| && (Last(marks) >= num || |marks| == |q| + 1)
    ensures PopGroups(q[j..], num - marks[j]) == |marks| - 1 - j
    ensures j == 0 ==> PopGroups(q, num) == |marks| - 1
    decreases |marks| - j
  {
    assert j == 0 ==> q[j..] == q;
    if j + 1 < |marks| {
      MarksArePopped(q, marks, num, j + 1);
      assert q[j..][1..] == q[j + 1..];
    }
  }

  lemma FirstOfNone(next: Arena, s: seq<Ref>)
    requires Nodes(next, s) && First(s) == NIL
    ensures s == []
  {}

  lemma TopsEnd(m: Cells, pool: seq<Ref>, tops: seq<Ref>, sub: map<int, seq<Ref>>, q: Queue, k: nat)
    requires m.Ok() && k <= |tops| == |q| && Rest(m, pool, tops[k..], sub, q[k..]) && First(tops[k..]) == NIL
    ensures k == |tops| && q[k..] == []
  {
    FirstOfNone(m.next, tops[k..]);
  }

  lemma SpellConcat(m: Cells, a: seq<Ref>, b: seq<Ref>)
    requires forall i | 0 <= i < |a| :: a[i] < |m.req|
    requires forall i | 0 <= i < |b| :: b[i] < |m.req|
    ensures Spell(m, a + b) == Spell(m, a) + Spell(m, b)
  {}

  // ---------- The node pool ----------

  /** The queue does not depend on nodes outside it. */
  lemma WiredFrame(m: Cells, m': Cells, pool: seq<Ref>, head: Ref, tops: seq<Ref>, sub: map<int, seq<Ref>>, q: Queue)
    requires Wired(m, pool, head, tops, sub, q) && m'.Ok() && |m.req| <= |m'.req|
    requires forall x | 0 <= x < |m.req| && m.place[x] == Queued ::
      && m'.next[x] == m.next[x] && m'.prev[x] == m.prev[x] && m'.header[x] == m.header[x]
      && m'.req[x] == m.req[x] && m'.place[x] == Queued
    ensures Wired(m', pool, head, tops, sub, q)
  {
    RestTops(m, tops, sub, q);
    GroupedFrame(m, m', tops, sub, q);
    LinkedFrame(m.next, m.prev, m'.next, m'.prev, tops);
    IndexedFrame(m, m', pool, tops);
  }

  lemma IndexedFrame(m: Cells, m': Cells, pool: seq<Ref>, tops: seq<Ref>)
    requires Indexed(m, pool, tops) && |m.req| <= |m'.req|
             && forall i | 0 <= i < |tops| :: m'.req[tops[i]] == m.req[tops[i]]
    ensures Indexed(m', pool, tops)
  {}

  function Grown(m: Cells): Cells
    requires m.Ok()
  {
    Cells(m.next + [NIL], m.prev + [NIL], m.header + [NIL], m.req + [m.req[0]], m.place + [Free])
  }

  lemma GrowOk(m: Cells, pool: seq<Ref>, head: Ref, tops: seq<Ref>, sub: map<int, seq<Ref>>, q: Queue)
    requires Wired(m, pool, head, tops, sub, q) && FreeOk(m, NIL, [])
    ensures Wired(Grown(m), pool, head, tops, sub, q) && Kept(m, Grown(m), NIL)
    ensures FreeOk(Grown(m), |m.req|, [|m.req|])
  {
    WiredFrame(m, Grown(m), pool, head, tops, sub, q);
  }

  /** The node, cleared and holding request r. */
  function Reset(m: Cells, opt: Ref, r: Request): Cells
    requires m.Ok() && opt < |m.req|
  {
    Cells(m.next[opt := NIL], m.prev[opt := NIL], m.header[opt := NIL], m.req[opt := r], m.place[opt := Out])
  }

  lemma AllocOk(m: Cells, pool: seq<Ref>, head: Ref, tops: seq<Ref>, sub: map<int, seq<Ref>>, q: Queue,
                free: seq<Ref>, r: Request)
    requires Wired(m, pool, head, tops, sub, q) && free != [] && FreeOk(m, free[0], free)
    ensures var m' := Reset(m, free[0], r);
            Wired(m', pool, head, tops, sub, q) && FreeOk(m', m.next[free[0]], free[1..]) && Kept(m, m', free[0])
  {
    var m' := Reset(m, free[0], r);
    FreePop(m, m', free);
    WiredFrame(m, m', pool, head, tops, sub, q);
  }

  lemma FreePop(m: Cells, m': Cells, free: seq<Ref>)
    requires m.Ok() && m'.Ok() && free != [] && FreeOk(m, free[0], free) && |m'.req| == |m.req|
    requires m'.next == m.next[free[0] := NIL] && m'.place == m.place[free[0] := Out]
    ensures FreeOk(m', First(free[1..]), free[1..]) && m.next[free[0]] == First(free[1..])
  {
    var t := free[1..];
    ChainTail(m.next, m'.next, free);
    forall x | 0 < x < |m'.req| && m'.place[x] == Free ensures x in t {
      var i :| 0 <= i < |free| && free[i] == x;
      assert i > 0 && t[i - 1] == x;
    }
  }

  lemma FreePush(m: Cells, m': Cells, head: Ref, free: seq<Ref>, p: Ref)
    requires m.Ok() && m'.Ok() && FreeOk(m, head, free) && |m'.req| == |m.req|
    requires 0 < p < |m.req| && m.place[p] == Out
    requires m'.next == m.next[p := head] && m'.place == m.place[p := Free]
    ensures FreeOk(m', p, [p] + free)
  {
    ChainPrepend(m.next, free, p);
  }

  ghost function Freed(place: seq<Place>, b: seq<Ref>): seq<Place> {
    seq(|place|, x requires 0 <= x < |place| => if x in b then Free else place[x])
  }

  /** A whole batch is put in front of the free list. */
  lemma FreeBatch(m: Cells, m': Cells, head: Ref, free: seq<Ref>, b: seq<Ref>)
    requires m.Ok() && m'.Ok() && FreeOk(m, head, free) && |m'.req| == |m.req|
    requires b != [] && Chained(m.next, b) && Distinct(b) && forall i | 0 <= i < |b| :: m.place[b[i]] == Out
    requires m'.next == m.next[Last(b) := head]
    requires m'.place == Freed(m.place, b)
    ensures FreeOk(m', b[0], b + free)
  {
    assert Distinct(b + free);
    ChainJoin(m.next, b, free);
    assert forall i | 0 <= i < |b + free| :: (b + free)[i] == if i < |b| then b[i] else free[i - |b|];
  }

  lemma FreeBatchOk(m: Cells, pool: seq<Ref>, head: Ref, tops: seq<Ref>, sub: map<int, seq<Ref>>, q: Queue,
                    freeList: Ref, free: seq<Ref>, b: seq<Ref>)
    requires Wired(m, pool, head, tops, sub, q) && FreeOk(m, freeList, free)
    requires b != [] && Chained(m.next, b) && Distinct(b) && forall i | 0 <= i < |b| :: m.place[b[i]] == Out
    ensures var m' := m.(next := m.next[Last(b) := freeList], place := Freed(m.place, b));
            Wired(m', pool, head, tops, sub, q) && FreeOk(m', b[0], b + free)
  {
    var m' := m.(next := m.next[Last(b) := freeList], place := Freed(m.place, b));
    FreeBatch(m, m', freeList, free, b);
    WiredFrame(m, m', pool, head, tops, sub, q);
  }

  lemma WithdrawFree(m: Cells, m': Cells, head: Ref, free: seq<Ref>, item: Ref)
    requires m.Ok() && m'.Ok() && FreeOk(m, head, free) && Kept(m, m', NIL) && |m'.req| == |m.req|
    requires 0 < item < |m.req| && m.place[item] == Queued && m'.place == m.place[item := Out]
    ensures FreeOk(m', head, free)
  {}

  /** The batch b has left the queue, and nothing outside the queue was written. */
  ghost predicate Handed(m: Cells, m': Cells, b: seq<Ref>)
    requires m.Ok() && m'.Ok()
  {
    && |m'.req| == |m.req| && Kept(m, m', NIL)
    && (forall i | 0 <= i < |b| :: 0 < b[i] < |m.req| && m.place[b[i]] == Queued && m'.place[b[i]] == Out)
    && (forall x | 0 < x < |m.req| && x !in b :: m'.place[x] == m.place[x])
  }

  lemma PopFree(m: Cells, m': Cells, head: Ref, free: seq<Ref>, b: seq<Ref>)
    requires m.Ok() && m'.Ok() && FreeOk(m, head, free) && Handed(m, m', b)
    ensures FreeOk(m', head, free)
  {
    forall i | 0 <= i < |free| ensures m'.next[free[i]] == m.next[free[i]] && m'.place[free[i]] == Free {
      assert free[i] !in b;
    }
    forall x | 0 < x < |m'.req| && m'.place[x] == Free ensures x in free {
      assert x !in b;
    }
  }
}
