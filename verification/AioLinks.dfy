/**
 * The linked structure behind the request queue: a doubly linked list of group
 * tops, each with a singly linked sub-queue, indexed by file handle.  This
 * module says what it means for the structure to spell out an abstract queue,
 * and proves what each relinking pattern does to that queue.
 */
module AioLinks {
  import opened AioSpec
  import opened Lists

  /** Where a request node is: on the free list, in the queue, or in the hands of a worker or submitter. */
  datatype Place = Free | Queued | Out

  /** The request nodes, one sequence per field. */
  datatype Cells = Cells(next: Arena, prev: Arena, header: Arena, req: seq<Request>, ghost place: seq<Place>) {
    ghost predicate Ok() {
      |next| == |prev| == |header| == |req| == |place| > 0
    }

    function SetNext(p: Ref, q: Ref): Cells requires p < |next| { this.(next := next[p := q]) }
    function SetPrev(p: Ref, q: Ref): Cells requires p < |prev| { this.(prev := prev[p := q]) }
    function SetHeader(p: Ref, q: Ref): Cells requires p < |header| { this.(header := header[p := q]) }
    function SetFdPrio(p: Ref, prio: int): Cells requires p < |req| {
      this.(req := req[p := req[p].(fdPrio := prio)])
    }

    ghost function Handle(x: Ref): int requires x < |req| { req[x].ticket.handle }
  }

  /** The group of handle h: its top, then its sub-queue s, together of value v. */
  ghost predicate GroupOk(m: Cells, h: int, top: Ref, s: seq<Ref>, v: Group)
    requires m.Ok()
  {
    && |v| == |s| + 1
    && 0 < top < |m.req| && m.req[top] == v[0] && m.header[top] == First(s) && m.place[top] == Queued
    && Chained(m.next, s) && Distinct(s)
    && (forall j | 0 <= j < |s| :: m.req[s[j]] == v[j + 1] && s[j] != top && m.place[s[j]] == Queued)
    && (forall j | 0 <= j < |v| :: v[j].ticket.handle == h)
  }

  /** A group keeps its value as long as nothing it is made of is written. */
  lemma GroupFrame(m: Cells, m': Cells, h: int, top: Ref, s: seq<Ref>, v: Group)
    requires m.Ok() && m'.Ok() && |m.req| <= |m'.req| && GroupOk(m, h, top, s, v)
    requires m'.header[top] == m.header[top] && m'.req[top] == m.req[top] && m'.place[top] == m.place[top]
    requires forall j | 0 <= j < |s| ::
      m'.next[s[j]] == m.next[s[j]] && m'.req[s[j]] == m.req[s[j]] && m'.place[s[j]] == m.place[s[j]]
    ensures GroupOk(m', h, top, s, v)
  {}

  ghost predicate DistinctHandles(m: Cells, tops: seq<Ref>) {
    && (forall i | 0 <= i < |tops| :: tops[i] < |m.req|)
    && (forall i, j | 0 <= i < j < |tops| :: m.Handle(tops[i]) != m.Handle(tops[j]))
  }

  /** The queue value is spelled out by the groups of the listed tops. */
  ghost predicate Grouped(m: Cells, tops: seq<Ref>, sub: map<int, seq<Ref>>, q: Queue)
    requires m.Ok()
  {
    && |q| == |tops|
    && DistinctHandles(m, tops)
    && (forall i | 0 <= i < |tops| ::
          m.Handle(tops[i]) in sub && GroupOk(m, m.Handle(tops[i]), tops[i], sub[m.Handle(tops[i])], q[i]))
  }

  /** Names a slot of the pool, so that the facts about slots are used only where they are asked for. */
  ghost predicate IsHandle(h: int) { true }

  /** The pool leads from each handle to the top of its group, and to nothing else. */
  ghost predicate Indexed(m: Cells, pool: seq<Ref>, tops: seq<Ref>) {
    && (forall i | 0 <= i < |tops| ::
          0 < tops[i] < |m.req| && 0 <= m.Handle(tops[i]) < |pool| && pool[m.Handle(tops[i])] == tops[i])
    && (forall h {:trigger IsHandle(h)} | 0 <= h < |pool| && IsHandle(h) && pool[h] != NIL ::
          pool[h] in tops && m.Handle(pool[h]) == h)
  }

  /** The structure of the queue: the pool, the doubly linked list of tops, and the groups. */
  ghost predicate Wired(m: Cells, pool: seq<Ref>, head: Ref, tops: seq<Ref>, sub: map<int, seq<Ref>>, q: Queue) {
    && m.Ok()
    && head == First(tops) && Linked(m.next, m.prev, tops)
    && Indexed(m, pool, tops)
    && Grouped(m, tops, sub, q)
  }

  // ---------- Frames ----------

  /** Members of sub-queues are not tops. */
  lemma SubIsNotTop(m: Cells, tops: seq<Ref>, sub: map<int, seq<Ref>>, q: Queue, i: nat, j: nat)
    requires m.Ok() && Grouped(m, tops, sub, q) && i < |tops| && j < |sub[m.Handle(tops[i])]|
    ensures sub[m.Handle(tops[i])][j] !in tops
  {
    var x := sub[m.Handle(tops[i])][j];
    assert m.req[x] == q[i][j + 1];
    forall k | 0 <= k < |tops| ensures tops[k] != x {
      assert k != i ==> m.Handle(tops[k]) != m.Handle(tops[i]);
    }
  }

  /** Relinking tops and nodes outside the queue leaves the groups alone. */
  lemma GroupedFrame(m: Cells, m': Cells, tops: seq<Ref>, sub: map<int, seq<Ref>>, q: Queue)
    requires m.Ok() && m'.Ok() && |m'.req| >= |m.req| && Grouped(m, tops, sub, q)
    requires forall x | 0 <= x < |m.req| && m.place[x] == Queued ::
      m'.header[x] == m.header[x] && m'.req[x] == m.req[x] && m'.place[x] == Queued
    requires forall x | 0 <= x < |m.req| && m.place[x] == Queued && x !in tops :: m'.next[x] == m.next[x]
    ensures Grouped(m', tops, sub, q)
  {
    forall i | 0 <= i < |tops|
      ensures m'.Handle(tops[i]) == m.Handle(tops[i])
      ensures GroupOk(m', m.Handle(tops[i]), tops[i], sub[m.Handle(tops[i])], q[i])
    {
      var h := m.Handle(tops[i]);
      forall j | 0 <= j < |sub[h]| ensures m'.next[sub[h][j]] == m.next[sub[h][j]] {
        SubIsNotTop(m, tops, sub, q, i, j);
      }
      GroupFrame(m, m', h, tops[i], sub[h], q[i]);
    }
  }

  // ---------- Opening and closing groups ----------

  /** What leaves a queue's nodes alone, except for the next links of its tops. */
  ghost predicate KeepsGroups(m: Cells, m': Cells, tops: seq<Ref>)
    requires m.Ok() && m'.Ok()
  {
    && |m'.req| == |m.req|
    && m'.header == m.header
    && (forall x | 0 <= x < |m.req| && m.place[x] == Queued && x !in tops :: m'.next[x] == m.next[x])
  }

  lemma OpenIndexed(m: Cells, pool: seq<Ref>, tops: seq<Ref>, s: nat, opt: Ref)
    requires Indexed(m, pool, tops) && s <= |tops| && 0 < opt < |m.req|
    requires 0 <= m.Handle(opt) < |pool| && pool[m.Handle(opt)] == NIL
    ensures Indexed(m, pool[m.Handle(opt) := opt], Insert(tops, s, opt))
    ensures forall i | 0 <= i < |tops| :: m.Handle(tops[i]) != m.Handle(opt)
  {
    InsertFacts(tops, s, opt, Insert(tops, s, opt));
    InsertMembers(tops, s, opt);
  }

  lemma OpenGrouped(m: Cells, tops: seq<Ref>, sub: map<int, seq<Ref>>, q: Queue, s: nat, opt: Ref)
    requires m.Ok() && Grouped(m, tops, sub, q) && s <= |q|
    requires 0 < opt < |m.req| && m.header[opt] == NIL && m.place[opt] == Queued
    requires forall i | 0 <= i < |tops| :: m.Handle(tops[i]) != m.Handle(opt)
    ensures Grouped(m, Insert(tops, s, opt), sub[m.Handle(opt) := []], Insert(q, s, [m.req[opt]]))
  {
    InsertFacts(tops, s, opt, Insert(tops, s, opt));
    InsertFacts(q, s, [m.req[opt]], Insert(q, s, [m.req[opt]]));
  }

  /** A new node in an empty slot becomes a group of its own, in position s. */
  lemma OpenDone(m: Cells, m': Cells, pool: seq<Ref>, tops: seq<Ref>, sub: map<int, seq<Ref>>, q: Queue, s: nat,
                 opt: Ref)
    requires m.Ok() && m'.Ok() && Grouped(m, tops, sub, q) && Indexed(m, pool, tops)
    requires s <= |q| && 0 < opt < |m.req| && m.header[opt] == NIL && m.place[opt] == Out
    requires 0 <= m.Handle(opt) < |pool| && pool[m.Handle(opt)] == NIL
    requires KeepsGroups(m, m', tops) && m'.req == m.req && m'.place == m.place[opt := Queued]
    ensures Indexed(m', pool[m.Handle(opt) := opt], Insert(tops, s, opt))
    ensures Grouped(m', Insert(tops, s, opt), sub[m.Handle(opt) := []], Insert(q, s, [m.req[opt]]))
  {
    OpenIndexed(m, pool, tops, s, opt);
    GroupedFrame(m, m', tops, sub, q);
    OpenGrouped(m', tops, sub, q, s, opt);
  }

  /** A group of one is unlinked. */
  lemma CloseDone(m: Cells, m': Cells, pool: seq<Ref>, tops: seq<Ref>, sub: map<int, seq<Ref>>, q: Queue, k: nat)
    requires m.Ok() && m'.Ok() && Grouped(m, tops, sub, q) && Indexed(m, pool, tops) && k < |tops| && Distinct(tops)
    requires KeepsGroups(m, m', tops) && m'.req == m.req && m'.place == m.place[tops[k] := Out]
    ensures Indexed(m', pool[m.Handle(tops[k]) := NIL], Remove(tops, k))
    ensures Grouped(m', Remove(tops, k), sub, Remove(q, k))
  {
    RemoveFacts(tops, k, Remove(tops, k));
    RemoveFacts(q, k, Remove(q, k));
    DistinctRemove(tops, k, Remove(tops, k));
    CloseGrouped(m, m', tops, sub, q, k);
  }

  lemma CloseGrouped(m: Cells, m': Cells, tops: seq<Ref>, sub: map<int, seq<Ref>>, q: Queue, k: nat)
    requires m.Ok() && m'.Ok() && Grouped(m, tops, sub, q) && k < |tops| && Distinct(tops)
    requires KeepsGroups(m, m', tops) && m'.req == m.req && m'.place == m.place[tops[k] := Out]
    ensures Grouped(m', Remove(tops, k), sub, Remove(q, k))
  {
    var t := Remove(tops, k);
    RemoveFacts(tops, k, t);
    RemoveFacts(q, k, Remove(q, k));
    forall i | 0 <= i < |t| ensures GroupOk(m', m.Handle(t[i]), t[i], sub[m.Handle(t[i])], Remove(q, k)[i]) {
      OtherGroup(m, m', tops, sub, q, k, if i < k then i else i + 1);
    }
  }

  // ---------- Changing one group ----------

  /** Groups other than the k-th are untouched by writes to nodes of its handle and to tops' next links. */
  lemma OtherGroup(m: Cells, m': Cells, tops: seq<Ref>, sub: map<int, seq<Ref>>, q: Queue, k: nat, i: nat)
    requires m.Ok() && m'.Ok() && |m'.req| == |m.req| && Grouped(m, tops, sub, q) && k < |tops| && i < |tops| && i != k
    requires forall x | 0 <= x < |m.req| && m.place[x] == Queued && m.Handle(x) != m.Handle(tops[k]) ::
      m'.header[x] == m.header[x] && m'.req[x] == m.req[x] && m'.place[x] == Queued
      && (x !in tops ==> m'.next[x] == m.next[x])
    ensures m'.Handle(tops[i]) == m.Handle(tops[i])
    ensures GroupOk(m', m.Handle(tops[i]), tops[i], sub[m.Handle(tops[i])], q[i])
  {
    var h := m.Handle(tops[i]);
    assert h != m.Handle(tops[k]);
    forall j | 0 <= j < |sub[h]| ensures sub[h][j] !in tops && m.Handle(sub[h][j]) == h {
      SubIsNotTop(m, tops, sub, q, i, j);
      assert m.req[sub[h][j]] == q[i][j + 1];
    }
    GroupFrame(m, m', h, tops[i], sub[h], q[i]);
  }

  /** The k-th group is replaced as a whole: a new top, a new sub-queue, a new value. */
  lemma ReplaceGroup(m: Cells, m': Cells, tops: seq<Ref>, sub: map<int, seq<Ref>>, q: Queue, k: nat,
                     top': Ref, s': seq<Ref>, v': Group)
    requires m.Ok() && m'.Ok() && |m'.req| == |m.req| && Grouped(m, tops, sub, q) && k < |tops|
    requires forall x | 0 <= x < |m.req| && m.place[x] == Queued && m.Handle(x) != m.Handle(tops[k]) ::
      m'.header[x] == m.header[x] && m'.req[x] == m.req[x] && m'.place[x] == Queued
      && (x !in tops ==> m'.next[x] == m.next[x])
    requires GroupOk(m', m.Handle(tops[k]), top', s', v')
    ensures Grouped(m', tops[k := top'], sub[m.Handle(tops[k]) := s'], q[k := v'])
  {
    forall i | 0 <= i < |tops| && i != k
      ensures m'.Handle(tops[i]) == m.Handle(tops[i])
      ensures GroupOk(m', m.Handle(tops[i]), tops[i], sub[m.Handle(tops[i])], q[i])
    {
      OtherGroup(m, m', tops, sub, q, k, i);
    }
    Replaced(m, m', tops, sub, q, k, top', s', v');
  }

  lemma Replaced(m: Cells, m': Cells, tops: seq<Ref>, sub: map<int, seq<Ref>>, q: Queue, k: nat, top': Ref,
                 s': seq<Ref>, v': Group)
    requires m.Ok() && m'.Ok() && |m'.req| == |m.req| && |q| == |tops| && k < |tops| && DistinctHandles(m, tops)
    requires forall i | 0 <= i < |tops| && i != k ::
      && m'.Handle(tops[i]) == m.Handle(tops[i]) && m.Handle(tops[i]) in sub
      && GroupOk(m', m.Handle(tops[i]), tops[i], sub[m.Handle(tops[i])], q[i])
    requires GroupOk(m', m.Handle(tops[k]), top', s', v')
    ensures Grouped(m', tops[k := top'], sub[m.Handle(tops[k]) := s'], q[k := v'])
  {
    var t := tops[k := top'];
    assert m'.Handle(top') == m.Handle(tops[k]) by {
      assert m'.req[top'] == v'[0];
    }
    forall i | 0 <= i < |t| ensures t[i] < |m'.req| && m'.Handle(t[i]) == m.Handle(tops[i]) {}
    assert DistinctHandles(m', t);
  }

  /** Node x is member j of a group of value v with the given top. */
  ghost predicate MemberOk(m: Cells, top: Ref, x: Ref, r: Request)
    requires m.Ok()
  {
    x < |m.req| && m.req[x] == r && x != top && m.place[x] == Queued
  }

  lemma MakeGroup(m: Cells, h: int, top: Ref, s: seq<Ref>, v: Group)
    requires m.Ok() && |v| == |s| + 1 && Chained(m.next, s) && Distinct(s)
    requires 0 < top < |m.req| && m.req[top] == v[0] && m.header[top] == First(s) && m.place[top] == Queued
    requires forall j | 0 <= j < |s| :: MemberOk(m, top, s[j], v[j + 1])
    requires forall j | 0 <= j < |v| :: v[j].ticket.handle == h
    ensures GroupOk(m, h, top, s, v)
  {
    forall j | 0 <= j < |s| ensures m.req[s[j]] == v[j + 1] && s[j] != top && m.place[s[j]] == Queued {
      assert MemberOk(m, top, s[j], v[j + 1]);
    }
  }

  lemma ChainTakeOver(next: Arena, next': Arena, top: Ref, s: seq<Ref>)
    requires Chained(next, s) && Distinct(s) && |next'| == |next| && 0 < top < |next|
    requires next'[top] == First(s) && forall j | 0 <= j < |s| :: next'[s[j]] == next[s[j]] && s[j] != top
    ensures Chained(next', [top] + s) && Distinct([top] + s)
  {
    var s' := [top] + s;
    assert forall j | 0 < j < |s'| :: s'[j] == s[j - 1];
  }

  /** The new node goes in front of the old top, which becomes the head of the sub-queue. */
  lemma GroupAfterTakeOver(m: Cells, m': Cells, h: int, top: Ref, s: seq<Ref>, v: Group, opt: Ref)
    requires m.Ok() && m'.Ok() && |m'.req| == |m.req| && GroupOk(m, h, top, s, v)
    requires 0 < opt < |m.req| && m.place[opt] == Out && m.Handle(opt) == h && MemberSlot(v, m.req[opt].ticket) == 0
    requires m'.req == m.req[opt := m.req[opt].(fdPrio := m.req[top].fdPrio)]
    requires m'.header[opt] == top && m'.place == m.place[opt := Queued]
    requires m'.next[top] == First(s) && forall j | 0 <= j < |s| :: m'.next[s[j]] == m.next[s[j]]
    ensures GroupOk(m', h, opt, [top] + s, Join(v, m.req[opt]))
  {
    var s', v' := [top] + s, [m'.req[opt]] + v;
    assert Join(v, m.req[opt]) == v';
    ChainTakeOver(m.next, m'.next, top, s);
    forall j | 0 <= j < |s'| ensures MemberOk(m', opt, s'[j], v'[j + 1]) {
      assert j > 0 ==> s'[j] == s[j - 1] && m.req[s[j - 1]] == v[j];
    }
    forall j | 0 <= j < |v'| ensures v'[j].ticket.handle == h {
      assert j > 0 ==> v'[j] == v[j - 1];
    }
    MakeGroup(m', h, opt, s', v');
  }

  lemma JoinedMember(m: Cells, m': Cells, h: int, top: Ref, s: seq<Ref>, v: Group, opt: Ref, p: nat, s': seq<Ref>,
                     v': Group, j: nat)
    requires m.Ok() && m'.Ok() && |m'.req| == |m.req| && GroupOk(m, h, top, s, v)
    requires 0 < opt < |m.req| && m.place[opt] == Out && 0 < p <= |v|
    requires m'.req == m.req && m'.place == m.place[opt := Queued]
    requires s' == Insert(s, p - 1, opt) && v' == Insert(v, p, m.req[opt]) && j < |s'|
    ensures MemberOk(m', top, s'[j], v'[j + 1])
  {
    InsertFacts(s, p - 1, opt, s');
    InsertFacts(v, p, m.req[opt], v');
    if j < p - 1 {
      assert m.req[s[j]] == v[j + 1];
    } else if j > p - 1 {
      assert m.req[s[j - 1]] == v[j];
    }
  }

  /** The new node is linked into the sub-queue, as member p of the group. */
  lemma GroupAfterJoin(m: Cells, m': Cells, h: int, top: Ref, s: seq<Ref>, v: Group, opt: Ref, p: nat)
    requires m.Ok() && m'.Ok() && |m'.req| == |m.req| && GroupOk(m, h, top, s, v)
    requires 0 < opt < |m.req| && m.place[opt] == Out && m.Handle(opt) == h && 0 < p <= |v|
    requires m'.req == m.req && m'.place == m.place[opt := Queued]
    requires m'.header[top] == First(Insert(s, p - 1, opt)) && Chained(m'.next, Insert(s, p - 1, opt))
    ensures GroupOk(m', h, top, Insert(s, p - 1, opt), Insert(v, p, m.req[opt]))
  {
    var s', v' := Insert(s, p - 1, opt), Insert(v, p, m.req[opt]);
    assert opt !in s;
    DistinctInsert(s, p - 1, opt);
    InsertFacts(v, p, m.req[opt], v');
    forall j | 0 <= j < |s'| ensures MemberOk(m', top, s'[j], v'[j + 1]) {
      JoinedMember(m, m', h, top, s, v, opt, p, s', v', j);
    }
    MakeGroup(m', h, top, s', v');
  }

  /** The top leaves and the head of the sub-queue takes its place. */
  lemma GroupAfterPromotion(m: Cells, m': Cells, h: int, top: Ref, s: seq<Ref>, v: Group)
    requires m.Ok() && m'.Ok() && |m'.req| == |m.req| && GroupOk(m, h, top, s, v) && s != []
    requires m'.req == m.req[s[0] := m.req[s[0]].(fdPrio := m.req[top].fdPrio)]
    requires m'.header[s[0]] == First(s[1..]) && m'.place == m.place[top := Out]
    requires forall j | 1 <= j < |s| :: m'.next[s[j]] == m.next[s[j]]
    ensures GroupOk(m', h, s[0], s[1..], Leave(v, 0))
  {
    var s', v' := s[1..], Leave(v, 0);
    assert m.req[s[0]] == v[1] && v'[0].ticket == v[1].ticket;
    forall j | 0 <= j < |s'| ensures MemberOk(m', s[0], s'[j], v'[j + 1]) {
      PromotedMember(m, m', h, top, s, v, j);
    }
    forall j | 0 <= j < |v'| ensures v'[j].ticket.handle == h {
      assert v'[j].ticket == v[j + 1].ticket;
    }
    ChainedFrom(m.next, m'.next, s);
    MakeGroup(m', h, s[0], s', v');
  }

  lemma PromotedMember(m: Cells, m': Cells, h: int, top: Ref, s: seq<Ref>, v: Group, j: nat)
    requires m.Ok() && m'.Ok() && |m'.req| == |m.req| && GroupOk(m, h, top, s, v) && j + 1 < |s|
    requires m'.req == m.req[s[0] := m.req[s[0]].(fdPrio := m.req[top].fdPrio)] && m'.place == m.place[top := Out]
    ensures MemberOk(m', s[0], s[j + 1], v[j + 2])
  {
    assert m.req[s[j + 1]] == v[j + 2];
  }

  lemma ChainedFrom(next: Arena, next': Arena, s: seq<Ref>)
    requires Chained(next, s) && Distinct(s) && s != [] && |next'| == |next|
    requires forall j | 1 <= j < |s| :: next'[s[j]] == next[s[j]]
    ensures Chained(next', s[1..]) && Distinct(s[1..])
  {
    var s' := s[1..];
    assert forall j | 0 <= j < |s'| :: s'[j] == s[j + 1];
  }

  /** Member j, which is not the top, leaves. */
  lemma GroupAfterLeave(m: Cells, m': Cells, h: int, top: Ref, s: seq<Ref>, v: Group, j: nat)
    requires m.Ok() && m'.Ok() && |m'.req| == |m.req| && GroupOk(m, h, top, s, v) && 0 < j <= |s|
    requires m'.req == m.req && m'.place == m.place[s[j - 1] := Out]
    requires m'.header[top] == First(Remove(s, j - 1)) && Chained(m'.next, Remove(s, j - 1))
    ensures GroupOk(m', h, top, Remove(s, j - 1), Leave(v, j))
  {
    var s' := Remove(s, j - 1);
    RemoveFacts(s, j - 1, s');
    DistinctRemove(s, j - 1, s');
    assert Leave(v, j) == Remove(v, j);
    RemoveFacts(v, j, Remove(v, j));
    forall i | 0 <= i < |s'| ensures m'.req[s'[i]] == Leave(v, j)[i + 1] && s'[i] != top && m'.place[s'[i]] == Queued {
      assert i < j - 1 ==> m.req[s[i]] == v[i + 1];
      assert i >= j - 1 ==> m.req[s[i + 1]] == v[i + 2];
    }
  }

  /** Another node of the same handle takes over the k-th place among the tops. */
  lemma IndexedReplace(m: Cells, m': Cells, pool: seq<Ref>, tops: seq<Ref>, k: nat, x: Ref)
    requires Indexed(m, pool, tops) && k < |tops| && 0 < x < |m.req| && m.Handle(x) == m.Handle(tops[k])
    requires |m'.req| == |m.req| && forall y | 0 <= y < |m.req| :: m'.req[y].ticket == m.req[y].ticket
    requires DistinctHandles(m, tops)
    ensures Indexed(m', pool[m.Handle(x) := x], tops[k := x])
  {
    var t, h := tops[k := x], m.Handle(x);
    assert t[k] == x;
    forall g | 0 <= g < |pool| && IsHandle(g) && pool[h := x][g] != NIL
      ensures pool[h := x][g] in t && m'.Handle(pool[h := x][g]) == g
    {
      if g != h {
        assert pool[g] in tops;
        var i :| 0 <= i < |tops| && tops[i] == pool[g];
        assert t[i] == tops[i];
      }
    }
  }
}
