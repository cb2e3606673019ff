/** Where a posted request goes, and the order in which the requests of one file are handed out. */
module AioOrder {
  import opened AioSpec
  import opened AioSpecLemmas

  // ---------- The place of a request in its group ----------

  /** A member of a higher I/O priority stays ahead of t, and one of the same priority that reads no further on. */
  predicate Ahead(other: Ticket, t: Ticket) {
    other.ioPrio > t.ioPrio || (other.ioPrio == t.ioPrio && other.offset <= t.offset)
  }

  /**
   * The place of a request in the group of its handle, by priorities and offsets alone.  Only a higher I/O
   * priority makes a request the top or the head of the sub-queue; behind them it goes in front of the first
   * member of a lower priority, or of the same priority and a greater offset.
   */
  ghost predicate PlacedAt(g: Group, t: Ticket, k: nat)
    requires g != []
  {
    && k <= |g|
    && (k == 0 <==> t.ioPrio > g[0].ticket.ioPrio)
    && (k == 1 <==> t.ioPrio <= g[0].ticket.ioPrio && (|g| == 1 || t.ioPrio > g[1].ticket.ioPrio))
    && (k >= 2 ==>
          && (forall j | 2 <= j < k :: Ahead(g[j].ticket, t))
          && (k < |g| ==> !Ahead(g[k].ticket, t)))
  }

  /** There is one such place. */
  lemma OnePlaceOnly(g: Group, t: Ticket, k: nat, k': nat)
    requires g != [] && PlacedAt(g, t, k) && PlacedAt(g, t, k')
    ensures k == k'
  {}

  /** A request joins its group at that place, and the others keep their order. */
  lemma JoinPlace(g: Group, r: Request) returns (k: nat)
    requires g != []
    ensures PlacedAt(g, r.ticket, k)
    ensures Join(g, r) == g[..k] + [if k == 0 then r.(fdPrio := g[0].fdPrio) else r] + g[k..]
  {
    k := MemberSlot(g, r.ticket);
  }

  /**
   * Posting into a handle's group changes that group only, and puts the request at its place there; the top's
   * descriptor priority stays.  A request for another handle opens a group behind all groups of at least its
   * descriptor priority.
   */
  lemma SubmitPlace(q: Queue, r: Request) returns (i: nat, k: nat)
    requires WellFormed(q)
    ensures (exists j :: 0 <= j < |q| && q[j][0].ticket.handle == r.ticket.handle) <==>
              i < |q| && q[i][0].ticket.handle == r.ticket.handle && |Submit(q, r)| == |q|
    ensures |Submit(q, r)| == |q| ==>
              && i < |q| && q[i][0].ticket.handle == r.ticket.handle && PlacedAt(q[i], r.ticket, k)
              && Submit(q, r) ==
                 q[i := q[i][..k] + [if k == 0 then r.(fdPrio := q[i][0].fdPrio) else r] + q[i][k..]]
    ensures |Submit(q, r)| != |q| ==>
              && i <= |q| && Submit(q, r) == q[..i] + [[r]] + q[i..]
              && (forall j | 0 <= j < i :: q[j][0].fdPrio >= r.fdPrio)
              && (forall j | i <= j < |q| :: q[j][0].fdPrio < r.fdPrio)
  {
    i, k := FindGroup(q, r.ticket.handle), 0;
    if i < |q| {
      k := JoinPlace(q[i], r);
    } else {
      i := WalkGroups(q, r.fdPrio, 0);
      forall j | i <= j < |q| ensures q[j][0].fdPrio < r.fdPrio {
        assert q[i][0].fdPrio >= q[j][0].fdPrio || i == j;
      }
    }
  }

  // ---------- Cancelling ----------

  lemma FlattenThree(a: Queue, g: Group, b: Queue, q: Queue)
    requires q == a + [g] + b
    ensures Flatten(q) == Flatten(a) + g + Flatten(b)
  {
    FlattenConcat(a + [g], b);
    FlattenConcat(a, [g]);
    FlattenOne(g);
  }

  lemma FlattenOne(g: Group)
    ensures Flatten([g]) == g
  {
    assert Flatten([g][1..]) == [];
  }

  lemma Sliced<T>(s: seq<T>, k: nat)
    requires k < |s|
    ensures s == s[..k] + [s[k]] + s[k + 1..]
  {}

  lemma FlattenSplit(q: Queue, k: nat)
    requires k < |q|
    ensures Flatten(q) == Flatten(q[..k]) + q[k] + Flatten(q[k + 1..])
  {
    Sliced(q, k);
    FlattenThree(q[..k], q[k], q[k + 1..], q);
  }

  lemma TicketsSplit(q: Queue, k: nat)
    requires k < |q|
    ensures Tickets(Flatten(q)) == Tickets(Flatten(q[..k])) + Tickets(q[k]) + Tickets(Flatten(q[k + 1..]))
  {
    FlattenSplit(q, k);
    TicketsConcat(Flatten(q[..k]) + q[k], Flatten(q[k + 1..]));
    TicketsConcat(Flatten(q[..k]), q[k]);
  }

  /** Without member j a group is what it was before and behind it. */
  lemma LeaveTickets(g: Group, j: nat)
    requires j < |g|
    ensures Tickets(Leave(g, j)) == Tickets(g)[..j] + Tickets(g)[j + 1..]
  {}

  lemma CutInside<T>(a: seq<T>, g: seq<T>, b: seq<T>, j: nat, s: seq<T>, i: nat)
    requires j < |g| && s == a + g + b && i == |a| + j
    ensures i < |s| && s[i] == g[j] && s[..i] + s[i + 1..] == a + (g[..j] + g[j + 1..]) + b
  {}

  lemma LeaveGroup(q: Queue, k: nat, j: nat, q': Queue, i: nat)
    requires k < |q| && j < |q[k]| && |q[k]| > 1 && q' == q[k := Leave(q[k], j)] && i == |Flatten(q[..k])| + j
    ensures var was := Tickets(Flatten(q));
            i < |was| && was[i] == q[k][j].ticket && Tickets(Flatten(q')) == was[..i] + was[i + 1..]
  {
    TicketsSplit(q, k);
    TicketsSplit(q', k);
    assert q'[..k] == q[..k] && q'[k + 1..] == q[k + 1..];
    LeaveTickets(q[k], j);
    CutInside(Tickets(Flatten(q[..k])), Tickets(q[k]), Tickets(Flatten(q[k + 1..])), j, Tickets(Flatten(q)), i);
  }

  lemma LeaveQueue(q: Queue, k: nat, q': Queue, i: nat)
    requires k < |q| && |q[k]| == 1 && q' == q[..k] + q[k + 1..] && i == |Flatten(q[..k])|
    ensures var was := Tickets(Flatten(q));
            i < |was| && was[i] == q[k][0].ticket && Tickets(Flatten(q')) == was[..i] + was[i + 1..]
  {
    TicketsSplit(q, k);
    FlattenConcat(q[..k], q[k + 1..]);
    TicketsConcat(Flatten(q[..k]), Flatten(q[k + 1..]));
    CutInside(Tickets(Flatten(q[..k])), Tickets(q[k]), Tickets(Flatten(q[k + 1..])), 0, Tickets(Flatten(q)), i);
    LeaveTickets(q[k], 0);
    assert Tickets(Leave(q[k], 0)) == [];
  }

  /** Where the request is that cancelling takes out. */
  lemma FoundAt(q: Queue, h: int, id: int) returns (k: nat, j: nat, q': Queue)
    requires WellFormed(q) && QueuedOn(q, h, id)
    ensures k < |q| && j < |q[k]| && q[k][j].ticket.handle == h && q[k][j].ticket.id == id
    ensures q' == Cancel(q, h, id) == if |q[k]| == 1 then q[..k] + q[k + 1..] else q[k := Leave(q[k], j)]
  {
    FindQueued(q, h, id);
    k := FindGroup(q, h);
    j := FindId(q[k], id);
    q' := Cancel(q, h, id);
  }

  /** Cancelling takes out one request of the handle and id, and all others stay in their order. */
  lemma CancelKeepsOrder(q: Queue, h: int, id: int) returns (i: nat)
    requires WellFormed(q) && QueuedOn(q, h, id)
    ensures var was := Tickets(Flatten(q));
            && i < |was| && was[i].handle == h && was[i].id == id
            && Tickets(Flatten(Cancel(q, h, id))) == was[..i] + was[i + 1..]
  {
    var k, j, q' := FoundAt(q, h, id);
    i := |Flatten(q[..k])| + j;
    if |q[k]| > 1 {
      LeaveGroup(q, k, j, q', i);
    } else {
      LeaveQueue(q, k, q', i);
    }
  }

  // ---------- Posting many requests ----------

  /** The requests are posted one after the other. */
  function Posts(q: Queue, rs: seq<Request>): Queue
    requires NonemptyGroups(q)
    ensures NonemptyGroups(Posts(q, rs))
  {
    if rs == [] then q else Submit(Posts(q, rs[..|rs| - 1]), rs[|rs| - 1])
  }

  /** The requests of one handle. */
  function OfHandle(rs: seq<Request>, h: int): seq<Request> {
    if rs == [] then []
    else
      var before, last := OfHandle(rs[..|rs| - 1], h), rs[|rs| - 1];
      if last.ticket.handle == h then before + [last] else before
  }

  /** The requests at one file offset. */
  function AtOffset(rs: seq<Request>, offset: int): seq<Request> {
    if rs == [] then []
    else
      var before, last := AtOffset(rs[..|rs| - 1], offset), rs[|rs| - 1];
      if last.ticket.offset == offset then before + [last] else before
  }

  lemma {:induction false} OfHandleConcat(a: seq<Request>, b: seq<Request>, h: int)
    ensures OfHandle(a + b, h) == OfHandle(a, h) + OfHandle(b, h)
  {
    if b == [] {
      assert a + b == a;
    } else {
      assert (a + b)[..|a + b| - 1] == a + b[..|b| - 1];
      OfHandleConcat(a, b[..|b| - 1], h);
    }
  }

  lemma {:induction false} AtOffsetConcat(a: seq<Request>, b: seq<Request>, offset: int)
    ensures AtOffset(a + b, offset) == AtOffset(a, offset) + AtOffset(b, offset)
  {
    if b == [] {
      assert a + b == a;
    } else {
      assert (a + b)[..|a + b| - 1] == a + b[..|b| - 1];
      AtOffsetConcat(a, b[..|b| - 1], offset);
    }
  }

  lemma {:induction false} AllOfHandle(rs: seq<Request>, h: int)
    ensures (forall i | 0 <= i < |rs| :: rs[i].ticket.handle == h) ==> OfHandle(rs, h) == rs
    ensures (forall i | 0 <= i < |rs| :: rs[i].ticket.handle != h) ==> OfHandle(rs, h) == []
  {
    if rs != [] {
      AllOfHandle(rs[..|rs| - 1], h);
    }
  }

  lemma {:induction false} NoneAtOffset(rs: seq<Request>, offset: int)
    requires forall i | 0 <= i < |rs| :: rs[i].ticket.offset != offset
    ensures AtOffset(rs, offset) == []
  {
    if rs != [] {
      NoneAtOffset(rs[..|rs| - 1], offset);
    }
  }

  /** What the queue holds of a handle that none of its groups has. */
  lemma {:induction false} NoneOfHandle(q: Queue, h: int)
    requires forall i | 0 <= i < |q| :: q[i] != [] && GroupOf(q[i], q[i][0].ticket.handle)
    requires forall i | 0 <= i < |q| :: q[i][0].ticket.handle != h
    ensures OfHandle(Flatten(q), h) == []
  {
    if q != [] {
      NoneOfHandle(q[1..], h);
      OfHandleConcat(q[0], Flatten(q[1..]), h);
      AllOfHandle(q[0], h);
    }
  }

  lemma OfHandleSplit(q: Queue, k: nat, h: int)
    requires k < |q|
    ensures OfHandle(Flatten(q), h) ==
              OfHandle(Flatten(q[..k]), h) + OfHandle(q[k], h) + OfHandle(Flatten(q[k + 1..]), h)
  {
    FlattenSplit(q, k);
    OfHandleConcat(Flatten(q[..k]) + q[k], Flatten(q[k + 1..]), h);
    OfHandleConcat(Flatten(q[..k]), q[k], h);
  }

  lemma NoneBefore(q: Queue, k: nat, h: int)
    requires EachGroupOk(q) && k <= |q| && forall i | 0 <= i < k :: q[i][0].ticket.handle != h
    ensures OfHandle(Flatten(q[..k]), h) == []
  {
    assert forall i | 0 <= i < k :: q[..k][i] == q[i];
    NoneOfHandle(q[..k], h);
  }

  lemma NoneBehind(q: Queue, k: nat, h: int)
    requires EachGroupOk(q) && k <= |q| && forall i | k <= i < |q| :: q[i][0].ticket.handle != h
    ensures OfHandle(Flatten(q[k..]), h) == []
  {
    assert forall i | 0 <= i < |q| - k :: q[k..][i] == q[k + i];
    NoneOfHandle(q[k..], h);
  }

  /** The group of a handle is what the queue holds of it. */
  lemma GroupIsAll(q: Queue, k: nat)
    requires WellFormed(q) && k < |q|
    ensures OfHandle(Flatten(q), q[k][0].ticket.handle) == q[k]
  {
    var h := q[k][0].ticket.handle;
    OfHandleSplit(q, k, h);
    NoneBefore(q, k, h);
    NoneBehind(q, k + 1, h);
    AllOfHandle(q[k], h);
  }

  /** A group changes: what the queue holds of other handles does not. */
  lemma OthersStay(q: Queue, k: nat, g: Group, h: int)
    requires k < |q| && q[k] != [] && g != [] && GroupOf(q[k], q[k][0].ticket.handle)
    requires GroupOf(g, q[k][0].ticket.handle) && h != q[k][0].ticket.handle
    ensures OfHandle(Flatten(q[k := g]), h) == OfHandle(Flatten(q), h)
  {
    var q': Queue := q[k := g];
    OfHandleSplit(q, k, h);
    OfHandleSplit(q', k, h);
    assert q'[..k] == q[..k] && q'[k + 1..] == q[k + 1..];
    AllOfHandle(q[k], h);
    AllOfHandle(g, h);
  }

  /** A group of one request is new. */
  lemma OneMore(a: Queue, r: Request, b: Queue, q: Queue, h: int)
    requires q == a + [[r]] + b
    ensures OfHandle(Flatten(q), h) ==
              OfHandle(Flatten(a), h) + (if r.ticket.handle == h then [r] else []) + OfHandle(Flatten(b), h)
  {
    FlattenThree(a, [r], b, q);
    OfHandleConcat(Flatten(a) + [r], Flatten(b), h);
    OfHandleConcat(Flatten(a), [r], h);
    OfHandleOne(r, h);
  }

  lemma TwoParts(a: Queue, b: Queue, q: Queue, h: int)
    requires q == a + b
    ensures OfHandle(Flatten(q), h) == OfHandle(Flatten(a), h) + OfHandle(Flatten(b), h)
  {
    FlattenConcat(a, b);
    OfHandleConcat(Flatten(a), Flatten(b), h);
  }

  lemma OfHandleOne(r: Request, h: int)
    ensures OfHandle([r], h) == if r.ticket.handle == h then [r] else []
  {
    assert OfHandle([r][..0], h) == [];
  }

  /** What a posted request does to what the queue holds of a handle. */
  lemma GroupAfter(q: Queue, r: Request, h: int)
    requires WellFormed(q)
    ensures WellFormed(Submit(q, r))
    ensures var g := OfHandle(Flatten(q), h);
            OfHandle(Flatten(Submit(q, r)), h) ==
              if r.ticket.handle != h then g else if g == [] then [r] else Join(g, r)
  {
    SubmitOrdered(q, r);
    var k := FindGroup(q, r.ticket.handle);
    if k < |q| {
      JoinedGroup(q, k, r, h);
    } else {
      var s := WalkGroups(q, r.fdPrio, 0);
      OneMore(q[..s], r, q[s..], Submit(q, r), h);
      assert q == q[..s] + q[s..];
      TwoParts(q[..s], q[s..], q, h);
      if r.ticket.handle == h {
        NoneOfHandle(q, h);
      }
    }
  }

  lemma JoinedGroup(q: Queue, k: nat, r: Request, h: int)
    requires WellFormed(q) && k < |q| && q[k][0].ticket.handle == r.ticket.handle
    ensures var g := OfHandle(Flatten(q), h);
            OfHandle(Flatten(q[k := Join(q[k], r)]), h) == if r.ticket.handle != h then g else Join(q[k], r)
    ensures r.ticket.handle == h ==> OfHandle(Flatten(q), h) == q[k]
  {
    JoinOrdered(q[k], r);
    if r.ticket.handle != h {
      OthersStay(q, k, Join(q[k], r), h);
    } else {
      GroupIsAll(q, k);
      ReplaceOrdered(q, k, Join(q[k], r));
      GroupIsAll(q[k := Join(q[k], r)], k);
    }
  }

  // ---------- Requests of one priority ----------

  ghost predicate OnePriority(rs: seq<Request>, p: int) {
    forall i | 0 <= i < |rs| :: rs[i].ticket.ioPrio == p
  }

  ghost predicate ByOffset(rs: seq<Request>) {
    forall i, j | 0 <= i < j < |rs| :: rs[i].ticket.offset <= rs[j].ticket.offset
  }

  /**
   * g has the posted requests: the first two as they were posted, and the others by their offsets, those at one
   * offset as they were posted.
   */
  ghost predicate Arranged(g: seq<Request>, posted: seq<Request>) {
    && |g| == |posted|
    && (|g| >= 1 ==> g[0] == posted[0])
    && (|g| >= 2 ==>
          && g[1] == posted[1] && ByOffset(g[2..])
          && forall offset :: AtOffset(g[2..], offset) == AtOffset(posted[2..], offset))
  }

  /** A request put into its place by offset. */
  lemma InsertByOffset(s: seq<Request>, k: nat, r: Request, offset: int)
    requires ByOffset(s) && k <= |s|
    requires k < |s| ==> s[k].ticket.offset > r.ticket.offset
    ensures AtOffset(s[..k] + [r] + s[k..], offset) == AtOffset(s, offset) + AtOffset([r], offset)
  {
    assert s == s[..k] + s[k..];
    AtOffsetConcat(s[..k], s[k..], offset);
    AtOffsetConcat(s[..k], [r], offset);
    AtOffsetConcat(s[..k] + [r], s[k..], offset);
    if offset == r.ticket.offset {
      NoneAtOffset(s[k..], offset);
    } else {
      NoneAtOffset([r], offset);
    }
  }

  lemma InsertOrdered(s: seq<Request>, k: nat, r: Request)
    requires ByOffset(s) && k <= |s| && forall j | 0 <= j < k :: s[j].ticket.offset <= r.ticket.offset
    requires k < |s| ==> s[k].ticket.offset > r.ticket.offset
    ensures ByOffset(s[..k] + [r] + s[k..])
  {
    InsertedAt(s, k, r, s[..k] + [r] + s[k..]);
  }

  /** A request of the same priority, at its place behind the first two. */
  lemma PlacedByOffset(g: Group, k: nat, r: Request, p: int)
    requires |g| >= 2 && PlacedAt(g, r.ticket, k) && OnePriority(g, p) && r.ticket.ioPrio == p
    ensures 2 <= k <= |g|
    ensures forall j | 0 <= j < k - 2 :: g[2..][j].ticket.offset <= r.ticket.offset
    ensures k < |g| ==> g[2..][k - 2].ticket.offset > r.ticket.offset
  {
    assert g[0].ticket.ioPrio == p && g[1].ticket.ioPrio == p;
  }

  lemma JoinArranged(g: Group, posted: seq<Request>, r: Request, p: int)
    requires g != [] && Arranged(g, posted) && OnePriority(g, p) && r.ticket.ioPrio == p
    ensures Arranged(Join(g, r), posted + [r]) && OnePriority(Join(g, r), p)
  {
    var k := JoinPlace(g, r);
    assert g[0].ticket.ioPrio == p;
    if |g| >= 2 {
      PlacedByOffset(g, k, r, p);
      ArrangedBehind(g, posted, k, r);
    } else {
      assert k == 1 && Join(g, r) == [g[0], r] && posted + [r] == [posted[0], r];
      assert Join(g, r)[2..] == (posted + [r])[2..] == [];
    }
    forall i | 0 <= i < |g| + 1 ensures Join(g, r)[i].ticket.ioPrio == p {
      assert Join(g, r)[i] == if i < k then g[i] else if i == k then r else g[i - 1];
    }
  }

  lemma ArrangedBehind(g: Group, posted: seq<Request>, k: nat, r: Request)
    requires |g| >= 2 && Arranged(g, posted) && 2 <= k <= |g|
    requires forall j | 0 <= j < k - 2 :: g[2..][j].ticket.offset <= r.ticket.offset
    requires k < |g| ==> g[2..][k - 2].ticket.offset > r.ticket.offset
    ensures Arranged(g[..k] + [r] + g[k..], posted + [r])
  {
    var g', posted', s := g[..k] + [r] + g[k..], posted + [r], g[2..];
    assert g'[2..] == s[..k - 2] + [r] + s[k - 2..];
    assert posted'[2..] == posted[2..] + [r];
    InsertOrdered(s, k - 2, r);
    forall offset ensures AtOffset(g'[2..], offset) == AtOffset(posted'[2..], offset) {
      InsertByOffset(s, k - 2, r, offset);
      AtOffsetConcat(posted[2..], [r], offset);
    }
  }

  /**
   * Requests of one I/O priority, posted on a handle of which nothing waits, with any requests of other handles
   * in between: the queue holds the first two as they were posted and the others by offset.
   */
  lemma {:induction false} PostedArranged(q: Queue, rs: seq<Request>, h: int, p: int)
    requires WellFormed(q) && OfHandle(Flatten(q), h) == [] && OnePriority(OfHandle(rs, h), p)
    ensures WellFormed(Posts(q, rs))
    ensures Arranged(OfHandle(Flatten(Posts(q, rs)), h), OfHandle(rs, h))
    ensures OnePriority(OfHandle(Flatten(Posts(q, rs)), h), p)
  {
    if rs != [] {
      var before, r := rs[..|rs| - 1], rs[|rs| - 1];
      var was, posted := OfHandle(before, h), OfHandle(rs, h);
      assert forall i | 0 <= i < |was| :: posted[i] == was[i];
      PostedArranged(q, before, h, p);
      var q1 := Posts(q, before);
      GroupAfter(q1, r, h);
      if r.ticket.handle == h {
        assert posted[|was|] == r;
        if was != [] {
          JoinArranged(OfHandle(Flatten(q1), h), was, r, p);
        }
      }
    }
  }

  lemma {:induction false} AtOffsetMembers(rs: seq<Request>, r: Request)
    ensures r in rs <==> r in AtOffset(rs, r.ticket.offset)
  {
    if rs != [] {
      var before, last := rs[..|rs| - 1], rs[|rs| - 1];
      assert rs == before + [last];
      AtOffsetMembers(before, r);
    }
  }

  /** In ascending order the last offset is the greatest. */
  lemma LastIsGreatest(a: seq<Request>, r: Request)
    requires ByOffset(a) && r in a
    ensures r.ticket.offset <= a[|a| - 1].ticket.offset
  {}

  lemma LastAtOffset(a: seq<Request>)
    requires a != []
    ensures var s := AtOffset(a, a[|a| - 1].ticket.offset); s != [] && s[|s| - 1] == a[|a| - 1]
  {}

  /** What is last in one is in the other. */
  lemma LastIsThere(a: seq<Request>, b: seq<Request>)
    requires a != [] && AtOffset(a, a[|a| - 1].ticket.offset) == AtOffset(b, a[|a| - 1].ticket.offset)
    ensures a[|a| - 1] in b
  {
    LastAtOffset(a);
    AtOffsetMembers(b, a[|a| - 1]);
  }

  lemma LastOffset(a: seq<Request>, b: seq<Request>)
    requires ByOffset(a) && ByOffset(b) && a != [] && b != []
    requires AtOffset(a, a[|a| - 1].ticket.offset) == AtOffset(b, a[|a| - 1].ticket.offset)
    requires AtOffset(a, b[|b| - 1].ticket.offset) == AtOffset(b, b[|b| - 1].ticket.offset)
    ensures a[|a| - 1] == b[|b| - 1]
  {
    LastIsThere(a, b);
    LastIsThere(b, a);
    LastIsGreatest(b, a[|a| - 1]);
    LastIsGreatest(a, b[|b| - 1]);
    LastAtOffset(a);
    LastAtOffset(b);
  }

  lemma SameFront(u: seq<Request>, v: seq<Request>, w: seq<Request>)
    requires u + w == v + w
    ensures u == v
  {
    assert |u| == |v|;
    assert forall i | 0 <= i < |u| :: (u + w)[i] == u[i] && (v + w)[i] == v[i];
  }

  /** The arrangement by offset is the only one. */
  lemma {:induction false} SameByOffset(a: seq<Request>, b: seq<Request>)
    requires ByOffset(a) && ByOffset(b) && |a| == |b|
    requires forall offset :: AtOffset(a, offset) == AtOffset(b, offset)
    ensures a == b
  {
    if a != [] {
      LastOffset(a, b);
      var x, a', b' := a[|a| - 1], a[..|a| - 1], b[..|b| - 1];
      assert a == a' + [x] && b == b' + [x];
      forall offset ensures AtOffset(a', offset) == AtOffset(b', offset) {
        AtOffsetConcat(a', [x], offset);
        AtOffsetConcat(b', [x], offset);
        SameFront(AtOffset(a', offset), AtOffset(b', offset), AtOffset([x], offset));
      }
      SameByOffset(a', b');
    }
  }

  /**
   * Requests of one handle and one I/O priority, posted by ascending offset, are handed out in that order: a
   * worker takes all of them, or none.
   */
  lemma PoppedByOffset(q: Queue, rs: seq<Request>, h: int, p: int, num: int)
    requires WellFormed(q) && OfHandle(Flatten(q), h) == []
    requires OnePriority(OfHandle(rs, h), p) && ByOffset(OfHandle(rs, h))
    ensures var q' := Posts(q, rs);
            var n := PopGroups(q', num);
            var taken, left := OfHandle(Flatten(q'[..n]), h), OfHandle(Flatten(q'[n..]), h);
            (taken == OfHandle(rs, h) && left == []) || (taken == [] && left == OfHandle(rs, h))
  {
    var q', posted := Posts(q, rs), OfHandle(rs, h);
    PostedArranged(q, rs, h, p);
    var g := OfHandle(Flatten(q'), h);
    if |g| >= 2 {
      SameByOffset(g[2..], posted[2..]);
      assert g == [g[0], g[1]] + g[2..] && posted == [posted[0], posted[1]] + posted[2..];
    }
    assert g == posted;
    GroupsWhole(q', PopGroups(q', num), h);
  }

  /** What the queue holds of a handle is on one side of any cut between groups. */
  lemma GroupsWhole(q: Queue, n: nat, h: int)
    requires WellFormed(q) && n <= |q|
    ensures var g, front, rest := OfHandle(Flatten(q), h), OfHandle(Flatten(q[..n]), h), OfHandle(Flatten(q[n..]), h);
            (front == g && rest == []) || (front == [] && rest == g)
  {
    assert q == q[..n] + q[n..];
    TwoParts(q[..n], q[n..], q, h);
    var k := FindGroup(q, h);
    if k < n {
      NoneBehind(q, n, h);
    } else {
      NoneBefore(q, n, h);
    }
  }
}
