/** What the source promises about the request queue, proved of its abstract operations. */
module AioSpecLemmas {
  import opened AioSpec

  lemma {:induction false} FlattenConcat(a: Queue, b: Queue)
    ensures Flatten(a + b) == Flatten(a) + Flatten(b)
  {
    if a == [] {
      assert a + b == b;
    } else {
      assert (a + b)[1..] == a[1..] + b;
      FlattenConcat(a[1..], b);
    }
  }

  lemma TicketsConcat(a: seq<Request>, b: seq<Request>)
    ensures Tickets(a + b) == Tickets(a) + Tickets(b)
  {}

  /** Replacing one group changes what is held by the difference of the two groups. */
  lemma HeldSplit(q: Queue, k: nat)
    requires k < |q|
    ensures Held(q) == Held(q[..k]) + multiset(Tickets(q[k])) + Held(q[k + 1..])
  {
    assert q == q[..k] + ([q[k]] + q[k + 1..]);
    FlattenConcat(q[..k], [q[k]] + q[k + 1..]);
    FlattenConcat([q[k]], q[k + 1..]);
    assert Flatten([q[k]]) == q[k] + Flatten([]) == q[k];
    TicketsConcat(Flatten(q[..k]), q[k] + Flatten(q[k + 1..]));
    TicketsConcat(q[k], Flatten(q[k + 1..]));
  }

  lemma HeldInsert(q: Queue, k: nat, g: Group)
    requires k <= |q|
    ensures Held(q[..k] + [g] + q[k..]) == Held(q) + multiset(Tickets(g))
  {
    var q' := q[..k] + [g] + q[k..];
    HeldSplit(q', k);
    assert q'[..k] == q[..k] && q'[k + 1..] == q[k..];
    assert q == q[..k] + q[k..];
    FlattenConcat(q[..k], q[k..]);
    TicketsConcat(Flatten(q[..k]), Flatten(q[k..]));
  }

  lemma JoinHeld(g: Group, r: Request)
    requires g != []
    ensures multiset(Tickets(Join(g, r))) == multiset(Tickets(g)) + multiset{r.ticket}
  {
    var k := MemberSlot(g, r.ticket);
    var r' := if k == 0 then r.(fdPrio := g[0].fdPrio) else r;
    assert g == g[..k] + g[k..];
    TicketsConcat(g[..k], g[k..]);
    TicketsConcat(g[..k] + [r'], g[k..]);
    TicketsConcat(g[..k], [r']);
    assert Tickets([r']) == [r.ticket];
  }

  /** A joined group keeps its handle, its order and the descriptor priority of its top. */
  lemma JoinOrdered(g: Group, r: Request)
    requires g != [] && GroupOf(g, r.ticket.handle)
    ensures GroupOf(Join(g, r), r.ticket.handle)
    ensures Join(g, r)[0].fdPrio == g[0].fdPrio
  {
    var k := MemberSlot(g, r.ticket);
    var g' := Join(g, r);
    forall j | 0 <= j < |g'| ensures g'[j].ticket.handle == r.ticket.handle {
      assert g'[j].ticket == if j < k then g[j].ticket else if j == k then r.ticket else g[j - 1].ticket;
    }
    forall i, j | 0 <= i < j < |g'| ensures g'[i].ticket.ioPrio >= g'[j].ticket.ioPrio {
      if j == k {
        assert g'[i] == g[i];
      } else if i == k {
        assert g'[j] == g[j - 1];
        assert k < |g| && g[k].ticket.ioPrio <= r.ticket.ioPrio;
      }
    }
  }

  lemma ReplaceOrdered(q: Queue, k: nat, g: Group)
    requires WellFormed(q) && k < |q| && g != []
    requires GroupOf(g, q[k][0].ticket.handle) && g[0].fdPrio == q[k][0].fdPrio
    ensures WellFormed(q[k := g])
  {
    var q': Queue := q[k := g];
    assert forall i | 0 <= i < |q'| ::
      q'[i] != [] && q'[i][0].ticket.handle == q[i][0].ticket.handle && q'[i][0].fdPrio == q[i][0].fdPrio;
  }

  lemma InsertOrdered(q: Queue, s: nat, g: Group)
    requires WellFormed(q) && s <= |q| && g != [] && GroupOf(g, g[0].ticket.handle)
    requires forall i | 0 <= i < |q| :: q[i][0].ticket.handle != g[0].ticket.handle
    requires forall i | 0 <= i < s :: q[i][0].fdPrio >= g[0].fdPrio
    requires forall i | s <= i < |q| :: g[0].fdPrio >= q[i][0].fdPrio
    ensures WellFormed(q[..s] + [g] + q[s..])
  {
    var q' := q[..s] + [g] + q[s..];
    assert q'[s] == g;
    assert forall i | 0 <= i < s :: q'[i] == q[i];
    assert forall i | s < i < |q'| :: q'[i] == q[i - 1];
  }

  lemma DropOrdered(q: Queue, k: nat)
    requires WellFormed(q) && k < |q|
    ensures WellFormed(q[..k] + q[k + 1..])
  {
    var q' := q[..k] + q[k + 1..];
    assert forall i | 0 <= i < k :: q'[i] == q[i];
    assert forall i | k <= i < |q'| :: q'[i] == q[i + 1];
  }

  lemma SubmitOrdered(q: Queue, r: Request)
    requires WellFormed(q)
    ensures WellFormed(Submit(q, r))
  {
    var k := FindGroup(q, r.ticket.handle);
    if k < |q| {
      JoinOrdered(q[k], r);
      ReplaceOrdered(q, k, Join(q[k], r));
    } else {
      var s := WalkGroups(q, r.fdPrio, 0);
      forall i | s <= i < |q| ensures r.fdPrio >= q[i][0].fdPrio {
        assert q[s][0].fdPrio >= q[i][0].fdPrio || i == s;
      }
      InsertOrdered(q, s, [r]);
    }
  }

  lemma SubmitHeld(q: Queue, r: Request)
    requires NonemptyGroups(q)
    ensures Held(Submit(q, r)) == Held(q) + multiset{r.ticket}
  {
    var k := FindGroup(q, r.ticket.handle);
    var q': Queue := Submit(q, r);
    if k < |q| {
      JoinHeld(q[k], r);
      HeldSplit(q, k);
      HeldSplit(q', k);
      assert q'[..k] == q[..k] && q'[k + 1..] == q[k + 1..];
    } else {
      HeldInsert(q, WalkGroups(q, r.fdPrio, 0), [r]);
      assert Tickets([r]) == [r.ticket];
    }
  }

  /** Posting keeps the queue well formed and adds exactly the posted request. */
  lemma SubmitCorrect(q: Queue, r: Request)
    requires WellFormed(q)
    ensures WellFormed(Submit(q, r))
    ensures Held(Submit(q, r)) == Held(q) + multiset{r.ticket}
  {
    SubmitOrdered(q, r);
    SubmitHeld(q, r);
  }

  /** The order of the other requests is untouched: deleting the new one gives the old group back. */
  lemma JoinThenLeave(g: Group, r: Request)
    requires g != []
    ensures var k := MemberSlot(g, r.ticket); Leave(Join(g, r), k) == g
  {
    var k := MemberSlot(g, r.ticket);
    var g' := Join(g, r);
    if k == 0 {
      assert [g'[1].(fdPrio := g'[0].fdPrio)] + g'[2..] == g;
    } else {
      assert g'[..k] + g'[k + 1..] == g;
    }
  }

  lemma LeaveOrdered(g: Group, j: nat)
    requires 1 < |g| && j < |g| && GroupOf(g, g[0].ticket.handle)
    ensures GroupOf(Leave(g, j), g[0].ticket.handle)
    ensures Leave(g, j)[0].fdPrio == g[0].fdPrio
  {
    var g' := Leave(g, j);
    assert forall i | 0 <= i < |g'| :: g'[i].ticket == if i < j then g[i].ticket else g[i + 1].ticket;
  }

  lemma LeaveHeld(g: Group, j: nat)
    requires j < |g|
    ensures multiset(Tickets(g)) == multiset(Tickets(Leave(g, j))) + multiset{g[j].ticket}
  {
    var t := Tickets(g);
    assert t == t[..j] + ([t[j]] + t[j + 1..]);
    assert Tickets(Leave(g, j)) == t[..j] + t[j + 1..];
  }

  /** Whether a request with this id is queued on this handle. */
  ghost predicate QueuedOn(q: Queue, h: int, id: int) {
    exists t: Ticket :: t in Held(q) && t.handle == h && t.id == id
  }

  lemma HeldMember(q: Queue, k: nat, j: nat)
    requires k < |q| && j < |q[k]|
    ensures q[k][j].ticket in Held(q)
  {
    HeldSplit(q, k);
    assert Tickets(q[k])[j] == q[k][j].ticket;
  }

  lemma {:induction false} HeldWitness(q: Queue, t: Ticket) returns (k: nat, j: nat)
    requires t in Held(q)
    ensures k < |q| && j < |q[k]| && q[k][j].ticket == t
  {
    if q != [] {
      HeldSplit(q, 0);
      assert q[..0] == [];
      if t in Tickets(q[0]) {
        k := 0;
        j :| 0 <= j < |q[0]| && Tickets(q[0])[j] == t;
      } else {
        assert q[1..] == q[0 + 1..];
        k, j := HeldWitness(q[1..], t);
        k := k + 1;
      }
    }
  }

  lemma FindQueued(q: Queue, h: int, id: int)
    requires WellFormed(q)
    ensures QueuedOn(q, h, id) <==> (var k := FindGroup(q, h); k < |q| && FindId(q[k], id) < |q[k]|)
  {
    var k := FindGroup(q, h);
    if QueuedOn(q, h, id) {
      var t: Ticket :| t in Held(q) && t.handle == h && t.id == id;
      var k', j' := HeldWitness(q, t);
      assert k' == k;
    }
    if k < |q| && FindId(q[k], id) < |q[k]| {
      HeldMember(q, k, FindId(q[k], id));
    }
  }

  lemma CancelOrdered(q: Queue, h: int, id: int)
    requires WellFormed(q)
    ensures WellFormed(Cancel(q, h, id))
  {
    var k := FindGroup(q, h);
    if k < |q| && FindId(q[k], id) < |q[k]| {
      var j := FindId(q[k], id);
      if |q[k]| > 1 {
        LeaveOrdered(q[k], j);
        ReplaceOrdered(q, k, Leave(q[k], j));
      } else {
        DropOrdered(q, k);
      }
    }
  }

  lemma CancelHeld(q: Queue, k: nat, id: int)
    requires NonemptyGroups(q) && k < |q| && FindId(q[k], id) < |q[k]| && k == FindGroup(q, q[k][0].ticket.handle)
    ensures var t := q[k][FindId(q[k], id)].ticket;
            Held(q) == Held(Cancel(q, q[k][0].ticket.handle, id)) + multiset{t}
  {
    var j := FindId(q[k], id);
    var q' := Cancel(q, q[k][0].ticket.handle, id);
    if |q[k]| == 1 {
      assert q'[..k] + [q[k]] + q'[k..] == q;
      HeldInsert(q', k, q[k]);
      assert Tickets(q[k]) == [q[k][0].ticket];
    } else {
      HeldSplit(q, k);
      LeaveHeld(q[k], j);
      HeldSplit(q', k);
      assert q'[..k] == q[..k] && q'[k + 1..] == q[k + 1..];
    }
  }

  /**
   * Cancelling keeps the queue well formed.  It removes exactly one request, of
   * the given handle and id, when there is one, and changes nothing otherwise.
   */
  lemma CancelCorrect(q: Queue, h: int, id: int)
    requires WellFormed(q)
    ensures WellFormed(Cancel(q, h, id))
    ensures QueuedOn(q, h, id) ==>
              exists t: Ticket :: t.handle == h && t.id == id && Held(q) == Held(Cancel(q, h, id)) + multiset{t}
    ensures !QueuedOn(q, h, id) ==> Cancel(q, h, id) == q
  {
    FindQueued(q, h, id);
    CancelOrdered(q, h, id);
    if QueuedOn(q, h, id) {
      var k := FindGroup(q, h);
      CancelHeld(q, k, id);
    }
  }

  lemma FindIdAt(g: Group, id: int, s: nat)
    requires s < |g| && g[s].ticket.id == id && forall j | 0 <= j < |g| && j != s :: g[j].ticket.id != id
    ensures FindId(g, id) == s
  {}

  lemma FindGroupAt(q: Queue, h: int, k: nat)
    requires NonemptyGroups(q) && k < |q| && q[k][0].ticket.handle == h
    requires forall j | 0 <= j < |q| && j != k :: q[j][0].ticket.handle != h
    ensures FindGroup(q, h) == k
  {}

  lemma JoinThenFind(g: Group, r: Request)
    requires g != [] && FindId(g, r.ticket.id) == |g|
    ensures FindId(Join(g, r), r.ticket.id) == MemberSlot(g, r.ticket)
  {
    JoinAt(g, r);
    FindIdAt(Join(g, r), r.ticket.id, MemberSlot(g, r.ticket));
  }

  lemma ReplaceThenFindGroup(q: Queue, k: nat, g: Group)
    requires NonemptyGroups(q) && g != [] && k < |q| && k == FindGroup(q, q[k][0].ticket.handle)
    requires TopsOrdered(q) && g[0].ticket.handle == q[k][0].ticket.handle
    ensures NonemptyGroups(q[k := g]) && FindGroup(q[k := g], g[0].ticket.handle) == k
  {
    FindGroupAt(q[k := g], g[0].ticket.handle, k);
  }

  lemma JoinThenCancel(q: Queue, k: nat, r: Request)
    requires WellFormed(q) && k < |q| && k == FindGroup(q, r.ticket.handle)
    requires FindId(q[k], r.ticket.id) == |q[k]|
    ensures NonemptyGroups(q[k := Join(q[k], r)])
    ensures Cancel(q[k := Join(q[k], r)], r.ticket.handle, r.ticket.id) == q
  {
    var g := q[k];
    JoinAt(g, r);
    assert Join(g, r)[0].ticket.handle == r.ticket.handle;
    ReplaceThenFindGroup(q, k, Join(g, r));
    JoinThenFind(g, r);
    JoinThenLeave(g, r);
    assert q[k := Join(g, r)][k := g] == q;
  }

  lemma InsertedAt<T>(q: seq<T>, s: nat, x: T, q': seq<T>)
    requires s <= |q| && q' == q[..s] + [x] + q[s..]
    ensures |q'| == |q| + 1 && q'[s] == x && q'[..s] + q'[s + 1..] == q
    ensures forall j | 0 <= j < |q'| && j != s :: q'[j] == if j < s then q[j] else q[j - 1]
  {}

  lemma OpenThenFind(q: Queue, s: nat, r: Request, q': Queue)
    requires NonemptyGroups(q) && s <= |q| && |q| == FindGroup(q, r.ticket.handle)
    requires q' == q[..s] + [[r]] + q[s..]
    ensures NonemptyGroups(q') && FindGroup(q', r.ticket.handle) == s
  {
    InsertedAt(q, s, [r], q');
    FindGroupAt(q', r.ticket.handle, s);
  }

  lemma OpenThenCancel(q: Queue, s: nat, r: Request, q': Queue)
    requires NonemptyGroups(q) && s <= |q| && |q| == FindGroup(q, r.ticket.handle)
    requires q' == q[..s] + [[r]] + q[s..]
    ensures NonemptyGroups(q') && Cancel(q', r.ticket.handle, r.ticket.id) == q
  {
    OpenThenFind(q, s, r, q');
    assert q'[s] == [r] && q'[..s] + q'[s + 1..] == q;
    assert FindId([r], r.ticket.id) == 0;
  }

  /** Cancelling the request just posted restores the queue, provided its id was not in use on the handle. */
  lemma SubmitThenCancel(q: Queue, r: Request)
    requires WellFormed(q) && !QueuedOn(q, r.ticket.handle, r.ticket.id)
    ensures NonemptyGroups(Submit(q, r))
    ensures Cancel(Submit(q, r), r.ticket.handle, r.ticket.id) == q
  {
    var k := FindGroup(q, r.ticket.handle);
    FindQueued(q, r.ticket.handle, r.ticket.id);
    if k < |q| {
      JoinThenCancel(q, k, r);
    } else {
      OpenThenCancel(q, WalkGroups(q, r.fdPrio, 0), r, Submit(q, r));
    }
  }

  lemma JoinAt(g: Group, r: Request)
    requires g != []
    ensures var s := MemberSlot(g, r.ticket);
            && Join(g, r)[s].ticket == r.ticket
            && forall j | 0 <= j < |g| + 1 && j != s :: Join(g, r)[j] == if j < s then g[j] else g[j - 1]
  {}

  lemma {:induction false} SizeIsLength(q: Queue)
    ensures Size(q) == |Flatten(q)|
  {
    if q != [] {
      SizeIsLength(q[1..]);
    }
  }

  /**
   * A worker takes the shortest prefix of groups holding at least num requests,
   * or the whole queue when it holds fewer.
   */
  lemma {:induction false} PopIsShortestPrefix(q: Queue, num: int)
    requires NonemptyGroups(q)
    ensures var k := PopGroups(q, num);
            && (k < |q| ==> Size(q[..k]) >= num)
            && (forall m | 0 <= m < k :: Size(q[..m]) < num)
            && (q != [] && num > 0 ==> 0 < k)
  {
    if q == [] || num <= 0 {
    } else {
      var k := PopGroups(q, num);
      PopIsShortestPrefix(q[1..], num - |q[0]|);
      forall m | 0 < m <= |q| ensures Size(q[..m]) == |q[0]| + Size(q[1..][..m - 1]) {
        assert q[..m][1..] == q[1..][..m - 1];
      }
    }
  }

  /** Popping conserves requests and keeps the rest of the queue well formed. */
  lemma PopCorrect(q: Queue, num: int)
    requires WellFormed(q)
    ensures var k := PopGroups(q, num);
            && WellFormed(q[k..])
            && Held(q) == multiset(Tickets(Flatten(q[..k]))) + Held(q[k..])
  {
    var k := PopGroups(q, num);
    assert q == q[..k] + q[k..];
    FlattenConcat(q[..k], q[k..]);
    TicketsConcat(Flatten(q[..k]), Flatten(q[k..]));
  }
}
