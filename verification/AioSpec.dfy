/**
 * The abstract value of the scheduler's request queue, and the effect that
 * posting, cancelling and popping requests have on it.  A queue is a sequence
 * of groups, one group per file handle; a group is a nonempty sequence of
 * requests, whose first member is the one linked into the top-level list.
 */
module AioSpec {
  const INT_MAX := 0x7fff_ffff

  /** The part of a request that never changes once it has been posted. */
  datatype Ticket = Ticket(id: int, handle: int, ioPrio: int, offset: int, nbytes: int, buffer: int, handler: int)

  /** The descriptor priority is overwritten when a request becomes the top of its group. */
  datatype Request = Request(ticket: Ticket, fdPrio: int)

  type Group = seq<Request>
  type Queue = seq<Group>

  // ---------- Well-formed queues ----------

  ghost predicate GroupSorted(g: Group) {
    forall i, j | 0 <= i < j < |g| :: g[i].ticket.ioPrio >= g[j].ticket.ioPrio
  }

  ghost predicate GroupOf(g: Group, h: int) {
    && g != []
    && (forall j | 0 <= j < |g| :: g[j].ticket.handle == h)
    && GroupSorted(g)
  }

  ghost predicate EachGroupOk(q: Queue) {
    forall i | 0 <= i < |q| :: q[i] != [] && GroupOf(q[i], q[i][0].ticket.handle)
  }

  /** Tops agree with the list's order: handles are distinct, descriptor priorities do not increase. */
  ghost predicate TopsOrdered(q: Queue)
    requires NonemptyGroups(q)
  {
    forall i, j | 0 <= i < j < |q| ::
      q[i][0].ticket.handle != q[j][0].ticket.handle && q[i][0].fdPrio >= q[j][0].fdPrio
  }

  /** One group per handle, groups by descending descriptor priority, members by descending I/O priority. */
  ghost predicate WellFormed(q: Queue) {
    EachGroupOk(q) && TopsOrdered(q)
  }

  ghost predicate NonemptyGroups(q: Queue) {
    forall i | 0 <= i < |q| :: q[i] != []
  }

  function Flatten(q: Queue): seq<Request> {
    if q == [] then [] else q[0] + Flatten(q[1..])
  }

  function Tickets(s: seq<Request>): seq<Ticket> {
    seq(|s|, i requires 0 <= i < |s| => s[i].ticket)
  }

  /** What the queue holds, forgetting the order and the descriptor priorities. */
  ghost function Held(q: Queue): multiset<Ticket> {
    multiset(Tickets(Flatten(q)))
  }

  // ---------- Posting a request ----------

  /** Among the members behind the second one, ties in priority are broken by file offset. */
  predicate GoesBefore(t: Ticket, other: Ticket) {
    t.ioPrio > other.ioPrio || (t.ioPrio == other.ioPrio && t.offset < other.offset)
  }

  function WalkMembers(g: Group, t: Ticket, i: nat): (k: nat)
    requires i <= |g|
    ensures i <= k <= |g|
    ensures forall j | i <= j < k :: !GoesBefore(t, g[j].ticket)
    ensures k < |g| ==> GoesBefore(t, g[k].ticket)
    decreases |g| - i
  {
    if i == |g| || GoesBefore(t, g[i].ticket) then i else WalkMembers(g, t, i + 1)
  }

  function MemberSlot(g: Group, t: Ticket): (k: nat)
    requires g != []
    ensures k <= |g|
  {
    if t.ioPrio > g[0].ticket.ioPrio then 0
    else if |g| == 1 || t.ioPrio > g[1].ticket.ioPrio then 1
    else WalkMembers(g, t, 2)
  }

  function Join(g: Group, r: Request): (g': Group)
    requires g != []
    ensures |g'| == |g| + 1
  {
    var k := MemberSlot(g, r.ticket);
    g[..k] + [if k == 0 then r.(fdPrio := g[0].fdPrio) else r] + g[k..]
  }

  function WalkGroups(q: Queue, prio: int, i: nat): (k: nat)
    requires i <= |q| && NonemptyGroups(q)
    ensures i <= k <= |q|
    ensures forall j | i <= j < k :: prio <= q[j][0].fdPrio
    ensures k < |q| ==> prio > q[k][0].fdPrio
    decreases |q| - i
  {
    if i == |q| || prio > q[i][0].fdPrio then i else WalkGroups(q, prio, i + 1)
  }

  /** The index of the group of handle h, or |q| when there is none. */
  function FindGroup(q: Queue, h: int): (k: nat)
    requires NonemptyGroups(q)
    ensures k <= |q|
    ensures k < |q| ==> q[k][0].ticket.handle == h
    ensures forall j | 0 <= j < k :: q[j][0].ticket.handle != h
  {
    if q == [] then 0
    else if q[0][0].ticket.handle == h then 0
    else
      var k := FindGroup(q[1..], h);
      assert forall j | 1 <= j < k + 1 :: q[j] == q[1..][j - 1];
      k + 1
  }

  function Submit(q: Queue, r: Request): Queue
    requires NonemptyGroups(q)
  {
    var k := FindGroup(q, r.ticket.handle);
    if k < |q| then q[k := Join(q[k], r)]
    else
      var s := WalkGroups(q, r.fdPrio, 0);
      q[..s] + [[r]] + q[s..]
  }

  /** The queue after the request was posted. */
  ghost predicate Submits(q: Queue, q': Queue, r: Request) {
    NonemptyGroups(q) && q' == Submit(q, r)
  }

  // ---------- Cancelling a request ----------

  function FindId(g: Group, id: int): (k: nat)
    ensures k <= |g|
    ensures k < |g| ==> g[k].ticket.id == id
    ensures forall j | 0 <= j < k :: g[j].ticket.id != id
  {
    if g == [] then 0
    else if g[0].ticket.id == id then 0
    else
      var k := FindId(g[1..], id);
      assert forall j | 1 <= j < k + 1 :: g[j] == g[1..][j - 1];
      k + 1
  }

  /** Drops member j; the member that takes over a vacated top inherits its descriptor priority. */
  function Leave(g: Group, j: nat): (g': Group)
    requires j < |g|
    ensures |g'| == |g| - 1
  {
    if j == 0 && |g| > 1 then [g[1].(fdPrio := g[0].fdPrio)] + g[2..]
    else g[..j] + g[j + 1..]
  }

  function Cancel(q: Queue, h: int, id: int): Queue
    requires NonemptyGroups(q)
  {
    var k := FindGroup(q, h);
    if k == |q| then q
    else
      var j := FindId(q[k], id);
      if j == |q[k]| then q
      else if |q[k]| == 1 then q[..k] + q[k + 1..]
      else q[k := Leave(q[k], j)]
  }

  // ---------- Popping requests ----------

  function Size(q: Queue): nat {
    if q == [] then 0 else |q[0]| + Size(q[1..])
  }

  /** How many groups a worker takes: groups are taken whole until num requests are in hand. */
  function PopGroups(q: Queue, num: int): (k: nat)
    ensures k <= |q|
    decreases |q|
  {
    if q == [] || num <= 0 then 0 else 1 + PopGroups(q[1..], num - |q[0]|)
  }
}
