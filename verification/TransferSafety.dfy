/**
 * In no interleaving of dispatcher, clients and I/O workers is a freed agent, client
 * or buffer touched; and what an agent has handed to its socket follows the file from
 * the start of its range.  The one assertion that can fail is that of a transfer of an
 * empty range, when it starts its first read.
 */
module TransferSafety {
  import opened AioSpec
  import opened AioSpecLemmas
  import opened AioProtocol
  import opened AioSafety
  import opened Packets
  import opened TransferSystem

  // ---------- The invariant ----------

  /** The data are what the file has from the given position on. */
  ghost predicate Matches(file: seq<Byte>, pos: int, data: seq<Byte>) {
    |data| > 0 ==> 0 <= pos <= pos + |data| <= |file| && data == file[pos..pos + |data|]
  }

  ghost predicate HoldsFile(memory: map<int, seq<Byte>>, b: int, n: nat, file: seq<Byte>, pos: int) {
    n > 0 ==> b in memory && n <= |memory[b]| && Matches(file, pos, memory[b][..n])
  }

  /** The ranges that the prefetch never reads past. */
  predicate RangeSafe(c: Config, handle: int, begin: nat, content: nat) {
    c.block == 1 || content <= 2 || (handle in c.files && begin + content >= |c.files[handle]|)
  }

  /** An agent owns its buffers, and they are different. */
  ghost predicate OwnsBuffers(a: int, ag: Agent, owner: map<int, int>) {
    && (ag.buffer != NONE ==> ag.buffer in owner && owner[ag.buffer] == a && ag.buffer != ag.reserve)
    && (ag.reserve != NONE ==> ag.reserve in owner && owner[ag.reserve] == a)
  }

  /** Sent bytes, bytes in the buffer and bytes in the reserve follow each other in the file. */
  ghost predicate DataOk(c: Config, ag: Agent, memory: map<int, seq<Byte>>)
    requires ag.handle in c.files
  {
    var file := c.files[ag.handle];
    && |ag.output| == ag.transferred && Matches(file, ag.begin, ag.output)
    && (ag.buffer == NONE ==> ag.bufSize == 0 && ag.send == 0)
    && (ag.buffer != NONE ==>
          && ag.send <= ag.bufSize && ag.send <= ag.transferred
          && HoldsFile(memory, ag.buffer, ag.bufSize, file, ag.begin + ag.transferred - ag.send))
    && ag.offset == ag.begin + ag.transferred + (ag.bufSize - ag.send) + ag.reserveSize
    && (ag.reserveSize > 0 ==>
          && ag.reserve != NONE && ag.aioId == -1
          && HoldsFile(memory, ag.reserve, ag.reserveSize, file, ag.offset - ag.reserveSize))
  }

  /** The agent's range is one that the prefetch never reads past. */
  predicate Safe(c: Config, ag: Agent) {
    RangeSafe(c, ag.handle, ag.begin, ag.content)
  }

  /** A buffer that is still there is unsent in part only, unless more than the range was sent. */
  predicate PartlySent(ag: Agent) {
    ag.buffer != NONE ==> ag.send < ag.bufSize && (ag.transferred < ag.content ==> 0 < ag.send)
  }

  /** Nothing is read past the end of a safe range, and the dispatcher's position is as it should be. */
  ghost predicate ControlOk(c: Config, ag: Agent) {
    && ag.content > 0 && ag.handle in c.files
    && (ag.aioId == -1 || ag.aioId >= 1)
    && (Safe(c, ag) ==> ag.offset <= ag.begin + ag.content && ag.transferred <= ag.content)
    && ag.bufSize <= c.block && ag.reserveSize <= c.block
    && (ag.pc.Sending? ==> ag.pc.max > 0 && 0 <= ag.pc.sent <= ag.send
                           && ag.pc.sent < ag.pc.max + PACKET_SIZE && ag.buffer != NONE)
    && (ag.pc.Fetching? ==> ag.transferred != ag.content && PartlySent(ag))
    && (ag.pc.Resting? && !ag.stopped ==> ag.transferred != ag.content)
    && (!ag.clientAlive ==> ag.closePending || ag.pc.Closed?)
    && (ag.closePending ==> ag.pc.Resting? || ag.pc.Closed?)
    && (ag.aioId != -1 && !ag.pc.Closed? ==> ag.reserve != NONE && ag.reserveSize == 0)
  }

  ghost predicate AgentOk(c: Config, a: int, ag: Agent, memory: map<int, seq<Byte>>, owner: map<int, int>) {
    ControlOk(c, ag) && OwnsBuffers(a, ag, owner) && DataOk(c, ag, memory)
  }

  /** The request may still call its handler. */
  ghost predicate Active(s: Sched, t: Ticket) {
    t in Held(s.queue) || t in s.pending
  }

  /** An active request is the one its agent waits for, and it fills that agent's reserve buffer. */
  ghost predicate RequestOk(c: Config, agents: map<int, Agent>, t: Ticket) {
    && t.handler in agents
    && var ag := agents[t.handler];
       && !ag.pc.Closed? && ag.aioId == t.id && t.id >= 1
       && ag.reserve == t.buffer && ag.handle == t.handle && ag.offset == t.offset
       && 0 < t.nbytes && (t.nbytes <= c.block || (t.nbytes > SSIZE_MAX && !Safe(c, ag)))
       && (Safe(c, ag) ==> StaysWithin(c, t, ag.begin + ag.content))
  }

  /** However much the request reads, it does not reach past the end. */
  predicate StaysWithin(c: Config, t: Ticket, end: int) {
    t.offset + (if t.nbytes <= Available(c, t) then t.nbytes else Available(c, t)) <= end
  }

  ghost predicate RequestsOk(c: Config, s: State) {
    forall t | Active(s.sched, t) :: RequestOk(c, s.agents, t)
  }

  /** What a worker has read is in the buffer when it makes the callback. */
  ghost predicate ReadOk(c: Config, t: Ticket, result: int, memory: map<int, seq<Byte>>) {
    && CanRead(c, t, result)
    && (result > 0 ==> HoldsFile(memory, t.buffer, result, c.files[t.handle], t.offset))
  }

  ghost predicate ReadsOk(c: Config, s: State) {
    forall w | At(s.sched, w) && s.sched.workers[w].phase.Read? ::
      ReadOk(c, Current(s.sched, w), s.sched.workers[w].phase.result, s.memory)
  }

  /** Everything is in order, but perhaps for the assertion that just failed. */
  ghost predicate Intact(c: Config, s: State) {
    && c.Ok()
    && Inv(s.sched)
    && RequestsOk(c, s)
    && (forall a | a in s.agents :: AgentOk(c, a, s.agents[a], s.memory, s.owner))
    && ReadsOk(c, s)
  }

  ghost predicate Sound(c: Config, s: State) {
    Intact(c, s) && !s.fault
  }

  lemma InitOk(c: Config)
    requires c.Ok()
    ensures Sound(c, TransferSystem.Init())
  {
    InitInv();
    assert Flatten([]) == [] && Tickets([]) == [];
  }

  // ---------- Steps that concern one agent ----------

  /** An agent without an active request, or with an unchanged one, moves on by itself. */
  lemma AgentMoves(c: Config, s: State, a: int, ag: Agent)
    requires Sound(c, s) && a in s.agents && AgentOk(c, a, ag, s.memory, s.owner)
    requires var o := s.agents[a];
             && ag.handle == o.handle && ag.begin == o.begin && ag.content == o.content
             && (o.aioId != -1 && !o.pc.Closed? ==>
                   ag.aioId == o.aioId && ag.offset == o.offset && ag.reserve == o.reserve && !ag.pc.Closed?)
    ensures Sound(c, Put(s, a, ag))
  {
    var s' := Put(s, a, ag);
    forall t | Active(s'.sched, t) ensures RequestOk(c, s'.agents, t) {
      assert RequestOk(c, s.agents, t);
    }
  }

  lemma SliceOfSlice<T>(s: seq<T>, lo: nat, hi: nat, i: nat, j: nat)
    requires lo <= hi <= |s| && i <= j <= hi - lo
    ensures s[lo..hi][i..j] == s[lo + i..lo + j]
  {
    var t := s[lo..hi];
    assert forall k | 0 <= k < j - i :: t[i..j][k] == t[i + k] == s[lo + i + k];
  }

  lemma MatchesSplit(file: seq<Byte>, pos: int, data: seq<Byte>, i: nat, n: nat)
    requires Matches(file, pos, data) && i + n <= |data|
    ensures Matches(file, pos + i, data[i..i + n])
  {
    if n > 0 {
      SliceOfSlice(file, pos, pos + |data|, i, i + n);
    }
  }

  lemma MatchesJoin(file: seq<Byte>, pos: int, d1: seq<Byte>, d2: seq<Byte>)
    requires Matches(file, pos, d1) && Matches(file, pos + |d1|, d2)
    ensures Matches(file, pos, d1 + d2)
  {
    if |d1| > 0 && |d2| > 0 {
      var m := pos + |d1|;
      assert file[pos..m] + file[m..m + |d2|] == file[pos..m + |d2|];
    }
  }

  lemma SendOk(c: Config, a: int, ag: Agent, memory: map<int, seq<Byte>>, owner: map<int, int>, n: nat)
    requires AgentOk(c, a, ag, memory, owner) && LoopGuard(ag) && ag.send + n <= ag.bufSize && n <= PACKET_SIZE
    ensures ag.buffer in memory && ag.send + n <= |memory[ag.buffer]|
    ensures AgentOk(c, a, Sent(ag, memory[ag.buffer], n), memory, owner)
  {
    SendMatches(c.files[ag.handle], ag.begin, ag.output, memory[ag.buffer], ag.bufSize, ag.send, n);
  }

  /** The next n bytes of the buffer continue what has been sent. */
  lemma SendMatches(file: seq<Byte>, begin: nat, output: seq<Byte>, data: seq<Byte>, size: nat, send: nat, n: nat)
    requires send + n <= size <= |data| && send <= |output|
    requires Matches(file, begin, output) && Matches(file, begin + |output| - send, data[..size])
    ensures Matches(file, begin, output + data[send..send + n])
  {
    MatchesSplit(file, begin + |output| - send, data[..size], send, n);
    assert data[..size][send..send + n] == data[send..send + n];
    MatchesJoin(file, begin, output, data[send..send + n]);
  }

  lemma SendKeeps(c: Config, s: State, a: int, n: nat)
    requires Sound(c, s) && a in s.agents && LoopGuard(s.agents[a]) && s.agents[a].send + n <= s.agents[a].bufSize
             && n <= PACKET_SIZE
    ensures Sound(c, SendStep(s, a, s.agents[a], n))
  {
    var ag := s.agents[a];
    SendOk(c, a, ag, s.memory, s.owner, n);
    AgentMoves(c, s, a, Sent(ag, s.memory[ag.buffer], n));
  }

  lemma SendStopsKeeps(c: Config, s: State, a: int, stop: bool)
    requires Sound(c, s) && a in s.agents && LoopGuard(s.agents[a])
    ensures Sound(c, Put(s, a, s.agents[a].(pc := Resting, stopped := s.agents[a].stopped || stop)))
  {
    AgentMoves(c, s, a, s.agents[a].(pc := Resting, stopped := s.agents[a].stopped || stop));
  }

  // ---------- Freeing a buffer ----------

  /** Giving back a buffer that no other agent and no active request uses. */
  lemma FreeBuffer(c: Config, s: State, a: int, ag: Agent, b: int)
    requires Sound(c, s) && a in s.agents && b in s.owner && s.owner[b] == a && b != s.agents[a].reserve
    requires AgentOk(c, a, ag, s.memory, s.owner - {b})
    requires var o := s.agents[a];
             && ag.handle == o.handle && ag.begin == o.begin && ag.content == o.content
             && ag.aioId == o.aioId && ag.offset == o.offset && ag.reserve == o.reserve && !ag.pc.Closed?
    ensures Sound(c, Put(s.(owner := s.owner - {b}), a, ag))
  {
    var s' := Put(s.(owner := s.owner - {b}), a, ag);
    forall t | Active(s'.sched, t) ensures RequestOk(c, s'.agents, t) {
      assert RequestOk(c, s.agents, t);
    }
    forall a' | a' in s'.agents ensures AgentOk(c, a', s'.agents[a'], s'.memory, s'.owner) {
      assert a' != a ==> AgentOk(c, a', s.agents[a'], s.memory, s.owner);
    }
  }

  lemma ReleaseOk(c: Config, a: int, ag: Agent, memory: map<int, seq<Byte>>, owner: map<int, int>)
    requires AgentOk(c, a, ag, memory, owner) && ag.pc.Sending? && ag.send == ag.bufSize && ag.transferred != ag.content
    ensures ag.buffer in owner && owner[ag.buffer] == a && ag.buffer != ag.reserve
    ensures AgentOk(c, a, ag.(buffer := NONE, bufSize := 0, send := 0, pc := Fetching), memory, owner - {ag.buffer})
  {}

  lemma EndSendMoves(c: Config, s: State, a: int, pc: Pc, stopped: bool)
    requires Sound(c, s) && a in s.agents && s.agents[a].pc.Sending? && !LoopGuard(s.agents[a])
    requires s.agents[a].transferred == s.agents[a].content ==> stopped && pc == Resting
    requires pc == Resting || (pc == Fetching && s.agents[a].send < s.agents[a].bufSize)
    ensures Sound(c, Put(s, a, s.agents[a].(pc := pc, stopped := stopped)))
  {
    var ag := s.agents[a];
    assert AgentOk(c, a, ag, s.memory, s.owner);
    assert AgentOk(c, a, ag.(pc := pc, stopped := stopped), s.memory, s.owner);
    AgentMoves(c, s, a, ag.(pc := pc, stopped := stopped));
  }

  lemma EndSendKeeps(c: Config, s: State, a: int)
    requires Sound(c, s) && a in s.agents && s.agents[a].pc.Sending? && !LoopGuard(s.agents[a])
    ensures Sound(c, EndSendStep(s, a, s.agents[a]))
  {
    var ag := s.agents[a];
    if ag.transferred == ag.content {
      EndSendMoves(c, s, a, Resting, true);
    } else if ag.send < ag.bufSize / 2 {
      EndSendMoves(c, s, a, Resting, ag.stopped);
    } else if ag.send < ag.bufSize {
      EndSendMoves(c, s, a, Fetching, ag.stopped);
    } else {
      ReleaseOk(c, a, ag, s.memory, s.owner);
      FreeBuffer(c, s, a, ag.(buffer := NONE, bufSize := 0, send := 0, pc := Fetching), ag.buffer);
    }
  }

  // ---------- Starting a read ----------

  /** The agent is in a position to start a read: nothing in flight, nothing in reserve. */
  ghost predicate CanFetch(ag: Agent) {
    && ag.aioId == -1 && ag.reserve == NONE && ag.reserveSize == 0 && ag.pc.Resting? && ag.transferred != ag.content
    && PartlySent(ag) && (ag.buffer != NONE ==> ag.offset - ag.begin != ag.content)
  }

  /** However much the read returns, it stays within a safe range. */
  lemma FetchInRange(c: Config, a: int, ag: Agent, memory: map<int, seq<Byte>>, owner: map<int, int>, b: int,
                     ioPrio: int, id: int)
    requires c.Ok() && AgentOk(c, a, ag, memory, owner) && CanFetch(ag) && b > 0 && id >= 1
    ensures Unsigned(ReadBytes(c, ag)) > 0
    ensures RequestOk(c, map[a := ag.(reserve := b, aioId := id)], ReadTicket(c, a, ag, b, ioPrio).(id := id))
  {
    CountOk(c, a, ag, memory, owner);
    AskedInRange(c, a, ag, memory, owner, b, ioPrio, id, Unsigned(ReadBytes(c, ag)));
  }

  lemma AskedInRange(c: Config, a: int, ag: Agent, memory: map<int, seq<Byte>>, owner: map<int, int>, b: int,
                     ioPrio: int, id: int, n: nat)
    requires c.Ok() && AgentOk(c, a, ag, memory, owner) && CanFetch(ag) && b > 0 && id >= 1
    requires if ag.transferred < ag.content then 0 < n == ReadBytes(c, ag) <= c.block else n > SSIZE_MAX && !Safe(c, ag)
    ensures RequestOk(c, map[a := ag.(reserve := b, aioId := id)], Ticket(id, ag.handle, ioPrio, ag.offset, n, b, a))
  {
    if ag.buffer == NONE {
      assert ag.offset == ag.begin + ag.transferred;
    }
  }

  /** An agent asks for at most a block; or, when it has sent more than its range, for more than can be read. */
  lemma CountOk(c: Config, a: int, ag: Agent, memory: map<int, seq<Byte>>, owner: map<int, int>)
    requires c.Ok() && AgentOk(c, a, ag, memory, owner) && ag.transferred != ag.content
    ensures var n := Unsigned(ReadBytes(c, ag));
            if ag.transferred < ag.content then 0 < n == ReadBytes(c, ag) <= c.block else n > SSIZE_MAX && !Safe(c, ag)
  {
    assert ag.transferred <= |c.files[ag.handle]|;
    WrapsAround(ReadBytes(c, ag));
  }

  lemma WrapsAround(n: int)
    requires -SSIZE_MAX <= n <= SSIZE_MAX
    ensures Unsigned(n) == if n < 0 then n + TWO_TO_THE_64 else n
  {}

  lemma FetchAgent(c: Config, a: int, ag: Agent, memory: map<int, seq<Byte>>, owner: map<int, int>, b: int, id: int)
    requires AgentOk(c, a, ag, memory, owner) && CanFetch(ag) && b > 0 && b !in owner && id >= 1
    ensures AgentOk(c, a, ag.(reserve := b, aioId := id), memory, owner[b := a])
    ensures AgentOk(c, a, ag.(reserve := NONE, reserveSize := 0), memory, owner)
  {}

  /** Posting adds one active request. */
  lemma PostActive(s: Sched, e: AioProtocol.Event, u: Ticket)
    requires Inv(s) && e.Submit? && AioProtocol.Enabled(s, e)
    ensures Active(AioProtocol.Step(s, e), u) ==> u == e.ticket.(id := IdOf(s.book.count)) || Active(s, u)
  {
    SubmitCorrect(s.queue, Request(e.ticket.(id := IdOf(s.book.count)), e.fdPrio));
  }

  lemma PostsOne(s: Sched, e: AioProtocol.Event)
    requires Inv(s) && e.Submit? && AioProtocol.Enabled(s, e)
    ensures forall u | Active(AioProtocol.Step(s, e), u) :: u == e.ticket.(id := IdOf(s.book.count)) || Active(s, u)
  {
    forall u | Active(AioProtocol.Step(s, e), u) ensures u == e.ticket.(id := IdOf(s.book.count)) || Active(s, u) {
      PostActive(s, e, u);
    }
  }

  /** All of the invariant but for agent a, which has no active request. */
  ghost predicate Others(c: Config, s: State, a: int) {
    && c.Ok() && !s.fault && Inv(s.sched) && RequestsOk(c, s) && ReadsOk(c, s)
    && (forall t | Active(s.sched, t) :: t.handler != a)
    && (forall a' | a' in s.agents && a' != a :: AgentOk(c, a', s.agents[a'], s.memory, s.owner))
  }

  lemma OthersOwner(c: Config, a': int, ag: Agent, memory: map<int, seq<Byte>>, owner: map<int, int>, b: int, a: int)
    requires AgentOk(c, a', ag, memory, owner) && b !in owner
    ensures AgentOk(c, a', ag, memory, owner[b := a])
  {}

  /** The state after the scheduler took the request t of agent a. */
  lemma WithRequest(c: Config, s: State, a: int, ag: Agent, b: int, sched: Sched, t: Ticket)
    requires Others(c, s, a) && AgentOk(c, a, ag, s.memory, s.owner[b := a]) && b !in s.owner
    requires Inv(sched) && sched.workers == s.sched.workers
    requires forall u | Active(sched, u) :: u == t || Active(s.sched, u)
    requires t.handler == a && RequestOk(c, map[a := ag], t)
    ensures Sound(c, Put(s.(sched := sched, owner := s.owner[b := a]), a, ag))
  {
    var s' := Put(s.(sched := sched, owner := s.owner[b := a]), a, ag);
    AddsRequest(c, s, s', a, ag, t);
    WithBuffer(c, s.agents, a, ag, s.memory, s.owner, b);
    SameReads(c, s, s');
  }

  lemma AddsRequest(c: Config, s: State, s': State, a: int, ag: Agent, t: Ticket)
    requires RequestsOk(c, s) && s'.agents == s.agents[a := ag]
    requires forall u | Active(s.sched, u) :: u.handler != a
    requires forall u | Active(s'.sched, u) :: u == t || Active(s.sched, u)
    requires t.handler == a && RequestOk(c, map[a := ag], t)
    ensures RequestsOk(c, s')
  {
    forall u | Active(s'.sched, u) ensures RequestOk(c, s'.agents, u) {
      if u != t {
        assert RequestOk(c, s.agents, u);
      }
    }
  }

  /** Agent a has got one more buffer, b. */
  lemma WithBuffer(c: Config, agents: map<int, Agent>, a: int, ag: Agent, memory: map<int, seq<Byte>>,
                   owner: map<int, int>, b: int)
    requires forall a' | a' in agents && a' != a :: AgentOk(c, a', agents[a'], memory, owner)
    requires AgentOk(c, a, ag, memory, owner[b := a]) && b !in owner
    ensures var agents' := agents[a := ag];
            forall a' | a' in agents' :: AgentOk(c, a', agents'[a'], memory, owner[b := a])
  {
    var agents' := agents[a := ag];
    forall a' | a' in agents' ensures AgentOk(c, a', agents'[a'], memory, owner[b := a]) {
      if a' != a {
        OthersOwner(c, a', agents[a'], memory, owner, b, a);
      }
    }
  }

  lemma SameReads(c: Config, s: State, s': State)
    requires ReadsOk(c, s) && s'.sched.workers == s.sched.workers && s'.memory == s.memory
    ensures ReadsOk(c, s')
  {
    forall w | At(s'.sched, w) && s'.sched.workers[w].phase.Read?
      ensures ReadOk(c, Current(s'.sched, w), s'.sched.workers[w].phase.result, s'.memory)
    {
      assert At(s.sched, w);
    }
  }

  /** What start_read makes of the system when the scheduler takes the request. */
  lemma AcceptedIs(c: Config, s: State, a: int, ag: Agent, b: int, ioPrio: int)
    requires CanPost(s) && Unsigned(ReadBytes(c, ag)) > 0
    ensures var e := AioProtocol.Submit(ReadTicket(c, a, ag, b, ioPrio), 0);
            && AioProtocol.Enabled(s.sched, e)
            && StartRead(c, s, a, ag, b, ioPrio, true)
               == Put(s.(sched := AioProtocol.Step(s.sched, e), owner := s.owner[b := a]), a,
                      ag.(reserve := b, aioId := IdOf(s.sched.book.count)))
            && AioProtocol.Step(s.sched, e).workers == s.sched.workers
  {}

  lemma AcceptedKeeps(c: Config, s: State, a: int, ag: Agent, b: int, ioPrio: int)
    requires Others(c, s, a) && AgentOk(c, a, ag, s.memory, s.owner) && CanFetch(ag)
    requires FreshBuffer(s, b) && CanPost(s)
    ensures Sound(c, StartRead(c, s, a, ag, b, ioPrio, true))
  {
    var id := IdOf(s.sched.book.count);
    var t := ReadTicket(c, a, ag, b, ioPrio);
    FetchInRange(c, a, ag, s.memory, s.owner, b, ioPrio, id);
    FetchAgent(c, a, ag, s.memory, s.owner, b, id);
    AcceptedIs(c, s, a, ag, b, ioPrio);
    PostKeeps(c, s, a, ag.(reserve := b, aioId := id), b, t);
  }

  /** Agent a, which has no active request, has posted one. */
  lemma PostKeeps(c: Config, s: State, a: int, ag: Agent, b: int, t: Ticket)
    requires Others(c, s, a) && AgentOk(c, a, ag, s.memory, s.owner[b := a]) && b !in s.owner && t.handler == a
    requires AioProtocol.Enabled(s.sched, AioProtocol.Submit(t, 0))
    requires RequestOk(c, map[a := ag], t.(id := IdOf(s.sched.book.count)))
    requires AioProtocol.Step(s.sched, AioProtocol.Submit(t, 0)).workers == s.sched.workers
    ensures var sched := AioProtocol.Step(s.sched, AioProtocol.Submit(t, 0));
            Sound(c, Put(s.(sched := sched, owner := s.owner[b := a]), a, ag))
  {
    var e := AioProtocol.Submit(t, 0);
    StepKeeps(s.sched, e);
    PostsOne(s.sched, e);
    WithRequest(c, s, a, ag, b, AioProtocol.Step(s.sched, e), t.(id := IdOf(s.sched.book.count)));
  }

  lemma RefusedKeeps(c: Config, s: State, a: int, ag: Agent)
    requires Others(c, s, a) && AgentOk(c, a, ag, s.memory, s.owner)
    ensures Sound(c, Put(s, a, ag))
  {
    var s' := Put(s, a, ag);
    forall t | Active(s'.sched, t) ensures RequestOk(c, s'.agents, t) {
      assert RequestOk(c, s.agents, t);
    }
  }

  lemma StartReadKeeps(c: Config, s: State, a: int, ag: Agent, b: int, ioPrio: int, accepted: bool)
    requires Others(c, s, a) && AgentOk(c, a, ag, s.memory, s.owner) && CanFetch(ag)
    requires FreshBuffer(s, b) && CanPost(s)
    ensures Sound(c, StartRead(c, s, a, ag, b, ioPrio, accepted))
  {
    if accepted {
      AcceptedKeeps(c, s, a, ag, b, ioPrio);
    } else {
      FetchInRange(c, a, ag, s.memory, s.owner, b, ioPrio, 1);
      FetchAgent(c, a, ag, s.memory, s.owner, b, 1);
      RefusedKeeps(c, s, a, ag.(reserve := NONE, reserveSize := 0));
    }
  }

  /** An agent that waits for nothing has no active request. */
  lemma Unawaited(c: Config, s: State, a: int)
    requires Sound(c, s) && (a in s.agents ==> s.agents[a].aioId == -1)
    ensures Others(c, s, a)
  {
    forall t | Active(s.sched, t) ensures t.handler != a {
      assert RequestOk(c, s.agents, t);
    }
  }

  /** An agent that waits for nothing reads on. */
  lemma StartReadAgain(c: Config, s: State, a: int, ag: Agent, b: int, ioPrio: int, accepted: bool)
    requires Sound(c, s) && a in s.agents && s.agents[a].aioId == -1
    requires AgentOk(c, a, ag, s.memory, s.owner) && CanFetch(ag) && FreshBuffer(s, b) && CanPost(s)
    ensures Sound(c, StartRead(c, s, a, ag, b, ioPrio, accepted))
  {
    Unawaited(c, s, a);
    StartReadKeeps(c, s, a, ag, b, ioPrio, accepted);
  }

  lemma OpenKeeps(c: Config, s: State, a: int, ag: Agent, b: int, accepted: bool)
    requires Sound(c, s) && a !in s.agents && FreshBuffer(s, b) && CanPost(s)
    requires ag.handle in c.files && ag.content > 0
    requires ag == NewAgent(ag.handle, ag.begin, ag.content)
    ensures Sound(c, OpenStep(c, s, a, ag, b, accepted))
  {
    Unawaited(c, s, a);
    var s' := Put(s, a, ag);
    assert Others(c, s', a) by {
      forall t | Active(s'.sched, t) ensures RequestOk(c, s'.agents, t) {
        assert RequestOk(c, s.agents, t);
      }
    }
    StartReadKeeps(c, s', a, ag, b, 5, accepted);
  }

  lemma SwapOk(c: Config, a: int, ag: Agent, memory: map<int, seq<Byte>>, owner: map<int, int>, max: int)
    requires AgentOk(c, a, ag, memory, owner) && ag.buffer == NONE && ag.aioId == -1 && ag.reserve != NONE && max > 0
    requires ag.pc.Resting? && !ag.closePending
    ensures AgentOk(c, a, Swapped(ag, max), memory, owner)
  {}

  /** An agent that transfer_data is called for. */
  ghost predicate Dispatched(s: State, a: int) {
    a in s.agents && s.agents[a].pc.Resting? && !s.agents[a].stopped && !s.agents[a].closePending
  }

  lemma EnterResumes(c: Config, s: State, a: int, max: int)
    requires Sound(c, s) && Dispatched(s, a) && max > 0 && s.agents[a].buffer != NONE
    ensures Sound(c, Put(s, a, s.agents[a].(pc := Sending(max, 0))))
  {
    var ag := s.agents[a];
    assert AgentOk(c, a, ag, s.memory, s.owner);
    AgentMoves(c, s, a, ag.(pc := Sending(max, 0)));
  }

  lemma EnterSwaps(c: Config, s: State, a: int, max: int)
    requires Sound(c, s) && Dispatched(s, a) && max > 0
    requires var ag := s.agents[a]; ag.buffer == NONE && ag.aioId == -1 && ag.reserve != NONE
    ensures Sound(c, Put(s, a, Swapped(s.agents[a], max)))
  {
    var ag := s.agents[a];
    SwapOk(c, a, ag, s.memory, s.owner, max);
    AgentMoves(c, s, a, Swapped(ag, max));
  }

  lemma EnterReads(c: Config, s: State, a: int, b: int, accepted: bool)
    requires Sound(c, s) && Dispatched(s, a) && FreshBuffer(s, b) && CanPost(s)
    requires var ag := s.agents[a]; ag.buffer == NONE && ag.aioId == -1 && ag.reserve == NONE
    ensures Sound(c, StartRead(c, s, a, s.agents[a], b, 5, accepted))
  {
    var ag := s.agents[a];
    assert AgentOk(c, a, ag, s.memory, s.owner) && ag == ag.(pc := Resting);
    StartReadAgain(c, s, a, ag, b, 5, accepted);
  }

  lemma EnterKeeps(c: Config, s: State, a: int, max: int, b: int, accepted: bool)
    requires Sound(c, s) && Dispatched(s, a) && max > 0 && FreshBuffer(s, b) && CanPost(s)
    ensures Sound(c, EnterStep(c, s, a, s.agents[a], max, b, accepted))
  {
    var ag := s.agents[a];
    assert ControlOk(c, ag) by {
      assert AgentOk(c, a, ag, s.memory, s.owner);
    }
    if ag.buffer != NONE {
      EnterResumes(c, s, a, max);
    } else if ag.aioId != -1 {
    } else if ag.reserve == NONE {
      EnterReads(c, s, a, b, accepted);
    } else {
      EnterSwaps(c, s, a, max);
    }
  }

  lemma FetchRests(c: Config, s: State, a: int, stopped: bool)
    requires Sound(c, s) && a in s.agents && s.agents[a].pc.Fetching?
    ensures Sound(c, Put(s, a, s.agents[a].(pc := Resting, stopped := stopped)))
  {
    var ag := s.agents[a];
    assert AgentOk(c, a, ag, s.memory, s.owner);
    assert AgentOk(c, a, ag.(pc := Resting, stopped := stopped), s.memory, s.owner);
    AgentMoves(c, s, a, ag.(pc := Resting, stopped := stopped));
  }

  lemma FetchReady(c: Config, a: int, ag: Agent, memory: map<int, seq<Byte>>, owner: map<int, int>)
    requires AgentOk(c, a, ag, memory, owner) && ag.pc.Fetching? && WantsRead(ag)
    ensures AgentOk(c, a, ag.(pc := Resting), memory, owner) && CanFetch(ag.(pc := Resting))
  {}

  lemma FetchReads(c: Config, s: State, a: int, b: int, accepted: bool)
    requires Sound(c, s) && a in s.agents && s.agents[a].pc.Fetching? && FreshBuffer(s, b) && CanPost(s)
    requires WantsRead(s.agents[a])
    ensures Sound(c, StartRead(c, s, a, s.agents[a].(pc := Resting), b, 0, accepted))
  {
    var ag := s.agents[a].(pc := Resting);
    FetchReady(c, a, s.agents[a], s.memory, s.owner);
    StartReadAgain(c, s, a, ag, b, 0, accepted);
  }

  lemma FetchKeeps(c: Config, s: State, a: int, b: int, accepted: bool)
    requires Sound(c, s) && a in s.agents && s.agents[a].pc.Fetching? && FreshBuffer(s, b) && CanPost(s)
    ensures Sound(c, FetchStep(c, s, a, s.agents[a], b, accepted))
  {
    var ag := s.agents[a];
    if ag.eof || ag.failed {
      FetchRests(c, s, a, ag.stopped || (ag.send == ag.bufSize && !ag.failed));
    } else if WantsRead(ag) {
      FetchReads(c, s, a, b, accepted);
    } else {
      FetchRests(c, s, a, ag.stopped);
      assert ag.(pc := Resting) == ag.(pc := Resting, stopped := ag.stopped);
    }
  }

  // ---------- Closing ----------

  /** The scheduler moved on without new active requests and without touching the workers. */
  lemma SchedMoves(c: Config, s: State, sched: Sched)
    requires Sound(c, s) && Inv(sched) && sched.workers == s.sched.workers
    requires forall t | Active(sched, t) :: Active(s.sched, t)
    ensures Sound(c, s.(sched := sched))
  {
    var s' := s.(sched := sched);
    forall t | Active(s'.sched, t) ensures RequestOk(c, s'.agents, t) {
      assert RequestOk(c, s.agents, t);
    }
    SameReads(c, s, s');
  }

  lemma CancelActive(s: Sched, h: int, id: int, t: Ticket)
    requires Inv(s) && Active(AioProtocol.Step(s, AioProtocol.Cancel(h, id)), t)
    ensures Active(s, t)
  {
    CancelCorrect(s.queue, h, id);
  }

  lemma OnlyOne(held: multiset<Ticket>, held': multiset<Ticket>, t: Ticket, u: Ticket)
    requires DistinctIds(held) && held == held' + multiset{u} && t in held && t.id == u.id
    ensures t !in held'
  {
    assert u in held;
    assert held[t] == 1;
  }

  /** A waiting request does not survive its cancellation. */
  lemma CancelRemoves(s: Sched, t: Ticket)
    requires Inv(s) && t in Held(s.queue)
    ensures t !in Held(AioSpec.Cancel(s.queue, t.handle, t.id))
  {
    CancelCorrect(s.queue, t.handle, t.id);
    HeldQueuedOn(s.queue, t);
    var q' := AioSpec.Cancel(s.queue, t.handle, t.id);
    var u: Ticket :| u.handle == t.handle && u.id == t.id && Held(s.queue) == Held(q') + multiset{u};
    DistinctPart(Held(s.queue), multiset(s.running));
    OnlyOne(Held(s.queue), Held(q'), t, u);
  }

  lemma HeldQueuedOn(q: Queue, t: Ticket)
    requires t in Held(q)
    ensures QueuedOn(q, t.handle, t.id)
  {}

  lemma PendingRuns(s: Sched, t: Ticket)
    requires Inv(s) && t in s.pending
    ensures t.id in RunningIds(s)
  {
    assert t in multiset(s.running);
  }

  /** When cancel_aio answers that the request is cancelled, the agent has no active request left. */
  lemma ClosedIsQuiet(c: Config, s: State, a: int, t: Ticket)
    requires Sound(c, s) && a in s.agents && s.agents[a].aioId != -1
    requires var ag := s.agents[a];
             var sched := AioProtocol.Step(s.sched, AioProtocol.Cancel(ag.handle, ag.aioId));
             AnswersCanceled(sched, ag.aioId) && Active(sched, t)
    ensures t.handler != a
  {
    var ag := s.agents[a];
    CancelActive(s.sched, ag.handle, ag.aioId, t);
    assert RequestOk(c, s.agents, t);
    if t in s.sched.pending {
      PendingRuns(s.sched, t);
    } else {
      CancelRemoves(s.sched, t);
    }
  }

  lemma CanceledKeeps(c: Config, s: State, a: int, ag: Agent, sched: Sched)
    requires Sound(c, s) && a in s.agents && s.agents[a].aioId != -1
    requires sched == AioProtocol.Step(s.sched, AioProtocol.Cancel(s.agents[a].handle, s.agents[a].aioId))
    requires AnswersCanceled(sched, s.agents[a].aioId) && AgentOk(c, a, ag, s.memory, s.owner)
    requires Sound(c, s.(sched := sched))
    ensures Sound(c, Put(s.(sched := sched), a, ag))
  {
    forall t | Active(sched, t) ensures t.handler != a {
      ClosedIsQuiet(c, s, a, t);
    }
    RefusedKeeps(c, s.(sched := sched), a, ag);
  }

  lemma CancelMoves(c: Config, s: State, h: int, id: int)
    requires Sound(c, s)
    ensures Sound(c, s.(sched := AioProtocol.Step(s.sched, AioProtocol.Cancel(h, id))))
  {
    var e := AioProtocol.Cancel(h, id);
    StepKeeps(s.sched, e);
    forall t | Active(AioProtocol.Step(s.sched, e), t) ensures Active(s.sched, t) {
      CancelActive(s.sched, h, id, t);
    }
    SchedMoves(c, s, AioProtocol.Step(s.sched, e));
  }

  /** Whatever the cancellation answers, the agent is in order. */
  lemma CloseAgent(c: Config, a: int, ag: Agent, memory: map<int, seq<Byte>>, owner: map<int, int>, alive: bool)
    requires AgentOk(c, a, ag, memory, owner) && ag.pc.Resting?
    ensures AgentOk(c, a, ag.(clientAlive := alive, cancelPending := false, pc := Closed), memory, owner)
    ensures AgentOk(c, a, ag.(clientAlive := alive, cancelPending := true, closePending := true), memory, owner)
  {}

  lemma PendingKeeps(c: Config, s: State, a: int, sched: Sched, alive: bool)
    requires Sound(c, s.(sched := sched)) && a in s.agents && s.agents[a].pc.Resting?
    ensures Sound(c, Put(s.(sched := sched), a,
                     s.agents[a].(clientAlive := alive, cancelPending := true, closePending := true)))
  {
    CloseAgent(c, a, s.agents[a], s.memory, s.owner, alive);
    AgentMoves(c, s.(sched := sched), a,
                s.agents[a].(clientAlive := alive, cancelPending := true, closePending := true));
  }

  lemma CancelAgentKeeps(c: Config, s: State, a: int, alive: bool)
    requires Sound(c, s) && a in s.agents && s.agents[a].pc.Resting? && s.agents[a].aioId != -1
    ensures Sound(c, CloseStep(s, a, s.agents[a].(clientAlive := alive)))
  {
    var o := s.agents[a];
    var sched := AioProtocol.Step(s.sched, AioProtocol.Cancel(o.handle, o.aioId));
    CancelMoves(c, s, o.handle, o.aioId);
    if AnswersCanceled(sched, o.aioId) {
      CloseAgent(c, a, o, s.memory, s.owner, alive);
      CanceledKeeps(c, s, a, o.(clientAlive := alive, cancelPending := false, pc := Closed), sched);
    } else {
      PendingKeeps(c, s, a, sched, alive);
    }
  }

  lemma CloseKeeps(c: Config, s: State, a: int, alive: bool)
    requires Sound(c, s) && a in s.agents && s.agents[a].pc.Resting?
    ensures Sound(c, CloseStep(s, a, s.agents[a].(clientAlive := alive)))
  {
    var o := s.agents[a];
    if o.aioId == -1 {
      CloseAgent(c, a, o, s.memory, s.owner, alive);
      AgentMoves(c, s, a, o.(clientAlive := alive, cancelPending := false, pc := Closed));
    } else {
      CancelAgentKeeps(c, s, a, alive);
    }
  }

  // ---------- Deleting ----------

  lemma DeleteOther(c: Config, a: int, a': int, ag: Agent, ag': Agent, memory: map<int, seq<Byte>>,
                    owner: map<int, int>)
    requires AgentOk(c, a, ag, memory, owner) && AgentOk(c, a', ag', memory, owner) && a != a'
    ensures AgentOk(c, a', ag', memory, owner - {ag.buffer, ag.reserve})
  {}

  lemma DeleteKeeps(c: Config, s: State, a: int)
    requires Sound(c, s) && a in s.agents && s.agents[a].pc.Closed?
    ensures Sound(c, DeleteStep(s, a, s.agents[a]))
  {
    var ag := s.agents[a];
    assert AgentOk(c, a, ag, s.memory, s.owner);
    var s' := s.(owner := s.owner - {ag.buffer, ag.reserve}, agents := s.agents - {a});
    forall t | Active(s'.sched, t) ensures RequestOk(c, s'.agents, t) {
      assert RequestOk(c, s.agents, t);
    }
    forall a' | a' in s'.agents ensures AgentOk(c, a', s'.agents[a'], s'.memory, s'.owner) {
      DeleteOther(c, a, a', ag, s.agents[a'], s.memory, s.owner);
    }
  }

  // ---------- Workers ----------

  /** A step of the scheduler that leaves the reads alone. */
  lemma WorkerMoves(c: Config, s: State, sched: Sched)
    requires Sound(c, s) && Inv(sched)
    requires forall t | Active(sched, t) :: Active(s.sched, t)
    requires forall w | At(sched, w) && sched.workers[w].phase.Read? ::
               At(s.sched, w) && s.sched.workers[w] == sched.workers[w]
    ensures Sound(c, s.(sched := sched))
  {
    var s' := s.(sched := sched);
    forall t | Active(s'.sched, t) ensures RequestOk(c, s'.agents, t) {
      assert RequestOk(c, s.agents, t);
    }
  }

  lemma PopActive(s: Sched, w: int, t: Ticket)
    requires Inv(s) && AioProtocol.Enabled(s, Pop(w)) && Active(AioProtocol.Step(s, Pop(w)), t)
    ensures Active(s, t)
  {
    PopHeld(s.queue);
  }

  lemma PopStepKeeps(c: Config, s: State, w: int)
    requires Sound(c, s) && AioProtocol.Enabled(s.sched, Pop(w))
    ensures Sound(c, s.(sched := AioProtocol.Step(s.sched, Pop(w))))
  {
    StepKeeps(s.sched, Pop(w));
    forall t | Active(AioProtocol.Step(s.sched, Pop(w)), t) ensures Active(s.sched, t) {
      PopActive(s.sched, w, t);
    }
    WorkerMoves(c, s, AioProtocol.Step(s.sched, Pop(w)));
  }

  lemma DequeueStepKeeps(c: Config, s: State, w: int)
    requires Sound(c, s) && AioProtocol.Enabled(s.sched, Dequeue(w))
    ensures Current(s.sched, w) in s.sched.running
    ensures Sound(c, s.(sched := AioProtocol.Step(s.sched, Dequeue(w))))
  {
    StepKeeps(s.sched, Dequeue(w));
    CurrentRuns(s.sched, w);
    WorkerMoves(c, s, AioProtocol.Step(s.sched, Dequeue(w)));
  }

  lemma FreeStepKeeps(c: Config, s: State, w: int)
    requires Sound(c, s) && AioProtocol.Enabled(s.sched, Free(w))
    ensures Sound(c, s.(sched := AioProtocol.Step(s.sched, Free(w))))
  {
    StepKeeps(s.sched, Free(w));
    WorkerMoves(c, s, AioProtocol.Step(s.sched, Free(w)));
  }

  // ---------- Reading ----------

  /** A worker's request is active until its callback. */
  lemma CurrentOk(c: Config, s: State, w: int)
    requires Sound(c, s) && At(s.sched, w) && s.sched.workers[w].phase != Called
    ensures var t := Current(s.sched, w);
            && RequestOk(c, s.agents, t) && AgentOk(c, t.handler, s.agents[t.handler], s.memory, s.owner)
            && s.agents[t.handler].reserve == t.buffer && t.buffer in s.owner && s.owner[t.buffer] == t.handler
  {
    CurrentRuns(s.sched, w);
    assert Active(s.sched, Current(s.sched, w));
  }

  /** Two workers never read into the same buffer. */
  lemma OtherBuffer(c: Config, s: State, w: int, v: int)
    requires Sound(c, s) && v != w
    requires At(s.sched, w) && s.sched.workers[w].phase != Called && At(s.sched, v)
             && s.sched.workers[v].phase != Called
    ensures Current(s.sched, v).buffer != Current(s.sched, w).buffer
  {
    CurrentOk(c, s, w);
    CurrentOk(c, s, v);
    OtherPlace(multiset(s.sched.running), s.sched.workers, s.sched.slot, s.sched.pending, w, v, s.sched.workers[v].at);
  }

  /** Filling a buffer disturbs neither other agents nor the bytes its own agent is sending. */
  lemma FillOk(c: Config, a: int, ag: Agent, memory: map<int, seq<Byte>>, owner: map<int, int>, b: int, data: seq<Byte>)
    requires AgentOk(c, a, ag, memory, owner) && b in owner && b != NONE
    requires owner[b] != a || (ag.reserve == b && ag.aioId != -1 && !ag.pc.Closed?)
    ensures AgentOk(c, a, ag, memory[b := data], owner)
  {}

  lemma PreadMatches(c: Config, t: Ticket, was: seq<Byte>, result: nat, memory: map<int, seq<Byte>>)
    requires CanRead(c, t, result) && result > 0
    ensures var data := Overwrite(was, c.files[t.handle][t.offset..t.offset + result]);
            ReadOk(c, t, result, memory[t.buffer := data])
  {
    var part := c.files[t.handle][t.offset..t.offset + result];
    assert Overwrite(was, part)[..result] == part;
  }

  lemma OtherReadOk(c: Config, t: Ticket, result: int, memory: map<int, seq<Byte>>, b: int, data: seq<Byte>)
    requires ReadOk(c, t, result, memory) && t.buffer != b
    ensures ReadOk(c, t, result, memory[b := data])
  {}

  lemma FilledAgents(c: Config, s: State, w: int, data: seq<Byte>)
    requires Sound(c, s) && At(s.sched, w) && s.sched.workers[w].phase.Start?
    ensures forall a | a in s.agents ::
              AgentOk(c, a, s.agents[a], s.memory[Current(s.sched, w).buffer := data], s.owner)
  {
    var t := Current(s.sched, w);
    CurrentOk(c, s, w);
    forall a | a in s.agents ensures AgentOk(c, a, s.agents[a], s.memory[t.buffer := data], s.owner) {
      FillOk(c, a, s.agents[a], s.memory, s.owner, t.buffer, data);
    }
  }

  lemma FilledReads(c: Config, s: State, w: int, data: seq<Byte>)
    requires Sound(c, s) && At(s.sched, w) && s.sched.workers[w].phase.Start?
    ensures forall v | v != w && At(s.sched, v) && s.sched.workers[v].phase.Read? ::
              ReadOk(c, Current(s.sched, v), s.sched.workers[v].phase.result,
                     s.memory[Current(s.sched, w).buffer := data])
  {
    forall v | v != w && At(s.sched, v) && s.sched.workers[v].phase.Read?
      ensures ReadOk(c, Current(s.sched, v), s.sched.workers[v].phase.result,
                     s.memory[Current(s.sched, w).buffer := data])
    {
      FilledRead(c, s, w, v, data);
    }
  }

  lemma FilledRead(c: Config, s: State, w: int, v: int, data: seq<Byte>)
    requires Sound(c, s) && At(s.sched, w) && s.sched.workers[w].phase.Start?
    requires v != w && At(s.sched, v) && s.sched.workers[v].phase.Read?
    ensures ReadOk(c, Current(s.sched, v), s.sched.workers[v].phase.result,
                     s.memory[Current(s.sched, w).buffer := data])
  {
    OtherBuffer(c, s, w, v);
    OtherReadOk(c, Current(s.sched, v), s.sched.workers[v].phase.result, s.memory, Current(s.sched, w).buffer, data);
  }

  /** A read that returned `result`, with the buffer's new contents. */
  lemma ReadStepKeeps(c: Config, s: State, w: int, result: int, memory: map<int, seq<Byte>>)
    requires Sound(c, s) && AioProtocol.Enabled(s.sched, Pread(w, result))
    requires ReadOk(c, Current(s.sched, w), result, memory)
    requires forall a | a in s.agents :: AgentOk(c, a, s.agents[a], memory, s.owner)
    requires forall v | v != w && At(s.sched, v) && s.sched.workers[v].phase.Read? ::
               ReadOk(c, Current(s.sched, v), s.sched.workers[v].phase.result, memory)
    ensures Sound(c, s.(sched := AioProtocol.Step(s.sched, Pread(w, result)), memory := memory))
  {
    var sched := AioProtocol.Step(s.sched, Pread(w, result));
    StepKeeps(s.sched, Pread(w, result));
    var s' := s.(sched := sched, memory := memory);
    forall t | Active(sched, t) ensures RequestOk(c, s.agents, t) {
      assert Active(s.sched, t);
    }
    forall v | At(sched, v) && sched.workers[v].phase.Read?
      ensures ReadOk(c, Current(sched, v), sched.workers[v].phase.result, memory)
    {
      assert v != w ==> At(s.sched, v) && s.sched.workers[v] == sched.workers[v];
    }
  }

  lemma FilledKeeps(c: Config, s: State, w: int, result: int, data: seq<Byte>)
    requires Sound(c, s) && AioProtocol.Enabled(s.sched, Pread(w, result))
    requires ReadOk(c, Current(s.sched, w), result, s.memory[Current(s.sched, w).buffer := data])
    ensures Sound(c, s.(sched := AioProtocol.Step(s.sched, Pread(w, result)),
                        memory := s.memory[Current(s.sched, w).buffer := data]))
  {
    FilledAgents(c, s, w, data);
    FilledReads(c, s, w, data);
    ReadStepKeeps(c, s, w, result, s.memory[Current(s.sched, w).buffer := data]);
  }

  lemma BytesKeep(c: Config, s: State, w: int, result: int, was: seq<Byte>)
    requires Sound(c, s) && AioProtocol.Enabled(s.sched, Pread(w, result))
             && CanRead(c, Current(s.sched, w), result) && result > 0
    ensures var t := Current(s.sched, w);
            var data := Overwrite(was, c.files[t.handle][t.offset..t.offset + result]);
            Sound(c, s.(sched := AioProtocol.Step(s.sched, Pread(w, result)), memory := s.memory[t.buffer := data]))
  {
    var t := Current(s.sched, w);
    PreadMatches(c, t, was, result, s.memory);
    FilledKeeps(c, s, w, result, Overwrite(was, c.files[t.handle][t.offset..t.offset + result]));
  }

  function Contents(memory: map<int, seq<Byte>>, b: int): seq<Byte> {
    if b in memory then memory[b] else []
  }

  /** The buffer is large enough and still the handler's, so the read is no fault. */
  lemma PreadSafe(c: Config, s: State, w: int, result: int)
    requires Sound(c, s) && AioProtocol.Enabled(s.sched, Pread(w, result)) && CanRead(c, Current(s.sched, w), result)
    ensures var t := Current(s.sched, w);
            var sched := AioProtocol.Step(s.sched, Pread(w, result));
            PreadStep(c, s, w, result) ==
              if result <= 0 then s.(sched := sched)
              else s.(sched := sched, memory :=
                s.memory[t.buffer := Overwrite(Contents(s.memory, t.buffer),
                          c.files[t.handle][t.offset..t.offset + result])])
  {
    CurrentOk(c, s, w);
  }

  lemma PreadKeeps(c: Config, s: State, w: int, result: int)
    requires Sound(c, s) && AioProtocol.Enabled(s.sched, Pread(w, result)) && CanRead(c, Current(s.sched, w), result)
    ensures Sound(c, PreadStep(c, s, w, result))
  {
    var t := Current(s.sched, w);
    PreadSafe(c, s, w, result);
    if result <= 0 {
      ReadStepKeeps(c, s, w, result, s.memory);
    } else {
      BytesKeep(c, s, w, result, Contents(s.memory, t.buffer));
    }
  }

  // ---------- Callbacks ----------

  lemma NothingReadOk(c: Config, a: int, ag: Agent, memory: map<int, seq<Byte>>, owner: map<int, int>, failed: bool,
                      eof: bool)
    requires AgentOk(c, a, ag, memory, owner)
    ensures AgentOk(c, a, ag.(aioId := -1, failed := failed, eof := eof), memory, owner)
  {}

  /** The bytes just read extend what the agent has, within its range. */
  lemma BytesReadOk(c: Config, a: int, ag: Agent, memory: map<int, seq<Byte>>, owner: map<int, int>, n: nat)
    requires AgentOk(c, a, ag, memory, owner) && ag.aioId != -1 && !ag.pc.Closed? && 0 < n <= c.block
    requires (Safe(c, ag) ==> ag.offset + n <= ag.begin + ag.content)
             && HoldsFile(memory, ag.reserve, n, c.files[ag.handle], ag.offset)
    ensures AgentOk(c, a, ag.(aioId := -1, offset := ag.offset + n, reserveSize := n), memory, owner)
  {
    var ag' := ag.(aioId := -1, offset := ag.offset + n, reserveSize := n);
    assert ControlOk(c, ag') && OwnsBuffers(a, ag', owner);
    assert ag'.offset - ag'.reserveSize == ag.offset;
  }

  lemma HandleOk(c: Config, a: int, ag: Agent, memory: map<int, seq<Byte>>, owner: map<int, int>, t: Ticket,
                 result: int)
    requires AgentOk(c, a, ag, memory, owner) && t.handler == a && RequestOk(c, map[a := ag], t)
             && ReadOk(c, t, result, memory)
    ensures AgentOk(c, a, HandleAioRead(ag, result), memory, owner)
  {
    if ag.cancelPending {
      NothingReadOk(c, a, ag, memory, owner, ag.failed, ag.eof);
    } else if result <= 0 {
      NothingReadOk(c, a, ag, memory, owner, ag.failed || result < 0, ag.eof || result == 0);
    } else {
      HandleBytes(c, a, ag, memory, owner, t, result);
    }
  }

  lemma HandleBytes(c: Config, a: int, ag: Agent, memory: map<int, seq<Byte>>, owner: map<int, int>, t: Ticket,
                    result: nat)
    requires AgentOk(c, a, ag, memory, owner) && t.handler == a && RequestOk(c, map[a := ag], t)
             && ReadOk(c, t, result, memory)
    requires result > 0
    ensures AgentOk(c, a, ag.(aioId := -1, offset := ag.offset + result, reserveSize := result), memory, owner)
  {
    ReadWithin(c, a, ag, t, result);
    BytesReadOk(c, a, ag, memory, owner, result);
  }

  lemma ReadWithin(c: Config, a: int, ag: Agent, t: Ticket, result: nat)
    requires t.handler == a && RequestOk(c, map[a := ag], t) && CanRead(c, t, result)
    ensures ag.aioId != -1 && !ag.pc.Closed? && result <= c.block && ag.reserve == t.buffer
    ensures t.handle == ag.handle && t.offset == ag.offset
    ensures Safe(c, ag) ==> ag.offset + result <= ag.begin + ag.content
  {}

  /** After its callback no other active request refers to the agent. */
  lemma CallbackQuiet(c: Config, s: State, w: int, u: Ticket)
    requires Sound(c, s) && AioProtocol.Enabled(s.sched, Callback(w))
    requires Active(AioProtocol.Step(s.sched, Callback(w)), u)
    ensures Active(s.sched, u) && u.handler != Current(s.sched, w).handler
  {
    var t := Current(s.sched, w);
    CurrentOk(c, s, w);
    CurrentRuns(s.sched, w);
    assert Active(s.sched, u) && RequestOk(c, s.agents, u);
    OthersDiffer(Held(s.sched.queue), multiset(s.sched.running), s.sched.pending, t, u);
  }

  lemma OthersDiffer(held: multiset<Ticket>, running: multiset<Ticket>, pending: set<Ticket>, t: Ticket, u: Ticket)
    requires DistinctIds(held + running) && (forall x | x in pending :: x in running)
    requires t in running && (u in held || u in pending - {t})
    ensures u.id != t.id
  {
    assert t in held + running && u in held + running;
    assert u in held && u in running ==> (held + running)[u] >= 2;
  }

  lemma CalledMoves(c: Config, s: State, w: int)
    requires Sound(c, s) && AioProtocol.Enabled(s.sched, Callback(w))
    ensures Sound(c, s.(sched := AioProtocol.Step(s.sched, Callback(w))))
    ensures Others(c, s.(sched := AioProtocol.Step(s.sched, Callback(w))), Current(s.sched, w).handler)
  {
    var sched := AioProtocol.Step(s.sched, Callback(w));
    StepKeeps(s.sched, Callback(w));
    CalledQuiet(c, s, w);
    WorkerMoves(c, s, sched);
  }

  lemma CalledQuiet(c: Config, s: State, w: int)
    requires Sound(c, s) && AioProtocol.Enabled(s.sched, Callback(w))
    ensures forall u | Active(AioProtocol.Step(s.sched, Callback(w)), u) ::
              Active(s.sched, u) && u.handler != Current(s.sched, w).handler
  {
    forall u | Active(AioProtocol.Step(s.sched, Callback(w)), u)
      ensures Active(s.sched, u) && u.handler != Current(s.sched, w).handler
    {
      CallbackQuiet(c, s, w, u);
    }
  }

  lemma CallbackKeeps(c: Config, s: State, w: int)
    requires Sound(c, s) && AioProtocol.Enabled(s.sched, Callback(w))
    ensures Sound(c, CallbackStep(s, w))
  {
    var t, result := Current(s.sched, w), s.sched.workers[w].phase.result;
    CurrentOk(c, s, w);
    var ag := s.agents[t.handler];
    HandleOk(c, t.handler, ag, s.memory, s.owner, t, result);
    CalledMoves(c, s, w);
    RefusedKeeps(c, s.(sched := AioProtocol.Step(s.sched, Callback(w))), t.handler, HandleAioRead(ag, result));
  }

  // ---------- All steps ----------

  lemma WorkKeeps(c: Config, s: State, w: AioProtocol.Event)
    requires Sound(c, s) && TransferSystem.Enabled(c, s, Work(w))
    ensures Sound(c, TransferSystem.Step(c, s, Work(w)))
  {
    if w.Pread? {
      PreadKeeps(c, s, w.worker, w.result);
    } else if w.Callback? {
      CallbackKeeps(c, s, w.worker);
    } else {
      QuietWorkKeeps(c, s, w);
    }
  }

  /** The steps of a worker that concern the scheduler alone. */
  lemma QuietWorkKeeps(c: Config, s: State, w: AioProtocol.Event)
    requires Sound(c, s) && AioProtocol.Enabled(s.sched, w) && (w.Pop? || w.Dequeue? || w.Free?)
    ensures w.Dequeue? ==> Current(s.sched, w.worker) in s.sched.running
    ensures Sound(c, s.(sched := AioProtocol.Step(s.sched, w)))
  {
    match w
    case Pop(k) => PopStepKeeps(c, s, k);
    case Dequeue(k) => DequeueStepKeeps(c, s, k);
    case Free(k) => FreeStepKeeps(c, s, k);
  }

  /** A transfer of nothing is opened. */
  ghost predicate OpensEmpty(e: TransferSystem.Event) {
    e.Open? && e.content == 0
  }

  /** Every step of the system keeps the invariant, and none is a fault but the opening of a transfer of nothing. */
  lemma SystemKeeps(c: Config, s: State, e: TransferSystem.Event)
    requires Intact(c, s) && TransferSystem.Enabled(c, s, e)
    ensures Intact(c, TransferSystem.Step(c, s, e)) && (TransferSystem.Step(c, s, e).fault <==> OpensEmpty(e))
  {
    match e
    case Open(a, handle, begin, content, b, accepted) =>
      if content == 0 {
        assert ReadBytes(c, NewAgent(handle, begin, content)) == 0;
      } else {
        OpenKeeps(c, s, a, NewAgent(handle, begin, content), b, accepted);
      }
    case Enter(a, max, b, accepted) => EnterKeeps(c, s, a, max, b, accepted);
    case Send(a, n) => SendKeeps(c, s, a, n);
    case SendBlocked(a) => SendStopsKeeps(c, s, a, false);
    case SendFailed(a) => SendStopsKeeps(c, s, a, true);
    case EndSend(a) => EndSendKeeps(c, s, a);
    case Fetch(a, b, accepted) => FetchKeeps(c, s, a, b, accepted);
    case DeleteClient(a) => CloseKeeps(c, s, a, false);
    case RetryClose(a) => RetryCloseKeeps(c, s, a);
    case Delete(a) => DeleteKeeps(c, s, a);
    case Work(w) => WorkKeeps(c, s, w);
  }

  lemma RetryCloseKeeps(c: Config, s: State, a: int)
    requires Sound(c, s) && a in s.agents && s.agents[a].pc.Resting?
    ensures Sound(c, CloseStep(s, a, s.agents[a]))
  {
    CloseKeeps(c, s, a, s.agents[a].clientAlive);
    assert s.agents[a].(clientAlive := s.agents[a].clientAlive) == s.agents[a];
  }
}
