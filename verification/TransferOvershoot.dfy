/**
 * Ranges that a transfer does leave.  The prefetch asks for as many bytes as have
 * not been sent, from where the last read ended; when part of the buffer is unsent,
 * that reaches beyond the range, and the surplus goes to the client.
 */
module TransferOvershoot {
  import opened Runs
  import opened AioSpec
  import opened AioProtocol
  import opened Packets
  import opened TransferSystem
  import opened TransferSafety
  import opened TransferTheorems

  // ---------- One agent, one worker ----------

  const A := 0
  const W := 0

  /** s' can be reached from s without opening another transfer. */
  ghost predicate Reaches(c: Config, s: State, s': State) {
    exists es :: Leads(Next(c), s, es, s') && NoOpens(es)
  }

  ghost predicate NoOpens(es: seq<TransferSystem.Event>) {
    forall i | 0 <= i < |es| :: !es[i].Open?
  }

  lemma Then(c: Config, s: State, m: State, s': State)
    requires Reaches(c, s, m) && Reaches(c, m, s')
    ensures Reaches(c, s, s')
  {
    var es :| Leads(Next(c), s, es, m) && NoOpens(es);
    var es' :| Leads(Next(c), m, es', s') && NoOpens(es');
    Concat(Next(c), s, es, m, es', s');
    assert NoOpens(es + es');
  }

  lemma Go(c: Config, s: State, e: TransferSystem.Event, s': State)
    requires Goes(c, s, e, s') && !e.Open?
    ensures Reaches(c, s, s')
  {
    Single(Next(c), s, e, s');
    assert NoOpens([e]);
  }

  /** Nothing but agent A, which is as given. */
  ghost predicate Only(s: State, ag: Agent, owner: map<int, int>) {
    !s.fault && s.agents == map[A := ag] && s.owner == owner
  }

  ghost predicate WorkerIdle(s: Sched) {
    W in s.workers ==> s.workers[W].Idle?
  }

  /** The scheduler has nothing to do, or only request t. */
  ghost predicate Rests(s: Sched) {
    s.queue == [] && s.running == [] && WorkerIdle(s)
  }

  ghost predicate Posted(s: Sched, t: Ticket) {
    s.queue == [[Request(t, 0)]] && s.running == [] && WorkerIdle(s)
  }

  /** The worker has request t in hand. */
  ghost predicate InHand(s: Sched, t: Ticket, phase: Phase) {
    s.queue == [] && s.running == [t] && W in s.workers && s.workers[W] == Busy([t], 0, phase)
  }

  lemma CanPostAtRest(s: State)
    requires Rests(s.sched)
    ensures CanPost(s)
  {
    assert Flatten(s.sched.queue) == [];
    assert Held(s.sched.queue) == multiset{} && multiset(s.sched.running) == multiset{};
  }

  lemma PostAtRest(s: Sched, t: Ticket)
    requires Rests(s) && AioProtocol.Enabled(s, AioProtocol.Submit(t, 0))
    ensures Posted(AioProtocol.Step(s, AioProtocol.Submit(t, 0)), t.(id := IdOf(s.book.count)))
  {}

  lemma BatchOfOne(t: Ticket)
    ensures PopGroups([[Request(t, 0)]], POP_COUNT) == 1 && Batch([[Request(t, 0)]]) == [t]
  {
    var q: Queue := [[Request(t, 0)]];
    assert q[1..] == [];
    assert q[..1] == q;
    assert Flatten(q) == [Request(t, 0)] + Flatten([]);
    assert Tickets([Request(t, 0)]) == [t];
  }

  lemma PopOne(s: Sched, t: Ticket)
    requires Posted(s, t)
    ensures AioProtocol.Enabled(s, Pop(W)) && InHand(AioProtocol.Step(s, Pop(W)), t, Start)
  {
    BatchOfOne(t);
  }

  lemma TakeOne(c: Config, s: State, t: Ticket) returns (s': State)
    requires !s.fault && Posted(s.sched, t)
    ensures Reaches(c, s, s') && InHand(s'.sched, t, Start) && s' == s.(sched := s'.sched)
  {
    PopOne(s.sched, t);
    s' := s.(sched := AioProtocol.Step(s.sched, Pop(W)));
    Go(c, s, Work(Pop(W)), s');
  }

  /** The worker finishes the request after its callback. */
  lemma FinishOne(s: Sched, t: Ticket)
    requires InHand(s, t, Called)
    ensures AioProtocol.Enabled(s, Dequeue(W)) && Current(s, W) in s.running
    ensures var s1 := AioProtocol.Step(s, Dequeue(W));
            AioProtocol.Enabled(s1, Free(W)) && Rests(AioProtocol.Step(s1, Free(W)))
  {
    assert Without([t], t) == [];
  }

  /** Request t is the one agent ag waits for, and it fits its buffer. */
  ghost predicate Awaits(c: Config, ag: Agent, owner: map<int, int>, t: Ticket) {
    && t.handler == A && t.nbytes <= c.block && t.buffer in owner && owner[t.buffer] == A
    && ag.aioId == t.id && ag.reserve == t.buffer && !ag.cancelPending
  }

  ghost predicate Filled(s: State, b: int, n: nat) {
    b in s.memory && |s.memory[b]| >= n
  }

  lemma ReadOne(c: Config, s: State, ag: Agent, owner: map<int, int>, t: Ticket, r: nat) returns (s': State)
    requires Only(s, ag, owner) && InHand(s.sched, t, Start) && Awaits(c, ag, owner, t) && CanRead(c, t, r) && r > 0
    ensures Reaches(c, s, s')
    ensures Only(s', ag, owner) && InHand(s'.sched, t, Read(r)) && Filled(s', t.buffer, r)
    ensures s'.memory == s.memory[t.buffer := s'.memory[t.buffer]]
  {
    s' := TransferSystem.Step(c, s, Work(Pread(W, r)));
    Go(c, s, Work(Pread(W, r)), s');
  }

  lemma CallOne(c: Config, s: State, ag: Agent, owner: map<int, int>, t: Ticket, r: nat) returns (s': State)
    requires Only(s, ag, owner) && InHand(s.sched, t, Read(r)) && Awaits(c, ag, owner, t) && r > 0
    ensures Reaches(c, s, s')
    ensures Only(s', HandleAioRead(ag, r), owner) && InHand(s'.sched, t, Called) && s'.memory == s.memory
  {
    s' := TransferSystem.Step(c, s, Work(Callback(W)));
    Go(c, s, Work(Callback(W)), s');
  }

  /** The worker serves the request with a read of r bytes. */
  lemma Serve(c: Config, s: State, ag: Agent, owner: map<int, int>, t: Ticket, r: nat) returns (s': State)
    requires Only(s, ag, owner) && Posted(s.sched, t) && Awaits(c, ag, owner, t) && CanRead(c, t, r) && r > 0
    ensures Reaches(c, s, s')
    ensures Only(s', HandleAioRead(ag, r), owner) && Rests(s'.sched) && Filled(s', t.buffer, r)
    ensures s'.memory == s.memory[t.buffer := s'.memory[t.buffer]]
  {
    var s1 := TakeOne(c, s, t);
    var s2 := ReadOne(c, s1, ag, owner, t, r);
    Then(c, s, s1, s2);
    var s3 := CallOne(c, s2, ag, owner, t, r);
    Then(c, s, s2, s3);
    s' := Finish(c, s3, t);
    Then(c, s, s3, s');
  }

  lemma Finish(c: Config, s: State, t: Ticket) returns (s': State)
    requires !s.fault && InHand(s.sched, t, Called)
    ensures Reaches(c, s, s') && Rests(s'.sched) && s' == s.(sched := s'.sched)
  {
    FinishOne(s.sched, t);
    var s1 := s.(sched := AioProtocol.Step(s.sched, Dequeue(W)));
    Go(c, s, Work(Dequeue(W)), s1);
    s' := s.(sched := AioProtocol.Step(s1.sched, Free(W)));
    Go(c, s1, Work(Free(W)), s');
    Then(c, s, s1, s');
  }

  // ---------- The dispatcher's steps ----------

  /** Nothing keeps the dispatcher from serving the agent. */
  ghost predicate Ready(ag: Agent) {
    ag.pc.Resting? && !ag.stopped && !ag.closePending && ag.clientAlive && !ag.cancelPending && !ag.eof && !ag.failed
  }

  lemma EnterSwaps(c: Config, s: State, ag: Agent, owner: map<int, int>, max: int, b: int) returns (s': State)
    requires Only(s, ag, owner) && Rests(s.sched) && Ready(ag) && max > 0 && b > 0 && b !in owner
    requires ag.buffer == NONE && ag.aioId == -1 && ag.reserve != NONE
    ensures Reaches(c, s, s') && Only(s', Swapped(ag, max), owner) && s'.sched == s.sched && s'.memory == s.memory
  {
    CanPostAtRest(s);
    s' := Put(s, A, Swapped(ag, max));
    Go(c, s, Enter(A, max, b, true), s');
  }

  lemma EnterResumes(c: Config, s: State, ag: Agent, owner: map<int, int>, max: int, b: int) returns (s': State)
    requires Only(s, ag, owner) && Rests(s.sched) && Ready(ag) && max > 0 && b > 0 && b !in owner && ag.buffer != NONE
    ensures Reaches(c, s, s') && Only(s', ag.(pc := Sending(max, 0)), owner) && s'.sched == s.sched
            && s'.memory == s.memory
  {
    CanPostAtRest(s);
    s' := Put(s, A, ag.(pc := Sending(max, 0)));
    Go(c, s, Enter(A, max, b, true), s');
  }

  lemma Sends(c: Config, s: State, ag: Agent, owner: map<int, int>, n: nat) returns (s': State)
    requires Only(s, ag, owner) && Rests(s.sched) && LoopGuard(ag) && n <= PACKET_SIZE && ag.send + n <= ag.bufSize
    requires Filled(s, ag.buffer, ag.bufSize)
    ensures Reaches(c, s, s') && Only(s', Sent(ag, s.memory[ag.buffer], n), owner) && s'.sched == s.sched
            && s'.memory == s.memory
  {
    s' := SendStep(s, A, ag, n);
    Go(c, s, Send(A, n), s');
  }

  /** Half of the buffer is out: prefetch. */
  lemma EndsHalf(c: Config, s: State, ag: Agent, owner: map<int, int>) returns (s': State)
    requires Only(s, ag, owner) && Rests(s.sched) && ag.pc.Sending? && ag.pc.sent >= ag.pc.max
    requires ag.transferred != ag.content && ag.bufSize / 2 <= ag.send < ag.bufSize
    ensures Reaches(c, s, s') && Only(s', ag.(pc := Fetching), owner) && s'.sched == s.sched && s'.memory == s.memory
  {
    s' := EndSendStep(s, A, ag);
    Go(c, s, EndSend(A), s');
  }

  lemma EndsAll(c: Config, s: State, ag: Agent, owner: map<int, int>) returns (s': State)
    requires Only(s, ag, owner) && Rests(s.sched) && ag.pc.Sending? && ag.pc.sent >= ag.pc.max
    requires ag.transferred != ag.content && ag.send == ag.bufSize && ag.buffer in owner
    ensures Reaches(c, s, s') && s'.sched == s.sched && s'.memory == s.memory
    ensures Only(s', ag.(buffer := NONE, bufSize := 0, send := 0, pc := Fetching), owner - {ag.buffer})
  {
    s' := EndSendStep(s, A, ag);
    Go(c, s, EndSend(A), s');
  }

  lemma FetchSkips(c: Config, s: State, ag: Agent, owner: map<int, int>, b: int) returns (s': State)
    requires Only(s, ag, owner) && Rests(s.sched) && ag.pc.Fetching? && !ag.eof && !ag.failed && ag.reserve != NONE
    requires b > 0 && b !in owner
    ensures Reaches(c, s, s') && Only(s', ag.(pc := Resting), owner) && s'.sched == s.sched && s'.memory == s.memory
  {
    CanPostAtRest(s);
    s' := FetchStep(c, s, A, ag, b, true);
    Go(c, s, Fetch(A, b, true), s');
  }

  /** The request of an agent that has not sent all of its range. */
  function PlainTicket(c: Config, ag: Agent, b: int, ioPrio: int, id: int): Ticket {
    Ticket(id, ag.handle, ioPrio, ag.offset, ReadBytes(c, ag), b, A)
  }

  /** start_read, when the scheduler takes the request. */
  lemma StartsRead(c: Config, s: State, ag: Agent, owner: map<int, int>, b: int, ioPrio: int) returns (t: Ticket)
    requires !s.fault && s.agents.Keys <= {A} && s.owner == owner
    requires Rests(s.sched) && CanPost(s) && !ag.cancelPending && c.Ok() && ReadBytes(c, ag) > 0
    ensures t == PlainTicket(c, ag, b, ioPrio, t.id)
    ensures var s' := StartRead(c, s, A, ag, b, ioPrio, true);
            var ag' := ag.(reserve := b, aioId := t.id);
            && Only(s', ag', owner[b := A]) && Posted(s'.sched, t) && s'.memory == s.memory
            && Awaits(c, ag', owner[b := A], t)
  {
    var e := ReadTicket(c, A, ag, b, ioPrio);
    WrapsAround(ReadBytes(c, ag));
    t := e.(id := IdOf(s.sched.book.count));
    PostAtRest(s.sched, e);
  }

  lemma FetchAsks(c: Config, s: State, ag: Agent, owner: map<int, int>, b: int) returns (s': State, t: Ticket)
    requires Only(s, ag, owner) && Rests(s.sched) && ag.pc.Fetching? && !ag.eof && !ag.failed && !ag.cancelPending
    requires ag.aioId == -1 && ag.reserve == NONE && ag.offset - ag.begin != ag.content && ReadBytes(c, ag) > 0
    requires b > 0 && b !in owner && c.Ok()
    ensures t == PlainTicket(c, ag, b, 0, t.id)
    ensures var ag' := ag.(pc := Resting, reserve := b, aioId := t.id);
            && Reaches(c, s, s') && Only(s', ag', owner[b := A]) && Posted(s'.sched, t) && s'.memory == s.memory
            && Awaits(c, ag', owner[b := A], t)
  {
    CanPostAtRest(s);
    s' := FetchStep(c, s, A, ag, b, true);
    t := StartsRead(c, s, ag.(pc := Resting), owner, b, 0);
    Go(c, s, Fetch(A, b, true), s');
  }

  // ---------- The run ----------

  /** The agent with k bytes sent, nothing buffered, and a read in flight. */
  function Waiting(h: int, begin: nat, content: nat, k: nat, id: int, output: seq<Byte>): Agent {
    NewAgent(h, begin, content).(aioId := id, offset := begin + k, transferred := k, reserve := 1, output := output)
  }

  /** Such an agent, with its request posted. */
  ghost predicate Round(c: Config, s: State, h: int, begin: nat, content: nat, k: nat, t: Ticket, output: seq<Byte>) {
    var ag := Waiting(h, begin, content, k, t.id, output);
    && k < content && Only(s, ag, map[1 := A]) && Posted(s.sched, t) && Awaits(c, ag, map[1 := A], t)
    && t == PlainTicket(c, ag, 1, t.ioPrio, t.id)
  }

  /** The file goes on beyond the range, and a buffer holds more than one byte. */
  ghost predicate Leaves(c: Config, h: int, begin: nat, content: nat) {
    c.Ok() && c.block >= 2 && content >= 3 && h in c.files && begin + content < |c.files[h]|
  }

  /** The agent after its reserve of n bytes was sent and given back. */
  function Drained(ag: Agent, n: nat, output: seq<Byte>): Agent {
    ag.(reserve := NONE, reserveSize := 0, buffer := NONE, bufSize := 0, send := 0, pc := Fetching,
        transferred := ag.transferred + n, output := output)
  }

  lemma Drains(c: Config, s: State, ag: Agent, owner: map<int, int>, b: int) returns (s': State, output: seq<Byte>)
    requires Only(s, ag, owner) && Rests(s.sched) && Ready(ag) && b > 0 && b !in owner
    requires ag.buffer == NONE && ag.aioId == -1 && ag.reserve != NONE && ag.reserve in owner
    requires 0 < ag.reserveSize <= PACKET_SIZE && Filled(s, ag.reserve, ag.reserveSize)
    requires ag.transferred + ag.reserveSize < ag.content
    ensures Reaches(c, s, s') && Rests(s'.sched) && Only(s', Drained(ag, ag.reserveSize, output), owner - {ag.reserve})
  {
    var n := ag.reserveSize;
    var ag1 := Swapped(ag, n);
    var s1 := EnterSwaps(c, s, ag, owner, n, b);
    var s2 := Sends(c, s1, ag1, owner, n);
    Then(c, s, s1, s2);
    var ag2 := Sent(ag1, s1.memory[ag1.buffer], n);
    s' := EndsAll(c, s2, ag2, owner);
    Then(c, s, s2, s');
    output := ag2.output;
    DrainedAgent(ag, s1.memory[ag1.buffer], n);
  }

  lemma DrainedAgent(ag: Agent, data: seq<Byte>, n: nat)
    requires n <= |data|
    ensures var ag' := Sent(Swapped(ag, n), data, n);
            ag'.(buffer := NONE, bufSize := 0, send := 0, pc := Fetching) == Drained(ag, n, ag'.output)
  {}

  /** Read one byte and send it. */
  lemma ByteRead(c: Config, s: State, h: int, begin: nat, content: nat, k: nat, t: Ticket, output: seq<Byte>)
      returns (s': State, output': seq<Byte>)
    requires Leaves(c, h, begin, content) && k + 1 < content && Round(c, s, h, begin, content, k, t, output)
    ensures Reaches(c, s, s') && Rests(s'.sched)
    ensures Only(s', Drained(HandleAioRead(Waiting(h, begin, content, k, t.id, output), 1), 1, output'), map[])
  {
    var ag := Waiting(h, begin, content, k, t.id, output);
    var owner: map<int, int> := map[1 := A];
    var s1 := Serve(c, s, ag, owner, t, 1);
    s', output' := Drains(c, s1, HandleAioRead(ag, 1), owner, 2);
    Then(c, s, s1, s');
    assert owner - {1} == map[];
  }

  lemma NextAgent(h: int, begin: nat, content: nat, k: nat, id: int, output: seq<Byte>, output': seq<Byte>, id': int)
    ensures Drained(HandleAioRead(Waiting(h, begin, content, k, id, output), 1), 1, output')
              .(pc := Resting, reserve := 1, aioId := id')
         == Waiting(h, begin, content, k + 1, id', output')
  {}

  lemma NextRound(c: Config, s: State, h: int, begin: nat, content: nat, k: nat, t: Ticket, output: seq<Byte>)
      returns (s': State, t': Ticket, output': seq<Byte>)
    requires Leaves(c, h, begin, content) && k + 1 < content && Round(c, s, h, begin, content, k, t, output)
    ensures Reaches(c, s, s') && Round(c, s', h, begin, content, k + 1, t', output')
  {
    var m;
    m, output' := ByteRead(c, s, h, begin, content, k, t, output);
    var ag := Drained(HandleAioRead(Waiting(h, begin, content, k, t.id, output), 1), 1, output');
    s', t' := FetchAsks(c, m, ag, map[], 1);
    Then(c, s, m, s');
    NextAgent(h, begin, content, k, t.id, output, output', t'.id);
    assert map[][1 := A] == map[1 := A];
  }

  /** All but the last three bytes go out one by one. */
  lemma {:induction false} Rounds(c: Config, s: State, h: int, begin: nat, content: nat, k: nat, t: Ticket,
                                  output: seq<Byte>)
      returns (s': State, t': Ticket, output': seq<Byte>)
    requires Leaves(c, h, begin, content) && k + 3 <= content && Round(c, s, h, begin, content, k, t, output)
    ensures Reaches(c, s, s') && Round(c, s', h, begin, content, content - 3, t', output')
    decreases content - k
  {
    if k + 3 == content {
      s', t', output' := s, t, output;
      assert Leads(Next(c), s, [], s) && NoOpens([]);
    } else {
      var m, u, o := NextRound(c, s, h, begin, content, k, t, output);
      s', t', output' := Rounds(c, m, h, begin, content, k + 1, u, o);
      Then(c, s, m, s');
    }
  }

  /** The last buffer holds two bytes; with one of them sent, the prefetch asks for two more, one too many. */
  lemma HalfSent(c: Config, s: State, h: int, begin: nat, content: nat, t: Ticket, output: seq<Byte>)
      returns (s': State, ag: Agent, output': seq<Byte>)
    requires Leaves(c, h, begin, content) && Round(c, s, h, begin, content, content - 3, t, output)
    ensures ag == NewAgent(h, begin, content).(offset := begin + content - 1, transferred := content - 2,
                                               pc := Fetching,
                                               buffer := 1, bufSize := 2, send := 1, output := output')
    ensures Reaches(c, s, s') && Rests(s'.sched) && Only(s', ag, map[1 := A]) && Filled(s', 1, 2)
  {
    var ag0 := Waiting(h, begin, content, content - 3, t.id, output);
    var owner: map<int, int> := map[1 := A];
    var s1 := Serve(c, s, ag0, owner, t, 2);
    var ag1 := Swapped(HandleAioRead(ag0, 2), 1);
    var s2 := EnterSwaps(c, s1, HandleAioRead(ag0, 2), owner, 1, 2);
    Then(c, s, s1, s2);
    var ag2 := Sent(ag1, s1.memory[1], 1);
    var s3 := Sends(c, s2, ag1, owner, 1);
    Then(c, s, s2, s3);
    s' := EndsHalf(c, s3, ag2, owner);
    Then(c, s, s3, s');
    ag, output' := ag2.(pc := Fetching), ag2.output;
  }

  /** The two bytes are read, the second of them beyond the range. */
  lemma TwoMore(c: Config, s: State, h: int, begin: nat, content: nat, ag: Agent, output: seq<Byte>)
    returns (s': State, ag': Agent)
    requires Leaves(c, h, begin, content) && Rests(s.sched) && Only(s, ag, map[1 := A]) && Filled(s, 1, 2)
    requires ag == NewAgent(h, begin, content).(offset := begin + content - 1, transferred := content - 2,
                                               pc := Fetching,
                                                buffer := 1, bufSize := 2, send := 1, output := output)
    ensures ag' == ag.(pc := Resting, offset := begin + content + 1, reserve := 2, reserveSize := 2)
    ensures Reaches(c, s, s') && Rests(s'.sched) && Only(s', ag', map[1 := A, 2 := A]) && Filled(s', 1, 2)
            && Filled(s', 2, 2)
  {
    var s1, t := FetchAsks(c, s, ag, map[1 := A], 2);
    var ag1 := ag.(pc := Resting, reserve := 2, aioId := t.id);
    var owner := map[1 := A, 2 := A];
    assert map[1 := A][2 := A] == owner;
    s' := Serve(c, s1, ag1, owner, t, 2);
    Then(c, s, s1, s');
    ag' := HandleAioRead(ag1, 2);
  }

  /** A byte of the buffer is sent. */
  lemma SendsOne(c: Config, s: State, ag: Agent, owner: map<int, int>, b: int) returns (s': State)
    requires Only(s, ag, owner) && Rests(s.sched) && Ready(ag) && b > 0 && b !in owner && ag.buffer != NONE
    requires ag.send < ag.bufSize && ag.transferred < ag.content && Filled(s, ag.buffer, ag.bufSize)
    ensures Reaches(c, s, s') && s'.sched == s.sched && s'.memory == s.memory
    ensures Only(s', Sent(ag.(pc := Sending(1, 0)), s.memory[ag.buffer], 1), owner)
  {
    var s1 := EnterResumes(c, s, ag, owner, 1, b);
    s' := Sends(c, s1, ag.(pc := Sending(1, 0)), owner, 1);
    Then(c, s, s1, s');
  }

  /** The rest of the first buffer is sent, and the buffer given back. */
  lemma FirstOut(c: Config, s: State, h: int, begin: nat, content: nat, ag: Agent, output: seq<Byte>)
    returns (s': State, ag': Agent)
    requires Leaves(c, h, begin, content) && Rests(s.sched) && Only(s, ag, map[1 := A, 2 := A]) && Filled(s, 1, 2)
             && Filled(s, 2, 2)
    requires ag == NewAgent(h, begin, content).(offset := begin + content + 1, transferred := content - 2,
                     buffer := 1, bufSize := 2, send := 1, reserve := 2, reserveSize := 2, output := output)
    ensures ag' == NewAgent(h, begin, content).(offset := begin + content + 1, transferred := content - 1,
                     reserve := 2, reserveSize := 2, output := ag'.output)
    ensures Reaches(c, s, s') && Rests(s'.sched) && Only(s', ag', map[2 := A]) && Filled(s', 2, 2)
  {
    var owner := map[1 := A, 2 := A];
    var s1 := SendsOne(c, s, ag, owner, 3);
    var ag1 := Sent(ag.(pc := Sending(1, 0)), s.memory[1], 1);
    s' := GivesBack(c, s1, ag1, owner, 3);
    Then(c, s, s1, s');
    ag' := ag1.(buffer := NONE, bufSize := 0, send := 0, pc := Resting);
    assert owner - {1} == map[2 := A];
  }

  lemma GivesBack(c: Config, s: State, ag: Agent, owner: map<int, int>, b: int) returns (s': State)
    requires Only(s, ag, owner) && Rests(s.sched) && ag.pc.Sending? && ag.pc.sent >= ag.pc.max && b > 0 && b !in owner
    requires ag.transferred != ag.content && ag.send == ag.bufSize && ag.buffer in owner
    requires !ag.eof && !ag.failed && ag.reserve != NONE
    ensures Reaches(c, s, s') && s'.sched == s.sched && s'.memory == s.memory
    ensures Only(s', ag.(buffer := NONE, bufSize := 0, send := 0, pc := Resting), owner - {ag.buffer})
  {
    var s1 := EndsAll(c, s, ag, owner);
    var ag1 := ag.(buffer := NONE, bufSize := 0, send := 0, pc := Fetching);
    s' := FetchSkips(c, s1, ag1, owner - {ag.buffer}, b);
    Then(c, s, s1, s');
  }

  /** The two bytes are sent: one more than the range has. */
  lemma SecondOut(c: Config, s: State, h: int, begin: nat, content: nat, ag: Agent) returns (s': State, ag': Agent)
    requires Leaves(c, h, begin, content) && Rests(s.sched) && Only(s, ag, map[2 := A]) && Filled(s, 2, 2)
    requires ag == NewAgent(h, begin, content).(offset := begin + content + 1, transferred := content - 1,
                     reserve := 2, reserveSize := 2, output := ag.output)
    ensures Reaches(c, s, s') && Rests(s'.sched) && Only(s', ag', map[2 := A])
    ensures ag' == NewAgent(h, begin, content).(offset := begin + content + 1, transferred := content + 1,
                     buffer := 2, bufSize := 2, send := 2, pc := Sending(2, 2), output := ag'.output)
  {
    var s1 := EnterSwaps(c, s, ag, map[2 := A], 2, 3);
    s' := Sends(c, s1, Swapped(ag, 2), map[2 := A], 2);
    Then(c, s, s1, s');
    ag' := Sent(Swapped(ag, 2), s1.memory[2], 2);
  }

  lemma LastRound(c: Config, s: State, h: int, begin: nat, content: nat, t: Ticket, output: seq<Byte>)
    returns (s': State)
    requires Leaves(c, h, begin, content) && Round(c, s, h, begin, content, content - 3, t, output)
    ensures Reaches(c, s, s') && A in s'.agents && HasRange(s'.agents[A], h, begin, content)
            && s'.agents[A].transferred > content && AsksTooMuch(c, s')
  {
    var s1, ag1, output1 := HalfSent(c, s, h, begin, content, t, output);
    var s2, ag2 := TwoMore(c, s1, h, begin, content, ag1, output1);
    Then(c, s, s1, s2);
    var s3, ag3 := FirstOut(c, s2, h, begin, content, ag2, output1);
    Then(c, s, s2, s3);
    var s4, ag4 := SecondOut(c, s3, h, begin, content, ag3);
    Then(c, s, s3, s4);
    var s5 := EndsAll(c, s4, ag4, map[2 := A]);
    Then(c, s, s4, s5);
    s' := FetchWraps(c, s5, ag4.(buffer := NONE, bufSize := 0, send := 0, pc := Fetching), map[2 := A] - {2}, 3);
    Then(c, s, s5, s');
  }

  /** Some worker is, or will be, asked to read more than a buffer holds. */
  ghost predicate AsksTooMuch(c: Config, s: State) {
    exists t :: Active(s.sched, t) && t.nbytes > c.block
  }

  /** Less than nothing is left to ask for; as a size_t that is more than can be read. */
  lemma FetchWraps(c: Config, s: State, ag: Agent, owner: map<int, int>, b: int) returns (s': State)
    requires Only(s, ag, owner) && Rests(s.sched) && ag.pc.Fetching? && !ag.eof && !ag.failed && c.Ok()
    requires WantsRead(ag) && ReadBytes(c, ag) == -1 && b > 0 && b !in owner
    ensures Reaches(c, s, s') && !s'.fault && AsksTooMuch(c, s')
    ensures A in s'.agents && SameRange(ag, s'.agents[A]) && s'.agents[A].transferred == ag.transferred
  {
    CanPostAtRest(s);
    s' := FetchStep(c, s, A, ag, b, true);
    assert Unsigned(-1) > c.block;
    Go(c, s, Fetch(A, b, true), s');
    WrappedIsPosted(c, s, ag.(pc := Resting), b);
  }

  lemma WrappedIsPosted(c: Config, s: State, ag: Agent, b: int)
    requires Rests(s.sched) && CanPost(s) && c.Ok() && ReadBytes(c, ag) == -1
    ensures AsksTooMuch(c, StartRead(c, s, A, ag, b, 0, true))
  {
    var t := ReadTicket(c, A, ag, b, 0);
    PostAtRest(s.sched, t);
    PostedIsActive(StartRead(c, s, A, ag, b, 0, true).sched, t.(id := IdOf(s.sched.book.count)));
  }

  lemma PostedIsActive(s: Sched, t: Ticket)
    requires Posted(s, t)
    ensures Active(s, t)
  {
    var q: Queue := [[Request(t, 0)]];
    assert q[1..] == [];
    assert Flatten(q) == [Request(t, 0)] + Flatten([]);
    assert Tickets([Request(t, 0)]) == [t];
    assert t in [t];
  }

  // ---------- Exactly the safe ranges ----------

  ghost predicate OpensOnly(es: seq<TransferSystem.Event>, h: int, begin: nat, content: nat) {
    forall i | 0 <= i < |es| && es[i].Open? :: es[i].handle == h && es[i].begin == begin && es[i].content == content
  }

  /** The agent was given this range. */
  ghost predicate HasRange(ag: Agent, h: int, begin: nat, content: nat) {
    ag.handle == h && ag.begin == begin && ag.content == content
  }

  /** In no run, whatever the other transfers are, does a transfer of this range send more than it. */
  ghost predicate NeverLeaves(c: Config, h: int, begin: nat, content: nat) {
    forall es, s, a | Reached(c, es, s) && a in s.agents && HasRange(s.agents[a], h, begin, content) ::
      s.agents[a].transferred <= content
  }

  /** In no run whose transfers all ask for this range does one of them send more than it. */
  ghost predicate NeverLeavesAlone(c: Config, h: int, begin: nat, content: nat) {
    forall es, s | Reached(c, es, s) && OpensOnly(es, h, begin, content) ::
      forall a | a in s.agents :: s.agents[a].transferred <= s.agents[a].content
  }

  /** In no run whose transfers all ask for this range is a worker asked to read more than a buffer holds. */
  ghost predicate NeverAsksTooMuch(c: Config, h: int, begin: nat, content: nat) {
    forall es, s | Reached(c, es, s) && OpensOnly(es, h, begin, content) :: !AsksTooMuch(c, s)
  }

  /** In no run whose transfers all ask for this range does an assertion fail. */
  ghost predicate NeverFails(c: Config, h: int, begin: nat, content: nat) {
    forall es, s | Reached(c, es, s) && OpensOnly(es, h, begin, content) :: !s.fault
  }

  lemma FirstRound(c: Config, h: int, begin: nat, content: nat) returns (e: TransferSystem.Event, s: State, t: Ticket)
    requires Leaves(c, h, begin, content)
    ensures e == Open(A, h, begin, content, 1, true) && Goes(c, TransferSystem.Init(), e, s)
    ensures Round(c, s, h, begin, content, 0, t, [])
  {
    var s0 := TransferSystem.Init();
    e := Open(A, h, begin, content, 1, true);
    CanPostAtRest(s0);
    var ag := NewAgent(h, begin, content);
    s := StartRead(c, Put(s0, A, ag), A, ag, 1, 5, true);
    t := StartsRead(c, Put(s0, A, ag), ag, map[], 1, 5);
    assert map[][1 := A] == map[1 := A];
  }

  lemma Overshoots(c: Config, h: int, begin: nat, content: nat) returns (es: seq<TransferSystem.Event>, s: State)
    requires Leaves(c, h, begin, content)
    ensures Leads(Next(c), TransferSystem.Init(), es, s) && OpensOnly(es, h, begin, content)
    ensures A in s.agents && HasRange(s.agents[A], h, begin, content) && s.agents[A].transferred > content
            && AsksTooMuch(c, s)
  {
    var e, s1, t := FirstRound(c, h, begin, content);
    var s2, t2, o2 := Rounds(c, s1, h, begin, content, 0, t, []);
    s := LastRound(c, s2, h, begin, content, t2, o2);
    Then(c, s1, s2, s);
    var rest :| Leads(Next(c), s1, rest, s) && NoOpens(rest);
    Single(Next(c), TransferSystem.Init(), e, s1);
    Concat(Next(c), TransferSystem.Init(), [e], s1, rest, s);
    es := [e] + rest;
  }

  lemma AloneIsSafe(c: Config, h: int, begin: nat, content: nat)
    requires RangeSafe(c, h, begin, content)
    ensures NeverLeavesAlone(c, h, begin, content) && NeverAsksTooMuch(c, h, begin, content)
  {
    forall es, s | Reached(c, es, s) && OpensOnly(es, h, begin, content)
      ensures !AsksTooMuch(c, s) && forall a | a in s.agents :: s.agents[a].transferred <= s.agents[a].content
    {
      assert forall i | 0 <= i < |es| :: OpensSafely(c, es[i]);
      SafeRunsStaySafe(c, es, s);
      forall a | a in s.agents ensures s.agents[a].transferred <= s.agents[a].content {
        BytesInOrder(c, es, s, a);
      }
      forall t | Active(s.sched, t) ensures t.nbytes <= c.block {
        CountsAreBlocks(c, es, s, t);
      }
    }
  }

  lemma AmongOthersIsSafe(c: Config, h: int, begin: nat, content: nat)
    requires RangeSafe(c, h, begin, content)
    ensures NeverLeaves(c, h, begin, content)
  {
    forall es, s, a | Reached(c, es, s) && a in s.agents && HasRange(s.agents[a], h, begin, content)
      ensures s.agents[a].transferred <= content
    {
      BytesInOrder(c, es, s, a);
    }
  }

  /**
   * A range is safe exactly when RangeSafe, which a caller can check beforehand, says so: by itself,
   * and whatever the other transfers are.  Otherwise there is a run that sends more than the range, and
   * then asks a worker for more than a buffer holds.
   */
  lemma ExactlySafe(c: Config, h: int, begin: nat, content: nat)
    requires c.Ok() && h in c.files
    ensures NeverLeaves(c, h, begin, content) <==> RangeSafe(c, h, begin, content)
    ensures NeverLeavesAlone(c, h, begin, content) <==> RangeSafe(c, h, begin, content)
    ensures NeverAsksTooMuch(c, h, begin, content) <==> RangeSafe(c, h, begin, content)
  {
    if RangeSafe(c, h, begin, content) {
      AloneIsSafe(c, h, begin, content);
      AmongOthersIsSafe(c, h, begin, content);
    } else {
      var es, s := Overshoots(c, h, begin, content);
      assert Reached(c, es, s) && HasRange(s.agents[A], h, begin, content);
    }
  }

  /** An assertion of start_aio fails in some run of transfers of this range alone exactly when the range is empty. */
  lemma ExactlyFails(c: Config, h: int, begin: nat, content: nat)
    requires c.Ok() && h in c.files
    ensures NeverFails(c, h, begin, content) <==> content != 0
  {
    if content == 0 {
      var e, s := OpensNothing(c, h, begin);
      assert Reached(c, [e], s) && OpensOnly([e], h, begin, content) && s.fault;
    } else {
      forall es, s | Reached(c, es, s) && OpensOnly(es, h, begin, content) ensures !s.fault {
        FaultExact(c, es, s);
      }
    }
  }

  lemma OpensNothing(c: Config, h: int, begin: nat) returns (e: TransferSystem.Event, s: State)
    requires c.Ok() && h in c.files
    ensures Leads(Next(c), TransferSystem.Init(), [e], s) && e == Open(A, h, begin, 0, 1, true) && s.fault
  {
    e := Open(A, h, begin, 0, 1, true);
    CanPostAtRest(TransferSystem.Init());
    s := Fault(TransferSystem.Init());
    assert ReadBytes(c, NewAgent(h, begin, 0)) == 0;
    Single(Next(c), TransferSystem.Init(), e, s);
  }

  // ---------- A deleted agent that is still listed ----------

  lemma ReadFails(c: Config, s: State, ag: Agent, owner: map<int, int>, t: Ticket) returns (s': State)
    requires Only(s, ag, owner) && InHand(s.sched, t, Start) && Awaits(c, ag, owner, t)
    ensures Reaches(c, s, s') && Only(s', ag, owner) && InHand(s'.sched, t, Read(-1))
  {
    s' := s.(sched := AioProtocol.Step(s.sched, Pread(W, -1)));
    Go(c, s, Work(Pread(W, -1)), s');
  }

  lemma FailOne(c: Config, s: State, ag: Agent, owner: map<int, int>, t: Ticket) returns (s': State)
    requires Only(s, ag, owner) && InHand(s.sched, t, Start) && Awaits(c, ag, owner, t)
    ensures Reaches(c, s, s') && Only(s', ag.(aioId := -1, failed := true), owner) && InHand(s'.sched, t, Called)
  {
    var s1 := ReadFails(c, s, ag, owner, t);
    s' := CallFails(c, s1, ag, owner, t);
    Then(c, s, s1, s');
  }

  lemma CallFails(c: Config, s: State, ag: Agent, owner: map<int, int>, t: Ticket) returns (s': State)
    requires Only(s, ag, owner) && InHand(s.sched, t, Read(-1)) && Awaits(c, ag, owner, t)
    ensures Reaches(c, s, s') && Only(s', ag.(aioId := -1, failed := true), owner) && InHand(s'.sched, t, Called)
  {
    s' := CallbackStep(s, W);
    assert HandleAioRead(ag, -1) == ag.(aioId := -1, failed := true);
    Go(c, s, Work(Callback(W)), s');
  }

  /** The client goes away; with no read in flight the agent is closed and deleted at once. */
  lemma GoesAway(c: Config, s: State, ag: Agent, owner: map<int, int>) returns (s': State)
    requires Only(s, ag, owner) && s.sched.queue == [] && ag.pc.Resting? && ag.clientAlive && ag.aioId == -1
    requires ag.buffer == NONE && ag.reserve in owner
    ensures Reaches(c, s, s') && s'.sched == s.sched && s'.agents == map[]
  {
    var s1 := Put(s, A, ag.(clientAlive := false, cancelPending := false, pc := Closed));
    Go(c, s, DeleteClient(A), s1);
    s' := s1.(owner := owner - {ag.buffer, ag.reserve}, agents := map[]);
    Go(c, s1, Delete(A), s');
    Then(c, s, s1, s');
  }

  /**
   * Between its callback and its removal from the running list a request may name
   * an agent that has been closed and deleted.
   */
  lemma DeletedYetListed(c: Config, h: int)
    requires c.Ok() && h in c.files
    ensures exists es, s, t :: Reached(c, es, s) && t in s.sched.running && t.handler !in s.agents
  {
    var s0 := TransferSystem.Init();
    CanPostAtRest(s0);
    var ag := NewAgent(h, 0, 1);
    var e := Open(A, h, 0, 1, 1, true);
    var s1 := StartRead(c, Put(s0, A, ag), A, ag, 1, 5, true);
    var t := StartsRead(c, Put(s0, A, ag), ag, map[], 1, 5);
    Single(Next(c), s0, e, s1);
    var s := ReadFailsAndClientGoes(c, s1, ag.(reserve := 1, aioId := t.id), map[][1 := A], t);
    var rest :| Leads(Next(c), s1, rest, s) && NoOpens(rest);
    Concat(Next(c), s0, [e], s1, rest, s);
    assert Reached(c, [e] + rest, s);
  }

  lemma ReadFailsAndClientGoes(c: Config, s: State, ag: Agent, owner: map<int, int>, t: Ticket) returns (s': State)
    requires Only(s, ag, owner) && Posted(s.sched, t) && Awaits(c, ag, owner, t)
    requires ag.pc.Resting? && ag.clientAlive && ag.buffer == NONE
    ensures Reaches(c, s, s') && t in s'.sched.running && s'.agents == map[]
  {
    var s1 := TakeOne(c, s, t);
    var s2 := FailOne(c, s1, ag, owner, t);
    Then(c, s, s1, s2);
    s' := GoesAway(c, s2, ag.(aioId := -1, failed := true), owner);
    Then(c, s, s2, s');
  }
}
