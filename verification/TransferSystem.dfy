/**
 * The file transfers of the cache server on top of the scheduler: any number of
 * transfer agents, each sending one buffer while the next is read, the I/O
 * workers that fill the buffers, and the dispatcher that closes agents.  Every
 * thread may be interrupted between any two of its critical sections.
 */
module TransferSystem {
  import opened AioSpec
  import opened AioProtocol
  import opened Packets

  const NONE := 0

  /** The files by handle, and the size of the pool's buffers. */
  datatype Config = Config(files: map<int, seq<Byte>>, block: nat) {
    /** Buffers hold something, and sizes are numbers that a signed 64-bit integer holds. */
    ghost predicate Ok() {
      0 < block <= SSIZE_MAX && forall h | h in files :: |files[h]| <= SSIZE_MAX
    }
  }

  const SSIZE_MAX := 0x7fff_ffff_ffff_ffff

  /** A signed number as a size_t. */
  function Unsigned(n: int): nat {
    n % TWO_TO_THE_64
  }

  /** Where the dispatcher is with an agent. */
  datatype Pc = Resting | Sending(max: int, sent: int) | Fetching | Closed

  /** A serial_file_transfer together with the job that drives it. */
  datatype Agent = Agent(
    handle: int, begin: nat, content: nat,
    aioId: int, eof: bool, failed: bool, cancelPending: bool,
    send: nat, bufSize: nat, reserveSize: nat, offset: nat, transferred: nat,
    buffer: int, reserve: int,
    pc: Pc, stopped: bool, closePending: bool, clientAlive: bool,
    output: seq<Byte>)

  /**
   * `owner` has the allocated buffers, by the agent that allocated them; `fault` is a failed assertion or a
   * wild access.
   */
  datatype State = State(
    sched: Sched, agents: map<int, Agent>, memory: map<int, seq<Byte>>, owner: map<int, int>, fault: bool)

  datatype Event =
    | Open(a: int, handle: int, begin: nat, content: nat, b: int, accepted: bool)
    | Enter(a: int, max: int, b: int, accepted: bool)
    | Send(a: int, n: nat)
    | SendBlocked(a: int)
    | SendFailed(a: int)
    | EndSend(a: int)
    | Fetch(a: int, b: int, accepted: bool)
    | DeleteClient(a: int)
    | RetryClose(a: int)
    | Delete(a: int)
    | Work(e: AioProtocol.Event)

  ghost function Init(): State {
    State(AioProtocol.Init(), map[], map[], map[], false)
  }

  // ---------- Pieces of steps ----------

  function Fault(s: State): State {
    s.(fault := true)
  }

  function Put(s: State, a: int, ag: Agent): State {
    s.(agents := s.agents[a := ag])
  }

  function NewAgent(handle: int, begin: nat, content: nat): Agent {
    Agent(handle, begin, content, -1, false, false, false, 0, 0, 0, begin, 0,
          NONE, NONE, Resting, false, false, true, [])
  }

  /** How much start_read asks for, before it becomes a size_t: less than nothing, when more than the range was sent. */
  function ReadBytes(c: Config, ag: Agent): int {
    var left := ag.content - ag.transferred;
    if c.block > left then left else c.block
  }

  function ReadTicket(c: Config, a: int, ag: Agent, b: int, ioPrio: int): Ticket {
    Ticket(0, ag.handle, ioPrio, ag.offset, Unsigned(ReadBytes(c, ag)), b, a)
  }

  ghost predicate CanPost(s: State) {
    AioProtocol.Enabled(s.sched, AioProtocol.Submit(Ticket(0, 0, 0, 0, 0, 0, 0), 0))
  }

  /**
   * start_read, with the buffer the pool hands out and whether the scheduler takes the request.  The
   * scheduler asserts that something is asked for.
   */
  ghost function StartRead(c: Config, s: State, a: int, ag: Agent, b: int, ioPrio: int, accepted: bool): State
    requires CanPost(s)
  {
    if Unsigned(ReadBytes(c, ag)) == 0 then Fault(s)
    else if !accepted then Put(s, a, ag.(reserve := NONE, reserveSize := 0))
    else
      var e := AioProtocol.Submit(ReadTicket(c, a, ag, b, ioPrio), 0);
      Put(s.(sched := AioProtocol.Step(s.sched, e), owner := s.owner[b := a]), a,
          ag.(reserve := b, aioId := IdOf(s.sched.book.count)))
  }

  /** A new agent starts with a read; it is not listed before that. */
  ghost function OpenStep(c: Config, s: State, a: int, ag: Agent, b: int, accepted: bool): State
    requires CanPost(s)
  {
    if Unsigned(ReadBytes(c, ag)) == 0 then Fault(s) else StartRead(c, Put(s, a, ag), a, ag, b, 5, accepted)
  }

  predicate FreshBuffer(s: State, b: int) {
    b > 0 && b !in s.owner
  }

  /** The buffer that was read into becomes the one that is sent. */
  function Swapped(ag: Agent, max: int): Agent {
    ag.(buffer := ag.reserve, bufSize := ag.reserveSize, send := 0, reserve := NONE, reserveSize := 0,
        pc := Sending(max, 0))
  }

  /** transfer_data up to its send loop. */
  ghost function EnterStep(c: Config, s: State, a: int, ag: Agent, max: int, b: int, accepted: bool): State
    requires CanPost(s)
  {
    if !ag.clientAlive then Fault(s)
    else if ag.buffer != NONE then Put(s, a, ag.(pc := Sending(max, 0)))
    else if ag.aioId != -1 then s
    else if ag.reserve == NONE then StartRead(c, s, a, ag, b, 5, accepted)
    else Put(s, a, Swapped(ag, max))
  }

  predicate LoopGuard(ag: Agent) {
    ag.pc.Sending? && ag.pc.sent < ag.pc.max && ag.send < ag.bufSize && ag.transferred < ag.content
  }

  /** The agent after n more bytes of its buffer went to the socket. */
  function Sent(ag: Agent, data: seq<Byte>, n: nat): Agent
    requires ag.pc.Sending? && ag.send + n <= |data|
  {
    ag.(output := ag.output + data[ag.send..ag.send + n], transferred := ag.transferred + n,
        send := ag.send + n, pc := Sending(ag.pc.max, ag.pc.sent + n))
  }

  function SendStep(s: State, a: int, ag: Agent, n: nat): State
    requires ag.pc.Sending?
  {
    if ag.buffer !in s.memory || ag.send + n > |s.memory[ag.buffer]| then Fault(s)
    else Put(s, a, Sent(ag, s.memory[ag.buffer], n))
  }

  /** What follows the send loop, up to the point where transfer_data takes the buffer lock. */
  function Spent(ag: Agent): Agent {
    if ag.transferred == ag.content then ag.(pc := Resting, stopped := true)
    else if ag.send < ag.bufSize / 2 then ag.(pc := Resting)
    else if ag.send < ag.bufSize then ag.(pc := Fetching)
    else ag.(buffer := NONE, bufSize := 0, send := 0, pc := Fetching)
  }

  /** The whole buffer is out, and goes back to the pool. */
  predicate Empties(ag: Agent) {
    ag.transferred != ag.content && ag.send >= ag.bufSize / 2 && ag.send >= ag.bufSize
  }

  function EndSendStep(s: State, a: int, ag: Agent): State {
    if !Empties(ag) then Put(s, a, Spent(ag))
    else if ag.buffer !in s.owner then Fault(s)
    else Put(s.(owner := s.owner - {ag.buffer}), a, Spent(ag))
  }

  /** Nothing is in flight or in reserve, and the range has not been read to its end. */
  predicate WantsRead(ag: Agent) {
    ag.aioId == -1 && ag.offset - ag.begin != ag.content && ag.reserve == NONE
  }

  /** The end of transfer_data, under the buffer lock: prefetch the next block. */
  ghost function FetchStep(c: Config, s: State, a: int, ag: Agent, b: int, accepted: bool): State
    requires CanPost(s)
  {
    if ag.eof || ag.failed then
      Put(s, a, ag.(pc := Resting, stopped := ag.stopped || (ag.send == ag.bufSize && !ag.failed)))
    else if WantsRead(ag) then
      StartRead(c, s, a, ag.(pc := Resting), b, 0, accepted)
    else Put(s, a, ag.(pc := Resting))
  }

  /** What close_i, and the job that called it, make of the answer. */
  function Answered(s: State, a: int, ag: Agent, canceled: bool): State {
    if canceled then Put(s, a, ag.(cancelPending := false, pc := Closed))
    else Put(s, a, ag.(cancelPending := true, closePending := true))
  }

  /** close_i: cancel the read in flight, if there is one. */
  ghost function CloseStep(s: State, a: int, ag: Agent): State
    requires NonemptyGroups(s.sched.queue)
  {
    if ag.aioId == -1 then Answered(s, a, ag, true)
    else
      var sched' := AioProtocol.Step(s.sched, AioProtocol.Cancel(ag.handle, ag.aioId));
      Answered(s.(sched := sched'), a, ag, AnswersCanceled(sched', ag.aioId))
  }

  /** The destructor of a closed agent gives its buffers back. */
  function DeleteStep(s: State, a: int, ag: Agent): State {
    if (ag.buffer != NONE && ag.buffer !in s.owner) || (ag.reserve != NONE && ag.reserve !in s.owner) then Fault(s)
    else s.(owner := s.owner - {ag.buffer, ag.reserve}, agents := s.agents - {a})
  }

  /** The bytes of a file that a read can return. */
  function Available(c: Config, t: Ticket): nat {
    if t.handle in c.files && 0 <= t.offset < |c.files[t.handle]| then |c.files[t.handle]| - t.offset else 0
  }

  /**
   * pread fails, or returns a nonempty prefix of what is there, or nothing at the end of the file.  It refuses
   * a count that a signed integer does not hold.
   */
  predicate CanRead(c: Config, t: Ticket, result: int) {
    || result == -1
    || (t.nbytes <= SSIZE_MAX && 0 <= result <= t.nbytes && result <= Available(c, t)
        && (result == 0 ==> Available(c, t) == 0))
  }

  function Overwrite(was: seq<Byte>, data: seq<Byte>): seq<Byte> {
    if |data| <= |was| then data + was[|data|..] else data
  }

  /** A worker's pread writes into the request's buffer, which is the handler's and holds a block. */
  ghost function PreadStep(c: Config, s: State, w: int, result: int): State
    requires AioProtocol.Enabled(s.sched, AioProtocol.Pread(w, result)) && CanRead(c, Current(s.sched, w), result)
  {
    var t := Current(s.sched, w);
    var s' := s.(sched := AioProtocol.Step(s.sched, AioProtocol.Pread(w, result)));
    if result > c.block || t.buffer !in s.owner || s.owner[t.buffer] != t.handler then Fault(s)
    else if result <= 0 then s'
    else
      var was := if t.buffer in s.memory then s.memory[t.buffer] else [];
      s'.(memory := s.memory[t.buffer := Overwrite(was, c.files[t.handle][t.offset..t.offset + result])])
  }

  /** handle_aio_read. */
  function HandleAioRead(ag: Agent, result: int): Agent {
    var ag' := ag.(aioId := -1);
    if ag.cancelPending then ag'
    else if result < 0 then ag'.(failed := true)
    else if result == 0 then ag'.(eof := true)
    else ag'.(offset := ag.offset + result, reserveSize := result)
  }

  /** A worker calls the handler of its request, which asserts that this is the request it waits for. */
  ghost function CallbackStep(s: State, w: int): State
    requires AioProtocol.Enabled(s.sched, AioProtocol.Callback(w))
  {
    var t, result := Current(s.sched, w), s.sched.workers[w].phase.result;
    var s' := s.(sched := AioProtocol.Step(s.sched, AioProtocol.Callback(w)));
    if t.handler !in s.agents then Fault(s)
    else
      var ag := s.agents[t.handler];
      if ag.aioId != t.id then Fault(s)
      else if !ag.cancelPending && result > 0 && ag.reserve != t.buffer then Fault(s)
      else Put(s', t.handler, HandleAioRead(ag, result))
  }

  // ---------- Steps ----------

  ghost predicate Enabled(c: Config, s: State, e: Event) {
    && !s.fault
    && NonemptyGroups(s.sched.queue)
    && match e
       case Open(a, handle, _, content, b, _) =>
         a !in s.agents && handle in c.files && FreshBuffer(s, b) && CanPost(s)
       case Enter(a, max, b, _) =>
         && a in s.agents && s.agents[a].pc.Resting? && !s.agents[a].stopped && !s.agents[a].closePending
         && max > 0 && FreshBuffer(s, b) && CanPost(s)
       case Send(a, n) => a in s.agents && LoopGuard(s.agents[a]) && n <= PACKET_SIZE
                         && s.agents[a].send + n <= s.agents[a].bufSize
       case SendBlocked(a) => a in s.agents && LoopGuard(s.agents[a])
       case SendFailed(a) => a in s.agents && LoopGuard(s.agents[a])
       case EndSend(a) => a in s.agents && s.agents[a].pc.Sending? && !LoopGuard(s.agents[a])
       case Fetch(a, b, _) => a in s.agents && s.agents[a].pc.Fetching? && FreshBuffer(s, b) && CanPost(s)
       case DeleteClient(a) => a in s.agents && s.agents[a].pc.Resting? && s.agents[a].clientAlive
       case RetryClose(a) => a in s.agents && s.agents[a].pc.Resting? && s.agents[a].closePending
       case Delete(a) => a in s.agents && s.agents[a].pc.Closed?
       case Work(w) =>
         && AioProtocol.Enabled(s.sched, w)
         && (w.Pop? || w.Pread? || w.Callback? || w.Dequeue? || w.Free?)
         && (w.Pread? ==> CanRead(c, Current(s.sched, w.worker), w.result))
  }

  ghost function Step(c: Config, s: State, e: Event): State
    requires Enabled(c, s, e)
  {
    match e
    case Open(a, handle, begin, content, b, accepted) =>
      OpenStep(c, s, a, NewAgent(handle, begin, content), b, accepted)
    case Enter(a, max, b, accepted) => EnterStep(c, s, a, s.agents[a], max, b, accepted)
    case Send(a, n) => SendStep(s, a, s.agents[a], n)
    case SendBlocked(a) => Put(s, a, s.agents[a].(pc := Resting))
    case SendFailed(a) => Put(s, a, s.agents[a].(pc := Resting, stopped := true))
    case EndSend(a) => EndSendStep(s, a, s.agents[a])
    case Fetch(a, b, accepted) => FetchStep(c, s, a, s.agents[a], b, accepted)
    case DeleteClient(a) => CloseStep(s, a, s.agents[a].(clientAlive := false))
    case RetryClose(a) => CloseStep(s, a, s.agents[a])
    case Delete(a) => DeleteStep(s, a, s.agents[a])
    case Work(w) =>
      if w.Pread? then PreadStep(c, s, w.worker, w.result)
      else if w.Callback? then CallbackStep(s, w.worker)
      else if w.Dequeue? && Current(s.sched, w.worker) !in s.sched.running then Fault(s)
      else s.(sched := AioProtocol.Step(s.sched, w))
  }
}
