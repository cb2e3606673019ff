/**
 * The transfer agent as an object: each of its critical sections, and its send loop, does to its
 * fields what the corresponding steps of the transfer system do to the agent's value.
 */
module SerialTransfer {
  import opened Lists
  import opened AioSpec
  import opened AioProtocol
  import opened Packets
  import opened TransferSystem
  import AioTask

  /** Sending twice is sending the sum, so that the loop is a run of single sends. */
  lemma SentTwice(ag: Agent, data: seq<Byte>, n: nat, n': nat)
    requires ag.pc.Sending? && ag.send + n + n' <= |data|
    ensures Sent(Sent(ag, data, n), data, n') == Sent(ag, data, n + n')
  {
    Pieces(ag.output, data, ag.send, n, n');
  }

  lemma Pieces(output: seq<Byte>, data: seq<Byte>, i: nat, n: nat, n': nat)
    requires i + n + n' <= |data|
    ensures output + data[i..i + n] + data[i + n..i + n + n'] == output + data[i..i + n + n']
  {
    assert data[i..i + n] + data[i + n..i + n + n'] == data[i..i + n + n'];
  }

  lemma FrontTaken(output: seq<Byte>, data: seq<Byte>, from: nat, send: nat, to: nat)
    requires from <= send <= to <= |data|
    ensures output + data[from..send] + data[send..to] == output + data[from..to]
  {
    assert data[from..send] + data[send..to] == data[from..to];
  }

  lemma SentNothing(ag: Agent, data: seq<Byte>)
    requires ag.pc.Sending? && ag.send <= |data|
    ensures Sent(ag, data, 0) == ag
  {
    assert ag.output + data[ag.send..ag.send] == ag.output;
  }

  /** The agent with its read under way, and with its read refused. */
  function WithRead(ag: Agent, b: int, id: int): Agent {
    ag.(reserve := b, aioId := id)
  }

  function Refused(ag: Agent): Agent {
    ag.(reserve := NONE, reserveSize := 0)
  }

  /** The agent after its read was cancelled, and when it was too late for that. */
  function Ended(ag: Agent): Agent {
    ag.(cancelPending := false, pc := Closed)
  }

  function Pending(ag: Agent): Agent {
    ag.(cancelPending := true, closePending := true)
  }

  lemma StartReadIs(c: Config, st: State, a: int, ag: Agent, b: int, ioPrio: int, accepted: bool)
    requires CanPost(st) && Unsigned(ReadBytes(c, ag)) > 0
    ensures var st' := TransferSystem.StartRead(c, st, a, ag, b, ioPrio, accepted);
            var e := AioProtocol.Submit(ReadTicket(c, a, ag, b, ioPrio), 0);
            && Starts(c, st, a, ag, b, ioPrio, accepted) && AioProtocol.Enabled(st.sched, e)
            && st'.sched == if accepted then AioProtocol.Step(st.sched, e) else st.sched
  {}

  /** What start_read makes of the agent. */
  ghost predicate Starts(c: Config, st: State, a: int, ag: Agent, b: int, ioPrio: int, accepted: bool)
    requires CanPost(st)
  {
    var st' := TransferSystem.StartRead(c, st, a, ag, b, ioPrio, accepted);
    && a in st'.agents
    && st'.agents[a] == if accepted then WithRead(ag, b, IdOf(st.sched.book.count)) else Refused(ag)
  }

  /** What close_i makes of the agent. */
  ghost predicate Closes(st: State, a: int, ag: Agent, canceled: bool)
    requires NonemptyGroups(st.sched.queue)
  {
    var st' := CloseStep(st, a, ag);
    a in st'.agents && st'.agents[a] == if canceled then Ended(ag) else Pending(ag)
  }

  lemma CloseIs(st: State, a: int, ag: Agent, canceled: bool)
    requires NonemptyGroups(st.sched.queue)
    requires canceled ==
      (ag.aioId == -1 || AnswersCanceled(AioProtocol.Step(st.sched, AioProtocol.Cancel(ag.handle, ag.aioId)), ag.aioId))
    ensures Closes(st, a, ag, canceled)
    ensures CloseStep(st, a, ag).sched ==
      if ag.aioId == -1 then st.sched else AioProtocol.Step(st.sched, AioProtocol.Cancel(ag.handle, ag.aioId))
  {}

  /** What a call of transfer_data finds: the bytes at hand, those of the range not sent yet, and a buffer to send. */
  datatype Plan = Plan(ready: nat, wanted: int, going: bool) {
    /** The send loop comes to its end. */
    predicate Ends(sent: nat, max: int) {
      Done(sent, ready, wanted, max)
    }
  }

  class Transfer {
    const self: int
    const task: AioTask.Scheduler
    const block: nat
    const handle: int
    const begin: nat
    const content: nat
    var aioId: int
    var eof: bool
    var failed: bool
    var cancelPending: bool
    var send: nat
    var bufSize: nat
    var reserveSize: nat
    var offset: nat
    var transferred: nat
    var buffer: int
    var reserve: int

    /** How much the read in flight asks for. */
    var asked: nat

    /** The bytes in the agent's buffers. */
    var memory: map<int, seq<Byte>>

    /** What the dispatcher is doing with the agent, and what the client has received. */
    ghost var pc: Pc
    ghost var stopped: bool
    ghost var closePending: bool
    ghost var clientAlive: bool
    ghost var output: seq<Byte>

    ghost function View(): Agent
      reads this
    {
      Agent(handle, begin, content, aioId, eof, failed, cancelPending, send, bufSize, reserveSize, offset, transferred,
            buffer, reserve, pc, stopped, closePending, clientAlive, output)
    }

    /** The buffers hold what their sizes say. */
    ghost predicate Valid()
      reads this
    {
      && block > 0 && send <= bufSize
      && (bufSize > 0 ==> buffer != NONE && buffer in memory && bufSize <= |memory[buffer]|)
      && (reserveSize > 0 ==> reserve != NONE && reserve in memory && reserveSize <= |memory[reserve]| && aioId == -1)
      && (buffer != NONE ==> buffer != reserve)
      && (aioId == -1 || aioId > 0) && block <= SSIZE_MAX
      && offset == begin + transferred + (bufSize - send) + reserveSize <= SSIZE_MAX
    }

    /** The scheduler is in order, and knows the agent's file. */
    ghost predicate TaskOk()
      reads task.queue, task.running
    {
      task.Valid() && 0 < handle < |task.queue.fdPool|
    }

    constructor (me: int, scheduler: AioTask.Scheduler, size: nat, h: int, from: nat, length: nat)
      requires 0 < size <= SSIZE_MAX && from <= SSIZE_MAX
      ensures View() == NewAgent(h, from, length) && Valid() && task == scheduler && block == size && self == me
      ensures Settled()
    {
      self, task, block := me, scheduler, size;
      handle, begin, content := h, from, length;
      aioId, eof, failed, cancelPending := -1, false, false, false;
      send, bufSize, reserveSize, offset, transferred := 0, 0, 0, from, 0;
      buffer, reserve, asked, memory := NONE, NONE, 0, map[];
      pc, stopped, closePending, clientAlive, output := Resting, false, false, true, [];
    }

    // ---------- The critical sections ----------

    /** The callback of a read, under the buffer lock.  Both of its assertions are preconditions here. */
    method HandleRead(id: int, result: int, into: int)
      requires id == aioId
      requires !cancelPending && result > 0 ==> reserve == into
      modifies `aioId, `eof, `failed, `offset, `reserveSize
      ensures View() == HandleAioRead(old(View()), result)
    {
      aioId := -1;
      if cancelPending {
        return;
      }
      if result < 0 {
        failed := true;
      } else if result == 0 {
        eof := true;
      } else {
        offset := offset + result;
        reserveSize := result;
      }
    }

    /** transfer_data takes over the buffer that was read into. */
    method TakeReserve(max: int)
      modifies `buffer, `bufSize, `send, `reserve, `reserveSize, `pc
      ensures View() == Swapped(old(View()), max)
    {
      buffer, bufSize, send := reserve, reserveSize, 0;
      reserve, reserveSize := NONE, 0;
      pc := Sending(max, 0);
    }

    /** n bytes of the buffer have gone to the socket. */
    method Account(n: nat, data: seq<Byte>)
      requires pc.Sending? && send + n <= |data|
      modifies `send, `transferred, `pc, `output
      ensures View() == Sent(old(View()), data, n)
    {
      output := output + data[send..send + n];
      transferred, send := transferred + n, send + n;
      pc := Sending(pc.max, pc.sent + n);
    }

    /**
     * The send loop: packets go out until the budget is spent, the buffer or the range is out, or the socket
     * takes no more; 0 stands for a blocked socket, and a negative result for a broken one.  `done` says that
     * the loop came to its end.
     */
    method SendPackets(max: int, data: seq<Byte>, replies: seq<Reply>)
      returns (result: int, sent: nat, done: bool, used: nat)
      requires pc == Sending(max, 0) && send <= bufSize <= |data|
      modifies `send, `transferred, `pc, `output
      ensures old(send) + sent <= bufSize && View() == Sent(old(View()), data, sent)
      ensures Within(sent, max)
      ensures Sends(replies, old(bufSize - send), old(content - transferred), max, sent, used)
      ensures done <==> Done(sent, old(bufSize - send), old(content - transferred), max)
      ensures result == if done then sent else Broken(replies, used)
    {
      ghost var ag := View();
      sent, done, used := 0, false, 0;
      SentNothing(ag, data);
      NothingSoFar(replies, bufSize - send, content - transferred, max);
      while sent < max && send < bufSize && transferred < content
        invariant used <= |replies| && ag.send + sent <= bufSize && View() == Sent(ag, data, sent)
        invariant Within(sent, max)
        invariant SoFar(replies, ag.bufSize - ag.send, ag.content - ag.transferred, max, sent, used)
        decreases |replies| - used
      {
        var size := if bufSize - send > PACKET_SIZE then PACKET_SIZE else bufSize - send;
        if used == |replies| || replies[used] == WouldBlock {
          return 0, sent, false, used;
        }
        if replies[used] == Fails {
          return -SEND_DATA_FAILED, sent, false, used;
        }
        var n := if replies[used].n < size then replies[used].n else size;
        OneMorePacket(replies, ag.bufSize - ag.send, ag.content - ag.transferred, max, sent, used);
        used := used + 1;
        SentTwice(ag, data, sent, n);
        Account(n, data);
        sent := sent + n;
      }
      result, done := sent, true;
    }

    /**
     * What follows the loop, up to the buffer lock; says whether the buffer went back to the pool, and whether
     * to prefetch.
     */
    method AfterLoop() returns (freed: bool, prefetch: bool)
      requires pc.Sending?
      modifies `buffer, `bufSize, `send, `pc, `stopped
      ensures View() == Spent(old(View())) && (freed <==> Empties(old(View()))) && (prefetch <==> pc.Fetching?)
      ensures if freed then buffer == NONE && bufSize == send == 0 else unchanged(`buffer, `bufSize, `send)
      ensures prefetch ==> (freed <==> old(send >= bufSize))
    {
      freed, prefetch := false, false;
      if transferred == content {
        pc, stopped := Resting, true;
        return;
      }
      pc := Resting;
      if send >= bufSize / 2 {
        prefetch, pc := true, Fetching;
        if send >= bufSize {
          buffer, bufSize, send, freed := NONE, 0, 0, true;
        }
      }
    }

    /** How many bytes start_read asks for, before that becomes a size_t. */
    function Count(): int
      reads `transferred
    {
      if block > content - transferred then content - transferred else block
    }

    /** The scheduler refuses requests: too many are outstanding. */
    predicate Crowded()
      reads task.queue
    {
      task.queue.queueListSize > task.queue.maxQueueSize
    }

    /** The request to read the next block into b. */
    function ReadOf(b: int, ioPrio: int, id: int): Request
      reads `transferred, `offset
    {
      Request(Ticket(id, handle, ioPrio, offset, Unsigned(Count()), b, self), 0)
    }

    /** Asks the scheduler for the read. */
    method AskForRead(b: int, ioPrio: int, ghost c: Config, ghost st: State) returns (id: int)
      requires TaskOk() && task.Shows(st.sched) && Unsigned(Count()) > 0 && c.block == block
      modifies task.queue
      ensures TaskOk()
      ensures id == if old(Crowded()) then -1 else IdOf(st.sched.book.count)
      ensures if id == -1 then task.queue.Q == old(task.queue.Q)
              else Submits(old(task.queue.Q), task.queue.Q, ReadOf(b, ioPrio, id))
      ensures CanPost(st) ==>
                && Starts(c, st, self, View(), b, ioPrio, id != -1)
                && task.Shows(TransferSystem.StartRead(c, st, self, View(), b, ioPrio, id != -1).sched)
    {
      var t := Ticket(0, handle, ioPrio, offset, Unsigned(Count()), b, self);
      assert t == ReadTicket(c, self, View(), b, ioPrio);
      id := task.StartAio(t, 0, st.sched);
      if CanPost(st) {
        StartReadIs(c, st, self, View(), b, ioPrio, id != -1);
      }
    }

    /** The scheduler's answer to a request: its id, or -1 when the block is to be given back. */
    method Record(b: int, id: int)
      modifies `reserve, `reserveSize, `aioId, `asked
      ensures View() == if id == -1 then Refused(old(View())) else WithRead(old(View()), b, id)
    {
      if id == -1 {
        reserve, reserveSize := NONE, 0;
      } else {
        reserve, aioId, asked := b, id, Unsigned(Count());
      }
    }

    /**
     * start_read into block b from the pool, unless that trips the scheduler's assertion.  Both when the scheduler
     * takes the request and when it refuses, agent and scheduler change as in the system's step.
     */
    method StartRead(b: int, ioPrio: int, ghost c: Config, ghost st: State) returns (rc: int)
      requires TaskOk() && task.Shows(st.sched) && Unsigned(Count()) > 0 && c.block == block
      modifies `reserve, `reserveSize, `aioId, `asked, task.queue
      ensures TaskOk()
      ensures rc == if old(Crowded()) then -1 else 0
      ensures if rc == 0 then Submits(old(task.queue.Q), task.queue.Q, ReadOf(b, ioPrio, aioId))
              else task.queue.Q == old(task.queue.Q)
      ensures if rc == 0 then View() == WithRead(old(View()), b, IdOf(st.sched.book.count))
              else View() == Refused(old(View()))
      ensures CanPost(st) ==>
                var st' := TransferSystem.StartRead(c, st, self, old(View()), b, ioPrio, rc == 0);
                self in st'.agents && View() == st'.agents[self] && task.Shows(st'.sched)
    {
      var id := AskForRead(b, ioPrio, c, st);
      rc := if id == -1 then -1 else 0;
      Record(b, id);
    }

    /** Asks the scheduler to cancel the read in flight, if there is one. */
    method CancelRead(ghost st: State) returns (canceled: bool)
      requires TaskOk() && task.Shows(st.sched) && (aioId == -1 || aioId > 0)
      modifies task.queue
      ensures TaskOk() && NonemptyGroups(st.sched.queue)
      ensures Closes(st, self, View(), canceled) && task.Shows(CloseStep(st, self, View()).sched)
      ensures canceled <==> aioId == -1 || !old(task.Runs(aioId))
    {
      task.GroupsNonempty(st.sched);
      canceled := true;
      if aioId != -1 {
        canceled := task.CancelAio(handle, aioId, st.sched);
      }
      CloseIs(st, self, View(), canceled);
    }

    /** close_i, which succeeds unless the read in flight is running; the job notes a failure. */
    method Close(ghost st: State) returns (rc: int)
      requires TaskOk() && task.Shows(st.sched) && (aioId == -1 || aioId > 0)
      modifies `cancelPending, `pc, `closePending, task.queue
      ensures TaskOk() && NonemptyGroups(st.sched.queue)
      ensures var st' := CloseStep(st, self, old(View()));
              self in st'.agents && View() == st'.agents[self] && task.Shows(st'.sched)
      ensures rc == if old(aioId == -1 || !task.Runs(aioId)) then 0 else -1
      ensures if rc == 0 then pc.Closed? && closePending == old(closePending) else closePending && aioId != -1
      ensures old(Settled()) ==> Settled()
    {
      var canceled := CancelRead(st);
      NoteCancel(canceled);
      rc := if canceled then 0 else -1;
    }

    method NoteCancel(canceled: bool)
      modifies `cancelPending, `pc, `closePending
      ensures View() == if canceled then Ended(old(View())) else Pending(old(View()))
    {
      if canceled {
        cancelPending, pc := false, Closed;
      } else {
        cancelPending, closePending := true, true;
      }
    }

    // ---------- transfer_data ----------

    /** The part of a block that holds bytes. */
    function Part(b: int, from: nat, to: nat): seq<Byte>
      reads `memory
    {
      if b in memory && from <= to <= |memory[b]| then memory[b][from..to] else []
    }

    /** All that was sent, and after it all that is ready to be sent, in the order of sending. */
    ghost function Stream(): seq<Byte>
      reads `output, `buffer, `send, `bufSize, `reserve, `reserveSize, `memory
    {
      output + Part(buffer, send, bufSize) + Part(reserve, 0, reserveSize)
    }

    /** How much of the data a read brings: no more than was asked for, and no more than a file can have. */
    function Got(data: seq<Byte>): (n: nat)
      reads `asked, `offset
      ensures n <= |data|
    {
      var n := if asked < |data| then asked else |data|;
      if offset + n <= SSIZE_MAX then n else if offset <= SSIZE_MAX then SSIZE_MAX - offset else 0
    }

    /** Whether the arrival is that of the read in flight. */
    predicate Served(x: Arrival)
      reads `aioId, `asked, `reserve
    {
      aioId != -1 && !x.Nothing? && (x.ReadFailed? || asked > SSIZE_MAX || reserve != NONE)
    }

    /** What the read returns; it fails when too much is asked for. */
    function Returns(x: Arrival): int
      reads `asked, `offset
      requires !x.Nothing?
    {
      if x.ReadFailed? || asked > SSIZE_MAX then -1 else Got(x.data)
    }

    /** How many bytes the arrival brings, and which. */
    function Fetched(x: Arrival): (n: nat)
      reads `aioId, `asked, `reserve, `offset, `cancelPending
      ensures n > 0 ==> x.Bytes? && n <= |x.data|
    {
      if Served(x) && !cancelPending && Returns(x) > 0 then Returns(x) else 0
    }

    function Brought(x: Arrival): seq<Byte>
      reads `aioId, `asked, `reserve, `offset, `cancelPending
    {
      if Fetched(x) > 0 then x.data[..Fetched(x)] else []
    }

    /**
     * A worker may have served the read in flight.  What the scheduler does with the request then is its own
     * affair.
     */
    method Arrive(x: Arrival)
      requires Valid()
      modifies `aioId, `eof, `failed, `offset, `reserveSize, `memory
      ensures Valid() && (buffer in old(memory) ==> buffer in memory && memory[buffer] == old(memory)[buffer])
      ensures View() == if old(Served(x)) then HandleAioRead(old(View()), old(Returns(x))) else old(View())
      ensures Stream() == old(Stream()) + old(Brought(x)) && reserveSize == old(reserveSize + Fetched(x))
      ensures old(Settled()) ==> Settled()
      ensures failed <==> old(failed || (Served(x) && !cancelPending && Returns(x) < 0))
      ensures eof <==> old(eof || (Served(x) && !cancelPending && Returns(x) == 0))
    {
      if aioId == -1 || x.Nothing? {
        return;
      }
      if x.ReadFailed? || asked > SSIZE_MAX {
        HandleRead(aioId, -1, reserve);
        return;
      }
      if reserve != NONE {
        Fill(x.data);
      }
    }

    /** The read in flight has brought data. */
    method Fill(data: seq<Byte>)
      requires Valid() && aioId != -1 && reserve != NONE && asked <= SSIZE_MAX
      modifies `aioId, `eof, `failed, `offset, `reserveSize, `memory
      ensures Valid() && (buffer in old(memory) ==> buffer in memory && memory[buffer] == old(memory)[buffer])
      ensures View() == HandleAioRead(old(View()), old(Got(data)))
      ensures Stream() == old(Stream()) + old(Brought(Bytes(data)))
              && reserveSize == old(reserveSize + Fetched(Bytes(data)))
    {
      var n := Got(data);
      memory := memory[reserve := data[..n]];
      HandleRead(aioId, n, reserve);
      assert Part(buffer, send, bufSize) == old(Part(buffer, send, bufSize));
      assert old(Part(reserve, 0, reserveSize)) == [] && Part(reserve, 0, reserveSize) == old(Brought(Bytes(data)));
    }

    /**
     * Between calls a buffer has bytes left, unless the range is out, and what was read into is not empty unless
     * the file ended or the read failed; a closing job is not called any more.
     */
    ghost predicate Settled()
      reads this
    {
      && (cancelPending ==> closePending)
      && (closePending
          || ((buffer != NONE && transferred != content ==> send < bufSize)
              && (reserve != NONE && aioId == -1 ==> reserveSize > 0 || eof || failed)))
    }

    /** How many bytes are at hand when a call begins. */
    function Ready(x: Arrival): nat
      requires send <= bufSize
      reads `buffer, `bufSize, `send, `reserveSize, `aioId, `asked, `reserve, `offset, `cancelPending
    {
      if buffer != NONE then bufSize - send else reserveSize + Fetched(x)
    }

    /** A block that the agent does not have. */
    function SpareBlock(): (b: int)
      reads this
      ensures b > 0 && b != buffer && b != reserve
    {
      1 + (if buffer > reserve then if buffer > 0 then buffer else 0 else if reserve > 0 then reserve else 0)
    }

    /** The agent's read is the one request that was posted; or it was refused. */
    ghost predicate Posted(q: Queue, ioPrio: int)
      reads `aioId, `reserve, `transferred, `offset, task.queue
    {
      if aioId == -1 then reserve == NONE && task.queue.Q == q
      else aioId > 0 && reserve != NONE && Submits(q, task.queue.Q, ReadOf(reserve, ioPrio, aioId))
    }

    /** start_read, from within transfer_data, for an agent that has not sent just its range. */
    method Ask(ioPrio: int)
      requires Valid() && TaskOk() && reserve == NONE && aioId == -1 && transferred != content
      modifies `reserve, `reserveSize, `aioId, `asked, task.queue
      ensures Valid() && TaskOk() && Stream() == old(Stream())
      ensures Posted(old(task.queue.Q), ioPrio) && (aioId == -1 <==> old(Crowded()))
    {
      SomethingAsked();
      ghost var s := task.SomeState();
      var _ := StartRead(SpareBlock(), ioPrio, Config(map[], block), State(s, map[], map[], map[], false));
    }

    /** The scheduler's assertion holds: less than nothing is, as a size_t, something. */
    lemma SomethingAsked()
      requires Valid() && transferred != content
      ensures Unsigned(Count()) > 0
    {}

    /** How many buffers the agent has. */
    ghost function Buffers(): nat
      reads `buffer, `reserve
    {
      (if buffer != NONE then 1 else 0) + (if reserve != NONE then 1 else 0)
    }

    /** There is a buffer to send from, or one that was read into, perhaps by the read that arrives. */
    predicate Going(x: Arrival)
      reads `buffer, `reserve, `aioId, `asked
    {
      buffer != NONE || (reserve != NONE && (aioId == -1 || Served(x)))
    }

    /** What Settled says of the buffer that was read into. */
    ghost predicate ReserveSettled()
      reads this
    {
      && (cancelPending ==> closePending)
      && (closePending || (reserve != NONE && aioId == -1 ==> reserveSize > 0 || eof || failed))
    }

    /**
     * transfer_data up to its send loop; without a buffer to send from it only asks for a read, if none is in
     * flight.
     */
    method Begin(max: int, early: Arrival) returns (go: bool, ask: bool)
      requires Valid() && transferred != content
      modifies this
      ensures Valid() && transferred == old(transferred) && output == old(output) && (go <==> old(Going(early)))
      ensures go ==> pc == Sending(max, 0) && buffer != NONE && Buffers() == old(Buffers())
      ensures if go then bufSize - send == old(Ready(early)) else buffer == NONE && old(Ready(early)) == 0
      ensures old(Stream()) <= Stream() && (ask <==> !go && aioId == -1)
      ensures ask ==> reserve == NONE
      ensures old(Settled()) ==> ReserveSettled() && (go && !closePending ==> send < bufSize || eof || failed)
      ensures closePending == old(closePending)
    {
      Receive(early);
      go, ask := Choose(max);
    }

    /** What an arrival has to do with the question what to send from. */
    method Receive(x: Arrival)
      requires Valid()
      modifies `aioId, `eof, `failed, `offset, `reserveSize, `memory
      ensures Valid() && old(Stream()) <= Stream() && (old(Settled()) ==> Settled())
      ensures old(Going(x)) <==> buffer != NONE || (aioId == -1 && reserve != NONE)
      ensures old(Ready(x)) == if buffer != NONE then bufSize - send else reserveSize
    {
      Arrive(x);
    }

    /** What follows the arrival. */
    method Choose(max: int) returns (go: bool, ask: bool)
      requires Valid() && transferred != content
      modifies `buffer, `bufSize, `send, `reserve, `reserveSize, `pc
      ensures Valid() && (go <==> old(buffer != NONE || (aioId == -1 && reserve != NONE)))
      ensures go ==> pc == Sending(max, 0) && buffer != NONE && Buffers() == old(Buffers())
      ensures if go then bufSize - send == old(if buffer != NONE then bufSize - send else reserveSize)
              else buffer == old(buffer) == NONE && reserveSize == old(reserveSize) == 0
      ensures Stream() == old(Stream()) && (ask <==> !go && aioId == -1)
      ensures ask ==> reserve == NONE
      ensures old(Settled()) ==> ReserveSettled() && (go && !closePending ==> send < bufSize || eof || failed)
    {
      go := buffer != NONE || (aioId == -1 && reserve != NONE);
      ask := buffer == NONE && aioId == -1 && reserve == NONE;
      if buffer != NONE {
        pc := Sending(max, 0);
      } else if go {
        TakeReserve(max);
      }
    }

    /** What the end of a call reports: what the last read met, once the buffer is out, or else the bytes sent. */
    function Verdict(sent: nat): int
      reads `buffer, `failed, `eof
    {
      if buffer == NONE && failed then READ_FILE_ERROR else if buffer == NONE && eof then -1 else sent
    }

    /** A prefetch is due: half of the buffer is out, there is more to read, and nothing is in flight or in reserve. */
    predicate Starved()
      reads `buffer, `send, `bufSize, `eof, `failed, `aioId, `reserve, `offset
    {
      && (buffer == NONE || send >= bufSize / 2) && !eof && !failed
      && aioId == -1 && reserve == NONE && offset - begin != content
    }

    /** The end of transfer_data, under the buffer lock: prefetch, or report what the last read met. */
    method Prefetch(sent: nat, late: Arrival) returns (result: int, ask: bool)
      requires Valid() && (buffer == NONE <==> send == bufSize) && (buffer == NONE || send >= bufSize / 2)
      modifies `aioId, `eof, `failed, `offset, `reserveSize, `memory, `stopped
      ensures Valid() && old(Stream()) <= Stream()
      ensures result == Verdict(sent) && (ask <==> Starved())
      ensures (old(eof) ==> eof) && (old(failed) ==> failed)
      ensures old(Settled()) ==> Settled()
    {
      Arrive(late);
      result, ask := Report(sent);
    }

    method Report(sent: nat) returns (result: int, ask: bool)
      requires Valid() && (buffer == NONE <==> send == bufSize) && (buffer == NONE || send >= bufSize / 2)
      modifies `stopped
      ensures result == Verdict(sent) && (ask <==> Starved())
    {
      result, ask := sent, false;
      if eof || failed {
        if send == bufSize {
          result := if failed then READ_FILE_ERROR else -1;
          stopped := stopped || !failed;
        }
      } else {
        ask := aioId == -1 && offset - begin != content && reserve == NONE;
      }
    }

    /** Giving back the buffer loses nothing that was to be sent. */
    method AfterSending() returns (prefetch: bool)
      requires Valid() && pc.Sending? && buffer != NONE
      modifies `buffer, `bufSize, `send, `pc, `stopped
      ensures Valid() && Stream() == old(Stream())
      ensures prefetch <==> transferred != content && (buffer == NONE || send >= bufSize / 2)
      ensures transferred != content ==> (buffer == NONE <==> send == bufSize)
      ensures transferred != content && old(send == bufSize) ==> buffer == NONE
      ensures old(ReserveSettled()) ==> Settled()
    {
      var _, due := AfterLoop();
      prefetch, pc := due, Resting;
    }

    /** What follows the send loop when it came to its end. */
    method Finish(sent: nat, late: Arrival) returns (result: int, ask: bool)
      requires Valid() && pc.Sending? && buffer != NONE
      modifies `buffer, `bufSize, `send, `pc, `aioId, `eof, `failed, `offset, `reserveSize, `memory, `stopped
      ensures Valid() && old(Stream()) <= Stream()
      ensures result == if transferred == content then sent else Verdict(sent)
      ensures (old(eof) ==> eof) && (old(failed) ==> failed)
      ensures ask <==> transferred != content && Starved()
      ensures old(send == bufSize) && transferred != content ==> buffer == NONE
      ensures old(ReserveSettled()) ==> Settled()
    {
      result, ask := sent, false;
      var prefetch := AfterSending();
      if prefetch {
        result, ask := Prefetch(sent, late);
      }
    }

    /** The bytes that are sent from. */
    function Data(): seq<Byte>
      reads this
    {
      if buffer in memory then memory[buffer] else []
    }

    /** The send loop takes from the front of what is ready. */
    method SendFromBuffer(max: int, replies: seq<Reply>)
      returns (result: int, sent: nat, out: seq<Byte>, done: bool, used: nat)
      requires Valid() && pc == Sending(max, 0) && buffer != NONE
      modifies `send, `transferred, `pc, `output
      ensures Valid() && Within(sent, max) && pc.Sending?
      ensures Sends(replies, old(bufSize - send), old(content - transferred), max, sent, used)
      ensures done <==> Done(sent, old(bufSize - send), old(content - transferred), max)
      ensures result == (if done then sent else Broken(replies, used)) && send == old(send) + sent
      ensures transferred == old(transferred) + sent && output == old(output) + out && |out| == sent
              && Stream() == old(Stream())
    {
      var data, from := Data(), send;
      result, sent, done, used := SendPackets(max, data, replies);
      out := data[from..from + sent];
      if bufSize > 0 {
        FrontTaken(old(output), data, from, send, bufSize);
      }
    }

    /** transfer_data from its send loop on. */
    method Transmit(max: int, env: Surroundings, ghost p: Plan)
      returns (result: int, sent: nat, out: seq<Byte>, ask: bool, used: nat)
      requires Valid() && pc == Sending(max, 0) && buffer != NONE
      requires p == Plan(bufSize - send, content - transferred, true)
      modifies this
      ensures Valid() && Within(sent, max)
      ensures Told(p, env.replies, max, sent, used, result) && (ask <==> ReadDue(p, max, sent))
      ensures ask ==> result == sent
      ensures transferred == old(transferred) + sent && output == old(output) + out && |out| == sent
              && old(Stream()) <= Stream()
      ensures result > 0 && sent == 0 ==> Buffers() < old(Buffers())
      ensures old(ReserveSettled()) ==> Settled()
      ensures closePending == old(closePending) && (old(eof) ==> eof) && (old(failed) ==> failed)
      ensures sent == p.ready && transferred != content ==> buffer == NONE
    {
      var done;
      result, sent, out, done, used := SendFromBuffer(max, env.replies);
      result, ask := Conclude(done, result, sent, env.late);
    }

    /** What a call that sends returns. */
    function Outcome(done: bool, broken: int, sent: nat): int
      reads `transferred, `buffer, `failed, `eof
    {
      if !done then broken else if transferred == content then sent else Verdict(sent)
    }

    /** It asks for a read if that is due, and the send loop came to its end. */
    ghost predicate Concluded(done: bool, broken: int, sent: nat, result: int, ask: bool)
      reads this
    {
      result == Outcome(done, broken, sent) && (ask <==> done && transferred != content && Starved())
    }

    /** The call goes on after the send loop only if that came to its end. */
    method Conclude(done: bool, code: int, sent: nat, late: Arrival) returns (result: int, ask: bool)
      requires Valid() && pc.Sending? && buffer != NONE
      requires if done then code == sent else code <= 0 && (transferred != content ==> send < bufSize)
      modifies `buffer, `bufSize, `send, `pc, `aioId, `eof, `failed, `offset, `reserveSize, `memory, `stopped
      ensures Valid() && old(Stream()) <= Stream() && Concluded(done, code, sent, result, ask)
      ensures result > 0 && sent == 0 ==> Buffers() < old(Buffers())
      ensures old(ReserveSettled()) ==> Settled()
      ensures (old(eof) ==> eof) && (old(failed) ==> failed)
      ensures done && old(send == bufSize) && transferred != content ==> buffer == NONE
    {
      result, ask := code, false;
      if done {
        result, ask := Finish(sent, late);
      } else {
        Rest(code);
      }
    }

    method Rest(result: int)
      requires Valid()
      modifies `pc, `stopped
      ensures Valid() && Stream() == old(Stream())
    {
      pc, stopped := Resting, stopped || result < 0;
    }

    /** What a call finds. */
    function Finds(x: Arrival): Plan
      requires send <= bufSize
      reads `buffer, `bufSize, `send, `reserveSize, `aioId, `asked, `reserve, `offset, `cancelPending, `transferred
    {
      Plan(Ready(x), content - transferred, Going(x))
    }

    /** How much a call sends and what it returns, by what it has found and what the socket has replied. */
    ghost predicate Told(p: Plan, replies: seq<Reply>, max: int, sent: nat, used: nat, result: int)
      reads `transferred, `buffer, `failed, `eof
    {
      && Sends(replies, p.ready, p.wanted, max, sent, used)
      && result == (if p.going then Outcome(p.Ends(sent, max), Broken(replies, used), sent) else 0)
      && (!p.going ==> sent == 0)
    }

    /**
     * A read is due: the call has found nothing to send from, and none is in flight; or it has come to the end of
     * its loop, and a prefetch is due.
     */
    predicate ReadDue(p: Plan, max: int, sent: nat)
      reads `buffer, `send, `bufSize, `eof, `failed, `aioId, `reserve, `offset, `transferred
    {
      if p.going then p.Ends(sent, max) && transferred != content && Starved() else aioId == -1
    }

    /** Nothing is at hand for another call, or more than the range was sent. */
    predicate Dry()
      requires send <= bufSize
      reads `buffer, `bufSize, `send, `reserveSize, `aioId, `asked, `reserve, `offset, `cancelPending, `transferred
    {
      Ready(Nothing) == 0 || transferred > content
    }

    /** transfer_data but for the request of a read, and whether that is due. */
    method Move(max: int, env: Surroundings)
      returns (result: int, sent: nat, out: seq<Byte>, ask: bool, ioPrio: int, used: nat)
      requires Valid() && transferred != content
      modifies this
      ensures Valid() && Within(sent, max)
      ensures var p := old(Finds(env.early));
              && Told(p, env.replies, max, sent, used, result)
              && (ask <==> ReadDue(p, max, sent)) && ioPrio == (if p.going then 0 else 5)
      ensures ask ==> reserve == NONE && aioId == -1 && transferred != content && result == sent
      ensures transferred == old(transferred) + sent && output == old(output) + out && |out| == sent
              && old(Stream()) <= Stream()
      ensures result > 0 && sent == 0 ==> Buffers() < old(Buffers())
      ensures (old(Settled()) ==> Settled()) && closePending == old(closePending)
      ensures old(Settled() && !closePending && Finds(env.early).Ends(sent, max)) && max > 0 && result == 0 ==> Dry()
    {
      ghost var p := Finds(env.early);
      NothingReady(env.replies, p.wanted, max);
      var go;
      go, ask := Begin(max, env.early);
      result, sent, out, ioPrio, used := 0, 0, [], 5, 0;
      if go {
        result, sent, out, ask, used := Transmit(max, env, p);
        ioPrio := 0;
      }
    }

    /**
     * One call of transfer_data, for an agent that has not sent just its range: what is sent continues the output,
     * and is as much as the replies determine.  What is ready to be sent is sent in its order, and nothing of it is
     * lost.  A positive answer without a byte sent means that a buffer was given up.  At the end no read is due any
     * more, unless the scheduler has refused it.
     */
    method TransferData(max: int, env: Surroundings) returns (result: int, sent: nat, out: seq<Byte>, used: nat)
      requires Valid() && TaskOk() && transferred != content
      modifies this, task.queue
      ensures Valid() && TaskOk() && Within(sent, max)
      ensures Told(old(Finds(env.early)), env.replies, max, sent, used, result)
      ensures transferred == old(transferred) + sent && output == old(output) + out && |out| == sent
              && old(Stream()) <= Stream()
      ensures result > 0 && sent == 0 ==> Buffers() < old(Buffers())
      ensures task.queue.Q == old(task.queue.Q) || Posted(old(task.queue.Q), if old(Going(env.early)) then 0 else 5)
      ensures ReadDue(old(Finds(env.early)), max, sent) ==> old(Crowded())
      ensures (old(Settled()) ==> Settled()) && closePending == old(closePending)
      ensures old(Settled() && !closePending && Finds(env.early).Ends(sent, max)) && max > 0 && result == 0 ==> Dry()
    {
      var ask, ioPrio;
      result, sent, out, ask, ioPrio, used := Move(max, env);
      AskIfDue(ask, ioPrio);
    }

    method AskIfDue(due: bool, ioPrio: int)
      requires Valid() && TaskOk() && (due ==> reserve == NONE && aioId == -1 && transferred != content)
      modifies `reserve, `reserveSize, `aioId, `asked, task.queue
      ensures Valid() && TaskOk() && Stream() == old(Stream()) && (!due ==> Buffers() == old(Buffers()))
      ensures task.queue.Q == old(task.queue.Q) || Posted(old(task.queue.Q), ioPrio)
      ensures if due then aioId == -1 ==> old(Crowded()) else unchanged(this)
      ensures old(Settled()) ==> Settled()
      ensures old(Dry()) ==> Dry()
    {
      if due {
        Ask(ioPrio);
      }
    }
  }
}
