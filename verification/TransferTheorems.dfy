/** What file transfers promise over whole runs, and exactly when they keep within their range. */
module TransferTheorems {
  import opened Runs
  import opened AioSpec
  import opened AioProtocol
  import opened AioSafety
  import opened Packets
  import opened TransferSystem
  import opened TransferSafety

  // ---------- Runs ----------

  ghost predicate Goes(c: Config, s: State, e: TransferSystem.Event, s': State) {
    TransferSystem.Enabled(c, s, e) && s' == TransferSystem.Step(c, s, e)
  }

  /** The step relation of the system. */
  ghost function Next(c: Config): (State, TransferSystem.Event, State) -> bool {
    (s: State, e: TransferSystem.Event, s': State) => Goes(c, s, e, s')
  }

  /** The states of the system's runs. */
  ghost predicate Reached(c: Config, es: seq<TransferSystem.Event>, s: State) {
    c.Ok() && Leads(Next(c), TransferSystem.Init(), es, s)
  }

  lemma ReachedOk(c: Config, es: seq<TransferSystem.Event>, s: State)
    requires Reached(c, es, s)
    ensures Intact(c, s)
  {
    InitOk(c);
    forall m, e, m' | Intact(c, m) && Goes(c, m, e, m') ensures Intact(c, m') {
      SystemKeeps(c, m, e);
    }
    Keeps(Next(c), e => true, m => Intact(c, m), TransferSystem.Init(), es, s);
  }

  /**
   * In every interleaving, what an agent has handed to its socket is the file from the
   * start of its range on, in order; and it never reaches past a range that is safe.
   */
  lemma BytesInOrder(c: Config, es: seq<TransferSystem.Event>, s: State, a: int)
    requires Reached(c, es, s) && a in s.agents
    ensures var ag := s.agents[a];
            && ag.handle in c.files && |ag.output| == ag.transferred
            && (Safe(c, ag) ==> ag.transferred <= ag.content)
            && (ag.transferred > 0 ==>
                  && ag.begin + ag.transferred <= |c.files[ag.handle]|
                  && ag.output == c.files[ag.handle][ag.begin..ag.begin + ag.transferred])
  {
    ReachedOk(c, es, s);
    AgentBytes(c, a, s.agents[a], s.memory, s.owner);
  }

  lemma AgentBytes(c: Config, a: int, ag: Agent, memory: map<int, seq<Byte>>, owner: map<int, int>)
    requires AgentOk(c, a, ag, memory, owner)
    ensures ag.handle in c.files && |ag.output| == ag.transferred && (Safe(c, ag) ==> ag.transferred <= ag.content)
    ensures ag.transferred > 0 ==>
              && ag.begin + ag.transferred <= |c.files[ag.handle]|
              && ag.output == c.files[ag.handle][ag.begin..ag.begin + ag.transferred]
  {}

  ghost predicate SomeOpensEmpty(es: seq<TransferSystem.Event>) {
    exists i :: 0 <= i < |es| && OpensEmpty(es[i])
  }

  /**
   * Nothing freed is ever touched, and no assertion fails, whatever the ranges: unless a
   * transfer of nothing is opened, and then one does.
   */
  lemma FaultExact(c: Config, es: seq<TransferSystem.Event>, s: State)
    requires Reached(c, es, s)
    ensures s.fault <==> SomeOpensEmpty(es)
  {
    InitOk(c);
    FaultFrom(c, TransferSystem.Init(), es, s);
  }

  lemma {:induction false} FaultFrom(c: Config, m: State, es: seq<TransferSystem.Event>, s: State)
    requires Sound(c, m) && Leads(Next(c), m, es, s)
    ensures s.fault <==> SomeOpensEmpty(es)
    decreases |es|
  {
    if es != [] {
      var n :| Next(c)(m, es[0], n) && Leads(Next(c), n, es[1..], s);
      SystemKeeps(c, m, es[0]);
      if OpensEmpty(es[0]) {
        EndsAtFault(c, n, es[1..], s);
      } else {
        FaultFrom(c, n, es[1..], s);
        FirstOpensSome(es);
      }
    }
  }

  /** No step follows a fault. */
  lemma EndsAtFault(c: Config, n: State, es: seq<TransferSystem.Event>, s: State)
    requires n.fault && Leads(Next(c), n, es, s)
    ensures es == [] && s == n
  {}

  lemma FirstOpensSome(es: seq<TransferSystem.Event>)
    requires es != [] && !OpensEmpty(es[0])
    ensures SomeOpensEmpty(es) <==> SomeOpensEmpty(es[1..])
  {
    if SomeOpensEmpty(es) {
      var i :| 0 <= i < |es| && OpensEmpty(es[i]);
      assert es[1..][i - 1] == es[i];
    }
    if SomeOpensEmpty(es[1..]) {
      var i :| 0 <= i < |es[1..]| && OpensEmpty(es[1..][i]);
      assert es[i + 1] == es[1..][i];
    }
  }

  /**
   * A request that can still call back asks for no more than a block; or it comes from an agent of an
   * unsafe range, and asks for more than can be read.
   */
  lemma CountsAreBlocks(c: Config, es: seq<TransferSystem.Event>, s: State, t: Ticket)
    requires Reached(c, es, s) && Active(s.sched, t)
    ensures t.handler in s.agents && 0 < t.nbytes
    ensures t.nbytes <= c.block || (t.nbytes > SSIZE_MAX && !Safe(c, s.agents[t.handler]))
  {
    ReachedOk(c, es, s);
    assert RequestOk(c, s.agents, t);
  }

  // ---------- Safe ranges ----------

  predicate SameRange(ag: Agent, ag': Agent) {
    ag'.handle == ag.handle && ag'.begin == ag.begin && ag'.content == ag.content
  }

  /** No agent of s' is new, and all have the ranges they had. */
  ghost predicate RangesStay(s: State, s': State) {
    forall a | a in s'.agents :: a in s.agents && SameRange(s.agents[a], s'.agents[a])
  }

  lemma StartStays(c: Config, s: State, a: int, ag: Agent, b: int, ioPrio: int, accepted: bool)
    requires CanPost(s) && a in s.agents && SameRange(s.agents[a], ag)
    ensures RangesStay(s, StartRead(c, s, a, ag, b, ioPrio, accepted))
  {}

  lemma CloseStays(s: State, a: int, ag: Agent)
    requires NonemptyGroups(s.sched.queue) && a in s.agents && SameRange(s.agents[a], ag)
    ensures RangesStay(s, CloseStep(s, a, ag))
  {
    if ag.aioId == -1 {
      AnsweredStays(s, a, ag, true);
    } else {
      var sched' := AioProtocol.Step(s.sched, AioProtocol.Cancel(ag.handle, ag.aioId));
      AnsweredStays(s.(sched := sched'), a, ag, AnswersCanceled(sched', ag.aioId));
    }
  }

  lemma AnsweredStays(s: State, a: int, ag: Agent, canceled: bool)
    requires a in s.agents && SameRange(s.agents[a], ag)
    ensures RangesStay(s, Answered(s, a, ag, canceled))
  {}

  lemma PutStays(s: State, a: int, ag: Agent)
    requires a in s.agents && SameRange(s.agents[a], ag)
    ensures RangesStay(s, Put(s, a, ag))
  {}

  lemma EnterStays(c: Config, s: State, a: int, max: int, b: int, accepted: bool)
    requires CanPost(s) && a in s.agents
    ensures RangesStay(s, EnterStep(c, s, a, s.agents[a], max, b, accepted))
  {
    var ag := s.agents[a];
    PutStays(s, a, ag.(pc := Sending(max, 0)));
    StartStays(c, s, a, ag, b, 5, accepted);
    PutStays(s, a, Swapped(ag, max));
  }

  lemma FetchStays(c: Config, s: State, a: int, b: int, accepted: bool)
    requires CanPost(s) && a in s.agents
    ensures RangesStay(s, FetchStep(c, s, a, s.agents[a], b, accepted))
  {
    var ag := s.agents[a].(pc := Resting);
    PutStays(s, a, ag.(stopped := ag.stopped || (ag.send == ag.bufSize && !ag.failed)));
    StartStays(c, s, a, ag, b, 0, accepted);
    PutStays(s, a, ag);
  }

  lemma CallbackStays(s: State, w: int)
    requires AioProtocol.Enabled(s.sched, AioProtocol.Callback(w))
    ensures RangesStay(s, CallbackStep(s, w))
  {}

  lemma WorkStays(c: Config, s: State, w: AioProtocol.Event)
    requires TransferSystem.Enabled(c, s, Work(w))
    ensures RangesStay(s, TransferSystem.Step(c, s, Work(w)))
  {
    if w.Callback? {
      CallbackStays(s, w.worker);
    } else {
      assert TransferSystem.Step(c, s, Work(w)).agents == s.agents;
    }
  }

  lemma OthersStay(c: Config, s: State, e: TransferSystem.Event)
    requires TransferSystem.Enabled(c, s, e)
    requires e.Send? || e.SendBlocked? || e.SendFailed? || e.EndSend? || e.Delete?
    ensures RangesStay(s, TransferSystem.Step(c, s, e))
  {
    if e.Delete? {
      DeleteStays(s, e.a, s.agents[e.a]);
    } else {
      var ag := s.agents[e.a];
      match e
      case Send(a, n) => SendStays(s, a, n);
      case SendBlocked(a) => PutStays(s, a, ag.(pc := Resting));
      case SendFailed(a) => PutStays(s, a, ag.(pc := Resting, stopped := true));
      case EndSend(a) => EndSendStays(s, a);
    }
  }

  lemma SendStays(s: State, a: int, n: nat)
    requires a in s.agents && s.agents[a].pc.Sending?
    ensures RangesStay(s, SendStep(s, a, s.agents[a], n))
  {}

  lemma EndSendStays(s: State, a: int)
    requires a in s.agents
    ensures RangesStay(s, EndSendStep(s, a, s.agents[a]))
  {
    PutStays(s, a, Spent(s.agents[a]));
  }

  lemma DeleteStays(s: State, a: int, ag: Agent)
    ensures RangesStay(s, DeleteStep(s, a, ag))
  {}

  lemma StepStays(c: Config, s: State, e: TransferSystem.Event)
    requires TransferSystem.Enabled(c, s, e) && !e.Open?
    ensures RangesStay(s, TransferSystem.Step(c, s, e))
  {
    if e.Enter? {
      EnterStays(c, s, e.a, e.max, e.b, e.accepted);
    } else if e.Fetch? {
      FetchStays(c, s, e.a, e.b, e.accepted);
    } else if e.DeleteClient? {
      CloseStays(s, e.a, s.agents[e.a].(clientAlive := false));
    } else if e.RetryClose? {
      CloseStays(s, e.a, s.agents[e.a]);
    } else if e.Work? {
      WorkStays(c, s, e.e);
    } else {
      OthersStay(c, s, e);
    }
  }

  ghost predicate AllSafe(c: Config, s: State) {
    forall a | a in s.agents :: Safe(c, s.agents[a])
  }

  lemma OpenSafely(c: Config, s: State, e: TransferSystem.Event)
    requires TransferSystem.Enabled(c, s, e) && e.Open? && RangeSafe(c, e.handle, e.begin, e.content) && AllSafe(c, s)
    ensures AllSafe(c, TransferSystem.Step(c, s, e))
  {
    var ag := NewAgent(e.handle, e.begin, e.content);
    StartStays(c, Put(s, e.a, ag), e.a, ag, e.b, 5, e.accepted);
  }

  /** The transfer that is opened asks for a range that the prefetch cannot leave. */
  ghost predicate OpensSafely(c: Config, e: TransferSystem.Event) {
    e.Open? ==> RangeSafe(c, e.handle, e.begin, e.content)
  }

  /** In a run that opens safe ranges only, all agents have safe ranges. */
  lemma SafeRunsStaySafe(c: Config, es: seq<TransferSystem.Event>, s: State)
    requires Reached(c, es, s) && forall i | 0 <= i < |es| :: OpensSafely(c, es[i])
    ensures AllSafe(c, s)
  {
    forall m, e, m' | AllSafe(c, m) && OpensSafely(c, e) && Goes(c, m, e, m') ensures AllSafe(c, m') {
      if e.Open? {
        OpenSafely(c, m, e);
      } else {
        StepStays(c, m, e);
      }
    }
    Keeps(Next(c), e => OpensSafely(c, e), m => AllSafe(c, m), TransferSystem.Init(), es, s);
  }

  // ---------- One read in flight, and closing ----------

  /** One call of transfer_data exceeds the budget it was given by less than a packet. */
  lemma BudgetExceededByLessThanAPacket(c: Config, es: seq<TransferSystem.Event>, s: State, a: int)
    requires Reached(c, es, s) && a in s.agents && s.agents[a].pc.Sending?
    ensures 0 <= s.agents[a].pc.sent < s.agents[a].pc.max + PACKET_SIZE
  {
    ReachedOk(c, es, s);
    assert AgentOk(c, a, s.agents[a], s.memory, s.owner);
  }

  /**
   * Every request that can still call back is the only one of a live agent, and fills the buffer that is not
   * being sent.
   */
  lemma OneReadInFlight(c: Config, es: seq<TransferSystem.Event>, s: State, t: Ticket, u: Ticket)
    requires Reached(c, es, s) && Active(s.sched, t)
    ensures t.handler in s.agents
    ensures var ag := s.agents[t.handler];
            ag.aioId == t.id && ag.reserve == t.buffer != NONE && ag.buffer != t.buffer && !ag.pc.Closed?
    ensures Active(s.sched, u) && u.handler == t.handler ==> u == t
  {
    ReachedOk(c, es, s);
    assert RequestOk(c, s.agents, t);
    assert AgentOk(c, t.handler, s.agents[t.handler], s.memory, s.owner);
    if Active(s.sched, u) && u.handler == t.handler {
      assert RequestOk(c, s.agents, u);
      assert t in Held(s.sched.queue) + multiset(s.sched.running)
             && u in Held(s.sched.queue) + multiset(s.sched.running);
    }
  }

  /**
   * Once close() has returned 0, and after the agent is deleted, nothing in the queue
   * refers to the agent, and a request of its in the running list has had its callback.
   */
  lemma ClosedIsForgotten(c: Config, es: seq<TransferSystem.Event>, s: State, a: int, t: Ticket)
    requires Reached(c, es, s) && (a !in s.agents || s.agents[a].pc.Closed?) && t.handler == a
    ensures t !in Held(s.sched.queue) && t !in s.sched.pending
  {
    if Active(s.sched, t) {
      OneReadInFlight(c, es, s, t, t);
    }
  }

  /**
   * A request of a closed or deleted agent is still in the running list exactly while the
   * worker that has made its callback has yet to take it off.
   */
  lemma ListedThoughClosed(c: Config, es: seq<TransferSystem.Event>, s: State, a: int, t: Ticket)
    requires Reached(c, es, s) && (a !in s.agents || s.agents[a].pc.Closed?) && t.handler == a
    ensures t in s.sched.running <==> exists w :: AfterCallback(s.sched, w, t)
  {
    ClosedIsForgotten(c, es, s, a, t);
    ReachedOk(c, es, s);
    ListedAfterCallback(s.sched, t);
  }

  /** The job waits to be closed, and the dispatcher is not sending for it. */
  ghost predicate Waits(ag: Agent) {
    ag.closePending && (ag.pc.Resting? || ag.pc.Closed?)
  }

  /** Agent a is still there and waiting, and has sent nothing more. */
  ghost predicate SameClient(s: State, s': State, a: int)
    requires a in s.agents
  {
    && a in s'.agents && Waits(s'.agents[a])
    && s'.agents[a].output == s.agents[a].output && s'.agents[a].transferred == s.agents[a].transferred
  }

  lemma StartWaits(c: Config, s: State, a: int, a': int, ag: Agent, b: int, ioPrio: int, accepted: bool)
    requires a in s.agents && Waits(s.agents[a]) && a' != a && CanPost(s)
    ensures SameClient(s, StartRead(c, s, a', ag, b, ioPrio, accepted), a)
  {}

  lemma CloseWaits(s: State, a: int, a': int, ag: Agent, canceled: bool)
    requires a in s.agents && Waits(s.agents[a])
    requires a' == a ==> ag.output == s.agents[a].output && ag.transferred == s.agents[a].transferred && Waits(ag)
    ensures SameClient(s, Answered(s, a', ag, canceled), a)
  {}

  lemma CancelWaits(s: State, a: int, a': int, ag: Agent)
    requires a in s.agents && Waits(s.agents[a]) && NonemptyGroups(s.sched.queue)
    requires a' == a ==> ag.output == s.agents[a].output && ag.transferred == s.agents[a].transferred && Waits(ag)
    ensures SameClient(s, CloseStep(s, a', ag), a)
  {
    if ag.aioId == -1 {
      CloseWaits(s, a, a', ag, true);
    } else {
      var sched' := AioProtocol.Step(s.sched, AioProtocol.Cancel(ag.handle, ag.aioId));
      CloseWaits(s.(sched := sched'), a, a', ag, AnswersCanceled(sched', ag.aioId));
    }
  }

  lemma CallbackWaits(s: State, w: int, a: int)
    requires AioProtocol.Enabled(s.sched, AioProtocol.Callback(w)) && a in s.agents && Waits(s.agents[a])
    ensures SameClient(s, CallbackStep(s, w), a)
  {}

  lemma WorkWaits(c: Config, s: State, w: AioProtocol.Event, a: int)
    requires TransferSystem.Enabled(c, s, Work(w)) && a in s.agents && Waits(s.agents[a])
    ensures SameClient(s, TransferSystem.Step(c, s, Work(w)), a)
  {
    if w.Callback? {
      CallbackWaits(s, w.worker, a);
    } else {
      assert TransferSystem.Step(c, s, Work(w)).agents == s.agents;
    }
  }

  lemma OpenWaits(c: Config, s: State, a: int, a': int, ag: Agent, b: int, accepted: bool)
    requires a in s.agents && Waits(s.agents[a]) && a' != a && CanPost(s)
    ensures SameClient(s, OpenStep(c, s, a', ag, b, accepted), a)
  {
    StartWaits(c, Put(s, a', ag), a, a', ag, b, 5, accepted);
  }

  lemma EnterWaits(c: Config, s: State, a: int, a': int, ag: Agent, max: int, b: int, accepted: bool)
    requires a in s.agents && Waits(s.agents[a]) && a' != a && CanPost(s)
    ensures SameClient(s, EnterStep(c, s, a', ag, max, b, accepted), a)
  {
    StartWaits(c, s, a, a', ag, b, 5, accepted);
  }

  lemma FetchWaits(c: Config, s: State, a: int, a': int, ag: Agent, b: int, accepted: bool)
    requires a in s.agents && Waits(s.agents[a]) && a' != a && CanPost(s)
    ensures SameClient(s, FetchStep(c, s, a', ag, b, accepted), a)
  {
    StartWaits(c, s, a, a', ag.(pc := Resting), b, 0, accepted);
  }

  lemma SendsWait(c: Config, s: State, e: TransferSystem.Event, a: int)
    requires TransferSystem.Enabled(c, s, e) && a in s.agents && Waits(s.agents[a]) && e != Delete(a)
    requires e.Send? || e.SendBlocked? || e.SendFailed? || e.EndSend? || e.Delete?
    ensures SameClient(s, TransferSystem.Step(c, s, e), a)
  {}

  lemma StillWaits(c: Config, s: State, e: TransferSystem.Event, a: int)
    requires TransferSystem.Enabled(c, s, e) && a in s.agents && Waits(s.agents[a]) && e != Delete(a)
    ensures SameClient(s, TransferSystem.Step(c, s, e), a)
  {
    if e.Open? {
      OpenWaits(c, s, a, e.a, NewAgent(e.handle, e.begin, e.content), e.b, e.accepted);
    } else if e.Enter? {
      EnterWaits(c, s, a, e.a, s.agents[e.a], e.max, e.b, e.accepted);
    } else if e.Fetch? {
      FetchWaits(c, s, a, e.a, s.agents[e.a], e.b, e.accepted);
    } else if e.DeleteClient? {
      CancelWaits(s, a, e.a, s.agents[e.a].(clientAlive := false));
    } else if e.RetryClose? {
      CancelWaits(s, a, e.a, s.agents[e.a]);
    } else if e.Work? {
      WorkWaits(c, s, e.e, a);
    } else {
      SendsWait(c, s, e, a);
    }
  }

  /** A job that waits to be closed does nothing but ask again, until it is deleted: its client is not touched. */
  lemma ClientUntouched(c: Config, es: seq<TransferSystem.Event>, s: State, more: seq<TransferSystem.Event>,
                        s': State, a: int)
    requires Reached(c, es, s) && a in s.agents && s.agents[a].closePending
    requires Leads(Next(c), s, more, s') && Delete(a) !in more
    ensures SameClient(s, s', a)
  {
    ReachedOk(c, es, s);
    assert AgentOk(c, a, s.agents[a], s.memory, s.owner);
    forall m, e, m' | SameClient(s, m, a) && e != Delete(a) && Goes(c, m, e, m') ensures SameClient(s, m', a) {
      StillWaits(c, m, e, a);
    }
    Keeps(Next(c), e => e != Delete(a), m => SameClient(s, m, a), s, more, s');
  }
}
