/** The dispatcher gives each job a budget of bytes per time slice; agents send packets until it is spent. */
module Dispatch {
  import opened Hints
  import opened TimeValue
  import opened Packets
  import opened SerialTransfer
  import TransferSystem

  const TIME_PIECE := 25

  const TWO_TO_THE_31 := 0x8000_0000
  const TWO_TO_THE_32 := 0x1_0000_0000

  /** A cast to a 32-bit int. */
  function AsInt(x: nat): int {
    var low := x % TWO_TO_THE_32;
    if low < TWO_TO_THE_31 then low else low - TWO_TO_THE_32
  }

  /** The cast keeps exactly the numbers below two to the 31st. */
  lemma CastKeeps(x: nat)
    ensures AsInt(x) == x <==> x < TWO_TO_THE_31
  {}

  /** Sends a range of a cached file straight from memory. */
  class MemTransfer {
    const data: seq<Byte>
    const begin: nat
    const content: nat
    var transferred: nat

    /** The range lies in the file, and the position's parts survive the casts to int. */
    ghost predicate Valid()
      reads this
    {
      && begin + content <= |data| && transferred <= content
      && begin < TWO_TO_THE_31 && content <= TWO_TO_THE_31
    }

    constructor (bytes: seq<Byte>, from: nat, length: nat)
      requires from + length <= |bytes| && from < TWO_TO_THE_31 && length <= TWO_TO_THE_31
      ensures Valid() && data == bytes && begin == from && content == length && transferred == 0
    {
      data, begin, content, transferred := bytes, from, length, 0;
    }

    /** The part of the range that has been sent. */
    ghost function Output(): seq<Byte>
      requires Valid()
      reads this
    {
      data[begin..begin + transferred]
    }

    /** n more bytes of the range have gone to the socket. */
    method Account(n: nat) returns (bytes: seq<Byte>)
      requires Valid() && transferred < content && n <= content - transferred
      modifies this
      ensures Valid() && transferred == old(transferred) + n && Output() == old(Output()) + bytes && |bytes| == n
    {
      CastKeeps(begin);
      CastKeeps(transferred);
      var at := AsInt(begin) + AsInt(transferred);
      assert data[begin..at] + data[at..at + n] == data[begin..at + n];
      bytes := data[at..at + n];
      transferred := transferred + n;
    }

    /**
     * Sends packets until max bytes or the whole range are out, or the socket takes no more: as much as the replies
     * determine.  The bytes sent continue the range, and the last packet may exceed max by less than a packet.
     */
    method TransferData(max: int, replies: seq<Reply>) returns (result: int, sent: nat, out: seq<Byte>, used: nat)
      requires Valid()
      modifies this
      ensures Valid() && transferred == old(transferred) + sent && Output() == old(Output()) + out && |out| == sent
      ensures Within(sent, max)
      ensures Sends(replies, old(content - transferred), old(content - transferred), max, sent, used)
      ensures result == if sent >= max || transferred == content then sent else Broken(replies, used)
    {
      ghost var left := content - transferred;
      NothingSoFar(replies, left, left, max);
      sent, out, used := 0, [], 0;
      while sent < max && transferred < content
        invariant Valid() && transferred == old(transferred) + sent && used <= |replies|
        invariant Output() == old(Output()) + out && |out| == sent
        invariant Within(sent, max) && SoFar(replies, left, left, max, sent, used)
        decreases |replies| - used
      {
        var bytesToSend := content - transferred;
        var size := if bytesToSend > PACKET_SIZE then PACKET_SIZE else bytesToSend;
        if used == |replies| {
          return 0, sent, out, used;
        }
        match replies[used]
        case Takes(m) =>
          OneMorePacket(replies, left, left, max, sent, used);
          used := used + 1;
          var n := if m < size then m else size;
          var bytes := Account(n);
          out := out + bytes;
          sent := sent + n;
        case WouldBlock =>
          return 0, sent, out, used;
        case Fails =>
          return -SEND_DATA_FAILED, sent, out, used;
      }
      result := sent;
    }
  }

  /** msec(), an unsigned 64-bit number of milliseconds, rounded toward zero. */
  function Msec(t: Time): int {
    var usec := if t.usec >= 0 then t.usec / 1000 else -((-t.usec) / 1000);
    (t.sec * 1000 + usec) % TWO_TO_THE_64
  }

  /** Of a time that is not negative, and less than two to the 64th milliseconds, the whole milliseconds. */
  lemma MsecExact(t: Time)
    requires Canonical(t) && Micros(t) < 1000 * TWO_TO_THE_64
    ensures Msec(t) == Micros(t) / 1000
  {
    assert t.sec * 1000 + t.usec / 1000 == Micros(t) / 1000;
  }

  /**
   * Between clock readings the budget starts anew when 1001 milliseconds have gone by.  When the clock has gone back,
   * it does so too, as less than nothing is a great deal as an unsigned number: if that was into an earlier second, or
   * by a millisecond.
   */
  lemma OverASecond(now: Time, last: Time)
    requires Canonical(now) && Canonical(last) && now.sec < TWO_TO_THE_32 && last.sec < TWO_TO_THE_32
    ensures Micros(now) >= Micros(last) ==> (Msec(Minus(now, last)) > 1000 <==> Micros(now) - Micros(last) >= 1_001_000)
    ensures Micros(now) < Micros(last) ==>
      (Msec(Minus(now, last)) > 1000 <==> now.sec < last.sec || last.usec - now.usec >= 1000)
  {
    var t := Minus(now, last);
    CanonicalUnique(t, now);
    if Micros(now) >= Micros(last) {
      MsecExact(t);
    } else {
      assert t == Time(now.sec - last.sec, now.usec - last.usec);
      NegativeMsec(t);
    }
  }

  lemma NegativeMsec(t: Time)
    requires Normal(t) && -TWO_TO_THE_32 < t.sec <= 0 && Micros(t) < 0
    ensures Msec(t) > 1000 <==> t.sec < 0 || t.usec <= -1000
  {
    var usec := if t.usec >= 0 then t.usec / 1000 else -((-t.usec) / 1000);
    var n := t.sec * 1000 + usec;
    assert n <= 0 ==> Msec(t) == if n == 0 then 0 else TWO_TO_THE_64 + n;
  }

  /** The agent of a job: it sends from a cached file, or reads the file as it goes. */
  datatype TransferAgent = Mem(mem: MemTransfer) | Serial(serial: Transfer) {
    ghost function Objects(): set<object> {
      match this
      case Mem(a) => {a}
      case Serial(a) => {a, a.task.queue}
    }

    ghost function Reads(): set<object> {
      Objects() + if Serial? then {serial.task.running} else {}
    }

    ghost predicate Valid()
      reads Reads()
    {
      match this
      case Mem(a) => a.Valid()
      case Serial(a) => a.Valid() && a.TaskOk() && a.Settled()
    }

    function Content(): nat {
      match this
      case Mem(a) => a.content
      case Serial(a) => a.content
    }

    /** The number of bytes sent, and the bytes. */
    ghost function Transferred(): nat
      reads Reads()
    {
      match this
      case Mem(a) => a.transferred
      case Serial(a) => a.transferred
    }

    ghost function Output(): seq<Byte>
      requires Valid()
      reads Reads()
    {
      match this
      case Mem(a) => a.Output()
      case Serial(a) => a.output
    }

    /** How many buffers may yet be given up without a byte sent. */
    ghost function Buffers(): nat
      reads Reads()
    {
      if Serial? then serial.Buffers() else 0
    }

    /** An agent that reads the file is not called once it has sent just its range: it would ask for nothing. */
    ghost predicate Callable()
      reads Reads()
    {
      Serial? ==> serial.transferred != serial.content
    }

    /** The job was told that the agent cannot close yet. */
    ghost predicate Waits()
      reads Reads()
    {
      Serial? && serial.closePending
    }

    /** The bytes at hand when a call begins, and those of the range that have not been sent. */
    ghost function AtHand(x: Arrival): nat
      requires Valid()
      reads Reads()
    {
      match this
      case Mem(a) => a.content - a.transferred
      case Serial(a) => a.Ready(x)
    }

    ghost function Left(): int
      requires Valid()
      reads Reads()
    {
      Content() - Transferred()
    }

    /** The agent has nothing more to give: no bytes at hand, or more than the range was sent. */
    ghost predicate Dry()
      requires Valid()
      reads Reads()
    {
      AtHand(Nothing) == 0 || Left() < 0
    }

    /** What the last read met: the end of the file, or an error. */
    ghost predicate Met(result: int)
      reads Reads()
    {
      Serial? && ((result == -1 && serial.eof) || (result == READ_FILE_ERROR && serial.failed))
    }

    /** A call has something to send, and the socket takes some of it. */
    ghost predicate Gives(env: Surroundings)
      requires Valid()
      reads Reads()
    {
      AtHand(env.early) > 0 && Left() > 0 && env.replies != [] && env.replies[0].Takes? && env.replies[0].n > 0
    }

    /** The virtual transfer_data: it sends as much as the replies determine. */
    method TransferData(max: int, env: Surroundings) returns (result: int, sent: nat, out: seq<Byte>, ghost used: nat)
      requires Valid() && Callable()
      modifies Objects()
      ensures Valid() && Within(sent, max) && Waits() == old(Waits())
      ensures Transferred() == old(Transferred()) + sent && Output() == old(Output()) + out && |out| == sent
      ensures result > 0 && sent == 0 ==> Buffers() < old(Buffers())
      ensures Sends(env.replies, old(AtHand(env.early)), old(Left()), max, sent, used)
      ensures !Done(sent, old(AtHand(env.early)), old(Left()), max) ==> result == Broken(env.replies, used)
      ensures Done(sent, old(AtHand(env.early)), old(Left()), max) ==> result == sent || Met(result)
      ensures max > 0 && result == 0 && Done(sent, old(AtHand(env.early)), old(Left()), max) ==> Dry() || Waits()
    {
      ghost var ready, left := AtHand(env.early), Left();
      match this
      case Mem(a) =>
        result, sent, out, used := a.TransferData(max, env.replies);
        assert Sends(env.replies, ready, left, max, sent, used);
      case Serial(a) =>
        result, sent, out, used := a.TransferData(max, env);
        assert Sends(env.replies, ready, left, max, sent, used);
    }

    /** What a call that is to send something gives, when the socket takes it. */
    method Give(max: int, env: Surroundings) returns (result: int, sent: nat, out: seq<Byte>)
      requires Valid() && Callable() && max > 0
      modifies Objects()
      ensures Valid() && Within(sent, max) && Waits() == old(Waits())
      ensures Transferred() == old(Transferred()) + sent && Output() == old(Output()) + out && |out| == sent
      ensures result > 0 && sent == 0 ==> Buffers() < old(Buffers())
      ensures old(Gives(env)) ==> sent > 0
      ensures Willing(env.replies, max) && result == 0 ==> Dry() || Waits()
      ensures result < 0 ==> SomeFails(env.replies) || Met(-1)
    {
      ghost var ready, left, used := AtHand(env.early), Left(), 0;
      result, sent, out, used := TransferData(max, env);
      if Willing(env.replies, max) {
        WillingIsDone(env.replies, ready, left, max, sent, used);
      }
      if ready > 0 && left > 0 && env.replies != [] && env.replies[0].Takes? && env.replies[0].n > 0 {
        SomethingSent(env.replies, ready, left, max, sent, used);
      }
    }

    /** The agent can be closed: no read is in flight, or the one that is is not running. */
    ghost predicate CanClose()
      requires Valid()
      reads Reads()
    {
      Serial? ==> serial.aioId == -1 || !serial.task.Runs(serial.aioId)
    }

    /** The virtual close: only a read in flight that can no longer be cancelled keeps an agent open. */
    method Close() returns (rc: int)
      requires Valid()
      modifies Objects()
      ensures Valid() && Transferred() == old(Transferred()) && Output() == old(Output())
      ensures rc == if old(CanClose()) then 0 else -1
      ensures Waits() <==> old(Waits()) || rc == -1
    {
      rc := 0;
      if Serial? {
        ghost var s := serial.task.SomeState();
        rc := serial.Close(TransferSystem.State(s, map[], map[], map[], false));
      }
    }
  }

  /** More calls than a budget of n bytes can take, with a socket that takes something of each packet. */
  ghost predicate Plenty(envs: seq<Surroundings>, n: int) {
    |envs| >= 3 * n + 3 && forall env | env in envs :: Willing(env.replies, n)
  }

  /** The socket fails at some time. */
  ghost predicate BreaksDown(envs: seq<Surroundings>) {
    exists env :: env in envs && SomeFails(env.replies)
  }

  /** Enough of these calls are left for the budget and the buffers that are left. */
  ghost predicate Enough(rest: seq<Surroundings>, n: int, budget: int, buffers: int) {
    forall k {:trigger Asked(k)} | Asked(k) ::
      (budget > 0 ==> |rest| > 3 * budget + buffers) && forall env | env in rest :: Willing(env.replies, n)
  }

  /** The calls that are left. */
  ghost predicate Behind(envs: seq<Surroundings>, rest: seq<Surroundings>) {
    forall k {:trigger Asked(k)} | Asked(k) :: forall env | env in rest :: env in envs
  }

  lemma AllOfThem(envs: seq<Surroundings>, n: int, buffers: int)
    requires buffers <= 2
    ensures Behind(envs, envs) && (Plenty(envs, n) ==> Enough(envs, n, n, buffers))
  {}

  /** One more call is made. */
  lemma OneCall(envs: seq<Surroundings>, rest: seq<Surroundings>, env: Surroundings, rest': seq<Surroundings>,
                n: int, budget: int, buffers: int, budget': int, buffers': int, more: bool)
    requires 0 < budget <= n && 0 <= buffers <= 2 && 0 <= buffers' <= 2 && Behind(envs, rest)
    requires if rest == [] then env == Surroundings(Nothing, Nothing, []) && rest' == []
             else env == rest[0] && rest' == rest[1..]
    requires more ==> budget' < budget || (budget' == budget && buffers' < buffers)
    ensures Behind(envs, rest') && (SomeFails(env.replies) ==> BreaksDown(envs))
    ensures Enough(rest, n, budget, buffers) ==>
              Willing(env.replies, budget) && (more ==> Enough(rest', n, budget', buffers'))
    ensures rest == envs && envs != [] ==> env == envs[0]
  {
    assert Asked(0);
    if rest != [] {
      assert env in rest;
    }
  }

  /** What a job has when it begins to spend its budget; `first` until one is made. */
  datatype Start = Start(first: bool, output: seq<Byte>, total: nat, budget: int, gives: bool)

  /** One client's transfer. */
  class Job {
    const bandwidth: nat
    const content: nat
    const agent: TransferAgent
    var budget: int
    var total: nat
    var stopped: bool
    var closePending: bool
    var lastCheck: Time

    /** Time slices and bytes sent since the budget was last reset; and, over the job's life, slices and resets. */
    ghost var ticks: nat
    ghost var since: int
    ghost var slices: nat
    ghost var resets: nat

    /** Bytes per time slice, for a bandwidth in kilobits per second. */
    function Quota(): nat {
      bandwidth * 1024 / (1000 / TIME_PIECE) / 8
    }

    /** The quotas of a second are what the bandwidth allows, but for less than a byte for each slice. */
    lemma QuotaExact()
      ensures Quota() * (1000 / TIME_PIECE) * 8 <= bandwidth * 1024 < (Quota() + 1) * (1000 / TIME_PIECE) * 8
    {}

    ghost predicate Accounts()
      reads this
    {
      && budget > -PACKET_SIZE
      && since == ticks * Quota() - budget
      && total <= slices * Quota() + resets * (PACKET_SIZE - 1) - budget
    }

    ghost predicate Valid()
      reads this, agent.Reads()
    {
      && this !in agent.Reads() && Accounts() && agent.Valid()
      && agent.Content() == content && total == agent.Transferred() && (stopped || agent.Callable())
      && (agent.Waits() ==> closePending)
    }

    constructor (rate: nat, a: TransferAgent, now: Time)
      requires a.Valid() && a.Transferred() == 0 && a.Callable() && !a.Waits()
      ensures Valid() && agent == a && total == 0 && bandwidth == rate && budget == 0 && ticks == slices == resets == 0
      ensures !stopped && !closePending
    {
      bandwidth, content, agent := rate, a.Content(), a;
      budget, total, stopped, closePending, lastCheck := 0, 0, false, false, now;
      ticks, since, slices, resets := 0, 0, 0, 0;
    }

    /**
     * Once a second the budget starts anew, and the job sits out a slice; a clock that goes backward has the
     * same effect.
     */
    method OutOfBandwidth(now: Time) returns (out: bool)
      requires Accounts()
      modifies `lastCheck, `budget, `ticks, `since, `resets
      ensures Accounts() && (out <==> Msec(Minus(now, old(lastCheck))) > 1000)
      ensures if out then budget == 0 && ticks == 0 && since == 0 && resets == old(resets) + 1 else unchanged(this)
    {
      out := Msec(Minus(now, lastCheck)) > 1000;
      if out {
        lastCheck, budget := now, 0;
        ticks, since, resets := 0, 0, resets + 1;
      }
    }

    /** What the job makes of one call of its agent. */
    method Charge(sent: nat)
      requires Accounts() && sent < budget + PACKET_SIZE
      modifies `budget, `total, `since
      ensures Accounts() && budget == old(budget) - sent && total == old(total) + sent
    {
      budget := budget - sent;
      total := total + sent;
      since := since + sent;
    }

    method Credit()
      requires Accounts()
      modifies `budget, `ticks, `slices
      ensures Accounts() && budget == old(budget) + Quota() && ticks == old(ticks) + 1 && slices == old(slices) + 1
    {
      assert (ticks + 1) * Quota() == ticks * Quota() + Quota();
      assert (slices + 1) * Quota() == slices * Quota() + Quota();
      budget := budget + Quota();
      ticks, slices := ticks + 1, slices + 1;
    }

    /** Asks the agent to close, and says whether it could: that is whether the job is done with it. */
    method TryClose() returns (closed: bool)
      requires Valid()
      modifies `closePending, agent.Objects()
      ensures Valid() && agent.Output() == old(agent.Output()) && (closePending <==> !closed || old(closePending))
      ensures closed <==> old(agent.CanClose())
    {
      var rc := agent.Close();
      closed := rc == 0;
      if !closed {
        closePending := true;
      }
    }

    /**
     * One call of the agent for what is left of the budget; says whether to go on.  If it does not, with a socket
     * that takes what it is given, the job has stopped or the agent has nothing more.
     */
    method Serve(env: Surroundings) returns (more: bool, out: seq<Byte>)
      requires Valid() && budget > 0 && !stopped && !closePending
      modifies `budget, `total, `since, `stopped, agent.Objects()
      ensures Valid() && agent.Output() == old(agent.Output()) + out && total == old(total) + |out|
      ensures (total == content ==> stopped) && (more ==> !stopped) && budget <= old(budget)
      ensures more ==> budget < old(budget) || (budget == old(budget) && agent.Buffers() < old(agent.Buffers()))
      ensures old(agent.Gives(env)) ==> out != []
      ensures Willing(env.replies, old(budget)) && !more ==> stopped || agent.Dry()
      ensures stopped ==> total == content || SomeFails(env.replies) || agent.Met(-1)
    {
      var result, sent;
      result, sent, out := agent.Give(budget, env);
      more := Heed(result, sent);
    }

    /**
     * The job's accounts after a call, and whether it goes on: it stops at the end of its content, and when the
     * agent fails.
     */
    method Heed(result: int, sent: nat) returns (more: bool)
      requires Accounts() && sent < budget + PACKET_SIZE
      modifies `budget, `total, `since, `stopped
      ensures Accounts() && budget == old(budget) - sent && total == old(total) + sent
      ensures stopped <==> old(stopped) || total == content || result < 0
      ensures more <==> total != content && result > 0
    {
      Charge(sent);
      var r := if total == content then -1 else result;
      stopped := stopped || r < 0;
      more := r > 0;
    }

    /** The job gets its slice: it is neither closing nor stopped, and does not sit this one out. */
    predicate Runs(now: Time)
      reads `closePending, `stopped, `lastCheck
    {
      !closePending && !stopped && Msec(Minus(now, lastCheck)) <= 1000
    }

    /**
     * One time slice: the budget grows by the quota and is spent as far as agent and socket allow.  A job that
     * waits to be closed only asks again, and one that has stopped does nothing.
     */
    method Slice(now: Time, envs: seq<Surroundings>) returns (closed: bool, out: seq<Byte>)
      requires Valid()
      modifies this, agent.Objects()
      ensures Valid() && agent.Output() == old(agent.Output()) + out && total == old(total) + |out|
      ensures old(closePending) ==> closePending && out == []
      ensures closed <==> old(closePending && agent.CanClose())
      ensures old(stopped) ==> stopped && out == []
      ensures slices == old(slices) + if old(Runs(now)) then 1 else 0
      ensures old(Runs(now) && budget + Quota() > 0) && envs != [] && old(agent.Gives(envs[0])) ==> out != []
      ensures old(Runs(now)) && Plenty(envs, old(budget) + Quota()) ==> budget <= 0 || stopped || agent.Dry()
      ensures stopped ==> old(stopped) || total == content || agent.Met(-1) || BreaksDown(envs)
      ensures closePending <==> old(closePending)
      ensures slices + resets <= old(slices + resets) + 1
      ensures total == content && out != [] ==> stopped
    {
      closed, out := false, [];
      if closePending {
        closed := TryClose();
        return;
      }
      if stopped {
        return;
      }
      out := Turn(now, envs);
    }

    /** The slice of a job that is neither closing nor stopped. */
    method Turn(now: Time, envs: seq<Surroundings>) returns (out: seq<Byte>)
      requires Valid() && !stopped && !closePending
      modifies `budget, `total, `since, `stopped, `lastCheck, `ticks, `slices, `resets, agent.Objects()
      ensures Valid() && agent.Output() == old(agent.Output()) + out && total == old(total) + |out|
      ensures slices + resets == old(slices + resets) + 1 && (total == content && out != [] ==> stopped)
      ensures slices == old(slices) + if old(Runs(now)) then 1 else 0
      ensures old(Runs(now) && budget + Quota() > 0) && envs != [] && old(agent.Gives(envs[0])) ==> out != []
      ensures old(Runs(now)) && Plenty(envs, old(budget) + Quota()) ==> budget <= 0 || stopped || agent.Dry()
      ensures stopped ==> total == content || agent.Met(-1) || BreaksDown(envs)
    {
      out := [];
      var skip := OutOfBandwidth(now);
      if skip {
        return;
      }
      out := Earn(envs);
    }

    /** The budget grows by the quota, and is spent. */
    method Earn(envs: seq<Surroundings>) returns (out: seq<Byte>)
      requires Valid() && !stopped && !closePending
      modifies `budget, `total, `since, `stopped, `ticks, `slices, agent.Objects()
      ensures Valid() && agent.Output() == old(agent.Output()) + out && total == old(total) + |out|
      ensures slices == old(slices) + 1 && (total == content && out != [] ==> stopped)
      ensures old(budget + Quota() > 0) && envs != [] && old(agent.Gives(envs[0])) ==> out != []
      ensures Plenty(envs, old(budget) + Quota()) ==> budget <= 0 || stopped || agent.Dry()
      ensures stopped ==> total == content || agent.Met(-1) || BreaksDown(envs)
    {
      Credit();
      out := Spend(envs);
    }

    /**
     * Calls the agent until the budget is spent, or the agent has nothing more to give: with a socket that takes
     * what it is given, the loop ends for no other reason but that the job has stopped.
     */
    method Spend(envs: seq<Surroundings>) returns (out: seq<Byte>)
      requires Valid() && !stopped && !closePending
      modifies `budget, `total, `since, `stopped, agent.Objects()
      ensures Valid() && agent.Output() == old(agent.Output()) + out && total == old(total) + |out|
      ensures total == content && out != [] ==> stopped
      ensures old(budget) > 0 && envs != [] && old(agent.Gives(envs[0])) ==> out != []
      ensures Plenty(envs, old(budget)) ==> budget <= 0 || stopped || agent.Dry()
      ensures stopped ==> total == content || agent.Met(-1) || BreaksDown(envs)
    {
      var rest, more := envs, true;
      ghost var at := Start(true, agent.Output(), total, budget, envs != [] && agent.Gives(envs[0]));
      ghost var start := at;
      AllOfThem(envs, budget, agent.Buffers());
      out := [];
      while more && budget > 0
        invariant Spending(envs, rest, at, more, out) && at.(first := true) == start
        decreases more, budget, agent.Buffers()
      {
        more, rest, out, at := Call(envs, rest, at, out);
      }
      assert Asked(0);
    }

    /** Where the spending stands: what is left to call, and what has come of it since the start. */
    ghost predicate Spending(envs: seq<Surroundings>, rest: seq<Surroundings>, at: Start, more: bool, out: seq<Byte>)
      reads this, agent.Reads()
    {
      forall k {:trigger Asked(k)} | Asked(k) ::
        && Valid() && !closePending && agent.Output() == at.output + out && total == at.total + |out|
        && (more ==> !stopped) && (total == content && out != [] ==> stopped) && budget <= at.budget
        && (if at.first then more && rest == envs && budget == at.budget
                             && at.gives == (envs != [] && agent.Gives(envs[0]))
            else at.gives ==> out != [])
        && Behind(envs, rest) && (stopped ==> total == content || agent.Met(-1) || BreaksDown(envs))
        && (Plenty(envs, at.budget) ==>
              if more then Enough(rest, at.budget, budget, agent.Buffers()) else stopped || agent.Dry())
    }

    /** The loop's body: one more call. */
    method Call(envs: seq<Surroundings>, rest: seq<Surroundings>, ghost at: Start, was: seq<Byte>)
      returns (more: bool, left: seq<Surroundings>, out: seq<Byte>, ghost at': Start)
      requires Spending(envs, rest, at, true, was) && budget > 0
      modifies `budget, `total, `since, `stopped, agent.Objects()
      ensures Spending(envs, left, at', more, out) && at' == at.(first := false)
      ensures more ==> budget < old(budget) || (budget == old(budget) && agent.Buffers() < old(agent.Buffers()))
    {
      Underway(envs, rest, at, was);
      ghost var n, buffers := budget, agent.Buffers();
      var env := if rest == [] then Surroundings(Nothing, Nothing, []) else rest[0];
      left := if rest == [] then [] else rest[1..];
      var bytes;
      more, bytes := Serve(env);
      OneCall(envs, rest, env, left, at.budget, n, buffers, budget, agent.Buffers(), more);
      StillSpending(envs, left, at, more, was, bytes);
      out, at' := was + bytes, at.(first := false);
    }

    lemma Underway(envs: seq<Surroundings>, rest: seq<Surroundings>, at: Start, was: seq<Byte>)
      requires Spending(envs, rest, at, true, was)
      ensures Valid() && !closePending && !stopped && budget <= at.budget && Behind(envs, rest)
      ensures agent.Output() == at.output + was && total == at.total + |was|
      ensures at.first ==> rest == envs && at.gives == (envs != [] && agent.Gives(envs[0]))
      ensures !at.first && at.gives ==> was != []
      ensures Plenty(envs, at.budget) ==> Enough(rest, at.budget, budget, agent.Buffers())
    {
      assert Asked(0);
    }

    lemma StillSpending(envs: seq<Surroundings>, left: seq<Surroundings>, at: Start, more: bool, was: seq<Byte>,
                        bytes: seq<Byte>)
      requires Valid() && !closePending && budget <= at.budget && Behind(envs, left)
      requires agent.Output() == at.output + was + bytes && total == at.total + |was| + |bytes|
      requires (more ==> !stopped) && (total == content ==> stopped) && (at.gives ==> was + bytes != [])
      requires stopped ==> total == content || agent.Met(-1) || BreaksDown(envs)
      requires Plenty(envs, at.budget) ==>
                 if more then Enough(left, at.budget, budget, agent.Buffers()) else stopped || agent.Dry()
      ensures Spending(envs, left, at.(first := false), more, was + bytes)
    {
      assert at.output + was + bytes == at.output + (was + bytes);
    }

    /**
     * However the slices go, the job has sent no more than its quota for each, and less than a packet per reset
     * and one more.
     */
    method Run(slots: seq<(Time, seq<Surroundings>)>) returns (done: nat, out: seq<Byte>)
      requires Valid()
      modifies this, agent.Objects()
      ensures Valid() && agent.Output() == old(agent.Output()) + out && total == old(total) + |out|
      ensures done <= |slots| && slices + resets <= old(slices + resets) + done
      ensures !old(closePending) ==> done == |slots|
      ensures since <= ticks * Quota() + (PACKET_SIZE - 1)
      ensures total <= slices * Quota() + (resets + 1) * (PACKET_SIZE - 1)
    {
      done, out := 0, [];
      var closed := false;
      while done < |slots| && !closed
        invariant Valid() && agent.Output() == old(agent.Output()) + out && total == old(total) + |out|
        invariant done <= |slots| && slices + resets <= old(slices + resets) + done
        invariant closed || (closePending ==> old(closePending))
        invariant closed ==> old(closePending)
      {
        var bytes;
        closed, bytes := Slice(slots[done].0, slots[done].1);
        out, done := out + bytes, done + 1;
      }
    }
  }
}
