/** What sockets and disks answer to the transfer agents, and the numbers both agents share. */
module Packets {
  import opened Hints

  type Byte = bv8

  const PACKET_SIZE := 4096
  const SEND_DATA_FAILED := 1006
  const READ_FILE_ERROR := 1007
  const TWO_TO_THE_64 := 0x1_0000_0000_0000_0000

  /** What a non-blocking send answers: it takes at most so many bytes, would block, or fails. */
  datatype Reply = Takes(n: nat) | WouldBlock | Fails

  /** What the I/O workers have done for an agent before it takes its buffer lock. */
  datatype Arrival = Nothing | Bytes(data: seq<Byte>) | ReadFailed

  /**
   * What happens during one call of transfer_data: the arrivals before its two critical sections, and the
   * socket's replies.
   */
  datatype Surroundings = Surroundings(early: Arrival, late: Arrival, replies: seq<Reply>)

  /** A call's last packet may exceed what was asked for by less than a packet. */
  predicate Within(sent: int, max: int) {
    0 <= sent < (if max > 0 then max else 1) + PACKET_SIZE && (max <= 0 ==> sent == 0)
  }

  // ---------- How much is sent ----------

  function Min(m: int, n: int): int {
    if m <= n then m else n
  }

  /** What the socket has taken after n packets, when `ready` bytes are at hand: none is longer than a packet. */
  function Taken(replies: seq<Reply>, n: nat, ready: nat): (r: nat)
    requires n <= |replies|
    ensures r <= ready
  {
    if n == 0 then 0
    else
      var before := Taken(replies, n - 1, ready);
      match replies[n - 1]
      case Takes(m) => before + Min(m, Min(PACKET_SIZE, ready - before))
      case _ => before
  }

  /** The loop has come to its end: enough for this call, all that is at hand, or all that is wanted. */
  predicate Done(sent: nat, ready: nat, wanted: int, max: int) {
    sent >= max || sent >= ready || sent >= wanted
  }

  /** After i packets the loop is not done, and the socket takes one more. */
  ghost predicate Onward(replies: seq<Reply>, ready: nat, wanted: int, max: int, i: nat) {
    i < |replies| && replies[i].Takes? && !Done(Taken(replies, i, ready), ready, wanted, max)
  }

  /** The loop has sent n packets, and did not come to its end before. */
  ghost predicate Underway(replies: seq<Reply>, ready: nat, wanted: int, max: int, sent: nat, n: nat) {
    && n <= |replies| && sent == Taken(replies, n, ready)
    && forall i: nat | i < n :: Onward(replies, ready, wanted, max, i)
  }

  /** The same, looked into only where it is asked for. */
  ghost predicate SoFar(replies: seq<Reply>, ready: nat, wanted: int, max: int, sent: nat, n: nat) {
    forall k {:trigger Asked(k)} | Asked(k) :: Underway(replies, ready, wanted, max, sent, n)
  }

  /**
   * What the replies determine: packets go out one after the other until the loop is done, or the socket blocks
   * or fails.
   */
  ghost predicate Sends(replies: seq<Reply>, ready: nat, wanted: int, max: int, sent: nat, n: nat) {
    forall k {:trigger Asked(k)} | Asked(k) ::
      && Underway(replies, ready, wanted, max, sent, n)
      && (Done(sent, ready, wanted, max) || n == |replies| || !replies[n].Takes?)
  }

  lemma NothingSoFar(replies: seq<Reply>, ready: nat, wanted: int, max: int)
    ensures SoFar(replies, ready, wanted, max, 0, 0)
  {}

  lemma NothingReady(replies: seq<Reply>, wanted: int, max: int)
    ensures Sends(replies, 0, wanted, max, 0, 0)
  {}

  lemma OneMorePacket(replies: seq<Reply>, ready: nat, wanted: int, max: int, sent: nat, n: nat)
    requires SoFar(replies, ready, wanted, max, sent, n) && !Done(sent, ready, wanted, max)
    requires n < |replies| && replies[n].Takes?
    ensures SoFar(replies, ready, wanted, max, sent + Min(replies[n].n, Min(PACKET_SIZE, ready - sent)), n + 1)
  {
    assert Asked(0);
  }

  /** What a call that sends returns when its loop does not come to its end. */
  function Broken(replies: seq<Reply>, packets: nat): int {
    if packets < |replies| && replies[packets].Fails? then -SEND_DATA_FAILED else 0
  }

  ghost predicate SomeFails(replies: seq<Reply>) {
    exists i :: 0 <= i < |replies| && replies[i].Fails?
  }

  /** There is one count only. */
  lemma SendsOnce(replies: seq<Reply>, ready: nat, wanted: int, max: int, sent: nat, n: nat, sent': nat, n': nat)
    requires Sends(replies, ready, wanted, max, sent, n) && Sends(replies, ready, wanted, max, sent', n')
    ensures sent == sent' && n == n'
  {
    assert Asked(0);
    assert n < n' ==> Onward(replies, ready, wanted, max, n);
    assert n' < n ==> Onward(replies, ready, wanted, max, n');
  }

  /** A socket that takes something of the first packet gets it. */
  lemma {:induction false} SomethingSent(replies: seq<Reply>, ready: nat, wanted: int, max: int, sent: nat, n: nat)
    requires Sends(replies, ready, wanted, max, sent, n) && ready > 0 && wanted > 0 && max > 0
    requires replies != [] && replies[0].Takes? && replies[0].n > 0
    ensures sent > 0
  {
    assert Asked(0);
    assert n > 0;
    assert Taken(replies, 0, ready) == 0;
    TakenRises(replies, 1, n, ready);
  }

  lemma {:induction false} TakenRises(replies: seq<Reply>, m: nat, n: nat, ready: nat)
    requires m <= n <= |replies|
    ensures Taken(replies, m, ready) <= Taken(replies, n, ready)
  {
    if m < n {
      TakenRises(replies, m, n - 1, ready);
    }
  }

  /** A socket that takes something of at least n packets. */
  ghost predicate Willing(replies: seq<Reply>, n: int) {
    |replies| >= n && forall i | 0 <= i < |replies| :: replies[i].Takes? && replies[i].n > 0
  }

  /** With such a socket the loop comes to its end. */
  lemma WillingIsDone(replies: seq<Reply>, ready: nat, wanted: int, max: int, sent: nat, n: nat)
    requires Sends(replies, ready, wanted, max, sent, n) && Willing(replies, max)
    ensures Done(sent, ready, wanted, max)
  {
    assert Asked(0);
    if !Done(sent, ready, wanted, max) {
      AtLeastOneEach(replies, ready, n);
    }
  }

  lemma {:induction false} AtLeastOneEach(replies: seq<Reply>, ready: nat, n: nat)
    requires n <= |replies| && forall i | 0 <= i < n :: replies[i].Takes? && replies[i].n > 0
    ensures Taken(replies, n, ready) >= Min(n, ready)
  {
    if n > 0 {
      AtLeastOneEach(replies, ready, n - 1);
    }
  }
}
