/** What expiring means for the set of timers. */
module TimerSpec {
  import opened TimeValue
  import opened TimerHeap

  predicate Periodic(t: Timer) {
    Lt(ZERO, t.interval)
  }

  ghost predicate Due(t: Timer, now: Time) {
    Le(t.due, now)
  }

  /** Between times of which one is not negative, being due is a matter of numbers. */
  lemma DueIsNumeric(t: Timer, now: Time)
    requires Normal(t.due) && Canonical(now)
    ensures Due(t, now) <==> Micros(t.due) <= Micros(now)
  {
    CompareIsNumeric(t.due, now);
  }

  /** Adds the interval, at least once, until the deadline lies after `now`. */
  function Rearmed(due: Time, interval: Time, now: Time): (r: Time)
    requires Normal(interval) && Lt(ZERO, interval) && Normal(now)
    ensures Normal(r) && Lt(now, r)
    decreases Micros(now) + 2 * MILLION - Micros(due)
  {
    var next := Plus(due, interval);
    if Le(next, now) then Rearmed(next, interval, now) else next
  }

  /** k is the least number of times, at least one, that takes x past the limit in steps of i. */
  ghost predicate LeastPast(x: int, i: int, limit: int, k: nat) {
    k >= 1 && x + k * i > limit && forall j: nat | 1 <= j < k :: x + j * i <= limit
  }

  lemma LeastPastStep(x: int, i: int, limit: int, k: nat)
    requires x + i <= limit && LeastPast(x + i, i, limit, k)
    ensures LeastPast(x, i, limit, k + 1) && x + i + k * i == x + (k + 1) * i
  {
    assert i + k * i == (k + 1) * i;
    forall j: nat | 1 <= j < k + 1 ensures x + j * i <= limit {
      if j > 1 {
        var j' := j - 1;
        assert x + i + j' * i <= limit;
        assert i + j' * i == j * i;
      }
    }
  }

  /** The deadline moves by the least multiple of the interval that takes it past `now`. */
  lemma {:induction false} RearmedIsLeast(due: Time, interval: Time, now: Time)
    requires Canonical(due) && Canonical(now) && Normal(interval) && Lt(ZERO, interval)
    ensures exists k: nat :: LeastPast(Micros(due), Micros(interval), Micros(now), k)
              && Micros(Rearmed(due, interval, now)) == Micros(due) + k * Micros(interval)
    decreases Micros(now) + 2 * MILLION - Micros(due)
  {
    var next, i := Plus(due, interval), Micros(interval);
    NextCanonical(due, interval, now);
    if Le(next, now) {
      RearmedIsLeast(next, interval, now);
      var k: nat :| LeastPast(Micros(next), i, Micros(now), k)
                    && Micros(Rearmed(next, interval, now)) == Micros(next) + k * i;
      LeastPastStep(Micros(due), i, Micros(now), k);
    } else {
      assert LeastPast(Micros(due), i, Micros(now), 1);
    }
  }

  lemma NextCanonical(due: Time, interval: Time, now: Time)
    requires Canonical(due) && Canonical(now) && Normal(interval) && Lt(ZERO, interval)
    ensures Canonical(Plus(due, interval)) && Micros(interval) > 0
    ensures Le(Plus(due, interval), now) <==> Micros(due) + Micros(interval) <= Micros(now)
  {
    CanonicalUnique(Plus(due, interval), now);
    CompareIsNumeric(Plus(due, interval), now);
  }

  /** What a timer becomes when it fires: periodic timers are armed again, the others are gone. */
  ghost function Fire(m: map<int, Timer>, t: Timer, now: Time): map<int, Timer>
    requires Normal(t.interval) && Normal(now)
  {
    if Periodic(t) then m[t.id := t.(due := Rearmed(t.due, t.interval, now))] else m - {t.id}
  }

  /** t is in m, and none is earlier. */
  ghost predicate Earliest(m: map<int, Timer>, t: Timer) {
    t.id in m && m[t.id] == t && forall id | id in m :: Le(t.due, m[id].due)
  }

  ghost predicate NoneDue(m: map<int, Timer>, now: Time) {
    forall id | id in m :: !Due(m[id], now)
  }

  /** All due timers have fired. */
  ghost function Settle(m: map<int, Timer>, now: Time): map<int, Timer>
    requires AllNormal(m) && Normal(now)
  {
    map id | id in m && (!Due(m[id], now) || Periodic(m[id])) ::
      if Due(m[id], now) then m[id].(due := Rearmed(m[id].due, m[id].interval, now)) else m[id]
  }

  // ---------- Firing one after the other ----------

  ghost function FiredIds(fired: seq<Timer>): (r: set<int>)
    ensures forall id :: id in r <==> exists i :: 0 <= i < |fired| && fired[i].id == id
  {
    set i | 0 <= i < |fired| :: fired[i].id
  }

  /** Each due timer of m at most once, earliest first, and what has fired is not due again. */
  ghost predicate InOrder(m: map<int, Timer>, fired: seq<Timer>, now: Time) {
    && (forall i | 0 <= i < |fired| :: fired[i].id in m && m[fired[i].id] == fired[i] && Due(fired[i], now))
    && (forall i, j | 0 <= i < j < |fired| :: fired[i].id != fired[j].id && Le(fired[i].due, fired[j].due))
  }

  /** The timers left after some have fired. */
  ghost predicate Left(m: map<int, Timer>, done: set<int>, m': map<int, Timer>, now: Time)
    requires AllNormal(m) && Normal(now)
  {
    && (forall id | id in m && id !in done :: id in m' && m'[id] == m[id])
    && (forall id | id in m' :: id in m)
    && (forall id | id in done && id in m ::
          if Periodic(m[id]) then id in m' && m'[id] == m[id].(due := Rearmed(m[id].due, m[id].interval, now))
          else id !in m')
  }

  ghost predicate Progress(m: map<int, Timer>, fired: seq<Timer>, m': map<int, Timer>, now: Time)
    requires AllNormal(m) && Normal(now)
  {
    && InOrder(m, fired, now) && Left(m, FiredIds(fired), m', now) && AllNormal(m')
    && (forall i, id | 0 <= i < |fired| && id in m' :: Le(fired[i].due, m'[id].due))
  }

  /** What is due has not fired yet. */
  lemma DueIsNew(m: map<int, Timer>, fired: seq<Timer>, m': map<int, Timer>, now: Time, id: int)
    requires AllNormal(m) && Normal(now) && Left(m, FiredIds(fired), m', now) && id in m' && Due(m'[id], now)
    ensures id in m && id !in FiredIds(fired) && m'[id] == m[id]
  {}

  lemma LeftStep(m: map<int, Timer>, done: set<int>, m': map<int, Timer>, now: Time, t: Timer)
    requires AllNormal(m) && Normal(now) && Left(m, done, m', now)
    requires t.id in m && m[t.id] == t && t.id !in done
    ensures Left(m, done + {t.id}, Fire(m', t, now), now)
  {}

  lemma FireLater(m: map<int, Timer>, t: Timer, now: Time, early: Time)
    requires AllNormal(m) && Normal(now) && t.id in m && m[t.id] == t && Due(t, now)
    requires forall id | id in m :: Le(early, m[id].due)
    ensures AllNormal(Fire(m, t, now)) && forall id | id in Fire(m, t, now) :: Le(early, Fire(m, t, now)[id].due)
  {}

  lemma FiredIdsSnoc(fired: seq<Timer>, t: Timer)
    ensures FiredIds(fired + [t]) == FiredIds(fired) + {t.id}
  {
    var all := fired + [t];
    assert all[|fired|] == t;
    assert forall i | 0 <= i < |fired| :: all[i] == fired[i];
  }

  /** The earliest timer, if it is due, is the next to fire. */
  lemma ProgressStep(m: map<int, Timer>, fired: seq<Timer>, m': map<int, Timer>, now: Time, t: Timer)
    requires AllNormal(m) && Normal(now) && Progress(m, fired, m', now) && Earliest(m', t) && Due(t, now)
    ensures Progress(m, fired + [t], Fire(m', t, now), now) && |fired| < |m|
  {
    DueIsNew(m, fired, m', now, t.id);
    FiredIdsSnoc(fired, t);
    LeftStep(m, FiredIds(fired), m', now, t);
    FireLater(m', t, now, t.due);
    FiredLater(fired, m', t, now);
    FiredSize(m, fired + [t]);
  }

  /** What is not later than the earliest timer is not later than any, after that one has fired. */
  lemma FiredLater(fired: seq<Timer>, m: map<int, Timer>, t: Timer, now: Time)
    requires AllNormal(m) && Normal(now) && t.id in m && m[t.id] == t && Due(t, now)
    requires forall i, id | 0 <= i < |fired| && id in m :: Le(fired[i].due, m[id].due)
    ensures forall i, id | 0 <= i < |fired| && id in Fire(m, t, now) :: Le(fired[i].due, Fire(m, t, now)[id].due)
  {
    forall i | 0 <= i < |fired| ensures forall id | id in Fire(m, t, now) :: Le(fired[i].due, Fire(m, t, now)[id].due) {
      FireLater(m, t, now, fired[i].due);
    }
  }

  /** Cancelling a timer that has just fired leaves the others. */
  lemma CancelFired(m: map<int, Timer>, t: Timer, now: Time)
    requires Normal(t.interval) && Normal(now)
    ensures Fire(m, t, now) - {t.id} == m - {t.id} && (!Periodic(t) ==> Fire(m, t, now) == m - {t.id})
  {}

  /** When none is due any more, exactly the due timers have fired. */
  lemma ProgressEnd(m: map<int, Timer>, fired: seq<Timer>, m': map<int, Timer>, now: Time)
    requires AllNormal(m) && Normal(now) && Progress(m, fired, m', now) && NoneDue(m', now)
    ensures m' == Settle(m, now)
    ensures forall id | id in m :: Due(m[id], now) <==> id in FiredIds(fired)
  {
    forall id | id in m ensures Due(m[id], now) <==> id in FiredIds(fired) {
      if id !in FiredIds(fired) {
        assert m'[id] == m[id];
      }
    }
    var end := Settle(m, now);
    forall id | id in m ensures id in end <==> id in m' {
      assert Due(m[id], now) <==> id in FiredIds(fired);
    }
    forall id | id in m' && id in end ensures m'[id] == end[id] {
      assert Due(m[id], now) <==> id in FiredIds(fired);
    }
    assert forall id | id in m' :: id in m;
    assert forall id | id in end :: id in m;
    assert m'.Keys == end.Keys;
  }

  lemma {:induction false} FiredSize(m: map<int, Timer>, fired: seq<Timer>)
    requires forall i, j | 0 <= i < j < |fired| :: fired[i].id != fired[j].id
    requires forall i | 0 <= i < |fired| :: fired[i].id in m
    ensures |fired| <= |m|
  {
    SubsetSize(FiredIds(fired), m.Keys);
    FiredCount(fired);
  }

  lemma {:induction false} FiredCount(fired: seq<Timer>)
    requires forall i, j | 0 <= i < j < |fired| :: fired[i].id != fired[j].id
    ensures |FiredIds(fired)| == |fired|
  {
    if fired != [] {
      var n := |fired| - 1;
      FiredCount(fired[..n]);
      assert FiredIds(fired) == FiredIds(fired[..n]) + {fired[n].id};
    }
  }
}
