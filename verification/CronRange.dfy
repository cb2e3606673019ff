/**
 * The stepped ranges of crontab entries, such as 50-10/7 for minutes, which may run past the last value and
 * wrap around.
 */
module CronRange {

  /** The fields of an entry: values first to last, in an array of last + 1 items. */
  ghost predicate FieldOk(first: int, last: int) {
    (first == 0 || first == 1) && first < last
  }

  /** What the parser accepts. */
  ghost predicate RangeOk(first: int, last: int, b: int, e: int, step: int) {
    FieldOk(first, last) && first <= b <= last && first <= e <= last && step != 0 && first <= step <= last
  }

  /** The number of values of the field. */
  function Period(first: int, last: int): int {
    last - first + 1
  }

  /** How far it is from b forward to x, going around at the end. */
  function Distance(first: int, last: int, b: int, x: int): int {
    if x >= b then x - b else x - b + Period(first, last)
  }

  /** x is reached from b in whole steps, before going past e. */
  ghost predicate Reached(first: int, last: int, b: int, e: int, step: int, x: int)
    requires step > 0
  {
    first <= x <= last && Distance(first, last, b, x) % step == 0
    && Distance(first, last, b, x) <= Distance(first, last, b, e)
  }

  // ---------- Arithmetic ----------

  /** Between two multiples of the step there is no other. */
  lemma NoneBetween(step: int, k: int, d: int)
    requires step > 0 && k * step <= d < (k + 1) * step
    ensures d % step == 0 <==> d == k * step
  {
    var r := d - k * step;
    assert 0 <= r < step;
    ModUnique(d, step, k, r);
  }

  lemma MulGap(a: int, b: int, step: int)
    requires step > 0
    ensures a < b ==> a * step + step <= b * step
  {
    if a < b {
      var n: nat := b - a - 1;
      assert n * step >= 0;
      assert b * step == (a + 1 + n) * step == a * step + step + n * step;
    }
  }

  lemma ModUnique(d: int, step: int, k: int, r: int)
    requires step > 0 && d == k * step + r && 0 <= r < step
    ensures d % step == r && d / step == k
  {
    var q := d / step;
    assert d == q * step + d % step;
    MulGap(q, k, step);
    MulGap(k, q, step);
  }

  /** A shift by whole steps. */
  lemma ModShift(d: int, step: int, k: int)
    requires step > 0
    ensures (d + k * step) % step == d % step
  {
    var q := d / step;
    assert d + k * step == (q + k) * step + d % step by {
      assert (q + k) * step == q * step + k * step;
    }
    ModUnique(d + k * step, step, q + k, d % step);
  }

  // ---------- Marking ----------

  /** x is at, or a whole number of steps after, the start, and not beyond the end. */
  ghost predicate OnTheWay(start: int, end: int, step: int, x: int)
    requires step > 0
  {
    start <= x <= end && (x - start) % step == 0
  }

  ghost predicate Marks(was: seq<int>, now: seq<int>, start: int, end: int, step: int)
    requires step > 0
  {
    |now| == |was| && forall x | 0 <= x < |now| :: now[x] == if OnTheWay(start, end, step, x) then 1 else was[x]
  }

  /** The marks up to, but not including, position i. */
  ghost predicate MarksBelow(was: seq<int>, now: seq<int>, start: int, end: int, step: int, i: int)
    requires step > 0
  {
    |now| == |was| && forall x | 0 <= x < |now| ::
      now[x] == if OnTheWay(start, end, step, x) && x < i then 1 else was[x]
  }

  lemma MarkNext(was: seq<int>, now: seq<int>, start: int, end: int, step: int, i: int, k: nat)
    requires step > 0 && i == start + k * step && 0 <= start <= i <= end < |now|
             && MarksBelow(was, now, start, end, step, i)
    ensures MarksBelow(was, now[i := 1], start, end, step, i + step)
  {
    var now' := now[i := 1];
    forall x | 0 <= x < |now'| ensures now'[x] == if OnTheWay(start, end, step, x) && x < i + step then 1 else was[x] {
      if i <= x < i + step {
        assert (k + 1) * step == k * step + step;
        NoneBetween(step, k, x - start);
      }
    }
  }

  /** One of the loops: marks every step-th item; i is the first position past the end, k steps from the start. */
  method MarkSteps(item: array<int>, start: int, end: int, step: int) returns (i: int, ghost k: nat)
    requires 0 <= start && end < item.Length && step > 0
    modifies item
    ensures Marks(old(item[..]), item[..], start, end, step)
    ensures i == start + k * step && i > end && (k > 0 ==> i - step <= end) && (start <= end ==> k > 0)
  {
    i, k := start, 0;
    while i <= end
      invariant i == start + k * step && start <= i && (k > 0 ==> i - step <= end) && (k == 0 ==> i == start)
      invariant MarksBelow(old(item[..]), item[..], start, end, step, i)
      decreases end - i
    {
      MarkNext(old(item[..]), item[..], start, end, step, i, k);
      item[i] := 1;
      assert (k + 1) * step == k * step + step;
      i, k := i + step, k + 1;
    }
  }

  // ---------- The whole range ----------

  /** The array after the range was marked: exactly the values reached from b, going around if need be. */
  ghost predicate RangeMarked(was: seq<int>, now: seq<int>, first: int, last: int, b: int, e: int, step: int)
    requires step > 0
  {
    |now| == |was| && forall x | 0 <= x < |now| :: now[x] == if Reached(first, last, b, e, step, x) then 1 else was[x]
  }

  lemma StraightRange(was: seq<int>, now: seq<int>, first: int, last: int, b: int, e: int, step: int)
    requires RangeOk(first, last, b, e, step) && step > 0 && b <= e && |was| == last + 1 && Marks(was, now, b, e, step)
    ensures RangeMarked(was, now, first, last, b, e, step)
  {
    forall x | 0 <= x < |now| ensures OnTheWay(b, e, step, x) <==> Reached(first, last, b, e, step, x) {}
  }

  /** x is marked by one of the two loops exactly when it is reached. */
  ghost predicate MarkedOnce(first: int, last: int, b: int, e: int, step: int, j: int, x: int)
    requires step > 0
  {
    Reached(first, last, b, e, step, x) <==> OnTheWay(b, last, step, x) || OnTheWay(j, e, step, x)
  }

  /** Going around, the second loop starts at j, after k steps from b. */
  ghost predicate GoesAround(first: int, last: int, b: int, e: int, step: int, j: int, k: nat) {
    && RangeOk(first, last, b, e, step) && step > 0 && b > e
    && j == b + k * step - Period(first, last) && first <= j < first + step
  }

  /** From b to the last value there is no going around. */
  lemma MarkedBehind(first: int, last: int, b: int, e: int, step: int, j: int, k: nat, x: int)
    requires GoesAround(first, last, b, e, step, j, k) && x >= b
    ensures MarkedOnce(first, last, b, e, step, j, x)
  {}

  /** Values before j lie between two steps. */
  lemma SkippedAhead(first: int, last: int, b: int, e: int, step: int, j: int, k: nat, x: int)
    requires GoesAround(first, last, b, e, step, j, k) && x < j && x < b
    ensures MarkedOnce(first, last, b, e, step, j, x)
  {
    if first <= x {
      var d := Distance(first, last, b, x);
      assert (k - 1) * step == k * step - step;
      NoneBetween(step, k - 1, d);
    }
  }

  /** From j on, the distance from b is that from j and k whole steps. */
  lemma MarkedAhead(first: int, last: int, b: int, e: int, step: int, j: int, k: nat, x: int)
    requires GoesAround(first, last, b, e, step, j, k) && j <= x < b
    ensures MarkedOnce(first, last, b, e, step, j, x)
  {
    assert Distance(first, last, b, x) == x - j + k * step;
    ModShift(x - j, step, k);
  }

  /** The second loop starts where the first one, going around, has got to. */
  lemma WrappedRange(was: seq<int>, mid: seq<int>, now: seq<int>, first: int, last: int, b: int, e: int, step: int,
                     j: int, k: nat)
    requires GoesAround(first, last, b, e, step, j, k) && |was| == last + 1
    requires Marks(was, mid, b, last, step) && Marks(mid, now, j, e, step)
    ensures RangeMarked(was, now, first, last, b, e, step)
  {
    forall x | 0 <= x < |was| ensures MarkedOnce(first, last, b, e, step, j, x) {
      MarkedAnywhere(first, last, b, e, step, j, k, x);
    }
    BothLoops(was, mid, now, first, last, b, e, step, j);
  }

  lemma MarkedAnywhere(first: int, last: int, b: int, e: int, step: int, j: int, k: nat, x: int)
    requires GoesAround(first, last, b, e, step, j, k)
    ensures MarkedOnce(first, last, b, e, step, j, x)
  {
    if x >= b {
      MarkedBehind(first, last, b, e, step, j, k, x);
    } else if x < j {
      SkippedAhead(first, last, b, e, step, j, k, x);
    } else {
      MarkedAhead(first, last, b, e, step, j, k, x);
    }
  }

  lemma BothLoops(was: seq<int>, mid: seq<int>, now: seq<int>, first: int, last: int, b: int, e: int, step: int, j: int)
    requires step > 0 && Marks(was, mid, b, last, step) && Marks(mid, now, j, e, step)
    requires forall x | 0 <= x < |was| :: MarkedOnce(first, last, b, e, step, j, x)
    ensures RangeMarked(was, now, first, last, b, e, step)
  {
    forall x | 0 <= x < |now| ensures now[x] == if Reached(first, last, b, e, step, x) then 1 else was[x] {
      assert MarkedOnce(first, last, b, e, step, j, x);
      assert mid[x] == if OnTheWay(b, last, step, x) then 1 else was[x];
    }
  }

  /** The remainder takes the position to the other end of the field. */
  lemma WrapIndex(first: int, last: int, i: int, step: int)
    requires FieldOk(first, last) && last < i <= last + step && step <= last
    ensures i % (last + 1) + first == i - Period(first, last)
  {
    ModUnique(i, last + 1, 1, i - last - 1);
  }

  /**
   * get_list_by_range_and_step, after the numbers have been read.  Numbers out of range are refused;
   * otherwise exactly the values reached are marked.  The remainder is by the array's length.
   */
  method MarkRange(item: array<int>, first: int, last: int, b: int, e: int, step: int) returns (rc: int)
    requires FieldOk(first, last) && item.Length == last + 1
    modifies item
    ensures if RangeOk(first, last, b, e, step) then rc == 0 &&
                                                         RangeMarked(old(item[..]), item[..], first, last, b, e, step)
            else rc == -1 && item[..] == old(item[..])
  {
    if step == 0 || b > last || b < first || e > last || e < first || step > last || step < first {
      return -1;
    }
    if b > e {
      var i, k := MarkSteps(item, b, last, step);
      ghost var mid := item[..];
      WrapIndex(first, last, i, step);
      i := i % item.Length + first;
      var _, _ := MarkSteps(item, i, e, step);
      WrappedRange(old(item[..]), mid, item[..], first, last, b, e, step, i, k);
    } else {
      var _, _ := MarkSteps(item, b, e, step);
      StraightRange(old(item[..]), item[..], first, last, b, e, step);
    }
    rc := 0;
  }
}
