/**
 * The timer queue's two arrays as values: a binary heap of timers ordered by their
 * deadlines, and a table that gives for each timer id its slot in the heap, or -1.
 */
module TimerHeap {
  import opened TimeValue

  datatype Timer = Timer(id: int, handler: int, arg: int, due: Time, interval: Time)

  function Parent(i: nat): nat {
    if i == 0 then 0 else (i - 1) / 2
  }

  function LeftChild(i: nat): nat {
    i + i + 1
  }

  // ---------- Heap order ----------

  ghost predicate Ordered(h: seq<Timer>, n: nat)
    requires n <= |h|
  {
    forall i | 0 < i < n :: Le(h[Parent(i)].due, h[i].due)
  }

  /** Ordered, leaving out whatever sits in slot s. */
  ghost predicate Hole(h: seq<Timer>, n: nat, s: nat)
    requires n <= |h|
  {
    && (forall i | 0 < i < n && i != s && Parent(i) != s :: Le(h[Parent(i)].due, h[i].due))
    && (s > 0 ==> forall i | 0 < i < n && Parent(i) == s && Parent(s) < n :: Le(h[Parent(s)].due, h[i].due))
  }

  /** Only slot s may be too small for its parent. */
  ghost predicate UpOk(h: seq<Timer>, n: nat, s: nat)
    requires n <= |h|
  {
    s < n && Hole(h, n, s) && forall i | 0 < i < n && Parent(i) == s :: Le(h[s].due, h[i].due)
  }

  /** Only slot s may be too large for its children. */
  ghost predicate DownOk(h: seq<Timer>, n: nat, s: nat)
    requires n <= |h|
  {
    s < n && Hole(h, n, s) && (s > 0 ==> Le(h[Parent(s)].due, h[s].due))
  }

  function Swap(h: seq<Timer>, s: nat, p: nat): seq<Timer>
    requires s < |h| && p < |h|
  {
    h[s := h[p]][p := h[s]]
  }

  lemma UpStep(h: seq<Timer>, n: nat, s: nat)
    requires n <= |h| && UpOk(h, n, s) && s > 0 && Lt(h[s].due, h[Parent(s)].due)
    ensures UpOk(Swap(h, s, Parent(s)), n, Parent(s))
  {}

  lemma UpDone(h: seq<Timer>, n: nat, s: nat)
    requires n <= |h| && UpOk(h, n, s) && (s == 0 || !Lt(h[s].due, h[Parent(s)].due))
    ensures Ordered(h, n)
  {}

  /** c is the child of s with the earlier deadline. */
  ghost predicate LesserChild(h: seq<Timer>, n: nat, s: nat, c: nat)
    requires n <= |h|
  {
    c < n && Parent(c) == s && c > 0 && forall i | 0 < i < n && Parent(i) == s :: Le(h[c].due, h[i].due)
  }

  lemma DownStep(h: seq<Timer>, n: nat, s: nat, c: nat)
    requires n <= |h| && DownOk(h, n, s) && LesserChild(h, n, s, c) && Lt(h[c].due, h[s].due)
    ensures DownOk(Swap(h, s, c), n, c)
  {}

  lemma DownDone(h: seq<Timer>, n: nat, s: nat)
    requires n <= |h| && DownOk(h, n, s) && forall i | 0 < i < n && Parent(i) == s :: Le(h[s].due, h[i].due)
    ensures Ordered(h, n)
  {}

  /** The first timer of an ordered heap is the earliest. */
  lemma {:induction false} FirstIsEarliest(h: seq<Timer>, n: nat, i: nat)
    requires n <= |h| && Ordered(h, n) && i < n
    ensures Le(h[0].due, h[i].due)
    decreases i
  {
    if i > 0 {
      FirstIsEarliest(h, n, Parent(i));
    }
  }

  // ---------- The id table ----------

  /**
   * The first n slots hold exactly the timers of m, and the table is the inverse of the
   * heap's id field; but for id x, which is out of use and whose entry is stale.
   */
  ghost predicate Rep(h: seq<Timer>, ids: seq<int>, n: nat, m: map<int, Timer>, x: int) {
    && n <= |h| && x !in m
    && (forall i | 0 <= i < n :: 0 <= h[i].id < |ids| && ids[h[i].id] == i && h[i].id in m && m[h[i].id] == h[i])
    && (forall id | id in m :: 0 <= id < |ids| && 0 <= ids[id] < n && h[ids[id]] == m[id] && m[id].id == id)
    && (forall id | 0 <= id < |ids| && id != x && ids[id] != -1 :: id in m)
  }

  lemma SwapRep(h: seq<Timer>, ids: seq<int>, n: nat, m: map<int, Timer>, x: int, s: nat, p: nat)
    requires Rep(h, ids, n, m, x) && s < n && p < n && s != p
    ensures Rep(Swap(h, s, p), ids[h[p].id := s][h[s].id := p], n, m, x)
  {}

  /** Adding the timer whose id is out of use. */
  lemma AppendRep(h: seq<Timer>, ids: seq<int>, n: nat, m: map<int, Timer>, t: Timer, x: int)
    requires Rep(h, ids, n, m, x) && n < |h| && 0 <= t.id < |ids| && t.id !in m && (x == t.id || x == -1)
    ensures Rep(h[n := t], ids[t.id := n], n + 1, m[t.id := t], -1)
  {}

  /** The last timer takes the place of the one in slot s. */
  lemma RemoveRep(h: seq<Timer>, ids: seq<int>, n: nat, m: map<int, Timer>, s: nat)
    requires Rep(h, ids, n, m, -1) && s < n
    ensures var x, last := h[s].id, h[n - 1];
            if s == n - 1 then Rep(h, ids, n - 1, m - {x}, x)
            else Rep(h[s := last], ids[last.id := s], n - 1, m - {x}, x)
  {}

  lemma RemoveHole(h: seq<Timer>, n: nat, s: nat)
    requires 0 < n <= |h| && Ordered(h, n) && s < n
    ensures Ordered(h, n - 1)
    ensures s < n - 1 ==>
              var h' := h[s := h[n - 1]];
              if Lt(h'[s].due, h'[Parent(s)].due) then UpOk(h', n - 1, s) else DownOk(h', n - 1, s)
  {}

  /** Clearing the stale entry. */
  lemma ReleaseRep(h: seq<Timer>, ids: seq<int>, n: nat, m: map<int, Timer>, x: int)
    requires Rep(h, ids, n, m, x) && 0 <= x < |ids|
    ensures Rep(h, ids[x := -1], n, m, -1)
  {}

  // ---------- Sifting ----------

  /** The arrays are in order and describe the timers m. */
  ghost predicate Settled(h: seq<Timer>, ids: seq<int>, n: nat, m: map<int, Timer>, x: int) {
    Rep(h, ids, n, m, x) && Ordered(h, n)
  }

  /** A sift in progress: with the moved timer put into slot s, everything is in order but for s itself. */
  ghost predicate SiftingUp(h: seq<Timer>, ids: seq<int>, n: nat, m: map<int, Timer>, x: int, s: nat, moved: Timer) {
    && s < n <= |h| && 0 <= moved.id < |ids|
    && UpOk(h[s := moved], n, s) && Rep(h[s := moved], ids[moved.id := s], n, m, x)
  }

  ghost predicate SiftingDown(h: seq<Timer>, ids: seq<int>, n: nat, m: map<int, Timer>, x: int, s: nat, moved: Timer) {
    && s < n <= |h| && 0 <= moved.id < |ids|
    && DownOk(h[s := moved], n, s) && Rep(h[s := moved], ids[moved.id := s], n, m, x)
  }

  /** Moving the timer of slot p to s is a swap with the moved timer. */
  lemma MoveIsSwap(h: seq<Timer>, ids: seq<int>, n: nat, m: map<int, Timer>, x: int, s: nat, moved: Timer, p: nat)
    requires s < n <= |h| && 0 <= moved.id < |ids| && p < n && p != s
    requires Rep(h[s := moved], ids[moved.id := s], n, m, x)
    ensures 0 <= h[p].id < |ids|
    ensures h[s := h[p]][p := moved] == Swap(h[s := moved], s, p)
    ensures Rep(Swap(h[s := moved], s, p), ids[h[p].id := s][moved.id := p], n, m, x)
  {
    var h', ids' := h[s := moved], ids[moved.id := s];
    assert h'[p] == h[p] && h'[s] == moved;
    SwapRep(h', ids', n, m, x, s, p);
    assert ids'[h'[p].id := s][h'[s].id := p] == ids[h[p].id := s][moved.id := p];
  }

  lemma UpMove(h: seq<Timer>, ids: seq<int>, n: nat, m: map<int, Timer>, x: int, s: nat, moved: Timer)
    requires SiftingUp(h, ids, n, m, x, s, moved) && s > 0 && Lt(moved.due, h[Parent(s)].due)
    ensures 0 <= h[Parent(s)].id < |ids|
    ensures SiftingUp(h[s := h[Parent(s)]], ids[h[Parent(s)].id := s], n, m, x, Parent(s), moved)
  {
    UpStep(h[s := moved], n, s);
    MoveIsSwap(h, ids, n, m, x, s, moved, Parent(s));
  }

  lemma DownMove(h: seq<Timer>, ids: seq<int>, n: nat, m: map<int, Timer>, x: int, s: nat, moved: Timer, c: nat)
    requires SiftingDown(h, ids, n, m, x, s, moved) && LesserChild(h[s := moved], n, s, c) && Lt(h[c].due, moved.due)
    ensures 0 <= h[c].id < |ids|
    ensures SiftingDown(h[s := h[c]], ids[h[c].id := s], n, m, x, c, moved)
  {
    DownStep(h[s := moved], n, s, c);
    MoveIsSwap(h, ids, n, m, x, s, moved, c);
  }

  lemma UpEnd(h: seq<Timer>, ids: seq<int>, n: nat, m: map<int, Timer>, x: int, s: nat, moved: Timer)
    requires SiftingUp(h, ids, n, m, x, s, moved) && (s == 0 || !Lt(moved.due, h[Parent(s)].due))
    ensures Settled(h[s := moved], ids[moved.id := s], n, m, x)
  {
    UpDone(h[s := moved], n, s);
  }

  /** No child of slot s is earlier than the moved timer. */
  ghost predicate ChildrenLater(h: seq<Timer>, n: nat, s: nat, moved: Timer) {
    n <= |h| && forall i | 0 < i < n && Parent(i) == s :: Le(moved.due, h[i].due)
  }

  lemma DownEnd(h: seq<Timer>, ids: seq<int>, n: nat, m: map<int, Timer>, x: int, s: nat, moved: Timer)
    requires SiftingDown(h, ids, n, m, x, s, moved) && ChildrenLater(h, n, s, moved)
    ensures Settled(h[s := moved], ids[moved.id := s], n, m, x)
  {
    DownDone(h[s := moved], n, s);
  }

  /** The child that the sift looks at, the left one or its sibling if that is earlier. */
  ghost predicate Chosen(h: seq<Timer>, n: nat, s: nat, c: nat) {
    && n <= |h| && c < n
    && ((c == LeftChild(s) && (c + 1 < n ==> !Lt(h[c + 1].due, h[c].due)))
        || (c == LeftChild(s) + 1 && Lt(h[c].due, h[c - 1].due)))
  }

  lemma ChosenIsLesser(h: seq<Timer>, n: nat, s: nat, c: nat, moved: Timer)
    requires Chosen(h, n, s, c) && s < n
    ensures LesserChild(h[s := moved], n, s, c)
    ensures !Lt(h[c].due, moved.due) ==> ChildrenLater(h, n, s, moved)
  {
    assert forall i | 0 < i < n && Parent(i) == s :: i == LeftChild(s) || i == LeftChild(s) + 1;
  }

  lemma NoChildren(h: seq<Timer>, n: nat, s: nat, moved: Timer)
    requires n <= |h| && LeftChild(s) >= n
    ensures ChildrenLater(h, n, s, moved)
  {}

  /** A new timer starts its way up from behind the last slot. */
  lemma InsertSifts(h: seq<Timer>, ids: seq<int>, n: nat, m: map<int, Timer>, t: Timer, x: int)
    requires Settled(h, ids, n, m, x)
    requires n < |h| && 0 <= t.id < |ids| && t.id !in m && (x == t.id || x == -1)
    ensures SiftingUp(h, ids, n + 1, m[t.id := t], -1, n, t)
  {
    AppendRep(h, ids, n, m, t, x);
    assert forall i | 0 < i < n + 1 :: Parent(i) < i;
  }

  /** The last timer takes the place of a removed one and starts its way up or down from there. */
  lemma RemoveSifts(h: seq<Timer>, ids: seq<int>, n: nat, m: map<int, Timer>, s: nat)
    requires Settled(h, ids, n, m, -1) && s < n - 1
    ensures var t, x := h[n - 1], h[s].id;
            var h', ids' := h[s := t], ids[t.id := s];
            if Lt(t.due, h'[Parent(s)].due) then SiftingUp(h', ids', n - 1, m - {x}, x, s, t)
            else SiftingDown(h', ids', n - 1, m - {x}, x, s, t)
  {
    var t, x := h[n - 1], h[s].id;
    RemoveRep(h, ids, n, m, s);
    RemoveHole(h, n, s);
    assert h[s := t][s := t] == h[s := t];
    assert ids[t.id := s][t.id := s] == ids[t.id := s];
  }

  lemma RemoveLast(h: seq<Timer>, ids: seq<int>, n: nat, m: map<int, Timer>)
    requires Settled(h, ids, n, m, -1) && n > 0
    ensures Settled(h, ids, n - 1, m - {h[n - 1].id}, h[n - 1].id)
  {
    RemoveRep(h, ids, n, m, n - 1);
  }

  // ---------- Ids ----------

  /** Every id below the hint is in use. */
  ghost predicate HintOk(m: map<int, Timer>, hint: int) {
    0 <= hint && forall id | 0 <= id < hint :: id in m
  }

  ghost function Range(n: nat): (r: set<int>)
    ensures |r| == n && forall i :: i in r <==> 0 <= i < n
  {
    if n == 0 then {} else Range(n - 1) + {n - 1}
  }

  /** n ids below n: all of them. */
  lemma Pigeonhole(m: map<int, Timer>, n: nat)
    requires |m| == n && forall id | id in m :: 0 <= id < n
    ensures forall id | 0 <= id < n :: id in m
  {
    assert m.Keys <= Range(n);
    if id :| 0 <= id < n && id !in m {
      SubsetSize(m.Keys, Range(n) - {id});
    }
  }

  lemma {:induction false} SubsetSize<T>(a: set<T>, b: set<T>)
    requires a <= b
    ensures |a| <= |b|
    decreases a
  {
    if x :| x in a {
      SubsetSize(a - {x}, b - {x});
    }
  }

  /**
   * grow_heap copies n entries of each array and clears the rest.  The table is still
   * the heap's inverse exactly when every id in use is below n.
   */
  lemma GrowRep(h: seq<Timer>, ids: seq<int>, h': seq<Timer>, ids': seq<int>, n: nat, m: map<int, Timer>)
    requires Rep(h, ids, n, m, -1) && n <= |ids| <= |ids'| && n <= |h'|
    requires h'[..n] == h[..n] && ids'[..n] == ids[..n] && forall i | n <= i < |ids'| :: ids'[i] == -1
    ensures Rep(h', ids', n, m, -1) <==> forall id | id in m :: id < n
  {
    forall i | 0 <= i < n ensures h'[i] == h[i] {
      assert h'[..n][i] == h[..n][i];
    }
    forall i | 0 <= i < n ensures ids'[i] == ids[i] {
      assert ids'[..n][i] == ids[..n][i];
    }
  }

  /** With one entry left, all ids in use are below n exactly when that entry is the last one. */
  lemma LastEntry(h: seq<Timer>, ids: seq<int>, n: nat, m: map<int, Timer>)
    requires Rep(h, ids, n, m, -1) && |m| == n && |ids| == n + 1
    ensures (forall id | id in m :: id < n) <==> ids[n] == -1
    ensures ids[n] == -1 ==> forall id | 0 <= id < n :: id in m
  {
    if ids[n] == -1 {
      Pigeonhole(m, n);
    } else {
      assert n in m;
    }
  }

  /**
   * insert grows the arrays when one entry is left.  No timer loses its entry exactly when
   * the last id of the table is not in use.
   */
  lemma GrowthKeepsIds(h: seq<Timer>, ids: seq<int>, h': seq<Timer>, ids': seq<int>, n: nat, m: map<int, Timer>)
    requires Rep(h, ids, n, m, -1) && |m| == n && n + 1 == |ids| <= |ids'| && n <= |h'|
    requires h'[..n] == h[..n] && ids'[..n] == ids[..n] && forall i | n <= i < |ids'| :: ids'[i] == -1
    ensures Rep(h', ids', n, m, -1) <==> n !in m
  {
    LastEntry(h, ids, n, m);
    GrowRep(h, ids, h', ids', n, m);
  }

  // ---------- What the operations do to the timers ----------

  lemma HintInTable(h: seq<Timer>, ids: seq<int>, n: nat, m: map<int, Timer>, hint: int)
    requires Rep(h, ids, n, m, -1) && HintOk(m, hint)
    ensures hint <= |ids| && forall i | 0 <= i < hint :: ids[i] != -1
  {
    assert hint > |ids| ==> |ids| in m;
  }

  lemma InUse(h: seq<Timer>, ids: seq<int>, n: nat, m: map<int, Timer>, id: int)
    requires Rep(h, ids, n, m, -1) && 0 <= id < |ids|
    ensures id in m <==> ids[id] != -1
    ensures id in m ==> 0 <= ids[id] < n && h[ids[id]] == m[id] && m[id].id == id
  {}

  /** Fewer than id timers cannot use all ids below it. */
  lemma SmallestFree(m: map<int, Timer>, id: nat)
    requires forall i | 0 <= i < id :: i in m
    ensures id <= |m|
  {
    SubsetSize(Range(id), m.Keys);
  }

  /** No timer's entry is lost when one more timer is put in: there is room, or the last id is not in use. */
  ghost predicate Growable(m: map<int, Timer>, n: nat, length: nat) {
    n + 1 < length || (n + 1 == length && n !in m)
  }

  /** The smallest free id: there is one, the last id stays free, and at the moment of growth it is the next in line. */
  lemma NextId(h: seq<Timer>, ids: seq<int>, n: nat, m: map<int, Timer>, id: int)
    requires Rep(h, ids, n, m, -1) && |m| == n && Growable(m, n, |ids|)
    requires id == -1 ==> forall i | 0 <= i < |ids| :: ids[i] != -1
    requires id != -1 ==> 0 <= id < |ids| && ids[id] == -1 && forall i | 0 <= i < id :: ids[i] != -1
    ensures id != -1 && id !in m && id <= n
    ensures n + 1 == |ids| ==> id == n
    ensures forall i | 0 <= i < id :: i in m
  {
    if id == -1 {
      SmallestFree(m, |ids|);
    } else {
      SmallestFree(m, id);
    }
    if n + 1 == |ids| {
      LastEntry(h, ids, n, m);
    }
  }

  /** When the last id of a table is free, there are fewer timers than ids. */
  lemma LastFree(m: map<int, Timer>, length: nat)
    requires length > 0 && (forall id | id in m :: 0 <= id < length) && length - 1 !in m
    ensures |m| < length
  {
    assert m.Keys <= Range(length - 1);
    SubsetSize(m.Keys, Range(length - 1));
  }

  ghost predicate AllNormal(m: map<int, Timer>) {
    forall id | id in m :: Normal(m[id].due) && Normal(m[id].interval)
  }

  /** The timers that do not belong to the handler. */
  ghost function Without(m: map<int, Timer>, handler: int): map<int, Timer> {
    map id | id in m && m[id].handler != handler :: m[id]
  }
}
