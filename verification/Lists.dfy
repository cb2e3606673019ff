/**
 * Linked lists in explicit memory.  Nodes live in an arena; a link field of the
 * node class is one sequence, indexed by node, so that the assignment
 * p->next_ = q reads next := next[p := q].  Slot 0 stands for the null pointer.
 * The lemmas say what each relinking pattern does to the list as a sequence.
 */
module Lists {
  type Ref = nat

  /** The values of one link field, for all nodes. */
  type Arena = seq<Ref>

  const NIL: Ref := 0

  function First(s: seq<Ref>): Ref {
    if s == [] then NIL else s[0]
  }

  function Last(s: seq<Ref>): Ref {
    if s == [] then NIL else s[|s| - 1]
  }

  ghost predicate Distinct(s: seq<Ref>) {
    forall i, j | 0 <= i < j < |s| :: s[i] != s[j]
  }

  /** The nodes are in the arena and none of them is null. */
  ghost predicate Nodes(m: Arena, s: seq<Ref>) {
    forall i | 0 <= i < |s| :: 0 < s[i] < |m|
  }

  /** Following m from the first node visits s and then reaches null. */
  ghost predicate Chained(m: Arena, s: seq<Ref>) {
    && Nodes(m, s)
    && (forall i {:trigger m[s[i]]} | 0 <= i < |s| :: m[s[i]] == if i + 1 < |s| then s[i + 1] else NIL)
  }

  /** The same for backward links, from the last node to the first. */
  ghost predicate BackChained(m: Arena, s: seq<Ref>) {
    && Nodes(m, s)
    && (forall i {:trigger m[s[i]]} | 0 <= i < |s| :: m[s[i]] == if i > 0 then s[i - 1] else NIL)
  }

  /** A doubly linked list of distinct nodes. */
  ghost predicate Linked(next: Arena, prev: Arena, s: seq<Ref>) {
    Chained(next, s) && BackChained(prev, s) && Distinct(s)
  }

  // ---------- Sequences ----------

  function Insert<T>(s: seq<T>, k: nat, x: T): seq<T>
    requires k <= |s|
  {
    s[..k] + [x] + s[k..]
  }

  function Remove<T>(s: seq<T>, k: nat): seq<T>
    requires k < |s|
  {
    s[..k] + s[k + 1..]
  }

  lemma InsertFacts<T>(s: seq<T>, k: nat, x: T, t: seq<T>)
    requires k <= |s| && t == Insert(s, k, x)
    ensures |t| == |s| + 1 && t[k] == x
    ensures forall j | 0 <= j < k :: t[j] == s[j]
    ensures forall j | k < j < |t| :: t[j] == s[j - 1]
  {}

  lemma InsertMembers<T>(s: seq<T>, k: nat, x: T)
    requires k <= |s|
    ensures forall y :: y in Insert(s, k, x) <==> y in s || y == x
  {}

  lemma RemoveFacts<T>(s: seq<T>, k: nat, t: seq<T>)
    requires k < |s| && t == Remove(s, k)
    ensures |t| == |s| - 1
    ensures forall j | 0 <= j < k :: t[j] == s[j]
    ensures forall j | k <= j < |t| :: t[j] == s[j + 1]
  {}

  lemma DistinctRemove(s: seq<Ref>, k: nat, t: seq<Ref>)
    requires Distinct(s) && k < |s| && t == Remove(s, k)
    ensures Distinct(t) && s[k] !in t
    ensures forall y | y in s && y != s[k] :: y in t
  {
    RemoveFacts(s, k, t);
    forall y | y in s && y != s[k] ensures y in t {
      var i :| 0 <= i < |s| && s[i] == y;
      assert t[if i < k then i else i - 1] == y;
    }
  }

  lemma DistinctSplit(s: seq<Ref>, k: nat)
    requires Distinct(s) && k <= |s|
    ensures Distinct(s[..k]) && Distinct(s[k..])
    ensures forall y | y in s[..k] :: y !in s[k..]
  {
    forall i, j | 0 <= i < k <= j < |s| ensures s[i] != s[j] {}
  }

  // ---------- Inserting ----------

  lemma DistinctInsert(s: seq<Ref>, k: nat, x: Ref)
    requires Distinct(s) && x !in s && k <= |s|
    ensures Distinct(Insert(s, k, x))
  {
    InsertFacts(s, k, x, Insert(s, k, x));
  }

  lemma ChainInsert(m: Arena, s: seq<Ref>, k: nat, x: Ref)
    requires Chained(m, s) && Distinct(s) && x !in s && 0 < x < |m| && 0 < k <= |s|
    ensures Chained(m[x := m[s[k - 1]]][s[k - 1] := x], Insert(s, k, x))
  {
    var t := Insert(s, k, x);
    InsertFacts(s, k, x, t);
  }

  lemma BackInsert(m: Arena, s: seq<Ref>, k: nat, x: Ref)
    requires BackChained(m, s) && Distinct(s) && x !in s && 0 < x < |m| && 0 < k <= |s|
    ensures BackChained(if k < |s| then m[x := s[k - 1]][s[k] := x] else m[x := s[k - 1]], Insert(s, k, x))
  {
    InsertFacts(s, k, x, Insert(s, k, x));
  }

  lemma ChainPrepend(m: Arena, s: seq<Ref>, x: Ref)
    requires Chained(m, s) && Distinct(s) && x !in s && 0 < x < |m|
    ensures Chained(m[x := First(s)], [x] + s) && Distinct([x] + s)
  {}

  lemma BackPrepend(m: Arena, s: seq<Ref>, x: Ref)
    requires BackChained(m, s) && Distinct(s) && x !in s && 0 < x < |m|
    ensures BackChained(if s == [] then m[x := NIL] else m[x := NIL][s[0] := x], [x] + s)
  {}

  // ---------- Removing ----------

  lemma ChainRemove(m: Arena, s: seq<Ref>, k: nat)
    requires Chained(m, s) && Distinct(s) && k < |s|
    ensures Chained(if k == 0 then m else m[s[k - 1] := m[s[k]]], Remove(s, k))
  {
    RemoveFacts(s, k, Remove(s, k));
  }

  lemma BackRemove(m: Arena, s: seq<Ref>, k: nat)
    requires BackChained(m, s) && Distinct(s) && k < |s|
    ensures BackChained(if k + 1 == |s| then m else m[s[k + 1] := m[s[k]]], Remove(s, k))
  {
    RemoveFacts(s, k, Remove(s, k));
  }

  // ---------- Replacing ----------

  lemma ChainReplace(m: Arena, s: seq<Ref>, k: nat, x: Ref)
    requires Chained(m, s) && Distinct(s) && k < |s| && x !in s && 0 < x < |m|
    ensures var m' := m[x := m[s[k]]];
            Chained(if k == 0 then m' else m'[s[k - 1] := x], s[k := x])
    ensures Distinct(s[k := x])
  {}

  lemma BackReplace(m: Arena, s: seq<Ref>, k: nat, x: Ref)
    requires BackChained(m, s) && Distinct(s) && k < |s| && x !in s && 0 < x < |m|
    ensures var m' := m[x := m[s[k]]];
            BackChained(if k + 1 == |s| then m' else m'[s[k + 1] := x], s[k := x])
  {}

  // ---------- Splitting ----------

  /** A list is unaffected by what happens to other nodes. */
  lemma LinkedFrame(next: Arena, prev: Arena, next': Arena, prev': Arena, s: seq<Ref>)
    requires Linked(next, prev, s) && |next| <= |next'| && |prev| <= |prev'|
    requires forall i | 0 <= i < |s| :: next'[s[i]] == next[s[i]] && prev'[s[i]] == prev[s[i]]
    ensures Linked(next', prev', s)
  {}

  /** Writing to a node outside the list. */
  lemma ChainFrame(m: Arena, s: seq<Ref>, x: Ref, y: Ref)
    requires Chained(m, s) && x < |m| && x !in s
    ensures Chained(m[x := y], s)
  {}

  /** Writing elsewhere, and into new nodes, leaves the chain alone. */
  lemma ChainKept(m: Arena, m': Arena, s: seq<Ref>)
    requires Chained(m, s) && |m| <= |m'| && forall i | 0 <= i < |s| :: m'[s[i]] == m[s[i]]
    ensures Chained(m', s)
  {}

  lemma ChainTail(m: Arena, m': Arena, s: seq<Ref>)
    requires Chained(m, s) && s != [] && |m'| == |m| && forall i | 1 <= i < |s| :: m'[s[i]] == m[s[i]]
    ensures Chained(m', s[1..])
  {}

  lemma BackTail(m: Arena, s: seq<Ref>)
    requires |s| > 1 && Distinct(s) && 0 < s[0] < |m| && BackChained(m[s[0] := NIL], s)
    ensures 0 < s[1] < |m| && BackChained(m[s[1] := NIL], s[1..])
  {
    var t := s[1..];
    forall i | 0 <= i < |t| ensures 0 < t[i] < |m| && m[s[1] := NIL][t[i]] == if i > 0 then t[i - 1] else NIL {
      assert t[i] == s[i + 1] && m[s[0] := NIL][s[i + 1]] == s[i];
    }
  }

  /** Cutting the link behind the k-th node gives two lists. */
  lemma ChainCut(m: Arena, s: seq<Ref>, k: nat)
    requires Chained(m, s) && Distinct(s) && 0 < k <= |s|
    ensures Chained(m[s[k - 1] := NIL], s[..k]) && Chained(m[s[k - 1] := NIL], s[k..])
  {}

  /** Linking the end of one list to the front of another. */
  lemma ChainJoin(m: Arena, s: seq<Ref>, t: seq<Ref>)
    requires Chained(m, s) && Chained(m, t) && Distinct(s + t) && s != []
    ensures Chained(m[Last(s) := First(t)], s + t)
  {
    assert forall i | 0 <= i < |s| :: (s + t)[i] == s[i];
    assert forall i | 0 <= i < |t| :: (s + t)[|s| + i] == t[i];
    forall y | y in t ensures y != Last(s) {
      var i :| 0 <= i < |t| && t[i] == y;
      assert (s + t)[|s| + i] == y && (s + t)[|s| - 1] == Last(s);
    }
  }
}
