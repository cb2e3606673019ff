/** Joining and cutting doubly linked lists. */
module MessageLinks {
  import opened Lists

  /** Chain s has its forward links; its backward links are right up to node i. */
  ghost predicate BackUpTo(prev: Arena, s: seq<Ref>, i: nat) {
    forall j {:trigger prev[s[j]]} | 0 < j <= i && j < |s| && s[j] < |prev| :: prev[s[j]] == s[j - 1]
  }

  lemma BackComplete(prev: Arena, s: seq<Ref>, first: Ref)
    requires s != [] && Nodes(prev, s) && Distinct(s) && BackUpTo(prev, s, |s| - 1)
    ensures BackChained(prev[s[0] := NIL], s)
  {
    var prev' := prev[s[0] := NIL];
    forall i | 0 <= i < |s| ensures prev'[s[i]] == if i > 0 then s[i - 1] else NIL {
      assert i > 0 ==> s[i] != s[0];
    }
  }

  lemma DistinctJoin(s: seq<Ref>, t: seq<Ref>)
    requires Distinct(s) && Distinct(t) && Apart(s, t)
    ensures Distinct(s + t)
  {}

  ghost predicate Apart(s: seq<Ref>, t: seq<Ref>) {
    forall i, j | 0 <= i < |s| && 0 <= j < |t| :: s[i] != t[j]
  }

  /** The first list's end and the second list's front are linked. */
  lemma Join(next: Arena, prev: Arena, s: seq<Ref>, t: seq<Ref>)
    requires |next| == |prev| && Linked(next, prev, s) && Linked(next, prev, t) && Apart(s, t) && s != [] && t != []
    ensures Last(s) < |next| && Linked(next[Last(s) := t[0]], prev[t[0] := Last(s)], s + t)
  {
    DistinctJoin(s, t);
    ChainJoin(next, s, t);
    BackJoin(prev, s, t);
  }

  lemma BackJoin(prev: Arena, s: seq<Ref>, t: seq<Ref>)
    requires BackChained(prev, s) && BackChained(prev, t) && Distinct(t) && Apart(s, t) && s != [] && t != []
    ensures BackChained(prev[t[0] := Last(s)], s + t)
  {
    var m, u := prev[t[0] := Last(s)], s + t;
    forall i | 0 <= i < |u| ensures 0 < u[i] < |m| && m[u[i]] == if i > 0 then u[i - 1] else NIL {
      if i < |s| {
        assert u[i] == s[i] && s[i] != t[0];
      } else {
        assert u[i] == t[i - |s|];
        assert i > |s| ==> t[i - |s|] != t[0] && u[i - 1] == t[i - |s| - 1];
      }
    }
  }

  /** The link between positions k - 1 and k is cut on both sides. */
  lemma Cut(next: Arena, prev: Arena, s: seq<Ref>, k: nat)
    requires |next| == |prev| && Linked(next, prev, s) && 0 < k < |s|
    ensures var next', prev' := next[s[k - 1] := NIL], prev[s[k] := NIL];
            Linked(next', prev', s[..k]) && Linked(next', prev', s[k..])
  {
    ChainCut(next, s, k);
    BackCut(prev, s, k);
    DistinctSplit(s, k);
  }

  lemma BackCut(prev: Arena, s: seq<Ref>, k: nat)
    requires BackChained(prev, s) && Distinct(s) && 0 < k < |s|
    ensures BackChained(prev[s[k] := NIL], s[..k]) && BackChained(prev[s[k] := NIL], s[k..])
  {
    var m, t := prev[s[k] := NIL], s[k..];
    forall i | 0 <= i < |t| ensures 0 < t[i] < |m| && m[t[i]] == if i > 0 then t[i - 1] else NIL {
      assert t[i] == s[k + i];
      assert i > 0 ==> s[k + i] != s[k] && t[i - 1] == s[k + i - 1];
    }
  }

  /** Nodes outside of both lists keep their links. */
  ghost predicate SameElsewhere(m: Arena, m': Arena, s: seq<Ref>, t: seq<Ref>) {
    |m'| == |m| && forall x: Ref | x < |m| && x !in s && x !in t :: m'[x] == m[x]
  }

  /** Joining writes only to nodes of the two lists. */
  lemma JoinElsewhere(m0: Arena, m: Arena, s: seq<Ref>, t: seq<Ref>, x: Ref, y: Ref)
    requires SameElsewhere(m0, m, s, t) && x < |m| && (x in s || x in t)
    ensures SameElsewhere(m0, m[x := y], s, t)
  {}

  lemma LastMember(s: seq<Ref>)
    requires s != []
    ensures Last(s) in s && First(s) in s
  {
    assert Last(s) == s[|s| - 1] && First(s) == s[0];
  }

  /** The walk along a chain that sets its backward links, n nodes from the start. */
  ghost predicate Sealing(prev0: Arena, prev: Arena, chain: seq<Ref>, n: nat) {
    && 1 <= n <= |chain| && Nodes(prev, chain) && Distinct(chain)
    && BackUpTo(prev, chain, n - 1) && SameElsewhere(prev0, prev, [], chain)
  }

  lemma SealStep(prev0: Arena, prev: Arena, chain: seq<Ref>, n: nat)
    requires Sealing(prev0, prev, chain, n) && n < |chain|
    ensures Sealing(prev0, prev[chain[n] := chain[n - 1]], chain, n + 1)
  {
    assert chain[n] in chain;
    JoinElsewhere(prev0, prev, [], chain, chain[n], chain[n - 1]);
  }

  lemma Sealed(next: Arena, prev0: Arena, prev: Arena, chain: seq<Ref>, list: seq<Ref>)
    requires |next| == |prev0| && Sealing(prev0, prev, chain, |chain|) && Chained(next, chain)
    requires Linked(next, prev0, list) && Apart(list, chain)
    ensures var prev' := prev[chain[0] := NIL];
            Linked(next, prev', list) && Linked(next, prev', chain) && SameElsewhere(prev0, prev', list, chain)
  {
    var prev' := prev[chain[0] := NIL];
    BackComplete(prev, chain, chain[0]);
    forall i | 0 <= i < |list| ensures prev'[list[i]] == prev0[list[i]] {
      forall j | 0 <= j < |chain| ensures chain[j] != list[i] {}
    }
    LinkedFrame(next, prev0, next, prev', list);
  }
}
