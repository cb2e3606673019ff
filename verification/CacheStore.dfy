/**
 * The objects of the cache by value: which key leads to which object, through the
 * map or through the list of referenced victims, and how much memory they take.
 */
module CacheStore {
  import opened Lists

  type Key = int
  type Id = nat

  /** The proxy is the object's item in the recency list. */
  datatype Object = Object(size: nat, refs: nat, proxy: Ref)

  /**
   * The objects by id, the two maps that lead to them, the key each was put under, the next id, and the ids
   * dropped so far.
   */
  datatype Store = Store(
    mapped: map<Key, Id>, pending: map<Key, Id>, objs: map<Id, Object>, keyOf: map<Id, Key>,
    next: nat, dropped: set<Id>)
  {
    /** A new object under key k. */
    ghost function Add(k: Key, o: Object): Store {
      Store(mapped[k := next], pending, objs[next := o], keyOf[next := k], next + 1, dropped)
    }

    ghost function Update(id: Id, o: Object): Store {
      this.(objs := objs[id := o])
    }

    /** The object of key k moves from the map to the pending list. */
    ghost function SetAside(k: Key): Store
      requires k in mapped
    {
      this.(mapped := mapped - {k}, pending := pending[k := mapped[k]])
    }

    ghost function Without(id: Id): Store {
      this.(objs := objs - {id}, dropped := dropped + {id})
    }

    /** The object that key k leads to is dropped. */
    ghost function Drop(k: Key): Store
      requires k in mapped || k in pending
    {
      Without(if k in mapped then mapped[k] else pending[k]).(mapped := mapped - {k}, pending := pending - {k})
    }
  }

  /** mapped and pending lead to different objects, and to all of them; no object comes back once dropped. */
  ghost predicate StoreOk(s: Store) {
    && (forall k | k in s.mapped :: s.mapped[k] in s.objs && s.mapped[k] in s.keyOf && s.keyOf[s.mapped[k]] == k)
    && (forall k | k in s.pending ::
          s.pending[k] in s.objs && s.pending[k] in s.keyOf && s.keyOf[s.pending[k]] == k && k !in s.mapped)
    && (forall id | id in s.objs ::
          && id in s.keyOf && id < s.next && id !in s.dropped
          && ((s.keyOf[id] in s.mapped && s.mapped[s.keyOf[id]] == id)
              || (s.keyOf[id] in s.pending && s.pending[s.keyOf[id]] == id)))
    && (forall id | id in s.dropped :: id < s.next)
  }

  /** Both maps lead to objects, and what was dropped is gone. */
  ghost predicate Present(s: Store) {
    && (forall k | k in s.mapped :: s.mapped[k] in s.objs)
    && (forall k | k in s.pending :: s.pending[k] in s.objs && k !in s.mapped)
    && (forall id | id in s.objs :: id !in s.dropped)
  }

  lemma StoreIsPresent(s: Store)
    requires StoreOk(s)
    ensures Present(s)
  {}

  /** The size of all objects with an id below n. */
  ghost function Total(objs: map<Id, Object>, n: nat): int {
    if n == 0 then 0 else Total(objs, n - 1) + if n - 1 in objs then objs[n - 1].size else 0
  }

  lemma {:induction false} TotalSame(objs: map<Id, Object>, objs': map<Id, Object>, n: nat)
    requires forall id: Id | id < n :: (id in objs <==> id in objs') && (id in objs ==> objs[id].size == objs'[id].size)
    ensures Total(objs, n) == Total(objs', n)
  {
    if n > 0 {
      TotalSame(objs, objs', n - 1);
    }
  }

  lemma {:induction false} TotalAtLeast(objs: map<Id, Object>, n: nat)
    ensures Total(objs, n) >= 0
  {
    if n > 0 {
      TotalAtLeast(objs, n - 1);
    }
  }

  /** Two different objects fit under the total. */
  lemma TotalOfTwo(objs: map<Id, Object>, a: Id, b: Id, n: nat)
    requires a in objs && b in objs && a != b && a < n && b < n
    ensures Total(objs, n) >= objs[a].size + objs[b].size
  {
    TotalRemove(objs, a, n);
    TotalRemove(objs - {a}, b, n);
    TotalAtLeast(objs - {a} - {b}, n);
  }

  lemma {:induction false} TotalRemove(objs: map<Id, Object>, id: Id, n: nat)
    requires id in objs && id < n
    ensures Total(objs - {id}, n) == Total(objs, n) - objs[id].size
  {
    if id == n - 1 {
      TotalSame(objs, objs - {id}, n - 1);
    } else {
      TotalRemove(objs, id, n - 1);
    }
  }

  /** What dropping the object frees: nothing, while it has references. */
  function Weight(o: Object): nat {
    if o.refs == 0 then o.size else 0
  }

  /** The size of all objects that have references, with an id below n: no eviction frees that. */
  ghost function Needed(objs: map<Id, Object>, n: nat): nat {
    if n == 0 then 0 else Needed(objs, n - 1) + if n - 1 in objs && objs[n - 1].refs > 0 then objs[n - 1].size else 0
  }

  lemma {:induction false} NeededAtMost(objs: map<Id, Object>, n: nat)
    ensures Needed(objs, n) <= Total(objs, n)
    ensures (forall id | id in objs :: objs[id].refs > 0) ==> Needed(objs, n) == Total(objs, n)
  {
    if n > 0 {
      NeededAtMost(objs, n - 1);
    }
  }

  lemma {:induction false} NeededStays(objs: map<Id, Object>, dropped: set<Id>, objs': map<Id, Object>,
                                       dropped': set<Id>, n: nat)
    requires Sheds(objs, dropped, objs', dropped')
    ensures Needed(objs', n) == Needed(objs, n)
  {
    if n > 0 {
      NeededStays(objs, dropped, objs', dropped', n - 1);
    }
  }

  /** When nothing is mapped and all that is pending has references, all that is there is needed. */
  lemma AllNeeded(s: Store)
    requires StoreOk(s) && s.mapped == map[] && Referenced(s.pending, s.objs)
    ensures Needed(s.objs, s.next) == Total(s.objs, s.next)
    ensures s.pending == map[] ==> s.objs == map[]
  {
    NeededAtMost(s.objs, s.next);
    forall id | id in s.objs ensures s.objs[id].refs > 0 && s.pending != map[] {
      var k := s.keyOf[id];
      assert k !in s.mapped;
      assert k in s.pending && s.pending[k] == id;
      assert s.objs[s.pending[k]].refs > 0;
    }
  }

  // ---------- Operations ----------

  /** A new object under a key that leads nowhere yet. */
  lemma AddOk(s: Store, k: Key, o: Object)
    requires StoreOk(s) && k !in s.mapped && k !in s.pending
    ensures StoreOk(s.Add(k, o)) && Total(s.Add(k, o).objs, s.next + 1) == Total(s.objs, s.next) + o.size
  {
    TotalSame(s.objs, s.objs[s.next := o], s.next);
  }

  /** Only references and proxies change. */
  lemma UpdateOk(s: Store, id: Id, o: Object)
    requires StoreOk(s) && id in s.objs && o.size == s.objs[id].size
    ensures StoreOk(s.Update(id, o)) && Total(s.Update(id, o).objs, s.next) == Total(s.objs, s.next)
  {
    TotalSame(s.objs, s.objs[id := o], s.next);
  }

  /** A referenced victim moves from the map to the pending list. */
  lemma SetAsideOk(s: Store, k: Key)
    requires StoreOk(s) && k in s.mapped
    ensures StoreOk(s.SetAside(k))
  {}

  /** An object without references is dropped. */
  lemma DropOk(s: Store, k: Key)
    requires StoreOk(s) && (k in s.mapped || k in s.pending)
    ensures var id := if k in s.mapped then s.mapped[k] else s.pending[k];
            && id in s.objs && id !in s.dropped && StoreOk(s.Drop(k))
            && Total(s.Drop(k).objs, s.next) == Total(s.objs, s.next) - s.objs[id].size
  {
    TotalRemove(s.objs, if k in s.mapped then s.mapped[k] else s.pending[k], s.next);
  }

  /**
   * Some objects were dropped, each for the first time and without references; the others
   * are unchanged.  In particular every object with references is still there.
   */
  ghost predicate Sheds(objs: map<Id, Object>, dropped: set<Id>, objs': map<Id, Object>, dropped': set<Id>) {
    && dropped <= dropped'
    && (forall id | id in objs' :: id in objs && objs'[id] == objs[id] && (id in dropped' ==> id in dropped))
    && (forall id | id in objs :: id in objs' || (id in dropped' && id !in dropped && objs[id].refs == 0))
    && (forall id | id in dropped' && id !in dropped :: id in objs)
  }

  lemma ShedsTwice(objs: map<Id, Object>, dropped: set<Id>, objs1: map<Id, Object>, dropped1: set<Id>,
                   objs2: map<Id, Object>, dropped2: set<Id>)
    requires Sheds(objs, dropped, objs1, dropped1) && Sheds(objs1, dropped1, objs2, dropped2)
    requires forall id | id in objs :: id !in dropped
    ensures Sheds(objs, dropped, objs2, dropped2)
  {}

  /** Every object can be found under its key. */
  lemma Findable(s: Store, id: Id)
    requires StoreOk(s) && id in s.objs
    ensures id in s.keyOf
    ensures var k := s.keyOf[id];
            id == if k in s.mapped then s.mapped[k] else if k in s.pending then s.pending[k] else s.next
  {}

  /** What is left in the pending list after a sweep. */
  ghost predicate Swept(pending: map<Key, Id>, objs: map<Id, Object>, pending': map<Key, Id>) {
    && (forall k | k in pending' ::
          k in pending && pending'[k] == pending[k] && pending[k] in objs && objs[pending[k]].refs > 0)
    && (forall k | k in pending && pending[k] in objs && objs[pending[k]].refs > 0 :: k in pending')
  }

  lemma KeysBut(mapped: map<Key, Id>, k: Key, id: Id)
    requires k !in mapped
    ensures mapped[k := id].Keys - {k} == mapped.Keys
  {}

  /** All pending objects have references. */
  ghost predicate Referenced(pending: map<Key, Id>, objs: map<Id, Object>) {
    forall k | k in pending :: pending[k] in objs && objs[pending[k]].refs > 0
  }

  /** What has references keeps them, whether it was pending or is set aside now. */
  lemma StillReferenced(pending: map<Key, Id>, k: Key, id: Id, objs: map<Id, Object>, dropped: set<Id>,
                        objs': map<Id, Object>, dropped': set<Id>)
    requires Referenced(pending, objs) && Sheds(objs, dropped, objs', dropped') && id in objs
    ensures Referenced(pending, objs') && (objs[id].refs > 0 ==> Referenced(pending[k := id], objs'))
  {}

  /** A key that leads to an object now led to it before. */
  lemma NoNewKeys(s: Store, s': Store, k: Key)
    requires StoreOk(s) && StoreOk(s') && s'.keyOf == s.keyOf && Sheds(s.objs, s.dropped, s'.objs, s'.dropped)
    requires k in s'.mapped || k in s'.pending
    ensures var id := if k in s'.mapped then s'.mapped[k] else s'.pending[k];
            id in s.objs && ((k in s.mapped && s.mapped[k] == id) || (k in s.pending && s.pending[k] == id))
  {}

  /** A key that led to an object and leads to none now: the object had no references. */
  lemma GoneUnreferenced(s: Store, s': Store, k: Key)
    requires StoreOk(s) && StoreOk(s') && s'.keyOf == s.keyOf && Sheds(s.objs, s.dropped, s'.objs, s'.dropped)
    requires k !in s'.mapped && k !in s'.pending
    ensures k in s.mapped ==> s.objs[s.mapped[k]].refs == 0
    ensures k in s.pending ==> s.objs[s.pending[k]].refs == 0
  {}

  lemma ShedsNothing(objs: map<Id, Object>, dropped: set<Id>)
    requires forall id | id in objs :: id !in dropped
    ensures Sheds(objs, dropped, objs, dropped)
  {}

  /** Items other than r keep their keys and objects. */
  ghost predicate SameItems(keys: seq<Key>, ids: seq<Id>, keys': seq<Key>, ids': seq<Id>, r: Ref) {
    && |keys| == |ids| <= |keys'| == |ids'|
    && forall q: Ref | q < |keys| && q != r :: keys'[q] == keys[q] && ids'[q] == ids[q]
  }

  /** Object id, with one reference, is new under key k. */
  ghost predicate Added(mapped: map<Key, Id>, objs: map<Id, Object>, keyOf: map<Id, Key>, k: Key, size: nat, id: Id,
                        mapped': map<Key, Id>, objs': map<Id, Object>, keyOf': map<Id, Key>)
  {
    && id !in objs && mapped' == mapped[k := id] && keyOf' == keyOf[id := k]
    && id in objs' && objs'[id].size == size && objs'[id].refs == 1 && objs' - {id} == objs
  }

  // ---------- Clients ----------

  /** A reference that a client holds: the object, and the key it was asked for under. */
  datatype Reference = Reference(key: Key, id: Id)

  /** How many references to the object there are. */
  ghost function Count(held: seq<Reference>, id: Id): nat {
    if held == [] then 0
    else Count(held[..|held| - 1], id) + if held[|held| - 1].id == id then 1 else 0
  }

  lemma CountSnoc(held: seq<Reference>, r: Reference, id: Id)
    ensures Count(held + [r], id) == Count(held, id) + if r.id == id then 1 else 0
  {
    assert (held + [r])[..|held|] == held;
  }

  lemma {:induction false} CountRemove(held: seq<Reference>, k: nat, id: Id)
    requires k < |held|
    ensures Count(Remove(held, k), id) == Count(held, id) - if held[k].id == id then 1 else 0
  {
    var n := |held| - 1;
    if k == n {
      assert Remove(held, k) == held[..n];
    } else {
      CountRemove(held[..n], k, id);
      CountSnoc(Remove(held[..n], k), held[n], id);
      assert Remove(held, k) == Remove(held[..n], k) + [held[n]];
    }
  }

  lemma {:induction false} CountHeld(held: seq<Reference>, i: nat)
    requires i < |held|
    ensures Count(held, held[i].id) > 0
  {
    if i < |held| - 1 {
      CountHeld(held[..|held| - 1], i);
    }
  }

  lemma {:induction false} CountNone(held: seq<Reference>, id: Id)
    requires forall i | 0 <= i < |held| :: held[i].id != id
    ensures Count(held, id) == 0
  {
    if held != [] {
      CountNone(held[..|held| - 1], id);
    }
  }

  /** What is held is there, under the key it was asked for; and all references are held. */
  ghost predicate HeldOk(objs: map<Id, Object>, keyOf: map<Id, Key>, held: seq<Reference>) {
    && (forall i | 0 <= i < |held| :: held[i].id in objs && held[i].id in keyOf && keyOf[held[i].id] == held[i].key)
    && (forall id | id in objs :: objs[id].refs == Count(held, id))
  }

  /** Objects that are held survive. */
  lemma HeldSurvive(objs: map<Id, Object>, dropped: set<Id>, objs': map<Id, Object>, dropped': set<Id>,
                    keyOf: map<Id, Key>, held: seq<Reference>)
    requires HeldOk(objs, keyOf, held) && Sheds(objs, dropped, objs', dropped')
    ensures HeldOk(objs', keyOf, held)
  {
    forall i | 0 <= i < |held| ensures held[i].id in objs' {
      CountHeld(held, i);
    }
  }

  lemma HeldMore(objs: map<Id, Object>, keyOf: map<Id, Key>, held: seq<Reference>, r: Reference)
    requires HeldOk(objs, keyOf, held) && r.id in objs && r.id in keyOf && keyOf[r.id] == r.key
    ensures HeldOk(objs[r.id := objs[r.id].(refs := objs[r.id].refs + 1)], keyOf, held + [r])
  {
    forall id | id in objs ensures Count(held + [r], id) == Count(held, id) + if r.id == id then 1 else 0 {
      CountSnoc(held, r, id);
    }
  }

  lemma HeldLess(objs: map<Id, Object>, keyOf: map<Id, Key>, held: seq<Reference>, k: nat)
    requires HeldOk(objs, keyOf, held) && k < |held|
    ensures var id := held[k].id;
            && id in objs && objs[id].refs > 0
            && HeldOk(objs[id := objs[id].(refs := objs[id].refs - 1)], keyOf, Remove(held, k))
  {
    CountHeld(held, k);
    RemoveFacts(held, k, Remove(held, k));
    forall id | id in objs ensures Count(Remove(held, k), id) == Count(held, id) - if held[k].id == id then 1 else 0 {
      CountRemove(held, k, id);
    }
  }

  /** A new object, which no one else holds, is held once. */
  lemma HeldNew(objs: map<Id, Object>, o: Object, keyOf: map<Id, Key>, held: seq<Reference>, r: Reference)
    requires HeldOk(objs, keyOf, held) && r.id !in objs && o.refs == 1
    ensures HeldOk(objs[r.id := o], keyOf[r.id := r.key], held + [r])
  {
    var held', objs' := held + [r], objs[r.id := o];
    CountNone(held, r.id);
    forall id | id in objs' ensures objs'[id].refs == Count(held', id) {
      CountSnoc(held, r, id);
    }
    forall i | 0 <= i < |held'|
      ensures held'[i].id in objs' && (i < |held| ==> held'[i] == held[i] && held[i].id != r.id) {}
  }

  /** What a put drops is not held, and what it adds is held once. */
  lemma HeldPut(objs: map<Id, Object>, dropped: set<Id>, objs': map<Id, Object>, dropped': set<Id>,
                keyOf: map<Id, Key>, held: seq<Reference>, r: Reference)
    requires HeldOk(objs, keyOf, held) && Sheds(objs, dropped, objs' - {r.id}, dropped')
    requires r.id in objs' && objs'[r.id].refs == 1
    ensures HeldOk(objs', keyOf[r.id := r.key], held + [r])
  {
    HeldSurvive(objs, dropped, objs' - {r.id}, dropped', keyOf, held);
    HeldNew(objs' - {r.id}, objs'[r.id], keyOf, held, r);
    assert (objs' - {r.id})[r.id := objs'[r.id]] == objs';
  }
}
