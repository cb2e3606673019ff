/** How the recency list, the map and the objects' back pointers fit together. */
module CacheLinks {
  import opened Hints
  import opened Lists
  import opened CacheStore

  /** The item at a position of the list stands for the mapped object that points back to it. */
  ghost predicate ItemOk(r: Ref, keys: seq<Key>, ids: seq<Id>, mapped: map<Key, Id>, objs: map<Id, Object>) {
    && r < |keys| == |ids|
    && keys[r] in mapped && mapped[keys[r]] == ids[r]
    && ids[r] in objs && objs[ids[r]].proxy == r
  }

  /** Marks the keys whose items a proof looks up. */
  predicate Lookup(k: Key) {
    true
  }

  /** List, map and back pointers describe the same objects. */
  ghost predicate Proxied(order: seq<Ref>, keys: seq<Key>, ids: seq<Id>, mapped: map<Key, Id>, objs: map<Id, Object>) {
    && (forall i | 0 <= i < |order| :: ItemOk(order[i], keys, ids, mapped, objs))
    && (forall k {:trigger Lookup(k)} | Lookup(k) && k in mapped ::
          && mapped[k] in objs && objs[mapped[k]].proxy in order && objs[mapped[k]].proxy < |keys|
          && keys[objs[mapped[k]].proxy] == k)
  }

  /** The list is strictly by the time of last use. */
  ghost predicate Recent(order: seq<Ref>, keys: seq<Key>, used: map<Key, nat>, clock: nat) {
    && (forall i | 0 <= i < |order| :: order[i] < |keys| && keys[order[i]] in used && used[keys[order[i]]] < clock)
    && (forall i, j | 0 <= i < j < |order| :: used[keys[order[i]]] < used[keys[order[j]]])
  }

  /** k is the least recently used of the mapped keys. */
  ghost predicate LeastRecent(k: Key, mapped: map<Key, Id>, used: map<Key, nat>) {
    k in mapped && k in used && forall k' | k' in mapped && k' != k :: k' in used && used[k] < used[k']
  }

  /** Of the keys m those that are not in m' have gone, and each was used before every one that stays. */
  ghost predicate OldestGone(m: set<Key>, m': set<Key>, used: map<Key, nat>) {
    m' <= m && forall k, k' | k in m && k !in m' && k' in m' :: k in used && k' in used && used[k] < used[k']
  }

  /** Eviction goes on with the least recently used of the keys that are left. */
  lemma OldestGoes(m: set<Key>, mapped: map<Key, Id>, mapped': map<Key, Id>, used: map<Key, nat>)
    requires OldestGone(m, mapped.Keys, used)
    requires mapped' == mapped || exists k :: LeastRecent(k, mapped, used) && mapped' == mapped - {k}
    ensures OldestGone(m, mapped'.Keys, used)
  {}

  /** Of the keys m that are not in m' any more, k was used last. */
  ghost predicate Newest(k: Key, m: set<Key>, m': set<Key>, used: map<Key, nat>) {
    k in m && k !in m' && k in used && forall j | j in m && j !in m' && j != k :: j in used && used[j] < used[k]
  }

  /**
   * Eviction stops in time: before the last key was evicted the water was above the mark.  An eager eviction may
   * take a first key without that.
   */
  ghost predicate StopsInTime(m: map<Key, Id>, objs: map<Id, Object>, used: map<Key, nat>, m': set<Key>, water: int,
                              mark: int, eager: bool)
  {
    forall i {:trigger Asked(i)} | Asked(i) ::
      forall k | Newest(k, m.Keys, m', used) && (eager ==> m.Keys - m' != {k}) ::
        m[k] in objs && water + Weight(objs[m[k]]) > mark
  }

  lemma VictimIsNewest(m: set<Key>, used: map<Key, nat>, m1: map<Key, Id>, k: Key, j: Key)
    requires OldestGone(m, m1.Keys, used) && LeastRecent(k, m1, used) && Newest(j, m, (m1 - {k}).Keys, used)
    ensures j == k
  {
    assert k in m && k !in (m1 - {k}).Keys;
  }

  /** One more key is evicted, the least recently used of those that are left. */
  lemma EvictsInTime(m: map<Key, Id>, objs: map<Id, Object>, used: map<Key, nat>, m1: map<Key, Id>, k: Key, water: int,
                     mark: int, eager: bool)
    requires OldestGone(m.Keys, m1.Keys, used) && LeastRecent(k, m1, used) && m[k] in objs
    requires water + Weight(objs[m[k]]) > mark || (eager && m1.Keys == m.Keys)
    ensures StopsInTime(m, objs, used, (m1 - {k}).Keys, water, mark, eager)
  {
    var m' := (m1 - {k}).Keys;
    forall j | Newest(j, m.Keys, m', used) ensures j == k {
      VictimIsNewest(m.Keys, used, m1, k, j);
    }
    if eager && m1.Keys == m.Keys {
      assert m.Keys - m' == {k};
    }
  }

  lemma FirstIsLeastRecent(order: seq<Ref>, keys: seq<Key>, ids: seq<Id>, mapped: map<Key, Id>, objs: map<Id, Object>,
                           used: map<Key, nat>, clock: nat)
    requires Proxied(order, keys, ids, mapped, objs) && Recent(order, keys, used, clock) && order != []
    ensures order[0] < |keys| && LeastRecent(keys[order[0]], mapped, used)
  {
    assert ItemOk(order[0], keys, ids, mapped, objs);
    forall k | k in mapped && k != keys[order[0]] ensures k in used && used[keys[order[0]]] < used[k] {
      assert Lookup(k);
      var i :| 0 <= i < |order| && order[i] == objs[mapped[k]].proxy;
    }
  }

  /** A key used now goes to the end. */
  lemma RecentAppend(order: seq<Ref>, keys: seq<Key>, keys': seq<Key>, r: Ref, used: map<Key, nat>, clock: nat)
    requires Recent(order, keys, used, clock) && r < |keys'| && |keys| <= |keys'|
    requires forall i | 0 <= i < |order| :: keys'[order[i]] == keys[order[i]] && keys[order[i]] != keys'[r]
    ensures Recent(order + [r], keys', used[keys'[r] := clock], clock + 1)
  {
    var order' := order + [r];
    forall i | 0 <= i < |order| ensures order'[i] == order[i] {}
  }

  lemma RecentRemove(order: seq<Ref>, keys: seq<Key>, used: map<Key, nat>, clock: nat, k: nat)
    requires Recent(order, keys, used, clock) && k < |order|
    ensures Recent(Remove(order, k), keys, used, clock)
    ensures forall i | 0 <= i < |Remove(order, k)| :: keys[Remove(order, k)[i]] != keys[order[k]]
  {
    RemoveFacts(order, k, Remove(order, k));
  }

  /** A new object is put at the end. */
  lemma ProxiedAdd(order: seq<Ref>, keys: seq<Key>, ids: seq<Id>, keys': seq<Key>, ids': seq<Id>,
                   mapped: map<Key, Id>, objs: map<Id, Object>, r: Ref, k: Key, id: Id, o: Object)
    requires Proxied(order, keys, ids, mapped, objs) && k !in mapped && id !in objs && r !in order
    requires SameItems(keys, ids, keys', ids', r) && r < |keys'| && keys'[r] == k && ids'[r] == id && o.proxy == r
    ensures Proxied(order + [r], keys', ids', mapped[k := id], objs[id := o])
  {
    var order', mapped', objs' := order + [r], mapped[k := id], objs[id := o];
    forall i | 0 <= i < |order'| ensures ItemOk(order'[i], keys', ids', mapped', objs') {
      if i < |order| {
        assert ItemOk(order[i], keys, ids, mapped, objs);
        assert order[i] != r;
      }
    }
    forall k' | Lookup(k') && k' in mapped' && k' != k
      ensures mapped'[k'] in objs' && objs'[mapped'[k']].proxy in order' && objs'[mapped'[k']].proxy < |keys'|
              && keys'[objs'[mapped'[k']].proxy] == k'
    {
      assert mapped[k'] in objs && objs[mapped[k']].proxy in order;
      assert objs[mapped[k']].proxy != r;
    }
    assert order'[|order|] == r;
  }

  /** The same items in another order. */
  lemma ProxiedReorder(order: seq<Ref>, keys: seq<Key>, ids: seq<Id>, mapped: map<Key, Id>, objs: map<Id, Object>,
                       j: nat)
    requires Proxied(order, keys, ids, mapped, objs) && j < |order|
    ensures Proxied(Remove(order, j) + [order[j]], keys, ids, mapped, objs)
  {
    var rest, order' := Remove(order, j), Remove(order, j) + [order[j]];
    RemoveFacts(order, j, rest);
    forall i | 0 <= i < |order'| ensures ItemOk(order'[i], keys, ids, mapped, objs) {
      assert order'[i] == if i == |rest| then order[j] else if i < j then order[i] else order[i + 1];
    }
    forall r | r in order ensures r in order' {
      var i :| 0 <= i < |order| && order[i] == r;
      assert order'[if i == j then |rest| else if i < j then i else i - 1] == r;
    }
  }

  /** Objects change in nothing but their references. */
  lemma ProxiedUpdate(order: seq<Ref>, keys: seq<Key>, ids: seq<Id>, mapped: map<Key, Id>, objs: map<Id, Object>,
                      id: Id, o: Object)
    requires Proxied(order, keys, ids, mapped, objs) && id in objs && o.proxy == objs[id].proxy
    ensures Proxied(order, keys, ids, mapped, objs[id := o])
  {
    forall i | 0 <= i < |order| ensures ItemOk(order[i], keys, ids, mapped, objs[id := o]) {
      assert ItemOk(order[i], keys, ids, mapped, objs);
    }
  }

  /** The first item and its key leave. */
  lemma ProxiedShift(order: seq<Ref>, keys: seq<Key>, ids: seq<Id>, mapped: map<Key, Id>, objs: map<Id, Object>)
    requires Proxied(order, keys, ids, mapped, objs) && order != [] && Distinct(order)
    ensures order[0] < |keys| && Proxied(order[1..], keys, ids, mapped - {keys[order[0]]}, objs)
  {
    var k := keys[order[0]];
    assert ItemOk(order[0], keys, ids, mapped, objs);
    var order' := order[1..];
    forall i | 0 <= i < |order'| ensures ItemOk(order'[i], keys, ids, mapped - {k}, objs) {
      assert order'[i] == order[i + 1];
      assert ItemOk(order[i + 1], keys, ids, mapped, objs);
      assert order[i + 1] != order[0];
    }
    forall k' | Lookup(k') && k' in mapped && k' != k
      ensures mapped[k'] in objs && objs[mapped[k']].proxy in order'
    {
      var i :| 0 <= i < |order| && order[i] == objs[mapped[k']].proxy;
      assert order'[i - 1] == order[i];
    }
  }

  /** An object that no key of the map leads to is gone. */
  lemma ProxiedDrop(order: seq<Ref>, keys: seq<Key>, ids: seq<Id>, mapped: map<Key, Id>, objs: map<Id, Object>, id: Id)
    requires Proxied(order, keys, ids, mapped, objs)
    requires forall k | k in mapped :: mapped[k] != id
    ensures Proxied(order, keys, ids, mapped, objs - {id})
  {
    forall i | 0 <= i < |order| ensures ItemOk(order[i], keys, ids, mapped, objs - {id}) {
      assert ItemOk(order[i], keys, ids, mapped, objs);
      var k := keys[order[i]];
      assert k in mapped;
      assert mapped[k] in objs;
      assert mapped[k] != id;
    }
  }

  // ---------- The whole cache ----------

  /** The recency list with its items, the store, when each key was last used, and the water mark. */
  datatype Cache = Cache(
    order: seq<Ref>, keys: seq<Key>, ids: seq<Id>, store: Store, used: map<Key, nat>, clock: nat, water: int)
  {
    /** The key and the object of the first item. */
    ghost function FirstKey(): Key
      requires order != [] && order[0] < |keys|
    {
      keys[order[0]]
    }

    ghost function FirstId(): Id
      requires order != [] && order[0] < |ids|
    {
      ids[order[0]]
    }
  }

  /** Store, list, back pointers, recency and water mark agree. */
  ghost predicate CacheOk(v: Cache) {
    && StoreOk(v.store)
    && Proxied(v.order, v.keys, v.ids, v.store.mapped, v.store.objs)
    && Recent(v.order, v.keys, v.used, v.clock)
    && v.water == Total(v.store.objs, v.store.next)
  }

  /** An object gains or loses a reference. */
  lemma TouchOk(v: Cache, id: Id, refs: nat)
    requires CacheOk(v) && id in v.store.objs
    ensures CacheOk(v.(store := v.store.Update(id, v.store.objs[id].(refs := refs))))
  {
    var o := v.store.objs[id].(refs := refs);
    UpdateOk(v.store, id, o);
    ProxiedUpdate(v.order, v.keys, v.ids, v.store.mapped, v.store.objs, id, o);
  }

  /** Every mapped key has its item in the list. */
  lemma ItemOf(v: Cache, k: Key) returns (i: nat)
    requires CacheOk(v) && k in v.store.mapped
    ensures v.store.mapped[k] in v.store.objs && i < |v.order| && v.order[i] == v.store.objs[v.store.mapped[k]].proxy
    ensures v.order[i] < |v.keys| && v.keys[v.order[i]] == k
  {
    assert Lookup(k);
    i :| 0 <= i < |v.order| && v.order[i] == v.store.objs[v.store.mapped[k]].proxy;
  }

  /** The item at position i is used. */
  lemma UseOk(v: Cache, i: nat)
    requires CacheOk(v) && i < |v.order|
    ensures v.order[i] < |v.keys|
    ensures CacheOk(v.(order := Remove(v.order, i) + [v.order[i]],
                      used := v.used[v.keys[v.order[i]] := v.clock], clock := v.clock + 1))
  {
    ProxiedReorder(v.order, v.keys, v.ids, v.store.mapped, v.store.objs, i);
    RecentRemove(v.order, v.keys, v.used, v.clock, i);
    RecentAppend(Remove(v.order, i), v.keys, v.keys, v.order[i], v.used, v.clock);
  }

  /** The first item's object is referenced: it is set aside. */
  lemma SetAsideFirst(v: Cache)
    requires CacheOk(v) && v.order != [] && Distinct(v.order)
    ensures v.order[0] < |v.keys| == |v.ids| && v.FirstKey() in v.store.mapped
            && v.store.mapped[v.FirstKey()] == v.FirstId()
    ensures CacheOk(v.(order := v.order[1..], store := v.store.SetAside(v.FirstKey())))
  {
    assert ItemOk(v.order[0], v.keys, v.ids, v.store.mapped, v.store.objs);
    SetAsideOk(v.store, v.FirstKey());
    ProxiedShift(v.order, v.keys, v.ids, v.store.mapped, v.store.objs);
    RecentShift(v.order, v.keys, v.used, v.clock);
  }

  lemma RecentShift(order: seq<Ref>, keys: seq<Key>, used: map<Key, nat>, clock: nat)
    requires Recent(order, keys, used, clock) && order != []
    ensures Recent(order[1..], keys, used, clock)
  {}

  /** A pending object without references is dropped. */
  lemma DropPendingOk(v: Cache, k: Key)
    requires CacheOk(v) && k in v.store.pending
    ensures v.store.pending[k] in v.store.objs && v.store.pending[k] !in v.store.dropped && k !in v.store.mapped
    ensures var id := v.store.pending[k];
            CacheOk(v.(store := v.store.Without(id).(pending := v.store.pending - {k}),
                       water := v.water - v.store.objs[id].size))
  {
    DropOk(v.store, k);
    assert v.store.mapped - {k} == v.store.mapped;
    ProxiedDrop(v.order, v.keys, v.ids, v.store.mapped, v.store.objs, v.store.pending[k]);
  }

  /** A new object, used now, under a key that leads nowhere yet. */
  lemma PutOk(v: Cache, keys: seq<Key>, ids: seq<Id>, k: Key, o: Object)
    requires CacheOk(v) && k !in v.store.mapped && k !in v.store.pending && o.proxy !in v.order
    requires SameItems(v.keys, v.ids, keys, ids, o.proxy) && o.proxy < |keys| && keys[o.proxy] == k
             && ids[o.proxy] == v.store.next
    ensures CacheOk(Cache(v.order + [o.proxy], keys, ids, v.store.Add(k, o),
                          v.used[k := v.clock], v.clock + 1, v.water + o.size))
    ensures v.store.next !in v.store.objs && v.store.objs[v.store.next := o] - {v.store.next} == v.store.objs
  {
    AddOk(v.store, k, o);
    ProxiedAdd(v.order, v.keys, v.ids, keys, ids, v.store.mapped, v.store.objs, o.proxy, k, v.store.next, o);
    forall i | 0 <= i < |v.order| ensures keys[v.order[i]] == v.keys[v.order[i]] && v.keys[v.order[i]] != k {
      assert ItemOk(v.order[i], v.keys, v.ids, v.store.mapped, v.store.objs);
    }
    RecentAppend(v.order, v.keys, keys, o.proxy, v.used, v.clock);
  }

  /** The first item's object has no references: it is dropped. */
  lemma DropFirst(v: Cache)
    requires CacheOk(v) && v.order != [] && Distinct(v.order)
    ensures v.order[0] < |v.keys| == |v.ids| && v.FirstKey() in v.store.mapped
            && v.store.mapped[v.FirstKey()] == v.FirstId()
    ensures v.FirstId() in v.store.objs && v.FirstId() !in v.store.dropped && v.FirstKey() !in v.store.pending
    ensures var k, id := v.FirstKey(), v.FirstId();
            CacheOk(v.(order := v.order[1..], store := v.store.Without(id).(mapped := v.store.mapped - {k}),
                       water := v.water - v.store.objs[id].size))
  {
    assert ItemOk(v.order[0], v.keys, v.ids, v.store.mapped, v.store.objs);
    var k := v.FirstKey();
    SetAsideFirst(v);
    DropPendingOk(v.(order := v.order[1..], store := v.store.SetAside(k)), k);
    assert v.store.pending[k := v.FirstId()] - {k} == v.store.pending;
  }

  /** The first item is that of the least recently used key. */
  lemma Victim(v: Cache)
    requires CacheOk(v)
    ensures v.order == [] ==> v.store.mapped == map[]
    ensures v.order != [] ==>
              && v.order[0] < |v.keys| == |v.ids| && LeastRecent(v.FirstKey(), v.store.mapped, v.used)
              && v.store.mapped[v.FirstKey()] == v.FirstId()
  {
    if v.order != [] {
      FirstIsLeastRecent(v.order, v.keys, v.ids, v.store.mapped, v.store.objs, v.used, v.clock);
      assert ItemOk(v.order[0], v.keys, v.ids, v.store.mapped, v.store.objs);
    } else if v.store.mapped != map[] {
      var k := SomeKey(v.store.mapped);
      assert Lookup(k);
    }
  }

  lemma SomeKey(m: map<Key, Id>) returns (k: Key)
    requires m != map[]
    ensures k in m
  {
    assert m.Keys != {};
    k := SomeMember(m.Keys);
  }

  lemma SomeMember<T>(s: set<T>) returns (x: T)
    requires s != {}
    ensures x in s
  {
    x :| x in s;
  }
}
