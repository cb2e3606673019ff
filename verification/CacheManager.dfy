/** The cache manager: a bounded store of referenced objects that evicts the least recently used. */
module CacheManager {
  import opened Hints
  import opened Lists
  import opened CacheStore
  import opened CacheLinks
  import opened CacheDeque

  class Manager {
    const minSize: nat
    const maxSize: nat
    const highMark: nat
    const lowMark: nat
    const deque: Deque
    var mapped: map<Key, Id>
    var pending: map<Key, Id>
    var objs: map<Id, Object>
    var water: int
    var nextId: nat

    /** The key an object was put under; the objects dropped so far; and when each key was last used. */
    ghost var keyOf: map<Id, Key>
    ghost var dropped: set<Id>
    ghost var used: map<Key, nat>
    ghost var clock: nat

    ghost predicate Valid()
      reads this, deque
    {
      deque.Valid() && Present(Objects()) && forall i {:trigger Asked(i)} | Asked(i) :: CacheOk(View())
    }

    lemma Whole()
      requires Valid()
      ensures CacheOk(View())
    {
      assert Asked(0);
    }

    ghost function Objects(): Store
      reads this
    {
      Store(mapped, pending, objs, keyOf, nextId, dropped)
    }

    /** The value of the cache. */
    ghost function View(): Cache
      reads this, deque
    {
      Cache(deque.order, deque.keys, deque.objs, Objects(), used, clock, water)
    }

    constructor (min: nat, max: nat, high: nat, low: nat)
      ensures Valid() && fresh(deque) && mapped == map[] && pending == map[] && objs == map[] && water == 0
              && HeldOk(objs, keyOf, [])
      ensures minSize == min && maxSize == max && highMark == high * 1024 * 1024 && lowMark == low * 1024 * 1024
    {
      minSize, maxSize, highMark, lowMark := min, max, high * 1024 * 1024, low * 1024 * 1024;
      deque := new Deque();
      mapped, pending, objs, water, nextId := map[], map[], map[], 0, 0;
      keyOf, dropped, used, clock := map[], {}, map[], 0;
    }

    // ---------- Finding objects ----------

    method Touch(id: Id, refs: nat)
      requires Valid() && id in objs
      modifies `objs
      ensures Valid() && objs == old(objs)[id := old(objs)[id].(refs := refs)]
    {
      Whole();
      TouchOk(View(), id, refs);
      objs := objs[id := objs[id].(refs := refs)];
    }

    /** The key becomes the most recently used. */
    method Use(k: Key)
      requires Valid() && k in mapped
      modifies `used, `clock, deque
      ensures Valid() && used == old(used)[k := old(clock)] && clock == old(clock) + 1
    {
      Whole();
      var r := objs[mapped[k]].proxy;
      ghost var i := ItemOf(View(), k);
      UseOk(View(), i);
      ghost var v := View();
      deque.Adjust(r, i);
      used, clock := used[k := clock], clock + 1;
      assert View() == v.(order := deque.order, used := used, clock := clock);
    }

    /**
     * -1 when the key leads to no object, neither in the map nor among the pending ones.  A hit takes a
     * reference; in the map it also makes the key the most recently used.
     */
    method Get(k: Key) returns (id: int)
      requires Valid()
      modifies `objs, `used, `clock, deque
      ensures Valid()
      ensures id == if k in mapped then mapped[k] else if k in pending then pending[k] else -1
      ensures if id == -1 then objs == old(objs)
              else id in old(objs) && objs == old(objs)[id := old(objs)[id].(refs := old(objs)[id].refs + 1)]
      ensures used == if k in mapped then old(used)[k := old(clock)] else old(used)
    {
      if k in mapped {
        id := mapped[k];
        Use(k);
        Touch(id, objs[id].refs + 1);
      } else if k in pending {
        id := pending[k];
        Touch(id, objs[id].refs + 1);
      } else {
        id := -1;
      }
    }

    /** The holder of a reference gives it back. */
    method Release(id: Id)
      requires Valid() && id in objs && objs[id].refs > 0
      modifies `objs
      ensures Valid() && objs == old(objs)[id := old(objs)[id].(refs := old(objs)[id].refs - 1)]
    {
      Touch(id, objs[id].refs - 1);
    }

    // ---------- Evicting objects ----------

    /** A pending object without references is dropped. */
    method DropPending(k: Key)
      requires Valid() && k in pending && objs[pending[k]].refs == 0
      modifies `pending, `objs, `water, `dropped
      ensures Valid() && pending == old(pending) - {k} && objs == old(objs) - {old(pending)[k]}
      ensures Sheds(old(objs), old(dropped), objs, dropped) && water == old(water) - old(objs)[old(pending)[k]].size
    {
      var id := pending[k];
      Whole();
      DropPendingOk(View(), k);
      water := water - objs[id].size;
      objs := objs - {id};
      pending := pending - {k};
      dropped := dropped + {id};
    }

    /** Drops all pending objects without references; 0 if that brings the water down to the low mark. */
    method FlushPending() returns (rc: int)
      requires Valid()
      modifies `pending, `objs, `water, `dropped
      ensures Valid() && Sheds(old(objs), old(dropped), objs, dropped) && Swept(old(pending), old(objs), pending)
      ensures Referenced(pending, objs) && pending.Keys <= old(pending.Keys)
      ensures rc == if old(pending) != map[] && water <= lowMark then 0 else -1
      ensures water <= old(water)
      ensures old(Referenced(pending, objs)) ==> pending == old(pending) && objs == old(objs) && water == old(water)
    {
      if pending == map[] {
        return -1;
      }
      var rest: set<Key> := pending.Keys;
      while rest != {}
        invariant Valid() && rest <= pending.Keys <= old(pending.Keys) && water <= old(water)
        invariant Sheds(old(objs), old(dropped), objs, dropped)
        invariant forall k | k in pending :: k in old(pending) && pending[k] == old(pending)[k]
        invariant old(Referenced(pending, objs)) ==>
                    pending == old(pending) && objs == old(objs) && water == old(water)
        invariant forall k | k in pending && k !in rest :: objs[pending[k]].refs > 0
        invariant forall k | k in old(pending) && k !in pending ::
                    old(pending)[k] in old(objs) && old(objs)[old(pending)[k]].refs == 0
      {
        ghost var x := SomeMember(rest);
        var k :| k in rest;
        rest := rest - {k};
        if objs[pending[k]].refs == 0 {
          ghost var o, d := objs, dropped;
          DropPending(k);
          ShedsTwice(old(objs), old(dropped), o, d, objs, dropped);
        }
      }
      rc := if water <= lowMark then 0 else -1;
    }

    /** The least recently used object leaves the map: it is dropped, or set aside while it has references. */
    method EvictFirst() returns (ok: bool, ghost victim: Key)
      requires Valid()
      modifies `mapped, `pending, `objs, `water, `dropped, deque
      ensures Valid() && Sheds(old(objs), old(dropped), objs, dropped) && water <= old(water)
      ensures !ok ==> mapped == old(mapped) == map[] && pending == old(pending) && water == old(water)
                       && objs == old(objs) && deque.order == old(deque.order) == []
      ensures ok ==> LeastRecent(victim, old(mapped), used) && mapped == old(mapped) - {victim}
      ensures ok ==> old(mapped)[victim] in old(objs) && |deque.order| == |old(deque.order)| - 1
      ensures ok ==> water == old(water) - Weight(old(objs)[old(mapped)[victim]])
      ensures ok ==> pending == if old(objs)[old(mapped)[victim]].refs == 0 then old(pending)
                                    else old(pending)[victim := old(mapped)[victim]]
    {
      Whole();
      ghost var v := View();
      Victim(v);
      var k, id;
      ok, k, id := deque.RemoveFirst();
      victim := k;
      if !ok {
        return;
      }
      if objs[id].refs == 0 {
        DropFirst(v);
        DropMapped(k, id);
      } else {
        SetAsideFirst(v);
        SetMappedAside(k, id);
        ShedsNothing(objs, dropped);
      }
    }

    /** Key k, whose item has left the list, leaves the map, and its object is dropped. */
    method DropMapped(k: Key, id: Id)
      requires deque.Valid() && Present(Objects()) && k in mapped && mapped[k] == id && objs[id].refs == 0
      requires CacheOk(View().(store := Objects().Without(id).(mapped := mapped - {k}), water := water - objs[id].size))
      modifies `mapped, `objs, `water, `dropped
      ensures Valid() && Sheds(old(objs), old(dropped), objs, dropped) && water == old(water) - old(objs)[id].size
              && mapped == old(mapped) - {k}
    {
      ghost var v := View();
      mapped := mapped - {k};
      water := water - objs[id].size;
      objs := objs - {id};
      dropped := dropped + {id};
      assert View() == v.(store := v.store.Without(id).(mapped := mapped), water := water);
      StoreIsPresent(Objects());
    }

    /** Key k, whose item has left the list, leaves the map, and its object is set aside. */
    method SetMappedAside(k: Key, id: Id)
      requires deque.Valid() && Present(Objects()) && k in mapped && mapped[k] == id
      requires CacheOk(View().(store := Objects().SetAside(k)))
      modifies `mapped, `pending
      ensures Valid() && mapped == old(mapped) - {k} && pending == old(pending)[k := id]
    {
      ghost var v := View();
      mapped := mapped - {k};
      pending := pending[k := id];
      assert View() == v.(store := v.store.SetAside(k));
      StoreIsPresent(Objects());
    }

    /** The water that key k was evicted from: what is left, and what dropping its object has freed. */
    ghost predicate WasAbove(m: map<Key, Id>, o: map<Id, Object>, k: Key, level: int)
      reads `water
    {
      k in m && m[k] in o && water + Weight(o[m[k]]) > level
    }

    /**
     * Makes some room: sweeps the pending objects and, if that is not enough, evicts one object.  An object is
     * evicted only if nothing was pending, or the water was still above the low mark after the sweep.
     */
    method Flush() returns (rc: int, ghost victim: Key)
      requires Valid()
      modifies `mapped, `pending, `objs, `water, `dropped, deque
      ensures Valid() && Sheds(old(objs), old(dropped), objs, dropped) && water <= old(water) && (rc == 0 || rc == -1)
      ensures Referenced(pending, objs) && mapped.Keys <= old(mapped.Keys)
      ensures pending.Keys <= old(pending.Keys) + old(mapped.Keys)
      ensures rc == 0 ==> water <= lowMark || |deque.order| < |old(deque.order)|
      ensures rc == -1 ==> mapped == old(mapped) == map[] && (old(pending) == map[] || water > lowMark)
      ensures rc == 0 && mapped == old(mapped) ==> old(pending) != map[] && water <= lowMark
      ensures mapped == old(mapped) || (LeastRecent(victim, old(mapped), used) && mapped == old(mapped) - {victim})
      ensures mapped != old(mapped) && old(pending) != map[] ==> WasAbove(old(mapped), old(objs), victim, lowMark)
      ensures old(Referenced(pending, objs)) ==>
                if mapped == old(mapped) then water == old(water)
                else WasAbove(old(mapped), old(objs), victim, old(water) - 1)
    {
      victim := 0;
      rc := FlushPending();
      if rc == 0 {
        return;
      }
      ghost var o, d, p, m := objs, dropped, pending, mapped;
      var ok;
      ok, victim := EvictFirst();
      ShedsTwice(old(objs), old(dropped), o, d, objs, dropped);
      if ok {
        StillReferenced(p, victim, m[victim], o, d, objs, dropped);
      }
      rc := if ok then 0 else -1;
    }

    /** Sweeps, and then evicts everything that is mapped: only what has references is left, set aside. */
    method FlushAll()
      requires Valid()
      modifies `mapped, `pending, `objs, `water, `dropped, deque
      ensures Valid() && mapped == map[] && Sheds(old(objs), old(dropped), objs, dropped) && water <= old(water)
      ensures Referenced(pending, objs) && forall id | id in objs :: objs[id].refs > 0
    {
      var _ := FlushPending();
      var ok := true;
      while ok
        invariant Valid() && Sheds(old(objs), old(dropped), objs, dropped) && water <= old(water)
        invariant Referenced(pending, objs)
        invariant !ok ==> mapped == map[]
        decreases |deque.order|, ok
      {
        ghost var o, d, p, m := objs, dropped, pending, mapped;
        ghost var victim;
        ok, victim := EvictFirst();
        ShedsTwice(old(objs), old(dropped), o, d, objs, dropped);
        if ok {
          StillReferenced(p, victim, m[victim], o, d, objs, dropped);
        }
      }
      forall id | id in objs ensures objs[id].refs > 0 {
        Found(id);
      }
    }

    // ---------- Putting objects ----------

    /** A new object of this size would take the water above the high mark. */
    predicate Full(size: nat)
      reads `water
    {
      water + size > highMark
    }

    /** No eviction makes room: there is nothing at all, or what has references exceeds the low mark. */
    ghost predicate Hopeless()
      reads `objs, `nextId
    {
      objs == map[] || Needed(objs, nextId) > lowMark
    }

    lemma NeededFits()
      requires Valid()
      ensures Needed(objs, nextId) <= water
      ensures mapped == map[] && Referenced(pending, objs) ==>
                Needed(objs, nextId) == water && (pending == map[] ==> objs == map[])
    {
      Whole();
      NeededAtMost(objs, nextId);
      if mapped == map[] && Referenced(pending, objs) {
        AllNeeded(Objects());
      }
    }

    /**
     * Brings the water down when the new object would exceed the high mark.  That fails exactly when it is
     * hopeless.  The least recently used go first; and none goes while the water is at the low mark, but for the
     * first when nothing was pending.
     */
    method MakeRoom(size: nat) returns (rc: int)
      requires Valid()
      modifies `mapped, `pending, `objs, `water, `dropped, deque
      ensures Valid() && Sheds(old(objs), old(dropped), objs, dropped) && water <= old(water)
      ensures (rc == 0 || rc == -1) && OldestGone(old(mapped.Keys), mapped.Keys, used)
      ensures pending.Keys <= old(pending.Keys) + old(mapped.Keys)
      ensures old(Full(size)) ==> Referenced(pending, objs)
      ensures rc == -1 <==> old(Full(size) && Hopeless())
      ensures forall k | k in mapped :: k in old(mapped) && mapped[k] == old(mapped)[k]
      ensures rc == -1 ==> mapped == map[]
      ensures rc == 0 ==> !Full(size) || water <= lowMark
      ensures StopsInTime(old(mapped), old(objs), used, mapped.Keys, water, lowMark, old(pending) == map[])
      ensures !old(Full(size)) ==> mapped == old(mapped) && pending == old(pending) && objs == old(objs)
    {
      ShedsNothing(objs, dropped);
      if size + water <= highMark {
        return 0;
      }
      rc := Evict();
    }

    /** The loop of make_cobj. */
    method Evict() returns (rc: int)
      requires Valid()
      modifies `mapped, `pending, `objs, `water, `dropped, deque
      ensures Valid() && Sheds(old(objs), old(dropped), objs, dropped) && water <= old(water)
      ensures (rc == 0 || rc == -1) && OldestGone(old(mapped.Keys), mapped.Keys, used)
      ensures pending.Keys <= old(pending.Keys) + old(mapped.Keys) && Referenced(pending, objs)
      ensures rc == -1 <==> old(Hopeless())
      ensures forall k | k in mapped :: k in old(mapped) && mapped[k] == old(mapped)[k]
      ensures rc == -1 ==> mapped == map[]
      ensures rc == 0 ==> water <= lowMark
      ensures StopsInTime(old(mapped), old(objs), used, mapped.Keys, water, lowMark, old(pending) == map[])
    {
      ShedsNothing(objs, dropped);
      var again := true;
      ghost var first := true;
      while again
        invariant Valid() && Sheds(old(objs), old(dropped), objs, dropped) && water <= old(water)
        invariant OldestGone(old(mapped.Keys), mapped.Keys, used)
                  && pending.Keys <= old(pending.Keys) + old(mapped.Keys)
        invariant forall k | k in mapped :: k in old(mapped) && mapped[k] == old(mapped)[k]
        invariant StopsInTime(old(mapped), old(objs), used, mapped.Keys, water, lowMark, old(pending) == map[])
        invariant if first then again && mapped == old(mapped) && pending == old(pending) && objs == old(objs)
                  else Referenced(pending, objs) && old(objs) != map[] && (again <==> water > lowMark)
        decreases again, if again then |deque.order| else 0
      {
        var r := EvictMore(old(mapped), old(pending), old(objs), old(dropped), first);
        if r == -1 {
          NeededStays(old(objs), old(dropped), objs, dropped, nextId);
          NeededFits();
          return -1;
        }
        again, first := water > lowMark, false;
      }
      NeededStays(old(objs), old(dropped), objs, dropped, nextId);
      NeededFits();
      rc := 0;
    }

    /** One more flush, for a cache that was (m, p, o, d) when room began to be made. */
    method EvictMore(ghost m: map<Key, Id>, ghost p: map<Key, Id>, ghost o: map<Id, Object>, ghost d: set<Id>,
                     ghost first: bool)
      returns (rc: int)
      requires Valid() && Sheds(o, d, objs, dropped) && (forall id | id in o :: id !in d)
      requires OldestGone(m.Keys, mapped.Keys, used) && forall k | k in mapped :: k in m && mapped[k] == m[k]
      requires StopsInTime(m, o, used, mapped.Keys, water, lowMark, p == map[])
      requires if first then mapped == m && pending == p && objs == o
               else Referenced(pending, objs) && o != map[] && water > lowMark
      modifies `mapped, `pending, `objs, `water, `dropped, deque
      ensures Valid() && Sheds(o, d, objs, dropped) && water <= old(water) && (rc == 0 || rc == -1)
      ensures OldestGone(m.Keys, mapped.Keys, used) && forall k | k in mapped :: k in m && mapped[k] == m[k]
      ensures pending.Keys <= old(pending.Keys) + old(mapped.Keys) && Referenced(pending, objs)
      ensures StopsInTime(m, o, used, mapped.Keys, water, lowMark, p == map[])
      ensures rc == 0 ==> o != map[] && (water <= lowMark || |deque.order| < |old(deque.order)|)
      ensures rc == -1 ==> mapped == map[] && ((first && o == map[]) || water > lowMark)
    {
      ghost var o1, d1, m1 := objs, dropped, mapped;
      ghost var victim;
      SomethingThere();
      NeededFits();
      rc, victim := Flush();
      ShedsTwice(o, d, o1, d1, objs, dropped);
      if mapped != m1 {
        OldestGoes(m.Keys, m1, mapped, used);
        EvictsInTime(m, o, used, m1, victim, water, lowMark, p == map[]);
      }
    }

    /** A key leads to an object. */
    lemma SomethingThere()
      requires Valid()
      ensures objs == map[] ==> mapped == map[] && pending == map[]
    {
      if mapped != map[] {
        var k := SomeKey(mapped);
        assert mapped[k] in objs;
      }
      if pending != map[] {
        var k := SomeKey(pending);
        assert pending[k] in objs;
      }
    }

    /** The most that the cache holds: the high mark, or the low mark and one more object. */
    function Bound(): nat {
      if highMark >= lowMark + maxSize then highMark else lowMark + maxSize
    }

    /** The object of the new item r enters the map. */
    method Record(k: Key, size: nat, r: Ref)
      modifies `mapped, `objs, `water, `nextId, `keyOf, `used, `clock
      ensures Objects() == old(Objects()).Add(k, Object(size, 1, r))
      ensures water == old(water) + size && used == old(used)[k := old(clock)] && clock == old(clock) + 1
    {
      mapped, objs, water := mapped[k := nextId], objs[nextId := Object(size, 1, r)], water + size;
      keyOf, used, clock := keyOf[nextId := k], used[k := clock], clock + 1;
      nextId := nextId + 1;
    }

    /** The new object enters list and map with one reference; the cache stays in order unless the key is pending. */
    method Add(k: Key, size: nat) returns (id: Id)
      requires Valid() && k !in mapped
      modifies `mapped, `objs, `water, `nextId, `keyOf, `used, `clock, deque
      ensures (Valid() <==> k !in pending) && id == old(nextId)
      ensures Added(old(mapped), old(objs), old(keyOf), k, size, id, mapped, objs, keyOf)
      ensures water == old(water) + size && used == old(used)[k := old(clock)] && clock == old(clock) + 1
    {
      Whole();
      id := nextId;
      ghost var v := View();
      var r := deque.Insert(k, id);
      if k !in pending {
        PutOk(v, deque.keys, deque.objs, k, Object(size, 1, r));
      }
      Record(k, size, r);
    }

    /**
     * What a caller can check beforehand: the key's previous object has no references, or there is none; and
     * a pending one is swept away, because there is not enough room.
     */
    ghost predicate Clear(k: Key, size: nat)
      requires Valid()
      reads this, deque
    {
      && (k in pending ==> objs[pending[k]].refs == 0 && water + size > highMark)
      && (k in mapped ==> objs[mapped[k]].refs == 0)
    }

    predicate Acceptable(hasData: bool, size: nat) {
      hasData && minSize <= size <= maxSize
    }

    /**
     * Puts an object under a key, unless the key is mapped once there is room.  A put that succeeds leaves
     * the cache in order exactly when the key was clear; otherwise the key leads to two objects.  What makes room
     * for it are the keys that were used least recently, no more of them than it takes.  A put of an acceptable
     * size under a key that is not mapped fails exactly when room is needed and cannot be made.
     */
    method Put(k: Key, hasData: bool, size: nat) returns (rc: int, id: int)
      requires Valid()
      modifies this, deque
      ensures rc == 0 || rc == -1
      ensures rc == -1 ==> Valid()
      ensures rc == 0 ==> (Valid() <==> old(Clear(k, size)))
      ensures rc == 0 && !old(Clear(k, size)) ==> k in pending && pending[k] != id && pending[k] in objs
      ensures !Acceptable(hasData, size) || (k in old(mapped) && !old(Full(size))) ==>
                rc == -1 && mapped == old(mapped) && pending == old(pending) && objs == old(objs)
      ensures Acceptable(hasData, size) && k !in old(mapped) ==> (rc == -1 <==> old(Full(size) && Hopeless()))
      ensures Acceptable(hasData, size) && k !in old(mapped) && rc == -1 ==> mapped == map[]
      ensures Acceptable(hasData, size) && k in old(mapped) ==>
                if rc == 0 then old(Full(size) && !Hopeless())
                else mapped == map[] || (k in mapped && mapped[k] == old(mapped)[k])
      ensures StopsInTime(old(mapped), old(objs), old(used), mapped.Keys - (if rc == 0 then {k} else {}),
                          water - (if rc == 0 then size else 0), lowMark, old(pending) == map[])
      ensures OldestGone(old(mapped.Keys), mapped.Keys - (if rc == 0 then {k} else {}), old(used))
      ensures pending.Keys <= old(pending.Keys) + old(mapped.Keys)
      ensures rc == -1 ==> id == -1 && Sheds(old(objs), old(dropped), objs, dropped) && water <= old(water)
      ensures rc == -1 ==> keyOf == old(keyOf) && used == old(used) && clock == old(clock)
      ensures rc == 0 ==> id !in old(objs) && keyOf == old(keyOf)[old(nextId) := k] && clock == old(clock) + 1
      ensures rc == 0 ==>
                && id == old(nextId) && k in mapped && mapped[k] == id && id in objs && objs[id].size == size
                && objs[id].refs == 1
                && Sheds(old(objs), old(dropped), objs - {id}, dropped)
                && used == old(used)[k := old(clock)] && water <= Bound()
    {
      rc, id := -1, -1;
      assert mapped.Keys - {} == mapped.Keys;
      if !hasData || size > maxSize || size < minSize {
        ShedsNothing(objs, dropped);
        return;
      }
      NextIsNew();
      var room := RoomFor(k, size);
      assert mapped.Keys - {} == mapped.Keys;
      if room {
        KeysBut(mapped, k, nextId);
        id := Add(k, size);
        rc := 0;
      }
    }

    lemma NextIsNew()
      requires Valid()
      ensures nextId !in objs
    {
      Whole();
    }

    /** Makes room, and says whether the key is free to be mapped. */
    method RoomFor(k: Key, size: nat) returns (room: bool)
      requires Valid()
      modifies `mapped, `pending, `objs, `water, `dropped, deque
      ensures Valid() && Sheds(old(objs), old(dropped), objs, dropped) && water <= old(water)
      ensures room ==> k !in mapped && (k !in pending <==> old(Clear(k, size))) && (!Full(size) || water <= lowMark)
      ensures k !in old(mapped) ==> (room <==> !old(Full(size) && Hopeless())) && (!room ==> mapped == map[])
      ensures k in old(mapped) ==>
                if room then old(Full(size) && !Hopeless())
                else mapped == map[] || (k in mapped && mapped[k] == old(mapped)[k])
      ensures OldestGone(old(mapped.Keys), mapped.Keys, used)
      ensures StopsInTime(old(mapped), old(objs), used, mapped.Keys, water, lowMark, old(pending) == map[])
      ensures pending.Keys <= old(pending.Keys) + old(mapped.Keys)
      ensures !old(Full(size)) ==> mapped == old(mapped) && pending == old(pending) && objs == old(objs)
    {
      Whole();
      ghost var s, full := Objects(), Full(size);
      var rc := MakeRoom(size);
      room := rc == 0 && k !in mapped;
      if room {
        ClearExact(s, k, full);
      }
    }

    /** The key's object is pending after room was made exactly when it was there to stay, or has been set aside. */
    lemma ClearExact(s: Store, k: Key, full: bool)
      requires Valid() && StoreOk(s) && s.keyOf == keyOf && s.next == nextId && k !in mapped
      requires Sheds(s.objs, s.dropped, objs, dropped)
      requires if full then Referenced(pending, objs) else mapped == s.mapped && pending == s.pending && objs == s.objs
      ensures k !in pending <==>
                && (k in s.pending ==> s.objs[s.pending[k]].refs == 0 && full)
                && (k in s.mapped ==> s.objs[s.mapped[k]].refs == 0)
    {
      Whole();
      if k in pending {
        NoNewKeys(s, Objects(), k);
      } else {
        GoneUnreferenced(s, Objects(), k);
      }
    }

    // ---------- Histories ----------

    /** Where get looks: the map, and then the pending list. */
    function Where(k: Key): int
      reads `mapped, `pending
    {
      if k in mapped then mapped[k] else if k in pending then pending[k] else -1
    }

    /** The holder of a reference finds its object under the key it asked for, until it gives the reference back. */
    lemma HeldFound(held: seq<Reference>, i: nat)
      requires Valid() && HeldOk(objs, keyOf, held) && i < |held|
      ensures Where(held[i].key) == held[i].id && objs[held[i].id].refs > 0
    {
      Found(held[i].id);
      CountHeld(held, i);
    }

    /** A client gets the object of a key or, if there is none, puts one. */
    method Obtain(k: Key, hasData: bool, size: nat, held: seq<Reference>) returns (id: int)
      requires Valid() && HeldOk(objs, keyOf, held) && water <= Bound()
      modifies this, deque
      ensures Valid() && water <= Bound() && id >= -1
      ensures HeldOk(objs, keyOf, if id == -1 then held else held + [Reference(k, id)])
    {
      Whole();
      id := Get(k);
      if id != -1 {
        HeldMore(old(objs), keyOf, held, Reference(k, id));
      } else {
        id := PutMissing(k, hasData, size, held);
      }
    }

    method PutMissing(k: Key, hasData: bool, size: nat, ghost held: seq<Reference>) returns (id: int)
      requires Valid() && HeldOk(objs, keyOf, held) && water <= Bound() && k !in mapped && k !in pending
      modifies this, deque
      ensures Valid() && water <= Bound() && id >= -1
      ensures HeldOk(objs, keyOf, if id == -1 then held else held + [Reference(k, id)])
    {
      ghost var o, d, keys := objs, dropped, keyOf;
      var rc;
      rc, id := Put(k, hasData, size);
      if rc == -1 {
        HeldSurvive(o, d, objs, dropped, keys, held);
      } else {
        HeldPut(o, d, objs, dropped, keys, held, Reference(k, id));
      }
    }

    /** Carries out one operation for a client that holds the given references. */
    method Perform(op: Operation, held: seq<Reference>) returns (got: int, held': seq<Reference>)
      requires Valid() && HeldOk(objs, keyOf, held) && water <= Bound()
      modifies this, deque
      ensures Valid() && water <= Bound() && got >= -1 && held' == After(held, op, got) && HeldOk(objs, keyOf, held')
    {
      got, held' := -1, held;
      match op
      case Ask(k, hasData, size) =>
        got := Obtain(k, hasData, size, held);
        if got != -1 {
          held' := held + [Reference(k, got)];
        }
      case GiveBack(i) =>
        if i < |held| {
          HeldLess(objs, keyOf, held, i);
          Release(held[i].id);
          held' := Remove(held, i);
        }
      case Clear =>
        ghost var o, d := objs, dropped;
        FlushAll();
        HeldSurvive(o, d, objs, dropped, keyOf, held);
    }

    /**
     * Any history of clients that ask for keys, putting what they could not get, give back what they hold, and
     * flush the cache: it stays in order and within its bound, what is held is there under the key it was asked
     * for, and the reference counts are those of what is held.
     */
    method Run(ops: seq<Operation>) returns (got: seq<int>, held: seq<Reference>)
      requires Valid() && HeldOk(objs, keyOf, []) && water <= Bound()
      modifies this, deque
      ensures Valid() && water <= Bound() && HeldOk(objs, keyOf, held)
      ensures |got| == |ops| && (forall n | 0 <= n < |got| :: got[n] >= -1) && held == History(ops, got)
      ensures forall i | 0 <= i < |held| :: Where(held[i].key) == held[i].id
    {
      got, held := [], [];
      for n := 0 to |ops|
        invariant Valid() && water <= Bound() && HeldOk(objs, keyOf, held)
        invariant |got| == n && (forall j | 0 <= j < n :: got[j] >= -1) && held == History(ops[..n], got)
      {
        var id;
        ghost var was := got;
        id, held := Perform(ops[n], held);
        got := got + [id];
        assert ops[..n + 1][..n] == ops[..n] && got[..n] == was;
      }
      assert ops[..|ops|] == ops;
      forall i | 0 <= i < |held| ensures Where(held[i].key) == held[i].id {
        HeldFound(held, i);
      }
    }

    /** An object with references, or without, is found under its key until it is dropped. */
    lemma Found(id: Id)
      requires Valid() && id in objs
      ensures id in keyOf
      ensures var k := keyOf[id]; (k in mapped && mapped[k] == id) || (k !in mapped && k in pending && pending[k] == id)
    {
      Whole();
      Findable(Objects(), id);
    }
  }

  // ---------- Clients ----------

  /** A client asks for a key, gives back the i-th of the references it holds, or flushes the cache. */
  datatype Operation = Ask(key: Key, hasData: bool, size: nat) | GiveBack(i: nat) | Clear

  /** What is held after an operation that returned `got`. */
  function After(held: seq<Reference>, op: Operation, got: int): seq<Reference>
    requires got >= -1
  {
    match op
    case Ask(k, _, _) => if got == -1 then held else held + [Reference(k, got)]
    case GiveBack(i) => if i < |held| then Remove(held, i) else held
    case Clear => held
  }

  function History(ops: seq<Operation>, got: seq<int>): seq<Reference>
    requires |got| == |ops| && forall n | 0 <= n < |got| :: got[n] >= -1
  {
    if ops == [] then []
    else
      var n := |ops| - 1;
      After(History(ops[..n], got[..n]), ops[n], got[n])
  }

  // ---------- A put that goes wrong ----------

  /**
   * A put that goes wrong.  The first object fills the cache; a put of another key sets it aside, because it is
   * referenced, and fails; and then its key is put again.
   */
  method TwoObjectsForOneKey() returns (m: Manager)
    ensures fresh(m) && !m.Valid()
    ensures 1 in m.mapped && 1 in m.pending && m.mapped[1] != m.pending[1]
  {
    m := SetAsideManager();
    var rc, id := m.Put(1, true, 0);
  }

  const MEGABYTE := 1024 * 1024

  /** A cache whose one object, of key 1, was set aside. */
  method SetAsideManager() returns (m: Manager)
    ensures fresh(m) && fresh(m.deque) && m.Valid() && m.Acceptable(true, 0) && m.water <= m.highMark
    ensures m.mapped == map[] && 1 in m.pending && m.objs[m.pending[1]].refs > 0
  {
    var a;
    m, a := FilledManager();
    var rc, b := m.Put(2, true, 1);
    if rc == 0 {
      m.Whole();
      TotalOfTwo(m.objs, a, b, m.nextId);
      assert false;
    }
    m.Found(a);
  }

  method FilledManager() returns (m: Manager, a: int)
    ensures fresh(m) && fresh(m.deque) && m.Valid()
    ensures m.minSize == m.lowMark == 0 && m.maxSize == m.highMark == MEGABYTE && m.water <= MEGABYTE
    ensures m.mapped.Keys == {1} && m.pending == map[] && a in m.objs
            && m.objs[a] == Object(MEGABYTE, 1, m.objs[a].proxy)
    ensures a in m.keyOf && m.keyOf[a] == 1
  {
    m := new Manager(0, MEGABYTE, 1, 0);
    var rc;
    rc, a := m.Put(1, true, MEGABYTE);
    assert m.mapped.Keys - {1} == {};
    m.Found(a);
  }
}
