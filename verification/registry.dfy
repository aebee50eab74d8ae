/**
 The gadget registry: one map from gadget id to gadget record, and the six
 request handlers that read and write it. Each handler reads or removes at most
 one key, checks existence first and then the rental state where it applies, and
 writes to the map at most once; create only inserts and list only reads.
 */
module Registry {
  import opened Gadgets
  import opened Responses

  type Store = map<string, Gadget>

  /** Every stored record sits under its own id. */
  ghost predicate KeyedById(m: Store) {
    forall k :: k in m ==> m[k].id == k
  }

  /** Every stored record is available exactly when nobody holds it. */
  ghost predicate AllConsistent(m: Store) {
    forall k :: k in m ==> Consistent(m[k])
  }

  /** Records keyed by their own ids are pairwise distinct: there are as many as keys. */
  lemma {:induction false} RecordsMatchKeys(m: Store)
    requires KeyedById(m)
    ensures |m.Values| == |m|
    decreases |m|
  {
    if m != map[] {
      var k :| k in m;
      var rest := m - {k};
      assert rest.Keys == m.Keys - {k};
      assert |rest| == |m| - 1;
      RecordsMatchKeys(rest);
      forall j | j in rest
        ensures rest[j] != m[k]
      {
        assert rest[j].id == j != k == m[k].id;
      }
      assert m[k] !in rest.Values;
      forall v | v in m.Values
        ensures v in rest.Values || v == m[k]
      {
        var j :| j in m && m[j] == v;
        if j != k { assert rest[j] == v; }
      }
      assert m.Values == rest.Values + {m[k]};
    }
  }

  /** Renting with a named renter keeps every record consistent. */
  lemma RentKeepsConsistent(m: Store, id: string, renter: Option<string>, now: Timestamp)
    requires AllConsistent(m) && id in m && renter.Some?
    ensures AllConsistent(m[id := Rented(m[id], renter, now)])
  {
  }

  /** Returning keeps every record consistent. */
  lemma ReturnKeepsConsistent(m: Store, id: string, now: Timestamp)
    requires AllConsistent(m) && id in m
    ensures AllConsistent(m[id := Returned(m[id], now)])
  {
  }

  /**
   The create handler stores the record under the id in its body when there is
   one, so a create naming an existing id replaces that record and adds no key.
   */
  lemma CreateCanReplace(m: Store, body: Body, freshId: string, now: Timestamp)
    requires body.id.Some? && body.id.value in m
    ensures var g := Merge(body, freshId, now);
      m[g.id := g].Keys == m.Keys && m[g.id := g][body.id.value] == g
  {
  }

  class GadgetRegistry {
    var storage: Store

    ghost predicate Valid()
      reads this
    {
      KeyedById(storage)
    }

    constructor ()
      ensures Valid() && storage == map[]
    {
      storage := map[];
    }

    /**
     POST /gadgets. `freshId` is the newly generated id and `now` the clock's
     reading. The record is stored under its own id, which is the body's id when
     the body carries one.
     */
    method Create(body: Body, freshId: string, now: Timestamp) returns (g: Gadget)
      requires Valid() && freshId !in storage
      modifies this
      ensures Valid()
      ensures g == Merge(body, freshId, now)
      ensures storage == old(storage)[g.id := g]
      ensures body.id.None? ==> g.id !in old(storage) && |storage| == |old(storage)| + 1
      ensures SetsNoServerField(body) && AllConsistent(old(storage)) ==> AllConsistent(storage)
    {
      g := Merge(body, freshId, now);
      storage := storage[g.id := g];
    }

    /** GET /gadgets: every stored record, one per key. */
    method List() returns (gadgets: set<Gadget>)
      requires Valid()
      ensures forall g :: g in gadgets <==> g.id in storage && storage[g.id] == g
      ensures |gadgets| == |storage|
    {
      gadgets := storage.Values;
      RecordsMatchKeys(storage);
    }

    /** GET /gadgets/:id. */
    method Get(id: string) returns (r: Outcome)
      ensures id in storage ==> r == Ok(storage[id])
      ensures id !in storage ==> r == Err(NotFound(id))
    {
      if id !in storage {
        r := Err(NotFound(id));
      } else {
        r := Ok(storage[id]);
      }
    }

    /** POST /gadgets/:id/rent: existence is checked before availability. */
    method Rent(id: string, renter: Option<string>, now: Timestamp) returns (r: Outcome)
      requires Valid()
      modifies this
      ensures Valid()
      ensures id !in old(storage) ==> r == Err(NotFound(id)) && storage == old(storage)
      ensures id in old(storage) && !old(storage)[id].availability ==>
                r == Err(NotAvailable(id)) && storage == old(storage)
      ensures id in old(storage) && old(storage)[id].availability ==>
                r == Ok(Rented(old(storage)[id], renter, now)) && storage == old(storage)[id := r.gadget]
      ensures AllConsistent(old(storage)) && renter.Some? ==> AllConsistent(storage)
    {
      if id !in storage {
        r := Err(NotFound(id));
      } else if !storage[id].availability {
        r := Err(NotAvailable(id));
      } else {
        var updated := Rented(storage[id], renter, now);
        if AllConsistent(storage) && renter.Some? {
          RentKeepsConsistent(storage, id, renter, now);
        }
        storage := storage[id := updated];
        r := Ok(updated);
      }
    }

    /** POST /gadgets/:id/return: existence is checked before the rental state. */
    method Return(id: string, now: Timestamp) returns (r: Outcome)
      requires Valid()
      modifies this
      ensures Valid()
      ensures id !in old(storage) ==> r == Err(NotFound(id)) && storage == old(storage)
      ensures id in old(storage) && old(storage)[id].availability ==>
                r == Err(NotRented(id)) && storage == old(storage)
      ensures id in old(storage) && !old(storage)[id].availability ==>
                r == Ok(Returned(old(storage)[id], now)) && storage == old(storage)[id := r.gadget]
      ensures AllConsistent(old(storage)) ==> AllConsistent(storage)
    {
      if id !in storage {
        r := Err(NotFound(id));
      } else if storage[id].availability {
        r := Err(NotRented(id));
      } else {
        var updated := Returned(storage[id], now);
        if AllConsistent(storage) {
          ReturnKeepsConsistent(storage, id, now);
        }
        storage := storage[id := updated];
        r := Ok(updated);
      }
    }

    /** DELETE /gadgets/:id: removes the record whatever its rental state. */
    method Delete(id: string) returns (r: Outcome)
      requires Valid()
      modifies this
      ensures Valid()
      ensures id in old(storage) ==> r == Ok(old(storage)[id]) && storage == old(storage) - {id}
      ensures id !in old(storage) ==> r == Err(NotDeleted(id)) && storage == old(storage)
      ensures AllConsistent(old(storage)) ==> AllConsistent(storage)
    {
      if id !in storage {
        r := Err(NotDeleted(id));
      } else {
        r := Ok(storage[id]);
        storage := storage - {id};
      }
    }
  }

  /** A gadget that is deleted cannot be fetched afterwards; nothing else goes. */
  method DeleteThenGet(registry: GadgetRegistry, id: string) returns (r: Outcome)
    requires registry.Valid()
    modifies registry
    ensures registry.Valid()
    ensures r == Err(NotFound(id))
    ensures registry.storage == old(registry.storage) - {id}
  {
    var deleted := registry.Delete(id);
    r := registry.Get(id);
  }

  /**
   Renting an available gadget and returning it leaves its listing as it was,
   available and held by nobody, and every other record untouched.
   */
  method RentThenReturnRestores(registry: GadgetRegistry, id: string, renter: Option<string>,
                                rentedAt: Timestamp, returnedAt: Timestamp) returns (r: Outcome)
    requires registry.Valid()
    requires id in registry.storage && registry.storage[id].availability
    modifies registry
    ensures registry.Valid()
    ensures registry.storage.Keys == old(registry.storage).Keys
    ensures r.Ok? && r.gadget == registry.storage[id]
    ensures SameListing(old(registry.storage)[id], r.gadget)
    ensures r.gadget.availability && r.gadget.rentedBy == None && r.gadget.updatedAt == Some(returnedAt)
    ensures forall k :: k in registry.storage && k != id ==> registry.storage[k] == old(registry.storage)[k]
  {
    var rented := registry.Rent(id, renter, rentedAt);
    r := registry.Return(id, returnedAt);
    Gadgets.RentThenReturn(old(registry.storage)[id], renter, rentedAt, returnedAt);
  }
}
