/**
 The gadget record of the rental registry, the body a caller sends to create one,
 and the two record updates that rent and return perform.
 */
module Gadgets {

  datatype Option<T> = None | Some(value: T)

  /** The handler's clock reading, converted to milliseconds. */
  type Timestamp = int

  /**
   One rentable gadget. The descriptive fields are optional because the create
   handler stores whatever the caller sent, including nothing. `kind` is the
   record's `type` field (a keyword in Dafny).
   */
  datatype Gadget = Gadget(
    id: string,
    name: Option<string>,
    kind: Option<string>,
    description: Option<string>,
    pricePerDay: Option<real>,
    availability: bool,
    owner: Option<string>,
    rentedBy: Option<string>,
    createdAt: Timestamp,
    updatedAt: Option<Timestamp>)

  /** `g` and `h` describe the same listing: they differ at most in their rental state. */
  predicate SameListing(g: Gadget, h: Gadget) {
    && g.id == h.id
    && g.name == h.name
    && g.kind == h.kind
    && g.description == h.description
    && g.pricePerDay == h.pricePerDay
    && g.owner == h.owner
    && g.createdAt == h.createdAt
  }

  /** The rental state of a gadget that has never been rented or returned. */
  predicate NeverRented(g: Gadget) {
    g.availability && g.rentedBy == None && g.updatedAt == None
  }

  /** A gadget is available exactly when nobody holds it. */
  predicate Consistent(g: Gadget) {
    g.availability <==> g.rentedBy.None?
  }

  /**
   The JSON body of a create request: every field of a gadget, each one present
   or absent. For `rentedBy` and `updatedAt`, `Some(None)` is an explicit null.
   */
  datatype Body = Body(
    id: Option<string>,
    name: Option<string>,
    kind: Option<string>,
    description: Option<string>,
    pricePerDay: Option<real>,
    availability: Option<bool>,
    owner: Option<string>,
    rentedBy: Option<Option<string>>,
    createdAt: Option<Timestamp>,
    updatedAt: Option<Option<Timestamp>>)

  /** The body leaves every field the server assigns to the server. */
  predicate SetsNoServerField(b: Body) {
    && b.id.None?
    && b.availability.None?
    && b.rentedBy.None?
    && b.createdAt.None?
    && b.updatedAt.None?
  }

  function Override<T>(field: Option<T>, default: T): T {
    match field
    case Some(v) => v
    case None => default
  }

  /**
   The record the create handler builds: the server's defaults (a fresh id, the
   current time, no update, no renter, available) spread over by the body, so
   that every field the body carries wins.
   */
  function Merge(body: Body, freshId: string, now: Timestamp): (g: Gadget)
    ensures body.id.Some? ==> g.id == body.id.value
    ensures body.availability.Some? ==> g.availability == body.availability.value
    ensures body.rentedBy.Some? ==> g.rentedBy == body.rentedBy.value
    ensures body.createdAt.Some? ==> g.createdAt == body.createdAt.value
    ensures body.updatedAt.Some? ==> g.updatedAt == body.updatedAt.value
    // every server field the body omits keeps its own default
    ensures body.id.None? ==> g.id == freshId
    ensures body.availability.None? ==> g.availability
    ensures body.rentedBy.None? ==> g.rentedBy == None
    ensures body.createdAt.None? ==> g.createdAt == now
    ensures body.updatedAt.None? ==> g.updatedAt == None
    ensures g.name == body.name && g.kind == body.kind && g.description == body.description
    ensures g.pricePerDay == body.pricePerDay && g.owner == body.owner
    ensures SetsNoServerField(body) ==>
              g.id == freshId && g.createdAt == now && NeverRented(g) && Consistent(g)
  {
    Gadget(
      id := Override(body.id, freshId),
      name := body.name,
      kind := body.kind,
      description := body.description,
      pricePerDay := body.pricePerDay,
      availability := Override(body.availability, true),
      owner := body.owner,
      rentedBy := Override(body.rentedBy, None),
      createdAt := Override(body.createdAt, now),
      updatedAt := Override(body.updatedAt, None))
  }

  /** The record a successful rent stores: only the rental state changes. */
  function Rented(g: Gadget, renter: Option<string>, now: Timestamp): (h: Gadget)
    ensures SameListing(g, h)
    ensures !h.availability && h.rentedBy == renter && h.updatedAt == Some(now)
    ensures Consistent(h) <==> renter.Some?
  {
    g.(availability := false, rentedBy := renter, updatedAt := Some(now))
  }

  /** The record a successful return stores: only the rental state changes. */
  function Returned(g: Gadget, now: Timestamp): (h: Gadget)
    ensures SameListing(g, h)
    ensures h.availability && h.rentedBy == None && h.updatedAt == Some(now)
    ensures Consistent(h)
  {
    g.(availability := true, rentedBy := None, updatedAt := Some(now))
  }

  /**
   Renting and then returning a gadget gives back the same listing, available and
   held by nobody; a gadget that was consistent and available before comes back
   exactly as it was, except for its update time.
   */
  lemma RentThenReturn(g: Gadget, renter: Option<string>, rentedAt: Timestamp, returnedAt: Timestamp)
    ensures var h := Returned(Rented(g, renter, rentedAt), returnedAt);
      && SameListing(g, h)
      && h.availability && h.rentedBy == None && h.updatedAt == Some(returnedAt)
      && (Consistent(g) && g.availability ==> h == g.(updatedAt := Some(returnedAt)))
  {
  }

  /**
   Consistency is not an invariant of the create handler: a body that sets
   `availability` to false and names no renter is stored as it is.
   */
  lemma CreateCanStoreInconsistent(freshId: string, now: Timestamp)
    ensures var body := Body(None, None, None, None, None, Some(false), None, None, None, None);
      !Consistent(Merge(body, freshId, now))
  {
  }
}
