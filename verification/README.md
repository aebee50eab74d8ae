# RentChain gadget registry, modelled in Dafny

RentChain is a small rental service. It keeps one map from gadget id to gadget
record, and six HTTP handlers act on it:

- create a gadget;
- list all gadgets;
- get one gadget;
- rent a gadget out;
- take a rented gadget back;
- delete a gadget.

Each handler reads or removes at most one key, checks the rental state where it
applies, and writes to the map at most once; create only inserts and list only
reads. Rent and return form a two-state machine,
Available ↔ Rented, driven by the record's `availability` flag.

The model has three files:

- `gadget.dfy` (module `Gadgets`) holds the record and the body of a create
  request. It also holds the three pure record builders: `Merge` for create,
  `Rented` and `Returned`.
- `responses.dfy` (module `Responses`) holds the four failures the handlers
  reply with, and their status codes and texts.
- `registry.dfy` (module `Registry`) holds the class `GadgetRegistry`. The class
  owns the map as a `map<string, Gadget>` field, with one method per handler.
  The same file holds the map-level lemmas and two client methods that chain
  handlers.

The class invariant `Valid()` says that every record is stored under its own id.
The source keeps this, although it never checks it. The source's listing returns
one entry per key whatever the records are. The model's `List` returns a set, in
which two equal records under two keys would collapse into one; the invariant rules
that out, so the set has exactly one record per key.

The rule "available exactly when nobody holds it" (`Consistent`) is not an
invariant of the source. Create copies the caller's body over the defaults, and
rent stores whatever renter the body names, which may be none. The model
therefore proves it only as a preservation property: rent with a named renter,
return and delete keep it, and so does a create whose body sets no server field.
`CreateCanStoreInconsistent` shows a create that breaks it.

Create stores the record under the merged record's id (`index.ts:40`), not under
the generated one. A body that carries an `id` therefore replaces any record
already stored under that id. The model keeps this behaviour, and
`CreateCanReplace` states it.

## Model

| member | source | states |
|---|---|---|
| `Gadgets.Merge` | RentChain/src/index.ts:32-39 | Every field the body carries overrides the server default. Every server field the body omits keeps its own default: the fresh id, `createdAt = now`, available, no renter, no update. Descriptive fields come only from the body. A body with no server field gives a never-rented, consistent record. |
| `Gadgets.Rented` | RentChain/src/index.ts:69-74 | A rent changes only the rental state: not available, held by the renter, updated now. Id, name, type, description, price, owner and creation time are kept. The result is consistent exactly when a renter is named. |
| `Gadgets.Returned` | RentChain/src/index.ts:89-94 | A return changes only the rental state: available, held by nobody, updated now. Every listing field is kept. The result is always consistent. |
| `Gadgets.RentThenReturn` | RentChain/src/index.ts:69-94 | Rent followed by return gives the same listing, available and unheld. A gadget that was consistent and available before comes back unchanged except for `updatedAt`. |
| `Gadgets.CreateCanStoreInconsistent` | RentChain/src/index.ts:32-38 | A body that sets `availability` to false and names no renter is stored as an inconsistent record. |
| `Responses.Status` | RentChain/src/index.ts:54-105 | Only the lookup failure of get, rent and return answers 404. "Not available", "not rented" and the failed delete answer 400. |
| `Responses.Message` | RentChain/src/index.ts:54-105 | Every failure text starts with `Gadget with id=` followed by the id it concerns. |
| `Responses.ReplyIdentifiesFailure` | RentChain/src/index.ts:54-105 | Status and text together determine the failure and its id: no two failures produce the same reply. |
| `Responses.DeleteAndLookupShareText` | RentChain/src/index.ts:54-105 | A failed delete and a failed lookup of the same id share their text and differ only in status. |
| `Registry.RecordsMatchKeys` | RentChain/src/index.ts:45-47 | When every record is stored under its own id, the map holds as many distinct records as keys. |
| `Registry.RentKeepsConsistent` | RentChain/src/index.ts:69-75 | If every record is consistent, renting one to a named renter keeps all of them consistent. |
| `Registry.ReturnKeepsConsistent` | RentChain/src/index.ts:89-95 | If every record is consistent, returning one keeps all of them consistent. |
| `Registry.CreateCanReplace` | RentChain/src/index.ts:38-40 | A create whose body names an existing id adds no key and replaces the record under that id. |
| `Registry.GadgetRegistry.constructor` | RentChain/src/index.ts:25 | The registry starts with an empty map. |
| `Registry.GadgetRegistry.Create` | RentChain/src/index.ts:31-42 | The handler returns the merged record and stores it under its own id. Every other key is unchanged. A body without an `id` adds exactly one new key, whatever else it sets. A body with no server field keeps every record consistent. |
| `Registry.GadgetRegistry.List` | RentChain/src/index.ts:45-47 | The handler returns exactly the stored records, one per key. |
| `Registry.GadgetRegistry.Get` | RentChain/src/index.ts:50-58 | A present id returns the stored record. An absent id returns NotFound naming that id. The map is not changed. |
| `Registry.GadgetRegistry.Rent` | RentChain/src/index.ts:61-78 | Existence is checked before availability. An absent id gives NotFound and a rented gadget gives NotAvailable, both with the map unchanged. Otherwise only that key is rewritten, with the rented record, which is also returned. Consistency of all records is kept when a renter is named. |
| `Registry.GadgetRegistry.Return` | RentChain/src/index.ts:81-98 | Existence is checked before the rental state. An absent id gives NotFound and an available gadget gives NotRented, both with the map unchanged. Otherwise only that key is rewritten, with the returned record, which is also returned. Consistency is kept. |
| `Registry.GadgetRegistry.Delete` | RentChain/src/index.ts:101-109 | A present id is removed whatever its rental state, and the removed record is returned. Every other key is unchanged. An absent id gives NotDeleted (status 400) with the map unchanged. |
| `Registry.DeleteThenGet` | RentChain/src/index.ts:50-109 | After a delete, a get on the same id returns NotFound. The map loses only that key. |
| `Registry.RentThenReturnRestores` | RentChain/src/index.ts:61-98 | Renting an available gadget and then returning it leaves its listing as it was: available, unheld, updated at the return time. Every other record is untouched. |

## Left out

- HTTP routing, JSON parsing and serialisation, and `app.listen()` (`index.ts:27-28, 111`). Each handler is a method that returns an `Outcome`. `Status` and `Message` give the reply's status code and text.
- The storage engine behind the map and the order in which it lists values (`index.ts:25, 46`). List returns a set of records, not an ordered sequence.
- Id generation with `uuidv4()` (`index.ts:33`). The fresh id is a parameter, and create requires that it is not already a key.
- The clock (`getCurrentDate`, `index.ts:113-116`), including its floating-point conversion from nanoseconds to a date. The current time is an integer parameter `now`.
- Concurrent requests. Each handler runs to completion before the next one starts, so each is one method call.
- Body fields with the wrong type, and body fields that are not gadget fields. Each field of the create body is assumed to have its declared type. For example, `availability` is a boolean and `id` is a string. The renter of a rent request is likewise assumed to be a string or absent, although the handler stores whatever JSON value it receives.
- The distinction between `null` and `undefined`. Both are `None`, for the renter of a rent request and for absent descriptive fields.
- `pricePerDay` is a double-precision float in the source and a `real` in the model. The handlers only copy the price, so no rounding is involved.
- The persistent map keeps its contents across upgrades of the service; the constructor starts it empty. `Valid()` holds of any map that these handlers wrote.
