# Bike store: a Dafny model of the in-memory `BikesService`

The NestJS bike store keeps its bikes in memory, in a single list field of
`BikesService`. Each record is `{id, brand, model, price}`. The list starts
with three seed bikes. The service offers five operations: `create` appends a
record with a new id, `findAll` returns the list, `findOne` looks a record
up by id and throws when it is missing, `update` overwrites brand, model and
price of the matching record, and `remove` filters the matching record out.

The model has three modules:

- `BikeRecords` (`bike_records.dfy`) holds the record, the request body
  and the two errors the service throws. It also holds the pure list steps
  that `find`, `map` and `filter` perform (`FirstIndex`, `ReplaceMatching`,
  `RemoveMatching`), with lemmas about them: lookups, the update touching
  exactly one record under unique ids, removal keeping order, and both
  preserving the store invariant.
- `BikesStore` (`bikes_store.dfy`) holds the class `BikesService`. Its
  field `bikes: seq<Bike>` is reassigned by methods that return a `Result`
  in place of throwing. `Valid()` is the store invariant: ids are pairwise
  distinct and prices are non-negative. The constructor establishes it and
  every mutating method preserves it.
- `BikeScenarios` (`bike_scenarios.dfy`) states request sequences against a
  freshly seeded store and proves their outcomes from the operation
  contracts: create then list, create then find, update the Suzuki, remove
  an unknown id, and remove then find.

Inputs from outside the service are modelled as follows:

- The ids from `uuid()` are parameters. The three seed ids are required to
  be distinct. The id given to `Create` is required to be absent from the
  store, which stands for the uniqueness that random version-4 UUIDs give.
- The price is a JavaScript `number`. It is modelled as an `int`.
- The request-body rules of `CreateBikeDto` and `UpdateBikeDto` (price at
  least 0) become preconditions of `Create` and `Update`. Both bodies have the
  same three fields, so one `BikeDto` datatype serves both.
- `update`'s check for a missing body becomes an `Option<BikeDto>`
  argument whose `None` yields `Err(InvalidFormat)`.

Two points where the model keeps exactly what the code does:

- Brand and model may be empty strings, because the body validators only
  require strings.
- `update` and `remove` act on every record with the id: the code maps over
  the whole list and filters out every match. `ReplaceMatching` and
  `RemoveMatching` do the same. That exactly one record is touched is proved
  as a consequence of unique ids (`ReplaceMatchingUnique`,
  `RemoveMatchingUnique`).

The returned record of `update` is `{...bike, ...dto}`, where `bike` is an
accumulator: first the record `findOne` returned, then the previous result.
`Apply(b, d)` spreads the body over the matched record `b` instead. That is
the same record, because every match carries the same id and the body
supplies all three mutable fields (`ApplyOverAccumulator`). It is what
`Update` returns.

## Model

| member | source | states |
|---|---|---|
| `BikesStore.BikesService.constructor` | bike-store-app/src/bikes/bikes.service.ts:9-28 | the store starts with exactly Suzuki/Gsxs750/14000, Yamaha/MT-07/12000, Kawasaki/Z900/15000 in that order under three distinct ids, so the invariant holds |
| `BikesStore.BikesService.Create` | bike-store-app/src/bikes/bikes.service.ts:30-37 | the returned record carries the fresh id and the body's brand, model and price; the store becomes the old one with exactly that record appended at the end; a lookup of the new id finds it at the last position; the invariant is preserved |
| `BikesStore.BikesService.FindAll` | bike-store-app/src/bikes/bikes.service.ts:39-41 | returns the current records in insertion order; the store is not changed |
| `BikesStore.BikesService.FindOne` | bike-store-app/src/bikes/bikes.service.ts:43-49 | succeeds exactly when some record carries the id, and then returns the first such record; otherwise fails with `NotFound(id)`; under the invariant it returns the one record carrying the id; the store is not changed |
| `BikesStore.BikesService.Update` | bike-store-app/src/bikes/bikes.service.ts:51-67 | a missing body fails with `InvalidFormat` and an absent id fails with `NotFound(id)`, both leaving the store unchanged; otherwise every record with the id keeps its id and position and takes the body's fields, all others are untouched, and the updated record is returned and is in the store; under the invariant exactly one position changes, and the invariant is preserved |
| `BikesStore.BikesService.Remove` | bike-store-app/src/bikes/bikes.service.ts:69-73 | an absent id fails with `NotFound(id)` and leaves the store unchanged; otherwise returns the first matching record as it was and drops every record with the id; afterwards no record carries the id; under the invariant exactly that one position goes (the length drops by one, the rest keeps its order), and the invariant is preserved |
| `BikeRecords.ValidDto` | bike-store-app/src/bikes/dto/create-bike.dto.ts:8-10 | the `@Min(0)` price rule, shared by the update body (dto/update-bike.dto.ts:8-10); `Create` and `Update` require it of their bodies |
| `BikeRecords.Message` | bike-store-app/src/bikes/bikes.service.ts:46-53 | the two thrown texts: each starts with "Bike ", and the not-found text carries the requested id between a fixed 13-character prefix and 10-character suffix, so the id can be read back |
| `BikeRecords.Apply` | bike-store-app/src/bikes/bikes.service.ts:58-61 | the record the spread `{...bike, ...updateBikeDto}` builds keeps the id and takes exactly the body's brand, model and price; it keeps the matched `b.id` where the source spreads the accumulator `bike`, which is correct because every matched record already carries `id` |
| `BikeRecords.ApplyOverAccumulator` | bike-store-app/src/bikes/bikes.service.ts:56-66 | spreading the body over the accumulator gives the same record as spreading it over the matched record when their ids agree, and spreading the same body twice changes nothing, so the value returned at line 66 is `Apply` of the first match |
| `BikeRecords.FirstIndex` | bike-store-app/src/bikes/bikes.service.ts:44 | `find` yields nothing exactly when no record carries the id; otherwise it yields the position of the first record carrying it |
| `BikeRecords.FirstIndexOfUnique` | bike-store-app/src/bikes/bikes.service.ts:44 | with unique ids, looking up the id of position k finds position k |
| `BikeRecords.FirstIndexAfterAppend` | bike-store-app/src/bikes/bikes.service.ts:30-49 | after appending a record with a fresh id, its id is found at the end, and every other id is found where it was before |
| `BikeRecords.ReplaceMatching` | bike-store-app/src/bikes/bikes.service.ts:56-65 | the mapped list has the same length and the same id at every position; records with the id take the body's brand, model and price; all other records are identical |
| `BikeRecords.ReplaceMatchingUnique` | bike-store-app/src/bikes/bikes.service.ts:56-65 | with unique ids, the mapped list is the old list with the one matching position replaced by the updated record |
| `BikeRecords.ReplaceMatchingKeepsInvariant` | bike-store-app/src/bikes/bikes.service.ts:56-65 | the mapped list keeps ids unique and, with a valid body, prices non-negative |
| `BikeRecords.RemoveMatching` | bike-store-app/src/bikes/bikes.service.ts:71 | the filtered list contains exactly the old records whose id differs, is no longer than the old list, and carries the id nowhere |
| `BikeRecords.RemoveMatchingConcat` | bike-store-app/src/bikes/bikes.service.ts:71 | filtering a concatenation is concatenating the filtered parts, so the relative order of kept records is preserved |
| `BikeRecords.RemoveMatchingAbsent` | bike-store-app/src/bikes/bikes.service.ts:71 | filtering with an id that no record carries changes nothing |
| `BikeRecords.RemoveMatchingUnique` | bike-store-app/src/bikes/bikes.service.ts:71 | with unique ids, filtering the id of position k yields the list without position k, one shorter |
| `BikeRecords.RemoveMatchingKeepsInvariant` | bike-store-app/src/bikes/bikes.service.ts:71 | the filtered list keeps ids unique and prices non-negative |
| `BikeRecords.MessageIdentifiesError` | bike-store-app/src/bikes/bikes.service.ts:46-53 | the two thrown texts, "Bike with id … not found" and "Bike format is not correct", are equal only for the same failure, so a text names its failure and, for a lookup, its id |
| `BikeScenarios.CreateOnSeed` | bike-store-app/src/bikes/bikes.service.ts:9-41 | creating Honda/CB500/8000 on the seeded store returns it under the fresh id, and the listing is the three seeds followed by it |
| `BikeScenarios.CreateThenFind` | bike-store-app/src/bikes/bikes.service.ts:30-49 | a lookup of a just-created id returns exactly the created record |
| `BikeScenarios.UpdateSeedSuzuki` | bike-store-app/src/bikes/bikes.service.ts:51-67 | updating the Suzuki to GSX-S750/13500 returns it under the same id, and the listing shows only that record changed |
| `BikeScenarios.RemoveUnknown` | bike-store-app/src/bikes/bikes.service.ts:69-73 | removing an unknown id fails with `NotFound` and the listing is still the three seeds |
| `BikeScenarios.RemoveThenFind` | bike-store-app/src/bikes/bikes.service.ts:43-73 | removing the Yamaha returns it, a later lookup of its id fails with `NotFound`, and the listing is the other two seeds in order |

## Left out

- HTTP routing in `bikes.controller.ts` is left out. The controller only forwards to the service.
- The `ParseUUIDPipe` id-format check is left out. It is library behaviour that runs before the service.
- `main.ts` is left out. It holds process start-up, the global validation pipe configuration and listening on port 3000.
- `app.module.ts` is left out. It holds dependency-injection wiring only.
- The request-body validators run inside a foreign library. Only their effect is modelled, as preconditions: all three fields present and price at least 0.
- The rejection of extra body fields is left out. It belongs to the validation pipe, so a body here has exactly the three fields and cannot override the id through the spread.
- The `uuid()` implementation is left out. It is random and foreign; ids are parameters instead.
- BikesStore.BikesService.Create: requires the new id to be absent from the store. The code does not check this; the requirement stands for the uniqueness of the id that `uuid()` returns.
- JavaScript floating-point prices are left out. Prices are unbounded integers.
- Aliasing is left out. `findAll` returns the live array and `findOne` a live object; the model returns immutable values.
- The mapping of a thrown `Error` to an HTTP status is left out. It is framework behaviour, and the model only distinguishes `NotFound` from `InvalidFormat`.
- `entities/bike.entity.ts` is not part of this model. The record's four fields are taken from the seed list and the request bodies.
