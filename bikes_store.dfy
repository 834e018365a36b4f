/** The in-memory bike store: one mutable list of records, seeded with three
    bikes, and the five operations that read and change it. */
module BikesStore {
  import opened BikeRecords

  class BikesService {
    /** The stored records, in insertion order. */
    var bikes: seq<Bike>

    /** The store-wide invariant: ids are pairwise distinct and every price
        satisfies the request-body rule. */
    ghost predicate Valid()
      reads this
    {
      UniqueIds(bikes) && NonNegativePrices(bikes)
    }

    /** The seed list. The three ids stand for the three `uuid()` calls and
        are therefore distinct. */
    constructor (id1: string, id2: string, id3: string)
      requires id1 != id2 && id1 != id3 && id2 != id3
      ensures bikes == [
        Bike(id1, "Suzuki", "Gsxs750", 14000),
        Bike(id2, "Yamaha", "MT-07", 12000),
        Bike(id3, "Kawasaki", "Z900", 15000)
      ]
      ensures Valid()
    {
      bikes := [
        Bike(id1, "Suzuki", "Gsxs750", 14000),
        Bike(id2, "Yamaha", "MT-07", 12000),
        Bike(id3, "Kawasaki", "Z900", 15000)
      ];
    }

    /** Appends a record made of the fresh id and the body's fields and
        returns it. `newId` stands for the `uuid()` call: no record carries it. */
    method Create(newId: string, dto: BikeDto) returns (b: Bike)
      requires !HasId(bikes, newId)
      requires ValidDto(dto)
      modifies this
      ensures b.id == newId && b.brand == dto.brand && b.model == dto.model && b.price == dto.price
      ensures bikes == old(bikes) + [b]
      ensures old(Valid()) ==> Valid()
      ensures FirstIndex(bikes, newId) == Some(|old(bikes)|)
    {
      b := Bike(newId, dto.brand, dto.model, dto.price);
      FirstIndexAfterAppend(bikes, b, newId);
      bikes := bikes + [b];
    }

    /** Returns every record, in insertion order. */
    method FindAll() returns (all: seq<Bike>)
      ensures all == bikes
    {
      all := bikes;
    }

    /** Returns the first record carrying the id, or fails with NotFound
        when none does. The store is read only. */
    method FindOne(id: string) returns (r: Result<Bike>)
      ensures r.Ok? <==> HasId(bikes, id)
      ensures r.Err? ==> r.error == NotFound(id)
      ensures r.Ok? ==> exists k :: IsFirstWithId(bikes, id, k) && bikes[k] == r.value
      ensures Valid() ==> forall k :: 0 <= k < |bikes| && bikes[k].id == id ==> r == Ok(bikes[k])
    {
      if Valid() {
        forall k | 0 <= k < |bikes| && bikes[k].id == id ensures FirstIndex(bikes, id) == Some(k) {
          FirstIndexOfUnique(bikes, k);
        }
      }
      var found := FirstIndex(bikes, id);
      if found.None? {
        return Err(NotFound(id));
      }
      r := Ok(bikes[found.value]);
    }

    /** Fails with InvalidFormat when the body is missing and with NotFound
        when no record carries the id, both times leaving the store as it
        was; otherwise overwrites brand, model and price of the record with
        the id, keeping its id and position, and returns the updated record. */
    method Update(id: string, dto: Option<BikeDto>) returns (r: Result<Bike>)
      requires dto.Some? ==> ValidDto(dto.value)
      modifies this
      ensures dto.None? ==> r == Err(InvalidFormat) && bikes == old(bikes)
      ensures dto.Some? && !old(HasId(bikes, id)) ==>
        r == Err(NotFound(id)) && bikes == old(bikes)
      ensures dto.Some? && old(HasId(bikes, id)) ==>
        && r == Ok(Bike(id, dto.value.brand, dto.value.model, dto.value.price))
        && bikes == ReplaceMatching(old(bikes), id, dto.value)
      ensures r.Ok? ==> r.value in bikes
      ensures old(Valid()) ==> Valid()
      ensures old(Valid()) && r.Ok? ==>
        exists k :: 0 <= k < |old(bikes)| && old(bikes)[k].id == id && bikes == old(bikes)[k := r.value]
    {
      if dto.None? {
        return Err(InvalidFormat);
      }
      var found := FindOne(id);
      if found.Err? {
        return found;
      }
      var k :| IsFirstWithId(bikes, id, k) && bikes[k] == found.value;
      if Valid() {
        ReplaceMatchingKeepsInvariant(bikes, id, dto.value);
        ReplaceMatchingUnique(bikes, k, dto.value);
      }
      bikes := ReplaceMatching(bikes, id, dto.value);
      r := Ok(Apply(found.value, dto.value));
      assert bikes[k] == r.value;
    }

    /** Fails with NotFound, leaving the store as it was, when no record
        carries the id; otherwise drops every record with the id, keeping the
        others in their order, and returns the first of them as it was. */
    method Remove(id: string) returns (r: Result<Bike>)
      modifies this
      ensures !old(HasId(bikes, id)) ==> r == Err(NotFound(id)) && bikes == old(bikes)
      ensures old(HasId(bikes, id)) ==>
        && r.Ok?
        && (exists k :: IsFirstWithId(old(bikes), id, k) && old(bikes)[k] == r.value)
        && bikes == RemoveMatching(old(bikes), id)
      ensures !HasId(bikes, id)
      ensures old(Valid()) ==> Valid()
      ensures old(Valid()) && r.Ok? ==>
        exists k :: 0 <= k < |old(bikes)| && old(bikes)[k] == r.value &&
          bikes == old(bikes)[..k] + old(bikes)[k + 1..]
      ensures old(Valid()) && r.Ok? ==> |bikes| == |old(bikes)| - 1
    {
      var found := FindOne(id);
      if found.Err? {
        return found;
      }
      var k :| IsFirstWithId(bikes, id, k) && bikes[k] == found.value;
      if Valid() {
        RemoveMatchingKeepsInvariant(bikes, id);
        RemoveMatchingUnique(bikes, k);
      }
      bikes := RemoveMatching(bikes, id);
      r := found;
    }
  }
}
