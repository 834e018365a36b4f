/** Request sequences against a freshly seeded store, each with its expected
    outcome, proved from the operations' contracts. */
module BikeScenarios {
  import opened BikeRecords
  import opened BikesStore

  /** Creating a Honda on the seeded store returns it with the fresh id, and
      the listing then holds the three seeds followed by it. */
  method CreateOnSeed(id1: string, id2: string, id3: string, newId: string)
    returns (created: Bike, all: seq<Bike>)
    requires id1 != id2 && id1 != id3 && id2 != id3
    requires newId != id1 && newId != id2 && newId != id3
    ensures created == Bike(newId, "Honda", "CB500", 8000)
    ensures all == [
      Bike(id1, "Suzuki", "Gsxs750", 14000),
      Bike(id2, "Yamaha", "MT-07", 12000),
      Bike(id3, "Kawasaki", "Z900", 15000),
      created
    ]
  {
    var store := new BikesService(id1, id2, id3);
    assert !HasId(store.bikes, newId) by {
      forall i | 0 <= i < |store.bikes| ensures store.bikes[i].id != newId { }
    }
    created := store.Create(newId, BikeDto("Honda", "CB500", 8000));
    all := store.FindAll();
  }

  /** A record just created is what a lookup of its id returns. */
  method CreateThenFind(id1: string, id2: string, id3: string, newId: string)
    returns (created: Bike, found: Result<Bike>)
    requires id1 != id2 && id1 != id3 && id2 != id3
    requires newId != id1 && newId != id2 && newId != id3
    ensures found == Ok(created)
  {
    var store := new BikesService(id1, id2, id3);
    assert !HasId(store.bikes, newId) by {
      forall i | 0 <= i < |store.bikes| ensures store.bikes[i].id != newId { }
    }
    created := store.Create(newId, BikeDto("Honda", "CB500", 8000));
    found := store.FindOne(newId);
    assert store.bikes[|store.bikes| - 1] == created;
  }

  /** Updating the Suzuki keeps its id and position, takes the new model and
      price, and leaves the other two seeds alone. */
  method UpdateSeedSuzuki(id1: string, id2: string, id3: string)
    returns (r: Result<Bike>, all: seq<Bike>)
    requires id1 != id2 && id1 != id3 && id2 != id3
    ensures r == Ok(Bike(id1, "Suzuki", "GSX-S750", 13500))
    ensures all == [
      Bike(id1, "Suzuki", "GSX-S750", 13500),
      Bike(id2, "Yamaha", "MT-07", 12000),
      Bike(id3, "Kawasaki", "Z900", 15000)
    ]
  {
    var store := new BikesService(id1, id2, id3);
    assert store.bikes[0].id == id1;
    r := store.Update(id1, Some(BikeDto("Suzuki", "GSX-S750", 13500)));
    all := store.FindAll();
  }

  /** Removing an id no record carries fails with NotFound and changes nothing. */
  method RemoveUnknown(id1: string, id2: string, id3: string, unknown: string)
    returns (r: Result<Bike>, all: seq<Bike>)
    requires id1 != id2 && id1 != id3 && id2 != id3
    requires unknown != id1 && unknown != id2 && unknown != id3
    ensures r == Err(NotFound(unknown))
    ensures all == [
      Bike(id1, "Suzuki", "Gsxs750", 14000),
      Bike(id2, "Yamaha", "MT-07", 12000),
      Bike(id3, "Kawasaki", "Z900", 15000)
    ]
  {
    var store := new BikesService(id1, id2, id3);
    assert !HasId(store.bikes, unknown) by {
      forall i | 0 <= i < |store.bikes| ensures store.bikes[i].id != unknown { }
    }
    r := store.Remove(unknown);
    all := store.FindAll();
  }

  /** Removing the Yamaha returns it, a later lookup of its id fails, and the
      listing shrinks by exactly that record. */
  method RemoveThenFind(id1: string, id2: string, id3: string)
    returns (removed: Result<Bike>, again: Result<Bike>, all: seq<Bike>)
    requires id1 != id2 && id1 != id3 && id2 != id3
    ensures removed == Ok(Bike(id2, "Yamaha", "MT-07", 12000))
    ensures again == Err(NotFound(id2))
    ensures all == [
      Bike(id1, "Suzuki", "Gsxs750", 14000),
      Bike(id3, "Kawasaki", "Z900", 15000)
    ]
  {
    var store := new BikesService(id1, id2, id3);
    assert store.bikes[1].id == id2;
    removed := store.Remove(id2);
    again := store.FindOne(id2);
    all := store.FindAll();
  }
}
