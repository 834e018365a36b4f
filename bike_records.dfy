/** The records of the bike store, the request bodies that create and update
    them, the errors the store raises, and the pure list operations the store
    performs with `find`, `map` and `filter`. */
module BikeRecords {

  datatype Option<T> = None | Some(value: T)

  /** A stored bike. The price is an integer in place of a JavaScript number. */
  datatype Bike = Bike(id: string, brand: string, model: string, price: int)

  /** A validated create or update request body: exactly the three mutable
      fields. Create and update bodies have the same shape and the same rules. */
  datatype BikeDto = BikeDto(brand: string, model: string, price: int)

  /** The one value rule of a request body: the price is at least zero. */
  predicate ValidDto(d: BikeDto) {
    d.price >= 0
  }

  /** The two failures the store raises as exceptions. */
  datatype Error = NotFound(id: string) | InvalidFormat

  /** Result of a store operation that can fail. */
  datatype Result<T> = Ok(value: T) | Err(error: Error)

  /** The text each failure carries: it starts with "Bike ", and a lookup
      failure's id can be read back from between its fixed prefix and suffix. */
  function Message(e: Error): (r: string)
    ensures |r| >= 5 && r[..5] == "Bike "
    ensures e.NotFound? ==> |r| == 23 + |e.id| && r[13..|r| - 10] == e.id
  {
    match e
    case NotFound(id) => "Bike with id " + id + " not found"
    case InvalidFormat => "Bike format is not correct"
  }

  /** Different failures carry different texts, so the text identifies the failure. */
  lemma MessageIdentifiesError(e1: Error, e2: Error)
    ensures Message(e1) == Message(e2) <==> e1 == e2
  {
  }

  // ----- predicates on the stored list -----

  /** Some record carries the id. */
  predicate HasId(bikes: seq<Bike>, id: string) {
    exists i :: 0 <= i < |bikes| && bikes[i].id == id
  }

  /** No two records carry the same id. */
  predicate UniqueIds(bikes: seq<Bike>) {
    forall i, j :: 0 <= i < j < |bikes| ==> bikes[i].id != bikes[j].id
  }

  /** Every record satisfies the request-body price rule. */
  predicate NonNegativePrices(bikes: seq<Bike>) {
    forall i :: 0 <= i < |bikes| ==> bikes[i].price >= 0
  }

  /** Position k holds the first record carrying the id. */
  predicate IsFirstWithId(bikes: seq<Bike>, id: string, k: int) {
    && 0 <= k < |bikes|
    && bikes[k].id == id
    && forall j :: 0 <= j < k ==> bikes[j].id != id
  }

  // ----- find -----

  /** The position `find` stops at: the first record whose id equals `id`,
      or None when there is no such record. */
  function FirstIndex(bikes: seq<Bike>, id: string): (r: Option<nat>)
    ensures r.None? <==> !HasId(bikes, id)
    ensures r.Some? ==> IsFirstWithId(bikes, id, r.value)
  {
    if bikes == [] then None
    else if bikes[0].id == id then Some(0)
    else
      match FirstIndex(bikes[1..], id)
      case None =>
        assert forall i :: 1 <= i < |bikes| ==> bikes[i] == bikes[1..][i - 1];
        None
      case Some(k) => Some(k + 1)
  }

  /** With unique ids, the lookup of a record's id finds exactly that record. */
  lemma FirstIndexOfUnique(bikes: seq<Bike>, k: nat)
    requires UniqueIds(bikes)
    requires k < |bikes|
    ensures FirstIndex(bikes, bikes[k].id) == Some(k)
  {
  }

  /** After appending a record with a fresh id, looking that id up finds the new
      record at the end, and every id already present is found where it was. */
  lemma FirstIndexAfterAppend(bikes: seq<Bike>, b: Bike, id: string)
    requires !HasId(bikes, b.id)
    ensures id == b.id ==> FirstIndex(bikes + [b], id) == Some(|bikes|)
    ensures id != b.id ==> FirstIndex(bikes + [b], id) == FirstIndex(bikes, id)
  {
    var s := bikes + [b];
    assert s[|bikes|] == b;
    assert forall i :: 0 <= i < |bikes| ==> s[i] == bikes[i];
    if id != b.id {
      if HasId(s, id) {
        var i :| 0 <= i < |s| && s[i].id == id;
        assert bikes[i].id == id;
      }
      if HasId(bikes, id) {
        var i :| 0 <= i < |bikes| && bikes[i].id == id;
        assert s[i].id == id;
      }
    } else {
      assert HasId(s, id);
    }
  }

  // ----- update: the `map` step -----

  /** The record after one update: `{...bike, ...dto}` keeps the id and takes
      brand, model and price from the request body. */
  function Apply(b: Bike, d: BikeDto): (r: Bike)
    ensures r.id == b.id && Fields(r) == d
  {
    Bike(b.id, d.brand, d.model, d.price)
  }

  /** The three mutable fields of a record, in request-body form. */
  function Fields(b: Bike): BikeDto {
    BikeDto(b.brand, b.model, b.price)
  }

  /** `update` spreads the body over the accumulator `bike` (the first match,
      then the previous result) rather than over the matched record `b`. The
      outcome is the same: every match carries the same id, and a second
      spread of the same body changes nothing. */
  lemma ApplyOverAccumulator(acc: Bike, b: Bike, d: BikeDto)
    requires acc.id == b.id
    ensures Apply(acc, d) == Apply(b, d)
    ensures Apply(Apply(acc, d), d) == Apply(acc, d)
  {
  }

  /** The list after update's `map`: every record carrying the id is
      overwritten with the body's fields, every other record is kept. */
  function ReplaceMatching(bikes: seq<Bike>, id: string, d: BikeDto): (r: seq<Bike>)
    ensures |r| == |bikes|
    ensures forall i :: 0 <= i < |bikes| ==> r[i].id == bikes[i].id
    ensures forall i :: 0 <= i < |bikes| && bikes[i].id == id ==>
      r[i].brand == d.brand && r[i].model == d.model && r[i].price == d.price
    ensures forall i :: 0 <= i < |bikes| && bikes[i].id != id ==> r[i] == bikes[i]
  {
    if bikes == [] then []
    else
      var head := if bikes[0].id == id then Apply(bikes[0], d) else bikes[0];
      [head] + ReplaceMatching(bikes[1..], id, d)
  }

  /** With unique ids, the update touches exactly one position. */
  lemma ReplaceMatchingUnique(bikes: seq<Bike>, k: nat, d: BikeDto)
    requires UniqueIds(bikes)
    requires k < |bikes|
    ensures ReplaceMatching(bikes, bikes[k].id, d) == bikes[k := Apply(bikes[k], d)]
  {
  }

  /** The update keeps ids unique and, with a valid body, prices non-negative. */
  lemma ReplaceMatchingKeepsInvariant(bikes: seq<Bike>, id: string, d: BikeDto)
    requires UniqueIds(bikes) && NonNegativePrices(bikes)
    requires ValidDto(d)
    ensures UniqueIds(ReplaceMatching(bikes, id, d))
    ensures NonNegativePrices(ReplaceMatching(bikes, id, d))
  {
  }

  // ----- remove: the `filter` step -----

  /** The list after remove's `filter`: every record carrying the id is
      dropped, the others are kept in their order. */
  function RemoveMatching(bikes: seq<Bike>, id: string): (r: seq<Bike>)
    ensures |r| <= |bikes|
    ensures forall b :: b in r <==> b in bikes && b.id != id
    ensures !HasId(r, id)
  {
    if bikes == [] then []
    else if bikes[0].id == id then RemoveMatching(bikes[1..], id)
    else [bikes[0]] + RemoveMatching(bikes[1..], id)
  }

  /** The filter works piecewise, so it keeps the relative order of what it keeps. */
  lemma {:induction false} RemoveMatchingConcat(a: seq<Bike>, b: seq<Bike>, id: string)
    ensures RemoveMatching(a + b, id) == RemoveMatching(a, id) + RemoveMatching(b, id)
  {
    if a == [] {
      assert a + b == b;
    } else {
      assert (a + b)[0] == a[0];
      assert (a + b)[1..] == a[1..] + b;
      RemoveMatchingConcat(a[1..], b, id);
    }
  }

  /** Removing an id that no record carries leaves the list as it was. */
  lemma {:induction false} RemoveMatchingAbsent(bikes: seq<Bike>, id: string)
    requires !HasId(bikes, id)
    ensures RemoveMatching(bikes, id) == bikes
  {
    if bikes != [] {
      assert bikes[0].id != id;
      assert !HasId(bikes[1..], id) by {
        forall i | 0 <= i < |bikes[1..]| ensures bikes[1..][i].id != id {
          assert bikes[1..][i] == bikes[i + 1];
        }
      }
      RemoveMatchingAbsent(bikes[1..], id);
      assert [bikes[0]] + bikes[1..] == bikes;
    }
  }

  /** With unique ids, removing the id of position k drops exactly that
      position: the list shrinks by one and the rest keeps its order. */
  lemma RemoveMatchingUnique(bikes: seq<Bike>, k: nat)
    requires UniqueIds(bikes)
    requires k < |bikes|
    ensures RemoveMatching(bikes, bikes[k].id) == bikes[..k] + bikes[k + 1..]
    ensures |RemoveMatching(bikes, bikes[k].id)| == |bikes| - 1
  {
    var id := bikes[k].id;
    var front, back := bikes[..k], bikes[k + 1..];
    assert bikes == front + ([bikes[k]] + back);
    RemoveMatchingConcat(front, [bikes[k]] + back, id);
    RemoveMatchingConcat([bikes[k]], back, id);
    assert !HasId(front, id) by {
      forall i | 0 <= i < |front| ensures front[i].id != id {
        assert front[i] == bikes[i];
      }
    }
    assert !HasId(back, id) by {
      forall i | 0 <= i < |back| ensures back[i].id != id {
        assert back[i] == bikes[k + 1 + i];
      }
    }
    RemoveMatchingAbsent(front, id);
    RemoveMatchingAbsent(back, id);
    assert RemoveMatching([bikes[k]], id) == [];
  }

  /** Removing keeps ids unique and prices non-negative. */
  lemma {:induction false} RemoveMatchingKeepsInvariant(bikes: seq<Bike>, id: string)
    requires UniqueIds(bikes) && NonNegativePrices(bikes)
    ensures UniqueIds(RemoveMatching(bikes, id))
    ensures NonNegativePrices(RemoveMatching(bikes, id))
  {
    if bikes != [] {
      var tail := bikes[1..];
      assert UniqueIds(tail) && NonNegativePrices(tail) by {
        forall i | 0 <= i < |tail| ensures tail[i] == bikes[i + 1] { }
      }
      RemoveMatchingKeepsInvariant(tail, id);
      var rest := RemoveMatching(tail, id);
      if bikes[0].id != id {
        assert bikes[0].id !in set b | b in tail :: b.id by {
          forall i | 0 <= i < |tail| ensures tail[i].id != bikes[0].id {
            assert tail[i] == bikes[i + 1];
          }
        }
        var r := [bikes[0]] + rest;
        forall i, j | 0 <= i < j < |r| ensures r[i].id != r[j].id {
          if i == 0 {
            assert r[j] in rest;
            assert r[j] in tail;
          } else {
            assert r[i] == rest[i - 1] && r[j] == rest[j - 1];
          }
        }
        forall i | 0 <= i < |r| ensures r[i].price >= 0 {
          if i > 0 {
            assert r[i] == rest[i - 1];
          }
        }
      }
    }
  }
}
