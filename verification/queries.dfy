/** The meaning of the four queries, as functions over the catalogue, and
    what they promise, as lemmas. */
module Queries {

  import opened Wrappers
  import opened Flights

  // ---------------------------------------------------------------------
  // search_flights
  // ---------------------------------------------------------------------

  /** A text filter is in force only when it is given and non-empty: the
      engine tests the parameter's truthiness, so "" means "no filter". */
  predicate TextFilterOn(filter: Option<string>)
  {
    filter.Some? && filter.value != ""
  }

  /** A price ceiling is in force only when it is given and non-zero: a
      ceiling of 0 is falsy and means "no ceiling". */
  predicate PriceFilterOn(maxPrice: Option<int>)
  {
    maxPrice.Some? && maxPrice.value != 0
  }

  /** A record passes every filter in force; the ceiling is inclusive. */
  predicate Matches(f: Flight, origin: Option<string>, destination: Option<string>, maxPrice: Option<int>)
  {
    && (TextFilterOn(origin) ==> f.origin == origin.value)
    && (TextFilterOn(destination) ==> f.destination == destination.value)
    && (PriceFilterOn(maxPrice) ==> f.price <= maxPrice.value)
  }

  /** The records that pass, in catalogue order (defined on prefixes, the
      way the scan appends them). */
  function Search(flights: seq<Flight>, origin: Option<string>, destination: Option<string>, maxPrice: Option<int>): (r: seq<Flight>)
    ensures |r| <= |flights|
  {
    if flights == [] then []
    else
      var last := flights[|flights| - 1];
      var rest := Search(flights[..|flights| - 1], origin, destination, maxPrice);
      if Matches(last, origin, destination, maxPrice) then rest + [last] else rest
  }

  /** The positions of the records that pass, in increasing order. */
  function MatchingPositions(flights: seq<Flight>, origin: Option<string>, destination: Option<string>, maxPrice: Option<int>): seq<nat>
  {
    if flights == [] then []
    else
      var rest := MatchingPositions(flights[..|flights| - 1], origin, destination, maxPrice);
      if Matches(flights[|flights| - 1], origin, destination, maxPrice) then rest + [|flights| - 1] else rest
  }

  /** The result is the catalogue restricted to exactly the matching
      positions, taken in increasing order: nothing reordered, duplicated,
      invented or dropped. */
  lemma {:induction false} SearchSelectsMatchingPositions(flights: seq<Flight>, origin: Option<string>, destination: Option<string>, maxPrice: Option<int>)
    ensures var r, p := Search(flights, origin, destination, maxPrice), MatchingPositions(flights, origin, destination, maxPrice);
      && |p| == |r|
      && (forall k :: 0 <= k < |p| ==> p[k] < |flights| && r[k] == flights[p[k]])
      && (forall k, l :: 0 <= k < l < |p| ==> p[k] < p[l])
      && (forall i :: 0 <= i < |flights| ==> (i in p <==> Matches(flights[i], origin, destination, maxPrice)))
  {
    if flights != [] {
      var n := |flights| - 1;
      var init := flights[..n];
      SearchSelectsMatchingPositions(init, origin, destination, maxPrice);
      var r', p' := Search(init, origin, destination, maxPrice), MatchingPositions(init, origin, destination, maxPrice);
      assert forall k :: 0 <= k < |p'| ==> p'[k] < n && r'[k] == flights[p'[k]];
      assert n !in p';
    }
  }

  /** Soundness and completeness: a record is in the result exactly when it
      is in the catalogue and passes every filter in force. */
  lemma {:induction false} SearchMembership(flights: seq<Flight>, origin: Option<string>, destination: Option<string>, maxPrice: Option<int>, f: Flight)
    ensures f in Search(flights, origin, destination, maxPrice) <==> f in flights && Matches(f, origin, destination, maxPrice)
  {
    if flights != [] {
      var n := |flights| - 1;
      SearchMembership(flights[..n], origin, destination, maxPrice, f);
      assert flights == flights[..n] + [flights[n]];
    }
  }

  /** Soundness spelled out field by field: a returned record has the
      requested origin and destination when those are non-empty, and costs
      at most the ceiling when that is non-zero. */
  lemma SearchSound(flights: seq<Flight>, origin: Option<string>, destination: Option<string>, maxPrice: Option<int>, f: Flight)
    requires f in Search(flights, origin, destination, maxPrice)
    ensures f in flights
    ensures origin.Some? && origin.value != "" ==> f.origin == origin.value
    ensures destination.Some? && destination.value != "" ==> f.destination == destination.value
    ensures maxPrice.Some? && maxPrice.value != 0 ==> f.price <= maxPrice.value
  {
    SearchMembership(flights, origin, destination, maxPrice, f);
  }

  /** With no filter in force the whole catalogue comes back unchanged. */
  lemma {:induction false} SearchNoFilters(flights: seq<Flight>, origin: Option<string>, destination: Option<string>, maxPrice: Option<int>)
    requires !TextFilterOn(origin) && !TextFilterOn(destination) && !PriceFilterOn(maxPrice)
    ensures Search(flights, origin, destination, maxPrice) == flights
  {
    if flights != [] {
      var n := |flights| - 1;
      SearchNoFilters(flights[..n], origin, destination, maxPrice);
      assert flights == flights[..n] + [flights[n]];
    }
  }

  /** The falsy values behave exactly like absent parameters: an empty
      origin or destination and a ceiling of 0 filter nothing. */
  lemma {:induction false} SearchFalsyIsAbsent(flights: seq<Flight>, origin: Option<string>, destination: Option<string>, maxPrice: Option<int>)
    ensures Search(flights, Some(""), destination, maxPrice) == Search(flights, None, destination, maxPrice)
    ensures Search(flights, origin, Some(""), maxPrice) == Search(flights, origin, None, maxPrice)
    ensures Search(flights, origin, destination, Some(0)) == Search(flights, origin, destination, None)
  {
    if flights != [] {
      SearchFalsyIsAbsent(flights[..|flights| - 1], origin, destination, maxPrice);
    }
  }

  // ---------------------------------------------------------------------
  // get_flight_by_id
  // ---------------------------------------------------------------------

  /** The first record in catalogue order whose id is `id`, or None. */
  function FindById(flights: seq<Flight>, id: string): Option<Flight>
  {
    if flights == [] then None
    else if flights[0].id == id then Some(flights[0])
    else FindById(flights[1..], id)
  }

  /** None exactly when no record has the id; otherwise the record at the
      first position carrying it. */
  lemma {:induction false} FindByIdFirstMatch(flights: seq<Flight>, id: string)
    ensures FindById(flights, id).None? <==> forall i :: 0 <= i < |flights| ==> flights[i].id != id
    ensures FindById(flights, id).Some? ==>
      exists i :: 0 <= i < |flights| && flights[i] == FindById(flights, id).value && flights[i].id == id &&
        forall j :: 0 <= j < i ==> flights[j].id != id
  {
    if flights != [] && flights[0].id != id {
      var tail := flights[1..];
      FindByIdFirstMatch(tail, id);
      assert forall i :: 1 <= i < |flights| ==> flights[i] == tail[i - 1];
      if FindById(tail, id).Some? {
        var i :| 0 <= i < |tail| && tail[i] == FindById(tail, id).value && tail[i].id == id &&
          forall j :: 0 <= j < i ==> tail[j].id != id;
        assert flights[i + 1] == tail[i];
      }
    }
  }

  /** In a catalogue with unique ids the lookup returns a record exactly when
      it is the one carrying that id. */
  lemma FindByIdUnique(flights: seq<Flight>, id: string, f: Flight)
    requires UniqueIds(flights)
    ensures FindById(flights, id) == Some(f) <==> f in flights && f.id == id
  {
    FindByIdFirstMatch(flights, id);
    if f in flights && f.id == id {
      var k :| 0 <= k < |flights| && flights[k] == f;
      var i :| 0 <= i < |flights| && flights[i] == FindById(flights, id).value && flights[i].id == id &&
        forall j :: 0 <= j < i ==> flights[j].id != id;
      assert i == k;
    }
  }

  // ---------------------------------------------------------------------
  // check_availability
  // ---------------------------------------------------------------------

  /** The looked-up record exists and has at least one seat left. */
  predicate Available(flights: seq<Flight>, id: string)
  {
    match FindById(flights, id)
    case None => false
    case Some(f) => f.availableSeats > 0
  }

  /** An unknown id is reported as unavailable. */
  lemma AvailableUnknownId(flights: seq<Flight>, id: string)
    requires forall f :: f in flights ==> f.id != id
    ensures !Available(flights, id)
  {
    FindByIdFirstMatch(flights, id);
  }

  /** In a catalogue with unique ids a flight is available exactly when the
      record with that id has seats left. */
  lemma AvailableIff(flights: seq<Flight>, id: string)
    requires UniqueIds(flights)
    ensures Available(flights, id) <==> exists f :: f in flights && f.id == id && f.availableSeats > 0
  {
    FindByIdFirstMatch(flights, id);
    if f :| f in flights && f.id == id && f.availableSeats > 0 {
      FindByIdUnique(flights, id, f);
    }
  }

  // ---------------------------------------------------------------------
  // get_airlines
  // ---------------------------------------------------------------------

  /** The airline names collected record by record. */
  function Airlines(flights: seq<Flight>): set<string>
  {
    if flights == [] then {}
    else Airlines(flights[..|flights| - 1]) + {flights[|flights| - 1].airline}
  }

  /** A name is collected exactly when some record carries it. */
  lemma {:induction false} AirlinesMembership(flights: seq<Flight>, a: string)
    ensures a in Airlines(flights) <==> exists f :: f in flights && f.airline == a
  {
    if flights != [] {
      var n := |flights| - 1;
      AirlinesMembership(flights[..n], a);
      assert flights == flights[..n] + [flights[n]];
    }
  }
}
