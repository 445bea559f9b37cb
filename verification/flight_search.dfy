/** The query engine: an object holding the catalogue, with the four
    read-only queries as scans over it. */
module FlightSearchEngine {

  import opened Wrappers
  import opened Flights
  import opened Queries

  class FlightSearch {

    /** The catalogue: every engine is built over the seed records, and
        nothing changes them afterwards. */
    const flights: seq<Flight> := SeedFlights()

    /** Builds the engine over the seed catalogue. */
    constructor ()
      ensures flights == SeedFlights()
      ensures ValidCatalog(flights)
    {
    }

    /** Keeps, in catalogue order, every record that passes the filters in
        force; an empty or absent origin or destination and an absent or zero
        ceiling filter nothing. */
    method SearchFlights(origin: Option<string>, destination: Option<string>, maxPrice: Option<int>)
      returns (results: seq<Flight>)
      ensures results == Search(flights, origin, destination, maxPrice)
      ensures forall f :: f in results <==> f in flights && Matches(f, origin, destination, maxPrice)
    {
      results := [];
      for i := 0 to |flights|
        invariant results == Search(flights[..i], origin, destination, maxPrice)
      {
        var flight := flights[i];
        var isMatch := true;
        if TextFilterOn(origin) && flight.origin != origin.value {
          isMatch := false;
        }
        if TextFilterOn(destination) && flight.destination != destination.value {
          isMatch := false;
        }
        if PriceFilterOn(maxPrice) && flight.price > maxPrice.value {
          isMatch := false;
        }
        if isMatch {
          results := results + [flight];
        }
        assert flights[..i + 1][..i] == flights[..i];
      }
      assert flights[..|flights|] == flights;
      forall f ensures f in results <==> f in flights && Matches(f, origin, destination, maxPrice) {
        SearchMembership(flights, origin, destination, maxPrice, f);
      }
    }

    /** The first record whose id is `flightId`, or None when there is none. */
    method GetFlightById(flightId: string) returns (flight: Option<Flight>)
      ensures flight == FindById(flights, flightId)
      ensures flight.None? <==> forall f :: f in flights ==> f.id != flightId
      ensures flight.Some? ==> flight.value in flights && flight.value.id == flightId
      ensures forall f :: f in flights && f.id == flightId ==> flight == Some(f)
    {
      FindByIdFirstMatch(flights, flightId);
      forall f | f in flights && f.id == flightId ensures FindById(flights, flightId) == Some(f) {
        FindByIdUnique(flights, flightId, f);
      }
      for i := 0 to |flights|
        invariant FindById(flights[i..], flightId) == FindById(flights, flightId)
      {
        if flights[i].id == flightId {
          return Some(flights[i]);
        }
        assert flights[i..][1..] == flights[i + 1..];
      }
      return None;
    }

    /** True exactly when the id is known and that record has a seat left;
        an unknown id gives false. */
    method CheckAvailability(flightId: string) returns (available: bool)
      ensures available == Available(flights, flightId)
      ensures available <==> exists f :: f in flights && f.id == flightId && f.availableSeats > 0
      ensures (forall f :: f in flights ==> f.id != flightId) ==> !available
    {
      AvailableIff(flights, flightId);
      var flight := GetFlightById(flightId);
      if flight.Some? && flight.value.availableSeats > 0 {
        return true;
      }
      return false;
    }

    /** Every airline that some record carries, each once, in no promised
        order. */
    method GetAirlines() returns (airlines: seq<string>)
      ensures forall a :: a in airlines <==> a in Airlines(flights)
      ensures forall a :: a in airlines <==> exists f :: f in flights && f.airline == a
      ensures forall i, j :: 0 <= i < j < |airlines| ==> airlines[i] != airlines[j]
    {
      var seen: set<string> := {};
      for i := 0 to |flights|
        invariant seen == Airlines(flights[..i])
      {
        seen := seen + {flights[i].airline};
        assert flights[..i + 1][..i] == flights[..i];
      }
      assert flights[..|flights|] == flights;

      // The set is turned into a list in whatever order it yields.
      airlines := [];
      var rest := seen;
      while rest != {}
        invariant rest <= seen
        invariant forall a :: a in airlines <==> a in seen && a !in rest
        invariant forall i, j :: 0 <= i < j < |airlines| ==> airlines[i] != airlines[j]
        decreases rest
      {
        var a :| a in rest;
        airlines := airlines + [a];
        rest := rest - {a};
      }
      forall a ensures a in airlines <==> exists f :: f in flights && f.airline == a {
        AirlinesMembership(flights, a);
      }
    }
  }
}
