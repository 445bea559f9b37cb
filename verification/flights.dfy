/** The flight record and the seed catalogue the engine is built with. */
module Flights {

  /** One flight record. `price` is in integer cents; the departure and arrival
      times are display strings that no query reads. */
  datatype Flight = Flight(
    id: string,
    origin: string,
    destination: string,
    departureTime: string,
    arrivalTime: string,
    price: int,
    availableSeats: nat,
    airline: string)

  /** No two records of the catalogue share an id. */
  predicate UniqueIds(flights: seq<Flight>)
  {
    forall i, j :: 0 <= i < |flights| && 0 <= j < |flights| && flights[i].id == flights[j].id ==> i == j
  }

  /** The catalogue invariants: unique ids and non-negative prices
      (seat counts are non-negative by their type). */
  predicate ValidCatalog(flights: seq<Flight>)
  {
    && UniqueIds(flights)
    && forall i :: 0 <= i < |flights| ==> flights[i].price >= 0
  }

  /** The five records the engine is initialised with. */
  function SeedFlights(): (flights: seq<Flight>)
    ensures |flights| == 5
    ensures ValidCatalog(flights)
  {
    [ Flight("FL001", "NYC", "LAX", "08:00", "11:30", 35000, 45, "SkyWings"),
      Flight("FL002", "LAX", "NYC", "14:00", "22:30", 37500, 32, "SkyWings"),
      Flight("FL003", "CHI", "MIA", "10:15", "14:00", 28000, 58, "AirGlobe"),
      Flight("FL004", "NYC", "LON", "19:45", "08:30", 62000, 12, "TransAtlantic"),
      Flight("FL005", "NYC", "LAX", "16:30", "20:00", 41000, 0, "AirGlobe") ]
  }
}
