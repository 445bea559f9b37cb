# Flight search engine, modelled in Dafny

This project models the in-memory flight query engine `FlightSearch`. The engine holds a fixed catalogue of flight records and answers four read-only queries over it:

- search by origin, destination and price ceiling;
- lookup by flight id;
- a seat-availability check;
- the list of distinct airlines.

Layout:

- `wrappers.dfy`: module `Wrappers`, the `Option` type. It is used for optional query parameters and for "not found".
- `flights.dfy`: module `Flights`. It holds the `Flight` record, the catalogue invariants (`UniqueIds`, `ValidCatalog`) and the seed catalogue `SeedFlights`.
- `queries.dfy`: module `Queries`. Each query has a specification function (`Search`, `FindById`, `Available`, `Airlines`). The lemmas state what each query promises.
- `flight_search.dfy`: module `FlightSearchEngine`, the class `FlightSearch`. Its `flights` field is a `const` holding the seed catalogue, so every engine satisfies the catalogue invariants. The query methods keep the original loop shapes: `SearchFlights` appends under a per-record match flag, `GetFlightById` returns early, and `GetAirlines` adds to a set. Each method is proved equal to its specification function. None of them has a `modifies` clause, so no query can change the engine's state. Repeated calls with the same inputs therefore give the same answer; for `GetAirlines` that is the same set of names, possibly listed in another order.
- `seed_examples.dfy`: module `SeedExamples`. It states what the queries answer on the seed catalogue.

Modelling choices:

- Prices are integer cents. For example, 350.00 is `35000`, so the comparison against the ceiling is exact.
- Each query parameter is an `Option`. Python truthiness decides whether a filter is in force (app.py:78, 81, 84). So `Some("")` for origin or destination means "no filter", like `None`. A ceiling of `Some(0)` means "no ceiling", like `None`. `SearchFalsyIsAbsent` proves these cases equivalent to `None`.
- A ceiling of 0 is falsy, so it means no ceiling (app.py:84); the model does the same.
- A negative ceiling is truthy, so it is in force, and no record with a non-negative price passes it.

## Model

| member | source | states |
|---|---|---|
| `Flights.SeedFlights` | app.py:8-59 | the seed catalogue has five records with unique ids and non-negative prices; seat counts are non-negative by type |
| `FlightSearchEngine.FlightSearch.constructor` | app.py:6-59 | the engine starts with exactly the seed catalogue, which satisfies the catalogue invariants |
| `FlightSearchEngine.FlightSearch.SearchFlights` | app.py:61-90 | the scan returns exactly `Search` of the catalogue: a record is returned iff it is in the catalogue and passes every filter in force |
| `Queries.SearchSelectsMatchingPositions` | app.py:73-90 | the result is the catalogue restricted to exactly the matching positions, in strictly increasing order; nothing is reordered, duplicated, invented or dropped |
| `Queries.SearchMembership` | app.py:75-88 | soundness and completeness: `f` is in the result iff `f` is in the catalogue and matches every filter in force |
| `Queries.SearchSound` | app.py:78-85 | a returned record has the requested origin and destination when these are non-empty, and a price at most the ceiling when it is non-zero (inclusive bound) |
| `Queries.SearchNoFilters` | app.py:76-88 | with no filter in force (all absent, empty or zero) the whole catalogue is returned unchanged and in order |
| `Queries.SearchFalsyIsAbsent` | app.py:78-85 | an empty origin, an empty destination and a ceiling of 0 give the same result as leaving the parameter out |
| `FlightSearchEngine.FlightSearch.GetFlightById` | app.py:92-105 | returns `FindById` of the catalogue: None iff no record has the id, otherwise a catalogue record carrying that id; as the seed ids are unique, it is the record carrying that id |
| `Queries.FindByIdFirstMatch` | app.py:102-105 | the lookup is None iff no record has the id; otherwise it is the record at the first position carrying the id |
| `Queries.FindByIdUnique` | app.py:102-105 | with unique ids, the lookup returns `f` iff `f` is the catalogue record with that id |
| `FlightSearchEngine.FlightSearch.CheckAvailability` | app.py:107-120 | true exactly when the lookup finds a record with a seat left, which (ids being unique) is exactly when the record carrying the id has more than zero seats; an unknown id gives false |
| `Queries.AvailableUnknownId` | app.py:117-120 | an id that no record carries is reported unavailable |
| `Queries.AvailableIff` | app.py:117-120 | with unique ids, available iff the record carrying the id has more than zero seats |
| `FlightSearchEngine.FlightSearch.GetAirlines` | app.py:122-132 | the returned list holds every airline some record carries, only those, and each once |
| `Queries.AirlinesMembership` | app.py:129-131 | a name is in the collected airline set iff some catalogue record carries it |
| `SeedExamples.SeedSearchNycToLax` | app.py:9-58 | on the seed data, NYC to LAX finds FL001 and then FL005, and FL005 is included although it has no seats |
| `SeedExamples.SeedSearchCeiling` | app.py:84-85 | on the seed data, a ceiling of 300.00 keeps only FL003; a ceiling of exactly 350.00 keeps FL001 (inclusive) and FL003 |
| `SeedExamples.SeedSearchZeroCeiling` | app.py:84 | on the seed data, a ceiling of 0 returns all five records |
| `SeedExamples.SeedLookup` | app.py:102-105 | FL001 is found with origin NYC, destination LAX and price 350.00; an unknown id is not found |
| `SeedExamples.SeedAvailability` | app.py:117-120 | FL001 is available, FL005 (0 seats) is not, and an unknown id is not |
| `SeedExamples.SeedAirlines` | app.py:129-132 | the seed catalogue's airlines are exactly SkyWings, AirGlobe and TransAtlantic |

## Left out

- The `if __name__ == "__main__"` demo (app.py:136-150) is left out. It only prints and formats strings.
- `features/steps/flight_search_steps.py` is not part of this model. It is behave step glue: regex matching, string-to-float conversion and assertions on a test context.
- Floating-point prices are replaced by integer cents. Float rounding is not modelled.
- `FlightSearchEngine.FlightSearch.GetAirlines` makes no claim about list order. In Python that order comes from set iteration and is the same on repeated calls within one process. The model drains the set in an arbitrarily chosen order, so two calls may list the names differently.
- Departure and arrival times are carried as uninterpreted strings. No query reads them.
- Dynamic typing is not modelled. Parameters are typed as optional strings and optional integers, so a non-string id or a non-numeric price cannot be expressed.
- The query methods return the records themselves, as values. Python returns references to the same dict objects, so a caller could mutate the catalogue through them. That aliasing is not modelled.
