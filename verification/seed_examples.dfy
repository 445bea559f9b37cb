/** What the queries answer on the seed catalogue. */
module SeedExamples {

  import opened Wrappers
  import opened Flights
  import opened Queries

  /** Each prefix of the seed catalogue is the previous one plus one record,
      which lets the prefix-wise definitions unfold on it. */
  lemma SeedPrefixes()
    ensures var s := SeedFlights();
      && s[..1][..0] == [] && s[..2][..1] == s[..1] && s[..3][..2] == s[..2]
      && s[..4][..3] == s[..3] && s[..5][..4] == s[..4] && s[..5] == s
  {
  }

  /** New York to Los Angeles finds FL001 and FL005; search ignores seat
      counts, so the sold-out FL005 is included. */
  lemma SeedSearchNycToLax()
    ensures var r := Search(SeedFlights(), Some("NYC"), Some("LAX"), None);
      |r| == 2 && r[0].id == "FL001" && r[1].id == "FL005" && r[1].availableSeats == 0
  {
    SeedPrefixes();
  }

  /** A ceiling of 300.00 keeps only FL003 (280.00); a ceiling of exactly
      350.00 keeps FL001 (350.00), since the bound is inclusive. */
  lemma SeedSearchCeiling()
    ensures var r := Search(SeedFlights(), None, None, Some(30000));
      |r| == 1 && r[0].id == "FL003"
    ensures var r := Search(SeedFlights(), None, None, Some(35000));
      |r| == 2 && r[0].id == "FL001" && r[1].id == "FL003"
  {
    SeedPrefixes();
  }

  /** A ceiling of 0 is no ceiling: all five records come back. */
  lemma SeedSearchZeroCeiling()
    ensures Search(SeedFlights(), None, None, Some(0)) == SeedFlights()
  {
    SearchNoFilters(SeedFlights(), None, None, Some(0));
  }

  /** FL001 is found with its route and price; an unknown id is not found. */
  lemma SeedLookup()
    ensures var f := FindById(SeedFlights(), "FL001");
      f.Some? && f.value.origin == "NYC" && f.value.destination == "LAX" && f.value.price == 35000
    ensures FindById(SeedFlights(), "NOPE") == None
  {
  }

  /** FL001 has seats, FL005 is sold out, and an unknown id is unavailable. */
  lemma SeedAvailability()
    ensures Available(SeedFlights(), "FL001")
    ensures !Available(SeedFlights(), "FL005")
    ensures !Available(SeedFlights(), "NOPE")
  {
  }

  /** The seed catalogue names three airlines. */
  lemma SeedAirlines()
    ensures Airlines(SeedFlights()) == {"SkyWings", "AirGlobe", "TransAtlantic"}
  {
    SeedPrefixes();
  }
}
