/** The external flight catalog as the application sees it (`ExternalFlightDto`,
    `ExternalPaxPriceDto`) and the search request (`SearchFlightQuery`,
    `PaxTypeQuery`). Prices are C# `decimal`, modelled as `real`; decimal's
    rounding and overflow are not modelled. */
module FlightCatalog {
  import opened Wrappers
  import opened Dates

  datatype PaxPrice = PaxPrice(paxType: string, price: real)

  datatype Flight = Flight(
    flightKey: string,
    flightNumber: string,
    origin: string,
    destination: string,
    flightDate: string,        // date text as the feed delivers it
    paxPrices: seq<PaxPrice>)

  datatype PaxRequest = PaxRequest(paxType: string, quantity: int)

  datatype SearchQuery = SearchQuery(
    origin: string,
    destination: Option<string>,
    flightDate: DateTime,
    paxTypes: seq<PaxRequest>)

  /** `SearchFlightResult`. */
  datatype SearchResult = SearchResult(
    flightKey: string,
    flightNumber: string,
    flightDate: DateTime,
    origin: string,
    destination: string,
    paxPrices: seq<PaxPrice>)
}

/** `SearchFlightQueryHandler`: filter the catalog by route and day, then pick
    the flight with the lowest quantity-weighted fare. */
module FlightSearch {
  import opened Wrappers
  import opened Errors
  import opened Dates
  import opened Ordinal
  import opened FlightCatalog
  import ApiGateway

  const NoMatchingFlights: string := "No matching flights found."

  // ---------------------------------------------------------------------
  // Filtering

  /** The `Where` predicate of `FilterMatchingFlights`: origin equal ignoring
      case; destination equal ignoring case unless the request leaves it null
      or empty; flight date text parses and falls on the requested day. */
  predicate Matches(f: Flight, q: SearchQuery) {
    && EqualsIgnoreCase(f.origin, q.origin)
    && (IsNullOrEmpty(q.destination) || EqualsIgnoreCase(f.destination, q.destination.value))
    && ParseIsoDate(f.flightDate).Some?
    && ParseIsoDate(f.flightDate).value.date == q.flightDate.date
  }

  /** `FilterMatchingFlights`: the matching flights, in catalog order. */
  function FilterMatching(catalog: seq<Flight>, q: SearchQuery): (r: seq<Flight>)
    ensures |r| <= |catalog|
    ensures forall f :: f in r <==> f in catalog && Matches(f, q)
  {
    if |catalog| == 0 then []
    else (if Matches(catalog[0], q) then [catalog[0]] else []) + FilterMatching(catalog[1..], q)
  }

  /** Filtering keeps catalog order: filtering a concatenation concatenates
      the filtered parts. */
  lemma {:induction false} FilterMatchingDistributes(a: seq<Flight>, b: seq<Flight>, q: SearchQuery)
    ensures FilterMatching(a + b, q) == FilterMatching(a, q) + FilterMatching(b, q)
  {
    if |a| > 0 {
      var head := if Matches(a[0], q) then [a[0]] else [];
      var ab := a + b;
      assert ab[0] == a[0];
      assert ab[1..] == a[1..] + b;
      FilterMatchingDistributes(a[1..], b, q);
      calc {
        FilterMatching(ab, q);
        head + FilterMatching(ab[1..], q);
        head + (FilterMatching(a[1..], q) + FilterMatching(b, q));
        (head + FilterMatching(a[1..], q)) + FilterMatching(b, q);
      }
    } else {
      assert a + b == b;
    }
  }

  /** A null or empty destination leaves the destination unconstrained; any
      other destination must match ignoring case. */
  lemma DestinationFilter(f: Flight, q: SearchQuery)
    ensures (q.destination.None? || q.destination == Some("")) ==>
      forall d: string :: Matches(f, q) <==> Matches(f.(destination := d), q)
    ensures q.destination.Some? && q.destination.value != "" && Matches(f, q) ==>
      EqualsIgnoreCase(f.destination, q.destination.value)
  {
  }

  /** A flight whose date text does not parse never matches. */
  lemma UnparseableDateNeverMatches(f: Flight, q: SearchQuery)
    requires ParseIsoDate(f.flightDate).None?
    ensures !Matches(f, q)
  {
  }

  // ---------------------------------------------------------------------
  // Pricing

  /** Index of the first price entry for passenger type `t` (exact,
      case-sensitive comparison), if any. */
  function FirstPriceIndex(prices: seq<PaxPrice>, t: string): (r: Option<nat>)
    ensures r.Some? ==> r.value < |prices| && prices[r.value].paxType == t
    ensures r.Some? ==> forall j | 0 <= j < r.value :: prices[j].paxType != t
    ensures r.None? ==> forall j | 0 <= j < |prices| :: prices[j].paxType != t
  {
    if |prices| == 0 then None
    else if prices[0].paxType == t then Some(0)
    else match FirstPriceIndex(prices[1..], t)
      case Some(k) => Some(k + 1)
      case None => None
  }

  /** What one requested passenger type adds to a flight's fare: the first
      matching unit price times the quantity, or 0 (`FirstOrDefault` on
      decimal) when the flight has no price for that type. */
  function PaxFare(prices: seq<PaxPrice>, pax: PaxRequest): real {
    match FirstPriceIndex(prices, pax.paxType)
    case Some(k) => prices[k].price * pax.quantity as real
    case None => 0.0
  }

  /** `CalculateTotalPrice` of the search handler: the quantity-weighted fare
      of a flight for the requested passenger mix. */
  function WeightedFare(f: Flight, paxTypes: seq<PaxRequest>): real {
    if |paxTypes| == 0 then 0.0
    else PaxFare(f.paxPrices, paxTypes[0]) + WeightedFare(f, paxTypes[1..])
  }

  /** The fare is a sum over the requested entries. */
  lemma {:induction false} WeightedFareAdditive(f: Flight, a: seq<PaxRequest>, b: seq<PaxRequest>)
    ensures WeightedFare(f, a + b) == WeightedFare(f, a) + WeightedFare(f, b)
  {
    if |a| > 0 {
      assert (a + b)[1..] == a[1..] + b;
      WeightedFareAdditive(f, a[1..], b);
    } else {
      assert a + b == b;
    }
  }

  /** A requested type the flight has no price for adds nothing; a priced
      one adds its first unit price times the quantity. */
  lemma PaxFareCases(prices: seq<PaxPrice>, pax: PaxRequest)
    ensures (forall j | 0 <= j < |prices| :: prices[j].paxType != pax.paxType) ==> PaxFare(prices, pax) == 0.0
    ensures forall k | 0 <= k < |prices| && prices[k].paxType == pax.paxType &&
      (forall j | 0 <= j < k :: prices[j].paxType != pax.paxType) ::
        PaxFare(prices, pax) == prices[k].price * pax.quantity as real
  {
  }

  /** Later price entries for a type already priced are ignored: appending
      entries whose types all occur already leaves every fare unchanged. */
  lemma {:induction false} DuplicatePricesIgnored(f: Flight, extra: seq<PaxPrice>, paxTypes: seq<PaxRequest>)
    requires forall e | e in extra :: exists j :: 0 <= j < |f.paxPrices| && f.paxPrices[j].paxType == e.paxType
    ensures WeightedFare(f.(paxPrices := f.paxPrices + extra), paxTypes) == WeightedFare(f, paxTypes)
  {
    if |paxTypes| > 0 {
      var g := f.(paxPrices := f.paxPrices + extra);
      FirstPriceIndexOfPrefix(f.paxPrices, extra, paxTypes[0].paxType);
      DuplicatePricesIgnored(f, extra, paxTypes[1..]);
    }
  }

  lemma {:induction false} FirstPriceIndexOfPrefix(prices: seq<PaxPrice>, extra: seq<PaxPrice>, t: string)
    requires forall e | e in extra :: exists j :: 0 <= j < |prices| && prices[j].paxType == e.paxType
    ensures FirstPriceIndex(prices + extra, t) == FirstPriceIndex(prices, t)
  {
    var all := prices + extra;
    match FirstPriceIndex(prices, t)
    case Some(k) =>
      FirstPriceIndexUnique(all, t, k);
    case None =>
  }

  /** The first index of a type is the only index that has the type and no
      earlier occurrence. */
  lemma FirstPriceIndexUnique(prices: seq<PaxPrice>, t: string, k: nat)
    requires k < |prices| && prices[k].paxType == t
    requires forall j | 0 <= j < k :: prices[j].paxType != t
    ensures FirstPriceIndex(prices, t) == Some(k)
  {
    var r := FirstPriceIndex(prices, t);
    assert r.Some?;
    assert !(r.value < k) && !(k < r.value);
  }

  // ---------------------------------------------------------------------
  // Selection

  /** `SelectCheapestFlight` = `OrderBy(fare).First()`. The sort is stable,
      so the first element after sorting is the earliest flight among those
      with the lowest fare. */
  function CheapestIndex(flights: seq<Flight>, paxTypes: seq<PaxRequest>): (i: nat)
    requires |flights| > 0
    ensures i < |flights|
    ensures forall j | 0 <= j < |flights| :: WeightedFare(flights[i], paxTypes) <= WeightedFare(flights[j], paxTypes)
    ensures forall j | 0 <= j < i :: WeightedFare(flights[j], paxTypes) > WeightedFare(flights[i], paxTypes)
    decreases |flights|
  {
    if |flights| == 1 then 0
    else
      var n := |flights| - 1;
      var prefix := flights[..n];
      var j := CheapestIndex(prefix, paxTypes);
      assert forall t | 0 <= t < n :: prefix[t] == flights[t];
      if WeightedFare(flights[n], paxTypes) < WeightedFare(flights[j], paxTypes) then n else j
  }

  /** Position `k` of the catalog holds the flight the search must return: it
      matches, no matching flight is cheaper, and every matching flight
      before it is strictly dearer. */
  predicate IsEarliestCheapestMatch(catalog: seq<Flight>, q: SearchQuery, k: int) {
    && 0 <= k < |catalog|
    && Matches(catalog[k], q)
    && (forall j | 0 <= j < |catalog| && Matches(catalog[j], q) ::
          WeightedFare(catalog[k], q.paxTypes) <= WeightedFare(catalog[j], q.paxTypes))
    && (forall j | 0 <= j < k && Matches(catalog[j], q) ::
          WeightedFare(catalog[j], q.paxTypes) > WeightedFare(catalog[k], q.paxTypes))
  }

  /** At most one catalog position is the earliest cheapest match. */
  lemma EarliestCheapestMatchIsUnique(catalog: seq<Flight>, q: SearchQuery, k1: int, k2: int)
    requires IsEarliestCheapestMatch(catalog, q, k1) && IsEarliestCheapestMatch(catalog, q, k2)
    ensures k1 == k2
  {
  }

  /** Selecting on the filtered list picks the catalog's earliest cheapest
      match: filtering then taking the stable minimum is the same as taking
      the first catalog flight of least fare among the matching ones. */
  lemma CheapestOfFilteredIsEarliestCheapestMatch(catalog: seq<Flight>, q: SearchQuery)
    requires |FilterMatching(catalog, q)| > 0
    ensures var m := FilterMatching(catalog, q);
      exists k :: IsEarliestCheapestMatch(catalog, q, k) && catalog[k] == m[CheapestIndex(m, q.paxTypes)]
  {
    var k := CheapestMatchPosition(catalog, q);
  }

  /** The catalog position of the flight the stable minimum of the filtered
      list selects; it is the earliest cheapest match. */
  lemma {:induction false} CheapestMatchPosition(catalog: seq<Flight>, q: SearchQuery) returns (k: int)
    requires |FilterMatching(catalog, q)| > 0
    ensures IsEarliestCheapestMatch(catalog, q, k)
    ensures catalog[k] == FilterMatching(catalog, q)[CheapestIndex(FilterMatching(catalog, q), q.paxTypes)]
    decreases |catalog|
  {
    var n := |catalog| - 1;
    var init, x := catalog[..n], catalog[n];
    assert catalog == init + [x];
    FilterOfSnoc(init, x, q);
    if !Matches(x, q) {
      var k' := CheapestMatchPosition(init, q);
      k := StepNonMatching(init, x, q, k');
    } else if |FilterMatching(init, q)| == 0 {
      k := StepFirstMatching(init, x, q);
    } else {
      var k' := CheapestMatchPosition(init, q);
      k := StepMatching(init, x, q, k');
    }
  }

  lemma StepNonMatching(init: seq<Flight>, x: Flight, q: SearchQuery, k': int) returns (k: int)
    requires |FilterMatching(init, q)| > 0 && !Matches(x, q)
    requires IsEarliestCheapestMatch(init, q, k')
    requires init[k'] == FilterMatching(init, q)[CheapestIndex(FilterMatching(init, q), q.paxTypes)]
    ensures |FilterMatching(init + [x], q)| > 0
    ensures IsEarliestCheapestMatch(init + [x], q, k)
    ensures (init + [x])[k] == FilterMatching(init + [x], q)[CheapestIndex(FilterMatching(init + [x], q), q.paxTypes)]
  {
    var m' := FilterMatching(init, q);
    assert FilterMatching(init + [x], q) == m' by {
      FilterOfSnoc(init, x, q);
      assert m' + [] == m';
    }
    ExtendByNonMatching(init, x, q, k');
    k := k';
    assert (init + [x])[k] == init[k];
  }

  lemma StepFirstMatching(init: seq<Flight>, x: Flight, q: SearchQuery) returns (k: int)
    requires |FilterMatching(init, q)| == 0 && Matches(x, q)
    ensures |FilterMatching(init + [x], q)| > 0
    ensures IsEarliestCheapestMatch(init + [x], q, k)
    ensures (init + [x])[k] == FilterMatching(init + [x], q)[CheapestIndex(FilterMatching(init + [x], q), q.paxTypes)]
  {
    FilterOfSnoc(init, x, q);
    ExtendEmptyByMatching(init, x, q);
    k := |init|;
    assert FilterMatching(init + [x], q) == [x];
    assert CheapestIndex([x], q.paxTypes) == 0;
  }

  lemma StepMatching(init: seq<Flight>, x: Flight, q: SearchQuery, k': int) returns (k: int)
    requires |FilterMatching(init, q)| > 0 && Matches(x, q)
    requires IsEarliestCheapestMatch(init, q, k')
    requires init[k'] == FilterMatching(init, q)[CheapestIndex(FilterMatching(init, q), q.paxTypes)]
    ensures |FilterMatching(init + [x], q)| > 0
    ensures IsEarliestCheapestMatch(init + [x], q, k)
    ensures (init + [x])[k] == FilterMatching(init + [x], q)[CheapestIndex(FilterMatching(init + [x], q), q.paxTypes)]
  {
    FilterOfSnoc(init, x, q);
    var pax := q.paxTypes;
    var m', m := FilterMatching(init, q), FilterMatching(init + [x], q);
    assert m == m' + [x];
    assert m[..|m'|] == m';
    ExtendByMatching(init, x, q, k');
    if WeightedFare(x, pax) < WeightedFare(init[k'], pax) {
      k := |init|;
      assert CheapestIndex(m, pax) == |m'|;
    } else {
      k := k';
      assert CheapestIndex(m, pax) == CheapestIndex(m', pax);
      assert (init + [x])[k] == init[k];
    }
  }

  lemma {:induction false} FilterOfSnoc(init: seq<Flight>, x: Flight, q: SearchQuery)
    ensures FilterMatching(init + [x], q) == FilterMatching(init, q) + (if Matches(x, q) then [x] else [])
  {
    FilterMatchingDistributes(init, [x], q);
    assert [x][1..] == [];
  }

  lemma ExtendByNonMatching(init: seq<Flight>, x: Flight, q: SearchQuery, k: int)
    requires IsEarliestCheapestMatch(init, q, k) && !Matches(x, q)
    ensures IsEarliestCheapestMatch(init + [x], q, k)
  {
    var c := init + [x];
    forall j | 0 <= j < |c| && Matches(c[j], q)
      ensures WeightedFare(c[k], q.paxTypes) <= WeightedFare(c[j], q.paxTypes)
    {
      assert j < |init| && c[j] == init[j];
    }
  }

  lemma ExtendEmptyByMatching(init: seq<Flight>, x: Flight, q: SearchQuery)
    requires FilterMatching(init, q) == [] && Matches(x, q)
    ensures IsEarliestCheapestMatch(init + [x], q, |init|)
  {
    var c := init + [x];
    forall j | 0 <= j < |init|
      ensures !Matches(c[j], q)
    {
      assert c[j] == init[j] && init[j] in init;
    }
  }

  lemma ExtendByMatching(init: seq<Flight>, x: Flight, q: SearchQuery, k: int)
    requires IsEarliestCheapestMatch(init, q, k) && Matches(x, q)
    ensures WeightedFare(x, q.paxTypes) < WeightedFare(init[k], q.paxTypes) ==>
      IsEarliestCheapestMatch(init + [x], q, |init|)
    ensures WeightedFare(x, q.paxTypes) >= WeightedFare(init[k], q.paxTypes) ==>
      IsEarliestCheapestMatch(init + [x], q, k)
  {
    var c := init + [x];
    var pax := q.paxTypes;
    if WeightedFare(x, pax) < WeightedFare(init[k], pax) {
      forall j | 0 <= j < |c| && Matches(c[j], q)
        ensures WeightedFare(c[|init|], pax) <= WeightedFare(c[j], pax)
      {
        if j < |init| {
          assert c[j] == init[j];
        }
      }
      forall j | 0 <= j < |init| && Matches(c[j], q)
        ensures WeightedFare(c[j], pax) > WeightedFare(c[|init|], pax)
      {
        assert c[j] == init[j];
      }
    } else {
      assert c[k] == init[k];
      forall j | 0 <= j < |c| && Matches(c[j], q)
        ensures WeightedFare(c[k], pax) <= WeightedFare(c[j], pax)
      {
        if j < |init| {
          assert c[j] == init[j];
        }
      }
      forall j | 0 <= j < k && Matches(c[j], q)
        ensures WeightedFare(c[j], pax) > WeightedFare(c[k], pax)
      {
        assert c[j] == init[j];
      }
    }
  }

  /** `MapToResult`: a field-by-field copy; the date is the parsed flight date
      and the per-type prices are the flight's own unit prices, not scaled by
      the requested quantities. */
  function ToSearchResult(f: Flight): (r: SearchResult)
    requires ParseIsoDate(f.flightDate).Some?
    ensures r.flightKey == f.flightKey && r.flightNumber == f.flightNumber
    ensures r.origin == f.origin && r.destination == f.destination
    ensures r.flightDate == ParseIsoDate(f.flightDate).value
    ensures r.paxPrices == f.paxPrices
  {
    SearchResult(f.flightKey, f.flightNumber, ParseIsoDate(f.flightDate).value, f.origin, f.destination, f.paxPrices)
  }

  /** The part of `Handle` after the catalog is fetched: fail when nothing
      matches, otherwise map the flight `SelectCheapestFlight` picks from the
      filtered list. */
  function SearchCatalog(catalog: seq<Flight>, q: SearchQuery): Result<SearchResult, Error> {
    var m := FilterMatching(catalog, q);
    if |m| == 0 then Failure(BusinessRule(NoMatchingFlights))
    else
      var i := CheapestIndex(m, q.paxTypes);
      assert m[i] in m;
      Success(ToSearchResult(m[i]))
  }

  /** The search fails, with "No matching flights found.", exactly when no
      catalog flight matches; otherwise it returns the earliest catalog
      flight among the matching ones of least weighted fare. */
  lemma SearchCatalogSelectsEarliestCheapest(catalog: seq<Flight>, q: SearchQuery)
    ensures SearchCatalog(catalog, q).Failure? <==> forall j | 0 <= j < |catalog| :: !Matches(catalog[j], q)
    ensures SearchCatalog(catalog, q).Failure? ==> SearchCatalog(catalog, q).error == BusinessRule(NoMatchingFlights)
    ensures SearchCatalog(catalog, q).Success? ==>
      exists k :: IsEarliestCheapestMatch(catalog, q, k) && SearchCatalog(catalog, q).value == ToSearchResult(catalog[k])
  {
    var m := FilterMatching(catalog, q);
    if |m| == 0 {
      forall j | 0 <= j < |catalog| ensures !Matches(catalog[j], q) {
        assert catalog[j] in catalog;
      }
    } else {
      CheapestOfFilteredIsEarliestCheapestMatch(catalog, q);
      assert m[0] in m;
    }
  }

  /** `Handle`: a null request is rejected before anything runs; otherwise
      the catalog is fetched once, through the retry gateway, and its
      outcome decides. `fetch(k)` is the outcome of the k-th call to the
      flight API client. */
  method Search(request: Option<SearchQuery>, fetch: nat -> ApiGateway.Outcome<seq<Flight>>)
    returns (r: Result<SearchResult, Error>, invocations: nat, delays: seq<nat>)
    ensures request.None? ==> r == Failure(ArgumentNull("request")) && invocations == 0 && delays == []
    ensures request.Some? ==> 1 <= invocations <= ApiGateway.MaxRetries
    ensures request.Some? && fetch(invocations - 1).Returned? ==>
      r == SearchCatalog(fetch(invocations - 1).value, request.value)
    ensures request.Some? && fetch(invocations - 1).Threw? ==> r == Failure(fetch(invocations - 1).error)
    ensures request.Some? ==> forall k | 0 <= k < invocations - 1 :: ApiGateway.RetryableFailure(fetch(k))
    ensures request.Some? && ApiGateway.RetryableFailure(fetch(invocations - 1)) ==>
      invocations == ApiGateway.MaxRetries
    ensures request.Some? ==> |delays| == invocations - 1
    ensures forall k | 0 <= k < |delays| :: delays[k] == ApiGateway.RetryDelay * (k + 1)
    ensures ApiGateway.TotalDelay(delays) <= 900
  {
    if request.None? {
      return Failure(ArgumentNull("request")), 0, [];
    }
    var fetched;
    fetched, invocations, delays := ApiGateway.Execute(Some(fetch));
    ApiGateway.DelaysAreBounded(delays);
    match fetched
    case Failure(e) =>
      r := Failure(e);
    case Success(catalog) =>
      r := SearchCatalog(catalog, request.value);
  }
}
