/** `CreateBookingCommandHandler`: find the chosen flight, apply the booking
    rules, draw a booking ID no live booking uses, persist the booking and
    echo it back. The current instant `now`, the flight list returned by the
    flights client and the random bytes behind the ID are inputs. */
module CreateBooking {
  import opened Wrappers
  import opened Errors
  import opened Dates
  import opened Entities
  import opened FlightCatalog
  import opened BookingStore
  import StringHelper
  import PaxTypes
  import FlightSearch
  import BookingBuilder
  import ResultBuilder
  import RetrieveBooking

  datatype CreateBookingCommand = CreateBookingCommand(
    flightKey: string,
    passengers: seq<PassengerCommand>,
    contact: ContactCommand)

  /** The passenger type the rules treat as adult, compared exactly. */
  const AdultCode: string := "ADT"
  const MinAdultAge: int := 16
  const IdPrefix: string := "BK"
  const CodeLength: nat := 4

  const FlightNotFound: string := "Selected flight does not exist."
  const FlightInPast: string := "Cannot book a flight in the past."
  const NoAdult: string := "Booking must include at least one adult (ADT)."

  function UnderageMessage(p: PassengerCommand): string {
    "Passenger '" + p.firstName + " " + p.lastName + "' must be at least 16 years old to be an adult."
  }

  /** The adult code the rules hard-code is the code `PaxType.ADT` carries. */
  lemma AdultCodeIsAdultsCode()
    ensures AdultCode == PaxTypes.GetCode(PaxTypes.Adult)
    ensures PaxTypes.FromCode(AdultCode) == Some(PaxTypes.Adult)
  {
    PaxTypes.GetCodeTable();
    PaxTypes.FromCodeGetCode(PaxTypes.Adult);
  }

  // ---------------------------------------------------------------------
  // Finding the flight
  // ---------------------------------------------------------------------

  /** Index of the first flight whose key is exactly `key`. */
  function FindFlight(catalog: seq<Flight>, key: string): (r: Option<nat>)
    ensures r.Some? ==> r.value < |catalog| && catalog[r.value].flightKey == key
    ensures r.Some? ==> forall j | 0 <= j < r.value :: catalog[j].flightKey != key
    ensures r.None? ==> forall j | 0 <= j < |catalog| :: catalog[j].flightKey != key
  {
    if |catalog| == 0 then None
    else if catalog[0].flightKey == key then Some(0)
    else match FindFlight(catalog[1..], key)
      case Some(k) => Some(k + 1)
      case None => None
  }

  /** `GetFlightAsync`: `FirstOrDefault` on the key, or not-found. */
  function GetFlight(catalog: seq<Flight>, key: string): (r: Result<Flight, Error>)
    ensures r.Failure? <==> forall j | 0 <= j < |catalog| :: catalog[j].flightKey != key
    ensures r.Failure? ==> r.error == NotFound(FlightNotFound)
    ensures r.Success? ==> exists k | 0 <= k < |catalog| ::
      && r.value == catalog[k] && r.value.flightKey == key
      && forall j | 0 <= j < k :: catalog[j].flightKey != key
  {
    match FindFlight(catalog, key)
    case Some(k) => Success(catalog[k])
    case None => Failure(NotFound(FlightNotFound))
  }

  // ---------------------------------------------------------------------
  // The booking rules
  // ---------------------------------------------------------------------

  /** `ValidateFlightNotInPast`: the parsed flight date is compared with the
      start of the current day, so a flight later today is accepted. */
  function ValidateFlightNotInPast(f: Flight, now: DateTime): (r: Option<Error>)
    ensures ParseIsoDate(f.flightDate).None? ==> r == Some(Format(f.flightDate))
    ensures ParseIsoDate(f.flightDate).Some? ==>
      (r.Some? <==> DateBefore(ParseIsoDate(f.flightDate).value.date, now.date))
    ensures ParseIsoDate(f.flightDate).Some? && r.Some? ==> r.value == BusinessRule(FlightInPast)
  {
    match ParseIsoDate(f.flightDate)
    case None => Some(Format(f.flightDate))
    case Some(d) =>
      BeforeStartOfDayIsEarlierDate(d, now);
      if Before(d, StartOfDay(now)) then Some(BusinessRule(FlightInPast)) else None
  }

  /** The `Any(p => p.Type == "ADT")` of `ValidateAtLeastOneAdult`. */
  function AnyAdult(ps: seq<PassengerCommand>): (b: bool)
    ensures b <==> exists i | 0 <= i < |ps| :: ps[i].paxType == AdultCode
  {
    if |ps| == 0 then false
    else if ps[0].paxType == AdultCode then true
    else
      var rest := AnyAdult(ps[1..]);
      assert rest ==> exists i | 0 <= i < |ps| :: ps[i].paxType == AdultCode by {
        if rest {
          var i :| 0 <= i < |ps[1..]| && ps[1..][i].paxType == AdultCode;
          assert ps[i + 1].paxType == AdultCode;
        }
      }
      assert !rest ==> forall i | 1 <= i < |ps| :: ps[i].paxType != AdultCode by {
        if !rest {
          forall i | 1 <= i < |ps| ensures ps[i].paxType != AdultCode {
            assert ps[1..][i - 1] == ps[i];
          }
        }
      }
      rest
  }

  function ValidateAtLeastOneAdult(ps: seq<PassengerCommand>): (r: Option<Error>)
    ensures r.None? <==> exists i | 0 <= i < |ps| :: ps[i].paxType == AdultCode
    ensures r.Some? ==> r.value == BusinessRule(NoAdult)
  {
    if AnyAdult(ps) then None else Some(BusinessRule(NoAdult))
  }

  /** The age check: whole calendar years between the birth year and the
      current year, ignoring month and day. */
  predicate IsUnderageAdult(p: PassengerCommand, now: DateTime) {
    p.paxType == AdultCode && now.date.year - p.birthDate.date.year < MinAdultAge
  }

  /** Index of the first adult the age check rejects. */
  function FirstUnderageAdult(ps: seq<PassengerCommand>, now: DateTime): (r: Option<nat>)
    ensures r.Some? ==> r.value < |ps| && IsUnderageAdult(ps[r.value], now)
    ensures r.Some? ==> forall j | 0 <= j < r.value :: !IsUnderageAdult(ps[j], now)
    ensures r.None? ==> forall j | 0 <= j < |ps| :: !IsUnderageAdult(ps[j], now)
  {
    if |ps| == 0 then None
    else if IsUnderageAdult(ps[0], now) then Some(0)
    else match FirstUnderageAdult(ps[1..], now)
      case Some(k) => Some(k + 1)
      case None => None
  }

  /** `ValidateAdultAge`: the first underage adult, in passenger order, is
      named in the error; children are never age-checked. */
  function ValidateAdultAge(ps: seq<PassengerCommand>, now: DateTime): (r: Option<Error>)
    ensures r.None? <==> forall j | 0 <= j < |ps| :: ps[j].paxType == AdultCode ==> now.date.year - ps[j].birthDate.date.year >= MinAdultAge
    ensures r.Some? ==> exists k | 0 <= k < |ps| ::
      && IsUnderageAdult(ps[k], now)
      && (forall j | 0 <= j < k :: !IsUnderageAdult(ps[j], now))
      && r.value == BusinessRule(UnderageMessage(ps[k]))
  {
    match FirstUnderageAdult(ps, now)
    case None => None
    case Some(k) => Some(BusinessRule(UnderageMessage(ps[k])))
  }

  /** The checks `Handle` makes before creating anything, in its order:
      flight lookup, flight date, presence of an adult, adult ages. The
      result is the selected flight. */
  function CheckBookingRules(cmd: CreateBookingCommand, catalog: seq<Flight>, now: DateTime): (r: Result<Flight, Error>)
    ensures GetFlight(catalog, cmd.flightKey).Failure? ==> r == Failure(NotFound(FlightNotFound))
    ensures GetFlight(catalog, cmd.flightKey).Success? ==>
      var f := GetFlight(catalog, cmd.flightKey).value;
      && (ValidateFlightNotInPast(f, now).Some? ==> r == Failure(ValidateFlightNotInPast(f, now).value))
      && (ValidateFlightNotInPast(f, now).None? && ValidateAtLeastOneAdult(cmd.passengers).Some? ==>
            r == Failure(BusinessRule(NoAdult)))
      && (ValidateFlightNotInPast(f, now).None? && ValidateAtLeastOneAdult(cmd.passengers).None? ==>
            r == (match ValidateAdultAge(cmd.passengers, now)
                  case Some(e) => Failure(e)
                  case None => Success(f)))
    ensures r.Success? <==>
      && (exists k | 0 <= k < |catalog| :: catalog[k].flightKey == cmd.flightKey)
      && ParseIsoDate(GetFlight(catalog, cmd.flightKey).value.flightDate).Some?
      && !DateBefore(ParseIsoDate(GetFlight(catalog, cmd.flightKey).value.flightDate).value.date, now.date)
      && (exists i | 0 <= i < |cmd.passengers| :: cmd.passengers[i].paxType == AdultCode)
      && (forall j | 0 <= j < |cmd.passengers| :: !IsUnderageAdult(cmd.passengers[j], now))
    ensures r.Success? ==> r.value == GetFlight(catalog, cmd.flightKey).value
  {
    match GetFlight(catalog, cmd.flightKey)
    case Failure(e) => Failure(e)
    case Success(f) =>
      match ValidateFlightNotInPast(f, now)
      case Some(e) => Failure(e)
      case None =>
        match ValidateAtLeastOneAdult(cmd.passengers)
        case Some(e) => Failure(e)
        case None =>
          match ValidateAdultAge(cmd.passengers, now)
          case Some(e) => Failure(e)
          case None => Success(f)
  }

  // ---------------------------------------------------------------------
  // Price
  // ---------------------------------------------------------------------

  /** `CalculateTotalPrice`: the sum of every listed price, once each,
      whoever travels. */
  function BookingTotal(prices: seq<PaxPrice>): real {
    if |prices| == 0 then 0.0 else prices[0].price + BookingTotal(prices[1..])
  }

  lemma {:induction false} BookingTotalAdditive(a: seq<PaxPrice>, b: seq<PaxPrice>)
    ensures BookingTotal(a + b) == BookingTotal(a) + BookingTotal(b)
  {
    if |a| > 0 {
      assert (a + b)[1..] == a[1..] + b;
      BookingTotalAdditive(a[1..], b);
    } else {
      assert a + b == b;
    }
  }

  /** Whatever the party looks like, the booking total depends only on the
      flight's price list. */
  lemma BookingTotalIgnoresParty(f: Flight, a: CreateBookingCommand, b: CreateBookingCommand, id: string, now: DateTime)
    requires ParseIsoDate(f.flightDate).Some?
    ensures AssembleBooking(a, f, id, now).totalPrice == AssembleBooking(b, f, id, now).totalPrice
  {
  }

  /** One passenger per listed type: the request shape under which the
      search fare and the booking total agree. */
  function OneOfEach(prices: seq<PaxPrice>): (r: seq<PaxRequest>)
    ensures |r| == |prices|
    ensures forall i | 0 <= i < |prices| :: r[i] == PaxRequest(prices[i].paxType, 1)
  {
    seq(|prices|, i requires 0 <= i < |prices| => PaxRequest(prices[i].paxType, 1))
  }

  predicate DistinctTypes(prices: seq<PaxPrice>) {
    forall i, j | 0 <= i < j < |prices| :: prices[i].paxType != prices[j].paxType
  }

  /** The booking total is the search fare of a party with exactly one
      passenger of each listed type, when no type is listed twice. */
  lemma BookingTotalIsFareOfOneOfEach(f: Flight)
    requires DistinctTypes(f.paxPrices)
    ensures FlightSearch.WeightedFare(f, OneOfEach(f.paxPrices)) == BookingTotal(f.paxPrices)
  {
    FareOfSuffix(f, 0);
    assert OneOfEach(f.paxPrices)[0..] == OneOfEach(f.paxPrices);
    assert f.paxPrices[0..] == f.paxPrices;
  }

  lemma {:induction false} FareOfSuffix(f: Flight, j: nat)
    requires DistinctTypes(f.paxPrices) && j <= |f.paxPrices|
    ensures FlightSearch.WeightedFare(f, OneOfEach(f.paxPrices)[j..]) == BookingTotal(f.paxPrices[j..])
    decreases |f.paxPrices| - j
  {
    var prices := f.paxPrices;
    var pax := OneOfEach(prices)[j..];
    if j < |prices| {
      FareOfSuffix(f, j + 1);
      assert pax[1..] == OneOfEach(prices)[j + 1..];
      assert prices[j..][1..] == prices[j + 1..];
      FlightSearch.FirstPriceIndexUnique(prices, prices[j].paxType, j);
      assert pax[0] == PaxRequest(prices[j].paxType, 1);
      assert FlightSearch.PaxFare(prices, pax[0]) == prices[j].price;
    } else {
      assert pax == [];
    }
  }

  /** The two handlers price a party differently: two adults on a flight
      listing one adult fare of 100 are quoted 200 by the search but charged
      100 by the booking. */
  lemma SearchFareAndBookingTotalDiverge()
    ensures var f := Flight("K", "FB1", "BCN", "MAD", "2030-01-01", [PaxPrice(AdultCode, 100.0)]);
      && FlightSearch.WeightedFare(f, [PaxRequest(AdultCode, 2)]) == 200.0
      && BookingTotal(f.paxPrices) == 100.0
  {
    var f := Flight("K", "FB1", "BCN", "MAD", "2030-01-01", [PaxPrice(AdultCode, 100.0)]);
    FlightSearch.FirstPriceIndexUnique(f.paxPrices, AdultCode, 0);
    assert [PaxRequest(AdultCode, 2)][1..] == [];
  }

  // ---------------------------------------------------------------------
  // Booking ID
  // ---------------------------------------------------------------------

  /** Four random bytes, one per code character. */
  type Block = s: seq<StringHelper.byte> | |s| == 4 witness [0, 0, 0, 0]

  /** `$"BK{StringHelper.RandomString(4)}"` for one draw of random bytes. */
  function CandidateId(block: Block): (id: string)
    ensures IsBookingIdFormat(id)
  {
    IdPrefix + StringHelper.RandomString(block)
  }

  /** "BK" followed by four characters of the random-string alphabet. */
  predicate IsBookingIdFormat(id: string) {
    |id| == |IdPrefix| + CodeLength && id[..|IdPrefix|] == IdPrefix
    && forall i | |IdPrefix| <= i < |id| :: id[i] in StringHelper.Alphabet
  }

  /** Every well-formed ID is a possible draw. */
  lemma {:induction false} EveryIdFormatIsDrawable(id: string)
    requires IsBookingIdFormat(id)
    ensures exists block: Block :: CandidateId(block) == id
  {
    var code := id[|IdPrefix|..];
    forall i | 0 <= i < |code| ensures code[i] in StringHelper.Alphabet {
      assert code[i] == id[i + |IdPrefix|];
    }
    StringHelper.RandomStringIsOnto(code);
    var block: Block := StringHelper.BytesFor(code);
    assert CandidateId(block) == IdPrefix + code;
    assert id == id[..|IdPrefix|] + code;
  }

  /** `GenerateUniqueBookingIdAsync`: draw candidates until one is not the ID
      of a live booking. `blocks` are the successive random draws; when they
      run out before a free ID turns up, the result is `None` (the C# loop
      would keep drawing). */
  method GenerateUniqueBookingId(store: Store, blocks: seq<Block>) returns (id: Option<string>, drawn: nat)
    ensures drawn <= |blocks|
    ensures id.Some? ==> 1 <= drawn && id.value == CandidateId(blocks[drawn - 1]) && id.value !in LiveIds(store)
    ensures id.None? ==> drawn == |blocks|
    ensures forall i | 0 <= i < drawn - 1 :: CandidateId(blocks[i]) in LiveIds(store)
    ensures id.None? ==> forall i | 0 <= i < |blocks| :: CandidateId(blocks[i]) in LiveIds(store)
  {
    drawn := 0;
    while drawn < |blocks|
      invariant drawn <= |blocks|
      invariant forall i | 0 <= i < drawn :: CandidateId(blocks[i]) in LiveIds(store)
    {
      var candidate := CandidateId(blocks[drawn]);
      drawn := drawn + 1;
      if Lookup(store, candidate).None? {
        return Some(candidate), drawn;
      }
    }
    return None, drawn;
  }

  // ---------------------------------------------------------------------
  // Building the booking and the result
  // ---------------------------------------------------------------------

  /** `CreateBooking`: copy the passengers and the contact into entities and
      set every field through the booking builder. */
  function AssembleBooking(cmd: CreateBookingCommand, f: Flight, id: string, now: DateTime): (b: Booking)
    requires ParseIsoDate(f.flightDate).Some?
    ensures b.bookingId == id && b.bookingDate == now
    ensures b.flightNumber == f.flightNumber && b.origin == f.origin && b.destination == f.destination
    ensures b.flightDate == ParseIsoDate(f.flightDate).value
    ensures b.totalPrice == BookingTotal(f.paxPrices)
    ensures |b.passengers| == |cmd.passengers|
    ensures forall i | 0 <= i < |cmd.passengers| :: SamePassenger(cmd.passengers[i], b.passengers[i])
    ensures b.contact.Some? && SameContact(cmd.contact, b.contact.value)
  {
    var d := BookingBuilder.FlightDetails(f.flightNumber, ParseIsoDate(f.flightDate).value, f.origin, f.destination);
    var ps := ToEntities(cmd.passengers);
    var k := ToContact(cmd.contact);
    var total := BookingTotal(f.paxPrices);
    BookingBuilder.BuildFullChain(id, d, ps, k, now, total);
    BookingBuilder.Build(BookingBuilder.Run(BookingBuilder.New, BookingBuilder.Chain(id, d, ps, k, now, total)))
  }

  /** `CreateResult`: the booking's own fields, with the passengers and the
      contact taken from the command rather than the stored copies. */
  function CreateResult(cmd: CreateBookingCommand, b: Booking): (r: BookingResult)
    ensures r.bookingId == b.bookingId && r.bookingDate == b.bookingDate && r.totalPrice == b.totalPrice
    ensures r.flightNumber == b.flightNumber && r.flightDate == b.flightDate
    ensures r.origin == b.origin && r.destination == b.destination
    ensures r.passengers == cmd.passengers && r.contact == Some(cmd.contact)
  {
    var flight := ResultBuilder.Flight(b.flightNumber, b.flightDate, b.origin, b.destination);
    ResultBuilder.BuildFullChain(b.bookingId, flight, cmd.passengers, cmd.contact, b.bookingDate, b.totalPrice);
    ResultBuilder.Build(ResultBuilder.Run(ResultBuilder.New,
      ResultBuilder.Chain(b.bookingId, flight, cmd.passengers, cmd.contact, b.bookingDate, b.totalPrice)))
  }

  /** Reading a created booking back gives exactly what creation returned. */
  lemma RetrieveMatchesCreate(cmd: CreateBookingCommand, f: Flight, id: string, now: DateTime)
    requires ParseIsoDate(f.flightDate).Some?
    ensures var b := AssembleBooking(cmd, f, id, now);
      RetrieveBooking.BuildResult(b) == Success(CreateResult(cmd, b))
  {
    var b := AssembleBooking(cmd, f, id, now);
    var r := RetrieveBooking.BuildResult(b);
    forall i | 0 <= i < |cmd.passengers| ensures r.value.passengers[i] == cmd.passengers[i] {
      assert SamePassenger(r.value.passengers[i], b.passengers[i]);
    }
    assert r.value.passengers == cmd.passengers;
  }

  // ---------------------------------------------------------------------
  // The handler
  // ---------------------------------------------------------------------

  /** `Handle`. `catalog` is what `GetAvailableFlightsAsync` returned or
      threw; `blocks` are the random draws for the ID. `r` is `None` only
      when the ID loop was still drawing as the draws ran out. `saves`
      counts the `SaveChangesAsync` calls. */
  method Handle(request: Option<CreateBookingCommand>, catalog: Result<seq<Flight>, Error>, store: Store,
                now: DateTime, blocks: seq<Block>)
    returns (r: Option<Result<BookingResult, Error>>, store': Store, saves: nat)
    ensures request.None? ==> r == Some(Failure(ArgumentNull("request")))
    ensures request.Some? && catalog.Failure? ==> r == Some(Failure(catalog.error))
    ensures request.Some? && catalog.Success? && CheckBookingRules(request.value, catalog.value, now).Failure? ==>
      r == Some(Failure(CheckBookingRules(request.value, catalog.value, now).error))
    ensures r.None? ==>
      && request.Some? && catalog.Success? && CheckBookingRules(request.value, catalog.value, now).Success?
      && forall i | 0 <= i < |blocks| :: CandidateId(blocks[i]) in LiveIds(store)
    ensures (r.None? || r.value.Failure?) ==> store' == store && saves == 0
    ensures r.Some? && r.value.Success? ==>
      request.Some? && catalog.Success? && CheckBookingRules(request.value, catalog.value, now).Success?
    ensures r.Some? && r.value.Success? ==>
      var cmd := request.value;
      var f := CheckBookingRules(cmd, catalog.value, now).value;
      var res := r.value.value;
      && IsBookingIdFormat(res.bookingId) && res.bookingId !in LiveIds(store)
      && (exists j | 0 <= j < |blocks| ::
            && res.bookingId == CandidateId(blocks[j])
            && forall i | 0 <= i < j :: CandidateId(blocks[i]) in LiveIds(store))
      && res.flightNumber == f.flightNumber && res.origin == f.origin && res.destination == f.destination
      && ParseIsoDate(f.flightDate) == Some(res.flightDate)
      && res.passengers == cmd.passengers && res.contact == Some(cmd.contact)
      && res.bookingDate == now && res.totalPrice == BookingTotal(f.paxPrices)
    ensures r.Some? && r.value.Success? ==>
      && saves == 1
      && |store'.rows| == |store.rows| + 1 && store'.rows[..|store.rows|] == store.rows
      && store'.rows[|store.rows|] == Row(AssembleBooking(request.value, CheckBookingRules(request.value, catalog.value, now).value, r.value.value.bookingId, now), false)
      && LiveIds(store') == LiveIds(store) + {r.value.value.bookingId}
      && RetrieveBooking.Handle(Some(r.value.value.bookingId), store') == r.value
  {
    if request.None? {
      return Some(Failure(ArgumentNull("request"))), store, 0;
    }
    var cmd := request.value;
    if catalog.Failure? {
      return Some(Failure(catalog.error)), store, 0;
    }
    var checked := CheckBookingRules(cmd, catalog.value, now);
    if checked.Failure? {
      return Some(Failure(checked.error)), store, 0;
    }
    var f := checked.value;
    var id, drawn := GenerateUniqueBookingId(store, blocks);
    if id.None? {
      return None, store, 0;
    }
    var booking := AssembleBooking(cmd, f, id.value, now);
    store' := Add(store, booking);
    saves := 1;
    LookupAfterAdd(store, booking, id.value);
    RetrieveMatchesCreate(cmd, f, id.value, now);
    r := Some(Success(CreateResult(cmd, booking)));
  }
}
