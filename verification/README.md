# Flight booking core in Dafny

A model of the application core of a small flight search and booking API,
with proofs about it. The core is:

- **Flight search** (`SearchFlightQueryHandler`): fetch the flight catalog
  through the retrying gateway, keep the flights whose origin, destination
  and date match the query, price each one for the requested party, and
  return the cheapest. Ties go to the flight listed first.
- **Booking creation** (`CreateBookingCommandHandler`): find the flight by
  key and check the booking rules. The flight must not be in the past, the
  party must include an adult (`ADT`), and every adult must be at least 16
  by year arithmetic. Then draw a `BK` + four-character ID that no live
  booking uses, build the booking, save it, and echo the result.
- **Booking retrieval** (`RetrieveBookingQueryHandler`): look up a live
  booking by ID and copy it into the result record.
- **The retry gateway** (`ApiGateway.ExecuteAsync`): at most three runs.
  The transient codes 408, 503 and 504 are retried after 300·k ms; any other
  failure is rethrown at once.
- **Helpers**: `StringHelper.RandomString`, `EnumExtensions.GetCode` and
  `FromCode` over `PaxType`, and the three fluent builders. The two
  result builders have the same fields and are one module.

Exceptions are the `Failure` case of a `Result`. A null reference is an
`Option`. Decimal prices are `real`: exact, with no rounding and no overflow.
These are inputs rather than effects:

- the clock (`now`)
- the flight list the client returns
- the outcome of each gateway run
- the random bytes behind a booking ID

The repository is a list of rows carrying a soft-delete flag.

One property of the C# handlers is kept and proved rather than changed. The two
handlers price a party differently:

- Search ranks flights by the quantity-weighted fare.
- Booking charges the plain sum of the flight's listed prices.

`CreateBooking.SearchFareAndBookingTotalDiverge` shows a party on which the
two disagree. `CreateBooking.BookingTotalIsFareOfOneOfEach` proves where
they agree.

Modules, one per file:

| file | module |
|---|---|
| wrappers.dfy | Wrappers |
| errors.dfy | Errors |
| dates.dfy | Dates |
| ordinal.dfy | Ordinal |
| pax_types.dfy | PaxTypes |
| string_helper.dfy | StringHelper |
| api_gateway.dfy | ApiGateway |
| flight_search.dfy | FlightCatalog, FlightSearch |
| entities.dfy | Entities |
| last_write.dfy | LastWrite |
| booking_builder.dfy | BookingBuilder |
| result_builder.dfy | ResultBuilder |
| booking_store.dfy | BookingStore |
| retrieve_booking.dfy | RetrieveBooking |
| create_booking.dfy | CreateBooking |

## Model

| member | source | states |
|---|---|---|
| ApiGateway.Execute | FlightBooking.ExternalApis/Gateway/ApiGateway.cs:27-63 | A null action fails with ArgumentNull before any run. Otherwise the action runs 1 to 3 times, and every run before the last failed with a retryable status. The last run's value is returned and its exception rethrown, unchanged. A retryable failure ends the loop only on the third run. The wait before retry k is 300·k ms. |
| ApiGateway.DelaysAreBounded | FlightBooking.ExternalApis/Gateway/ApiGateway.cs:16-17 | Any delay schedule the gateway produces waits at most 900 ms in total. |
| ApiGateway.TwoTransientFailuresThenSuccess | FlightBooking.ExternalApis/Gateway/ApiGateway.cs:44-55 | Two ServiceUnavailable failures followed by a value: the value is returned after three runs and waits of 300 and 600 ms. |
| ApiGateway.RetryableCodes | FlightBooking.ExternalApis/Gateway/ApiGateway.cs:19-24 | An error is retried exactly when it is an external-API error with status 408, 503 or 504. |
| ApiGateway.ExternalApiWithoutStatusIsNotRetryable | FlightBooking.Application/Exceptions/ExternalApiException.cs:18-55 | An ExternalApiException built without a status code is never retried. |
| Errors.ExternalApiWithoutStatus | FlightBooking.Application/Exceptions/ExternalApiException.cs:18-39 | Such an exception carries the default status code and the given message. |
| Dates.ParseFormatRoundTrip | FlightBooking.Application/Features/Flight/Queries/Search/SearchFlightQueryHandler.cs:73 | Every valid calendar date printed as yyyy-MM-dd parses back to midnight of that date. |
| Dates.FormatParseRoundTrip | FlightBooking.Application/Features/Flight/Queries/Search/SearchFlightQueryHandler.cs:73 | Text that parses is exactly the printed form of the date it parses to, so parsing is injective. |
| Dates.ParseIsoDate | FlightBooking.Application/Features/Flight/Queries/Search/SearchFlightQueryHandler.cs:73 | A parsed text is a valid calendar date at midnight. Every valid date's printed form parses, and only printed forms parse (ParseFormatRoundTrip, FormatParseRoundTrip). |
| Dates.BeforeStartOfDayIsEarlierDate | FlightBooking.Application/Features/Booking/Commands/Create/CreateBookingCommandHandler.cs:104 | An instant is earlier than the start of today exactly when its calendar date is earlier than today's. |
| Dates.StartOfDay | FlightBooking.Application/Features/Booking/Commands/Create/CreateBookingCommandHandler.cs:104 | The start of a day keeps the date, and no instant of that date is earlier: it is that day's midnight. |
| Ordinal.FoldCase | FlightBooking.Application/Features/Flight/Queries/Search/SearchFlightQueryHandler.cs:71-72 | A folded character is never a lower-case ASCII letter, and folding changes only lower-case letters, each to its upper-case partner. |
| Ordinal.EqualsIgnoreCaseIsEquivalence | FlightBooking.Application/Features/Flight/Queries/Search/SearchFlightQueryHandler.cs:71-72 | Comparison ignoring case is reflexive, symmetric and transitive. |
| Ordinal.EqualsIgnoreCaseExamples | FlightBooking.Application/Features/Flight/Queries/Search/SearchFlightQueryHandler.cs:71-72 | "bcn" equals "BCN" and "Par" equals "pAR" ignoring case; "BCN" equals neither "MAD" nor "BCNX". |
| PaxTypes.GetCode | FlightBooking.Application/Extensions/EnumExtensions.cs:20-29 | The code is the member's Description attribute, or its name when it has none. |
| PaxTypes.FromCode | FlightBooking.Application/Extensions/EnumExtensions.cs:37-52 | A member is returned only if its Description equals the code exactly. Null is returned only if no member's Description does. |
| PaxTypes.GetCodeTable | FlightBooking.Domain/Enums/PaxType.cs:17-24 | Adult has code ADT and Child has code CHD. |
| PaxTypes.FromCodeGetCode | FlightBooking.Application/Extensions/EnumExtensions.cs:20-52 | FromCode inverts GetCode on every member. |
| PaxTypes.GetCodeFromCode | FlightBooking.Application/Extensions/EnumExtensions.cs:20-52 | GetCode inverts FromCode on every code FromCode accepts. |
| PaxTypes.FromCodeAcceptsExactlyTheCodes | FlightBooking.Application/Extensions/EnumExtensions.cs:42-45 | FromCode accepts exactly ADT and CHD. The match is case-sensitive and never by member name. |
| StringHelper.RandomString | FlightBooking.Application/Helpers/StringHelper.cs:17-24 | One character per random byte, each drawn from A-Z0-9. |
| StringHelper.RandomStringIsPointwise | FlightBooking.Application/Helpers/StringHelper.cs:23 | Each character depends only on its own byte, as the byte modulo 36 indexed into the alphabet. |
| StringHelper.RandomStringIsOnto | FlightBooking.Application/Helpers/StringHelper.cs:22-23 | Every string over the alphabet is produced by some byte sequence. |
| StringHelper.EveryCharacterReachable | FlightBooking.Application/Helpers/StringHelper.cs:22-23 | Every alphabet character is produced by some single byte. |
| FlightSearch.FilterMatching | FlightBooking.Application/Features/Flight/Queries/Search/SearchFlightQueryHandler.cs:67-75 | The kept flights are exactly the catalog flights that match the query. |
| FlightSearch.Matches | FlightBooking.Application/Features/Flight/Queries/Search/SearchFlightQueryHandler.cs:70-73 | The Where predicate: origin equal ignoring case, destination equal ignoring case unless the query's is null or empty, and a flight date that parses to the query's calendar date (DestinationFilter, UnparseableDateNeverMatches). |
| FlightSearch.FilterMatchingDistributes | FlightBooking.Application/Features/Flight/Queries/Search/SearchFlightQueryHandler.cs:67-75 | Filtering a concatenated catalog is filtering each part, in order. |
| FlightSearch.DestinationFilter | FlightBooking.Application/Features/Flight/Queries/Search/SearchFlightQueryHandler.cs:72 | With a null or empty destination, whether a flight matches does not depend on its destination at all. Otherwise a match has that destination, ignoring case. |
| FlightSearch.UnparseableDateNeverMatches | FlightBooking.Application/Features/Flight/Queries/Search/SearchFlightQueryHandler.cs:73 | A flight whose date does not parse never matches. |
| FlightSearch.FirstPriceIndex | FlightBooking.Application/Features/Flight/Queries/Search/SearchFlightQueryHandler.cs:99-102 | Finds the first price entry of a passenger type, or reports that there is none. |
| FlightSearch.PaxFare | FlightBooking.Application/Features/Flight/Queries/Search/SearchFlightQueryHandler.cs:99-102 | The first listed price of the requested type times the quantity, or 0 when the type is not listed (PaxFareCases). |
| FlightSearch.WeightedFare | FlightBooking.Application/Features/Flight/Queries/Search/SearchFlightQueryHandler.cs:96-103 | The sum of the per-type fares over the requested party. It is additive over the party (WeightedFareAdditive) and ignores duplicate price entries (DuplicatePricesIgnored). |
| FlightSearch.PaxFareCases | FlightBooking.Application/Features/Flight/Queries/Search/SearchFlightQueryHandler.cs:98-102 | A requested type costs zero when unlisted. Otherwise it costs its first listed price times the quantity. |
| FlightSearch.WeightedFareAdditive | FlightBooking.Application/Features/Flight/Queries/Search/SearchFlightQueryHandler.cs:96-103 | The fare of a concatenated party is the sum of the fares of its parts. |
| FlightSearch.DuplicatePricesIgnored | FlightBooking.Application/Features/Flight/Queries/Search/SearchFlightQueryHandler.cs:99-102 | Appending price entries for types already listed does not change any fare. |
| FlightSearch.CheapestIndex | FlightBooking.Application/Features/Flight/Queries/Search/SearchFlightQueryHandler.cs:83-88 | Selects a flight with the lowest fare; every earlier flight is strictly dearer. |
| FlightSearch.EarliestCheapestMatchIsUnique | FlightBooking.Application/Features/Flight/Queries/Search/SearchFlightQueryHandler.cs:83-88 | At most one catalog position is the earliest cheapest match. |
| FlightSearch.CheapestOfFilteredIsEarliestCheapestMatch | FlightBooking.Application/Features/Flight/Queries/Search/SearchFlightQueryHandler.cs:49-56 | The cheapest of the filtered list is the earliest cheapest matching flight of the whole catalog. |
| FlightSearch.CheapestMatchPosition | FlightBooking.Application/Features/Flight/Queries/Search/SearchFlightQueryHandler.cs:49-56 | Names the catalog position of the selected flight: it matches, no matching flight is cheaper, and every earlier matching flight is strictly dearer. |
| FlightSearch.ToSearchResult | FlightBooking.Application/Features/Flight/Queries/Search/SearchFlightQueryHandler.cs:110-113 | The result carries the flight's key, number, route, parsed date and unscaled prices. |
| FlightSearch.SearchCatalog | FlightBooking.Application/Features/Flight/Queries/Search/SearchFlightQueryHandler.cs:49-58 | Filter, fail with "No matching flights found." on an empty match, else map the stable minimum by weighted fare. SearchCatalogSelectsEarliestCheapest proves that this is the earliest cheapest match. |
| FlightSearch.SearchCatalogSelectsEarliestCheapest | FlightBooking.Application/Features/Flight/Queries/Search/SearchFlightQueryHandler.cs:49-58 | Fails with "No matching flights found." exactly when nothing matches. Otherwise returns the earliest cheapest match. |
| FlightSearch.Search | FlightBooking.Application/Features/Flight/Queries/Search/SearchFlightQueryHandler.cs:42-59 | A null request fails with ArgumentNull. Otherwise a fetched catalog goes through the selection, and a fetch exception propagates. The fetch runs 1 to 3 times, and every run before the last failed retryably. There is one wait fewer than runs, the wait before retry k is 300·k ms, and the total wait is at most 900 ms. |
| Entities.ToEntities | FlightBooking.Application/Features/Booking/Commands/Create/CreateBookingCommandHandler.cs:137-139 | One passenger entity per command, in order, with the same fields. |
| Entities.ToCommands | FlightBooking.Application/Features/Booking/Commands/Retrieve/RetrieveBookingQueryHandler.cs:59-60 | One passenger command per entity, in order, with the same fields. |
| Entities.ToContact | FlightBooking.Application/Features/Booking/Commands/Create/CreateBookingCommandHandler.cs:141-146 | The contact entity copies the three contact fields. |
| Entities.ToContactCommand | FlightBooking.Application/Features/Booking/Commands/Retrieve/RetrieveBookingQueryHandler.cs:62-67 | The contact command copies the three contact fields. |
| BookingBuilder.BuildReflectsLastCalls | FlightBooking.Application/Builders/BookingBuilder.cs:14-120 | After any chain of calls, each field holds the argument of the last call that sets it, or its earlier value. |
| BookingBuilder.BuildOfNewBuilder | FlightBooking.Application/Builders/BookingBuilder.cs:14-22 | A fresh builder builds empty strings, default dates, a zero price, no passengers and a null contact. |
| BookingBuilder.BuildFullChain | FlightBooking.Application/Builders/BookingBuilder.cs:29-120 | Calling every setter once builds a booking with exactly the supplied values. |
| BookingBuilder.Apply | FlightBooking.Application/Builders/BookingBuilder.cs:29-94 | One setter call overwrites exactly its own fields (BuildReflectsLastCalls). |
| BookingBuilder.Run | FlightBooking.Application/Features/Booking/Commands/Create/CreateBookingCommandHandler.cs:148-155 | A fluent chain applies its calls left to right, so the last write of each field wins (BuildReflectsLastCalls, BuildFullChain). |
| BookingBuilder.Build | FlightBooking.Application/Builders/BookingBuilder.cs:100-120 | The booking takes every pending value, and its passenger list receives the pending passengers in order (BuildFullChain). |
| ResultBuilder.BuildReflectsLastCalls | FlightBooking.Application/Builders/CreateBookingResultBuilder.cs:15-115 | After any chain of calls, each result field holds the argument of the last call that sets it, or its earlier value. |
| ResultBuilder.BuildOfNewBuilder | FlightBooking.Application/Builders/RetrieveBookingResultBuilder.cs:15-23 | A fresh result builder builds empty strings, default dates, a zero price, no passengers and a null contact. |
| ResultBuilder.BuildFullChain | FlightBooking.Application/Builders/RetrieveBookingResultBuilder.cs:30-115 | Calling every setter once builds a result with exactly the supplied values. |
| ResultBuilder.Apply | FlightBooking.Application/Builders/CreateBookingResultBuilder.cs:30-95 | One setter call overwrites exactly its own fields (BuildReflectsLastCalls). |
| ResultBuilder.Run | FlightBooking.Application/Features/Booking/Commands/Create/CreateBookingCommandHandler.cs:69-76 | A fluent chain applies its calls left to right, so the last write of each field wins (BuildReflectsLastCalls, BuildFullChain). |
| ResultBuilder.Build | FlightBooking.Application/Builders/RetrieveBookingResultBuilder.cs:101-115 | The result takes every pending value (BuildFullChain). |
| BookingStore.Lookup | FlightBooking.Persistance/Repositories/BookingRepository.cs:34-39 | Finds a booking exactly when a live row carries the ID. What it finds is the booking stored in the first live row with that ID. |
| BookingStore.FindLive | FlightBooking.Persistance/Repositories/BookingRepository.cs:34-38 | The position of the first non-deleted row carrying the ID, with no earlier live row carrying it; none when no live row does. |
| BookingStore.GetByBookingId | FlightBooking.Persistance/Repositories/BookingRepository.cs:30-40 | An empty ID fails with an argument error; any other ID is looked up. |
| BookingStore.Add | FlightBooking.Application/Features/Booking/Commands/Create/CreateBookingCommandHandler.cs:59-60 | Adding and saving appends one live row holding the booking and leaves every earlier row as it was. |
| BookingStore.LookupAfterAdd | FlightBooking.Application/Features/Booking/Commands/Create/CreateBookingCommandHandler.cs:59-60 | Saving a booking under an unused ID makes lookups of that ID find it. Every other lookup is unchanged, and the live IDs grow by exactly that ID. |
| RetrieveBooking.BuildResult | FlightBooking.Application/Features/Booking/Commands/Retrieve/RetrieveBookingQueryHandler.cs:57-77 | A booking without a contact fails with a null reference. Otherwise the result copies every booking field, passengers and contact included. |
| RetrieveBooking.Handle | FlightBooking.Application/Features/Booking/Commands/Retrieve/RetrieveBookingQueryHandler.cs:35-50 | A null request gives ArgumentNull and an empty ID gives an argument error. An ID with no live booking gives "Booking with ID '…' not found."; a live one gives that booking's result. |
| CreateBooking.AdultCodeIsAdultsCode | FlightBooking.Application/Features/Booking/Commands/Create/CreateBookingCommandHandler.cs:87 | The hard-coded "ADT" is the code of PaxType.Adult. |
| CreateBooking.FindFlight | FlightBooking.Application/Features/Booking/Commands/Create/CreateBookingCommandHandler.cs:186-188 | The position of the first flight whose key equals the requested key exactly; none when no flight has it. |
| CreateBooking.GetFlight | FlightBooking.Application/Features/Booking/Commands/Create/CreateBookingCommandHandler.cs:184-189 | Returns the first flight with exactly the requested key, or "Selected flight does not exist." when there is none. |
| CreateBooking.ValidateFlightNotInPast | FlightBooking.Application/Features/Booking/Commands/Create/CreateBookingCommandHandler.cs:102-108 | Text that does not parse is a format error. Otherwise the booking is refused exactly when the flight's date is before today's, so today's flights pass. |
| CreateBooking.AnyAdult | FlightBooking.Application/Features/Booking/Commands/Create/CreateBookingCommandHandler.cs:116 | True exactly when some passenger has type ADT. |
| CreateBooking.IsUnderageAdult | FlightBooking.Application/Features/Booking/Commands/Create/CreateBookingCommandHandler.cs:87-91 | A passenger is refused as an adult when the type is exactly ADT and the current year minus the birth year is under 16. Month and day are ignored (ValidateAdultAge, FirstUnderageAdult). |
| CreateBooking.ValidateAtLeastOneAdult | FlightBooking.Application/Features/Booking/Commands/Create/CreateBookingCommandHandler.cs:114-120 | Passes exactly when some passenger has type ADT; otherwise fails with the no-adult message. |
| CreateBooking.FirstUnderageAdult | FlightBooking.Application/Features/Booking/Commands/Create/CreateBookingCommandHandler.cs:87-91 | Finds the first ADT passenger whose year difference is under 16, or reports that there is none. |
| CreateBooking.ValidateAdultAge | FlightBooking.Application/Features/Booking/Commands/Create/CreateBookingCommandHandler.cs:83-96 | Passes exactly when every ADT passenger is 16 or more by year difference. Otherwise the error names the first underage adult, and children are never checked. |
| CreateBooking.CheckBookingRules | FlightBooking.Application/Features/Booking/Commands/Create/CreateBookingCommandHandler.cs:51-55 | The checks run in source order and the first failure is the result. Success means all four hold: the flight exists, it is not in the past, an adult travels, and no adult is underage. |
| CreateBooking.BookingTotalAdditive | FlightBooking.Application/Features/Booking/Commands/Create/CreateBookingCommandHandler.cs:127-130 | The total of a concatenated price list is the sum of the parts' totals. |
| CreateBooking.BookingTotal | FlightBooking.Application/Features/Booking/Commands/Create/CreateBookingCommandHandler.cs:127-130 | The sum of every listed price, each once. It is additive (BookingTotalAdditive) and equals the search fare of one passenger per listed type (BookingTotalIsFareOfOneOfEach). |
| CreateBooking.BookingTotalIgnoresParty | FlightBooking.Application/Features/Booking/Commands/Create/CreateBookingCommandHandler.cs:134 | The booking total does not depend on who travels. |
| CreateBooking.BookingTotalIsFareOfOneOfEach | FlightBooking.Application/Features/Booking/Commands/Create/CreateBookingCommandHandler.cs:127-130 | With distinct listed types, the total equals the search fare of one passenger per listed type. |
| CreateBooking.SearchFareAndBookingTotalDiverge | FlightBooking.Application/Features/Booking/Commands/Create/CreateBookingCommandHandler.cs:127-130 | Two adults on a flight listing one adult price of 100: search ranks by 200, booking charges 100. |
| CreateBooking.CandidateId | FlightBooking.Application/Features/Booking/Commands/Create/CreateBookingCommandHandler.cs:171 | Every candidate is BK followed by four alphabet characters. |
| CreateBooking.EveryIdFormatIsDrawable | FlightBooking.Application/Features/Booking/Commands/Create/CreateBookingCommandHandler.cs:171 | Every ID of that format is some draw's candidate. |
| CreateBooking.GenerateUniqueBookingId | FlightBooking.Application/Features/Booking/Commands/Create/CreateBookingCommandHandler.cs:163-176 | Returns the first drawn candidate that no live booking uses. Every earlier candidate was taken, and the random input runs out only if all candidates were taken. |
| CreateBooking.AssembleBooking | FlightBooking.Application/Features/Booking/Commands/Create/CreateBookingCommandHandler.cs:132-156 | The booking carries the ID, the flight's number and route, its parsed date, the clock's instant, and the sum of the listed prices. It copies the passengers in order and the contact. |
| CreateBooking.CreateResult | FlightBooking.Application/Features/Booking/Commands/Create/CreateBookingCommandHandler.cs:67-77 | The result echoes the booking's fields with the command's own passengers and contact. |
| CreateBooking.RetrieveMatchesCreate | FlightBooking.Application/Features/Booking/Commands/Retrieve/RetrieveBookingQueryHandler.cs:57-77 | Retrieving a booking built by creation gives the result creation returned. |
| CreateBooking.Handle | FlightBooking.Application/Features/Booking/Commands/Create/CreateBookingCommandHandler.cs:45-64 | A null request fails first, then catalog errors, then rule errors, each with nothing saved. On success exactly one booking is saved. Its BK ID is the first drawn candidate that no live booking uses, and it carries the echoed fields and the sum price. Retrieving that ID from the new store returns the same result. |

## Left out

- Logging, operation names and the awaits themselves. None of them changes a result.
- Cancellation is not modelled. A cancelled token makes the repository query, `AddAsync` or `SaveChangesAsync` throw `OperationCanceledException`, which aborts the handler.
- The HTTP layer, request validators, dependency injection and the object mapper. The mapper's copy of a flight into the search result is `FlightSearch.ToSearchResult`.
- Null fields inside a request are not modelled; only a null request is. This covers a null origin, passenger list or contact, and a null booking ID in a retrieve query.
- `DateTime.Parse`/`TryParse`: only the `yyyy-MM-dd` form is parsed. Any other text counts as unparseable. The invariant culture accepts more forms, times of day included.
- `StringComparison.OrdinalIgnoreCase`: folds ASCII letters only.
- The clock: each handler reads one instant `now`. The C# handler reads `DateTime.UtcNow` separately for the date check, the age check and the booking date.
- CreateBooking.GenerateUniqueBookingId: the random source is a finite list of draws. When every draw collides, the result is "still drawing" (`None`), where the C# loop would keep drawing.
- CreateBooking.Handle: the same partial view. `r == None` is the run that has not finished within the supplied draws.
- The unique database index on the booking ID is not modelled. It also covers soft-deleted rows, so it can reject a save that the live-row lookup allowed. The race between the ID check and the insert is concurrency and is also left out.
- Audit columns and surrogate keys of the entities are not modelled. Neither is the order in which EF Core loads passengers.
- Decimal overflow in the price sums: `real` is unbounded.
- Decimal rounding: C# `decimal` keeps 28 to 29 significant digits and rounds past that. `real` never rounds, so sums and products of very long prices may differ.
- The flight client's file and HTTP I/O: its answer, or its exception, is an input.
