/** `RetrieveBookingQueryHandler`: look a booking up by its business ID and
    copy it into a result record. */
module RetrieveBooking {
  import opened Wrappers
  import opened Errors
  import opened Entities
  import opened BookingStore
  import ResultBuilder

  function NotFoundMessage(id: string): string {
    "Booking with ID '" + id + "' not found."
  }

  /** `BuildResult`: passengers and contact are copied into command records,
      then every field goes through the result builder. A booking without a
      contact makes the contact copy dereference null. */
  function BuildResult(b: Booking): (r: Result<BookingResult, Error>)
    ensures r.Failure? <==> b.contact.None?
    ensures r.Failure? ==> r.error == NullReference("Contact")
    ensures r.Success? ==>
      && r.value.bookingId == b.bookingId
      && r.value.flightNumber == b.flightNumber && r.value.flightDate == b.flightDate
      && r.value.origin == b.origin && r.value.destination == b.destination
      && r.value.bookingDate == b.bookingDate && r.value.totalPrice == b.totalPrice
    ensures r.Success? ==>
      && |r.value.passengers| == |b.passengers|
      && (forall i | 0 <= i < |b.passengers| :: SamePassenger(r.value.passengers[i], b.passengers[i]))
      && r.value.contact.Some? && SameContact(r.value.contact.value, b.contact.value)
  {
    match b.contact
    case None => Failure(NullReference("Contact"))
    case Some(k) =>
      var flight := ResultBuilder.Flight(b.flightNumber, b.flightDate, b.origin, b.destination);
      var calls := ResultBuilder.Chain(b.bookingId, flight, ToCommands(b.passengers), ToContactCommand(k), b.bookingDate, b.totalPrice);
      ResultBuilder.BuildFullChain(b.bookingId, flight, ToCommands(b.passengers), ToContactCommand(k), b.bookingDate, b.totalPrice);
      Success(ResultBuilder.Build(ResultBuilder.Run(ResultBuilder.New, calls)))
  }

  /** `Handle`. The request is the booking ID, or null. */
  function Handle(request: Option<string>, store: Store): (r: Result<BookingResult, Error>)
    ensures request.None? ==> r == Failure(ArgumentNull("request"))
    ensures request == Some("") ==> r == Failure(Argument("bookingId"))
    ensures request.Some? && request.value != "" && request.value !in LiveIds(store) ==>
      r == Failure(NotFound(NotFoundMessage(request.value)))
    ensures request.Some? && request.value != "" && request.value in LiveIds(store) ==>
      && Lookup(store, request.value).Some?
      && r == BuildResult(Lookup(store, request.value).value)
      && (r.Success? ==> r.value.bookingId == request.value)
  {
    match request
    case None => Failure(ArgumentNull("request"))
    case Some(id) =>
      match GetByBookingId(store, id)
      case Failure(e) => Failure(e)
      case Success(None) => Failure(NotFound(NotFoundMessage(id)))
      case Success(Some(b)) => BuildResult(b)
  }
}
