/** `CreateBookingResultBuilder` and `RetrieveBookingResultBuilder`. The two
    classes have the same fields, setters and `Build`, so one model serves
    both. Each `With*` method is a constructor of `Call`. */
module ResultBuilder {
  import opened Wrappers
  import opened Dates
  import opened Entities
  import opened LastWrite

  datatype Builder = Builder(
    bookingId: string,
    flightNumber: string,
    flightDate: DateTime,
    origin: string,
    destination: string,
    passengers: seq<PassengerCommand>,
    contact: Option<ContactCommand>,
    bookingDate: DateTime,
    totalPrice: real)

  /** A fresh builder: empty strings, no passengers, null contact, default
      dates and a zero total. */
  const New: Builder := Builder("", "", MinValue, "", "", [], None, MinValue, 0.0)

  datatype Flight = Flight(number: string, date: DateTime, origin: string, destination: string)

  datatype Call =
    | WithBookingId(id: string)
    | WithFlight(flight: Flight)
    | WithPassengers(passengers: seq<PassengerCommand>)
    | WithContact(contact: ContactCommand)
    | WithBookingDate(date: DateTime)
    | WithTotalPrice(price: real)

  function Apply(b: Builder, c: Call): Builder {
    match c
    case WithBookingId(id) => b.(bookingId := id)
    case WithFlight(f) =>
      b.(flightNumber := f.number, flightDate := f.date, origin := f.origin, destination := f.destination)
    case WithPassengers(ps) => b.(passengers := ps)
    case WithContact(k) => b.(contact := Some(k))
    case WithBookingDate(t) => b.(bookingDate := t)
    case WithTotalPrice(p) => b.(totalPrice := p)
  }

  function Run(b: Builder, calls: seq<Call>): Builder {
    if |calls| == 0 then b else Apply(Run(b, calls[..|calls| - 1]), calls[|calls| - 1])
  }

  function Build(b: Builder): BookingResult {
    BookingResult(b.bookingId, b.flightNumber, b.flightDate, b.origin, b.destination,
                  b.passengers, b.contact, b.bookingDate, b.totalPrice)
  }

  function PickBookingId(c: Call): Option<string> {
    if c.WithBookingId? then Some(c.id) else None
  }

  function PickFlight(c: Call): Option<Flight> {
    if c.WithFlight? then Some(c.flight) else None
  }

  function PickPassengers(c: Call): Option<seq<PassengerCommand>> {
    if c.WithPassengers? then Some(c.passengers) else None
  }

  function PickContact(c: Call): Option<Option<ContactCommand>> {
    if c.WithContact? then Some(Some(c.contact)) else None
  }

  function PickBookingDate(c: Call): Option<DateTime> {
    if c.WithBookingDate? then Some(c.date) else None
  }

  function PickTotalPrice(c: Call): Option<real> {
    if c.WithTotalPrice? then Some(c.price) else None
  }

  /** Last write wins, field by field; `WithFlight` writes exactly the four
      flight fields, and the passengers and contact are the very values
      supplied. */
  lemma {:induction false} BuildReflectsLastCalls(b: Builder, calls: seq<Call>)
    ensures var r := Build(Run(b, calls));
      && r.bookingId == LastOf(calls, PickBookingId, b.bookingId)
      && Flight(r.flightNumber, r.flightDate, r.origin, r.destination)
         == LastOf(calls, PickFlight, Flight(b.flightNumber, b.flightDate, b.origin, b.destination))
      && r.passengers == LastOf(calls, PickPassengers, b.passengers)
      && r.contact == LastOf(calls, PickContact, b.contact)
      && r.bookingDate == LastOf(calls, PickBookingDate, b.bookingDate)
      && r.totalPrice == LastOf(calls, PickTotalPrice, b.totalPrice)
  {
    if |calls| > 0 {
      BuildReflectsLastCalls(b, calls[..|calls| - 1]);
    }
  }

  /** With no calls at all, `Build` gives the defaults. */
  lemma BuildOfNewBuilder()
    ensures var r := Build(New);
      && r.bookingId == "" && r.flightNumber == "" && r.origin == "" && r.destination == ""
      && r.passengers == [] && r.contact == None && r.totalPrice == 0.0
      && r.flightDate == MinValue && r.bookingDate == MinValue
  {
  }

  /** The chain both handlers use: every setter once, in the handlers' order. */
  function Chain(id: string, f: Flight, ps: seq<PassengerCommand>, k: ContactCommand, bookingDate: DateTime, total: real): seq<Call> {
    [WithBookingId(id), WithFlight(f), WithPassengers(ps), WithContact(k), WithBookingDate(bookingDate), WithTotalPrice(total)]
  }

  /** Building from the full chain yields exactly the supplied values. */
  lemma {:induction false} BuildFullChain(id: string, f: Flight, ps: seq<PassengerCommand>, k: ContactCommand, bookingDate: DateTime, total: real)
    ensures Build(Run(New, Chain(id, f, ps, k, bookingDate, total)))
         == BookingResult(id, f.number, f.date, f.origin, f.destination, ps, Some(k), bookingDate, total)
  {
    var calls := Chain(id, f, ps, k, bookingDate, total);
    assert calls[..0] == [];
    RunStep(New, calls, 0);
    RunStep(New, calls, 1);
    RunStep(New, calls, 2);
    RunStep(New, calls, 3);
    RunStep(New, calls, 4);
    RunStep(New, calls, 5);
    assert calls[..6] == calls;
  }

  lemma RunStep(b: Builder, calls: seq<Call>, i: nat)
    requires i < |calls|
    ensures Run(b, calls[..i + 1]) == Apply(Run(b, calls[..i]), calls[i])
  {
    assert calls[..i + 1][..i] == calls[..i];
  }
}
