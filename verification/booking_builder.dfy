/** `BookingBuilder`. The builder is a record of pending field values; each
    `With*` method is a constructor of `Call`, and a fluent chain
    `new BookingBuilder().WithA(..).WithB(..)` is `Run(New, [WithA(..), WithB(..)])`. */
module BookingBuilder {
  import opened Wrappers
  import opened Dates
  import opened Entities
  import opened LastWrite

  datatype Builder = Builder(
    bookingId: string,
    flightNumber: string,
    flightDate: DateTime,
    origin: string,
    destination: string,
    passengers: seq<Passenger>,
    contact: Option<Contact>,
    bookingDate: DateTime,
    totalPrice: real)

  /** A fresh builder: empty strings, no passengers, null contact, default
      dates and a zero price. */
  const New: Builder := Builder("", "", MinValue, "", "", [], None, MinValue, 0.0)

  datatype FlightDetails = FlightDetails(flightNumber: string, date: DateTime, origin: string, destination: string)

  datatype Call =
    | WithBookingId(id: string)
    | WithFlightDetails(details: FlightDetails)
    | WithPassengers(passengers: seq<Passenger>)
    | WithContact(contact: Contact)
    | WithBookingDate(date: DateTime)
    | WithTotalPrice(price: real)

  /** One setter call: it overwrites the fields it is about. */
  function Apply(b: Builder, c: Call): Builder {
    match c
    case WithBookingId(id) => b.(bookingId := id)
    case WithFlightDetails(d) =>
      b.(flightNumber := d.flightNumber, flightDate := d.date, origin := d.origin, destination := d.destination)
    case WithPassengers(ps) => b.(passengers := ps)
    case WithContact(k) => b.(contact := Some(k))
    case WithBookingDate(t) => b.(bookingDate := t)
    case WithTotalPrice(p) => b.(totalPrice := p)
  }

  /** A chain of setter calls, applied left to right. */
  function Run(b: Builder, calls: seq<Call>): Builder {
    if |calls| == 0 then b else Apply(Run(b, calls[..|calls| - 1]), calls[|calls| - 1])
  }

  /** `Build`: the booking carries the pending values; its passenger list
      receives the pending passengers one by one, in order. */
  function Build(b: Builder): Booking {
    Booking(b.bookingId, b.flightNumber, b.flightDate, b.origin, b.destination,
            b.bookingDate, b.totalPrice, b.passengers, b.contact)
  }

  function PickBookingId(c: Call): Option<string> {
    if c.WithBookingId? then Some(c.id) else None
  }

  function PickFlightDetails(c: Call): Option<FlightDetails> {
    if c.WithFlightDetails? then Some(c.details) else None
  }

  function PickPassengers(c: Call): Option<seq<Passenger>> {
    if c.WithPassengers? then Some(c.passengers) else None
  }

  function PickContact(c: Call): Option<Option<Contact>> {
    if c.WithContact? then Some(Some(c.contact)) else None
  }

  function PickBookingDate(c: Call): Option<DateTime> {
    if c.WithBookingDate? then Some(c.date) else None
  }

  function PickTotalPrice(c: Call): Option<real> {
    if c.WithTotalPrice? then Some(c.price) else None
  }

  /** Last write wins, field by field: after any chain of calls, each field
      of the built booking holds the argument of the last call that writes
      it, or the builder's earlier value when no call in the chain does.
      A call therefore never disturbs a field it is not about. */
  lemma {:induction false} BuildReflectsLastCalls(b: Builder, calls: seq<Call>)
    ensures var bk := Build(Run(b, calls));
      && bk.bookingId == LastOf(calls, PickBookingId, b.bookingId)
      && FlightDetails(bk.flightNumber, bk.flightDate, bk.origin, bk.destination)
         == LastOf(calls, PickFlightDetails, FlightDetails(b.flightNumber, b.flightDate, b.origin, b.destination))
      && bk.passengers == LastOf(calls, PickPassengers, b.passengers)
      && bk.contact == LastOf(calls, PickContact, b.contact)
      && bk.bookingDate == LastOf(calls, PickBookingDate, b.bookingDate)
      && bk.totalPrice == LastOf(calls, PickTotalPrice, b.totalPrice)
  {
    if |calls| > 0 {
      BuildReflectsLastCalls(b, calls[..|calls| - 1]);
    }
  }

  /** With no calls at all, `Build` gives the defaults. */
  lemma BuildOfNewBuilder()
    ensures var bk := Build(New);
      && bk.bookingId == "" && bk.flightNumber == "" && bk.origin == "" && bk.destination == ""
      && bk.passengers == [] && bk.contact == None && bk.totalPrice == 0.0
      && bk.flightDate == MinValue && bk.bookingDate == MinValue
  {
  }

  /** The chain `CreateBooking` uses: every setter once, in its order. */
  function Chain(id: string, d: FlightDetails, ps: seq<Passenger>, k: Contact, bookingDate: DateTime, total: real): seq<Call> {
    [WithBookingId(id), WithFlightDetails(d), WithPassengers(ps), WithContact(k), WithBookingDate(bookingDate), WithTotalPrice(total)]
  }

  /** Building from the full chain yields exactly the supplied values. */
  lemma {:induction false} BuildFullChain(id: string, d: FlightDetails, ps: seq<Passenger>, k: Contact, bookingDate: DateTime, total: real)
    ensures Build(Run(New, Chain(id, d, ps, k, bookingDate, total)))
         == Booking(id, d.flightNumber, d.date, d.origin, d.destination, bookingDate, total, ps, Some(k))
  {
    var calls := Chain(id, d, ps, k, bookingDate, total);
    assert calls[..0] == [];
    RunStep(New, calls, 0);
    RunStep(New, calls, 1);
    RunStep(New, calls, 2);
    RunStep(New, calls, 3);
    RunStep(New, calls, 4);
    RunStep(New, calls, 5);
    assert calls[..6] == calls;
  }

  lemma RunStep(b: Builder, calls: seq<Call>, i: nat)
    requires i < |calls|
    ensures Run(b, calls[..i + 1]) == Apply(Run(b, calls[..i]), calls[i])
  {
    assert calls[..i + 1][..i] == calls[..i];
  }
}
