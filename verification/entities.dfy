/** Booking data: the command records a caller supplies (`PassengerCommand`,
    `ContactCommand`), the persisted entities (`Passenger`, `Contact`,
    `Booking`) and the result record both booking handlers return
    (`CreateBookingResult`, `RetrieveBookingResult`, which have the same
    fields). Audit columns and surrogate keys of the entities are left out. */
module Entities {
  import opened Wrappers
  import opened Dates

  datatype PassengerCommand = PassengerCommand(paxType: string, firstName: string, lastName: string, birthDate: DateTime)

  datatype ContactCommand = ContactCommand(firstName: string, lastName: string, email: string)

  datatype Passenger = Passenger(paxType: string, firstName: string, lastName: string, birthDate: DateTime)

  datatype Contact = Contact(firstName: string, lastName: string, email: string)

  /** `Booking`; `contact` is null until a builder sets it. */
  datatype Booking = Booking(
    bookingId: string,
    flightNumber: string,
    flightDate: DateTime,
    origin: string,
    destination: string,
    bookingDate: DateTime,
    totalPrice: real,
    passengers: seq<Passenger>,
    contact: Option<Contact>)

  datatype BookingResult = BookingResult(
    bookingId: string,
    flightNumber: string,
    flightDate: DateTime,
    origin: string,
    destination: string,
    passengers: seq<PassengerCommand>,
    contact: Option<ContactCommand>,
    bookingDate: DateTime,
    totalPrice: real)

  /** Same type, names and birth date: the per-passenger copy both handlers
      make between the command and the entity shape. */
  predicate SamePassenger(c: PassengerCommand, p: Passenger) {
    c.paxType == p.paxType && c.firstName == p.firstName && c.lastName == p.lastName && c.birthDate == p.birthDate
  }

  predicate SameContact(c: ContactCommand, k: Contact) {
    c.firstName == k.firstName && c.lastName == k.lastName && c.email == k.email
  }

  /** The `Select` in `CreateBooking`: one entity per command, in order. */
  function ToEntities(ps: seq<PassengerCommand>): (r: seq<Passenger>)
    ensures |r| == |ps|
    ensures forall i | 0 <= i < |ps| :: SamePassenger(ps[i], r[i])
  {
    seq(|ps|, i requires 0 <= i < |ps| => Passenger(ps[i].paxType, ps[i].firstName, ps[i].lastName, ps[i].birthDate))
  }

  /** The `Select` in `BuildResult`: one command record per entity, in order. */
  function ToCommands(ps: seq<Passenger>): (r: seq<PassengerCommand>)
    ensures |r| == |ps|
    ensures forall i | 0 <= i < |ps| :: SamePassenger(r[i], ps[i])
  {
    seq(|ps|, i requires 0 <= i < |ps| => PassengerCommand(ps[i].paxType, ps[i].firstName, ps[i].lastName, ps[i].birthDate))
  }

  function ToContact(c: ContactCommand): (k: Contact)
    ensures SameContact(c, k)
  {
    Contact(c.firstName, c.lastName, c.email)
  }

  function ToContactCommand(k: Contact): (c: ContactCommand)
    ensures SameContact(c, k)
  {
    ContactCommand(k.firstName, k.lastName, k.email)
  }

  /** Persisting then reading back loses nothing: the two copies are
      inverse to each other. */
  lemma PassengerCopiesRoundTrip(ps: seq<PassengerCommand>, k: ContactCommand)
    ensures ToCommands(ToEntities(ps)) == ps
    ensures ToContactCommand(ToContact(k)) == k
  {
  }
}
