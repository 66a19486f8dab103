/** The booking repository, reduced to what the handlers observe: a list of
    booking rows, each possibly soft-deleted. `GetByBookingIdAsync` sees only
    rows that are not deleted; `AddAsync` followed by `SaveChangesAsync`
    appends one live row. */
module BookingStore {
  import opened Wrappers
  import opened Errors
  import opened Entities

  datatype Row = Row(booking: Booking, isDeleted: bool)

  datatype Store = Store(rows: seq<Row>)

  /** The IDs a lookup can find. */
  function LiveIds(s: Store): set<string> {
    set i | 0 <= i < |s.rows| && !s.rows[i].isDeleted :: s.rows[i].booking.bookingId
  }

  /** Index of the first live row carrying `id`. */
  function FindLive(rows: seq<Row>, id: string): (r: Option<nat>)
    ensures r.Some? ==> r.value < |rows| && !rows[r.value].isDeleted && rows[r.value].booking.bookingId == id
    ensures r.Some? ==> forall j | 0 <= j < r.value :: rows[j].isDeleted || rows[j].booking.bookingId != id
    ensures r.None? ==> forall j | 0 <= j < |rows| :: rows[j].isDeleted || rows[j].booking.bookingId != id
  {
    if |rows| == 0 then None
    else if !rows[0].isDeleted && rows[0].booking.bookingId == id then Some(0)
    else match FindLive(rows[1..], id)
      case Some(k) => Some(k + 1)
      case None => None
  }

  /** The query of `GetByBookingIdAsync`: `Where(!IsDeleted)` then
      `FirstOrDefault(BookingId == id)`. */
  function Lookup(s: Store, id: string): (r: Option<Booking>)
    ensures r.Some? <==> id in LiveIds(s)
    ensures r.Some? ==> r.value.bookingId == id
    ensures r.Some? ==> exists k | 0 <= k < |s.rows| ::
      && !s.rows[k].isDeleted && s.rows[k].booking == r.value
      && forall j | 0 <= j < k :: s.rows[j].isDeleted || s.rows[j].booking.bookingId != id
  {
    match FindLive(s.rows, id)
    case Some(k) => Some(s.rows[k].booking)
    case None => None
  }

  /** `GetByBookingIdAsync`: an empty ID is rejected by `ThrowIfNullOrEmpty`
      before the query runs. */
  function GetByBookingId(s: Store, id: string): (r: Result<Option<Booking>, Error>)
    ensures id == "" <==> r.Failure?
    ensures r.Failure? ==> r.error == Argument("bookingId")
    ensures r.Success? ==> r.value == Lookup(s, id)
  {
    if id == "" then Failure(Argument("bookingId")) else Success(Lookup(s, id))
  }

  /** `AddAsync` then `SaveChangesAsync`: one new live row at the end. */
  function Add(s: Store, b: Booking): (s': Store)
    ensures |s'.rows| == |s.rows| + 1 && s'.rows[..|s.rows|] == s.rows
    ensures s'.rows[|s.rows|] == Row(b, false)
  {
    Store(s.rows + [Row(b, false)])
  }

  /** Adding a booking whose ID is not live makes it the one a lookup of that
      ID finds, and leaves every other lookup as it was. */
  lemma {:induction false} LookupAfterAdd(s: Store, b: Booking, id: string)
    ensures id == b.bookingId && id !in LiveIds(s) ==> Lookup(Add(s, b), id) == Some(b)
    ensures id != b.bookingId ==> Lookup(Add(s, b), id) == Lookup(s, id)
    ensures LiveIds(Add(s, b)) == LiveIds(s) + {b.bookingId}
  {
    FindLiveAppend(s.rows, Row(b, false), id);
    var s' := Add(s, b);
    forall x | x in LiveIds(s')
      ensures x in LiveIds(s) + {b.bookingId}
    {
      var i :| 0 <= i < |s'.rows| && !s'.rows[i].isDeleted && s'.rows[i].booking.bookingId == x;
      if i < |s.rows| {
        assert s.rows[i] == s'.rows[i];
      }
    }
    forall x | x in LiveIds(s)
      ensures x in LiveIds(s')
    {
      var i :| 0 <= i < |s.rows| && !s.rows[i].isDeleted && s.rows[i].booking.bookingId == x;
      assert s'.rows[i] == s.rows[i];
    }
    assert s'.rows[|s.rows|] == Row(b, false);
  }

  lemma {:induction false} FindLiveAppend(rows: seq<Row>, row: Row, id: string)
    ensures FindLive(rows, id).Some? ==> FindLive(rows + [row], id) == FindLive(rows, id)
    ensures FindLive(rows, id).None? ==>
      FindLive(rows + [row], id) == (if !row.isDeleted && row.booking.bookingId == id then Some(|rows|) else None)
  {
    if |rows| > 0 {
      assert (rows + [row])[1..] == rows[1..] + [row];
      FindLiveAppend(rows[1..], row, id);
    } else {
      assert rows + [row] == [row];
    }
  }
}
