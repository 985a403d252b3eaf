/**
 * The booking ledger: stays are half-open ranges of days [checkIn, checkOut),
 * and a room may be booked for a range only if no stored booking of that
 * room overlaps it.
 */
module BookingLedger {
  import opened Outcomes
  import opened Model

  const DatesOutOfOrder := "Check-in date must be before check-out date"
  const RoomNotAvailable := "Room is not available for the selected dates"

  /** The night starting on `day` belongs to the stay [checkIn, checkOut). */
  predicate Occupies(checkIn: Day, checkOut: Day, day: Day) {
    checkIn <= day < checkOut
  }

  /** The overlap test of the source for the half-open ranges of a new and an existing stay. */
  predicate DatesOverlap(newCheckIn: Day, newCheckOut: Day, existingCheckIn: Day, existingCheckOut: Day) {
    newCheckIn < existingCheckOut && newCheckOut > existingCheckIn
  }

  /** The number of nights from check-in to check-out (the days between the two dates). */
  function Nights(checkIn: Day, checkOut: Day): int {
    checkOut - checkIn
  }

  /** Check-in must come strictly before check-out: a stay has at least one night. */
  function ValidateDates(checkIn: Day, checkOut: Day): (r: Outcome)
    ensures r.Pass? <==> Nights(checkIn, checkOut) >= 1
    ensures r.Fail? ==> r == Fail(InvalidInput(DatesOutOfOrder))
  {
    if checkIn < checkOut then Pass else Fail(InvalidInput(DatesOutOfOrder))
  }

  lemma DatesOverlapSymmetric(a1: Day, a2: Day, b1: Day, b2: Day)
    ensures DatesOverlap(a1, a2, b1, b2) == DatesOverlap(b1, b2, a1, a2)
  {
  }

  /** A stay that ends on the day another begins does not overlap it, in either order. */
  lemma AdjacentStaysDoNotOverlap(a1: Day, boundary: Day, b2: Day)
    ensures !DatesOverlap(a1, boundary, boundary, b2)
    ensures !DatesOverlap(boundary, b2, a1, boundary)
  {
  }

  /** For stays of at least one night, the overlap test holds exactly when some night belongs to both. */
  lemma OverlapIffSharedNight(a1: Day, a2: Day, b1: Day, b2: Day)
    requires a1 < a2 && b1 < b2
    ensures DatesOverlap(a1, a2, b1, b2) <==> exists d :: Occupies(a1, a2, d) && Occupies(b1, b2, d)
  {
    if DatesOverlap(a1, a2, b1, b2) {
      var d := if a1 < b1 then b1 else a1;
      assert Occupies(a1, a2, d) && Occupies(b1, b2, d);
    }
  }

  /**
   * The nights a stay occupies: the reference definition `Nights` is
   * measured against. The explicit range lets Dafny see that the set is
   * finite; the `Occupies` conjunct, which says the same, gives the
   * comprehension a trigger.
   */
  function StayNights(checkIn: Day, checkOut: Day): set<Day> {
    set d | checkIn <= d < checkOut && Occupies(checkIn, checkOut, d)
  }

  /** `Nights` counts the nights a stay occupies. */
  lemma {:induction false} NightsCountsOccupiedNights(checkIn: Day, checkOut: Day)
    requires checkIn <= checkOut
    ensures |StayNights(checkIn, checkOut)| == Nights(checkIn, checkOut)
    decreases checkOut - checkIn
  {
    if checkIn < checkOut {
      NightsCountsOccupiedNights(checkIn, checkOut - 1);
      assert StayNights(checkIn, checkOut) == StayNights(checkIn, checkOut - 1) + {checkOut - 1};
    } else {
      assert StayNights(checkIn, checkOut) == {};
    }
  }

  /** No stored booking of this room overlaps the stay [checkIn, checkOut). */
  predicate Available(bookings: seq<Booking>, roomNumber: int, checkIn: Day, checkOut: Day) {
    forall i :: 0 <= i < |bookings| && bookings[i].roomNumberSnapshot == roomNumber ==>
      !DatesOverlap(checkIn, checkOut, bookings[i].checkInDate, bookings[i].checkOutDate)
  }

  /** A booking as the engine creates one: at least one night, priced per night, paid from the balance it records. */
  predicate BookingWellFormed(b: Booking) {
    && b.checkInDate < b.checkOutDate
    && b.roomPriceSnapshot > 0
    && b.totalPrice == Nights(b.checkInDate, b.checkOutDate) * b.roomPriceSnapshot
    && b.totalPrice <= b.userBalanceSnapshot
  }

  /** No two stored bookings of the same room overlap. */
  ghost predicate NoDoubleBooking(bookings: seq<Booking>) {
    forall i, j :: 0 <= i < j < |bookings| && bookings[i].roomNumberSnapshot == bookings[j].roomNumberSnapshot ==>
      !DatesOverlap(bookings[i].checkInDate, bookings[i].checkOutDate, bookings[j].checkInDate, bookings[j].checkOutDate)
  }

  /** For well-formed stays, availability means no booking of the room shares a night with the new stay. */
  lemma AvailableIffNoSharedNight(bookings: seq<Booking>, roomNumber: int, checkIn: Day, checkOut: Day)
    requires checkIn < checkOut
    requires forall i :: 0 <= i < |bookings| ==> BookingWellFormed(bookings[i])
    ensures Available(bookings, roomNumber, checkIn, checkOut) <==>
      forall i, d :: 0 <= i < |bookings| && bookings[i].roomNumberSnapshot == roomNumber ==>
        !(Occupies(checkIn, checkOut, d) && Occupies(bookings[i].checkInDate, bookings[i].checkOutDate, d))
  {
    forall i | 0 <= i < |bookings|
      ensures DatesOverlap(checkIn, checkOut, bookings[i].checkInDate, bookings[i].checkOutDate) <==>
        exists d :: Occupies(checkIn, checkOut, d) && Occupies(bookings[i].checkInDate, bookings[i].checkOutDate, d)
    {
      OverlapIffSharedNight(checkIn, checkOut, bookings[i].checkInDate, bookings[i].checkOutDate);
    }
  }

  /** Appending a booking for a range that was available keeps the ledger free of double bookings. */
  lemma AppendAvailableKeepsNoDoubleBooking(bookings: seq<Booking>, b: Booking)
    requires NoDoubleBooking(bookings)
    requires Available(bookings, b.roomNumberSnapshot, b.checkInDate, b.checkOutDate)
    ensures NoDoubleBooking(bookings + [b])
  {
    var all := bookings + [b];
    forall i, j | 0 <= i < j < |all| && all[i].roomNumberSnapshot == all[j].roomNumberSnapshot
      ensures !DatesOverlap(all[i].checkInDate, all[i].checkOutDate, all[j].checkInDate, all[j].checkOutDate)
    {
      if j == |bookings| {
        DatesOverlapSymmetric(all[i].checkInDate, all[i].checkOutDate, b.checkInDate, b.checkOutDate);
      }
    }
  }

  /** In a ledger without double bookings, no night of a room is sold twice. */
  lemma NoNightSoldTwice(bookings: seq<Booking>, i: nat, j: nat, day: Day)
    requires NoDoubleBooking(bookings)
    requires i < |bookings| && j < |bookings| && i != j
    requires bookings[i].roomNumberSnapshot == bookings[j].roomNumberSnapshot
    ensures !(Occupies(bookings[i].checkInDate, bookings[i].checkOutDate, day) &&
              Occupies(bookings[j].checkInDate, bookings[j].checkOutDate, day))
  {
    if i < j {
      assert !DatesOverlap(bookings[i].checkInDate, bookings[i].checkOutDate, bookings[j].checkInDate, bookings[j].checkOutDate);
    } else {
      assert !DatesOverlap(bookings[j].checkInDate, bookings[j].checkOutDate, bookings[i].checkInDate, bookings[i].checkOutDate);
    }
  }
}
