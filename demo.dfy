/**
 * The demonstration run of the application's driver, replayed on the
 * booking engine: three rooms, two users, five booking attempts and a final
 * update of room 1. Dates are epoch day numbers (2026-06-30 is day 20634).
 */
module Demo {
  import opened Outcomes
  import opened Model
  import opened EntityStore
  import opened BookingLedger
  import opened BookingEngine

  const June30: Day := 20634
  const July7: Day := June30 + 7
  const July8: Day := June30 + 8
  const July9: Day := June30 + 9

  const Seeded := Hotel([RoomRecord(1, Standard, 1000), RoomRecord(2, JuniorSuite, 2000), RoomRecord(3, MasterSuite, 3000)],
                        [UserRecord(1, 5000), UserRecord(2, 10000)], [])

  /** The first booking the driver makes, and the state after it. */
  const FirstBooking := Booking(1, Standard, 1000, 1, 5000, July7, July8, 1000, 3)
  const AfterFirst := Hotel(Seeded.rooms, [UserRecord(1, 4000), UserRecord(2, 10000)], [FirstBooking])

  /** The driver's three setRoom and two setUser calls, on an empty service. */
  lemma DriverSetup()
    ensures
      var h := SetRoom(Hotel([], [], []), 1, Some(Standard), 1000);
      var h := SetRoom(h, 2, Some(JuniorSuite), 2000);
      var h := SetRoom(h, 3, Some(MasterSuite), 3000);
      var h := SetUser(h, 1, 5000);
      SetUser(h, 2, 10000) == Seeded
  {
  }

  /** Seven nights of room 2 cost 14000, more than user 1 has; reversed dates are refused before pricing. */
  lemma DriverRefusedAttempts()
    ensures BookRoom(Seeded, 1, 2, Some(June30), Some(July7), 1) == Err(InsufficientBalance(BalanceInsufficient))
    ensures BookRoom(Seeded, 1, 2, Some(July7), Some(June30), 2) == Err(InvalidInput(DatesOutOfOrder))
  {
    assert FindUser(Seeded.users, 1) == Some(0);
    assert FindRoom(Seeded.rooms, 2) == Some(1);
  }

  /** One night of room 1 for user 1 succeeds, costs 1000 and leaves the user 4000. */
  lemma DriverFirstBooking()
    ensures BookRoom(Seeded, 1, 1, Some(July7), Some(July8), 3) == Ok(FirstBooking)
    ensures Commit(Seeded, Ok(FirstBooking)) == AfterFirst
  {
    assert FindUser(Seeded.users, 1) == Some(0);
    assert FindRoom(Seeded.rooms, 1) == Some(0);
  }

  /** The booking user 2 makes of room 3, and the state after it. */
  const SecondBooking := Booking(3, MasterSuite, 3000, 2, 10000, July7, July8, 3000, 5)
  const AfterSecond := Hotel(Seeded.rooms, [UserRecord(1, 4000), UserRecord(2, 7000)], [FirstBooking, SecondBooking])

  /**
   * User 2 cannot take room 1 for nights that include July 7 (a refused call
   * leaves the state as it was) but can book room 3, which leaves user 2 with
   * 7000.
   */
  lemma DriverLaterAttempts()
    ensures BookRoom(AfterFirst, 2, 1, Some(July7), Some(July9), 4) == Err(RoomUnavailable(RoomNotAvailable))
    ensures BookRoom(AfterFirst, 2, 3, Some(July7), Some(July8), 5) == Ok(SecondBooking)
    ensures Commit(AfterFirst, Ok(SecondBooking)) == AfterSecond
  {
    assert FindUser(AfterFirst.users, 2) == Some(1);
    assert FindRoom(AfterFirst.rooms, 1) == Some(0);
    assert FindRoom(AfterFirst.rooms, 3) == Some(2);
    assert DatesOverlap(July7, July9, AfterFirst.bookings[0].checkInDate, AfterFirst.bookings[0].checkOutDate);
  }

  /**
   * The driver's last call turns room 1 into a master suite at 10000; both
   * bookings keep the room and user snapshots they were made with.
   */
  lemma DriverFinalUpdate()
    ensures
      var h := SetRoom(AfterSecond, 1, Some(MasterSuite), 10000);
      && h.rooms == [RoomRecord(1, MasterSuite, 10000), RoomRecord(2, JuniorSuite, 2000), RoomRecord(3, MasterSuite, 3000)]
      && h.users == [UserRecord(1, 4000), UserRecord(2, 7000)]
      && h.bookings == [FirstBooking, SecondBooking]
  {
    assert FindRoom(AfterSecond.rooms, 1) == Some(0);
  }
}
