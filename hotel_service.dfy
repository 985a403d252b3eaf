/**
 * The service itself: lists of live Room and User objects and the list of
 * bookings, updated in place. Each method is proved against the booking
 * engine's functions on the value view of this state.
 */
module HotelService {
  import opened Outcomes
  import opened Model
  import opened EntityStore
  import opened BookingLedger
  import BookingEngine

  class Service {
    var rooms: seq<Room>
    var users: seq<User>
    var bookings: seq<Booking>

    ghost function RoomObjects(): set<Room>
      reads this`rooms
    {
      set r | r in rooms
    }

    ghost function UserObjects(): set<User>
      reads this`users
    {
      set u | u in users
    }

    /** The values the live rooms hold, in list order. */
    ghost function RoomsView(): (v: seq<RoomRecord>)
      reads this`rooms, RoomObjects()
      ensures |v| == |rooms|
      ensures forall i :: 0 <= i < |rooms| ==>
        v[i] == RoomRecord(rooms[i].roomNumber, rooms[i].roomType, rooms[i].pricePerNight)
    {
      var rs := rooms;
      seq(|rs|, i requires 0 <= i < |rs| reads rs =>
        RoomRecord(rs[i].roomNumber, rs[i].roomType, rs[i].pricePerNight))
    }

    /** The values the live users hold, in list order. */
    ghost function UsersView(): (v: seq<UserRecord>)
      reads this`users, UserObjects()
      ensures |v| == |users|
      ensures forall i :: 0 <= i < |users| ==> v[i] == UserRecord(users[i].userId, users[i].balance)
    {
      var us := users;
      seq(|us|, i requires 0 <= i < |us| reads us => UserRecord(us[i].userId, us[i].balance))
    }

    ghost function View(): BookingEngine.Hotel
      reads this, RoomObjects(), UserObjects()
    {
      BookingEngine.Hotel(RoomsView(), UsersView(), bookings)
    }

    ghost predicate Valid()
      reads this, RoomObjects(), UserObjects()
    {
      BookingEngine.Valid(View())
    }

    constructor ()
      ensures Valid()
      ensures View() == BookingEngine.Hotel([], [], [])
    {
      rooms := [];
      users := [];
      bookings := [];
    }

    /** findRoom: the first room in the list with this number, or null. */
    method FindRoom(roomNumber: int) returns (room: Room?)
      ensures match EntityStore.FindRoom(RoomsView(), roomNumber)
        case None => room == null
        case Some(i) => room == rooms[i]
    {
      var i := 0;
      while i < |rooms|
        invariant 0 <= i <= |rooms|
        invariant forall j :: 0 <= j < i ==> rooms[j].roomNumber != roomNumber
      {
        if rooms[i].roomNumber == roomNumber {
          return rooms[i];
        }
        i := i + 1;
      }
      return null;
    }

    /** findUser: the first user in the list with this id, or null. */
    method FindUser(userId: int) returns (user: User?)
      ensures match EntityStore.FindUser(UsersView(), userId)
        case None => user == null
        case Some(i) => user == users[i]
    {
      var i := 0;
      while i < |users|
        invariant 0 <= i <= |users|
        invariant forall j :: 0 <= j < i ==> users[j].userId != userId
      {
        if users[i].userId == userId {
          return users[i];
        }
        i := i + 1;
      }
      return null;
    }

    /** findRoomOrThrow: the room with this number, or NotFound. */
    method FindRoomOrThrow(roomNumber: int) returns (r: Result<Room>)
      ensures match EntityStore.FindRoom(RoomsView(), roomNumber)
        case None => r == Err(NotFound(BookingEngine.RoomNotFound))
        case Some(i) => r == Ok(rooms[i])
    {
      var room := FindRoom(roomNumber);
      if room == null {
        return Err(NotFound(BookingEngine.RoomNotFound));
      }
      return Ok(room);
    }

    /** findUserOrThrow: the user with this id, or NotFound. */
    method FindUserOrThrow(userId: int) returns (r: Result<User>)
      ensures match EntityStore.FindUser(UsersView(), userId)
        case None => r == Err(NotFound(BookingEngine.UserNotFound))
        case Some(i) => r == Ok(users[i])
    {
      var user := FindUser(userId);
      if user == null {
        return Err(NotFound(BookingEngine.UserNotFound));
      }
      return Ok(user);
    }

    /** ensureRoomAvailability: RoomUnavailable as soon as a booking of this room overlaps the stay. */
    method EnsureRoomAvailability(roomNumber: int, checkIn: Day, checkOut: Day) returns (outcome: Outcome)
      ensures outcome == if Available(bookings, roomNumber, checkIn, checkOut) then Pass
                         else Fail(RoomUnavailable(RoomNotAvailable))
    {
      for i := 0 to |bookings|
        invariant forall j :: 0 <= j < i && bookings[j].roomNumberSnapshot == roomNumber ==>
          !DatesOverlap(checkIn, checkOut, bookings[j].checkInDate, bookings[j].checkOutDate)
      {
        var booking := bookings[i];
        if booking.roomNumberSnapshot != roomNumber {
          continue;
        }
        if DatesOverlap(checkIn, checkOut, booking.checkInDate, booking.checkOutDate) {
          return Fail(RoomUnavailable(RoomNotAvailable));
        }
      }
      return Pass;
    }

    /** user.setBalance on the k-th listed user: in the view, that user's record alone changes. */
    method SetBalance(user: User, ghost k: nat, balance: int)
      requires k < |users| && users[k] == user
      requires UserIdsUnique(UsersView())
      modifies user
      ensures UsersView() == old(UsersView())[k := UserRecord(user.userId, balance)]
    {
      ghost var before := UsersView();
      user.balance := balance;
      forall j | 0 <= j < |users|
        ensures UsersView()[j] == before[k := UserRecord(user.userId, balance)][j]
      {
        if j != k {
          assert before[j].id != before[k].id;
        }
      }
    }

    /** setRoom: validate, then overwrite the room with this number in place or append a new one. */
    method SetRoom(roomNumber: int, roomType: Option<RoomType>, pricePerNight: int) returns (outcome: Outcome)
      requires Valid()
      modifies this`rooms, RoomObjects()
      ensures Valid()
      ensures outcome == ValidateRoomInput(roomNumber, roomType, pricePerNight)
      ensures View() == BookingEngine.SetRoom(old(View()), roomNumber, roomType, pricePerNight)
      ensures users == old(users) && bookings == old(bookings)
    {
      ghost var h := View();
      outcome := ValidateRoomInput(roomNumber, roomType, pricePerNight);
      if outcome.Fail? {
        return;
      }
      var room := FindRoom(roomNumber);
      if room == null {
        var created := new Room(roomNumber, roomType.value, pricePerNight);
        rooms := rooms + [created];
        assert RoomsView() == h.rooms + [RoomRecord(roomNumber, roomType.value, pricePerNight)];
      } else {
        ghost var k := EntityStore.FindRoom(h.rooms, roomNumber).value;
        room.roomType := roomType.value;
        room.pricePerNight := pricePerNight;
        forall j | 0 <= j < |rooms| && j != k
          ensures rooms[j] != room
        {
          assert h.rooms[j].number != h.rooms[k].number;
        }
        assert RoomsView() == h.rooms[k := RoomRecord(roomNumber, roomType.value, pricePerNight)];
      }
      assert UsersView() == h.users;
      BookingEngine.SetRoomPreservesValid(h, roomNumber, roomType, pricePerNight);
    }

    /** setUser: validate, then overwrite the balance of the user with this id or append a new user. */
    method SetUser(userId: int, balance: int) returns (outcome: Outcome)
      requires Valid()
      modifies this`users, UserObjects()
      ensures Valid()
      ensures outcome == ValidateUserInput(userId, balance)
      ensures View() == BookingEngine.SetUser(old(View()), userId, balance)
      ensures rooms == old(rooms) && bookings == old(bookings)
    {
      ghost var h := View();
      outcome := ValidateUserInput(userId, balance);
      if outcome.Fail? {
        return;
      }
      var user := FindUser(userId);
      if user == null {
        var created := new User(userId, balance);
        users := users + [created];
        assert UsersView() == h.users + [UserRecord(userId, balance)];
      } else {
        ghost var k := EntityStore.FindUser(h.users, userId).value;
        SetBalance(user, k, balance);
      }
      assert RoomsView() == h.rooms;
      BookingEngine.SetUserPreservesValid(h, userId, balance);
    }

    /**
     * The commit of bookRoom, once every check has passed: record the
     * balance, debit the user, then append a booking that copies the room's
     * and the user's fields by value.
     */
    method Commit(user: User, ghost k: nat, room: Room, checkInDate: Day, checkOutDate: Day, totalPrice: int,
                  createdAt: Timestamp) returns (booking: Booking)
      requires k < |users| && users[k] == user
      requires EntityStore.FindUser(UsersView(), user.userId) == Some(k)
      requires UserIdsUnique(UsersView())
      modifies this`bookings, user
      ensures booking == Booking(room.roomNumber, room.roomType, room.pricePerNight, user.userId,
                                 old(user.balance), checkInDate, checkOutDate, totalPrice, createdAt)
      ensures View() == BookingEngine.Commit(old(View()), Ok(booking))
      ensures rooms == old(rooms) && users == old(users)
    {
      ghost var h := View();
      var userBalanceSnapshot := user.balance;
      SetBalance(user, k, userBalanceSnapshot - totalPrice);
      booking := Booking(room.roomNumber, room.roomType, room.pricePerNight, user.userId,
                         userBalanceSnapshot, checkInDate, checkOutDate, totalPrice, createdAt);
      bookings := bookings + [booking];
      BookingEngine.CommitDebitsInPlace(h, booking, k, user.userId, userBalanceSnapshot - totalPrice);
      assert RoomsView() == h.rooms;
    }

    /**
     * bookRoom: run the checks in order; when all pass, debit the user and
     * append a booking that copies the room and the user by value.
     */
    method BookRoom(userId: int, roomNumber: int, checkIn: Option<Day>, checkOut: Option<Day>,
                    createdAt: Timestamp) returns (r: Result<Booking>)
      requires Valid()
      modifies this`bookings, UserObjects()
      ensures Valid()
      ensures r == BookingEngine.BookRoom(old(View()), userId, roomNumber, checkIn, checkOut, createdAt)
      ensures View() == BookingEngine.Commit(old(View()), r)
      ensures rooms == old(rooms) && users == old(users)
    {
      ghost var h := View();
      if checkIn.None? {
        return Err(NullArgument(BookingEngine.CheckInRequired));
      }
      if checkOut.None? {
        return Err(NullArgument(BookingEngine.CheckOutRequired));
      }
      var foundUser := FindUserOrThrow(userId);
      assert View() == h;
      if foundUser.Err? {
        return Err(foundUser.error);
      }
      var user := foundUser.value;
      ghost var k := EntityStore.FindUser(h.users, userId).value;
      assert user == users[k] && h.users[k] == UserRecord(user.userId, user.balance);
      assert user.userId == userId;
      var foundRoom := FindRoomOrThrow(roomNumber);
      assert View() == h;
      if foundRoom.Err? {
        return Err(foundRoom.error);
      }
      var room := foundRoom.value;
      ghost var q := EntityStore.FindRoom(h.rooms, roomNumber).value;
      assert room == rooms[q] && h.rooms[q] == RoomRecord(room.roomNumber, room.roomType, room.pricePerNight);
      var checkInDate, checkOutDate := checkIn.value, checkOut.value;
      var dates := ValidateDates(checkInDate, checkOutDate);
      if dates.Fail? {
        return Err(dates.error);
      }
      var availability := EnsureRoomAvailability(roomNumber, checkInDate, checkOutDate);
      assert View() == h;
      if availability.Fail? {
        return Err(availability.error);
      }
      var nights := Nights(checkInDate, checkOutDate);
      var totalPrice := nights * room.pricePerNight;
      if user.balance < totalPrice {
        return Err(InsufficientBalance(BookingEngine.BalanceInsufficient));
      }
      var booking := Commit(user, k, room, checkInDate, checkOutDate, totalPrice, createdAt);
      r := Ok(booking);
      BookingEngine.BookRoomPreservesValid(h, userId, roomNumber, checkIn, checkOut, createdAt);
    }
  }
}
