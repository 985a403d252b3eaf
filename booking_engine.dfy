/**
 * The booking engine as a function of the whole hotel state: the rooms,
 * the users and the ledger of bookings. Each operation of the service is a
 * function from the state before to its outcome and the state after.
 */
module BookingEngine {
  import opened Outcomes
  import opened Model
  import opened EntityStore
  import opened BookingLedger

  const CheckInRequired := "checkIn date is required"
  const CheckOutRequired := "checkOut date is required"
  const UserNotFound := "User not found"
  const RoomNotFound := "Room not found"
  const BalanceInsufficient := "User balance is insufficient for this booking"

  /** The state the service holds: rooms and users in insertion order, bookings in creation order. */
  datatype Hotel = Hotel(rooms: seq<RoomRecord>, users: seq<UserRecord>, bookings: seq<Booking>)

  /** What the service keeps true between calls. */
  ghost predicate Valid(h: Hotel) {
    && RoomNumbersUnique(h.rooms)
    && UserIdsUnique(h.users)
    && (forall i :: 0 <= i < |h.rooms| ==> h.rooms[i].number > 0 && h.rooms[i].pricePerNight > 0)
    && (forall i :: 0 <= i < |h.users| ==> h.users[i].id > 0 && h.users[i].balance >= 0)
    && (forall i :: 0 <= i < |h.bookings| ==> BookingWellFormed(h.bookings[i]))
    && NoDoubleBooking(h.bookings)
  }

  /** setRoom: validate, then upsert; a failed call changes nothing. */
  function SetRoom(h: Hotel, roomNumber: int, roomType: Option<RoomType>, pricePerNight: int): Hotel {
    if ValidateRoomInput(roomNumber, roomType, pricePerNight).Pass? then
      h.(rooms := UpsertRoom(h.rooms, roomNumber, roomType.value, pricePerNight))
    else h
  }

  /** setUser: validate, then upsert; a failed call changes nothing. */
  function SetUser(h: Hotel, userId: int, balance: int): Hotel {
    if ValidateUserInput(userId, balance).Pass? then
      h.(users := UpsertUser(h.users, userId, balance))
    else h
  }

  /**
   * bookRoom's decision: the checks run in order and the first that fails
   * decides the error; when all pass, the booking that would be stored.
   */
  function BookRoom(h: Hotel, userId: int, roomNumber: int, checkIn: Option<Day>, checkOut: Option<Day>,
                    createdAt: Timestamp): (r: Result<Booking>)
    ensures r.Ok? ==> r.value.checkInDate < r.value.checkOutDate
    ensures r.Ok? ==> r.value.totalPrice == Nights(r.value.checkInDate, r.value.checkOutDate) * r.value.roomPriceSnapshot
    ensures r.Ok? ==> r.value.totalPrice <= r.value.userBalanceSnapshot
  {
    if checkIn.None? then Err(NullArgument(CheckInRequired))
    else if checkOut.None? then Err(NullArgument(CheckOutRequired))
    else match FindUser(h.users, userId)
      case None => Err(NotFound(UserNotFound))
      case Some(u) =>
        match FindRoom(h.rooms, roomNumber)
        case None => Err(NotFound(RoomNotFound))
        case Some(k) =>
          var user, room := h.users[u], h.rooms[k];
          var dates := ValidateDates(checkIn.value, checkOut.value);
          if dates.Fail? then Err(dates.error)
          else if !Available(h.bookings, roomNumber, checkIn.value, checkOut.value) then
            Err(RoomUnavailable(RoomNotAvailable))
          else
            var totalPrice := Nights(checkIn.value, checkOut.value) * room.pricePerNight;
            if user.balance < totalPrice then Err(InsufficientBalance(BalanceInsufficient))
            else Ok(Booking(room.number, room.roomType, room.pricePerNight, user.id, user.balance,
                            checkIn.value, checkOut.value, totalPrice, createdAt))
  }

  /** The state after bookRoom: on success the user is debited and the booking appended; on failure nothing changes. */
  function Commit(h: Hotel, r: Result<Booking>): Hotel {
    match r
    case Err(_) => h
    case Ok(b) =>
      h.(users := UpsertUser(h.users, b.userIdSnapshot, b.userBalanceSnapshot - b.totalPrice),
         bookings := h.bookings + [b])
  }

  /** A successful commit overwrites the booking user's record where it stands and appends the booking. */
  lemma CommitDebitsInPlace(h: Hotel, b: Booking, k: nat, userId: int, newBalance: int)
    requires FindUser(h.users, userId) == Some(k)
    requires b.userIdSnapshot == userId && b.userBalanceSnapshot - b.totalPrice == newBalance
    ensures Commit(h, Ok(b)) == Hotel(h.rooms, h.users[k := UserRecord(userId, newBalance)], h.bookings + [b])
  {
  }

  /** A call a client of the service makes. */
  datatype Request =
    | SetRoomCall(roomNumber: int, roomType: Option<RoomType>, pricePerNight: int)
    | SetUserCall(userId: int, balance: int)
    | BookRoomCall(userId: int, roomNumber: int, checkIn: Option<Day>, checkOut: Option<Day>, createdAt: Timestamp)

  function Apply(h: Hotel, req: Request): Hotel {
    match req
    case SetRoomCall(n, t, p) => SetRoom(h, n, t, p)
    case SetUserCall(id, b) => SetUser(h, id, b)
    case BookRoomCall(id, n, ci, co, at) => Commit(h, BookRoom(h, id, n, ci, co, at))
  }

  /** The state after a sequence of calls, made one after another. */
  function Run(h: Hotel, reqs: seq<Request>): Hotel
    decreases |reqs|
  {
    if reqs == [] then h else Run(Apply(h, reqs[0]), reqs[1..])
  }

  /** Sum of the users' balances. */
  function TotalBalance(users: seq<UserRecord>): int {
    if users == [] then 0 else users[0].balance + TotalBalance(users[1..])
  }

  /** Sum of the prices of the stored bookings. */
  function Revenue(bookings: seq<Booking>): int {
    if bookings == [] then 0 else bookings[0].totalPrice + Revenue(bookings[1..])
  }

  // ---------------------------------------------------------------------------
  // Properties of bookRoom

  /**
   * The failures come in a fixed order, each condition excluding the earlier
   * ones, and a booking is made exactly when every check passes.
   */
  lemma BookRoomOutcomes(h: Hotel, userId: int, roomNumber: int, checkIn: Option<Day>, checkOut: Option<Day>,
                         createdAt: Timestamp)
    ensures var r := BookRoom(h, userId, roomNumber, checkIn, checkOut, createdAt);
      && (r == Err(NullArgument(CheckInRequired)) <==> checkIn.None?)
      && (r == Err(NullArgument(CheckOutRequired)) <==> checkIn.Some? && checkOut.None?)
      && (r == Err(NotFound(UserNotFound)) <==>
            checkIn.Some? && checkOut.Some? && FindUser(h.users, userId).None?)
      && (r == Err(NotFound(RoomNotFound)) <==>
            checkIn.Some? && checkOut.Some? && FindUser(h.users, userId).Some? && FindRoom(h.rooms, roomNumber).None?)
      && (r == Err(InvalidInput(DatesOutOfOrder)) <==>
            checkIn.Some? && checkOut.Some? && FindUser(h.users, userId).Some? && FindRoom(h.rooms, roomNumber).Some?
            && checkIn.value >= checkOut.value)
      && (r == Err(RoomUnavailable(RoomNotAvailable)) <==>
            checkIn.Some? && checkOut.Some? && FindUser(h.users, userId).Some? && FindRoom(h.rooms, roomNumber).Some?
            && checkIn.value < checkOut.value
            && !Available(h.bookings, roomNumber, checkIn.value, checkOut.value))
      && (r == Err(InsufficientBalance(BalanceInsufficient)) <==>
            checkIn.Some? && checkOut.Some? && FindUser(h.users, userId).Some? && FindRoom(h.rooms, roomNumber).Some?
            && checkIn.value < checkOut.value
            && Available(h.bookings, roomNumber, checkIn.value, checkOut.value)
            && h.users[FindUser(h.users, userId).value].balance <
               Nights(checkIn.value, checkOut.value) * h.rooms[FindRoom(h.rooms, roomNumber).value].pricePerNight)
      && (r.Ok? <==>
            checkIn.Some? && checkOut.Some? && FindUser(h.users, userId).Some? && FindRoom(h.rooms, roomNumber).Some?
            && checkIn.value < checkOut.value
            && Available(h.bookings, roomNumber, checkIn.value, checkOut.value)
            && h.users[FindUser(h.users, userId).value].balance >=
               Nights(checkIn.value, checkOut.value) * h.rooms[FindRoom(h.rooms, roomNumber).value].pricePerNight)
  {
  }

  /** A failed booking leaves the balances and the ledger as they were. */
  lemma BookRoomFailureChangesNothing(h: Hotel, userId: int, roomNumber: int, checkIn: Option<Day>,
                                      checkOut: Option<Day>, createdAt: Timestamp)
    requires BookRoom(h, userId, roomNumber, checkIn, checkOut, createdAt).Err?
    ensures Commit(h, BookRoom(h, userId, roomNumber, checkIn, checkOut, createdAt)) == h
  {
  }

  /**
   * A successful booking snapshots the room and the user as they are, keeps
   * the dates as given, prices nights times the nightly price, debits exactly
   * that price from the user (who stays non-negative), leaves every other
   * user and every room alone and appends exactly one booking.
   */
  lemma BookRoomSuccess(h: Hotel, userId: int, roomNumber: int, checkIn: Option<Day>, checkOut: Option<Day>,
                        createdAt: Timestamp)
    requires BookRoom(h, userId, roomNumber, checkIn, checkOut, createdAt).Ok?
    ensures checkIn.Some? && checkOut.Some?
    ensures FindUser(h.users, userId).Some? && FindRoom(h.rooms, roomNumber).Some?
    ensures
      var b := BookRoom(h, userId, roomNumber, checkIn, checkOut, createdAt).value;
      var h' := Commit(h, Ok(b));
      var u := FindUser(h.users, userId).value;
      var room := h.rooms[FindRoom(h.rooms, roomNumber).value];
      && b.roomNumberSnapshot == room.number == roomNumber
      && b.roomTypeSnapshot == room.roomType
      && b.roomPriceSnapshot == room.pricePerNight
      && b.userIdSnapshot == userId
      && b.userBalanceSnapshot == h.users[u].balance
      && b.checkInDate == checkIn.value && b.checkOutDate == checkOut.value
      && b.createdAt == createdAt
      && Nights(b.checkInDate, b.checkOutDate) >= 1
      && b.totalPrice == Nights(b.checkInDate, b.checkOutDate) * room.pricePerNight
      && h'.rooms == h.rooms
      && h'.bookings == h.bookings + [b]
      && |h'.users| == |h.users|
      && h'.users[u] == UserRecord(userId, h.users[u].balance - b.totalPrice)
      && h'.users[u].balance >= 0
      && (forall j :: 0 <= j < |h.users| && j != u ==> h'.users[j] == h.users[j])
  {
  }

  lemma {:induction false} TotalBalanceUpdate(users: seq<UserRecord>, i: nat, rec: UserRecord)
    requires i < |users|
    ensures TotalBalance(users[i := rec]) == TotalBalance(users) - users[i].balance + rec.balance
  {
    if i > 0 {
      assert users[i := rec][1..] == users[1..][i - 1 := rec];
      TotalBalanceUpdate(users[1..], i - 1, rec);
    } else {
      assert users[i := rec][1..] == users[1..];
    }
  }

  lemma {:induction false} RevenueAppend(bookings: seq<Booking>, b: Booking)
    ensures Revenue(bookings + [b]) == Revenue(bookings) + b.totalPrice
  {
    if bookings != [] {
      assert (bookings + [b])[1..] == bookings[1..] + [b];
      RevenueAppend(bookings[1..], b);
    }
  }

  /** Money is conserved: what leaves the users' balances is exactly what the ledger records as paid. */
  lemma BookRoomConservesMoney(h: Hotel, userId: int, roomNumber: int, checkIn: Option<Day>, checkOut: Option<Day>,
                               createdAt: Timestamp)
    ensures var h' := Commit(h, BookRoom(h, userId, roomNumber, checkIn, checkOut, createdAt));
      TotalBalance(h'.users) + Revenue(h'.bookings) == TotalBalance(h.users) + Revenue(h.bookings)
  {
    var r := BookRoom(h, userId, roomNumber, checkIn, checkOut, createdAt);
    if r.Ok? {
      var b := r.value;
      var u := FindUser(h.users, userId).value;
      assert Commit(h, r).users == h.users[u := UserRecord(userId, b.userBalanceSnapshot - b.totalPrice)];
      TotalBalanceUpdate(h.users, u, UserRecord(userId, b.userBalanceSnapshot - b.totalPrice));
      RevenueAppend(h.bookings, b);
    }
  }

  /** bookRoom keeps the service's invariant, in particular that no room is double booked. */
  lemma BookRoomPreservesValid(h: Hotel, userId: int, roomNumber: int, checkIn: Option<Day>, checkOut: Option<Day>,
                               createdAt: Timestamp)
    requires Valid(h)
    ensures Valid(Commit(h, BookRoom(h, userId, roomNumber, checkIn, checkOut, createdAt)))
  {
    var r := BookRoom(h, userId, roomNumber, checkIn, checkOut, createdAt);
    if r.Ok? {
      var b := r.value;
      var h' := Commit(h, r);
      BookRoomSuccess(h, userId, roomNumber, checkIn, checkOut, createdAt);
      AppendAvailableKeepsNoDoubleBooking(h.bookings, b);
      var u := FindUser(h.users, userId).value;
      forall j | 0 <= j < |h'.users|
        ensures h'.users[j].id > 0 && h'.users[j].balance >= 0
      {
        if j != u {
          assert h'.users[j] == h.users[j];
        }
      }
    }
  }

  // ---------------------------------------------------------------------------
  // Properties of setRoom and setUser

  lemma SetRoomPreservesValid(h: Hotel, roomNumber: int, roomType: Option<RoomType>, pricePerNight: int)
    requires Valid(h)
    ensures Valid(SetRoom(h, roomNumber, roomType, pricePerNight))
  {
    if ValidateRoomInput(roomNumber, roomType, pricePerNight).Pass? {
      var rooms := UpsertRoom(h.rooms, roomNumber, roomType.value, pricePerNight);
      forall j | 0 <= j < |rooms|
        ensures rooms[j].number > 0 && rooms[j].pricePerNight > 0
      {
        if j < |h.rooms| && h.rooms[j].number != roomNumber {
          assert rooms[j] == h.rooms[j];
        } else if j < |h.rooms| {
          assert rooms[j] == RoomRecord(roomNumber, roomType.value, pricePerNight);
        }
      }
    }
  }

  lemma SetUserPreservesValid(h: Hotel, userId: int, balance: int)
    requires Valid(h)
    ensures Valid(SetUser(h, userId, balance))
  {
    if ValidateUserInput(userId, balance).Pass? {
      var users := UpsertUser(h.users, userId, balance);
      forall j | 0 <= j < |users|
        ensures users[j].id > 0 && users[j].balance >= 0
      {
        if j < |h.users| && h.users[j].id != userId {
          assert users[j] == h.users[j];
        } else if j < |h.users| {
          assert users[j] == UserRecord(userId, balance);
        }
      }
    }
  }

  /** Calling setRoom twice with the same arguments gives the state of calling it once. */
  lemma SetRoomIdempotent(h: Hotel, roomNumber: int, roomType: Option<RoomType>, pricePerNight: int)
    ensures var once := SetRoom(h, roomNumber, roomType, pricePerNight);
      SetRoom(once, roomNumber, roomType, pricePerNight) == once
  {
    if ValidateRoomInput(roomNumber, roomType, pricePerNight).Pass? {
      UpsertRoomIdempotent(h.rooms, roomNumber, roomType.value, pricePerNight);
    }
  }

  /** Calling setUser twice with the same arguments gives the state of calling it once. */
  lemma SetUserIdempotent(h: Hotel, userId: int, balance: int)
    ensures var once := SetUser(h, userId, balance);
      SetUser(once, userId, balance) == once
  {
    if ValidateUserInput(userId, balance).Pass? {
      UpsertUserIdempotent(h.users, userId, balance);
    }
  }

  /** A room update changes the live room only: the room is found with its new type and price, the ledger is untouched. */
  lemma SetRoomLeavesBookings(h: Hotel, roomNumber: int, roomType: RoomType, pricePerNight: int)
    requires ValidateRoomInput(roomNumber, Some(roomType), pricePerNight).Pass?
    ensures var h' := SetRoom(h, roomNumber, Some(roomType), pricePerNight);
      && h'.bookings == h.bookings
      && h'.users == h.users
      && FindRoom(h'.rooms, roomNumber).Some?
      && h'.rooms[FindRoom(h'.rooms, roomNumber).value] == RoomRecord(roomNumber, roomType, pricePerNight)
  {
    FindRoomAfterUpsert(h.rooms, roomNumber, roomType, pricePerNight, roomNumber);
  }

  // ---------------------------------------------------------------------------
  // Properties of every sequence of calls

  /** Whatever calls are made, the invariant holds after each of them. */
  lemma {:induction false} RunPreservesValid(h: Hotel, reqs: seq<Request>)
    requires Valid(h)
    ensures Valid(Run(h, reqs))
    decreases |reqs|
  {
    if reqs != [] {
      match reqs[0] {
        case SetRoomCall(n, t, p) => SetRoomPreservesValid(h, n, t, p);
        case SetUserCall(id, b) => SetUserPreservesValid(h, id, b);
        case BookRoomCall(id, n, ci, co, at) => BookRoomPreservesValid(h, id, n, ci, co, at);
      }
      RunPreservesValid(Apply(h, reqs[0]), reqs[1..]);
    }
  }

  /** The ledger only grows at its end: no call changes or removes a booking already made. */
  lemma {:induction false} RunKeepsHistory(h: Hotel, reqs: seq<Request>)
    ensures |h.bookings| <= |Run(h, reqs).bookings|
    ensures Run(h, reqs).bookings[..|h.bookings|] == h.bookings
    decreases |reqs|
  {
    if reqs != [] {
      var h1 := Apply(h, reqs[0]);
      assert h1.bookings[..|h.bookings|] == h.bookings;
      RunKeepsHistory(h1, reqs[1..]);
    }
  }
}
