# Hotel reservation service — a verified model

The hotel service keeps three lists in memory:
- rooms, each with a number, a type (standard, junior suite, master suite) and a nightly price;
- users, each with an id and a balance;
- bookings.

`setRoom` and `setUser` validate their arguments. They then update the room or user with that key in place, or append a new one. `bookRoom` makes its checks in a fixed order:
1. both dates present;
2. the user exists;
3. the room exists;
4. check-in before check-out;
5. no stored booking of the room overlaps the half-open range `[checkIn, checkOut)`;
6. the balance covers nights × price.

When every check passes, `bookRoom` debits the user and appends a `Booking`. The booking copies the room's and the user's fields by value, so later updates to the room or the user do not change it.

The model has these modules:

- `Outcomes`: `Option`, `Result` and `Outcome`, plus the error kinds. The error kinds are the service's four exception classes and `NullArgument`, which stands for the `NullPointerException` that `Objects.requireNonNull` throws. `bookRoom` checks both dates with `Objects.requireNonNull` (Service.java:37-38), so a missing date fails with `NullArgument` and the message passed there, not with `InvalidInput`.
- `Model`: the `Room` and `User` classes, whose fields the service updates in place. `RoomType`. `Booking` is an immutable datatype: all its fields are final in the source, and its destructors are the getters.
- `EntityStore`: the room and user lists as values. It holds first-match lookup, the input validation of `setRoom`/`setUser`, and upsert.
- `BookingLedger`: dates as day numbers, the overlap test, availability, and the ledger invariant that no room is double booked. `StayNights`, the set of nights a stay occupies, is the reference definition that the night count and the overlap test are measured against.
- `BookingEngine`: the whole service state as a value. `SetRoom`, `SetUser` and `BookRoom` are functions on that state. `Commit` gives the state after a booking. It also proves the properties of `bookRoom`, and proves that every sequence of calls keeps the invariant.
- `HotelService`: the service as a class holding lists of live `Room`/`User` objects. Its methods contain the source's loops and in-place updates. `SetRoom`, `SetUser`, `Commit` and `BookRoom` are proved equal to the `BookingEngine` functions on the value view of the state. The lookups are proved equal to `EntityStore`'s first-match search, the availability scan to `BookingLedger.Available`, and `SetBalance` to an update of one record in the user list.
- `JavaInt`: `bookRoom`'s pricing in Java's wrapping 32-bit `int` (see Findings).
- `Demo`: the driver program's scenario replayed on the engine, call by call and in order, from the empty service to its final state.

## Model

| member | source | states |
|---|---|---|
| EntityStore.FindRoom | src/main/java/com/skypay/hotel/service/Service.java:171-178 | The index of the first room with the number, or None exactly when no room has it |
| EntityStore.FindUser | src/main/java/com/skypay/hotel/service/Service.java:188-195 | The index of the first user with the id, or None exactly when no user has it |
| EntityStore.ValidateRoomInput | src/main/java/com/skypay/hotel/service/Service.java:132-142 | Passes iff number > 0, type present and price > 0. Each failure is InvalidInput, and its message names the first check that fails: number, then type, then price |
| EntityStore.ValidateUserInput | src/main/java/com/skypay/hotel/service/Service.java:110-115 | Passes iff id > 0 and balance ≥ 0. Each failure is InvalidInput, and its message names the first check that fails: id, then balance |
| EntityStore.UpsertRoom | src/main/java/com/skypay/hotel/service/Service.java:27-33 | The list grows by one iff the number was unknown. Every room keeps its position and number. Rooms with other numbers are untouched. The new record is present. Uniqueness of numbers is preserved |
| EntityStore.UpsertUser | src/main/java/com/skypay/hotel/service/Service.java:116-121 | The same as UpsertRoom, for users and ids |
| EntityStore.FindRoomAfterUpsert | src/main/java/com/skypay/hotel/service/Service.java:25-34 | After an upsert, the number is found at the new record, and every other number is found where it was before |
| EntityStore.FindUserAfterUpsert | src/main/java/com/skypay/hotel/service/Service.java:109-122 | After an upsert, the id is found with the new balance, and every other id is found where it was before |
| EntityStore.UpsertRoomIdempotent | src/main/java/com/skypay/hotel/service/Service.java:27-33 | Upserting the same room twice equals upserting it once |
| EntityStore.UpsertUserIdempotent | src/main/java/com/skypay/hotel/service/Service.java:116-121 | Upserting the same user twice equals upserting it once |
| BookingLedger.DatesOverlap | src/main/java/com/skypay/hotel/service/Service.java:161-165 | The definition of the half-open overlap test. Its properties are stated by DatesOverlapSymmetric, AdjacentStaysDoNotOverlap and OverlapIffSharedNight |
| BookingLedger.Nights | src/main/java/com/skypay/hotel/service/Service.java:49 | The definition of the night count. NightsCountsOccupiedNights proves that it counts the nights the stay occupies |
| BookingLedger.ValidateDates | src/main/java/com/skypay/hotel/service/Service.java:144-148 | Passes iff the stay has at least one night. Otherwise fails with InvalidInput and the dates message |
| BookingLedger.DatesOverlapSymmetric | src/main/java/com/skypay/hotel/service/Service.java:161-165 | Swapping the new stay and the existing stay does not change the overlap test |
| BookingLedger.AdjacentStaysDoNotOverlap | src/main/java/com/skypay/hotel/service/Service.java:161-165 | A stay that ends on the day another begins does not overlap it, in either order |
| BookingLedger.OverlapIffSharedNight | src/main/java/com/skypay/hotel/service/Service.java:163-164 | For non-empty stays, the test holds iff some night lies in both half-open ranges |
| BookingLedger.NightsCountsOccupiedNights | src/main/java/com/skypay/hotel/service/Service.java:49 | The day difference the price is based on equals the number of nights the stay occupies |
| BookingLedger.AvailableIffNoSharedNight | src/main/java/com/skypay/hotel/service/Service.java:150-159 | A new stay passes the availability scan iff no booking of the room shares a night with it |
| BookingLedger.AppendAvailableKeepsNoDoubleBooking | src/main/java/com/skypay/hotel/service/Service.java:47-70 | Appending a booking whose range was available keeps the ledger free of overlapping bookings of the same room |
| BookingLedger.NoNightSoldTwice | src/main/java/com/skypay/hotel/service/Service.java:150-165 | In such a ledger, no night of a room belongs to two bookings |
| BookingEngine.SetRoom | src/main/java/com/skypay/hotel/service/Service.java:25-34 | The definition of setRoom on the state: validate, then upsert. Its properties are stated by SetRoomPreservesValid, SetRoomIdempotent and SetRoomLeavesBookings, and by UpsertRoom's contract |
| BookingEngine.SetUser | src/main/java/com/skypay/hotel/service/Service.java:109-122 | The definition of setUser on the state: validate, then upsert. Its properties are stated by SetUserPreservesValid and SetUserIdempotent, and by UpsertUser's contract |
| BookingEngine.Commit | src/main/java/com/skypay/hotel/service/Service.java:55-70 | The definition of the state after bookRoom. Its properties are stated by CommitDebitsInPlace, BookRoomFailureChangesNothing, BookRoomSuccess and BookRoomConservesMoney |
| BookingEngine.BookRoom | src/main/java/com/skypay/hotel/service/Service.java:36-71 | A booking it returns has check-in before check-out and a total of nights × the nightly price. That total does not exceed the balance it records |
| BookingEngine.CommitDebitsInPlace | src/main/java/com/skypay/hotel/service/Service.java:55-70 | Committing a booking overwrites only the found user's record, with the debited balance, and appends the booking |
| BookingEngine.BookRoomOutcomes | src/main/java/com/skypay/hotel/service/Service.java:36-53 | Each error occurs iff all earlier checks pass and its own check fails. The order is: null check-in, null check-out, unknown user, unknown room, dates out of order, room unavailable, insufficient balance. Success occurs iff every check passes |
| BookingEngine.BookRoomFailureChangesNothing | src/main/java/com/skypay/hotel/service/Service.java:36-53 | A failed booking leaves rooms, users and bookings as they were |
| BookingEngine.BookRoomSuccess | src/main/java/com/skypay/hotel/service/Service.java:49-70 | A successful booking snapshots the found room and user and keeps the dates and creation time. It has at least one night and costs nights × price. Only the booking user changes: it is debited exactly that total and stays non-negative. The rooms are unchanged, and exactly one booking is appended |
| BookingEngine.TotalBalanceUpdate | src/main/java/com/skypay/hotel/service/Service.java:56 | Overwriting one user's record changes the sum of balances by the difference of the two balances |
| BookingEngine.RevenueAppend | src/main/java/com/skypay/hotel/service/Service.java:70 | Appending a booking adds its total to the sum of booking totals |
| BookingEngine.BookRoomConservesMoney | src/main/java/com/skypay/hotel/service/Service.java:49-70 | Balances plus booked totals are the same before and after any bookRoom call |
| BookingEngine.BookRoomPreservesValid | src/main/java/com/skypay/hotel/service/Service.java:36-71 | bookRoom keeps the invariant: keys unique and positive, prices positive, balances non-negative, bookings well formed, no double booking |
| BookingEngine.SetRoomPreservesValid | src/main/java/com/skypay/hotel/service/Service.java:25-34 | setRoom keeps the invariant |
| BookingEngine.SetUserPreservesValid | src/main/java/com/skypay/hotel/service/Service.java:109-122 | setUser keeps the invariant |
| BookingEngine.SetRoomIdempotent | src/main/java/com/skypay/hotel/service/Service.java:25-34 | Repeating a setRoom call leaves the state unchanged, whether or not the call is valid |
| BookingEngine.SetUserIdempotent | src/main/java/com/skypay/hotel/service/Service.java:109-122 | Repeating a setUser call leaves the state unchanged, whether or not the call is valid |
| BookingEngine.SetRoomLeavesBookings | src/main/java/com/skypay/hotel/model/Booking.java:7-20 | A room update makes the room findable with its new type and price. It leaves every stored booking, with its snapshots, unchanged |
| BookingEngine.RunPreservesValid | src/main/java/com/skypay/hotel/service/Service.java:20-71 | After any sequence of setRoom/setUser/bookRoom calls, the invariant still holds |
| BookingEngine.RunKeepsHistory | src/main/java/com/skypay/hotel/service/Service.java:20-71 | After any sequence of calls, the earlier ledger is an unchanged prefix of the new one |
| HotelService.Service.constructor | src/main/java/com/skypay/hotel/service/Service.java:20-23 | The service starts empty and valid |
| HotelService.Service.FindRoom | src/main/java/com/skypay/hotel/service/Service.java:171-178 | The loop returns the object at the first index whose number matches, or null when none matches |
| HotelService.Service.FindUser | src/main/java/com/skypay/hotel/service/Service.java:188-195 | The loop returns the object at the first index whose id matches, or null when none matches |
| HotelService.Service.FindRoomOrThrow | src/main/java/com/skypay/hotel/service/Service.java:180-186 | The found room, or NotFound("Room not found") |
| HotelService.Service.FindUserOrThrow | src/main/java/com/skypay/hotel/service/Service.java:197-203 | The found user, or NotFound("User not found") |
| HotelService.Service.EnsureRoomAvailability | src/main/java/com/skypay/hotel/service/Service.java:150-159 | The scan passes exactly when the range is available. Otherwise it fails with RoomUnavailable |
| HotelService.Service.SetBalance | src/main/java/com/skypay/hotel/service/Service.java:56 | Setting one listed user's balance changes that user's record in the view and nothing else |
| HotelService.Service.SetRoom | src/main/java/com/skypay/hotel/service/Service.java:25-34 | The outcome is the validation's result, and the new state is SetRoom of the old one. This covers in-place update of the found Room object, or appending a new Room. Users and bookings are untouched, and the invariant is kept |
| HotelService.Service.SetUser | src/main/java/com/skypay/hotel/service/Service.java:109-122 | The outcome is the validation's result, and the new state is SetUser of the old one. Rooms and bookings are untouched, and the invariant is kept |
| HotelService.Service.Commit | src/main/java/com/skypay/hotel/service/Service.java:55-70 | The returned booking holds the room's fields and the user's id and balance as they were before the debit. The new state is the engine's Commit of the old one |
| HotelService.Service.BookRoom | src/main/java/com/skypay/hotel/service/Service.java:36-71 | The result is the engine's BookRoom on the state before, and the new state is its Commit. Rooms and the user list are untouched, and the invariant is kept |
| Model.Booking | src/main/java/com/skypay/hotel/model/Booking.java:11-77 | The definition of a booking: an immutable value whose constructor takes the nine fields and whose destructors are the getters. HotelService.Service.Commit states which values it is built from, BookRoomSuccess states its snapshot fields, and SetRoomLeavesBookings and RunKeepsHistory state that it never changes once stored |
| JavaInt.DebitAsWritten | src/main/java/com/skypay/hotel/service/Service.java:49-56 | The definition of the pricing, balance check and debit in 32-bit arithmetic. DebitAsWrittenOverflows and DebitAsWrittenInRange state its properties |
| JavaInt.Wrap | src/main/java/com/skypay/hotel/service/Service.java:49-50 | The result is a Java int congruent to the input modulo 2^32, and equal to it when the input is in range |
| JavaInt.DebitAsWrittenOverflows | src/main/java/com/skypay/hotel/service/Service.java:49-56 | With 32-bit arithmetic, two nights at 2^30 pass the balance check of a user with balance 0. That user is left with balance -2^31 |
| JavaInt.DebitAsWrittenInRange | src/main/java/com/skypay/hotel/service/Service.java:49-56 | When the exact total fits in an int, the 32-bit computation agrees with the unbounded one |
| Demo.DriverSetup | src/main/java/com/skypay/hotel/app/Main.java:16-23 | The driver's three rooms and two users give the seeded state |
| Demo.DriverRefusedAttempts | src/main/java/com/skypay/hotel/app/Main.java:25-36 | Seven nights of room 2 fail for insufficient balance, and reversed dates fail with InvalidInput |
| Demo.DriverFirstBooking | src/main/java/com/skypay/hotel/app/Main.java:37-42 | One night of room 1 succeeds at 1000 and leaves user 1 with 4000 |
| Demo.DriverLaterAttempts | src/main/java/com/skypay/hotel/app/Main.java:43-54 | Room 1 over July 7–9 is unavailable to user 2. Room 3 is booked for user 2 at 3000, which leaves user 2 with 7000 |
| Demo.DriverFinalUpdate | src/main/java/com/skypay/hotel/app/Main.java:56 | Updating room 1 in the final state changes only that room. The balances stay 4000 and 7000, and both bookings keep their snapshots |

## Left out

- `printAll` and `printAllUsers` (Service.java:73-107 and 124-130) only write to the console. They are not modelled.
- `toLocalDate` (Service.java:167-169) converts a `java.util.Date` through the host's default time zone. The model takes dates as day numbers and starts after that conversion.
- `LocalDateTime.now()` for `createdAt` reads the clock. It is the `createdAt` parameter instead.
- BookingEngine.BookRoom, HotelService.Service.BookRoom: prices and balances are unbounded integers. Java's 32-bit `int` wrap-around in `nights * price` and in the debit is modelled only in `JavaInt` (see Findings).
- Room.java and User.java: their source is not available. The `Room` and `User` classes are inferred from how Service.java uses them: their constructors, getters and setters.
- The driver program (Main.java) appears only as the `Demo` lemmas. Its `attemptBooking` helper catches and prints exceptions, and that printing is not modelled.
- Concurrency: the service is not thread-safe and is modelled as single-threaded.

## Findings

| source | as written | input that shows it | evidently intended | confidence | as-written member | corrected member |
|---|---|---|---|---|---|---|
| src/main/java/com/skypay/hotel/service/Service.java:49-56 | `nights * room.getPricePerNight()` and `userBalanceSnapshot - totalPrice` are computed in 32-bit `int` and wrap around | a room at 1073741824 (2^30) per night, two nights, user balance 0: the total wraps to -2^31, the balance check passes and the balance becomes -2^31 | the exact total is compared with the balance, so the booking is refused and balances never go negative | high; not executed | JavaInt.DebitAsWrittenOverflows | BookingEngine.BookRoomSuccess |
