/**
 * The entities of the hotel: rooms and users, whose fields the service
 * updates in place, and bookings, which are immutable snapshots.
 */
module Model {

  /** A calendar date, as a day number: consecutive dates differ by one. */
  type Day = int

  /** The moment a booking is created; the caller supplies it. */
  type Timestamp = int

  datatype RoomType = Standard | JuniorSuite | MasterSuite

  /** A room: its number is fixed, its type and nightly price can be overwritten. */
  class Room {
    const roomNumber: int
    var roomType: RoomType
    var pricePerNight: int

    constructor (roomNumber: int, roomType: RoomType, pricePerNight: int)
      ensures this.roomNumber == roomNumber
      ensures this.roomType == roomType && this.pricePerNight == pricePerNight
    {
      this.roomNumber := roomNumber;
      this.roomType := roomType;
      this.pricePerNight := pricePerNight;
    }
  }

  /** A user: the id is fixed, the balance can be overwritten. */
  class User {
    const userId: int
    var balance: int

    constructor (userId: int, balance: int)
      ensures this.userId == userId && this.balance == balance
    {
      this.userId := userId;
      this.balance := balance;
    }
  }

  /**
   * A booking. Every field is final in the source, so a booking is a value:
   * the constructor takes each field and the destructors are its getters.
   * Room type and price are copied values, not a reference to the live Room,
   * so later updates of the room cannot reach a booking.
   */
  datatype Booking = Booking(
    roomNumberSnapshot: int,
    roomTypeSnapshot: RoomType,
    roomPriceSnapshot: int,
    userIdSnapshot: int,
    userBalanceSnapshot: int,
    checkInDate: Day,
    checkOutDate: Day,
    totalPrice: int,
    createdAt: Timestamp)
}
