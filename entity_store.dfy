/**
 * The entity store of the service: rooms keyed by room number and users
 * keyed by user id, each a list in insertion order with upsert semantics.
 * Records here are the values the live Room and User objects hold.
 */
module EntityStore {
  import opened Outcomes
  import opened Model

  const RoomNumberNotPositive := "Room number must be positive"
  const RoomTypeRequired := "Room type is required"
  const RoomPriceNotPositive := "Room price must be positive"
  const UserIdNotPositive := "User id must be positive"
  const UserBalanceNegative := "User balance cannot be negative"

  datatype RoomRecord = RoomRecord(number: int, roomType: RoomType, pricePerNight: int)
  datatype UserRecord = UserRecord(id: int, balance: int)

  predicate RoomNumbersUnique(rooms: seq<RoomRecord>) {
    forall i, j :: 0 <= i < j < |rooms| ==> rooms[i].number != rooms[j].number
  }

  predicate UserIdsUnique(users: seq<UserRecord>) {
    forall i, j :: 0 <= i < j < |users| ==> users[i].id != users[j].id
  }

  /** The position of the first room with this number, as the linear search finds it. */
  function FindRoom(rooms: seq<RoomRecord>, roomNumber: int): (r: Option<nat>)
    ensures r.Some? ==> r.value < |rooms| && rooms[r.value].number == roomNumber
    ensures r.Some? ==> forall j :: 0 <= j < r.value ==> rooms[j].number != roomNumber
    ensures r.None? ==> forall j :: 0 <= j < |rooms| ==> rooms[j].number != roomNumber
  {
    if rooms == [] then None
    else if rooms[0].number == roomNumber then Some(0)
    else match FindRoom(rooms[1..], roomNumber)
      case None => None
      case Some(i) => Some(i + 1)
  }

  /** The position of the first user with this id, as the linear search finds it. */
  function FindUser(users: seq<UserRecord>, userId: int): (r: Option<nat>)
    ensures r.Some? ==> r.value < |users| && users[r.value].id == userId
    ensures r.Some? ==> forall j :: 0 <= j < r.value ==> users[j].id != userId
    ensures r.None? ==> forall j :: 0 <= j < |users| ==> users[j].id != userId
  {
    if users == [] then None
    else if users[0].id == userId then Some(0)
    else match FindUser(users[1..], userId)
      case None => None
      case Some(i) => Some(i + 1)
  }

  /** The checks of setRoom, in the source's order: number, then type, then price. */
  function ValidateRoomInput(roomNumber: int, roomType: Option<RoomType>, pricePerNight: int): (r: Outcome)
    ensures r.Pass? <==> roomNumber > 0 && roomType.Some? && pricePerNight > 0
    ensures r.Fail? ==> r.error.InvalidInput?
    ensures r == Fail(InvalidInput(RoomNumberNotPositive)) <==> roomNumber <= 0
    ensures r == Fail(InvalidInput(RoomTypeRequired)) <==> roomNumber > 0 && roomType.None?
    ensures r == Fail(InvalidInput(RoomPriceNotPositive)) <==> roomNumber > 0 && roomType.Some? && pricePerNight <= 0
  {
    if roomNumber <= 0 then Fail(InvalidInput(RoomNumberNotPositive))
    else if roomType.None? then Fail(InvalidInput(RoomTypeRequired))
    else if pricePerNight <= 0 then Fail(InvalidInput(RoomPriceNotPositive))
    else Pass
  }

  /** The checks of setUser: the id first, then the balance. */
  function ValidateUserInput(userId: int, balance: int): (r: Outcome)
    ensures r.Pass? <==> userId > 0 && balance >= 0
    ensures r.Fail? ==> r.error.InvalidInput?
    ensures r == Fail(InvalidInput(UserIdNotPositive)) <==> userId <= 0
    ensures r == Fail(InvalidInput(UserBalanceNegative)) <==> userId > 0 && balance < 0
  {
    if userId <= 0 then Fail(InvalidInput(UserIdNotPositive))
    else if balance < 0 then Fail(InvalidInput(UserBalanceNegative))
    else Pass
  }

  /**
   * The rooms after setRoom has passed its checks: a known number has its
   * type and price overwritten where it stands, an unknown one is appended.
   */
  function UpsertRoom(rooms: seq<RoomRecord>, roomNumber: int, roomType: RoomType, pricePerNight: int): (r: seq<RoomRecord>)
    ensures |r| == if FindRoom(rooms, roomNumber).Some? then |rooms| else |rooms| + 1
    ensures forall j :: 0 <= j < |rooms| ==> r[j].number == rooms[j].number
    ensures forall j :: 0 <= j < |rooms| && rooms[j].number != roomNumber ==> r[j] == rooms[j]
    ensures RoomRecord(roomNumber, roomType, pricePerNight) in r
    ensures RoomNumbersUnique(rooms) ==> RoomNumbersUnique(r)
  {
    match FindRoom(rooms, roomNumber)
    case None => rooms + [RoomRecord(roomNumber, roomType, pricePerNight)]
    case Some(i) => rooms[i := RoomRecord(roomNumber, roomType, pricePerNight)]
  }

  /** The users after setUser has passed its checks: overwrite the balance of a known id, else append. */
  function UpsertUser(users: seq<UserRecord>, userId: int, balance: int): (r: seq<UserRecord>)
    ensures |r| == if FindUser(users, userId).Some? then |users| else |users| + 1
    ensures forall j :: 0 <= j < |users| ==> r[j].id == users[j].id
    ensures forall j :: 0 <= j < |users| && users[j].id != userId ==> r[j] == users[j]
    ensures UserRecord(userId, balance) in r
    ensures UserIdsUnique(users) ==> UserIdsUnique(r)
  {
    match FindUser(users, userId)
    case None => users + [UserRecord(userId, balance)]
    case Some(i) => users[i := UserRecord(userId, balance)]
  }

  /** After an upsert the number is found, at the record just written; every other number is found where it was. */
  lemma FindRoomAfterUpsert(rooms: seq<RoomRecord>, roomNumber: int, roomType: RoomType, pricePerNight: int, other: int)
    ensures var r := UpsertRoom(rooms, roomNumber, roomType, pricePerNight);
      FindRoom(r, roomNumber).Some? && r[FindRoom(r, roomNumber).value] == RoomRecord(roomNumber, roomType, pricePerNight)
    ensures other != roomNumber ==> FindRoom(UpsertRoom(rooms, roomNumber, roomType, pricePerNight), other) == FindRoom(rooms, other)
  {
    var r := UpsertRoom(rooms, roomNumber, roomType, pricePerNight);
    var k := match FindRoom(rooms, roomNumber) case None => |rooms| case Some(i) => i;
    assert r[k] == RoomRecord(roomNumber, roomType, pricePerNight);
    assert forall j :: 0 <= j < k ==> r[j].number != roomNumber;
    if other != roomNumber {
      assert forall j :: 0 <= j < |r| ==> (r[j].number == other <==> j < |rooms| && rooms[j].number == other);
    }
  }

  /** After an upsert the id is found, at the record just written; every other id is found where it was. */
  lemma FindUserAfterUpsert(users: seq<UserRecord>, userId: int, balance: int, other: int)
    ensures var r := UpsertUser(users, userId, balance);
      FindUser(r, userId).Some? && r[FindUser(r, userId).value] == UserRecord(userId, balance)
    ensures other != userId ==> FindUser(UpsertUser(users, userId, balance), other) == FindUser(users, other)
  {
    var r := UpsertUser(users, userId, balance);
    var k := match FindUser(users, userId) case None => |users| case Some(i) => i;
    assert r[k] == UserRecord(userId, balance);
    assert forall j :: 0 <= j < k ==> r[j].id != userId;
    if other != userId {
      assert forall j :: 0 <= j < |r| ==> (r[j].id == other <==> j < |users| && users[j].id == other);
    }
  }

  /** Setting a room twice with the same arguments leaves the list as setting it once. */
  lemma UpsertRoomIdempotent(rooms: seq<RoomRecord>, roomNumber: int, roomType: RoomType, pricePerNight: int)
    ensures var once := UpsertRoom(rooms, roomNumber, roomType, pricePerNight);
      UpsertRoom(once, roomNumber, roomType, pricePerNight) == once
  {
    FindRoomAfterUpsert(rooms, roomNumber, roomType, pricePerNight, roomNumber);
  }

  /** Setting a user twice with the same arguments leaves the list as setting it once. */
  lemma UpsertUserIdempotent(users: seq<UserRecord>, userId: int, balance: int)
    ensures var once := UpsertUser(users, userId, balance);
      UpsertUser(once, userId, balance) == once
  {
    FindUserAfterUpsert(users, userId, balance, userId);
  }
}
