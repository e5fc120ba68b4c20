/** The entities of the hotel-state blob (rooms, guest stays, transactions,
    users, settings, room types), the lookups every page repeats, and the
    occupancy invariant that check-in, check-out and room maintenance keep:
    a room is occupied exactly when one checked-in guest stay references it. */
module Records {
  import opened Seqs

  /** Room status. The code writes only the first three; a stored blob may hold
      any other string, kept as Unrecognised. */
  datatype RoomStatus = Vacant | Occupied | OutOfOrder | Unrecognised(text: string)

  /** What confirmOutOfOrder records about a withdrawn room. */
  datatype OutOfOrderInfo = OutOfOrderInfo(
    reason: string, details: string, estimatedDate: string, markedDate: int, markedBy: string)

  datatype Room = Room(
    number: string, roomType: string, rate: real, maxGuests: nat, beds: nat,
    status: RoomStatus, guest: Option<string>, floor: int, outOfOrder: Option<OutOfOrderInfo>)

  datatype GuestStatus = CheckedIn | CheckedOut

  /** The fields check-out adds to a stay. */
  datatype Settlement = Settlement(checkOut: int, totalBill: real, extraCharges: real)

  /** A guest stay record. roomRate is the rate entered at check-in. */
  datatype Guest = Guest(
    id: string, name: string, phone: string, email: string, address: string,
    idType: string, idNumber: string, room: string, checkIn: int,
    nights: nat, adults: nat, children: nat, roomRate: real, specialRequests: string,
    status: GuestStatus, settlement: Option<Settlement>)

  datatype TxKind = CheckInTx | CheckOutTx

  datatype Transaction = Transaction(
    id: string, kind: TxKind, guestId: string, room: string, amount: real, date: int, user: string)

  /** A transaction's amount, the value the revenue sums add up. */
  function Amount(t: Transaction): real
  {
    t.amount
  }

  datatype User = User(
    id: string, username: string, password: string, fullName: string, role: string,
    lastLogin: Option<int>, isActive: bool)

  datatype Settings = Settings(hotelName: string, hotelAddress: string, hotelContact: string, vatRate: real)

  datatype RoomType = RoomType(name: string, rate: real, maxGuests: nat, beds: nat)

  /** Why a front-desk operation refused to change anything. */
  datatype DeskError =
    | MissingRequiredFields | RoomNotFound | OverCapacity
    | CheckOutFailed
    | NoRoomSelected | MissingReason | RoomOccupied | AlreadyOutOfOrder | AlreadyVacant | NotConfirmed
    | PasswordMismatch | UsernameExists | InvalidCredentials

  // ---------------------------------------------------------------------------
  // The `find` predicates of the source, curried so that one term names each

  function HasNumber(number: string): Room -> bool
  {
    (r: Room) => r.number == number
  }

  function HasStatus(status: RoomStatus): Room -> bool
  {
    (r: Room) => r.status == status
  }

  /** g.room === number && g.status === 'checked-in' */
  function ActiveIn(number: string): Guest -> bool
  {
    (g: Guest) => g.status == CheckedIn && g.room == number
  }

  function HasGuestId(id: string): Guest -> bool
  {
    (g: Guest) => g.id == id
  }

  function HasUsername(username: string): User -> bool
  {
    (u: User) => u.username == username
  }

  /** u.username === username && u.isActive === true */
  function CanSignIn(username: string): User -> bool
  {
    (u: User) => u.username == username && u.isActive
  }

  function IdIsNot(id: string): User -> bool
  {
    (u: User) => u.id != id
  }

  function IsCheckedIn(g: Guest): bool
  {
    g.status == CheckedIn
  }

  /** Number of checked-in stays that reference a room number. */
  function ActiveCount(guests: seq<Guest>, number: string): nat
  {
    |Filter(guests, ActiveIn(number))|
  }

  /** Index of the first checked-in stay for a room number (the stay check-out closes). */
  function ActiveGuest(guests: seq<Guest>, number: string): Option<nat>
  {
    FirstIndex(guests, ActiveIn(number))
  }

  // ---------------------------------------------------------------------------
  // The occupancy invariant

  ghost predicate UniqueNumbers(rooms: seq<Room>)
  {
    forall i, j :: 0 <= i < j < |rooms| ==> rooms[i].number != rooms[j].number
  }

  /** One room agrees with the stays: occupied exactly when one checked-in stay
      references it (never two), its guest field names that stay, and it carries
      out-of-order information exactly when it is out of order. */
  ghost predicate RoomAgrees(r: Room, guests: seq<Guest>)
  {
    && ActiveCount(guests, r.number) <= 1
    && (r.status == Occupied <==> ActiveCount(guests, r.number) == 1)
    && (r.status == Occupied <==> r.guest.Some?)
    && (r.status == OutOfOrder <==> r.outOfOrder.Some?)
    && (ActiveGuest(guests, r.number).Some? ==>
          r.guest == Some(guests[ActiveGuest(guests, r.number).value].id))
  }

  ghost predicate Consistent(rooms: seq<Room>, guests: seq<Guest>)
  {
    && UniqueNumbers(rooms)
    && forall i :: 0 <= i < |rooms| ==> RoomAgrees(rooms[i], guests)
  }

  /** Under the invariant, no room has two checked-in stays, and a room that is
      not occupied has none. */
  lemma NoDoubleOccupancy(rooms: seq<Room>, guests: seq<Guest>, i: nat)
    requires Consistent(rooms, guests) && i < |rooms|
    ensures ActiveCount(guests, rooms[i].number) <= 1
    ensures rooms[i].status != Occupied ==> ActiveGuest(guests, rooms[i].number).None?
  {
    FilterEmptyIffNoMatch(guests, ActiveIn(rooms[i].number));
  }

  /** Checking a stay into a vacant room keeps the invariant. */
  lemma CheckInKeepsConsistent(rooms: seq<Room>, guests: seq<Guest>, i: nat, g: Guest)
    requires Consistent(rooms, guests) && i < |rooms|
    requires rooms[i].status == Vacant
    requires g.status == CheckedIn && g.room == rooms[i].number
    ensures Consistent(rooms[i := rooms[i].(status := Occupied, guest := Some(g.id))], guests + [g])
  {
    var rooms' := rooms[i := rooms[i].(status := Occupied, guest := Some(g.id))];
    var guests' := guests + [g];
    forall j | 0 <= j < |rooms'| ensures RoomAgrees(rooms'[j], guests') {
      var n := rooms'[j].number;
      FilterSnoc(guests, g, ActiveIn(n));
      FirstIndexSnoc(guests, g, ActiveIn(n));
      FilterEmptyIffNoMatch(guests, ActiveIn(n));
    }
  }

  /** Closing the first checked-in stay of an occupied room and freeing the room
      keeps the invariant. */
  lemma CheckOutKeepsConsistent(rooms: seq<Room>, guests: seq<Guest>, i: nat, k: nat, s: Settlement)
    requires Consistent(rooms, guests) && i < |rooms|
    requires ActiveGuest(guests, rooms[i].number) == Some(k)
    ensures Consistent(
      rooms[i := rooms[i].(status := Vacant, guest := None)],
      guests[k := guests[k].(status := CheckedOut, settlement := Some(s))])
  {
    var rooms' := rooms[i := rooms[i].(status := Vacant, guest := None)];
    var closed := guests[k].(status := CheckedOut, settlement := Some(s));
    var guests' := guests[k := closed];
    var n := rooms[i].number;
    FilterEmptyIffNoMatch(guests, ActiveIn(n));
    FilterUpdateCount(guests, k, closed, ActiveIn(n));
    FilterEmptyIffNoMatch(guests', ActiveIn(n));
    forall j | 0 <= j < |rooms'| ensures RoomAgrees(rooms'[j], guests') {
      var m := rooms'[j].number;
      if j != i {
        assert m != n;
        UpdateIrrelevant(guests, k, closed, ActiveIn(m));
      }
    }
  }

  /** Withdrawing a room that no checked-in stay references keeps the invariant. */
  lemma OutOfOrderKeepsConsistent(rooms: seq<Room>, guests: seq<Guest>, i: nat, info: OutOfOrderInfo)
    requires Consistent(rooms, guests) && i < |rooms|
    requires ActiveGuest(guests, rooms[i].number).None?
    ensures Consistent(rooms[i := rooms[i].(status := OutOfOrder, outOfOrder := Some(info))], guests)
  {
    FilterEmptyIffNoMatch(guests, ActiveIn(rooms[i].number));
  }

  /** Marking vacant a room that no checked-in stay references keeps the invariant. */
  lemma VacateKeepsConsistent(rooms: seq<Room>, guests: seq<Guest>, i: nat)
    requires Consistent(rooms, guests) && i < |rooms|
    requires ActiveGuest(guests, rooms[i].number).None?
    ensures Consistent(rooms[i := rooms[i].(status := Vacant, outOfOrder := None, guest := None)], guests)
  {
    FilterEmptyIffNoMatch(guests, ActiveIn(rooms[i].number));
  }

  /** Check-in does not look at the room's status: into a room that already has a
      checked-in stay it creates a second one, which the invariant forbids. */
  lemma CheckInIntoOccupiedDoubleBooks(guests: seq<Guest>, g: Guest)
    requires ActiveCount(guests, g.room) == 1
    requires g.status == CheckedIn
    ensures ActiveCount(guests + [g], g.room) == 2
  {
    FilterSnoc(guests, g, ActiveIn(g.room));
  }

  ghost predicate UniqueUsernames(users: seq<User>)
  {
    forall i, j :: 0 <= i < j < |users| ==> users[i].username != users[j].username
  }
}
