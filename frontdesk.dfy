/** The hotel-state blob as one object whose operations update it in place:
    check-in, check-out, taking a room out of order and back, user
    administration, the settings form and signing in. Every operation either
    refuses with a named error and changes nothing, or performs exactly the
    updates the page scripts perform. Identifiers and timestamps (Date.now()),
    the operator name and the answer to confirm() are parameters. */
module FrontDesk {
  import opened Seqs
  import opened Records
  import opened Billing
  import Text
  import Inventory

  /** The fields of the check-in form, read and parsed. */
  datatype CheckInForm = CheckInForm(
    guestName: string, guestPhone: string, guestEmail: string, guestAddress: string,
    guestIdType: string, guestIdNumber: string, roomNumber: string,
    nights: nat, adults: nat, children: nat, roomRate: real, specialRequests: string)

  /** The fields of the add-user form. */
  datatype UserForm = UserForm(
    username: string, fullName: string, role: string, password: string, confirmPassword: string)

  /** The settings form as the admin page fills it in. */
  datatype SettingsForm = SettingsForm(hotelName: string, hotelContact: string, hotelAddress: string)

  // ---------------------------------------------------------------------------
  // The guards, as specifications of the step-by-step checks the methods run

  /** The checks check-in makes before changing anything: required fields, the
      room exists, the party fits. The room's status is not among them. */
  function CheckInVerdict(rooms: seq<Room>, form: CheckInForm): (v: Outcome<DeskError>)
    ensures form.guestName == "" || form.guestPhone == "" || form.roomNumber == "" ==>
              v == Fail(MissingRequiredFields)
    ensures form.guestName != "" && form.guestPhone != "" && form.roomNumber != "" ==>
              match FirstIndex(rooms, HasNumber(form.roomNumber))
              case None => v == Fail(RoomNotFound)
              case Some(i) =>
                && (v.Pass? <==> form.adults + form.children <= rooms[i].maxGuests)
                && (v.Fail? ==> v.error == OverCapacity)
  {
    if form.guestName == "" || form.guestPhone == "" || form.roomNumber == "" then Fail(MissingRequiredFields)
    else match FirstIndex(rooms, HasNumber(form.roomNumber))
      case None => Fail(RoomNotFound)
      case Some(i) => if form.adults + form.children > rooms[i].maxGuests then Fail(OverCapacity) else Pass
  }

  /** The stay record check-in creates. */
  function NewStay(form: CheckInForm, id: string, now: int): (g: Guest)
    ensures g.id == id && g.room == form.roomNumber && g.checkIn == now
    ensures g.status == CheckedIn && g.settlement.None?
    ensures g.nights == form.nights && g.roomRate == form.roomRate
  {
    Guest(id, form.guestName, form.guestPhone, form.guestEmail, form.guestAddress,
          form.guestIdType, form.guestIdNumber, form.roomNumber, now,
          form.nights, form.adults, form.children, form.roomRate, form.specialRequests,
          CheckedIn, None)
  }

  /** The checks before the out-of-order dialog opens. */
  function OpenOutOfOrderVerdict(rooms: seq<Room>, guests: seq<Guest>, selected: string): (v: Outcome<DeskError>)
    ensures selected == "" ==> v == Fail(NoRoomSelected)
    ensures v.Pass? <==>
      && selected != ""
      && FirstIndex(rooms, HasNumber(selected)).Some?
      && ActiveGuest(guests, selected).None?
      && rooms[FirstIndex(rooms, HasNumber(selected)).value].status != OutOfOrder
    ensures v == Fail(AlreadyOutOfOrder) ==> ActiveGuest(guests, selected).None?
  {
    if selected == "" then Fail(NoRoomSelected)
    else match FirstIndex(rooms, HasNumber(selected))
      case None => Fail(RoomNotFound)
      case Some(i) =>
        if ActiveGuest(guests, selected).Some? then Fail(RoomOccupied)
        else if rooms[i].status == OutOfOrder then Fail(AlreadyOutOfOrder)
        else Pass
  }

  /** The checks confirming the out-of-order dialog makes: a reason, the room
      exists, no checked-in stay references it. Being out of order already is
      checked only when the dialog opens. */
  function ConfirmOutOfOrderVerdict(rooms: seq<Room>, guests: seq<Guest>, roomNumber: string, reason: string)
    : (v: Outcome<DeskError>)
    ensures reason == "" ==> v == Fail(MissingReason)
    ensures v.Pass? <==>
      reason != "" && FirstIndex(rooms, HasNumber(roomNumber)).Some? && ActiveGuest(guests, roomNumber).None?
    ensures v == Fail(RoomOccupied) ==> ActiveGuest(guests, roomNumber).Some?
  {
    if reason == "" then Fail(MissingReason)
    else if FirstIndex(rooms, HasNumber(roomNumber)).None? then Fail(RoomNotFound)
    else if ActiveGuest(guests, roomNumber).Some? then Fail(RoomOccupied)
    else Pass
  }

  /** The checks marking the selected room vacant makes; an out-of-order room
      also needs the operator's confirmation. */
  function MarkVacantVerdict(rooms: seq<Room>, guests: seq<Guest>, selected: string, confirmed: bool)
    : (v: Outcome<DeskError>)
    ensures selected == "" ==> v == Fail(NoRoomSelected)
    ensures v.Pass? <==>
      && selected != ""
      && FirstIndex(rooms, HasNumber(selected)).Some?
      && ActiveGuest(guests, selected).None?
      && var st := rooms[FirstIndex(rooms, HasNumber(selected)).value].status;
         st != Vacant && (st == OutOfOrder ==> confirmed)
    ensures v == Fail(NotConfirmed) ==> !confirmed
  {
    if selected == "" then Fail(NoRoomSelected)
    else match FirstIndex(rooms, HasNumber(selected))
      case None => Fail(RoomNotFound)
      case Some(i) =>
        if ActiveGuest(guests, selected).Some? then Fail(RoomOccupied)
        else if rooms[i].status == Vacant then Fail(AlreadyVacant)
        else if rooms[i].status == OutOfOrder && !confirmed then Fail(NotConfirmed)
        else Pass
  }

  /** hotelName || 'HotelM8' after trimming: the saved name is never empty and
      never starts or ends with white space. */
  function SavedHotelName(input: string): (name: string)
    ensures Text.Trim(input) != "" ==> name == Text.Trim(input)
    ensures (forall k :: 0 <= k < |input| ==> Text.IsSpace(input[k])) <==> Text.Trim(input) == ""
    ensures Text.Trim(input) == "" ==> name == "HotelM8"
    ensures name != ""
    ensures !Text.IsSpace(name[0]) && !Text.IsSpace(name[|name| - 1])
  {
    Text.TrimEnds(input);
    Text.TrimEmptyIffBlank(input);
    var t := Text.Trim(input);
    if t == "" then "HotelM8" else t
  }

  /** The settings form as the admin page fills it from the stored settings:
      an empty name shows as 'HotelM8'. */
  function LoadSettingsForm(s: Settings): (f: SettingsForm)
    ensures s.hotelName == "" ==> f.hotelName == "HotelM8"
    ensures s.hotelName != "" ==> f.hotelName == s.hotelName
    ensures f.hotelContact == s.hotelContact && f.hotelAddress == s.hotelAddress
  {
    SettingsForm(if s.hotelName == "" then "HotelM8" else s.hotelName, s.hotelContact, s.hotelAddress)
  }

  /** The settings after saving a form: each field trimmed, an empty name
      replaced by the default; the VAT rate is kept. */
  function SaveSettingsForm(s: Settings, f: SettingsForm): (r: Settings)
    ensures r.hotelName == SavedHotelName(f.hotelName)
    ensures r.hotelContact == Text.Trim(f.hotelContact) && r.hotelAddress == Text.Trim(f.hotelAddress)
    ensures r.vatRate == s.vatRate
  {
    s.(hotelName := SavedHotelName(f.hotelName),
       hotelContact := Text.Trim(f.hotelContact),
       hotelAddress := Text.Trim(f.hotelAddress))
  }

  /** Settings that were saved once survive a reload of the form followed by
      another save unchanged. */
  lemma SettingsRoundTrip(s: Settings, f: SettingsForm)
    ensures SaveSettingsForm(SaveSettingsForm(s, f), LoadSettingsForm(SaveSettingsForm(s, f)))
         == SaveSettingsForm(s, f)
  {
    var r := SaveSettingsForm(s, f);
    var name := r.hotelName;
    assert name != "";
    assert LoadSettingsForm(r) == SettingsForm(name, r.hotelContact, r.hotelAddress);
    Text.TrimKeepsTrimmed(name);
    assert SavedHotelName(name) == name;
    Text.TrimIdempotent(f.hotelContact);
    Text.TrimIdempotent(f.hotelAddress);
    var r' := SaveSettingsForm(r, LoadSettingsForm(r));
    assert r'.hotelName == name;
    assert r'.hotelContact == r.hotelContact;
    assert r'.hotelAddress == r.hotelAddress;
    assert r'.vatRate == r.vatRate;
  }

  // ---------------------------------------------------------------------------
  // The hotel state

  class Hotel {
    var rooms: seq<Room>
    var guests: seq<Guest>
    var transactions: seq<Transaction>
    var users: seq<User>
    var settings: Settings
    var roomTypes: seq<RoomType>

    /** The occupancy invariant over the stored rooms and stays. */
    ghost predicate Valid()
      reads this
    {
      Consistent(rooms, guests)
    }

    constructor (rooms: seq<Room>, guests: seq<Guest>, transactions: seq<Transaction>,
                 users: seq<User>, settings: Settings, roomTypes: seq<RoomType>)
      ensures this.rooms == rooms && this.guests == guests && this.transactions == transactions
      ensures this.users == users && this.settings == settings && this.roomTypes == roomTypes
    {
      this.rooms := rooms;
      this.guests := guests;
      this.transactions := transactions;
      this.users := users;
      this.settings := settings;
      this.roomTypes := roomTypes;
    }

    /** processCheckIn: validate, mark the room occupied by the new stay, append
        the stay and a zero-amount check-in transaction. */
    method CheckIn(form: CheckInForm, guestId: string, txId: string, now: int, operator: string)
      returns (outcome: Outcome<DeskError>)
      modifies this
      ensures outcome == CheckInVerdict(old(rooms), form)
      ensures users == old(users) && settings == old(settings) && roomTypes == old(roomTypes)
      ensures outcome.Fail? ==>
        rooms == old(rooms) && guests == old(guests) && transactions == old(transactions)
      ensures outcome.Pass? ==>
        FirstIndex(old(rooms), HasNumber(form.roomNumber)).Some? &&
        var i := FirstIndex(old(rooms), HasNumber(form.roomNumber)).value;
        && rooms == old(rooms)[i := old(rooms)[i].(status := Occupied, guest := Some(guestId))]
        && guests == old(guests) + [NewStay(form, guestId, now)]
        && transactions == old(transactions) + [Transaction(txId, CheckInTx, guestId, form.roomNumber, 0.0, now, operator)]
        && (old(Valid()) && old(rooms)[i].status == Vacant ==> Valid())
    {
      if form.guestName == "" || form.guestPhone == "" || form.roomNumber == "" {
        return Fail(MissingRequiredFields);
      }
      var roomIndex := FindIndex(rooms, HasNumber(form.roomNumber));
      if roomIndex == -1 {
        return Fail(RoomNotFound);
      }
      var room := rooms[roomIndex];
      if form.adults + form.children > room.maxGuests {
        return Fail(OverCapacity);
      }
      var guest := NewStay(form, guestId, now);
      ghost var wasValid := Valid();
      rooms := rooms[roomIndex := rooms[roomIndex].(status := Occupied, guest := Some(guest.id))];
      guests := guests + [guest];
      transactions := transactions + [Transaction(txId, CheckInTx, guest.id, form.roomNumber, 0.0, now, operator)];
      if wasValid && room.status == Vacant {
        CheckInKeepsConsistent(old(rooms), old(guests), roomIndex, guest);
      }
      outcome := Pass;
    }

    /** processCheckOut: close the first checked-in stay of the room with its
        bill, free the room and append a check-out transaction for the total. */
    method CheckOut(roomNumber: string, extraInput: Option<real>, vatRate: real, now: int, txId: string, operator: string)
      returns (outcome: Outcome<DeskError>)
      modifies this
      ensures users == old(users) && settings == old(settings) && roomTypes == old(roomTypes)
      ensures outcome.Pass? <==>
        ActiveGuest(old(guests), roomNumber).Some? && FirstIndex(old(rooms), HasNumber(roomNumber)).Some?
      ensures outcome.Fail? ==>
        && outcome.error == CheckOutFailed
        && rooms == old(rooms) && guests == old(guests) && transactions == old(transactions)
      ensures outcome.Pass? ==>
        var k := ActiveGuest(old(guests), roomNumber).value;
        var i := FirstIndex(old(rooms), HasNumber(roomNumber)).value;
        var g := old(guests)[k];
        var extra := ExtraCharges(extraInput);
        var bill := ComputeBill(g.nights, g.roomRate, extra, vatRate);
        && guests == old(guests)[k := g.(status := CheckedOut, settlement := Some(Settlement(now, bill.total, extra)))]
        && rooms == old(rooms)[i := old(rooms)[i].(status := Vacant, guest := None)]
        && transactions == old(transactions) + [Transaction(txId, CheckOutTx, g.id, roomNumber, bill.total, now, operator)]
      ensures old(Valid()) ==> Valid()
    {
      var extra := ExtraCharges(extraInput);
      var guestIndex := FindIndex(guests, ActiveIn(roomNumber));
      var roomIndex := FindIndex(rooms, HasNumber(roomNumber));
      if guestIndex == -1 || roomIndex == -1 {
        return Fail(CheckOutFailed);
      }
      var guest := guests[guestIndex];
      var bill := ComputeBill(guest.nights, guest.roomRate, extra, vatRate);
      ghost var wasValid := Valid();
      guests := guests[guestIndex := guest.(status := CheckedOut, settlement := Some(Settlement(now, bill.total, extra)))];
      rooms := rooms[roomIndex := rooms[roomIndex].(status := Vacant, guest := None)];
      transactions := transactions + [Transaction(txId, CheckOutTx, guest.id, roomNumber, bill.total, now, operator)];
      if wasValid {
        CheckOutKeepsConsistent(old(rooms), old(guests), roomIndex, guestIndex, Settlement(now, bill.total, extra));
      }
      outcome := Pass;
    }

    /** confirmOutOfOrder: record why and by whom a room is withdrawn. */
    method ConfirmOutOfOrder(roomNumber: string, reason: string, details: string, estimatedDate: string,
                             now: int, operator: string)
      returns (outcome: Outcome<DeskError>)
      modifies this
      ensures outcome == ConfirmOutOfOrderVerdict(old(rooms), old(guests), roomNumber, reason)
      ensures guests == old(guests) && transactions == old(transactions)
      ensures users == old(users) && settings == old(settings) && roomTypes == old(roomTypes)
      ensures outcome.Fail? ==> rooms == old(rooms)
      ensures outcome.Pass? ==>
        var i := FirstIndex(old(rooms), HasNumber(roomNumber)).value;
        rooms == old(rooms)[i := old(rooms)[i].(
          status := OutOfOrder,
          outOfOrder := Some(OutOfOrderInfo(reason, details, estimatedDate, now, operator)))]
      ensures old(Valid()) ==> Valid()
    {
      if reason == "" {
        return Fail(MissingReason);
      }
      var roomIndex := FindIndex(rooms, HasNumber(roomNumber));
      if roomIndex == -1 {
        return Fail(RoomNotFound);
      }
      var guestIndex := FindIndex(guests, ActiveIn(roomNumber));
      if guestIndex != -1 {
        return Fail(RoomOccupied);
      }
      ghost var wasValid := Valid();
      var info := OutOfOrderInfo(reason, details, estimatedDate, now, operator);
      rooms := rooms[roomIndex := rooms[roomIndex].(status := OutOfOrder, outOfOrder := Some(info))];
      if wasValid {
        OutOfOrderKeepsConsistent(old(rooms), guests, roomIndex, info);
      }
      outcome := Pass;
    }

    /** markSelectedRoomVacant: put a room back into service. */
    method MarkVacant(selected: string, confirmed: bool) returns (outcome: Outcome<DeskError>)
      modifies this
      ensures outcome == MarkVacantVerdict(old(rooms), old(guests), selected, confirmed)
      ensures guests == old(guests) && transactions == old(transactions)
      ensures users == old(users) && settings == old(settings) && roomTypes == old(roomTypes)
      ensures outcome.Fail? ==> rooms == old(rooms)
      ensures outcome.Pass? ==>
        var i := FirstIndex(old(rooms), HasNumber(selected)).value;
        rooms == old(rooms)[i := old(rooms)[i].(status := Vacant, outOfOrder := None, guest := None)]
      ensures old(Valid()) ==> Valid()
    {
      if selected == "" {
        return Fail(NoRoomSelected);
      }
      var roomIndex := FindIndex(rooms, HasNumber(selected));
      if roomIndex == -1 {
        return Fail(RoomNotFound);
      }
      var room := rooms[roomIndex];
      var guestIndex := FindIndex(guests, ActiveIn(selected));
      if guestIndex != -1 {
        return Fail(RoomOccupied);
      }
      if room.status == Vacant {
        return Fail(AlreadyVacant);
      }
      if room.status == OutOfOrder && !confirmed {
        return Fail(NotConfirmed);
      }
      ghost var wasValid := Valid();
      rooms := rooms[roomIndex := room.(status := Vacant, outOfOrder := None, guest := None)];
      if wasValid {
        VacateKeepsConsistent(old(rooms), guests, roomIndex);
      }
      outcome := Pass;
    }

    /** addNewUser: the passwords must match and the username must be new
        (among all users, active or not); the user is appended active and
        never signed in. */
    method AddUser(form: UserForm, id: string) returns (outcome: Outcome<DeskError>)
      modifies this
      ensures rooms == old(rooms) && guests == old(guests) && transactions == old(transactions)
      ensures settings == old(settings) && roomTypes == old(roomTypes)
      ensures form.password != form.confirmPassword ==> outcome == Fail(PasswordMismatch)
      ensures form.password == form.confirmPassword ==>
        (outcome == Fail(UsernameExists) <==> FirstIndex(old(users), HasUsername(form.username)).Some?)
      ensures outcome.Pass? <==>
        form.password == form.confirmPassword && FirstIndex(old(users), HasUsername(form.username)).None?
      ensures outcome.Fail? ==> outcome.error == PasswordMismatch || outcome.error == UsernameExists
      ensures outcome.Fail? ==> users == old(users)
      ensures outcome.Pass? ==>
        users == old(users) + [User(id, form.username, form.password, form.fullName, form.role, None, true)]
      ensures old(UniqueUsernames(users)) ==> UniqueUsernames(users)
    {
      if form.password != form.confirmPassword {
        return Fail(PasswordMismatch);
      }
      var existing := FindIndex(users, HasUsername(form.username));
      if existing != -1 {
        return Fail(UsernameExists);
      }
      users := users + [User(id, form.username, form.password, form.fullName, form.role, None, true)];
      outcome := Pass;
    }

    /** deleteUser: after confirmation, every user with that id is removed and
        the others keep their order. */
    method DeleteUser(id: string, confirmed: bool)
      modifies this
      ensures rooms == old(rooms) && guests == old(guests) && transactions == old(transactions)
      ensures settings == old(settings) && roomTypes == old(roomTypes)
      ensures users == if confirmed then Filter(old(users), IdIsNot(id)) else old(users)
      ensures forall u :: u in users <==> u in old(users) && (confirmed ==> u.id != id)
    {
      if confirmed {
        forall u ensures u in Filter(users, IdIsNot(id)) <==> u in users && u.id != id {
          FilterMembership(users, IdIsNot(id), u);
        }
        users := Filter(users, IdIsNot(id));
      }
    }

    /** The save-settings handler. */
    method SaveSettings(form: SettingsForm)
      modifies this
      ensures rooms == old(rooms) && guests == old(guests) && transactions == old(transactions)
      ensures users == old(users) && roomTypes == old(roomTypes)
      ensures settings == SaveSettingsForm(old(settings), form)
    {
      var name := Text.Trim(form.hotelName);
      var contact := Text.Trim(form.hotelContact);
      var address := Text.Trim(form.hotelAddress);
      settings := settings.(hotelName := if name == "" then "HotelM8" else name,
                            hotelContact := contact, hotelAddress := address);
    }

    /** authenticateUser: the first active user with that username must have
        that password; their last sign-in time is recorded. */
    method Authenticate(username: string, password: string, now: int) returns (outcome: Result<User, DeskError>)
      modifies this
      ensures rooms == old(rooms) && guests == old(guests) && transactions == old(transactions)
      ensures settings == old(settings) && roomTypes == old(roomTypes)
      ensures outcome.Ok? <==>
        && FirstIndex(old(users), CanSignIn(username)).Some?
        && old(users)[FirstIndex(old(users), CanSignIn(username)).value].password == password
      ensures outcome.Err? ==> outcome.error == InvalidCredentials && users == old(users)
      ensures outcome.Ok? ==>
        var i := FirstIndex(old(users), CanSignIn(username)).value;
        && users == old(users)[i := old(users)[i].(lastLogin := Some(now))]
        && outcome.value == users[i]
        && outcome.value.username == username && outcome.value.password == password && outcome.value.isActive
    {
      var i := FindIndex(users, CanSignIn(username));
      if i == -1 {
        return Err(InvalidCredentials);
      }
      if users[i].password != password {
        return Err(InvalidCredentials);
      }
      var user := users[i].(lastLogin := Some(now));
      users := users[i := user];
      outcome := Ok(user);
    }
  }

  /** initializeSystemData: keep the stored state when there is one, otherwise
      create the fresh hotel, which satisfies the occupancy invariant. */
  method InitializeSystemData(stored: Hotel?) returns (h: Hotel)
    ensures stored != null ==> h == stored
    ensures stored == null ==>
      && fresh(h)
      && |h.rooms| == 30
      && (forall i :: 0 <= i < 30 ==> h.rooms[i] == Inventory.PlannedRoom(i / 5, i % 5))
      && h.guests == [] && h.transactions == []
      && h.users == [Inventory.AdminUser] && h.settings == Inventory.DefaultSettings
      && h.roomTypes == Inventory.StandardTypes
      && h.Valid()
  {
    if stored != null {
      return stored;
    }
    var rooms := Inventory.BuildRooms();
    Inventory.FreshRoomsConsistent(rooms);
    h := new Hotel(rooms, [], [], [Inventory.AdminUser], Inventory.DefaultSettings, Inventory.StandardTypes);
  }

  // ---------------------------------------------------------------------------
  // Properties of the workflow

  /** Check-in's verdict does not depend on the room's status: a room's status
      can be anything and check-in decides the same way. */
  lemma CheckInIgnoresStatus(rooms: seq<Room>, form: CheckInForm, i: nat, status: RoomStatus)
    requires i < |rooms|
    ensures CheckInVerdict(rooms[i := rooms[i].(status := status)], form) == CheckInVerdict(rooms, form)
  {
    FirstIndexUpdateSame(rooms, i, rooms[i].(status := status), HasNumber(form.roomNumber));
  }

  /** A party exactly the room's capacity is accepted; one more person is refused. */
  lemma CapacityIsInclusive(rooms: seq<Room>, form: CheckInForm, i: nat)
    requires form.guestName != "" && form.guestPhone != "" && form.roomNumber != ""
    requires FirstIndex(rooms, HasNumber(form.roomNumber)) == Some(i)
    ensures form.adults + form.children == rooms[i].maxGuests ==> CheckInVerdict(rooms, form) == Pass
    ensures form.adults + form.children == rooms[i].maxGuests + 1 ==> CheckInVerdict(rooms, form) == Fail(OverCapacity)
  {
  }

  /** Whenever the dialog opens and a reason is chosen, confirming succeeds if
      nothing changed in between. */
  lemma OpenThenConfirm(rooms: seq<Room>, guests: seq<Guest>, selected: string, reason: string)
    requires OpenOutOfOrderVerdict(rooms, guests, selected).Pass? && reason != ""
    ensures ConfirmOutOfOrderVerdict(rooms, guests, selected, reason).Pass?
  {
  }

  /** Confirming does not re-check the status: a room already out of order with
      no stay is refused by the dialog guard but accepted by the confirmation. */
  lemma ConfirmSkipsOutOfOrderCheck(rooms: seq<Room>, guests: seq<Guest>, selected: string, reason: string)
    requires selected != "" && reason != ""
    requires FirstIndex(rooms, HasNumber(selected)).Some?
    requires rooms[FirstIndex(rooms, HasNumber(selected)).value].status == OutOfOrder
    requires ActiveGuest(guests, selected).None?
    ensures OpenOutOfOrderVerdict(rooms, guests, selected) == Fail(AlreadyOutOfOrder)
    ensures ConfirmOutOfOrderVerdict(rooms, guests, selected, reason) == Pass
  {
  }

  /** The amount check-out records is the total the preview showed for the same
      room and extra charges. */
  lemma CheckoutMatchesPreview(guests: seq<Guest>, roomNumber: string, extraInput: Option<real>, vatRate: real)
    requires roomNumber != "" && ActiveGuest(guests, roomNumber).Some?
    ensures
      var g := guests[ActiveGuest(guests, roomNumber).value];
      CheckoutPreview(guests, roomNumber, extraInput, vatRate)
        == Some(ComputeBill(g.nights, g.roomRate, ExtraCharges(extraInput), vatRate))
  {
  }

  /** Three nights at 2000 with 300 of extras at 12% VAT settle for 7056. */
  lemma CheckOutExample()
    ensures ComputeBill(3, 2000.0, ExtraCharges(Some(300.0)), PhVatRate).total == 7056.0
  {
  }

  /** Removing a user keeps every other user, in order, and removes exactly the
      users with that id. */
  lemma {:induction false} DeleteKeepsOthers(users: seq<User>, id: string)
    ensures |Filter(users, IdIsNot(id))| + |Filter(users, HasUserId(id))| == |users|
    ensures FirstIndex(users, HasUserId(id)).None? ==> Filter(users, IdIsNot(id)) == users
  {
    if users != [] {
      var init, last := users[..|users| - 1], users[|users| - 1];
      DeleteKeepsOthers(init, id);
    }
    if FirstIndex(users, HasUserId(id)).None? {
      FilterKeepsAll(users, IdIsNot(id));
    }
  }

  function HasUserId(id: string): User -> bool
  {
    (u: User) => u.id == id
  }
}
