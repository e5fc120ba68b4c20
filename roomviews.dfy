/** What the room pickers and the room-management grid are built from: the
    vacant rooms offered at check-in, the occupied rooms offered at check-out
    with their guests' names, the rate filled in when a room is picked, and
    the rooms grouped by floor. */
module RoomViews {
  import opened Seqs
  import opened Records

  /** The check-in selector: the forEach over rooms that appends an option per
      vacant room, in stored order. */
  method VacantChoices(rooms: seq<Room>) returns (choices: seq<Room>)
    ensures choices == Filter(rooms, HasStatus(Vacant))
  {
    choices := [];
    var i := 0;
    while i < |rooms|
      invariant 0 <= i <= |rooms|
      invariant choices == Filter(rooms[..i], HasStatus(Vacant))
    {
      assert rooms[..i + 1] == rooms[..i] + [rooms[i]];
      FilterSnoc(rooms[..i], rooms[i], HasStatus(Vacant));
      if rooms[i].status == Vacant {
        choices := choices + [rooms[i]];
      }
      i := i + 1;
    }
    assert rooms[..i] == rooms;
  }

  /** A room is offered at check-in exactly when it is one of the stored rooms
      and is vacant; offered rooms keep their stored order. */
  lemma {:induction false} VacantChoicesAreVacantRooms(rooms: seq<Room>, r: Room)
    ensures r in Filter(rooms, HasStatus(Vacant)) <==> r in rooms && r.status == Vacant
  {
    FilterMembership(rooms, HasStatus(Vacant), r);
  }

  /** One option of the check-out selector. */
  datatype RoomOption = RoomOption(number: string, roomType: string, guestName: string)

  /** The option for an occupied room: the name of its first checked-in stay,
      or 'Unknown' when there is none. */
  function OptionFor(r: Room, guests: seq<Guest>): (o: RoomOption)
    ensures o.number == r.number && o.roomType == r.roomType
    ensures ActiveGuest(guests, r.number).None? ==> o.guestName == "Unknown"
    ensures ActiveGuest(guests, r.number).Some? ==>
              o.guestName == guests[ActiveGuest(guests, r.number).value].name
  {
    match ActiveGuest(guests, r.number)
    case Some(k) => RoomOption(r.number, r.roomType, guests[k].name)
    case None => RoomOption(r.number, r.roomType, "Unknown")
  }

  /** The check-out selector: one option per occupied room, in stored order. */
  method OccupiedOptions(rooms: seq<Room>, guests: seq<Guest>) returns (options: seq<RoomOption>)
    ensures |options| == |Filter(rooms, HasStatus(Occupied))|
    ensures forall k :: 0 <= k < |options| ==>
              options[k] == OptionFor(Filter(rooms, HasStatus(Occupied))[k], guests)
  {
    options := [];
    var i := 0;
    while i < |rooms|
      invariant 0 <= i <= |rooms|
      invariant |options| == |Filter(rooms[..i], HasStatus(Occupied))|
      invariant forall k :: 0 <= k < |options| ==>
                  options[k] == OptionFor(Filter(rooms[..i], HasStatus(Occupied))[k], guests)
    {
      assert rooms[..i + 1] == rooms[..i] + [rooms[i]];
      FilterSnoc(rooms[..i], rooms[i], HasStatus(Occupied));
      if rooms[i].status == Occupied {
        var room := rooms[i];
        var guestIndex := FindIndex(guests, ActiveIn(room.number));
        var name := if guestIndex == -1 then "Unknown" else guests[guestIndex].name;
        options := options + [RoomOption(room.number, room.roomType, name)];
      }
      i := i + 1;
    }
    assert rooms[..i] == rooms;
  }

  /** Under the occupancy invariant every occupied room has its stay, so each
      check-out option names the guest actually checked into that room. */
  lemma OptionsNameTheirGuests(rooms: seq<Room>, guests: seq<Guest>, k: nat)
    requires Consistent(rooms, guests)
    requires k < |Filter(rooms, HasStatus(Occupied))|
    ensures
      var r := Filter(rooms, HasStatus(Occupied))[k];
      && ActiveGuest(guests, r.number).Some?
      && OptionFor(r, guests).guestName == guests[ActiveGuest(guests, r.number).value].name
      && guests[ActiveGuest(guests, r.number).value].room == r.number
  {
    var r := Filter(rooms, HasStatus(Occupied))[k];
    FilterMembership(rooms, HasStatus(Occupied), r);
    var i :| 0 <= i < |rooms| && rooms[i] == r;
    assert RoomAgrees(rooms[i], guests);
    FilterEmptyIffNoMatch(guests, ActiveIn(r.number));
  }

  /** updateRoomRate: once a room is picked, the form gets that room's rate and
      its capacity becomes the limit on adults; nothing happens for an empty
      pick or an unknown room. */
  function PickedRoomRate(rooms: seq<Room>, selected: string): (r: Option<(real, nat)>)
    ensures r.Some? <==> selected != "" && FirstIndex(rooms, HasNumber(selected)).Some?
    ensures r.Some? ==>
      var i := FirstIndex(rooms, HasNumber(selected)).value;
      && rooms[i].number == selected
      && r.value == (rooms[i].rate, rooms[i].maxGuests)
      && forall j :: 0 <= j < i ==> rooms[j].number != selected
  {
    if selected == "" then None
    else match FirstIndex(rooms, HasNumber(selected))
      case None => None
      case Some(i) => Some((rooms[i].rate, rooms[i].maxGuests))
  }

  function OnFloor(floor: int): Room -> bool
  {
    (r: Room) => r.floor == floor
  }

  /** renderRoomManagement's grouping: a dictionary from floor to the rooms on
      it, each list in stored order; the floors present are exactly the floors
      of the rooms. */
  method GroupByFloor(rooms: seq<Room>) returns (floors: map<int, seq<Room>>)
    ensures forall f :: f in floors <==> Filter(rooms, OnFloor(f)) != []
    ensures forall f :: f in floors ==> floors[f] == Filter(rooms, OnFloor(f))
  {
    floors := map[];
    var i := 0;
    while i < |rooms|
      invariant 0 <= i <= |rooms|
      invariant forall f :: f in floors <==> Filter(rooms[..i], OnFloor(f)) != []
      invariant forall f :: f in floors ==> floors[f] == Filter(rooms[..i], OnFloor(f))
    {
      var room := rooms[i];
      assert rooms[..i + 1] == rooms[..i] + [room];
      forall f ensures Filter(rooms[..i + 1], OnFloor(f)) ==
                       Filter(rooms[..i], OnFloor(f)) + (if room.floor == f then [room] else []) {
        FilterSnoc(rooms[..i], room, OnFloor(f));
      }
      if room.floor !in floors {
        floors := floors[room.floor := []];
      }
      floors := floors[room.floor := floors[room.floor] + [room]];
      i := i + 1;
    }
    assert rooms[..i] == rooms;
  }

  /** Every room appears in the group of its own floor, and only there. */
  lemma GroupOfItsFloor(rooms: seq<Room>, r: Room, f: int)
    ensures r in Filter(rooms, OnFloor(f)) <==> r in rooms && r.floor == f
  {
    FilterMembership(rooms, OnFloor(f), r);
  }
}
