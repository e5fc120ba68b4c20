/** The data a first start writes when no hotel state is stored yet: thirty
    vacant rooms on six floors, three room types, one administrator, default
    settings and empty guest and transaction lists. */
module Inventory {
  import opened Seqs
  import opened Records
  import Text

  datatype FloorLayout = FloorLayout(number: int, rooms: seq<string>)

  const StandardTypes: seq<RoomType> := [
    RoomType("Standard", 2500.0, 2, 1),
    RoomType("Deluxe", 4500.0, 4, 2),
    RoomType("Suite", 7500.0, 4, 2)
  ]

  const Floors: seq<FloorLayout> := [
    FloorLayout(1, ["101", "102", "103", "104", "105"]),
    FloorLayout(2, ["106", "107", "108", "109", "110"]),
    FloorLayout(3, ["201", "202", "203", "204", "205"]),
    FloorLayout(4, ["206", "207", "208", "209", "210"]),
    FloorLayout(5, ["301", "302", "303", "304", "305"]),
    FloorLayout(6, ["306", "307", "308", "309", "310"])
  ]

  const AdminUser: User := User("1", "admin", "admin123", "System Administrator", "admin", None, true)

  const DefaultSettings: Settings := Settings("HotelM8", "", "", 0.12)

  lemma FloorsShape()
    ensures |Floors| == 6
    ensures forall f :: 0 <= f < 6 ==> |Floors[f].rooms| == 5 && Floors[f].number == f + 1
  {
  }

  /** The room generated for position k of the floor at index f: the type at
      index k mod 3, with that type's rate, capacity and beds, vacant, with no
      guest and no out-of-order information. */
  function PlannedRoom(f: nat, k: nat): Room
    requires f < 6 && k < 5
  {
    FloorsShape();
    var t := StandardTypes[k % 3];
    Room(Floors[f].rooms[k], t.name, t.rate, t.maxGuests, t.beds, Vacant, None, Floors[f].number, None)
  }

  /** The nested floor/room loop that fills the fresh room list. */
  method BuildRooms() returns (rooms: seq<Room>)
    ensures |rooms| == 30
    ensures forall i :: 0 <= i < 30 ==> rooms[i] == PlannedRoom(i / 5, i % 5)
  {
    FloorsShape();
    rooms := [];
    var f := 0;
    while f < |Floors|
      invariant 0 <= f <= 6
      invariant |rooms| == 5 * f
      invariant forall i :: 0 <= i < |rooms| ==> rooms[i] == PlannedRoom(i / 5, i % 5)
    {
      var floor := Floors[f];
      var k := 0;
      while k < |floor.rooms|
        invariant 0 <= k <= 5
        invariant |rooms| == 5 * f + k
        invariant forall i :: 0 <= i < |rooms| ==> rooms[i] == PlannedRoom(i / 5, i % 5)
      {
        var t := StandardTypes[k % 3];
        var room := Room(floor.rooms[k], t.name, t.rate, t.maxGuests, t.beds, Vacant, None, floor.number, None);
        assert (5 * f + k) / 5 == f && (5 * f + k) % 5 == k;
        assert room == PlannedRoom(f, k);
        rooms := rooms + [room];
        k := k + 1;
      }
      f := f + 1;
    }
  }

  /** The three-digit code of the room at position k of the floor at index f, as
      the floor plan lists it. */
  function RoomCode(f: nat, k: nat): string
    requires f < 6 && k < 5
  {
    var tail := 5 * (f % 2) + k + 1;
    [Text.Digit(f / 2 + 1), Text.Digit(tail / 10), Text.Digit(tail % 10)]
  }

  /** The floor plan's codes are the digits of the floor's hundred and the
      room's place on its floor. */
  lemma FloorPlanCodes(f: nat, k: nat)
    requires f < 6 && k < 5
    ensures Floors[f].rooms[k] == RoomCode(f, k)
  {
    var tail := 5 * (f % 2) + k + 1;
    DigitsSpelled();
    assert RoomCode(f, k) == [Text.Digit(f / 2 + 1), Text.Digit(tail / 10), Text.Digit(tail % 10)];
    if f == 0 {
      assert Floors[f].rooms == ["101", "102", "103", "104", "105"];
    } else if f == 1 {
      assert Floors[f].rooms == ["106", "107", "108", "109", "110"];
    } else if f == 2 {
      assert Floors[f].rooms == ["201", "202", "203", "204", "205"];
    } else if f == 3 {
      assert Floors[f].rooms == ["206", "207", "208", "209", "210"];
    } else if f == 4 {
      assert Floors[f].rooms == ["301", "302", "303", "304", "305"];
    } else {
      assert Floors[f].rooms == ["306", "307", "308", "309", "310"];
    }
  }

  lemma DigitsSpelled()
    ensures Text.Digit(0) == '0' && Text.Digit(1) == '1' && Text.Digit(2) == '2' && Text.Digit(3) == '3' && Text.Digit(4) == '4'
    ensures Text.Digit(5) == '5' && Text.Digit(6) == '6' && Text.Digit(7) == '7' && Text.Digit(8) == '8' && Text.Digit(9) == '9'
  {
  }

  /** The generated room numbers are pairwise distinct. */
  lemma PlannedNumbersDistinct(i: nat, j: nat)
    requires i < j < 30
    ensures PlannedRoom(i / 5, i % 5).number != PlannedRoom(j / 5, j % 5).number
  {
    FloorPlanCodes(i / 5, i % 5);
    FloorPlanCodes(j / 5, j % 5);
  }

  /** The freshly generated hotel satisfies the occupancy invariant: distinct
      room numbers, every room vacant with no guest and no out-of-order
      information, and no stays. */
  lemma FreshRoomsConsistent(rooms: seq<Room>)
    requires |rooms| == 30
    requires forall i :: 0 <= i < 30 ==> rooms[i] == PlannedRoom(i / 5, i % 5)
    ensures Consistent(rooms, [])
  {
    forall i, j | 0 <= i < j < |rooms| ensures rooms[i].number != rooms[j].number {
      PlannedNumbersDistinct(i, j);
    }
  }
}
