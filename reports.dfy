/** The reports page: the custom-period guard, the period filter and its
    summary figures, the per-type occupancy and revenue breakdowns and the ten
    most recent period transactions. Days are given as midnight timestamps in
    milliseconds; a period runs to 23:59:59 of its last day. */
module Reports {
  import opened Seqs
  import opened Records

  /** 23:59:59 after midnight, in milliseconds. */
  const LastSecondOfDay: int := 86_399_000

  datatype ReportError = MissingDates | StartAfterEnd

  /** generateCustomReport: both days must be picked and the first must not be
      after the last; a one-day period is allowed. The result is the first and
      last instant of the period. */
  function CustomReportRange(startDay: Option<int>, endDay: Option<int>): (r: Result<(int, int), ReportError>)
    ensures startDay.None? || endDay.None? ==> r == Err(MissingDates)
    ensures r.Ok? <==> startDay.Some? && endDay.Some? && startDay.value <= endDay.value
    ensures r.Ok? ==> r.value.0 == startDay.value && r.value.1 == endDay.value + LastSecondOfDay
    ensures r.Ok? ==> r.value.0 < r.value.1
  {
    if startDay.None? || endDay.None? then Err(MissingDates)
    else if startDay.value > endDay.value then Err(StartAfterEnd)
    else Ok((startDay.value, endDay.value + LastSecondOfDay))
  }

  function InPeriod(start: int, end: int): Transaction -> bool
  {
    (t: Transaction) => start <= t.date <= end
  }

  function IsKind(kind: TxKind): Transaction -> bool
  {
    (t: Transaction) => t.kind == kind
  }

  /** The transactions dated within the period, both ends included, in log order. */
  function PeriodTransactions(txs: seq<Transaction>, start: int, end: int): (p: seq<Transaction>)
    ensures |p| <= |txs|
    ensures forall k :: 0 <= k < |p| ==> start <= p[k].date <= end
  {
    Filter(txs, InPeriod(start, end))
  }

  /** A transaction is in the period exactly when it is logged and dated inside it. */
  lemma PeriodMembership(txs: seq<Transaction>, start: int, end: int, t: Transaction)
    ensures t in PeriodTransactions(txs, start, end) <==> t in txs && start <= t.date <= end
  {
    FilterMembership(txs, InPeriod(start, end), t);
  }

  /** The sum of the amounts of the check-out transactions of a list. */
  function Revenue(txs: seq<Transaction>): real
  {
    Sum(Filter(txs, IsKind(CheckOutTx)), Amount)
  }

  /** occupied / total * 100, or 0 without rooms. It reads the rooms' current
      statuses only. */
  function OccupancyRate(rooms: seq<Room>): (rate: real)
    ensures 0.0 <= rate <= 100.0
    ensures |rooms| == 0 ==> rate == 0.0
    ensures |rooms| > 0 ==> rate * |rooms| as real == 100.0 * |Filter(rooms, HasStatus(Occupied))| as real
  {
    if |rooms| > 0 then
      (|Filter(rooms, HasStatus(Occupied))| as real / |rooms| as real) * 100.0
    else 0.0
  }

  /** Every room occupied gives 100. */
  lemma OccupancyFull(rooms: seq<Room>)
    requires |rooms| > 0
    requires forall k :: 0 <= k < |rooms| ==> rooms[k].status == Occupied
    ensures OccupancyRate(rooms) == 100.0
  {
    FilterKeepsAll(rooms, HasStatus(Occupied));
    var n := |rooms| as real;
    assert OccupancyRate(rooms) == (n / n) * 100.0;
    assert n / n == 1.0;
  }

  /** No room occupied gives 0. */
  lemma OccupancyEmpty(rooms: seq<Room>)
    requires forall k :: 0 <= k < |rooms| ==> rooms[k].status != Occupied
    ensures OccupancyRate(rooms) == 0.0
  {
    FilterEmptyIffNoMatch(rooms, HasStatus(Occupied));
    if |rooms| > 0 {
      var n := |rooms| as real;
      assert OccupancyRate(rooms) == (0.0 / n) * 100.0;
    }
  }

  /** With non-negative amounts, a period's revenue is non-negative. */
  lemma PeriodRevenueNonNegative(txs: seq<Transaction>, start: int, end: int)
    ensures (forall k :: 0 <= k < |txs| ==> txs[k].amount >= 0.0) ==>
              Revenue(PeriodTransactions(txs, start, end)) >= 0.0
  {
    var period := PeriodTransactions(txs, start, end);
    var checkouts := Filter(period, IsKind(CheckOutTx));
    if forall k :: 0 <= k < |txs| ==> txs[k].amount >= 0.0 {
      forall k | 0 <= k < |checkouts| ensures Amount(checkouts[k]) >= 0.0 {
        FilterMembership(period, IsKind(CheckOutTx), checkouts[k]);
        FilterMembership(txs, InPeriod(start, end), checkouts[k]);
      }
      SumNonNegative(checkouts, Amount);
    }
  }

  datatype Summary = Summary(
    currentGuests: nat, checkins: nat, checkouts: nat, totalRevenue: real, occupancyRate: real)

  /** generateReportForPeriod's summary cards. */
  function ReportForPeriod(txs: seq<Transaction>, guests: seq<Guest>, rooms: seq<Room>, start: int, end: int)
    : (s: Summary)
    ensures s.checkins == |Filter(PeriodTransactions(txs, start, end), IsKind(CheckInTx))|
    ensures s.checkouts == |Filter(PeriodTransactions(txs, start, end), IsKind(CheckOutTx))|
    ensures s.totalRevenue == Revenue(PeriodTransactions(txs, start, end))
    ensures s.checkins + s.checkouts == |PeriodTransactions(txs, start, end)|
    ensures PeriodTransactions(txs, start, end) == [] ==> s.totalRevenue == 0.0
    ensures (forall k :: 0 <= k < |txs| ==> txs[k].amount >= 0.0) ==> s.totalRevenue >= 0.0
    ensures s.currentGuests == |Filter(guests, IsCheckedIn)| && s.currentGuests <= |guests|
    ensures s.occupancyRate == OccupancyRate(rooms)
  {
    var period := PeriodTransactions(txs, start, end);
    FilterSplit(period, IsKind(CheckInTx), IsKind(CheckOutTx));
    PeriodRevenueNonNegative(txs, start, end);
    Summary(
      |Filter(guests, IsCheckedIn)|,
      |Filter(period, IsKind(CheckInTx))|,
      |Filter(period, IsKind(CheckOutTx))|,
      Revenue(period),
      OccupancyRate(rooms))
  }

  // ---------------------------------------------------------------------------
  // Room occupancy by type

  /** One entry of the per-type occupancy dictionary. */
  datatype TypeTally = TypeTally(roomType: string, total: nat, occupied: nat)

  function TallyOf(roomType: string): TypeTally -> bool
  {
    (e: TypeTally) => e.roomType == roomType
  }

  function OfType(roomType: string): Room -> bool
  {
    (r: Room) => r.roomType == roomType
  }

  function OccupiedOfType(roomType: string): Room -> bool
  {
    (r: Room) => r.roomType == roomType && r.status == Occupied
  }

  function TallyTotal(e: TypeTally): real
  {
    e.total as real
  }

  function TallyOccupied(e: TypeTally): real
  {
    e.occupied as real
  }

  /** The dictionary after counting one more room: its type's entry is created
      (at the end, so keys keep first-seen order) or incremented. */
  function Bump(tally: seq<TypeTally>, r: Room): seq<TypeTally>
  {
    var hit := if r.status == Occupied then 1 else 0;
    match FirstIndex(tally, TallyOf(r.roomType))
    case Some(j) => tally[j := TypeTally(r.roomType, tally[j].total + 1, tally[j].occupied + hit)]
    case None => tally + [TypeTally(r.roomType, 1, hit)]
  }

  /** The dictionary after counting every room in order. */
  function Tally(rooms: seq<Room>): seq<TypeTally>
  {
    if rooms == [] then [] else Bump(Tally(rooms[..|rooms| - 1]), rooms[|rooms| - 1])
  }

  /** One step of the occupancy forEach: create or increment the room's entry. */
  method CountRoom(tally: seq<TypeTally>, room: Room) returns (tally': seq<TypeTally>)
    ensures tally' == Bump(tally, room)
  {
    var j := FindIndex(tally, TallyOf(room.roomType));
    var hit := if room.status == Occupied then 1 else 0;
    if j == -1 {
      tally' := tally + [TypeTally(room.roomType, 1, hit)];
    } else {
      tally' := tally[j := TypeTally(room.roomType, tally[j].total + 1, tally[j].occupied + hit)];
    }
  }

  /** The forEach that fills the per-type occupancy dictionary. */
  method OccupancyByType(rooms: seq<Room>) returns (tally: seq<TypeTally>)
    ensures tally == Tally(rooms)
  {
    tally := [];
    var i := 0;
    while i < |rooms|
      invariant 0 <= i <= |rooms|
      invariant tally == Tally(rooms[..i])
    {
      assert rooms[..i + 1][..i] == rooms[..i];
      tally := CountRoom(tally, rooms[i]);
      i := i + 1;
    }
    assert rooms[..i] == rooms;
  }

  /** No room type has two entries. */
  ghost predicate DistinctKeys(tally: seq<TypeTally>)
  {
    forall i, j :: 0 <= i < j < |tally| ==> tally[i].roomType != tally[j].roomType
  }

  /** Every room's type has an entry. */
  ghost predicate CoversTypes(tally: seq<TypeTally>, rooms: seq<Room>)
  {
    forall k :: 0 <= k < |rooms| ==> FirstIndex(tally, TallyOf(rooms[k].roomType)).Some?
  }

  /** Each entry holds the number of rooms of its type and how many of those
      are occupied. */
  ghost predicate CountsRooms(tally: seq<TypeTally>, rooms: seq<Room>)
  {
    forall j :: 0 <= j < |tally| ==>
      && tally[j].total == |Filter(rooms, OfType(tally[j].roomType))|
      && tally[j].occupied == |Filter(rooms, OccupiedOfType(tally[j].roomType))|
  }

  /** What the dictionary means: one entry per room type present, no key
      twice, each with its room counts. */
  ghost predicate TallyFaithful(tally: seq<TypeTally>, rooms: seq<Room>)
  {
    DistinctKeys(tally) && CoversTypes(tally, rooms) && CountsRooms(tally, rooms)
  }

  lemma BumpDistinct(tally: seq<TypeTally>, r: Room)
    requires DistinctKeys(tally)
    ensures DistinctKeys(Bump(tally, r))
  {
  }

  /** After counting r, r's type has an entry and every type that had one still has. */
  lemma BumpKeepsEntry(tally: seq<TypeTally>, r: Room, ty: string)
    requires FirstIndex(tally, TallyOf(ty)).Some? || ty == r.roomType
    ensures FirstIndex(Bump(tally, r), TallyOf(ty)).Some?
  {
    var tally' := Bump(tally, r);
    match FirstIndex(tally, TallyOf(r.roomType))
    case Some(j) =>
      FirstIndexUpdateSame(tally, j, tally'[j], TallyOf(ty));
    case None =>
      FirstIndexSnoc(tally, tally'[|tally|], TallyOf(ty));
  }

  lemma BumpCovers(tally: seq<TypeTally>, rooms: seq<Room>, r: Room)
    requires CoversTypes(tally, rooms)
    ensures CoversTypes(Bump(tally, r), rooms + [r])
  {
    var rooms' := rooms + [r];
    forall k | 0 <= k < |rooms'| ensures FirstIndex(Bump(tally, r), TallyOf(rooms'[k].roomType)).Some? {
      if k < |rooms| {
        assert rooms'[k] == rooms[k];
      }
      BumpKeepsEntry(tally, r, rooms'[k].roomType);
    }
  }

  lemma BumpCounts(tally: seq<TypeTally>, rooms: seq<Room>, r: Room)
    requires TallyFaithful(tally, rooms)
    ensures CountsRooms(Bump(tally, r), rooms + [r])
  {
    var rooms' := rooms + [r];
    var tally' := Bump(tally, r);
    forall j | 0 <= j < |tally'| ensures
      && tally'[j].total == |Filter(rooms', OfType(tally'[j].roomType))|
      && tally'[j].occupied == |Filter(rooms', OccupiedOfType(tally'[j].roomType))|
    {
      var ty := tally'[j].roomType;
      FilterSnoc(rooms, r, OfType(ty));
      FilterSnoc(rooms, r, OccupiedOfType(ty));
      if j == |tally| {
        assert ty == r.roomType;
        forall k | 0 <= k < |rooms| ensures !OfType(ty)(rooms[k]) {
          assert FirstIndex(tally, TallyOf(rooms[k].roomType)).Some?;
        }
        FilterEmptyIffNoMatch(rooms, OfType(ty));
        FilterLengthMonotone(rooms, OccupiedOfType(ty), OfType(ty));
      }
    }
  }

  lemma BumpFaithful(tally: seq<TypeTally>, rooms: seq<Room>, r: Room)
    requires TallyFaithful(tally, rooms)
    ensures TallyFaithful(Bump(tally, r), rooms + [r])
  {
    BumpDistinct(tally, r);
    BumpCovers(tally, rooms, r);
    BumpCounts(tally, rooms, r);
  }

  lemma {:induction false} TallyIsFaithful(rooms: seq<Room>)
    ensures TallyFaithful(Tally(rooms), rooms)
  {
    if rooms != [] {
      var init, last := rooms[..|rooms| - 1], rooms[|rooms| - 1];
      assert init + [last] == rooms;
      assert Tally(rooms) == Bump(Tally(init), last);
      TallyIsFaithful(init);
      BumpFaithful(Tally(init), init, last);
    }
  }

  /** The totals add up to the number of rooms and the occupied counts to the
      number of occupied rooms. */
  lemma {:induction false} TallySums(rooms: seq<Room>)
    ensures Sum(Tally(rooms), TallyTotal) == |rooms| as real
    ensures Sum(Tally(rooms), TallyOccupied) == |Filter(rooms, HasStatus(Occupied))| as real
  {
    if rooms != [] {
      var init, last := rooms[..|rooms| - 1], rooms[|rooms| - 1];
      TallySums(init);
      var t := Tally(init);
      match FirstIndex(t, TallyOf(last.roomType))
      case Some(j) =>
        SumUpdate(t, j, Bump(t, last)[j], TallyTotal);
        SumUpdate(t, j, Bump(t, last)[j], TallyOccupied);
      case None =>
        SumSnoc(t, Bump(t, last)[|t|], TallyTotal);
        SumSnoc(t, Bump(t, last)[|t|], TallyOccupied);
    }
  }

  /** The per-type figures the page shows: each type's occupied count is at most
      its total, and the totals cover every room exactly once. */
  lemma OccupancyByTypeBounds(rooms: seq<Room>, j: nat)
    requires j < |Tally(rooms)|
    ensures Tally(rooms)[j].occupied <= Tally(rooms)[j].total
    ensures Tally(rooms)[j].total >= 1
  {
    TallyIsFaithful(rooms);
    var ty := Tally(rooms)[j].roomType;
    FilterLengthMonotone(rooms, OccupiedOfType(ty), OfType(ty));
    TallyNonEmpty(rooms, j);
  }

  lemma {:induction false} TallyNonEmpty(rooms: seq<Room>, j: nat)
    requires j < |Tally(rooms)|
    ensures Tally(rooms)[j].total >= 1
  {
    var init, last := rooms[..|rooms| - 1], rooms[|rooms| - 1];
    var t := Tally(init);
    if j < |t| {
      TallyNonEmpty(init, j);
    }
  }

  // ---------------------------------------------------------------------------
  // Revenue by type

  /** One entry of the per-type revenue dictionary. */
  datatype TypeRevenue = TypeRevenue(roomType: string, amount: real)

  function RevenueOf(roomType: string): TypeRevenue -> bool
  {
    (e: TypeRevenue) => e.roomType == roomType
  }

  function RevenueAmount(e: TypeRevenue): real
  {
    e.amount
  }

  /** The type a check-out is credited to: the non-empty current type of the
      room of the first stay with the transaction's guest id; nothing when the
      stay or its room is missing or the type is empty. */
  function CreditedType(t: Transaction, guests: seq<Guest>, rooms: seq<Room>): Option<string>
  {
    match FirstIndex(guests, HasGuestId(t.guestId))
    case None => None
    case Some(g) =>
      match FirstIndex(rooms, HasNumber(guests[g].room))
      case None => None
      case Some(i) => if rooms[i].roomType != "" then Some(rooms[i].roomType) else None
  }

  /** The part of a transaction's amount the breakdown credits to some type. */
  function Credited(guests: seq<Guest>, rooms: seq<Room>): Transaction -> real
  {
    (t: Transaction) => if CreditedType(t, guests, rooms).Some? then t.amount else 0.0
  }

  /** The dictionary after crediting amount to roomType. */
  function Credit(table: seq<TypeRevenue>, roomType: string, amount: real): seq<TypeRevenue>
  {
    match FirstIndex(table, RevenueOf(roomType))
    case Some(j) => table[j := TypeRevenue(roomType, table[j].amount + amount)]
    case None => table + [TypeRevenue(roomType, amount)]
  }

  /** The dictionary after crediting each check-out of a list in order. */
  function RevenueTable(checkouts: seq<Transaction>, guests: seq<Guest>, rooms: seq<Room>): seq<TypeRevenue>
  {
    if checkouts == [] then []
    else
      var table := RevenueTable(checkouts[..|checkouts| - 1], guests, rooms);
      var t := checkouts[|checkouts| - 1];
      match CreditedType(t, guests, rooms)
      case None => table
      case Some(ty) => Credit(table, ty, t.amount)
  }

  /** One step of the revenue forEach: look up the stay and its room and, when
      the room has a type, add the amount to that type's entry. */
  method CreditCheckOut(table: seq<TypeRevenue>, t: Transaction, guests: seq<Guest>, rooms: seq<Room>)
    returns (table': seq<TypeRevenue>)
    ensures table' == match CreditedType(t, guests, rooms)
                      case None => table
                      case Some(ty) => Credit(table, ty, t.amount)
  {
    table' := table;
    var g := FindIndex(guests, HasGuestId(t.guestId));
    if g != -1 {
      var r := FindIndex(rooms, HasNumber(guests[g].room));
      if r != -1 && rooms[r].roomType != "" {
        var ty := rooms[r].roomType;
        var j := FindIndex(table, RevenueOf(ty));
        if j == -1 {
          table' := table + [TypeRevenue(ty, t.amount)];
        } else {
          table' := table[j := TypeRevenue(ty, table[j].amount + t.amount)];
        }
      }
    }
  }

  /** The forEach over the period's check-outs that fills the revenue dictionary. */
  method RevenueByType(period: seq<Transaction>, guests: seq<Guest>, rooms: seq<Room>)
    returns (table: seq<TypeRevenue>)
    ensures table == RevenueTable(Filter(period, IsKind(CheckOutTx)), guests, rooms)
  {
    var checkouts := Filter(period, IsKind(CheckOutTx));
    table := [];
    var i := 0;
    while i < |checkouts|
      invariant 0 <= i <= |checkouts|
      invariant table == RevenueTable(checkouts[..i], guests, rooms)
    {
      assert checkouts[..i + 1][..i] == checkouts[..i];
      table := CreditCheckOut(table, checkouts[i], guests, rooms);
      i := i + 1;
    }
    assert checkouts[..i] == checkouts;
  }

  /** The breakdown's entries add up to the credited part of the check-outs. */
  lemma {:induction false} RevenueTableSum(checkouts: seq<Transaction>, guests: seq<Guest>, rooms: seq<Room>)
    ensures Sum(RevenueTable(checkouts, guests, rooms), RevenueAmount) == Sum(checkouts, Credited(guests, rooms))
  {
    if checkouts != [] {
      var init, t := checkouts[..|checkouts| - 1], checkouts[|checkouts| - 1];
      RevenueTableSum(init, guests, rooms);
      var table := RevenueTable(init, guests, rooms);
      match CreditedType(t, guests, rooms)
      case None =>
      case Some(ty) =>
        match FirstIndex(table, RevenueOf(ty))
        case Some(j) => SumUpdate(table, j, Credit(table, ty, t.amount)[j], RevenueAmount);
        case None => SumSnoc(table, Credit(table, ty, t.amount)[|table|], RevenueAmount);
    }
  }

  /** The check-outs the breakdown credits to roomType. */
  function CreditedTo(roomType: string, guests: seq<Guest>, rooms: seq<Room>): Transaction -> bool
  {
    (t: Transaction) => CreditedType(t, guests, rooms) == Some(roomType)
  }

  /** No room type has two revenue entries. */
  ghost predicate DistinctTypes(table: seq<TypeRevenue>)
  {
    forall i, j :: 0 <= i < j < |table| ==> table[i].roomType != table[j].roomType
  }

  /** Each entry holds the sum of the check-outs credited to its type. */
  ghost predicate SumsCredits(table: seq<TypeRevenue>, checkouts: seq<Transaction>, guests: seq<Guest>, rooms: seq<Room>)
  {
    forall j :: 0 <= j < |table| ==>
      table[j].amount == Sum(Filter(checkouts, CreditedTo(table[j].roomType, guests, rooms)), Amount)
  }

  /** A type without an entry has no check-out credited to it. */
  ghost predicate MissingUncredited(table: seq<TypeRevenue>, checkouts: seq<Transaction>, guests: seq<Guest>, rooms: seq<Room>)
  {
    forall ty :: FirstIndex(table, RevenueOf(ty)).None? ==> Filter(checkouts, CreditedTo(ty, guests, rooms)) == []
  }

  /** What the revenue dictionary means: one entry per credited type, no key
      twice, each with the sum of that type's check-outs. */
  ghost predicate RevenueFaithful(table: seq<TypeRevenue>, checkouts: seq<Transaction>, guests: seq<Guest>, rooms: seq<Room>)
  {
    DistinctTypes(table) && SumsCredits(table, checkouts, guests, rooms) && MissingUncredited(table, checkouts, guests, rooms)
  }

  /** A check-out credited to no type leaves every type's credits unchanged. */
  lemma UncreditedFaithful(table: seq<TypeRevenue>, checkouts: seq<Transaction>, t: Transaction, guests: seq<Guest>, rooms: seq<Room>)
    requires RevenueFaithful(table, checkouts, guests, rooms)
    requires CreditedType(t, guests, rooms).None?
    ensures RevenueFaithful(table, checkouts + [t], guests, rooms)
  {
    forall ty ensures Filter(checkouts + [t], CreditedTo(ty, guests, rooms)) == Filter(checkouts, CreditedTo(ty, guests, rooms)) {
      FilterSnoc(checkouts, t, CreditedTo(ty, guests, rooms));
    }
  }

  /** How one more check-out changes the list credited to ty. */
  lemma CreditedToSnoc(checkouts: seq<Transaction>, t: Transaction, guests: seq<Guest>, rooms: seq<Room>, ty: string)
    ensures Filter(checkouts + [t], CreditedTo(ty, guests, rooms)) ==
      Filter(checkouts, CreditedTo(ty, guests, rooms)) + (if CreditedType(t, guests, rooms) == Some(ty) then [t] else [])
  {
    FilterSnoc(checkouts, t, CreditedTo(ty, guests, rooms));
  }

  /** How one more check-out changes the sum credited to ty. */
  lemma CreditedSumSnoc(checkouts: seq<Transaction>, t: Transaction, guests: seq<Guest>, rooms: seq<Room>, ty: string)
    ensures Sum(Filter(checkouts + [t], CreditedTo(ty, guests, rooms)), Amount) ==
      Sum(Filter(checkouts, CreditedTo(ty, guests, rooms)), Amount) + (if CreditedType(t, guests, rooms) == Some(ty) then t.amount else 0.0)
  {
    CreditedToSnoc(checkouts, t, guests, rooms, ty);
    var before := Filter(checkouts, CreditedTo(ty, guests, rooms));
    if CreditedType(t, guests, rooms) == Some(ty) {
      SumSnoc(before, t, Amount);
    } else {
      assert before + [] == before;
    }
  }

  lemma CreditKeepsDistinct(table: seq<TypeRevenue>, ty0: string, amount: real)
    requires DistinctTypes(table)
    ensures DistinctTypes(Credit(table, ty0, amount))
  {
  }

  /** Crediting a type that already has an entry adds to that entry alone. */
  lemma CreditExistingSums(table: seq<TypeRevenue>, checkouts: seq<Transaction>, t: Transaction, guests: seq<Guest>, rooms: seq<Room>, ty0: string, j0: nat)
    requires DistinctTypes(table) && SumsCredits(table, checkouts, guests, rooms)
    requires CreditedType(t, guests, rooms) == Some(ty0)
    requires FirstIndex(table, RevenueOf(ty0)) == Some(j0)
    ensures SumsCredits(Credit(table, ty0, t.amount), checkouts + [t], guests, rooms)
  {
    var table' := Credit(table, ty0, t.amount);
    forall j | 0 <= j < |table'|
      ensures table'[j].amount == Sum(Filter(checkouts + [t], CreditedTo(table'[j].roomType, guests, rooms)), Amount)
    {
      var ty := table'[j].roomType;
      CreditedSumSnoc(checkouts, t, guests, rooms, ty);
      if j != j0 {
        assert table[j].roomType == ty != ty0;
      }
    }
  }

  lemma CreditExistingMissing(table: seq<TypeRevenue>, checkouts: seq<Transaction>, t: Transaction, guests: seq<Guest>, rooms: seq<Room>, ty0: string, j0: nat)
    requires MissingUncredited(table, checkouts, guests, rooms)
    requires CreditedType(t, guests, rooms) == Some(ty0)
    requires FirstIndex(table, RevenueOf(ty0)) == Some(j0)
    ensures MissingUncredited(Credit(table, ty0, t.amount), checkouts + [t], guests, rooms)
  {
    var table' := Credit(table, ty0, t.amount);
    forall ty | FirstIndex(table', RevenueOf(ty)).None?
      ensures Filter(checkouts + [t], CreditedTo(ty, guests, rooms)) == []
    {
      FirstIndexUpdateSame(table, j0, table'[j0], RevenueOf(ty));
      CreditedToSnoc(checkouts, t, guests, rooms, ty);
    }
  }

  /** Crediting a type with no entry appends one holding just this amount. */
  lemma CreditNewSums(table: seq<TypeRevenue>, checkouts: seq<Transaction>, t: Transaction, guests: seq<Guest>, rooms: seq<Room>, ty0: string)
    requires SumsCredits(table, checkouts, guests, rooms) && MissingUncredited(table, checkouts, guests, rooms)
    requires CreditedType(t, guests, rooms) == Some(ty0)
    requires FirstIndex(table, RevenueOf(ty0)).None?
    ensures SumsCredits(Credit(table, ty0, t.amount), checkouts + [t], guests, rooms)
  {
    var table' := Credit(table, ty0, t.amount);
    assert table' == table + [TypeRevenue(ty0, t.amount)];
    forall j | 0 <= j < |table'|
      ensures table'[j].amount == Sum(Filter(checkouts + [t], CreditedTo(table'[j].roomType, guests, rooms)), Amount)
    {
      var ty := table'[j].roomType;
      CreditedSumSnoc(checkouts, t, guests, rooms, ty);
      if j == |table| {
        assert Filter(checkouts, CreditedTo(ty0, guests, rooms)) == [];
      } else {
        assert table[j].roomType == ty != ty0;
      }
    }
  }

  lemma CreditNewMissing(table: seq<TypeRevenue>, checkouts: seq<Transaction>, t: Transaction, guests: seq<Guest>, rooms: seq<Room>, ty0: string)
    requires MissingUncredited(table, checkouts, guests, rooms)
    requires CreditedType(t, guests, rooms) == Some(ty0)
    requires FirstIndex(table, RevenueOf(ty0)).None?
    ensures MissingUncredited(Credit(table, ty0, t.amount), checkouts + [t], guests, rooms)
  {
    var table' := Credit(table, ty0, t.amount);
    assert table' == table + [TypeRevenue(ty0, t.amount)];
    forall ty | FirstIndex(table', RevenueOf(ty)).None?
      ensures Filter(checkouts + [t], CreditedTo(ty, guests, rooms)) == []
    {
      FirstIndexSnoc(table, TypeRevenue(ty0, t.amount), RevenueOf(ty));
      CreditedToSnoc(checkouts, t, guests, rooms, ty);
    }
  }

  /** The revenue dictionary holds, for each room type, exactly the sum of the
      check-outs credited to it, with no type listed twice and no credited type
      left out. */
  lemma {:induction false} RevenueTableFaithful(checkouts: seq<Transaction>, guests: seq<Guest>, rooms: seq<Room>)
    ensures DistinctTypes(RevenueTable(checkouts, guests, rooms))
    ensures forall j :: 0 <= j < |RevenueTable(checkouts, guests, rooms)| ==>
      RevenueTable(checkouts, guests, rooms)[j].amount ==
        Sum(Filter(checkouts, CreditedTo(RevenueTable(checkouts, guests, rooms)[j].roomType, guests, rooms)), Amount)
    ensures forall ty :: FirstIndex(RevenueTable(checkouts, guests, rooms), RevenueOf(ty)).None? ==>
      Filter(checkouts, CreditedTo(ty, guests, rooms)) == []
  {
    if checkouts != [] {
      var init, t := checkouts[..|checkouts| - 1], checkouts[|checkouts| - 1];
      assert init + [t] == checkouts;
      RevenueTableFaithful(init, guests, rooms);
      var table := RevenueTable(init, guests, rooms);
      match CreditedType(t, guests, rooms)
      case None => UncreditedFaithful(table, init, t, guests, rooms);
      case Some(ty) =>
        match FirstIndex(table, RevenueOf(ty))
        case Some(j0) =>
          CreditKeepsDistinct(table, ty, t.amount);
          CreditExistingSums(table, init, t, guests, rooms, ty, j0);
          CreditExistingMissing(table, init, t, guests, rooms, ty, j0);
        case None =>
          CreditKeepsDistinct(table, ty, t.amount);
          CreditNewSums(table, init, t, guests, rooms, ty);
          CreditNewMissing(table, init, t, guests, rooms, ty);
    }
  }

  /** With non-negative amounts the breakdown never exceeds the period's total
      revenue: check-outs whose stay or room is missing are dropped, never
      added twice. */
  lemma RevenueBreakdownBounded(period: seq<Transaction>, guests: seq<Guest>, rooms: seq<Room>)
    requires forall k :: 0 <= k < |period| ==> period[k].amount >= 0.0
    ensures Sum(RevenueTable(Filter(period, IsKind(CheckOutTx)), guests, rooms), RevenueAmount) <= Revenue(period)
  {
    var checkouts := Filter(period, IsKind(CheckOutTx));
    RevenueTableSum(checkouts, guests, rooms);
    forall k | 0 <= k < |checkouts| ensures Credited(guests, rooms)(checkouts[k]) <= Amount(checkouts[k]) {
      FilterMembership(period, IsKind(CheckOutTx), checkouts[k]);
    }
    SumPointwise(checkouts, Credited(guests, rooms), Amount);
  }

  /** The ten most recent period transactions, newest first. */
  function RecentTransactions(period: seq<Transaction>): (r: seq<Transaction>)
    ensures |r| == if |period| <= 10 then |period| else 10
    ensures forall k :: 0 <= k < |r| ==> r[k] == period[|period| - 1 - k]
  {
    RecentIsNewestFirst(period, 10);
    Recent(period, 10)
  }
}
