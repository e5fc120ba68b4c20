/** The dashboard: room counts by status, today's check-out revenue, the five
    most recent transactions and how long ago each happened. */
module Dashboard {
  import opened Seqs
  import opened Records
  import Reports

  datatype StatusCounts = StatusCounts(total: nat, occupied: nat, vacant: nat, outOfOrder: nat)

  /** updateDashboard's four room counters. */
  function CountStatuses(rooms: seq<Room>): (c: StatusCounts)
    ensures c.total == |rooms|
    ensures c.occupied + c.vacant + c.outOfOrder <= c.total
    ensures c.occupied + c.vacant + c.outOfOrder == c.total <==>
              forall k :: 0 <= k < |rooms| ==> !rooms[k].status.Unrecognised?
  {
    StatusesCovered(rooms);
    StatusCounts(
      |rooms|,
      |Filter(rooms, HasStatus(Occupied))|,
      |Filter(rooms, HasStatus(Vacant))|,
      |Filter(rooms, HasStatus(OutOfOrder))|)
  }

  function Recognised(r: Room): bool
  {
    !r.status.Unrecognised?
  }

  /** The three counters add up to the rooms whose status is one of the three
      the code writes. */
  lemma {:induction false} StatusesCovered(rooms: seq<Room>)
    ensures |Filter(rooms, HasStatus(Occupied))| + |Filter(rooms, HasStatus(Vacant))|
            + |Filter(rooms, HasStatus(OutOfOrder))| == |Filter(rooms, Recognised)|
    ensures |Filter(rooms, Recognised)| == |rooms| <==> forall k :: 0 <= k < |rooms| ==> Recognised(rooms[k])
  {
    if rooms != [] {
      var init := rooms[..|rooms| - 1];
      StatusesCovered(init);
      if forall k :: 0 <= k < |rooms| ==> Recognised(rooms[k]) {
        FilterKeepsAll(rooms, Recognised);
      }
      if |Filter(rooms, Recognised)| == |rooms| {
        forall k | 0 <= k < |rooms| ensures Recognised(rooms[k]) {
          if !Recognised(rooms[k]) {
            RejectedShrinks(rooms, Recognised, k);
          }
        }
      }
    }
  }

  /** A filter that rejects some element is shorter than its input. */
  lemma {:induction false} RejectedShrinks<T>(s: seq<T>, p: T -> bool, k: nat)
    requires k < |s| && !p(s[k])
    ensures |Filter(s, p)| < |s|
  {
    var init := s[..|s| - 1];
    if k < |s| - 1 {
      RejectedShrinks(init, p, k);
    }
  }

  /** A transaction dated on a given day, with the day of a timestamp given by
      the caller (toDateString in local time). */
  function OnDay(dayOf: int -> int, today: int): Transaction -> bool
  {
    (t: Transaction) => dayOf(t.date) == today
  }

  /** A check-out transaction dated on a given day. */
  function CheckOutOn(dayOf: int -> int, today: int): Transaction -> bool
  {
    (t: Transaction) => t.kind == CheckOutTx && dayOf(t.date) == today
  }

  /** Today's revenue: the amounts of today's check-outs added up. It is the
      revenue figure of a report over today's transactions. */
  function TodayRevenue(txs: seq<Transaction>, dayOf: int -> int, today: int): (r: real)
    ensures r == Reports.Revenue(Filter(txs, OnDay(dayOf, today)))
  {
    FilterFilter(txs, OnDay(dayOf, today), Reports.IsKind(CheckOutTx), CheckOutOn(dayOf, today));
    Sum(Filter(txs, CheckOutOn(dayOf, today)), Amount)
  }

  /** With non-negative amounts, today's revenue lies between 0 and the revenue
      of all check-outs ever logged. */
  lemma TodayRevenueBounded(txs: seq<Transaction>, dayOf: int -> int, today: int)
    requires forall k :: 0 <= k < |txs| ==> txs[k].amount >= 0.0
    ensures 0.0 <= TodayRevenue(txs, dayOf, today) <= Reports.Revenue(txs)
  {
    SumFilterMonotone(txs, CheckOutOn(dayOf, today), Reports.IsKind(CheckOutTx), Amount);
    var today' := Filter(txs, CheckOutOn(dayOf, today));
    forall k | 0 <= k < |today'| ensures Amount(today'[k]) >= 0.0 {
      FilterMembership(txs, CheckOutOn(dayOf, today), today'[k]);
    }
    SumNonNegative(today', Amount);
  }

  /** The label getTimeAgo produces, with its number. */
  datatype TimeAgo = JustNow | MinutesAgo(minutes: int) | HoursAgo(hours: int) | DaysAgo(days: int)

  /** getTimeAgo: whole seconds elapsed, floor((now - date) / 1000), bucketed by
      minute, hour and day, each count rounded down. A date in the future reads
      as just now. */
  function GetTimeAgo(now: int, date: int): (r: TimeAgo)
    ensures var s := (now - date) / 1000;
      && (r == JustNow <==> s < 60)
      && (r.MinutesAgo? ==> 60 <= s < 3600 && 1 <= r.minutes <= 59
                            && r.minutes * 60 <= s < (r.minutes + 1) * 60)
      && (r.HoursAgo? ==> 3600 <= s < 86400 && 1 <= r.hours <= 23
                          && r.hours * 3600 <= s < (r.hours + 1) * 3600)
      && (r.DaysAgo? ==> 86400 <= s && 1 <= r.days
                         && r.days * 86400 <= s < (r.days + 1) * 86400)
  {
    var s := (now - date) / 1000;
    if s < 60 then JustNow
    else if s < 3600 then MinutesAgo(s / 60)
    else if s < 86400 then HoursAgo(s / 3600)
    else DaysAgo(s / 86400)
  }

  /** Loading a minute later never makes an entry look newer. */
  lemma TimeAgoMonotone(now: int, date: int)
    ensures Rank(GetTimeAgo(now, date)) <= Rank(GetTimeAgo(now + 60_000, date))
  {
  }

  /** How old a label says an entry is, in seconds (its lower bound). */
  function Rank(t: TimeAgo): int
  {
    match t
    case JustNow => 0
    case MinutesAgo(m) => m * 60
    case HoursAgo(h) => h * 3600
    case DaysAgo(d) => d * 86400
  }

  /** One line of the recent-activity list. */
  datatype Activity =
    | NoRecentActivity
    | Entry(kind: TxKind, guestName: string, room: string, date: int, user: string)

  /** The guest name an entry shows: the first stay with the transaction's guest
      id, or 'Guest' when there is none. */
  function ShownName(guests: seq<Guest>, t: Transaction): (name: string)
    ensures FirstIndex(guests, HasGuestId(t.guestId)).None? ==> name == "Guest"
    ensures FirstIndex(guests, HasGuestId(t.guestId)).Some? ==>
              name == guests[FirstIndex(guests, HasGuestId(t.guestId)).value].name
  {
    match FirstIndex(guests, HasGuestId(t.guestId))
    case Some(g) => guests[g].name
    case None => "Guest"
  }

  function EntryFor(guests: seq<Guest>, t: Transaction): Activity
  {
    Entry(t.kind, ShownName(guests, t), t.room, t.date, t.user)
  }

  /** updateRecentActivity: the last five transactions, newest first, or the
      single 'No recent activity' line when the log is empty. */
  function RecentActivity(txs: seq<Transaction>, guests: seq<Guest>): (r: seq<Activity>)
    ensures txs == [] ==> r == [NoRecentActivity]
    ensures txs != [] ==>
      && |r| == (if |txs| <= 5 then |txs| else 5)
      && forall k :: 0 <= k < |r| ==> r[k] == EntryFor(guests, txs[|txs| - 1 - k])
  {
    var recent := Recent(txs, 5);
    RecentIsNewestFirst(txs, 5);
    if |recent| == 0 then [NoRecentActivity]
    else seq(|recent|, k requires 0 <= k < |recent| => EntryFor(guests, recent[k]))
  }
}
