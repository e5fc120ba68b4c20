# HotelM8 front desk, modelled in Dafny

HotelM8 is a browser-based hotel front desk. All of its state is one stored
object holding:

- a list of rooms;
- a list of guest stays;
- an append-only transaction log;
- the users, the hotel settings and the room types.

Each page script reads the object, validates a form, updates the object in
place and saves it again. This project models those updates and the figures
the pages compute from the state:

- check-in, with its room picker and rate fill-in;
- check-out, with its bill preview and final bill;
- taking a room out of order and putting it back into service;
- adding and deleting users, and the hotel-settings form;
- signing in, and the first-start data;
- the dashboard counters and recent-activity list;
- the period reports;
- the guest list, its search and its CSV export.

The state-changing operations are methods of the class `FrontDesk.Hotel`.
Its fields are the six parts of the stored object. Every method performs
exactly the writes the page script performs. A method whose page can refuse
the form either does those writes or refuses with a named `DeskError` and
leaves every field as it was. `DeleteUser` and `SaveSettings` never refuse.

Each method's `ensures` clauses state the whole new state. They also state
that every other field is unchanged.

A cross-operation invariant ties the rooms to the stays, and each operation
keeps it (`Hotel.Valid`, built on `Records.Consistent`). The invariant says:

- a room is occupied exactly when one checked-in stay references it, and never two;
- an occupied room's `guest` field names that stay;
- a room carries out-of-order details exactly when it is out of order;
- room numbers are distinct.

The freshly generated hotel satisfies the invariant. Check-out, the
out-of-order confirmation and marking a room vacant preserve it. Check-in is
proved to preserve it when the chosen room was vacant. `processCheckIn` does not
check this itself: only its room picker offers no other rooms. So `CheckIn`
does not require a vacant room. It promises the invariant for vacant rooms
only, and `Records.CheckInIntoOccupiedDoubleBooks` shows how it double-books
a room that already has its stay.

Modelling choices:

- Parameters stand for the browser and the user. These are the clock
  (`Date.now()` and `new Date()`), the generated ids, the signed-in
  operator's name, the answer to `confirm()`, the already parsed form
  numbers, the local day of a timestamp (`toDateString`), and the rendering
  of dates and rates in the CSV file.
- Money is `real`.
- Timestamps are `int` milliseconds.
- Strings are `seq<char>`.
- A report period runs from the first day's midnight to 23:59:59 of the last
  day.
- Check-out takes the VAT rate as a parameter. The page always passes its
  constant 0.12 (`Billing.PhVatRate`); the `vatRate` in the settings is never
  read.

The files:

| file | contents |
|---|---|
| `seqs.dfy` | `filter`, `find`/`findIndex`, `reduce` sums and `slice(-n).reverse()` as functions, with their lemmas |
| `text.dfy` | `trim`, ASCII `toLowerCase`, `includes`, `join`/`split` on one character and decimal rendering of naturals |
| `records.dfy` | the entities, the lookups the pages repeat, the occupancy invariant and its preservation lemmas |
| `billing.dfy` | the bill formula shared by the check-out preview and check-out |
| `inventory.dfy` | the first-start data: room types, floor plan, administrator, default settings |
| `frontdesk.dfy` | the `Hotel` class and its operations, the guards as functions, the settings form |
| `roomviews.dfy` | the check-in and check-out room pickers, the rate fill-in, the grouping by floor |
| `reports.dfy` | the custom-period guard, the period summary, the per-type breakdowns and the recent list |
| `dashboard.dfy` | the room counters, today's revenue, recent activity and `getTimeAgo` |
| `guestlist.dfy` | the guest table, its search, the guest details and the CSV export |

## Model

| member | source | states |
|---|---|---|
| FrontDesk.CheckInVerdict | checkin.js:103-120 | A missing name, phone or room number fails first. A room number not in the list fails next. Whoever is left is accepted exactly when adults + children does not exceed the room's capacity, and otherwise fails as over capacity. |
| FrontDesk.NewStay | checkin.js:123-139 | The new stay has the given id, the chosen room, the check-in time, status checked in, no settlement, and the entered nights and rate. |
| FrontDesk.Hotel.CheckIn | checkin.js:89-175 | A refusal gives the verdict's error and changes nothing. On success, only the chosen room changes: it becomes occupied and holds the new stay's id. The new stay is appended to the stays. One check-in transaction with amount 0 for that stay is appended to the log. Users, settings and room types are unchanged. The invariant is kept when the room was vacant. |
| FrontDesk.CheckInIgnoresStatus | checkin.js:109-120 | Check-in decides the same way whatever the chosen room's status is, because vacancy is never checked. |
| FrontDesk.CapacityIsInclusive | checkin.js:116-120 | A party of exactly the room's capacity is accepted; one more person is refused. |
| Records.CheckInKeepsConsistent | checkin.js:142-146 | Checking a new stay into a vacant room keeps the occupancy invariant. |
| Records.CheckInIntoOccupiedDoubleBooks | checkin.js:109-146 | Checking a stay into a room that already has a checked-in stay leaves that room with two. |
| RoomViews.VacantChoices | checkin.js:61-75 | The check-in picker's loop yields exactly the vacant rooms, in stored order. |
| RoomViews.VacantChoicesAreVacantRooms | checkin.js:67-74 | A room is offered at check-in exactly when it is stored and vacant. |
| RoomViews.PickedRoomRate | checkin.js:77-87 | A rate and capacity are filled in exactly when the pick is non-empty and names a stored room. They are the rate and capacity of the first room with that number, as `find` returns it. |
| Billing.ExtraCharges | checkout.js:122 | Extra charges that do not parse count as 0; parsed charges are kept. |
| Billing.ComputeBill | checkout.js:136-138 | Room charges are nights times the rate given. The total is room charges plus extras, times one plus the VAT rate. The tax is the total minus room charges and extras. With non-negative inputs, 0 <= room charges + extras <= total. |
| Billing.BillExample | checkout.js:136-138 | Two nights at 2500 with 500 of extras come to 5000 in room charges, 660 in tax and 6160 in total. |
| Billing.CheckoutPreview | checkout.js:82-118 | A preview exists exactly when a room is chosen and a checked-in stay references it. It is the bill of the first such stay, at that stay's own rate. |
| FrontDesk.CheckoutMatchesPreview | checkout.js:99-102 | The preview bill and the final bill are the same function of the stay and the extras. |
| FrontDesk.CheckOutExample | checkout.js:4 | Three nights at 2000 with 300 of extras at 12% VAT settle for 7056. |
| FrontDesk.Hotel.CheckOut | checkout.js:120-175 | The operation succeeds exactly when the room has a checked-in stay and is in the room list; otherwise it fails and changes nothing. On success, the first checked-in stay for the room is closed, with its total, extras and check-out time. Nothing else in the stays changes. The room becomes vacant with no guest. One check-out transaction for the total is appended. The invariant is kept. |
| Records.CheckOutKeepsConsistent | checkout.js:141-148 | Closing the room's checked-in stay and freeing the room keeps the occupancy invariant. |
| RoomViews.OptionFor | checkout.js:75-76 | An occupied room's option shows its number, its type and the name of its first checked-in stay, or 'Unknown' when there is none. |
| RoomViews.OccupiedOptions | checkout.js:65-80 | The check-out picker's loop yields one option per occupied room, in stored order. |
| RoomViews.OptionsNameTheirGuests | checkout.js:71-79 | Under the invariant, every option names the stay actually checked into that room. |
| FrontDesk.OpenOutOfOrderVerdict | rooms.js:164-192 | The dialog opens exactly when a room is selected, is stored, has no checked-in stay and is not already out of order. |
| FrontDesk.ConfirmOutOfOrderVerdict | rooms.js:200-217 | A missing reason fails first. Confirmation passes exactly when a reason is given, the room is stored and no checked-in stay references it. |
| FrontDesk.OpenThenConfirm | rooms.js:164-217 | If the dialog opened and a reason is chosen, confirming succeeds on the same state. |
| FrontDesk.ConfirmSkipsOutOfOrderCheck | rooms.js:184-187 | For a room already out of order and with no stay, the dialog refuses but the confirmation alone accepts. |
| FrontDesk.Hotel.ConfirmOutOfOrder | rooms.js:194-240 | The outcome is the confirmation verdict. A refusal changes nothing. On success, only that room changes: it becomes out of order and records the reason, details, estimated date, time and operator. The invariant is kept. |
| Records.OutOfOrderKeepsConsistent | rooms.js:220-227 | Taking a room with no checked-in stay out of order keeps the invariant. |
| FrontDesk.MarkVacantVerdict | rooms.js:242-274 | Marking passes exactly when a room is selected and stored, it has no checked-in stay, it is not vacant, and it is confirmed if out of order. A refusal for want of confirmation means the operator declined. |
| FrontDesk.Hotel.MarkVacant | rooms.js:242-285 | The outcome is that verdict. A refusal changes nothing. On success, only that room changes: it becomes vacant with no out-of-order details and no guest. The invariant is kept. |
| Records.VacateKeepsConsistent | rooms.js:276-278 | Freeing a room with no checked-in stay keeps the invariant. |
| Records.NoDoubleOccupancy | rooms.js:176-181 | Under the invariant, no room has two checked-in stays, and a room that is not occupied has none. |
| RoomViews.GroupByFloor | rooms.js:73-78 | The grouping loop's dictionary has exactly the floors that have rooms. Each floor's list is that floor's rooms in stored order. |
| RoomViews.GroupOfItsFloor | rooms.js:74-78 | A room is in a floor's group exactly when it is stored on that floor. |
| Reports.CustomReportRange | reports.js:69-84 | A missing date fails with MissingDates. The range is accepted exactly when both days are given and the first is not after the last. It then runs from the first day's midnight to 23:59:59 of the last day, and is never empty. |
| Reports.PeriodTransactions | reports.js:91-94 | Every period transaction lies in the period, and there are no more of them than transactions. |
| Reports.PeriodMembership | reports.js:91-94 | A transaction is in the period list exactly when it is logged and its time lies between the start and the end, inclusive. |
| Reports.ReportForPeriod | reports.js:86-119 | Check-ins and check-outs are the counts of each kind among the period's transactions, and together they are all of them. Revenue is the period's check-out revenue (`Revenue`, the figure the revenue breakdown is bounded by). It is 0 for an empty period, and non-negative when amounts are. Current guests are the checked-in stays. Occupancy is the rooms' occupancy rate. |
| Reports.PeriodRevenueNonNegative | reports.js:99-101 | With non-negative amounts, the period's check-out revenue is non-negative. |
| Reports.OccupancyRate | reports.js:103-106 | The rate lies between 0 and 100. With no rooms it is 0; otherwise it times the room count is 100 times the occupied count. |
| Reports.OccupancyFull | reports.js:104-106 | When every room is occupied the rate is 100. |
| Reports.OccupancyEmpty | reports.js:104-106 | When no room is occupied the rate is 0. |
| Reports.OccupancyByType | reports.js:125-134 | The per-type counting loop computes the tally `Tally` defines. |
| Reports.TallyIsFaithful | reports.js:125-134 | The tally has one entry per room type present. Each entry counts that type's rooms and that type's occupied rooms. |
| Reports.TallySums | reports.js:125-134 | The per-type totals add up to the number of rooms. The per-type occupied counts add up to the number of occupied rooms. |
| Reports.OccupancyByTypeBounds | reports.js:125-134 | Every type's occupied count is at most its total, and every total is at least 1. |
| Reports.RevenueByType | reports.js:137-149 | The revenue loop computes the table `RevenueTable` defines over the period's check-outs. Each amount goes to the current type of the room of the first stay with that guest id. Transactions whose stay, room or type is missing are dropped. |
| Reports.RevenueTableFaithful | reports.js:137-149 | No room type has two entries. Each entry's amount is the sum of the check-outs credited to its type. A type without an entry has no check-out credited to it. |
| Reports.RevenueTableSum | reports.js:137-149 | The table's amounts add up to the credited amounts of the check-outs. |
| Reports.RevenueBreakdownBounded | reports.js:137-149 | With non-negative amounts, the breakdown adds up to at most the period's revenue. |
| Reports.RecentTransactions | reports.js:211 | The recent list has min(10, n) period transactions, newest first. |
| Dashboard.CountStatuses | dashboard.js:56-59 | Total is the number of rooms. Occupied, vacant and out-of-order add up to at most the total. They add up to exactly the total iff no room has an unrecognised status. |
| Dashboard.StatusesCovered | dashboard.js:57-59 | The three counters add up to the number of rooms whose status is one of the three. All rooms are counted iff every status is recognised. |
| Dashboard.TodayRevenue | dashboard.js:61-64 | Today's revenue, the sum of today's check-out amounts, is the revenue figure a report computes over today's transactions. |
| Dashboard.TodayRevenueBounded | dashboard.js:61-64 | With non-negative amounts, today's revenue is between 0 and the report revenue of the whole log. |
| Dashboard.GetTimeAgo | dashboard.js:116-124 | With s = floor of elapsed milliseconds / 1000: 'just now' iff s < 60. Otherwise the result is minutes (1-59), hours (1-23) or days (at least 1), each the floor of s over the unit. |
| Dashboard.TimeAgoMonotone | dashboard.js:116-124 | A minute later, an entry never reads as newer. |
| Dashboard.ShownName | dashboard.js:89-107 | An entry shows the name of the first stay with the transaction's guest id, or 'Guest' when there is none. |
| Dashboard.RecentActivity | dashboard.js:76-114 | An empty log gives the single 'No recent activity' line. Otherwise there are min(5, n) entries, newest first, one per transaction. |
| Seqs.RecentIsNewestFirst | dashboard.js:81 | `slice(-n).reverse()` yields the last min(n, length) elements with the newest first. |
| Inventory.BuildRooms | login.js:55-70 | The nested floor and room loop yields 30 rooms. Position i is room i mod 5 of floor i / 5, of type i mod 5 mod 3 with that type's rate, capacity and beds, vacant, with no guest and no out-of-order details. |
| Inventory.FloorsShape | login.js:46-53 | There are six floors, numbered 1 to 6, with five rooms each. |
| Inventory.FloorPlanCodes | login.js:46-53 | Each floor-plan number is three digits: the floor pair's hundred, then the room's place on the pair of floors. |
| Inventory.PlannedNumbersDistinct | login.js:46-53 | The 30 generated room numbers are pairwise distinct. |
| Inventory.FreshRoomsConsistent | login.js:55-70 | The generated rooms with no stays satisfy the occupancy invariant. |
| FrontDesk.InitializeSystemData | login.js:13-74 | Stored data is kept as it is. Otherwise the result is a fresh hotel: the 30 planned rooms, no stays, no transactions, the single active administrator, the default settings with VAT 0.12 and the three room types. It satisfies the invariant. |
| FrontDesk.Hotel.Authenticate | login.js:76-105 | Sign-in succeeds iff the first active user with that username has exactly that password; otherwise it fails with invalid credentials and changes nothing. On success, only that user's last sign-in changes, and that user is returned. |
| FrontDesk.Hotel.AddUser | admin.js:47-82 | The add succeeds exactly when the passwords match and no user, active or not, has the username. Mismatched passwords fail first, with PasswordMismatch. A taken username fails next, with UsernameExists. These are the only errors, and a refusal changes nothing. On success, exactly one active, never-signed-in user is appended. Unique usernames stay unique. |
| FrontDesk.Hotel.DeleteUser | admin.js:89-97 | When confirmed, the users become those whose id differs, in order; declining changes nothing. A user remains exactly when it was there and, if confirmed, does not have that id. |
| FrontDesk.DeleteKeepsOthers | admin.js:92 | Those kept and those removed together are all the users. Deleting an id no user has keeps the list as it was. |
| FrontDesk.LoadSettingsForm | admin.js:99-104 | The form shows the stored name, or 'HotelM8' for an empty one, and the stored contact and address. |
| FrontDesk.SavedHotelName | admin.js:112-119 | The saved name is the trimmed input, or 'HotelM8' when that is empty. The trimmed input is empty exactly when the input is all white space. The saved name is never empty and never starts or ends with white space. |
| FrontDesk.SaveSettingsForm | admin.js:111-121 | Saving stores the saved name, the trimmed contact and the trimmed address, and keeps the VAT rate. |
| FrontDesk.Hotel.SaveSettings | admin.js:111-134 | The settings become the saved form; nothing else changes. |
| FrontDesk.SettingsRoundTrip | admin.js:99-121 | Saved settings survive reloading the form and saving it again unchanged. |
| Text.TrimIdempotent | admin.js:112-114 | Trimming a trimmed string changes nothing. |
| GuestList.CurrentGuests | guests.js:85 | The listed stays are all checked in, and there are no more of them than stays. |
| GuestList.CurrentGuestsMembership | guests.js:85 | A stay is listed exactly when it is stored and checked in. |
| GuestList.RowFor | guests.js:95-102 | A row shows the stay's room, name and id, and its total guests are adults + children. |
| GuestList.GuestListing | guests.js:77-116 | With no checked-in stays, the table shows 'No current guests' and the count is "0". Otherwise there is one row per checked-in stay, in order. The count is the decimal digits of their number. |
| Text.NatToStringRoundTrip | guests.js:115 | A natural's decimal text consists of digits and reads back as that natural. |
| GuestList.RowVisible | guests.js:118-126 | A row is visible iff its lower-cased text contains the lower-cased term at some position. An empty term shows every row. |
| GuestList.ViewLabelShowsEveryRow | guests.js:103-123 | A row's text includes its View button's label, so a search for "view", in any case, shows every row. |
| GuestList.SearchIgnoresCase | guests.js:120-123 | Lower-casing either the row or the term first does not change visibility. |
| GuestList.DetailsFor | guests.js:128-215 | Details exist exactly when a stay has that id, and are those of the first such stay. Total guests is adults + children; the estimated total is nights times the stay's rate. |
| GuestList.EstimateIsRoomCharges | guests.js:198 | The estimate is the room-charge part of the check-out bill. With non-negative figures it never exceeds the final total. |
| GuestList.CsvFields | guests.js:227-237 | Each stay gives nine fields, one per header column. They are, in order: room, name, phone, email, the rendered check-in date, nights, adults and children in decimal (each reading back as its number), and the rendered rate. |
| GuestList.ExportGuests | guests.js:217-223 | Nothing is exported exactly when there are no checked-in stays. |
| GuestList.ExportRoundTrip | guests.js:225-238 | When no field contains a comma or a newline, splitting the file on newlines gives the header line and one line per checked-in stay. Splitting those lines on commas gives the nine column names and each stay's fields, in order. |
| GuestList.CommaInFieldBreaksLine | guests.js:225-238 | Fields are not quoted: a stay whose name contains a comma exports a line that does not read back as its fields. |
| Text.SplitJoinIff | guests.js:238 | Joining pieces on a character and splitting on it again gives the pieces back iff no piece contains that character. |

## Left out

- Rendering is not modelled. That covers the HTML templates, option
  elements, modals, alerts, redirects, the check-out receipt window, the
  print window, `updateSelectedRoomInfo`, `forceCheckOut` and the user table.
  It also covers the text of the time-ago labels and of the activity lines;
  the model keeps only their data.
- Storage is not modelled: `localStorage`, `sessionStorage`,
  `JSON.parse`/`stringify` and `saveData`. The object is modelled in
  memory, so the last-writer-wins race between open tabs is out.
  `authenticateUser`'s "no data found" branch (login.js:78-81) exists only
  for a missing stored object, so it is not modelled.
- Dates are not parsed or formatted. The browser's date parsing, local time
  zone, `toISOString`, `toLocaleDateString` and `toDateString` are given as
  integers and parameters. So the daily report, which appends `'T23:59:59'`
  to a `toDateString()` value (reports.js:64-67, 88), is not modelled. Nor is
  the bare-date parsing of the custom report. All dates, check-in and
  sign-in times included, are kept as integers rather than ISO strings.
- Floating point is not modelled. Money is exact `real`, so IEEE rounding of
  the VAT product and every `toFixed` display are out.
- Form numbers are taken as already parsed numbers. Nights, adults and
  children are naturals, so `parseInt` giving NaN or a negative count is
  out. The room rate and the extra charges are any real, negative ones
  included. `parseFloat` giving NaN is out, except that unparseable extra
  charges count as 0.
- Ids are not generated. `Date.now()` ids are parameters, and nothing is
  claimed about their uniqueness: a stay's id and its transaction's id may
  coincide.
- A missing email is modelled as the empty string, because the stored stay
  always has a string there. So `guest.email || ''` (guests.js:231) cannot
  differ from `guest.email` in the model.
- Sort orders are not modelled. `Object.keys(floors).sort()` (rooms.js:80)
  and the key order of the report dictionaries are rendering order, so the
  floor grouping is a map and the per-type tables keep first-seen order.
- GuestList.RowVisible: the row's text is a parameter. The model does not
  build it from the rendered cells: the locale date, the total guests, the
  rate and the View and Check-Out labels (guests.js:95-111). Only the
  consequence of the View label is proved, by `ViewLabelShowsEveryRow`.
- Lower-casing covers ASCII letters only; the rest of Unicode case mapping
  is left out.
- The protection of the `admin` user exists only as a disabled button, so
  `deleteUser` deletes any id.
- Passwords are compared and stored as plain strings. Their security is not
  modelled.
- `updateHotelHeader`, the storage-event listeners, the admin-link checks and
  renderer.js are display wiring and are left out.
- FrontDesk.Hotel.CheckIn: the invariant is promised only for a room that
  was vacant before check-in, because the operation itself never checks
  vacancy.
