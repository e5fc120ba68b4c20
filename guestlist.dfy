/** The guests page: the table of checked-in stays and its count, the search
    filter over table rows, the details pop-up's figures and the CSV export. */
module GuestList {
  import opened Seqs
  import opened Records
  import opened Billing
  import Text

  /** The checked-in stays, in stored order. */
  function CurrentGuests(guests: seq<Guest>): (current: seq<Guest>)
    ensures |current| <= |guests|
    ensures forall k :: 0 <= k < |current| ==> current[k].status == CheckedIn
  {
    Filter(guests, IsCheckedIn)
  }

  /** A stay is listed exactly when it is stored and checked in. */
  lemma CurrentGuestsMembership(guests: seq<Guest>, g: Guest)
    ensures g in CurrentGuests(guests) <==> g in guests && g.status == CheckedIn
  {
    FilterMembership(guests, IsCheckedIn, g);
  }

  /** One table row. */
  datatype GuestRow = GuestRow(
    room: string, name: string, phone: string, checkIn: int, nights: nat,
    totalGuests: nat, roomRate: real, id: string)

  datatype GuestTable = NoCurrentGuests | Rows(rows: seq<GuestRow>)

  /** The table and the count shown above it. */
  datatype GuestListView = GuestListView(table: GuestTable, count: string)

  function RowFor(g: Guest): (row: GuestRow)
    ensures row.totalGuests == g.adults + g.children
    ensures row.room == g.room && row.name == g.name && row.id == g.id
  {
    GuestRow(g.room, g.name, g.phone, g.checkIn, g.nights, g.adults + g.children, g.roomRate, g.id)
  }

  /** updateGuestList: one row per checked-in stay, in stored order, and the
      count of them; with none, the 'No current guests' line and a count of 0. */
  function GuestListing(guests: seq<Guest>): (v: GuestListView)
    ensures CurrentGuests(guests) == [] ==> v == GuestListView(NoCurrentGuests, "0")
    ensures CurrentGuests(guests) != [] ==>
      && v.table.Rows?
      && |v.table.rows| == |CurrentGuests(guests)|
      && forall k :: 0 <= k < |v.table.rows| ==> v.table.rows[k] == RowFor(CurrentGuests(guests)[k])
    ensures forall k :: 0 <= k < |v.count| ==> '0' <= v.count[k] <= '9'
    ensures Text.DigitsValue(v.count) == |CurrentGuests(guests)|
  {
    var current := CurrentGuests(guests);
    if current == [] then
      assert Text.DigitsValue("0") == 0 by {
        assert "0"[..0] == [];
      }
      GuestListView(NoCurrentGuests, "0")
    else
      Text.NatToStringRoundTrip(|current|);
      GuestListView(Rows(seq(|current|, k requires 0 <= k < |current| => RowFor(current[k]))),
                    Text.NatToString(|current|))
  }

  /** filterGuests: a row stays visible exactly when its lower-cased text
      contains the lower-cased search term somewhere; an empty term shows every
      row. */
  function RowVisible(rowText: string, term: string): (visible: bool)
    ensures visible <==> exists i :: Text.OccursAt(Text.Lower(rowText), Text.Lower(term), i)
    ensures term == "" ==> visible
  {
    Text.ContainsIffOccurs(Text.Lower(rowText), Text.Lower(term));
    assert term == "" ==> Text.OccursAt(Text.Lower(rowText), Text.Lower(term), 0);
    Text.Contains(Text.Lower(rowText), Text.Lower(term))
  }

  /** The search ignores the case of ASCII letters on both sides. */
  lemma SearchIgnoresCase(rowText: string, term: string)
    ensures RowVisible(Text.Lower(rowText), term) == RowVisible(rowText, term)
    ensures RowVisible(rowText, Text.Lower(term)) == RowVisible(rowText, term)
  {
    Text.LowerIdempotent(rowText);
    Text.LowerIdempotent(term);
  }

  /** Every rendered row carries the label of its View button, so searching
      for "view", in any case, hides no row, whatever its cells hold. */
  lemma ViewLabelShowsEveryRow(cells: string, buttons: string)
    ensures RowVisible(cells + "View" + buttons, "view")
    ensures RowVisible(cells + "View" + buttons, "VIEW")
  {
    var text := cells + "View" + buttons;
    var lower := Text.Lower(text);
    assert text[|cells|..|cells| + 4] == "View";
    assert Text.Lower("view") == "view" == Text.Lower("VIEW");
    assert lower[|cells|..|cells| + 4] == "view";
    assert Text.OccursAt(lower, "view", |cells|);
  }

  /** What viewGuestDetails shows beside the stored fields. */
  datatype GuestDetails = GuestDetails(guest: Guest, totalGuests: nat, estimatedTotal: real)

  /** The details of the first stay with that id, if any. */
  function DetailsFor(guests: seq<Guest>, id: string): (d: Option<GuestDetails>)
    ensures d.Some? <==> FirstIndex(guests, HasGuestId(id)).Some?
    ensures d.Some? ==>
      && d.value.guest == guests[FirstIndex(guests, HasGuestId(id)).value]
      && d.value.guest.id == id
      && d.value.totalGuests == d.value.guest.adults + d.value.guest.children
      && d.value.estimatedTotal == d.value.guest.nights as real * d.value.guest.roomRate
  {
    match FirstIndex(guests, HasGuestId(id))
    case None => None
    case Some(k) =>
      var g := guests[k];
      Some(GuestDetails(g, g.adults + g.children, g.nights as real * g.roomRate))
  }

  /** The estimate is the room-charge part of the bill check-out will compute: it
      leaves out extras and VAT, so with non-negative figures it never exceeds
      the final total. */
  lemma EstimateIsRoomCharges(guests: seq<Guest>, id: string, extra: real, vatRate: real)
    requires DetailsFor(guests, id).Some?
    ensures
      var d := DetailsFor(guests, id).value;
      var bill := ComputeBill(d.guest.nights, d.guest.roomRate, extra, vatRate);
      && d.estimatedTotal == bill.roomCharges
      && (0.0 <= d.guest.roomRate && 0.0 <= extra && 0.0 <= vatRate ==> d.estimatedTotal <= bill.total)
  {
  }

  // ---------------------------------------------------------------------------
  // CSV export

  const Header: seq<string> :=
    ["Room", "Name", "Phone", "Email", "Check-In Date", "Nights", "Adults", "Children", "Room Rate"]

  /** The nine fields of a stay's line. Dates and the rate are written by the
      browser (toLocaleDateString, Number's toString), so they are given as
      functions; whole numbers are written in decimal. An empty email stays
      empty. */
  function CsvFields(g: Guest, dateText: int -> string, rateText: real -> string): (fields: seq<string>)
    ensures |fields| == |Header|
    ensures fields[0] == g.room && fields[1] == g.name && fields[2] == g.phone && fields[3] == g.email
    ensures fields[4] == dateText(g.checkIn)
    ensures fields[5] == Text.NatToString(g.nights) && fields[6] == Text.NatToString(g.adults)
    ensures fields[7] == Text.NatToString(g.children)
    ensures Text.DigitsValue(fields[5]) == g.nights
    ensures Text.DigitsValue(fields[6]) == g.adults && Text.DigitsValue(fields[7]) == g.children
    ensures fields[8] == rateText(g.roomRate)
  {
    Text.NatToStringRoundTrip(g.nights);
    Text.NatToStringRoundTrip(g.adults);
    Text.NatToStringRoundTrip(g.children);
    [g.room, g.name, g.phone, g.email, dateText(g.checkIn),
     Text.NatToString(g.nights), Text.NatToString(g.adults), Text.NatToString(g.children),
     rateText(g.roomRate)]
  }

  /** The header line: the column names joined by commas. */
  function HeaderText(): string
  {
    Text.Join(Header, ',')
  }

  /** A stay's line: its fields joined by commas. */
  function CsvLine(g: Guest, dateText: int -> string, rateText: real -> string): string
  {
    Text.Join(CsvFields(g, dateText, rateText), ',')
  }

  /** The stays' lines, one per stay, in order. */
  function {:induction false} StayLines(current: seq<Guest>, dateText: int -> string, rateText: real -> string)
    : (lines: seq<string>)
    ensures |lines| == |current|
    ensures forall k :: 0 <= k < |current| ==> lines[k] == CsvLine(current[k], dateText, rateText)
  {
    if current == [] then []
    else StayLines(current[..|current| - 1], dateText, rateText) + [CsvLine(current[|current| - 1], dateText, rateText)]
  }

  /** The lines of the file: the header, then a line per stay. */
  function CsvLines(current: seq<Guest>, dateText: int -> string, rateText: real -> string): (lines: seq<string>)
    ensures |lines| == |current| + 1
    ensures lines[0] == HeaderText()
    ensures lines[1..] == StayLines(current, dateText, rateText)
  {
    [HeaderText()] + StayLines(current, dateText, rateText)
  }

  /** exportGuests: nothing to export without checked-in stays; otherwise the
      header line and one line per checked-in stay, fields joined by ',' and
      lines by a newline, nothing quoted or escaped. */
  function ExportGuests(guests: seq<Guest>, dateText: int -> string, rateText: real -> string)
    : (csv: Option<string>)
    ensures csv.None? <==> CurrentGuests(guests) == []
  {
    var current := CurrentGuests(guests);
    if current == [] then None
    else Some(Text.Join(CsvLines(current, dateText, rateText), '\n'))
  }

  /** No field of the stay's line contains a comma or a newline. */
  ghost predicate PlainFields(g: Guest, dateText: int -> string, rateText: real -> string)
  {
    forall j :: 0 <= j < |Header| ==>
      Text.Free(CsvFields(g, dateText, rateText)[j], ',') && Text.Free(CsvFields(g, dateText, rateText)[j], '\n')
  }

  /** The header line has no newline and reads back as the nine column names. */
  lemma HeaderLine()
    ensures Text.Free(HeaderText(), '\n')
    ensures Text.Split(HeaderText(), ',') == Header
  {
    assert forall j :: 0 <= j < |Header| ==> Text.Free(Header[j], ',') && Text.Free(Header[j], '\n');
    Text.JoinFree(Header, ',', '\n');
    Text.SplitJoin(Header, ',');
  }

  /** A stay's line with plain fields has no newline and reads back as its fields. */
  lemma StayLine(g: Guest, dateText: int -> string, rateText: real -> string)
    requires PlainFields(g, dateText, rateText)
    ensures Text.Free(Text.Join(CsvFields(g, dateText, rateText), ','), '\n')
    ensures Text.Split(Text.Join(CsvFields(g, dateText, rateText), ','), ',') == CsvFields(g, dateText, rateText)
  {
    var fields := CsvFields(g, dateText, rateText);
    Text.JoinFree(fields, ',', '\n');
    Text.SplitJoin(fields, ',');
  }

  /** With plain fields no line contains a newline. */
  lemma LinesPlain(current: seq<Guest>, dateText: int -> string, rateText: real -> string)
    requires forall k :: 0 <= k < |current| ==> PlainFields(current[k], dateText, rateText)
    ensures forall j :: 0 <= j < |CsvLines(current, dateText, rateText)| ==>
              Text.Free(CsvLines(current, dateText, rateText)[j], '\n')
  {
    var lines := CsvLines(current, dateText, rateText);
    HeaderLine();
    forall j | 0 <= j < |lines| ensures Text.Free(lines[j], '\n') {
      if j > 0 {
        var k := j - 1;
        assert lines[k + 1] == CsvLine(current[k], dateText, rateText);
        StayLine(current[k], dateText, rateText);
      }
    }
  }

  /** When no exported field contains a comma or a newline, the file reads back
      as the header and the fields of each checked-in stay, in order. */
  lemma ExportRoundTrip(guests: seq<Guest>, dateText: int -> string, rateText: real -> string)
    requires CurrentGuests(guests) != []
    requires forall k :: 0 <= k < |CurrentGuests(guests)| ==> PlainFields(CurrentGuests(guests)[k], dateText, rateText)
    ensures
      var current := CurrentGuests(guests);
      var lines := Text.Split(ExportGuests(guests, dateText, rateText).value, '\n');
      && lines == CsvLines(current, dateText, rateText)
      && Text.Split(lines[0], ',') == Header
      && forall k :: 0 <= k < |current| ==> Text.Split(lines[k + 1], ',') == CsvFields(current[k], dateText, rateText)
  {
    var current := CurrentGuests(guests);
    var lines := CsvLines(current, dateText, rateText);
    LinesPlain(current, dateText, rateText);
    Text.SplitJoin(lines, '\n');
    assert Text.Split(ExportGuests(guests, dateText, rateText).value, '\n') == lines;
    HeaderLine();
    forall k | 0 <= k < |current|
      ensures Text.Split(lines[k + 1], ',') == CsvFields(current[k], dateText, rateText)
    {
      StayLine(current[k], dateText, rateText);
    }
  }

  /** Fields are not quoted: a stay whose name contains a comma exports a line
      that does not read back as its fields. */
  lemma CommaInFieldBreaksLine(g: Guest, dateText: int -> string, rateText: real -> string)
    requires !Text.Free(g.name, ',')
    ensures Text.Split(Text.Join(CsvFields(g, dateText, rateText), ','), ',') != CsvFields(g, dateText, rateText)
  {
    Text.SplitJoinIff(CsvFields(g, dateText, rateText), ',');
  }
}
