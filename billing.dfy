/** The check-out bill: nights at the rate recorded at check-in, plus extra
    charges, plus VAT on both. The preview shown while choosing a room and the
    amount check-out records are the same function of the stay and the extra
    charges entered. */
module Billing {
  import opened Seqs
  import opened Records

  /** The VAT rate this deployment hard-codes for check-out. */
  const PhVatRate: real := 0.12

  datatype Bill = Bill(roomCharges: real, extraCharges: real, tax: real, total: real)

  /** parseFloat(field) || 0: an empty or unparseable field (None, JavaScript's NaN)
      counts as 0; any parsed number, negative ones included, is kept. */
  function ExtraCharges(parsed: Option<real>): (extra: real)
    ensures parsed.None? ==> extra == 0.0
    ensures parsed.Some? ==> extra == parsed.value
  {
    match parsed
    case Some(x) => x
    case None => 0.0
  }

  /** The bill for a stay of `nights` nights at `roomRate`. Amounts are kept
      exact; rounding to cents happens only when they are displayed. */
  function ComputeBill(nights: nat, roomRate: real, extra: real, vatRate: real): (b: Bill)
    ensures b.roomCharges == nights as real * roomRate
    ensures b.extraCharges == extra
    ensures b.total == (b.roomCharges + extra) * (1.0 + vatRate)
    ensures b.tax == b.total - (b.roomCharges + extra)
    ensures 0.0 <= roomRate && 0.0 <= extra && 0.0 <= vatRate ==>
              0.0 <= b.roomCharges + extra <= b.total
  {
    var roomCharges := nights as real * roomRate;
    var tax := (roomCharges + extra) * vatRate;
    Bill(roomCharges, extra, tax, roomCharges + extra + tax)
  }

  /** Two nights at 2500 with 500 of extras and 12% VAT come to 6160. */
  lemma BillExample()
    ensures ComputeBill(2, 2500.0, 500.0, PhVatRate) == Bill(5000.0, 500.0, 660.0, 6160.0)
  {
  }

  /** The bill shown while a room is chosen on the check-out page: nothing when no
      room is chosen or no checked-in stay references it, otherwise the bill of
      the first checked-in stay for that room. */
  function CheckoutPreview(guests: seq<Guest>, roomNumber: string, extraInput: Option<real>, vatRate: real)
    : (preview: Option<Bill>)
    ensures preview.Some? <==> roomNumber != "" && ActiveGuest(guests, roomNumber).Some?
    ensures preview.Some? ==>
      var g := guests[ActiveGuest(guests, roomNumber).value];
      && g.room == roomNumber && g.status == CheckedIn
      && preview.value.roomCharges == g.nights as real * g.roomRate
      && preview.value.total == (preview.value.roomCharges + ExtraCharges(extraInput)) * (1.0 + vatRate)
  {
    if roomNumber == "" then None
    else match ActiveGuest(guests, roomNumber)
      case None => None
      case Some(k) => Some(ComputeBill(guests[k].nights, guests[k].roomRate, ExtraCharges(extraInput), vatRate))
  }
}
