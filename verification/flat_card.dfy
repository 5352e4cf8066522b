/** The listing card of the public catalogue: status colour, link target,
    image and text fallbacks, and the first-three-amenities chip row. */
module FlatCard {
  import opened Values
  import opened Text
  import opened Seqs
  import opened Listings
  import ManagementFilter

  const Placeholder: string := "https://via.placeholder.com/400x300"
  const MaxChips: nat := 3

  /** The icons a card or the details page can show next to an amenity. */
  datatype Icon = Wifi | Parking | Pool | Security | Elevator | Fan | Arrow

  /** `amenityIcons[key]`: the card's icon table, keyed by lower-case name. */
  function KnownIcon(key: string): (r: Option<Icon>)
    ensures r.Some? <==> key in {"wifi", "parking", "pool", "security", "elevator", "ac"}
    ensures r.Some? ==> r.value != Arrow
  {
    match key
    case "wifi" => Some(Wifi)
    case "parking" => Some(Parking)
    case "pool" => Some(Pool)
    case "security" => Some(Security)
    case "elevator" => Some(Elevator)
    case "ac" => Some(Fan)
    case _ => None
  }

  /** `status?.toLowerCase()`, with None for undefined. */
  function LowerStatus(status: Option<string>): (r: Option<string>)
    ensures r.Some? <==> status.Some?
  {
    match status
    case Some(s) => Some(ToLower(s))
    case None => None
  }

  /** The card's `getStatusColor`: the management table's colours, chosen
      after lower-casing. */
  function StatusColor(status: Option<string>): string {
    ManagementFilter.StatusColor(LowerStatus(status))
  }

  lemma {:induction false} ToLowerIdempotent(s: string)
    ensures ToLower(ToLower(s)) == ToLower(s)
  {
    var t := ToLower(s);
    assert forall i :: 0 <= i < |s| ==> ToLower(t)[i] == t[i];
  }

  /** The colour ignores letter case, and a known status gets its own colour
      however it is capitalised. */
  lemma StatusColorIgnoresCase(status: string)
    ensures StatusColor(Some(status)) == StatusColor(Some(ToLower(status)))
    ensures ToLower(status) == "available" ==> StatusColor(Some(status)) == "bg-green-100 text-green-800"
    ensures ToLower(status) == "rented" ==> StatusColor(Some(status)) == "bg-red-100 text-red-800"
    ensures ToLower(status) == "booked" ==> StatusColor(Some(status)) == "bg-yellow-100 text-yellow-800"
  {
    ToLowerIdempotent(status);
  }

  /** Gray exactly for a missing status or one that is none of the three,
      ignoring case. */
  lemma StatusColorGray(status: Option<string>)
    ensures StatusColor(status) == "bg-gray-100 text-gray-800"
        <==> (status.None? || ToLower(status.value) !in {"available", "rented", "booked"})
  {
  }

  /** An amenity chip: its icon, if the table has one, and its text. */
  datatype Chip = Chip(icon: Option<Icon>, text: string)

  function ChipOf(amenity: string): (c: Chip)
    ensures c.text == amenity && c.icon == KnownIcon(ToLower(amenity))
  {
    Chip(KnownIcon(ToLower(amenity)), amenity)
  }

  /** The chip row: the first three amenities and, past three, a "+n" count. */
  datatype ChipRow = ChipRow(chips: seq<Chip>, more: Option<nat>)

  function ChipsOf(amenities: seq<string>): (r: seq<Chip>)
    ensures |r| == |amenities|
    ensures forall i :: 0 <= i < |r| ==> r[i] == ChipOf(amenities[i])
  {
    seq(|amenities|, i requires 0 <= i < |amenities| => ChipOf(amenities[i]))
  }

  /** No row for missing or empty amenities; otherwise `slice(0, 3)` and the
      overflow count. */
  function Row(amenities: Option<seq<string>>): (r: Option<ChipRow>)
    ensures r.Some? <==> amenities.Some? && |amenities.value| > 0
  {
    match amenities
    case Some(a) =>
      if |a| > 0 then
        Some(ChipRow(ChipsOf(Take(a, MaxChips)), if |a| > MaxChips then Some(|a| - MaxChips) else None))
      else None
    case None => None
  }

  /** The row shows the leading amenities in order, at most three of them,
      and the chips plus the "+n" count account for every amenity. */
  lemma RowAccountsForAll(a: seq<string>)
    requires |a| > 0
    ensures var row := Row(Some(a)).value;
      |row.chips| <= MaxChips
      && (forall i :: 0 <= i < |row.chips| ==> row.chips[i].text == a[i])
      && (row.more.Some? <==> |a| > MaxChips)
      && (row.more.Some? ==> row.more.value > 0)
      && |row.chips| + row.more.GetOr(0) == |a|
  {
  }

  /** What a card shows, or nothing at all for a missing listing. */
  datatype Card = Card(
    link: string, image: string, alt: string,
    statusClass: string, statusText: string, price: string,
    title: string, location: string, row: Option<ChipRow>)

  /** `/flats/${flat._id || flat.id}` */
  function Link(l: Listing): (r: string)
    ensures Present(l.mongoId) ==> r == "/flats/" + l.mongoId.value
    ensures !Present(l.mongoId) && l.id.Some? ==> r == "/flats/" + l.id.value
    ensures !Present(l.mongoId) && l.id.None? ==> r == "/flats/undefined"
  {
    "/flats/" + OrElse(l.mongoId, l.id).GetOr("undefined")
  }

  /** `a || fallback` on a text field. */
  function Fallback(o: Option<string>, fallback: string): (r: string)
    ensures Present(o) ==> r == o.value
    ensures !Present(o) ==> r == fallback
  {
    OrElse(o, Some(fallback)).value
  }

  function Render(flat: Option<Listing>): (r: Option<Card>)
    ensures r.None? <==> flat.None?
    ensures flat.Some? ==>
      var l := flat.value;
      r.value.link == Link(l)
      && r.value.image == Fallback(l.image, Placeholder)
      && r.value.alt == Fallback(l.title, "Property")
      && r.value.statusClass == StatusColor(l.status)
      && r.value.statusText == Fallback(l.status, "Available")
      && r.value.price == Fallback(l.price, "0")
      && r.value.title == Fallback(l.title, "Untitled Property")
      && r.value.location == Fallback(l.location, "Location not specified")
      && r.value.row == Row(l.amenities)
  {
    match flat
    case None => None
    case Some(l) =>
      Some(Card(Link(l), Fallback(l.image, Placeholder), Fallback(l.title, "Property"),
                StatusColor(l.status), Fallback(l.status, "Available"), Fallback(l.price, "0"),
                Fallback(l.title, "Untitled Property"), Fallback(l.location, "Location not specified"),
                Row(l.amenities)))
  }

  /** A listing without a status reads "Available" but is coloured gray. */
  lemma MissingStatusReadsAvailableInGray(l: Listing)
    requires l.status.None?
    ensures Render(Some(l)).value.statusText == "Available"
    ensures Render(Some(l)).value.statusClass == "bg-gray-100 text-gray-800"
  {
  }
}
