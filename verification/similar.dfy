/** "Similar properties" under a listing's detail page: other listings in a
    matching location or within 20% of the reference price, at most eight. */
module Similar {
  import opened Values
  import opened Text
  import opened Numbers
  import opened Seqs
  import opened Listings

  /** `slice(0, 8)` */
  const MaxShown: nat := 8

  /** `Math.abs(parseFloat(price) - currentPrice) <= currentPrice * 0.2`,
      false when either side parses to NaN. */
  predicate SimilarPrice(price: string, reference: string) {
    var p := ParseFloat(price);
    var c := ParseFloat(reference);
    p.Some? && c.Some? && WithinFifth(p.value, c.value)
  }

  /** The second `filter`: a location and a price are required, then the
      location contains the reference location (ignoring case) or the price
      is close to the reference price. */
  predicate IsSimilar(l: Listing, location: string, reference: string) {
    Present(l.location) && Present(l.price)
    && (Contains(ToLower(l.location.value), ToLower(location)) || SimilarPrice(l.price.value, reference))
  }

  /** The first `filter`: `prop._id !== currentFlatId`. */
  predicate NotCurrent(l: Listing, currentId: string) {
    l.mongoId != Some(currentId)
  }

  /** Every listing that passes both filters, in fetched order. */
  function Candidates(all: seq<Listing>, currentId: string, location: string, reference: string): (r: seq<Listing>)
    ensures Subseq(r, all)
    ensures forall l :: l in r <==> (l in all && NotCurrent(l, currentId) && IsSimilar(l, location, reference))
    ensures forall l :: (Count(r, l) ==
      if NotCurrent(l, currentId) && IsSimilar(l, location, reference) then Count(all, l) else 0)
  {
    var others := Filter(all, l => NotCurrent(l, currentId));
    FilterSpec(all, l => NotCurrent(l, currentId));
    FilterSpec(others, l => IsSimilar(l, location, reference));
    SubseqTrans(Filter(others, l => IsSimilar(l, location, reference)), others, all);
    Filter(others, l => IsSimilar(l, location, reference))
  }

  lemma {:induction false} SubseqTrans<T>(a: seq<T>, b: seq<T>, c: seq<T>)
    requires Subseq(a, b) && Subseq(b, c)
    ensures Subseq(a, c)
    decreases |c|
  {
    if a != [] {
      assert b != [] && c != [];
      if b[0] == c[0] && Subseq(b[1..], c[1..]) {
        if a[0] == b[0] && Subseq(a[1..], b[1..]) {
          SubseqTrans(a[1..], b[1..], c[1..]);
        } else {
          SubseqTrans(a, b[1..], c[1..]);
        }
      } else {
        SubseqTrans(a, b, c[1..]);
      }
    }
  }

  /** The chain `filter().filter().slice(0, 8)` over the fetched list. */
  function SelectSimilar(all: seq<Listing>, currentId: string, location: string, reference: string): (r: seq<Listing>)
    ensures |r| <= MaxShown
    ensures var full := Candidates(all, currentId, location, reference);
      |r| <= |full| && r == full[..|r|] && (|r| < MaxShown ==> r == full)
    ensures forall l :: l in r ==> l in all && l.mongoId != Some(currentId)
    ensures forall l :: l in r ==> Present(l.location) && Present(l.price)
  {
    var full := Candidates(all, currentId, location, reference);
    var r := Take(full, MaxShown);
    assert forall l :: l in r ==> l in full;
    r
  }

  /** The effect: with a falsy id, location or reference price nothing is
      fetched, and a failed fetch leaves the list as it was. */
  function FetchSimilar(previous: seq<Listing>, currentFlatId: Option<string>, location: Option<string>,
                        priceRange: Option<string>, fetched: Option<seq<Listing>>): (r: seq<Listing>)
    ensures !Present(currentFlatId) || !Present(location) || !Present(priceRange) || fetched.None? ==> r == previous
    ensures Present(currentFlatId) && Present(location) && Present(priceRange) && fetched.Some? ==>
      r == SelectSimilar(fetched.value, currentFlatId.value, location.value, priceRange.value)
  {
    if !Present(currentFlatId) || !Present(location) || !Present(priceRange) then previous
    else match fetched
      case None => previous
      case Some(all) => SelectSimilar(all, currentFlatId.value, location.value, priceRange.value)
  }

  /** A listing keyed only by `id` is never dropped by the identity test. */
  lemma UnkeyedListingNotExcluded(all: seq<Listing>, l: Listing, currentId: string, location: string, reference: string)
    requires l in all && l.mongoId.None? && IsSimilar(l, location, reference)
    ensures l in Candidates(all, currentId, location, reference)
  {
  }

  /** Over whole-number prices the 20% rule reads 5 * |p - c| <= c. */
  lemma SimilarWholePrices(p: nat, c: nat)
    ensures SimilarPrice(ShowNat(p), ShowNat(c)) <==> 5 * Abs(p - c) <= c
  {
    ParseFloatShowNat(p);
    ParseFloatShowNat(c);
  }
}
