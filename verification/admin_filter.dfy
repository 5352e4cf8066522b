/** The admin properties table: price buckets and the four-way filter
    (search text, type, price bucket, status). */
module AdminFilter {
  import opened Values
  import opened Text
  import opened Numbers
  import opened Seqs
  import opened Listings

  datatype PriceBucket = Low | Medium | High

  function BucketName(b: PriceBucket): string {
    match b
    case Low => "low"
    case Medium => "medium"
    case High => "high"
  }

  predicate IsNumericChar(c: char) { IsDigit(c) || c == '.' || c == '-' }

  /** `price.replace(/[^0-9.-]+/g, '')` */
  function StripNonNumeric(price: string): (r: string)
  {
    Filter(price, IsNumericChar)
  }

  /** `getPriceRange`: below 10000 is low, below 50000 medium; a NaN parse
      fails both comparisons and lands in High. */
  function PriceRange(price: string): (r: PriceBucket)
    ensures ParseFloat(StripNonNumeric(price)).None? ==> r == High
    ensures ParseFloat(StripNonNumeric(price)).Some? ==>
      (r == Low <==> Below(ParseFloat(StripNonNumeric(price)).value, 10000))
      && (r == Medium <==> !Below(ParseFloat(StripNonNumeric(price)).value, 10000)
                           && Below(ParseFloat(StripNonNumeric(price)).value, 50000))
  {
    BucketOf(StripNonNumeric(price))
  }

  function BucketOf(stripped: string): PriceBucket {
    match ParseFloat(stripped)
    case None => High
    case Some(d) => if Below(d, 10000) then Low else if Below(d, 50000) then Medium else High
  }

  /** For a plain numeral the bucket follows the thresholds 10000 and 50000. */
  lemma PriceRangeOfNumeral(n: nat)
    ensures PriceRange(ShowNat(n)) == if n < 10000 then Low else if n < 50000 then Medium else High
  {
    var s := ShowNat(n);
    FilterSpec(s, IsNumericChar);
    ParseFloatShowNat(n);
  }

  lemma PriceRangeBoundaries()
    ensures PriceRange("9999") == Low
    ensures PriceRange("10000") == Medium
    ensures PriceRange("49999") == Medium
    ensures PriceRange("50000") == High
  {
    Numeral9999();
    Numeral10000();
    Numeral49999();
    Numeral50000();
  }

  lemma Numeral9999() ensures PriceRange("9999") == Low {
    assert ShowNat(9) == "9" && ShowNat(99) == "99" && ShowNat(999) == "999";
    assert ShowNat(9999) == "9999";
    PriceRangeOfNumeral(9999);
  }

  lemma Numeral10000() ensures PriceRange("10000") == Medium {
    assert ShowNat(1) == "1" && ShowNat(10) == "10" && ShowNat(100) == "100" && ShowNat(1000) == "1000";
    assert ShowNat(10000) == "10000";
    PriceRangeOfNumeral(10000);
  }

  lemma Numeral49999() ensures PriceRange("49999") == Medium {
    assert ShowNat(4) == "4" && ShowNat(49) == "49" && ShowNat(499) == "499" && ShowNat(4999) == "4999";
    assert ShowNat(49999) == "49999";
    PriceRangeOfNumeral(49999);
  }

  lemma Numeral50000() ensures PriceRange("50000") == High {
    assert ShowNat(5) == "5" && ShowNat(50) == "50" && ShowNat(500) == "500" && ShowNat(5000) == "5000";
    assert ShowNat(50000) == "50000";
    PriceRangeOfNumeral(50000);
  }

  /** A price with no digit at all parses to NaN and is bucketed High. */
  lemma PriceRangeWithoutDigits(price: string)
    requires forall i :: 0 <= i < |price| ==> !IsDigit(price[i])
    ensures PriceRange(price) == High
  {
    var s := StripNonNumeric(price);
    FilterSpec(price, IsNumericChar);
    assert forall i :: 0 <= i < |s| ==> !IsDigit(s[i]);
    ParseFloatWithoutDigits(s);
  }

  /** The worked example: "NPR 45,000" is a medium-priced listing. */
  lemma PriceRangeExample()
    ensures PriceRange("NPR 45,000") == Medium
  {
    StripExample();
    Numeral45000();
  }

  lemma StripExample() ensures StripNonNumeric("NPR 45,000") == "45000" {
    assert "NPR 45,000" == "NPR " + "45,000";
    FilterConcat("NPR ", "45,000", IsNumericChar);
    StripLetters();
    StripComma();
  }

  /** One character at a time through the price filter. */
  lemma StripCons(c: char, s: string)
    ensures StripNonNumeric([c] + s) == (if IsNumericChar(c) then [c] else []) + StripNonNumeric(s)
  {
    assert ([c] + s)[1..] == s;
  }

  lemma StripLetters() ensures Filter("NPR ", IsNumericChar) == [] {
    StripCons(' ', "");
    StripCons('R', " ");
    StripCons('P', "R ");
    StripCons('N', "PR ");
  }

  lemma StripComma() ensures Filter("45,000", IsNumericChar) == "45000" {
    StripCons('0', "");
    StripCons('0', "0");
    StripCons('0', "00");
    StripCons(',', "000");
    StripCons('5', ",000");
    StripCons('4', "5,000");
  }

  lemma Numeral45000() ensures BucketOf("45000") == Medium {
    assert ShowNat(4) == "4" && ShowNat(45) == "45" && ShowNat(450) == "450" && ShowNat(4500) == "4500";
    assert ShowNat(45000) == "45000";
    PriceRangeOfNumeral(45000);
    FilterSpec(ShowNat(45000), IsNumericChar);
  }

  /** The admin filter selections; "all" switches a criterion off. */
  datatype Criteria = Criteria(search: string, kind: string, priceRange: string, status: string)

  /** `field?.toLowerCase().includes(term.toLowerCase())`, where a missing
      field gives `undefined`, which is falsy. */
  predicate FieldMatches(field: Option<string>, term: string) {
    field.Some? && Contains(ToLower(field.value), ToLower(term))
  }

  predicate MatchesSearch(l: Listing, term: string) {
    FieldMatches(l.title, term) || FieldMatches(l.location, term) || FieldMatches(l.description, term)
  }

  predicate MatchesType(l: Listing, kind: string) {
    kind == "all" || (l.kind.Some? && ToLower(l.kind.value) == ToLower(kind))
  }

  /** Only consulted when the listing has a price: otherwise the filter throws. */
  predicate MatchesPrice(l: Listing, range: string) {
    range == "all" || (l.price.Some? && BucketName(PriceRange(l.price.value)) == range)
  }

  predicate MatchesStatus(l: Listing, status: string) {
    status == "all" || l.status == Some(status)
  }

  predicate Keep(l: Listing, c: Criteria) {
    MatchesSearch(l, c.search) && MatchesType(l, c.kind) && MatchesPrice(l, c.priceRange) && MatchesStatus(l, c.status)
  }

  /** `getPriceRange(undefined)` calls `replace` on undefined: with a price
      bucket selected, one listing without a price makes the filter throw. */
  predicate Throws(ls: seq<Listing>, c: Criteria) {
    c.priceRange != "all" && exists i :: 0 <= i < |ls| && ls[i].price.None?
  }

  /** `filteredProperties`; None when the filter throws. */
  function FilterProperties(ls: seq<Listing>, c: Criteria): (r: Option<seq<Listing>>)
    ensures r.None? <==> c.priceRange != "all" && exists l :: l in ls && l.price.None?
    ensures r.Some? ==> Subseq(r.value, ls)
    ensures r.Some? ==> forall l :: l in r.value <==>
      l in ls && MatchesSearch(l, c.search) && MatchesType(l, c.kind)
      && MatchesPrice(l, c.priceRange) && MatchesStatus(l, c.status)
    ensures r.Some? ==> forall l :: Count(r.value, l) == if Keep(l, c) then Count(ls, l) else 0
  {
    FilterSpec(ls, l => Keep(l, c));
    if Throws(ls, c) then None else Some(Filter(ls, l => Keep(l, c)))
  }

  /** A listing without a type fails every type filter but "all". */
  lemma MissingTypeNeverMatches(l: Listing, c: Criteria)
    requires l.kind.None? && c.kind != "all"
    ensures !Keep(l, c)
  {
  }

  /** The type comparison ignores case on both sides; the status comparison
      is exact, so "Available" does not pass the "available" filter. */
  lemma TypeIgnoresCaseStatusDoesNot(l: Listing, kind: string, kind': string, status: string)
    requires kind != "all" && kind' != "all" && ToLower(kind) == ToLower(kind')
    requires status != "all"
    ensures MatchesType(l, kind) == MatchesType(l, kind')
    ensures MatchesStatus(l, status) <==> l.status == Some(status)
  {
  }

  /** With every selection off, the whole list comes back, in order, exactly
      when each listing has a title, a location or a description. */
  lemma AllFiltersOff(ls: seq<Listing>)
    ensures FilterProperties(ls, Criteria("", "all", "all", "all")) == Some(ls)
      <==> forall l :: l in ls ==> l.title.Some? || l.location.Some? || l.description.Some?
  {
    var c := Criteria("", "all", "all", "all");
    assert ToLower("") == "";
    forall f: Option<string> | f.Some? ensures FieldMatches(f, "") {
      ContainsEmpty(ToLower(f.value));
    }
    FilterSpec(ls, l => Keep(l, c));
    if forall l :: l in ls ==> l.title.Some? || l.location.Some? || l.description.Some? {
      assert forall i :: 0 <= i < |ls| ==> Keep(ls[i], c);
    }
  }
}
