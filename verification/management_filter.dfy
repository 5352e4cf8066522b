/** The second admin table: a narrower filter (title or location search,
    exact status, exact type) and its status colours. */
module ManagementFilter {
  import opened Values
  import opened Text
  import opened Seqs
  import opened Listings

  datatype Criteria = Criteria(search: string, status: string, kind: string)

  predicate FieldMatches(field: Option<string>, term: string) {
    field.Some? && Contains(ToLower(field.value), ToLower(term))
  }

  predicate Keep(l: Listing, c: Criteria) {
    (FieldMatches(l.title, c.search) || FieldMatches(l.location, c.search))
    && (c.status == "all" || l.status == Some(c.status))
    && (c.kind == "all" || l.kind == Some(c.kind))
  }

  /** `filteredProperties` of the management table. */
  function FilterProperties(ls: seq<Listing>, c: Criteria): (r: seq<Listing>)
    ensures Subseq(r, ls)
    ensures forall l :: l in r <==>
      (l in ls
       && (FieldMatches(l.title, c.search) || FieldMatches(l.location, c.search))
       && (c.status == "all" || l.status == Some(c.status))
       && (c.kind == "all" || l.kind == Some(c.kind)))
    ensures forall l :: Count(r, l) == if Keep(l, c) then Count(ls, l) else 0
  {
    FilterSpec(ls, l => Keep(l, c));
    Filter(ls, l => Keep(l, c))
  }

  /** The description is never searched: two listings that differ only in
      their description are kept or dropped together. */
  lemma DescriptionIgnored(ls: seq<Listing>, c: Criteria, i: nat, d: Option<string>)
    requires i < |ls|
    ensures ls[i] in FilterProperties(ls, c)
      <==> ls[i].(description := d) in FilterProperties(ls[i := ls[i].(description := d)], c)
  {
    var ls' := ls[i := ls[i].(description := d)];
    assert ls'[i] == ls[i].(description := d);
  }

  /** With an empty search and both selections at "all", exactly the listings
      with a title or a location survive. */
  lemma EmptySearchKeepsTitledOrLocated(ls: seq<Listing>)
    ensures forall l ::
      (l in FilterProperties(ls, Criteria("", "all", "all")) <==> l in ls && (l.title.Some? || l.location.Some?))
  {
    assert ToLower("") == "";
    forall f: Option<string> | f.Some? ensures FieldMatches(f, "") {
      ContainsEmpty(ToLower(f.value));
    }
  }

  /** `getStatusColor`: an exact switch with a gray default. */
  function StatusColor(status: Option<string>): (r: string)
    ensures status == Some("available") ==> r == "bg-green-100 text-green-800"
    ensures status == Some("rented") ==> r == "bg-red-100 text-red-800"
    ensures status == Some("booked") ==> r == "bg-yellow-100 text-yellow-800"
    ensures status !in {Some("available"), Some("rented"), Some("booked")} ==> r == "bg-gray-100 text-gray-800"
  {
    match status
    case Some("available") => "bg-green-100 text-green-800"
    case Some("rented") => "bg-red-100 text-red-800"
    case Some("booked") => "bg-yellow-100 text-yellow-800"
    case _ => "bg-gray-100 text-gray-800"
  }

  /** The three known statuses get three different colours, all different
      from the default. */
  lemma StatusColorsDistinct()
    ensures |{StatusColor(Some("available")), StatusColor(Some("rented")),
              StatusColor(Some("booked")), StatusColor(None)}| == 4
  {
  }
}
