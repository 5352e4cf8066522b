/** The overview page's three figures: how many users, how many listings and
    how many distinct `type` values, a missing type counting as one value. */
module DashboardHome {
  import opened Values
  import opened Seqs
  import opened Listings
  import opened Login

  datatype Stats = Stats(users: nat, properties: nat, categories: nat)

  /** The state before the requests settle. The page starts `categories` at
      an empty `Set`, which renders as nothing; zero stands for it here. */
  const Initial: Stats := Stats(0, 0, 0)

  /** `propertiesRes.data.map(p => p.type)`, missing types included. */
  function Kinds(ps: seq<Listing>): (r: seq<Option<string>>)
    ensures |r| == |ps|
    ensures forall i :: 0 <= i < |ps| ==> r[i] == ps[i].kind
  {
    seq(|ps|, i requires 0 <= i < |ps| => ps[i].kind)
  }

  /** `new Set(kinds).size`: the number of distinct type values. */
  function CategoryCount(ps: seq<Listing>): (n: nat)
    ensures n <= |ps|
    ensures n == 0 <==> |ps| == 0
    ensures n == |set i | 0 <= i < |ps| :: ps[i].kind|
  {
    var d := Dedup(Kinds(ps));
    assert |ps| > 0 ==> Kinds(ps)[0] in d;
    DedupCard(Kinds(ps));
    KindsSet(ps);
    |d|
  }

  lemma KindsSet(ps: seq<Listing>)
    ensures (set x | x in Kinds(ps)) == (set i | 0 <= i < |ps| :: ps[i].kind)
  {
    var k := Kinds(ps);
    forall t | t in k ensures t in (set i | 0 <= i < |ps| :: ps[i].kind) {
      var i :| 0 <= i < |k| && k[i] == t;
      assert ps[i].kind == t;
    }
  }

  /** `fetchStats`: both requests must succeed for the figures to change. */
  function FetchStats(current: Stats, users: Response<seq<User>>, properties: Response<seq<Listing>>): (r: Stats)
    ensures (users.Failure? || properties.Failure?) ==> r == current
    ensures (users.Ok? && properties.Ok?) ==>
      r.users == |users.body| && r.properties == |properties.body|
      && r.categories <= r.properties && (r.categories == 0 <==> r.properties == 0)
      && r.categories == |set i | 0 <= i < |properties.body| :: properties.body[i].kind|
  {
    match (users, properties)
    case (Ok(us), Ok(ps)) => Stats(|us|, |ps|, CategoryCount(ps))
    case _ => current
  }

  /** A type is a category exactly when some listing carries it, absence
      included. */
  lemma {:induction false} CategoryMembers(ps: seq<Listing>, t: Option<string>)
    ensures t in Dedup(Kinds(ps)) <==> exists i :: 0 <= i < |ps| && ps[i].kind == t
  {
    var k := Kinds(ps);
    if t in k {
      var i :| 0 <= i < |k| && k[i] == t;
      assert ps[i].kind == t;
    }
    if exists i :: 0 <= i < |ps| && ps[i].kind == t {
      var i :| 0 <= i < |ps| && ps[i].kind == t;
      assert k[i] == t;
    }
  }

  /** Listings without a type form a category of their own. */
  lemma UntypedIsACategory()
    ensures CategoryCount([Listing(None, None, None, None, None, None, None, None, None, None, None),
                           Listing(None, None, None, Some("flat"), None, None, None, None, None, None, None)]) == 2
  {
    var ps := [Listing(None, None, None, None, None, None, None, None, None, None, None),
               Listing(None, None, None, Some("flat"), None, None, None, None, None, None, None)];
    assert Kinds(ps) == [None, Some("flat")];
    assert Kinds(ps)[..1] == [None];
  }
}
