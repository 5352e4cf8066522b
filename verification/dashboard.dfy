/** The admin dashboard's figures: totals, the available count, the number of
    distinct types, the five most recent listings and the per-type tally
    behind the bar chart. */
module Dashboard {
  import opened Values
  import opened Seqs
  import opened Listings
  import opened Login
  import Payload

  predicate IsAvailable(l: Listing) {
    l.status == Some("available")
  }

  /** `properties.filter(p => p.status === 'available').length` */
  function AvailableCount(ps: seq<Listing>): (n: nat)
    ensures n <= |ps|
  {
    |Filter(ps, IsAvailable)|
  }

  /** No available listing means a zero count, and the other way round. */
  lemma AvailableCountZero(ps: seq<Listing>)
    ensures AvailableCount(ps) == 0 <==> forall i :: 0 <= i < |ps| ==> !IsAvailable(ps[i])
  {
    FilterSpec(ps, IsAvailable);
    if AvailableCount(ps) != 0 {
      assert Filter(ps, IsAvailable)[0] in ps;
    }
  }

  /** `properties.map(p => p.type).filter(Boolean)` */
  function TruthyKinds(ps: seq<Listing>): (r: seq<string>)
    ensures |r| <= |ps|
  {
    if ps == [] then []
    else (if Present(ps[0].kind) then [ps[0].kind.value] else []) + TruthyKinds(ps[1..])
  }

  lemma {:induction false} TruthyKindsSpec(ps: seq<Listing>, t: string)
    ensures t in TruthyKinds(ps) <==> t != "" && exists i :: 0 <= i < |ps| && ps[i].kind == Some(t)
  {
    if ps != [] {
      TruthyKindsSpec(ps[1..], t);
      if exists i :: 0 <= i < |ps[1..]| && ps[1..][i].kind == Some(t) {
        var i :| 0 <= i < |ps[1..]| && ps[1..][i].kind == Some(t);
        assert ps[i + 1] == ps[1..][i];
      }
      if exists i :: 0 <= i < |ps| && ps[i].kind == Some(t) {
        var i :| 0 <= i < |ps| && ps[i].kind == Some(t);
        if i > 0 {
          assert ps[1..][i - 1] == ps[i];
        }
      }
    }
  }

  /** `[...new Set(truthy types)]` */
  function DistinctTypes(ps: seq<Listing>): (r: seq<string>)
    ensures NoDuplicates(r) && |r| <= |ps|
  {
    Dedup(TruthyKinds(ps))
  }

  /** A type is counted exactly when some listing has it and it is not empty. */
  lemma DistinctTypesSpec(ps: seq<Listing>, t: string)
    ensures t in DistinctTypes(ps) <==> t != "" && exists i :: 0 <= i < |ps| && ps[i].kind == Some(t)
  {
    TruthyKindsSpec(ps, t);
    var k := TruthyKinds(ps);
    if t in k {
      var i :| 0 <= i < |k| && k[i] == t;
      assert k[i] in Dedup(k);
    }
    if t in Dedup(k) {
      var i :| 0 <= i < |Dedup(k)| && Dedup(k)[i] == t;
    }
  }

  /** `properties.slice(-5).reverse()`: the last five, newest first. */
  function Recent(ps: seq<Listing>): (r: seq<Listing>)
    ensures |r| == if |ps| < 5 then |ps| else 5
    ensures forall i :: 0 <= i < |r| ==> r[i] == ps[|ps| - 1 - i]
  {
    Reverse(Last(ps, 5))
  }

  /** The object key a listing is tallied under: `String(p.type)`. */
  function TypeKey(l: Listing): (k: string)
    ensures k == Payload.Stringify(FromOption(l.kind))
  {
    match l.kind
    case Some(t) => t
    case None => "undefined"
  }

  function TypeKeys(ps: seq<Listing>): (r: seq<string>)
    ensures |r| == |ps|
    ensures forall i :: 0 <= i < |ps| ==> r[i] == TypeKey(ps[i])
  {
    seq(|ps|, i requires 0 <= i < |ps| => TypeKey(ps[i]))
  }

  /** `labels` and `data` are the keys of `keys` in first-seen order and
      the number of times each occurs. */
  ghost predicate Tally(keys: seq<string>, labels: seq<string>, data: seq<nat>) {
    labels == Dedup(keys) && |data| == |labels|
    && (forall j :: 0 <= j < |labels| ==> data[j] == Count(keys, labels[j]))
    && Sum(data) == |keys|
  }

  lemma DedupSnoc(keys: seq<string>, key: string)
    ensures Dedup(keys + [key]) == if key in Dedup(keys) then Dedup(keys) else Dedup(keys) + [key]
  {
    assert (keys + [key])[..|keys|] == keys;
  }

  /** One more occurrence of a key already seen. */
  lemma TallySeen(keys: seq<string>, labels: seq<string>, data: seq<nat>, key: string, j: nat)
    requires Tally(keys, labels, data) && j < |labels| && labels[j] == key
    ensures Tally(keys + [key], labels, data[j := data[j] + 1])
  {
    DedupSnoc(keys, key);
    SumIncrement(data, j);
    CountsAfterSnoc(keys, labels, data[j := data[j] + 1], key);
  }

  /** The first occurrence of a key. */
  lemma TallyFresh(keys: seq<string>, labels: seq<string>, data: seq<nat>, key: string)
    requires Tally(keys, labels, data) && key !in labels
    ensures Tally(keys + [key], labels + [key], data + [1])
  {
    DedupSnoc(keys, key);
    FreshCounts(keys, labels, data, key);
    CountsAfterSnoc(keys, labels + [key], data + [1], key);
    assert (data + [1])[..|data|] == data;
  }

  /** Before the new key is counted: the old counts, and zero for it. */
  lemma FreshCounts(keys: seq<string>, labels: seq<string>, data: seq<nat>, key: string)
    requires |data| == |labels| && labels == Dedup(keys) && key !in labels
    requires forall j :: 0 <= j < |labels| ==> data[j] == Count(keys, labels[j])
    ensures forall m :: 0 <= m < |labels| + 1 ==>
      (data + [1])[m] == Count(keys, (labels + [key])[m]) + (if (labels + [key])[m] == key then 1 else 0)
  {
    assert Count(keys, key) == 0;
    forall m | 0 <= m < |labels| + 1
      ensures (data + [1])[m] == Count(keys, (labels + [key])[m]) + (if (labels + [key])[m] == key then 1 else 0)
    {
      if m < |labels| {
        assert (labels + [key])[m] == labels[m] && (data + [1])[m] == data[m];
      }
    }
  }

  /** Counts over `keys + [key]`, label by label: one more for `key`. */
  lemma CountsAfterSnoc(keys: seq<string>, labels: seq<string>, data: seq<nat>, key: string)
    requires |data| == |labels|
    requires forall m :: 0 <= m < |labels| ==> data[m] == Count(keys, labels[m]) + (if labels[m] == key then 1 else 0)
    ensures forall m :: 0 <= m < |labels| ==> data[m] == Count(keys + [key], labels[m])
  {
    forall m | 0 <= m < |labels| ensures data[m] == Count(keys + [key], labels[m]) {
      CountAppend(keys, key, labels[m]);
    }
  }

  /** One loop step of `TypeStats`, on the prefix of the keys. */
  lemma StepSeen(keys: seq<string>, i: nat, labels: seq<string>, data: seq<nat>, j: nat)
    requires i < |keys| && Tally(keys[..i], labels, data) && j < |labels| && labels[j] == keys[i]
    ensures Tally(keys[..i + 1], labels, data[j := data[j] + 1])
  {
    assert keys[..i + 1] == keys[..i] + [keys[i]];
    TallySeen(keys[..i], labels, data, keys[i], j);
  }

  lemma StepFresh(keys: seq<string>, i: nat, labels: seq<string>, data: seq<nat>)
    requires i < |keys| && Tally(keys[..i], labels, data) && keys[i] !in labels
    ensures Tally(keys[..i + 1], labels + [keys[i]], data + [1])
  {
    assert keys[..i + 1] == keys[..i] + [keys[i]];
    TallyFresh(keys[..i], labels, data, keys[i]);
  }

  /** Every tallied key occurs at least once. */
  lemma TallyPositive(keys: seq<string>, labels: seq<string>, data: seq<nat>)
    requires Tally(keys, labels, data)
    ensures forall j :: 0 <= j < |data| ==> data[j] > 0
  {
    forall j | 0 <= j < |data| ensures data[j] > 0 {
      assert labels[j] in keys;
    }
  }

  /** The tallying loop of `calculatePropertyTypeStats`, over the keys:
      a linear search of the labels seen so far, then a count bumped or a
      label appended. */
  method CountKeys(keys: seq<string>) returns (labels: seq<string>, data: seq<nat>)
    ensures Tally(keys, labels, data)
  {
    labels, data := [], [];
    var i := 0;
    while i < |keys|
      invariant 0 <= i <= |keys|
      invariant Tally(keys[..i], labels, data)
    {
      var key := keys[i];
      var j := 0;
      while j < |labels| && labels[j] != key
        invariant 0 <= j <= |labels|
        invariant forall m :: 0 <= m < j ==> labels[m] != key
      {
        j := j + 1;
      }
      if j < |labels| {
        StepSeen(keys, i, labels, data, j);
        data := data[j := data[j] + 1];
      } else {
        StepFresh(keys, i, labels, data);
        labels, data := labels + [key], data + [1];
      }
      i := i + 1;
    }
    assert keys[..i] == keys;
  }

  /** `calculatePropertyTypeStats`: the keys in first-seen order and how
      many listings fall under each; the counts add up to the list length. */
  method TypeStats(ps: seq<Listing>) returns (labels: seq<string>, data: seq<nat>)
    ensures Tally(TypeKeys(ps), labels, data)
    ensures NoDuplicates(labels) && |data| == |labels| && Sum(data) == |ps|
    ensures forall j :: 0 <= j < |data| ==> data[j] > 0
  {
    labels, data := CountKeys(TypeKeys(ps));
    TallyPositive(TypeKeys(ps), labels, data);
  }

  /** `usersRes.data.length`, with a failed users request counting as none. */
  function UserCount(users: Response<seq<User>>): (n: nat)
    ensures users.Ok? ==> n == |users.body|
    ensures users.Failure? ==> n == 0
  {
    match users
    case Ok(us) => |us|
    case Failure(_) => 0
  }

  class DashboardPage {
    var totalUsers: nat
    var totalProperties: nat
    var availableProperties: nat
    var propertyTypes: nat
    var recent: seq<Listing>
    var typeLabels: seq<string>
    var typeData: seq<nat>
    var error: Option<string>

    constructor()
      ensures totalUsers == 0 && totalProperties == 0 && availableProperties == 0 && propertyTypes == 0
      ensures recent == [] && typeLabels == [] && typeData == [] && error == None
    {
      totalUsers, totalProperties, availableProperties, propertyTypes := 0, 0, 0, 0;
      recent, typeLabels, typeData := [], [], [];
      error := None;
    }

    /** `fetchDashboardData`: a failed users request counts as no users; a
        failed properties request leaves the figures and reports an error. */
    method Load(properties: Response<seq<Listing>>, users: Response<seq<User>>)
      modifies this
      ensures properties.Failure? ==>
        (totalUsers == old(totalUsers) && totalProperties == old(totalProperties)
         && availableProperties == old(availableProperties) && propertyTypes == old(propertyTypes)
         && recent == old(recent) && typeLabels == old(typeLabels) && typeData == old(typeData)
         && error == Some("Failed to load dashboard data"))
      ensures properties.Ok? ==>
        (error == None
         && totalUsers == UserCount(users)
         && totalProperties == |properties.body|
         && availableProperties == AvailableCount(properties.body)
         && propertyTypes == |DistinctTypes(properties.body)|
         && recent == Recent(properties.body)
         && Tally(TypeKeys(properties.body), typeLabels, typeData))
    {
      match properties {
        case Failure(_) =>
          error := Some("Failed to load dashboard data");
        case Ok(ps) =>
          ShowCounts(ps, UserCount(users));
          ShowTypes(ps);
      }
    }

    /** The totals, the available count, the type count and the recent list. */
    method ShowCounts(ps: seq<Listing>, userCount: nat)
      modifies this`totalUsers, this`totalProperties, this`availableProperties
      modifies this`propertyTypes, this`recent, this`error
      ensures error == None && totalUsers == userCount && totalProperties == |ps|
      ensures availableProperties == AvailableCount(ps) && propertyTypes == |DistinctTypes(ps)|
      ensures recent == Recent(ps)
    {
      totalUsers, totalProperties, availableProperties := userCount, |ps|, AvailableCount(ps);
      propertyTypes, recent, error := |DistinctTypes(ps)|, Recent(ps), None;
    }

    /** The bar chart's labels and counts. */
    method ShowTypes(ps: seq<Listing>)
      modifies this`typeLabels, this`typeData
      ensures Tally(TypeKeys(ps), typeLabels, typeData)
    {
      typeLabels, typeData := TypeStats(ps);
    }
  }
}
