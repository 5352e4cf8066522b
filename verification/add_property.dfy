/** The three-step "add property" wizard: a step counter, the chosen images
    with their previews, the form values, and the record posted on the last
    step. */
module AddProperty {
  import opened Values
  import opened Text
  import opened Seqs
  import opened Payload

  const LastStep: int := 3

  /** `s.filter((_, j) => j !== i)` */
  function RemoveAt<T>(s: seq<T>, i: nat): (r: seq<T>)
    requires i < |s|
    ensures |r| == |s| - 1
    ensures r[..i] == s[..i] && r[i..] == s[i + 1..]
    ensures forall j :: 0 <= j < |r| ==> r[j] == (if j < i then s[j] else s[j + 1])
  {
    s[..i] + s[i + 1..]
  }

  /** `(data.totalArea || "") + " sq ft"` */
  function NewArea(v: Value): (a: string)
    ensures |a| >= |AreaSuffix| && a[|a| - |AreaSuffix|..] == AreaSuffix
    ensures Truthy(v) ==> a[..|a| - |AreaSuffix|] == Stringify(v)
    ensures !Truthy(v) ==> a == AreaSuffix
  {
    (if Truthy(v) then Stringify(v) else "") + AreaSuffix
  }

  /** The record posted on the last step. */
  function NewRecord(d: FormData, previews: seq<string>, id: string): (r: Record)
    ensures r.id == Str(id) && r.status == Str("available")
    ensures r.title == Field(d, "title") && r.kind == Field(d, "propertyType")
    ensures r.description == Field(d, "description") && r.location == Field(d, "location")
    ensures r.price == Field(d, "price") && r.owner == OwnerOf(d)
    ensures r.image == (if |previews| > 0 then Str(previews[0]) else Undefined)
    ensures r.amenities == AmenityLabels(d.amenities)
    ensures r.details.bedrooms == CountField(Field(d, "bedrooms"))
    ensures r.details.bathrooms == CountField(Field(d, "bathrooms"))
    ensures r.details.totalArea == NewArea(Field(d, "totalArea"))
    ensures r.details.furnished <==> Field(d, "furnished") == Str("true")
  {
    Record(Str(id), Field(d, "title"), Field(d, "propertyType"),
           if |previews| > 0 then Str(previews[0]) else Undefined,
           Field(d, "description"), Field(d, "location"), Field(d, "price"),
           AmenityLabels(d.amenities), Str("available"), OwnerOf(d),
           Details(CountField(Field(d, "bedrooms")), CountField(Field(d, "bathrooms")),
                   NewArea(Field(d, "totalArea")), IsTrueString(Field(d, "furnished"))))
  }

  /** The wizard has no "furnished" field (the amenity checkbox of that name
      is `amenities.furnished`), so a new listing is never furnished. */
  lemma NeverFurnished(d: FormData, previews: seq<string>, id: string)
    requires "furnished" !in d.values
    ensures !NewRecord(d, previews, id).details.furnished
  {
  }

  /** An entered 0 bedrooms is posted as null. */
  lemma ZeroBedroomsBecomeNull(d: FormData, previews: seq<string>, id: string)
    requires Field(d, "bedrooms") == Str("0")
    ensures NewRecord(d, previews, id).details.bedrooms == None
  {
    CountFieldOfNat(0);
  }

  /** The labels a new listing can carry, in the order they are posted:
      the checkbox ids capitalised, so "WiFi" and "AC" go out as "Wifi" and
      "Ac". */
  lemma PostedLabelNames()
    ensures Capitalized(AmenityIds) ==
      ["Parking", "Wifi", "Ac", "Kitchen", "Water", "Laundry", "Security", "Furnished", "Gym"]
  {
    CapitalizedIds();
    FirstNames();
    LastNames();
  }

  lemma CapitalizedIds()
    ensures Capitalized(AmenityIds) ==
      [Capitalize("parking"), Capitalize("wifi"), Capitalize("ac"), Capitalize("kitchen"), Capitalize("water"),
       Capitalize("laundry"), Capitalize("security"), Capitalize("furnished"), Capitalize("gym")]
  {
  }

  lemma FirstNames()
    ensures Capitalize("parking") == "Parking" && Capitalize("wifi") == "Wifi" && Capitalize("ac") == "Ac"
    ensures Capitalize("kitchen") == "Kitchen" && Capitalize("water") == "Water"
  {
  }

  lemma LastNames()
    ensures Capitalize("laundry") == "Laundry" && Capitalize("security") == "Security"
    ensures Capitalize("furnished") == "Furnished" && Capitalize("gym") == "Gym"
  {
  }

  /** Checking "Gym" and then "Parking" posts "Parking" before "Gym". */
  lemma ClickOrderIgnored()
    ensures AmenityLabels(SetFlag(SetFlag(Unchecked(AmenityIds), "gym", true), "parking", true))
      == ["Parking", "Gym"]
  {
    GymThenParking();
    ParkingAndGymNames();
  }

  lemma ParkingAndGymNames()
    ensures [Capitalize("parking"), Capitalize("gym")] == ["Parking", "Gym"]
  {
    assert Capitalize("parking") == "Parking" && Capitalize("gym") == "Gym";
  }

  lemma GymThenParking()
    ensures AmenityLabels(SetFlag(SetFlag(Unchecked(AmenityIds), "gym", true), "parking", true))
      == [Capitalize("parking"), Capitalize("gym")]
  {
    AmenityIdsPlain();
    assert AmenityIds[0] == "parking" && AmenityIds[8] == "gym";
    LaterClickedFirstListed(AmenityIds, 0, 8);
  }

  /** Checking box `j` and then an earlier box `i` lists `i` first. */
  lemma LaterClickedFirstListed(ids: seq<string>, i: nat, j: nat)
    requires NoDuplicates(ids) && i < j < |ids|
    ensures AmenityLabels(SetFlag(SetFlag(Unchecked(ids), ids[j], true), ids[i], true))
      == [Capitalize(ids[i]), Capitalize(ids[j])]
  {
    var f0 := Unchecked(ids);
    ClickedTwice(ids, i, j);
    UncheckedParts(ids, i, j);
    TwoChecked(f0[..i], f0[i + 1..j], f0[j + 1..], ids[i], ids[j]);
  }

  /** The flags after the two clicks: the two entries set, in place. */
  lemma ClickedTwice(ids: seq<string>, i: nat, j: nat)
    requires NoDuplicates(ids) && i < j < |ids|
    ensures SetFlag(SetFlag(Unchecked(ids), ids[j], true), ids[i], true)
      == Unchecked(ids)[..i] + [(ids[i], true)] + Unchecked(ids)[i + 1..j] + [(ids[j], true)]
         + Unchecked(ids)[j + 1..]
  {
    var f0 := Unchecked(ids);
    SetListed(f0, ids, j, true);
    SetListed(f0[j := (ids[j], true)], ids, i, true);
    TwoUpdates(f0, i, j, (ids[i], true), (ids[j], true));
  }

  lemma UncheckedParts(ids: seq<string>, i: nat, j: nat)
    requires i < j < |ids|
    ensures AmenityLabels(Unchecked(ids)[..i]) == []
    ensures AmenityLabels(Unchecked(ids)[i + 1..j]) == []
    ensures AmenityLabels(Unchecked(ids)[j + 1..]) == []
  {
    var f0 := Unchecked(ids);
    NoneChecked(f0[..i]);
    NoneChecked(f0[i + 1..j]);
    NoneChecked(f0[j + 1..]);
  }

  /** Two checked entries among unchecked ones give their two labels. */
  lemma TwoChecked(a: Flags, b: Flags, c: Flags, ki: string, kj: string)
    requires AmenityLabels(a) == [] && AmenityLabels(b) == [] && AmenityLabels(c) == []
    ensures AmenityLabels(a + [(ki, true)] + b + [(kj, true)] + c) == [Capitalize(ki), Capitalize(kj)]
  {
    var x := a + [(ki, true)];
    AmenityLabelsAppend(a, ki, true);
    assert AmenityLabels(x) == [Capitalize(ki)];
    var y := x + b;
    AmenityLabelsConcat(x, b);
    assert AmenityLabels(y) == [Capitalize(ki)];
    var z := y + [(kj, true)];
    AmenityLabelsAppend(y, kj, true);
    assert AmenityLabels(z) == [Capitalize(ki), Capitalize(kj)];
    AmenityLabelsConcat(z, c);
    assert AmenityLabels(z + c) == AmenityLabels(z) + [];
    assert AmenityLabels(z) + [] == AmenityLabels(z);
  }

  lemma {:induction false} NoneChecked(f: Flags)
    requires forall k :: 0 <= k < |f| ==> !f[k].1
    ensures AmenityLabels(f) == []
  {
    if f != [] {
      NoneChecked(f[1..]);
    }
  }

  lemma TwoUpdates<T>(s: seq<T>, i: nat, j: nat, u: T, v: T)
    requires i < j < |s|
    ensures s[j := v][i := u] == s[..i] + [u] + s[i + 1..j] + [v] + s[j + 1..]
  {
    var r := s[..i] + [u] + s[i + 1..j] + [v] + s[j + 1..];
    forall k | 0 <= k < |s| ensures s[j := v][i := u][k] == r[k] {
      if k < i {
      } else if k == i {
      } else if k < j {
        assert r[k] == s[i + 1..j][k - i - 1];
      } else if k == j {
      } else {
        assert r[k] == s[j + 1..][k - j - 1];
      }
    }
  }

  /** The labels are some of the checkbox labels, in the order of the
      checkboxes. */
  ghost predicate InListOrder(labels: seq<string>) {
    Subseq(labels, Capitalized(AmenityIds))
  }

  /** Whatever the order of the clicks, a record posted from the checkbox
      group carries its labels in the order of the checkboxes. */
  lemma PostedInListOrder(d: FormData, previews: seq<string>, id: string)
    requires d.amenities == [] || ListedAs(d.amenities, AmenityIds)
    ensures InListOrder(NewRecord(d, previews, id).amenities)
  {
    if d.amenities != [] {
      ListedLabels(d.amenities, AmenityIds);
    }
  }

  /** The empty form that `reset()` restores. */
  const EmptyForm: FormData := FormData(map[], [])

  /** The inputs of each page, in render order, with the value each holds
      untouched: the title, price and description boxes are empty and no
      type radio is checked; the room counts, the area and the contact
      boxes are empty; the location box is empty until a place is picked. */
  const FirstPage: seq<(string, Value)> :=
    [("title", Str("")), ("price", Str("")), ("propertyType", Null), ("description", Str(""))]
  const SecondPage: seq<(string, Value)> :=
    [("bedrooms", Str("")), ("bathrooms", Str("")), ("totalArea", Str("")),
     ("ownerName", Str("")), ("contactEmail", Str("")), ("contactPhone", Str(""))]
  const ThirdPage: seq<(string, Value)> := [("location", Str(""))]

  function PageInputs(step: int): seq<(string, Value)> {
    if step == 1 then FirstPage else if step == 2 then SecondPage else ThirdPage
  }

  /** The form once page `step` has rendered: its inputs mount, and on the
      second page so do the nine checkboxes. */
  function Shown(d: FormData, step: int): (r: FormData)
    ensures r.values == Mount(d.values, PageInputs(step))
    ensures r.amenities == (if step == 2 then Register(d.amenities, AmenityIds) else d.amenities)
  {
    FormData(Mount(d.values, PageInputs(step)),
             if step == 2 then Register(d.amenities, AmenityIds) else d.amenities)
  }

  /** The first render of the wizard. */
  lemma FirstRender()
    ensures Shown(EmptyForm, 1) ==
      FormData(map["title" := Str(""), "price" := Str(""), "propertyType" := Null, "description" := Str("")], [])
  {
    var m0: map<string, Value> := map[];
    assert Mount(m0, FirstPage[..0]) == m0;
    assert FirstPage[..1][..0] == FirstPage[..0];
    assert Mount(m0, FirstPage[..1]) == map["title" := Str("")];
    assert FirstPage[..2][..1] == FirstPage[..1];
    assert Mount(m0, FirstPage[..2]) == map["title" := Str(""), "price" := Str("")];
    assert FirstPage[..3][..2] == FirstPage[..2];
    assert Mount(m0, FirstPage[..3]) == map["title" := Str(""), "price" := Str(""), "propertyType" := Null];
    assert FirstPage[..4][..3] == FirstPage[..3];
    assert FirstPage[..4] == FirstPage;
  }

  /** Once a page has rendered, each of its fields holds what it held
      before or, when it was undefined, the input's own value: from then on
      none of them is posted as undefined. */
  lemma ShownDefines(d: FormData, step: int, i: nat)
    requires 1 <= step <= LastStep && i < |PageInputs(step)|
    ensures Field(Shown(d, step), PageInputs(step)[i].0)
      == MountValue(Field(d, PageInputs(step)[i].0), PageInputs(step)[i].1)
    ensures Field(Shown(d, step), PageInputs(step)[i].0) != Undefined
  {
    var inputs := PageInputs(step);
    assert DistinctNames(inputs);
    MountSpec(d.values, inputs, inputs[i].0);
  }

  /** A page rendering again, after "Previous" or a later click on "Next",
      leaves the form as its first rendering did. */
  lemma ShownAgain(d: FormData, step: int)
    requires 1 <= step <= LastStep
    ensures Shown(Shown(d, step), step) == Shown(d, step)
  {
    var inputs := PageInputs(step);
    assert DistinctNames(inputs);
    MountAgain(d.values, inputs);
    if step == 2 {
      AmenityIdsPlain();
      var f := Register(d.amenities, AmenityIds);
      RegisterKeepsLabels(d.amenities, AmenityIds);
      forall i | 0 <= i < |AmenityIds| ensures AmenityIds[i] in Keys(f) { }
      RegisterPresent(f, AmenityIds);
    }
  }

  /** A location nobody picked on the map is posted as "", the value of the
      empty location box on the last page. */
  lemma UnpickedLocationPostedEmpty(d: FormData, previews: seq<string>, id: string)
    requires Field(d, "location") == Undefined
    ensures NewRecord(Shown(d, LastStep), previews, id).location == Str("")
  {
    ShownDefines(d, LastStep, 0);
  }

  class Wizard {
    var step: int
    var form: FormData
    var files: seq<string>
    var previews: seq<string>
    /** Every record posted so far, in order. */
    var posted: seq<Record>
    var showSuccess: bool
    var added: Option<Record>

    /** The step is one of the three pages, every chosen file has its
        preview at the same index, and the checkbox group is empty until the
        second page registers it, and from then on holds one entry per
        checkbox in list order. */
    predicate Valid()
      reads this`step, this`previews, this`files, this`form
    {
      1 <= step <= LastStep && |previews| == |files|
      && (form.amenities == [] || ListedAs(form.amenities, AmenityIds))
    }

    /** The wizard opens on its first page, whose inputs mount at once. */
    constructor()
      ensures Valid() && step == 1 && files == [] && previews == []
      ensures form == Shown(EmptyForm, 1)
      ensures form == FormData(map["title" := Str(""), "price" := Str(""), "propertyType" := Null,
                                   "description" := Str("")], [])
      ensures posted == [] && !showSuccess && added == None
    {
      step := 1;
      form := EmptyForm;
      files := [];
      previews := [];
      posted := [];
      showSuccess := false;
      added := None;
      new;
      ShowPage();
      FirstRender();
    }

    /** The current page renders: its inputs mount, and on the second page
        so do the nine amenity checkboxes. */
    method ShowPage()
      requires Valid()
      modifies this`form
      ensures Valid()
      ensures form == Shown(old(form), step)
    {
      form := form.(values := Mount(form.values, PageInputs(step)));
      if step == 2 {
        ShowAmenities();
      }
    }

    /** Typing into a field. */
    method SetField(key: string, v: Value)
      requires Valid()
      modifies this
      ensures Valid()
      ensures form == old(form).(values := old(form).values[key := v])
      ensures step == old(step) && files == old(files) && previews == old(previews)
      ensures posted == old(posted) && showSuccess == old(showSuccess) && added == old(added)
    {
      form := form.(values := form.values[key := v]);
    }

    /** Choosing files replaces both lists; `urls` holds one object URL per file. */
    method SelectImages(chosen: seq<string>, urls: seq<string>)
      requires Valid() && |urls| == |chosen|
      modifies this
      ensures Valid()
      ensures files == chosen && previews == urls
      ensures step == old(step) && form == old(form)
      ensures posted == old(posted) && showSuccess == old(showSuccess) && added == old(added)
    {
      files := chosen;
      previews := urls;
    }

    /** The remove button on preview `i` drops index `i` from both lists. */
    method RemovePreview(i: nat)
      requires Valid() && i < |previews|
      modifies this
      ensures Valid()
      ensures previews == RemoveAt(old(previews), i) && files == RemoveAt(old(files), i)
      ensures step == old(step) && form == old(form)
      ensures posted == old(posted) && showSuccess == old(showSuccess) && added == old(added)
    {
      previews := RemoveAt(previews, i);
      files := RemoveAt(files, i);
    }

    /** "Previous", offered only above the first step; the earlier page
        renders again. */
    method Previous()
      requires Valid()
      modifies this
      ensures Valid()
      ensures step == (if old(step) > 1 then old(step) - 1 else old(step))
      ensures form == (if old(step) > 1 then Shown(old(form), step) else old(form))
      ensures files == old(files) && previews == old(previews)
      ensures posted == old(posted) && showSuccess == old(showSuccess) && added == old(added)
    {
      if step > 1 {
        step := step - 1;
        ShowPage();
      }
    }

    /** Clears the form, the images and the step. */
    method Reset()
      requires Valid()
      modifies this
      ensures Valid()
      ensures step == 1 && form == EmptyForm && files == [] && previews == []
      ensures posted == old(posted) && showSuccess == old(showSuccess) && added == old(added)
    {
      form := EmptyForm;
      files := [];
      previews := [];
      step := 1;
    }

    /** The second page renders its nine amenity checkboxes: on the first
        display they register unchecked, in list order; on a later display
        they keep their values. */
    method ShowAmenities()
      requires Valid() && step == 2
      modifies this`form
      ensures Valid()
      ensures form == old(form).(amenities := Register(old(form).amenities, AmenityIds))
      ensures old(form).amenities == [] ==> form.amenities == Unchecked(AmenityIds)
      ensures old(form).amenities != [] ==> form == old(form)
    {
      AmenityIdsPlain();
      if form.amenities == [] {
        RegisterFresh(AmenityIds);
      } else {
        forall i | 0 <= i < |AmenityIds| ensures AmenityIds[i] in Keys(form.amenities) {
          assert form.amenities[i].0 == AmenityIds[i];
        }
        RegisterPresent(form.amenities, AmenityIds);
      }
      form := form.(amenities := Register(form.amenities, AmenityIds));
    }

    /** A click on amenity checkbox `i` on the second page: its entry changes
        in place, whatever the order of the clicks. */
    method SetAmenity(i: nat, checked: bool)
      requires Valid() && step == 2 && i < |AmenityIds| && form.amenities != []
      modifies this`form
      ensures Valid()
      ensures form == old(form).(amenities := SetFlag(old(form).amenities, AmenityIds[i], checked))
      ensures form.amenities == old(form).amenities[i := (AmenityIds[i], checked)]
    {
      AmenityIdsPlain();
      SetListed(form.amenities, AmenityIds, i, checked);
      form := form.(amenities := SetFlag(form.amenities, AmenityIds[i], checked));
    }

    /** The submit button. `valid` is the form library's verdict on the
        fields shown so far (nothing happens without it), `id` the fresh id
        and `response` the answer to the POST. */
    method Submit(valid: bool, id: string, response: Response<Record>)
      requires Valid()
      modifies this
      ensures Valid()
      ensures !valid ==> unchanged(this)
      ensures valid && old(step) < LastStep ==>
        (step == old(step) + 1 && form == Shown(old(form), step) && files == old(files)
         && previews == old(previews) && posted == old(posted) && showSuccess == old(showSuccess)
         && added == old(added))
      ensures valid && old(step) == LastStep ==>
        posted == old(posted) + [NewRecord(old(form), old(previews), id)]
      ensures valid && old(step) == LastStep ==>
        match response
        case Ok(body) =>
          step == 1 && form == EmptyForm && files == [] && previews == []
          && showSuccess && added == Some(body)
        case Failure(_) =>
          step == old(step) && form == old(form) && files == old(files)
          && previews == old(previews) && showSuccess == old(showSuccess) && added == old(added)
    {
      if valid && step < LastStep {
        step := step + 1;
        ShowPage();
      } else if valid {
        var sent := Post(id, response);
      }
    }

    /** The last step: the POST, then the success page or nothing more. */
    method Post(id: string, response: Response<Record>) returns (sent: Record)
      requires Valid()
      modifies this
      ensures Valid()
      ensures sent == NewRecord(old(form), old(previews), id)
      ensures posted == old(posted) + [sent]
      ensures match response
        case Ok(body) =>
          step == 1 && form == EmptyForm && files == [] && previews == []
          && showSuccess && added == Some(body)
        case Failure(_) =>
          step == old(step) && form == old(form) && files == old(files)
          && previews == old(previews) && showSuccess == old(showSuccess) && added == old(added)
    {
      sent := NewRecord(form, previews, id);
      Deliver(sent, response);
    }

    /** The POST of `sent`, and what its answer leaves on screen. */
    method Deliver(sent: Record, response: Response<Record>)
      requires Valid()
      modifies this
      ensures Valid()
      ensures posted == old(posted) + [sent]
      ensures match response
        case Ok(body) =>
          step == 1 && form == EmptyForm && files == [] && previews == []
          && showSuccess && added == Some(body)
        case Failure(_) =>
          step == old(step) && form == old(form) && files == old(files)
          && previews == old(previews) && showSuccess == old(showSuccess) && added == old(added)
    {
      Send(sent);
      match response {
        case Ok(body) => Succeed(body);
        case Failure(_) =>
      }
    }

    /** The POST itself, as a record appended to those sent so far. */
    method Send(sent: Record)
      requires Valid()
      modifies this`posted
      ensures Valid()
      ensures posted == old(posted) + [sent]
    {
      posted := posted + [sent];
    }

    /** A successful POST: the success page, and the wizard reset. */
    method Succeed(body: Record)
      modifies this`added, this`showSuccess, this`form, this`files, this`previews, this`step
      ensures step == 1 && form == EmptyForm && files == [] && previews == []
      ensures showSuccess && added == Some(body)
    {
      added := Some(body);
      showSuccess := true;
      form := EmptyForm;
      files := [];
      previews := [];
      step := 1;
    }

    /** "Add Another" on the success page: the wizard is reset and its
        first page renders again. */
    method AddAnother()
      requires Valid()
      modifies this
      ensures Valid()
      ensures step == 1 && form == Shown(EmptyForm, 1) && files == [] && previews == []
      ensures !showSuccess && added == None && posted == old(posted)
    {
      showSuccess := false;
      added := None;
      Reset();
      ShowPage();
    }
  }
}
