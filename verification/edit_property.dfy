/** The "edit property" page: loading a stored listing into the form, the
    status buttons, and the record put back on submit. */
module EditProperty {
  import opened Values
  import opened Text
  import opened Seqs
  import opened Payload
  import opened Numbers

  datatype StoredOwner = StoredOwner(name: Value, contactEmail: Value, contactPhone: Value)

  datatype StoredDetails = StoredDetails(bedrooms: Value, bathrooms: Value, totalArea: Value, furnished: Value)

  /** A listing as the endpoint returns it: its scalar keys in key order,
      and the three nested parts, each of which may be missing. */
  datatype Stored = Stored(top: seq<(string, Value)>, owner: Option<StoredOwner>,
                           details: Option<StoredDetails>, amenities: Option<seq<string>>)

  /** `propertyData[key]`: the value under `key`, undefined when absent. */
  function TopValue(top: seq<(string, Value)>, key: string): (v: Value)
    ensures (forall i :: 0 <= i < |top| ==> top[i].0 != key) ==> v == Undefined
  {
    if top == [] then Undefined
    else if top[|top| - 1].0 == key then top[|top| - 1].1
    else TopValue(top[..|top| - 1], key)
  }

  /** The keys the loader does not copy into the form. */
  predicate Nested(key: string) {
    key == "amenities" || key == "owner" || key == "details"
  }

  /** The form values after `setValue(key, value)` for every key in order:
      no value is removed and the nested keys are left as they were. */
  function CopyTop(values: map<string, Value>, top: seq<(string, Value)>): (r: map<string, Value>)
    ensures values.Keys <= r.Keys
    ensures forall k :: Nested(k) ==> (k in r <==> k in values) && Get(r, k) == Get(values, k)
  {
    if top == [] then values
    else
      var m := CopyTop(values, top[..|top| - 1]);
      var (key, v) := top[|top| - 1];
      if Nested(key) then m else m[key := v]
  }

  /** After the copy every key of the listing reads back as its value, and
      every other key as before. */
  lemma {:induction false} CopyTopSpec(values: map<string, Value>, top: seq<(string, Value)>, key: string)
    requires !Nested(key)
    ensures Get(CopyTop(values, top), key) ==
      if exists i :: 0 <= i < |top| && top[i].0 == key then TopValue(top, key) else Get(values, key)
  {
    if top != [] {
      var init := top[..|top| - 1];
      CopyTopSpec(values, init, key);
      if top[|top| - 1].0 != key {
        if exists i :: 0 <= i < |top| && top[i].0 == key {
          var i :| 0 <= i < |top| && top[i].0 == key;
          assert init[i] == top[i];
        }
        if exists i :: 0 <= i < |init| && init[i].0 == key {
          var i :| 0 <= i < |init| && init[i].0 == key;
          assert top[i] == init[i];
        }
      }
    }
  }

  /** The entry `setValue(`amenities.${label.toLowerCase()}`, true)` writes. */
  function KeyOf(tag: string): Option<string> {
    AmenityKey(ToLower(tag))
  }

  /** One turn of the loader's amenity loop: the tag's entry is checked,
      or, when the label leaves no path segment, the whole group is replaced
      by `true`, which lists no entries. */
  function LoadLabel(flags: Flags, tag: string): Flags {
    match KeyOf(tag)
    case None => []
    case Some(key) => SetFlag(flags, key, true)
  }

  /** The amenity loop of the loader, over the stored labels in order. */
  function LoadFlags(flags: Flags, labels: seq<string>): Flags {
    if labels == [] then flags
    else LoadLabel(LoadFlags(flags, labels[..|labels| - 1]), labels[|labels| - 1])
  }

  /** Every tag leaves a path segment. */
  predicate AllKeyed(labels: seq<string>) {
    forall j :: 0 <= j < |labels| ==> KeyOf(labels[j]).Some?
  }

  /** The entries the labels write. */
  function LoadedKeys(labels: seq<string>): set<string> {
    set j | 0 <= j < |labels| && KeyOf(labels[j]).Some? :: KeyOf(labels[j]).value
  }

  /** The loop adds no key but the labels' own. When every label leaves a
      path segment, every label's entry is checked and the keys grow by
      exactly those entries. */
  lemma {:induction false} LoadFlagsKeys(flags: Flags, labels: seq<string>)
    ensures Keys(LoadFlags(flags, labels)) <= Keys(flags) + LoadedKeys(labels)
    ensures AllKeyed(labels) ==> Keys(LoadFlags(flags, labels)) == Keys(flags) + LoadedKeys(labels)
    ensures AllKeyed(labels) ==>
      forall j :: 0 <= j < |labels| ==> (KeyOf(labels[j]).value, true) in LoadFlags(flags, labels)
  {
    if labels != [] {
      var init := labels[..|labels| - 1];
      var last := labels[|labels| - 1];
      LoadFlagsKeys(flags, init);
      LoadedKeysSnoc(labels);
      var m := LoadFlags(flags, init);
      assert LoadFlags(flags, labels) == LoadLabel(m, last);
      if KeyOf(last).Some? {
        var key := KeyOf(last).value;
        SetFlagKeys(m, key, true);
        if AllKeyed(labels) {
          assert AllKeyed(init) by {
            forall j | 0 <= j < |init| ensures KeyOf(init[j]).Some? {
              assert init[j] == labels[j];
            }
          }
          forall j | 0 <= j < |labels| - 1 ensures (KeyOf(labels[j]).value, true) in m {
            assert init[j] == labels[j];
          }
          LoadedMembers(m, labels, key);
        }
      }
    }
  }

  /** After the last label is loaded, every label's entry is checked. */
  lemma LoadedMembers(m: Flags, labels: seq<string>, key: string)
    requires labels != [] && AllKeyed(labels) && KeyOf(labels[|labels| - 1]) == Some(key)
    requires forall j :: 0 <= j < |labels| - 1 ==> (KeyOf(labels[j]).value, true) in m
    requires forall e :: e in m && e.0 != key ==> e in SetFlag(m, key, true)
    requires (key, true) in SetFlag(m, key, true)
    ensures forall j :: 0 <= j < |labels| ==> (KeyOf(labels[j]).value, true) in SetFlag(m, key, true)
  {
    forall j | 0 <= j < |labels| ensures (KeyOf(labels[j]).value, true) in SetFlag(m, key, true) {
      var e := (KeyOf(labels[j]).value, true);
      if j == |labels| - 1 || e.0 == key {
        assert e == (key, true);
      } else {
        assert e in m && e.0 != key;
      }
    }
  }

  lemma LoadedKeysSnoc(labels: seq<string>)
    requires labels != []
    ensures var last := labels[|labels| - 1];
      LoadedKeys(labels) == LoadedKeys(labels[..|labels| - 1])
        + (if KeyOf(last).Some? then {KeyOf(last).value} else {})
  {
    var init := labels[..|labels| - 1];
    forall j | 0 <= j < |init| ensures init[j] == labels[j] { }
  }

  /** Lower-casing keeps a name whole. */
  lemma LowerPlain(s: string)
    requires PlainName(s)
    ensures PlainName(ToLower(s))
  {
  }

  /** A label the path syntax leaves whole is written under its lower-cased
      self. */
  lemma PlainKeyOf(tag: string)
    requires PlainName(tag)
    ensures KeyOf(tag) == Some(ToLower(tag))
  {
    LowerPlain(tag);
    PlainKey(ToLower(tag));
  }

  /** The loader throws on a missing owner, missing details, a non-string
      area, a missing furnished flag or missing amenities. */
  predicate LoadsFully(st: Stored) {
    st.owner.Some? && st.details.Some? && st.details.value.totalArea.Str?
    && st.details.value.furnished != Undefined && st.details.value.furnished != Null
    && st.amenities.Some?
  }

  /** The form values once the loader has run, as far as it gets. */
  function LoadedValues(values: map<string, Value>, st: Stored): map<string, Value> {
    NestedValues(CopyTop(values, st.top), st)
  }

  /** The owner and detail values the loader sets after the copy. */
  function NestedValues(m: map<string, Value>, st: Stored): map<string, Value> {
    match st.owner
    case None => m
    case Some(o) =>
      var m := m["ownerName" := o.name]["contactEmail" := o.contactEmail]["contactPhone" := o.contactPhone];
      match st.details
      case None => m
      case Some(d) =>
        var m := m["bedrooms" := d.bedrooms]["bathrooms" := d.bathrooms];
        if !d.totalArea.Str? then m
        else
          var m := m["totalArea" := Str(RemoveFirst(d.totalArea.s, AreaSuffix))];
          if d.furnished == Undefined || d.furnished == Null then m
          else m["furnished" := Str(Stringify(d.furnished))]
  }

  /** `${data.totalArea} sq ft` */
  function EditedArea(v: Value): (a: string)
    ensures |a| >= |AreaSuffix| && a[|a| - |AreaSuffix|..] == AreaSuffix
  {
    Stringify(v) + AreaSuffix
  }

  /** The record put on submit. */
  function EditedRecord(st: Stored, d: FormData, previews: seq<string>, currentStatus: Value): (r: Record)
    ensures r.id == TopValue(st.top, "id") && r.status == currentStatus
    ensures r.image == (if |previews| > 0 && previews[0] != "" then Str(previews[0]) else TopValue(st.top, "image"))
    ensures r.title == Field(d, "title") && r.kind == Field(d, "propertyType")
    ensures r.description == Field(d, "description") && r.location == Field(d, "location")
    ensures r.price == Field(d, "price") && r.owner == OwnerOf(d)
    ensures r.amenities == AmenityLabels(d.amenities)
    ensures r.details == Details(CountField(Field(d, "bedrooms")), CountField(Field(d, "bathrooms")),
                                 EditedArea(Field(d, "totalArea")), Field(d, "furnished") == Str("true"))
  {
    Record(TopValue(st.top, "id"), Field(d, "title"), Field(d, "propertyType"),
           if |previews| > 0 && previews[0] != "" then Str(previews[0]) else TopValue(st.top, "image"),
           Field(d, "description"), Field(d, "location"), Field(d, "price"),
           AmenityLabels(d.amenities), currentStatus, OwnerOf(d),
           Details(CountField(Field(d, "bedrooms")), CountField(Field(d, "bathrooms")),
                   EditedArea(Field(d, "totalArea")), IsTrueString(Field(d, "furnished"))))
  }

  // ------------------------------------------------------------ round trips

  /** An area stored as x + " sq ft" comes back unchanged when x does not
      itself contain " sq ft" (the suffix cannot overlap itself). */
  lemma AreaRoundTrip(x: string)
    requires !Contains(x, AreaSuffix)
    ensures RemoveFirst(x + AreaSuffix, AreaSuffix) == x
    ensures EditedArea(Str(RemoveFirst(x + AreaSuffix, AreaSuffix))) == x + AreaSuffix
  {
    var s := x + AreaSuffix;
    assert OccursAt(s, AreaSuffix, |x|);
    forall j | 0 <= j < |x| ensures !OccursAt(s, AreaSuffix, j) {
      if OccursAt(s, AreaSuffix, j) {
        if j + 6 <= |x| {
          assert x[j..j + 6] == s[j..j + 6];
          assert OccursAt(x, AreaSuffix, j);
          ContainsIff(x, AreaSuffix);
          assert false;
        } else {
          NoStraddle(x, j);
        }
      }
    }
    assert IndexOf(s, AreaSuffix) == Some(|x|);
    assert s[..|x|] + s[|x| + 6..] == x;
  }

  /** " sq ft" cannot start inside x and end inside the appended suffix:
      no proper suffix of it is also a prefix. */
  lemma NoStraddle(x: string, j: nat)
    requires j < |x| < j + 6
    ensures !OccursAt(x + AreaSuffix, AreaSuffix, j)
  {
    var s := x + AreaSuffix;
    var d := |x| - j;
    assert s[|x|] == ' ' && s[|x| + 1] == 's';
    if d == 3 {
      assert s[j + 4] != AreaSuffix[4];
    } else {
      assert s[j + d] != AreaSuffix[d];
    }
  }

  /** The converse fails: " sq ft" itself contains the suffix and still
      comes back unchanged. */
  lemma AreaRoundTripDespiteSuffix()
    ensures Contains(" sq ft", AreaSuffix)
    ensures RemoveFirst(" sq ft" + AreaSuffix, AreaSuffix) == " sq ft"
  {
    assert OccursAt(" sq ft" + AreaSuffix, AreaSuffix, 0);
    assert OccursAt(" sq ft", AreaSuffix, 0);
  }

  /** An area with the suffix in the middle does not come back: "5 sq ft0"
      is loaded as "50 sq ft". */
  lemma AreaLostInTheMiddle()
    ensures RemoveFirst("5 sq ft0" + AreaSuffix, AreaSuffix) == "50 sq ft"
  {
    var s := "5 sq ft0" + AreaSuffix;
    assert OccursAt(s, AreaSuffix, 1);
    assert s[0] == '5';
    assert IndexOf(s, AreaSuffix) == Some(1);
  }

  /** `furnished.toString()` on load, `=== "true"` on submit. */
  lemma FurnishedRoundTrip(b: bool)
    ensures IsTrueString(Str(Stringify(Bool(b)))) == b
  {
  }

  /** Labels that are a lower-case key with its first letter upper-cased. */
  predicate Canonical(tag: string) {
    Capitalize(ToLower(tag)) == tag
  }

  function Lowered(labels: seq<string>): (r: Flags)
    ensures |r| == |labels|
    ensures forall i :: 0 <= i < |labels| ==> r[i] == (ToLower(labels[i]), true)
  {
    seq(|labels|, i requires 0 <= i < |labels| => (ToLower(labels[i]), true))
  }

  /** Into an empty group, labels the path syntax leaves whole and whose
      lower-cased forms are distinct and not array indices load in order. */
  lemma {:induction false} LoadFlagsFresh(labels: seq<string>)
    requires forall i :: 0 <= i < |labels| ==> PlainName(labels[i])
    requires forall i, j :: 0 <= i < j < |labels| ==> ToLower(labels[i]) != ToLower(labels[j])
    requires forall i :: 0 <= i < |labels| ==> !IndexKey(ToLower(labels[i]))
    ensures LoadFlags([], labels) == Lowered(labels)
  {
    if labels != [] {
      var init := labels[..|labels| - 1];
      var key := ToLower(labels[|labels| - 1]);
      LoadFlagsFresh(init);
      PlainKeyOf(labels[|labels| - 1]);
      assert LoadFlags([], labels) == SetFlag(LoadFlags([], init), key, true);
      var flags := Lowered(init);
      forall i | 0 <= i < |flags| ensures flags[i].0 != key {
        assert flags[i].0 == ToLower(labels[i]);
      }
      SetFreshFlag(flags, key, true);
      LoweredSnoc(labels);
    }
  }

  lemma LoweredSnoc(labels: seq<string>)
    requires labels != []
    ensures Lowered(labels) == Lowered(labels[..|labels| - 1]) + [(ToLower(labels[|labels| - 1]), true)]
  {
  }

  lemma {:induction false} LabelsOfLowered(labels: seq<string>)
    requires forall i :: 0 <= i < |labels| ==> Canonical(labels[i])
    ensures AmenityLabels(Lowered(labels)) == labels
  {
    if labels != [] {
      var init := labels[..|labels| - 1];
      var last := labels[|labels| - 1];
      LabelsOfLowered(init);
      assert Lowered(labels) == Lowered(init) + [(ToLower(last), true)];
      AmenityLabelsAppend(Lowered(init), ToLower(last), true);
      assert init + [last] == labels;
    }
  }

  /** Lower-casing leaves a string of digits unchanged. */
  lemma LowerOfIndexKey(s: string)
    ensures IndexKey(ToLower(s)) ==> ToLower(s) == s
  {
    if IndexKey(ToLower(s)) {
      forall i | 0 <= i < |s| ensures ToLower(s)[i] == s[i] {
        assert IsDigit(ToLower(s)[i]);
      }
    }
  }

  /** Distinct labels of the form "Parking" that are not array indices and
      that the path syntax leaves whole come back as loaded, in the same
      order. */
  lemma AmenityRoundTrip(labels: seq<string>)
    requires NoDuplicates(labels)
    requires forall i :: 0 <= i < |labels| ==>
      Canonical(labels[i]) && !IndexKey(labels[i]) && PlainName(labels[i])
    ensures AmenityLabels(LoadFlags([], labels)) == labels
  {
    forall i | 0 <= i < |labels| ensures !IndexKey(ToLower(labels[i])) {
      LowerOfIndexKey(labels[i]);
    }
    LoadFlagsFresh(labels);
    LabelsOfLowered(labels);
  }

  /** An array-index label moves to the front: "Pool" then "24" come back as
      "24" then "Pool". */
  lemma IndexLabelComesFirst()
    ensures AmenityLabels(LoadFlags([], ["Pool", "24"])) == ["24", "Pool"]
  {
    LoadedPoolThen24();
    LabelsOf24AndPool();
  }

  lemma LabelsOf24AndPool()
    ensures AmenityLabels([("24", true), ("pool", true)]) == ["24", "Pool"]
  {
    assert Capitalize("24") == "24";
    assert Capitalize("pool") == "Pool";
    assert [("24", true), ("pool", true)][1..] == [("pool", true)];
  }

  lemma LoadedPoolThen24()
    ensures LoadFlags([], ["Pool", "24"]) == [("24", true), ("pool", true)]
  {
    KeysOf24AndPool();
    IndexLabelLoadedFirst("Pool", "24", "pool", "24");
  }

  /** An array-index label loaded after an ordinary one is listed before it. */
  lemma IndexLabelLoadedFirst(a: string, b: string, ka: string, kb: string)
    requires KeyOf(a) == Some(ka) && KeyOf(b) == Some(kb)
    requires !IndexKey(ka) && IndexKey(kb)
    ensures LoadFlags([], [a, b]) == [(kb, true), (ka, true)]
  {
    TwoLoads(a, b);
    LoadLabelIs([], a, ka);
    SetFreshFlag([], ka, true);
    assert [] + [(ka, true)] == [(ka, true)];
    LoadLabelIs([(ka, true)], b, kb);
    IndexKeyBefore(ka, kb);
  }

  lemma LoadLabelIs(flags: Flags, tag: string, key: string)
    requires KeyOf(tag) == Some(key)
    ensures LoadLabel(flags, tag) == SetFlag(flags, key, true)
  {
  }

  lemma IndexKeyBefore(ka: string, kb: string)
    requires !IndexKey(ka) && IndexKey(kb)
    ensures SetFlag([(ka, true)], kb, true) == [(kb, true), (ka, true)]
  {
    var f1 := [(ka, true)];
    assert kb != ka;
    assert InsertPos(f1, kb) == 0;
    assert f1[..0] + [(kb, true)] + f1[0..] == [(kb, true), (ka, true)];
  }

  lemma TwoLoads(a: string, b: string)
    ensures LoadFlags([], [a, b]) == LoadLabel(LoadLabel([], a), b)
  {
    LoadFlagsSnoc([], [], a);
    LoadFlagsSnoc([], [a], b);
    assert [] + [a] == [a] && [a] + [b] == [a, b];
  }

  /** One more label is one more turn of the loop. */
  lemma LoadFlagsSnoc(flags: Flags, labels: seq<string>, tag: string)
    ensures LoadFlags(flags, labels + [tag]) == LoadLabel(LoadFlags(flags, labels), tag)
  {
    assert (labels + [tag])[..|labels|] == labels;
  }

  lemma KeysOf24AndPool()
    ensures KeyOf("Pool") == Some("pool") && KeyOf("24") == Some("24")
    ensures IndexKey("24") && !IndexKey("pool")
  {
    PlainKeyOf("Pool");
    PlainKeyOf("24");
    assert ToLower("Pool") == "pool" && ToLower("24") == "24";
    assert DigitsValue("2", 10) == 2;
    assert "24"[..1] == "2";
    assert DigitsValue("24", 10) == 24;
  }

  /** "WiFi" is not of that form and comes back as "Wifi". */
  lemma WiFiComesBackAsWifi()
    ensures AmenityLabels(LoadFlags([], ["WiFi"])) == ["Wifi"]
  {
    WiFiKey();
    assert "Wifi" == [UpperChar("wifi"[0])] + "wifi"[1..];
    LoadOne("WiFi", "wifi", "Wifi");
  }

  lemma WiFiKey()
    ensures KeyOf("WiFi") == Some("wifi")
  {
    assert ToLower("WiFi") == "wifi";
    PlainKeyOf("WiFi");
  }

  /** The form library reads the name as a path and deletes quotes:
      "Kid's room" comes back as "Kids room". */
  lemma ApostropheDropped()
    ensures AmenityLabels(LoadFlags([], ["Kid's room"])) == ["Kids room"]
  {
    KidsRoomKey();
    KidsRoomShown();
    LoadOne("Kid's room", "kids room", "Kids room");
  }

  lemma KidsRoomShown()
    ensures "Kids room" == [UpperChar("kids room"[0])] + "kids room"[1..]
  {
    assert "kids room"[1..] == "ids room";
  }

  lemma KidsRoomKey()
    ensures KeyOf("Kid's room") == Some("kids room")
  {
    KidsRoomKept();
    assert PlainName("kids room");
    KeyOfFiltered("Kid's room", "kids room");
  }

  lemma KidsRoomKept()
    ensures Filter(ToLower("Kid's room"), Kept) == "kids room"
  {
    var a, b := "kid", "s room";
    assert a + b == "kids room";
    assert ToLower("Kid's room") == a + ['\''] + b;
    FilterDropsOne(a, '\'', b);
  }

  /** A label whose kept characters form a whole name is written under that
      name. */
  lemma KeyOfFiltered(tag: string, name: string)
    requires Filter(ToLower(tag), Kept) == name && PlainName(name)
    ensures KeyOf(tag) == Some(name)
  {
    PrefixLenAll(name, InSegment);
    assert name[..|name|] == name;
  }

  /** A single label loads as its entry alone. */
  lemma LoadOne(tag: string, key: string, shown: string)
    requires KeyOf(tag) == Some(key) && shown == [UpperChar(key[0])] + key[1..]
    ensures LoadFlags([], [tag]) == [(key, true)]
    ensures AmenityLabels(LoadFlags([], [tag])) == [shown]
  {
    assert [tag][..0] == [];
    assert LoadFlags([], [tag]) == SetFlag([], key, true);
  }

  lemma {:induction false} FilterKeepsAll(s: string)
    requires forall i :: 0 <= i < |s| ==> Kept(s[i])
    ensures Filter(s, Kept) == s
  {
    if s != [] {
      FilterKeepsAll(s[1..]);
    }
  }

  /** Filtering a name with one deleted character between kept ones. */
  lemma {:induction false} FilterDropsOne(a: string, c: char, b: string)
    requires forall i :: 0 <= i < |a| ==> Kept(a[i])
    requires forall i :: 0 <= i < |b| ==> Kept(b[i])
    requires !Kept(c)
    ensures Filter(a + [c] + b, Kept) == a + b
  {
    if a == [] {
      assert a + [c] + b == [c] + b;
      assert ([c] + b)[1..] == b;
      FilterKeepsAll(b);
    } else {
      assert (a + [c] + b)[1..] == a[1..] + [c] + b;
      FilterDropsOne(a[1..], c, b);
      assert a + b == [a[0]] + (a[1..] + b);
    }
  }

  /** ... and cuts it at a dot: "Sq.ft" comes back as "Sq". */
  lemma DotCutsLabel()
    ensures AmenityLabels(LoadFlags([], ["Sq.ft"])) == ["Sq"]
  {
    SqFtKey();
    LoadOne("Sq.ft", "sq", "Sq");
  }

  lemma SqFtKey()
    ensures KeyOf("Sq.ft") == Some("sq")
  {
    assert ToLower("Sq.ft") == "sq" + ".ft";
    FilterKeepsAll("sq" + ".ft");
    FirstSegmentCut("sq", ".ft");
  }

  /** A segment ends at the first dot or opening bracket. */
  lemma FirstSegmentCut(a: string, rest: string)
    requires a != "" && (forall i :: 0 <= i < |a| ==> InSegment(a[i]))
    requires rest != [] && !InSegment(rest[0])
    ensures FirstSegment(a + rest) == Some(a)
  {
    PrefixLenOf(a, rest, InSegment);
    assert (a + rest)[..|a|] == a;
  }

  /** An empty label leaves no segment: the whole group becomes `true` and
      the labels loaded before it are lost. */
  lemma EmptyLabelClears()
    ensures AmenityLabels(LoadFlags([], ["Pool", ""])) == []
  {
    assert KeyOf("") == None;
    assert ["Pool", ""][..1] == ["Pool"];
    assert LoadFlags([], ["Pool", ""]) == LoadLabel(LoadFlags([], ["Pool"]), "");
  }

  /** The form keys the loader fills from the nested parts. */
  predicate FromNested(key: string) {
    key in {"ownerName", "contactEmail", "contactPhone", "bedrooms", "bathrooms", "totalArea", "furnished"}
  }

  /** A top-level key of the listing reads back from a freshly loaded form
      as its stored value (undefined when the listing lacks it). */
  lemma TopFieldRoundTrip(st: Stored, key: string)
    requires !Nested(key) && !FromNested(key)
    ensures Get(LoadedValues(map[], st), key) == TopValue(st.top, key)
  {
    CopyTopSpec(map[], st.top, key);
  }

  /** The loader writes the stored type under the key "type", which no field
      reads: unless the listing also carries a "propertyType" key, the type
      select gets no value from the load and shows its first option. */
  lemma TypeNotLoaded(st: Stored)
    requires forall i :: 0 <= i < |st.top| ==> st.top[i].0 != "propertyType"
    ensures Get(LoadedValues(map[], st), "propertyType") == Undefined
    ensures Get(LoadedValues(map[], st), "type") == TopValue(st.top, "type")
  {
    TopFieldRoundTrip(st, "propertyType");
    TopFieldRoundTrip(st, "type");
  }

  /** The inputs of the edit form, in render order, with the value each
      holds untouched: empty boxes, and the first option of each select
      ("flat" for the type, "false" for furnished). The nine checkboxes
      render between the furnished select and the owner's boxes. */
  const EditInputs: seq<(string, Value)> :=
    [("title", Str("")), ("propertyType", Str("flat")), ("description", Str("")), ("location", Str("")),
     ("price", Str("")), ("bedrooms", Str("")), ("bathrooms", Str("")), ("totalArea", Str("")),
     ("furnished", Str("false")), ("ownerName", Str("")), ("contactEmail", Str("")), ("contactPhone", Str(""))]

  lemma EditInputsDistinct()
    ensures DistinctNames(EditInputs)
  {
  }

  /** A fresh form after a complete load, once the form has rendered: the
      loaded values, each input's own value for a field the load left
      undefined, and the loaded entries with the other checkboxes after them. */
  function Reloaded(st: Stored): (r: FormData)
    requires LoadsFully(st)
    ensures r.values == Mount(LoadedValues(map[], st), EditInputs)
    ensures Field(r, "propertyType") == MountValue(TopValue(st.top, "propertyType"), Str("flat"))
    ensures AmenityLabels(r.amenities) == AmenityLabels(LoadFlags([], st.amenities.value))
  {
    AmenityIdsPlain();
    RegisterKeepsLabels(LoadFlags([], st.amenities.value), AmenityIds);
    ReloadedField(st, 1);
    FormData(Mount(LoadedValues(map[], st), EditInputs), Register(LoadFlags([], st.amenities.value), AmenityIds))
  }

  /** A field of a top-level input reads back as the stored value, or as
      the input's own value when the listing lacks it. */
  lemma ReloadedField(st: Stored, i: nat)
    requires i < |EditInputs| && !FromNested(EditInputs[i].0)
    ensures Get(Mount(LoadedValues(map[], st), EditInputs), EditInputs[i].0)
      == MountValue(TopValue(st.top, EditInputs[i].0), EditInputs[i].1)
  {
    var key := EditInputs[i].0;
    EditInputsDistinct();
    MountSpec(LoadedValues(map[], st), EditInputs, key);
    TopFieldRoundTrip(st, key);
  }

  /** The same for the inputs the loader fills from the owner and details. */
  lemma ReloadedNested(st: Stored, i: nat)
    requires i < |EditInputs| && FromNested(EditInputs[i].0)
    ensures Get(Mount(LoadedValues(map[], st), EditInputs), EditInputs[i].0)
      == MountValue(Get(LoadedValues(map[], st), EditInputs[i].0), EditInputs[i].1)
  {
    EditInputsDistinct();
    MountSpec(LoadedValues(map[], st), EditInputs, EditInputs[i].0);
  }

  /** The previews a complete load leaves in a fresh form. */
  function LoadedPreviews(st: Stored): (r: seq<string>)
    ensures |r| <= 1
    ensures r != [] <==> Truthy(TopValue(st.top, "image"))
    ensures r != [] ==> r[0] == Stringify(TopValue(st.top, "image"))
  {
    var image := TopValue(st.top, "image");
    if Truthy(image) then [Stringify(image)] else []
  }

  /** The record submitted straight after loading, nothing touched. */
  function Resubmitted(st: Stored): (r: Record)
    requires LoadsFully(st)
    ensures r.id == TopValue(st.top, "id") && r.status == TopValue(st.top, "status")
    ensures r.kind == MountValue(TopValue(st.top, "propertyType"), Str("flat"))
    ensures r.amenities == AmenityLabels(LoadFlags([], st.amenities.value))
  {
    EditedRecord(st, Reloaded(st), LoadedPreviews(st), TopValue(st.top, "status"))
  }

  /** Submitting straight after loading keeps the listing's id, status and
      image; the title, description, location and price come back as stored,
      or as "" when the listing lacks them; the type is "flat" unless the
      listing carries a "propertyType" key. */
  lemma ResubmitKeepsTopFields(st: Stored)
    requires LoadsFully(st)
    requires TopValue(st.top, "image").Str? || TopValue(st.top, "image") == Undefined
    ensures var r := Resubmitted(st);
      r.id == TopValue(st.top, "id") && r.image == TopValue(st.top, "image")
      && r.status == TopValue(st.top, "status")
      && r.title == MountValue(TopValue(st.top, "title"), Str(""))
      && r.description == MountValue(TopValue(st.top, "description"), Str(""))
      && r.location == MountValue(TopValue(st.top, "location"), Str(""))
      && r.price == MountValue(TopValue(st.top, "price"), Str(""))
      && r.kind == MountValue(TopValue(st.top, "propertyType"), Str("flat"))
  {
    ResubmitKeepsText(st);
  }

  lemma ResubmitKeepsText(st: Stored)
    requires LoadsFully(st)
    ensures var r := Resubmitted(st);
      r.title == MountValue(TopValue(st.top, "title"), Str(""))
      && r.description == MountValue(TopValue(st.top, "description"), Str(""))
      && r.location == MountValue(TopValue(st.top, "location"), Str(""))
      && r.price == MountValue(TopValue(st.top, "price"), Str(""))
  {
    ResubmitKeepsTitle(st);
    ResubmitKeepsPlace(st);
  }

  lemma ResubmitKeepsTitle(st: Stored)
    requires LoadsFully(st)
    ensures var r := Resubmitted(st);
      r.title == MountValue(TopValue(st.top, "title"), Str(""))
      && r.description == MountValue(TopValue(st.top, "description"), Str(""))
  {
    ReloadedField(st, 0);
    ReloadedField(st, 2);
  }

  lemma ResubmitKeepsPlace(st: Stored)
    requires LoadsFully(st)
    ensures var r := Resubmitted(st);
      r.location == MountValue(TopValue(st.top, "location"), Str(""))
      && r.price == MountValue(TopValue(st.top, "price"), Str(""))
  {
    ReloadedField(st, 3);
    ReloadedField(st, 4);
  }

  /** The type the listing was stored with is lost: put back untouched, a
      listing without a "propertyType" key becomes a "flat". */
  lemma UntouchedTypePutsFlat(st: Stored)
    requires LoadsFully(st)
    requires forall i :: 0 <= i < |st.top| ==> st.top[i].0 != "propertyType"
    ensures Resubmitted(st).kind == Str("flat")
  {
  }

  /** ... and the owner's three contact fields, "" for a missing one. */
  lemma ResubmitKeepsOwner(st: Stored)
    requires LoadsFully(st)
    ensures var o := st.owner.value;
      Resubmitted(st).owner == Owner(MountValue(o.name, Str("")), MountValue(o.contactEmail, Str("")),
                                     MountValue(o.contactPhone, Str("")))
  {
    LoadedNestedFields(st);
    ReloadedNested(st, 9);
    ReloadedNested(st, 10);
    ReloadedNested(st, 11);
  }

  /** ... and the details, when the area was written with the suffix once
      and the room counts are whole numbers (a stored 0 comes back null). */
  lemma ResubmitKeepsDetails(st: Stored, x: string, b: bool, n: nat, m: nat)
    requires LoadsFully(st)
    requires st.details.value == StoredDetails(Num(n), Num(m), Str(x + AreaSuffix), Bool(b))
    requires !Contains(x, AreaSuffix)
    ensures Resubmitted(st).details ==
      Details(if n == 0 then None else Some(n), if m == 0 then None else Some(m), x + AreaSuffix, b)
  {
    LoadedNestedFields(st);
    ReloadedNested(st, 5);
    ReloadedNested(st, 6);
    ReloadedNested(st, 7);
    ReloadedNested(st, 8);
    AreaRoundTrip(x);
    FurnishedRoundTrip(b);
    CountFieldOfNat(n);
    CountFieldOfNat(m);
  }

  /** ... and the amenity labels, when they are distinct, of the form
      "Parking" and left whole by the path syntax. */
  lemma ResubmitKeepsAmenities(st: Stored)
    requires LoadsFully(st)
    requires NoDuplicates(st.amenities.value)
    requires forall i :: 0 <= i < |st.amenities.value| ==>
      Canonical(st.amenities.value[i]) && !IndexKey(st.amenities.value[i])
      && PlainName(st.amenities.value[i])
    ensures Resubmitted(st).amenities == st.amenities.value
  {
    AmenityRoundTrip(st.amenities.value);
  }

  /** What a complete load writes under the keys it fills from the nested parts. */
  lemma LoadedNestedFields(st: Stored)
    requires LoadsFully(st)
    ensures var vals := LoadedValues(map[], st);
      var o := st.owner.value;
      var d := st.details.value;
      Get(vals, "ownerName") == o.name && Get(vals, "contactEmail") == o.contactEmail
      && Get(vals, "contactPhone") == o.contactPhone
      && Get(vals, "bedrooms") == d.bedrooms && Get(vals, "bathrooms") == d.bathrooms
      && Get(vals, "totalArea") == Str(RemoveFirst(d.totalArea.s, AreaSuffix))
      && Get(vals, "furnished") == Str(Stringify(d.furnished))
  {
  }

  // ---------------------------------------------------------------- status

  /** The three status buttons. */
  const StatusOptions: seq<string> := ["available", "rented", "booked"]

  const GrayBadge: string := "bg-gray-100 text-gray-800 border-gray-200"

  function StatusBadgeClass(status: Value): (c: string)
    ensures c == GrayBadge <==> status !in {Str("available"), Str("rented"), Str("booked")}
  {
    match status
    case Str("available") => "bg-green-100 text-green-800 border-green-200"
    case Str("rented") => "bg-red-100 text-red-800 border-red-200"
    case Str("booked") => "bg-yellow-100 text-yellow-800 border-yellow-200"
    case _ => GrayBadge
  }

  /** Every button's status gets its own badge, none of them gray. */
  lemma BadgesDistinct()
    ensures forall i, j :: 0 <= i < j < |StatusOptions| ==>
      StatusBadgeClass(Str(StatusOptions[i])) != StatusBadgeClass(Str(StatusOptions[j]))
    ensures forall i :: 0 <= i < |StatusOptions| ==> StatusBadgeClass(Str(StatusOptions[i])) != GrayBadge
  {
  }

  /** The loader's first loop: `setValue(key, value)` for every key of the
      listing but the nested ones, in key order. */
  method CopyKeys(values: map<string, Value>, top: seq<(string, Value)>) returns (m: map<string, Value>)
    ensures m == CopyTop(values, top)
  {
    m := values;
    var i := 0;
    while i < |top|
      invariant 0 <= i <= |top|
      invariant m == CopyTop(values, top[..i])
    {
      assert top[..i + 1][..i] == top[..i];
      var (key, v) := top[i];
      if !Nested(key) {
        m := m[key := v];
      }
      i := i + 1;
    }
    assert top[..i] == top;
  }

  /** The loader's amenity loop: each stored label, lower-cased, is
      written as checked. */
  method CheckLabels(flags: Flags, labels: seq<string>) returns (f: Flags)
    ensures f == LoadFlags(flags, labels)
  {
    f := flags;
    var k := 0;
    while k < |labels|
      invariant 0 <= k <= |labels|
      invariant f == LoadFlags(flags, labels[..k])
    {
      assert labels[..k + 1][..k] == labels[..k];
      f := LoadLabel(f, labels[k]);
      k := k + 1;
    }
    assert labels[..k] == labels;
  }

  class EditForm {
    var values: map<string, Value>
    var flags: Flags
    var previews: seq<string>
    var files: seq<string>
    var currentStatus: Value
    var property: Option<Stored>
    var loading: bool
    var loadFailed: bool
    /** Every record put so far, in order. */
    var sent: seq<Record>

    constructor()
      ensures values == map[] && flags == [] && previews == [] && files == []
      ensures currentStatus == Str("") && property == None && loading && !loadFailed && sent == []
    {
      values := map[];
      flags := [];
      previews := [];
      files := [];
      currentStatus := Str("");
      property := None;
      loading := true;
      loadFailed := false;
      sent := [];
    }

    /** `fetchProperty`: fills the form from the fetched listing, stopping at
        the first missing part (the error is caught and reported). */
    method Load(fetched: Response<Stored>)
      modifies this
      ensures !loading && files == old(files) && sent == old(sent)
      ensures match fetched
        case Failure(_) =>
          loadFailed && values == old(values) && flags == old(flags) && previews == old(previews)
          && currentStatus == old(currentStatus) && property == old(property)
        case Ok(st) =>
          property == Some(st) && currentStatus == TopValue(st.top, "status")
          && values == LoadedValues(old(values), st)
          && (loadFailed <==> !LoadsFully(st))
          && (!LoadsFully(st) ==> flags == old(flags) && previews == old(previews))
          && (LoadsFully(st) ==>
                (flags == LoadFlags(old(flags), st.amenities.value)
                 && previews == (if Truthy(TopValue(st.top, "image"))
                                 then [Stringify(TopValue(st.top, "image"))] else old(previews))))
    {
      match fetched {
        case Failure(_) =>
          loadFailed := true;
          loading := false;
        case Ok(st) =>
          LoadListing(st);
      }
    }

    /** The loader on a fetched listing. */
    method LoadListing(st: Stored)
      modifies this
      ensures !loading && files == old(files) && sent == old(sent)
      ensures property == Some(st) && currentStatus == TopValue(st.top, "status")
      ensures values == LoadedValues(old(values), st)
      ensures loadFailed <==> !LoadsFully(st)
      ensures !LoadsFully(st) ==> flags == old(flags) && previews == old(previews)
      ensures LoadsFully(st) ==>
        flags == LoadFlags(old(flags), st.amenities.value)
        && previews == (if Truthy(TopValue(st.top, "image"))
                        then [Stringify(TopValue(st.top, "image"))] else old(previews))
    {
      property := Some(st);
      currentStatus := TopValue(st.top, "status");
      values := CopyKeys(values, st.top);
      LoadNested(st);
    }

    /** The owner, the details and the amenities, each `setValue` in turn
        until a missing part throws. */
    method LoadNested(st: Stored)
      modifies this`values, this`flags, this`previews, this`loadFailed, this`loading
      ensures !loading && values == NestedValues(old(values), st)
      ensures loadFailed <==> !LoadsFully(st)
      ensures !LoadsFully(st) ==> flags == old(flags) && previews == old(previews)
      ensures LoadsFully(st) ==>
        flags == LoadFlags(old(flags), st.amenities.value)
        && previews == (if Truthy(TopValue(st.top, "image"))
                        then [Stringify(TopValue(st.top, "image"))] else old(previews))
    {
      loadFailed := false;
      loading := false;
      if st.owner.None? {
        loadFailed := true;
        return;
      }
      var o := st.owner.value;
      values := values["ownerName" := o.name]["contactEmail" := o.contactEmail]["contactPhone" := o.contactPhone];
      if st.details.None? {
        loadFailed := true;
        return;
      }
      var d := st.details.value;
      values := values["bedrooms" := d.bedrooms]["bathrooms" := d.bathrooms];
      if !d.totalArea.Str? {
        loadFailed := true;
        return;
      }
      values := values["totalArea" := Str(RemoveFirst(d.totalArea.s, AreaSuffix))];
      if d.furnished == Undefined || d.furnished == Null {
        loadFailed := true;
        return;
      }
      values := values["furnished" := Str(Stringify(d.furnished))];
      if st.amenities.None? {
        loadFailed := true;
        return;
      }
      flags := CheckLabels(flags, st.amenities.value);
      var image := TopValue(st.top, "image");
      if Truthy(image) {
        previews := [Stringify(image)];
      }
    }

    /** A status button: the new status shows only once the PATCH succeeded. */
    method ChangeStatus(newStatus: string, response: Response<()>)
      modifies this
      ensures currentStatus == (if response.Ok? then Str(newStatus) else old(currentStatus))
      ensures values == old(values) && flags == old(flags) && previews == old(previews) && files == old(files)
      ensures property == old(property) && loading == old(loading) && loadFailed == old(loadFailed)
      ensures sent == old(sent)
    {
      if response.Ok? {
        currentStatus := Str(newStatus);
      }
    }

    /** Typing into a field. */
    method SetField(key: string, v: Value)
      modifies this
      ensures values == old(values)[key := v]
      ensures flags == old(flags) && previews == old(previews) && files == old(files)
      ensures currentStatus == old(currentStatus) && property == old(property)
      ensures loading == old(loading) && loadFailed == old(loadFailed) && sent == old(sent)
    {
      values := values[key := v];
    }

    /** Choosing new files replaces the previews; `urls` holds one object
        URL per file. */
    method SelectImages(chosen: seq<string>, urls: seq<string>)
      requires |urls| == |chosen|
      modifies this
      ensures files == chosen && previews == urls
      ensures values == old(values) && flags == old(flags)
      ensures currentStatus == old(currentStatus) && property == old(property)
      ensures loading == old(loading) && loadFailed == old(loadFailed) && sent == old(sent)
    {
      files := chosen;
      previews := urls;
    }

    /** The nine amenity checkboxes registering as the page first renders
        (a spinner stands in for the form while loading). An entry the load
        already wrote keeps its value and place; the others enter unchecked
        after it, so the loaded labels are exactly as before. */
    method MountCheckboxes()
      requires !loading
      modifies this`flags
      ensures flags == Register(old(flags), AmenityIds)
      ensures Keys(flags) == Keys(old(flags)) + set i | 0 <= i < |AmenityIds| :: AmenityIds[i]
      ensures forall e :: e in old(flags) ==> e in flags
      ensures AmenityLabels(flags) == AmenityLabels(old(flags))
    {
      AmenityIdsPlain();
      RegisterKeepsLabels(flags, AmenityIds);
      flags := Register(flags, AmenityIds);
    }

    /** The form rendering once loading is over: every input mounts, a
        field the load left undefined takes the input's own value, and the
        checkboxes register after the loaded entries. */
    method MountForm()
      requires !loading
      modifies this`values, this`flags
      ensures values == Mount(old(values), EditInputs)
      ensures flags == Register(old(flags), AmenityIds)
      ensures AmenityLabels(flags) == AmenityLabels(old(flags))
    {
      values := Mount(values, EditInputs);
      MountCheckboxes();
    }

    /** A click on amenity checkbox `i` once it is on the page: its entry
        takes the new value in place, and every other entry stays. */
    method SetAmenity(i: nat, checked: bool)
      requires !loading && i < |AmenityIds| && AmenityIds[i] in Keys(flags)
      modifies this`flags
      ensures flags == SetFlag(old(flags), AmenityIds[i], checked)
      ensures Keys(flags) == Keys(old(flags)) && (AmenityIds[i], checked) in flags
      ensures forall e :: e in old(flags) && e.0 != AmenityIds[i] ==> e in flags
    {
      SetFlagKeys(flags, AmenityIds[i], checked);
      flags := SetFlag(flags, AmenityIds[i], checked);
    }

    /** Submitting a valid form puts the edited record; without a loaded
        listing `property.id` throws and nothing is sent. */
    method Submit(valid: bool)
      modifies this
      ensures valid && old(property).Some? ==>
        sent == old(sent) + [EditedRecord(old(property).value, FormData(old(values), old(flags)), old(previews), old(currentStatus))]
      ensures !valid || old(property).None? ==> sent == old(sent)
      ensures values == old(values) && flags == old(flags) && previews == old(previews) && files == old(files)
      ensures currentStatus == old(currentStatus) && property == old(property)
      ensures loading == old(loading) && loadFailed == old(loadFailed)
    {
      if valid && property.Some? {
        sent := sent + [EditedRecord(property.value, FormData(values, flags), previews, currentStatus)];
      }
    }
  }
}
