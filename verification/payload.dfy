/** The listing record the add and edit forms send, and the conversions they
    apply to form values on the way: `String(v)`, `parseInt(v) || null`, the
    amenity flags turned into labels and the area suffix. */
module Payload {
  import opened Values
  import opened Text
  import opened Numbers
  import opened Seqs

  /** The decimal numeral of an integer, with a leading '-' when negative. */
  function ShowInt(n: int): (s: string)
    ensures |s| > 0
  {
    if n < 0 then "-" + ShowNat(-n) else ShowNat(n)
  }

  /** `String(v)`, also what a template literal inserts. */
  function Stringify(v: Value): (s: string)
    ensures v.Str? ==> s == v.s
  {
    match v
    case Undefined => "undefined"
    case Null => "null"
    case Bool(b) => if b then "true" else "false"
    case Num(n) => ShowInt(n)
    case Str(t) => t
  }

  /** `parseInt(v) || null`: NaN and 0 both give null (None). */
  function CountField(v: Value): (r: Option<int>)
    ensures r.Some? ==> r.value != 0
  {
    match ParseInt(Stringify(v))
    case None => None
    case Some(n) => if n == 0 then None else Some(n)
  }

  /** A whole number, typed or stored, comes back as itself, except 0,
      which becomes null. */
  lemma CountFieldOfNat(n: nat)
    ensures CountField(Num(n)) == (if n == 0 then None else Some(n))
    ensures CountField(Str(ShowNat(n))) == (if n == 0 then None else Some(n))
  {
    ParseIntShowNat(n);
  }

  /** An empty or missing field gives null. */
  lemma CountFieldMissing()
    ensures CountField(Undefined) == None && CountField(Null) == None && CountField(Str("")) == None
  {
    ParseIntNotNumeric("undefined");
    ParseIntNotNumeric("null");
    ParseIntNotNumeric("");
  }

  /** The checkbox group `amenities.<key>` as its entries, in the order
      `Object.entries` lists them. */
  type Flags = seq<(string, bool)>

  /** The keys of the entries. */
  function Keys(flags: Flags): set<string> {
    set i | 0 <= i < |flags| :: flags[i].0
  }

  /** A key that an object lists as an array index: "0", or digits without
      a leading zero, with a value below 2^32 - 1. */
  predicate IndexKey(key: string) {
    key != "" && AllDigits(key) && (key == "0" || key[0] != '0') && DigitsValue(key, 10) < 0xFFFF_FFFF
  }

  /** `Object.entries` lists `a` before `b`: array-index keys come first, in
      ascending numeric order, and the other keys follow in insertion order. */
  predicate ListedBefore(a: string, b: string) {
    IndexKey(a) && (!IndexKey(b) || DigitsValue(a, 10) < DigitsValue(b, 10))
  }

  /** `Object.entries(flags).filter(([_, v]) => v).map(([k]) => capitalised k)` */
  function AmenityLabels(flags: Flags): (r: seq<string>)
    ensures |r| <= |flags|
  {
    if flags == [] then []
    else (if flags[0].1 then [Capitalize(flags[0].0)] else []) + AmenityLabels(flags[1..])
  }

  /** With nothing checked there are no labels; with everything checked,
      every key in entry order, capitalised. */
  lemma {:induction false} AmenityLabelsAllOrNone(flags: Flags)
    ensures (forall i :: 0 <= i < |flags| ==> !flags[i].1) ==> AmenityLabels(flags) == []
    ensures (forall i :: 0 <= i < |flags| ==> flags[i].1) ==>
      |AmenityLabels(flags)| == |flags|
      && forall i :: 0 <= i < |flags| ==> AmenityLabels(flags)[i] == Capitalize(flags[i].0)
  {
    if flags != [] {
      AmenityLabelsAllOrNone(flags[1..]);
      assert forall i :: 1 <= i < |flags| ==> flags[1..][i - 1] == flags[i];
    }
  }

  /** A label is produced exactly for a checked entry, as that entry's key
      with its first letter upper-cased. */
  lemma {:induction false} AmenityLabelsSpec(flags: Flags, tag: string)
    ensures tag in AmenityLabels(flags) <==>
      exists j :: 0 <= j < |flags| && flags[j].1 && tag == Capitalize(flags[j].0)
  {
    if flags != [] {
      AmenityLabelsSpec(flags[1..], tag);
      if tag in AmenityLabels(flags[1..]) {
        var j :| 0 <= j < |flags[1..]| && flags[1..][j].1 && tag == Capitalize(flags[1..][j].0);
        assert flags[j + 1] == flags[1..][j];
      }
      if exists j :: 0 <= j < |flags| && flags[j].1 && tag == Capitalize(flags[j].0) {
        var j :| 0 <= j < |flags| && flags[j].1 && tag == Capitalize(flags[j].0);
        if j > 0 {
          assert flags[1..][j - 1] == flags[j];
        }
      }
    }
  }

  /** Labels come out in entry order: an entry added last contributes last. */
  lemma {:induction false} AmenityLabelsAppend(flags: Flags, key: string, checked: bool)
    ensures AmenityLabels(flags + [(key, checked)]) == AmenityLabels(flags) + (if checked then [Capitalize(key)] else [])
  {
    if flags != [] {
      assert (flags + [(key, checked)])[1..] == flags[1..] + [(key, checked)];
      AmenityLabelsAppend(flags[1..], key, checked);
    }
  }

  /** Where a new key enters the entries: before the first entry that the
      object lists after it, so an ordinary key goes last. */
  function InsertPos(flags: Flags, key: string): (k: nat)
    ensures k <= |flags|
    ensures forall i :: 0 <= i < k ==> !ListedBefore(key, flags[i].0)
    ensures k < |flags| ==> ListedBefore(key, flags[k].0)
    ensures !IndexKey(key) ==> k == |flags|
  {
    if flags == [] || ListedBefore(key, flags[0].0) then 0
    else
      var k := InsertPos(flags[1..], key);
      assert forall i :: 1 <= i < |flags| ==> flags[1..][i - 1] == flags[i];
      1 + k
  }

  /** An existing key takes the new value in place. */
  function Replace(flags: Flags, key: string, v: bool): (r: Flags)
    ensures |r| == |flags|
    ensures forall i :: 0 <= i < |flags| ==> r[i].0 == flags[i].0
  {
    if flags == [] then []
    else if flags[0].0 == key then [(key, v)] + flags[1..]
    else [flags[0]] + Replace(flags[1..], key, v)
  }

  /** Only the first entry under the key changes, and it takes the new value. */
  lemma {:induction false} ReplaceSpec(flags: Flags, key: string, v: bool)
    ensures forall i :: 0 <= i < |flags| && flags[i].0 != key ==> Replace(flags, key, v)[i] == flags[i]
    ensures (exists i :: 0 <= i < |flags| && flags[i].0 == key) ==> (key, v) in Replace(flags, key, v)
  {
    if flags != [] && flags[0].0 != key {
      var tail := flags[1..];
      ReplaceSpec(tail, key, v);
      var rest := Replace(tail, key, v);
      var r := Replace(flags, key, v);
      assert r == [flags[0]] + rest;
      forall i | 0 <= i < |flags| && flags[i].0 != key ensures r[i] == flags[i] {
        if i > 0 {
          assert flags[i] == tail[i - 1];
          assert r[i] == rest[i - 1];
        }
      }
      if exists i :: 0 <= i < |flags| && flags[i].0 == key {
        var i :| 0 <= i < |flags| && flags[i].0 == key;
        assert tail[i - 1].0 == key;
        assert (key, v) in rest;
      }
    }
  }

  /** Writing `v` under `key` in the checkbox group, by `setValue` or by a
      click: an existing key keeps its place; a new key goes where the object
      lists it, which is last unless the key is an array index. */
  function SetFlag(flags: Flags, key: string, v: bool): (r: Flags)
    ensures (forall i :: 0 <= i < |flags| ==> flags[i].0 != key) ==>
      r == flags[..InsertPos(flags, key)] + [(key, v)] + flags[InsertPos(flags, key)..]
    ensures (forall i :: 0 <= i < |flags| ==> flags[i].0 != key) && !IndexKey(key) ==> r == flags + [(key, v)]
    ensures (exists i :: 0 <= i < |flags| && flags[i].0 == key) ==>
      |r| == |flags| && forall i :: 0 <= i < |flags| ==> r[i].0 == flags[i].0
  {
    if exists i :: 0 <= i < |flags| && flags[i].0 == key then Replace(flags, key, v)
    else
      var k := InsertPos(flags, key);
      flags[..k] + [(key, v)] + flags[k..]
  }

  /** Setting a key adds it to the keys, gives it the new value, and keeps
      every entry under another key. */
  lemma SetFlagKeys(flags: Flags, key: string, v: bool)
    ensures Keys(SetFlag(flags, key, v)) == Keys(flags) + {key}
    ensures (key, v) in SetFlag(flags, key, v)
    ensures forall e :: e in flags && e.0 != key ==> e in SetFlag(flags, key, v)
  {
    if exists i :: 0 <= i < |flags| && flags[i].0 == key {
      ReplaceKeys(flags, key, v);
    } else {
      InsertKeys(flags, key, v, InsertPos(flags, key));
    }
  }

  lemma ReplaceKeys(flags: Flags, key: string, v: bool)
    requires exists i :: 0 <= i < |flags| && flags[i].0 == key
    ensures Keys(Replace(flags, key, v)) == Keys(flags) + {key}
    ensures (key, v) in Replace(flags, key, v)
    ensures forall e :: e in flags && e.0 != key ==> e in Replace(flags, key, v)
  {
    var r := Replace(flags, key, v);
    ReplaceSpec(flags, key, v);
    forall e | e in flags && e.0 != key ensures e in r {
      var j :| 0 <= j < |flags| && flags[j] == e;
      assert r[j] == e;
    }
  }

  lemma InsertKeys(flags: Flags, key: string, v: bool, k: nat)
    requires k <= |flags|
    ensures Keys(flags[..k] + [(key, v)] + flags[k..]) == Keys(flags) + {key}
    ensures forall e :: e in flags ==> e in flags[..k] + [(key, v)] + flags[k..]
  {
    var r := flags[..k] + [(key, v)] + flags[k..];
    assert r[k] == (key, v);
    forall x | x in Keys(r) ensures x in Keys(flags) + {key} {
      var i :| 0 <= i < |r| && r[i].0 == x;
      if i > k { assert r[i] == flags[i - 1]; } else if i < k { assert r[i] == flags[i]; }
    }
    forall x | x in Keys(flags) ensures x in Keys(r) {
      var i :| 0 <= i < |flags| && flags[i].0 == x;
      if i >= k { assert r[i + 1] == flags[i]; } else { assert r[i] == flags[i]; }
    }
    forall e | e in flags ensures e in r {
      var i :| 0 <= i < |flags| && flags[i] == e;
      if i >= k { assert r[i + 1] == e; } else { assert r[i] == e; }
    }
  }

  lemma SetFreshFlag(flags: Flags, key: string, v: bool)
    requires forall i :: 0 <= i < |flags| ==> flags[i].0 != key
    requires !IndexKey(key)
    ensures SetFlag(flags, key, v) == flags + [(key, v)]
  {
  }

  lemma {:induction false} AmenityLabelsConcat(a: Flags, b: Flags)
    ensures AmenityLabels(a + b) == AmenityLabels(a) + AmenityLabels(b)
  {
    if a != [] {
      assert (a + b)[1..] == a[1..] + b;
      AmenityLabelsConcat(a[1..], b);
    } else {
      assert a + b == b;
    }
  }

  /** Writing to the first entry under `key` changes that entry alone. */
  lemma {:induction false} ReplaceAt(flags: Flags, key: string, v: bool, i: nat)
    requires i < |flags| && flags[i].0 == key
    requires forall j :: 0 <= j < i ==> flags[j].0 != key
    ensures Replace(flags, key, v) == flags[i := (key, v)]
  {
    if i > 0 {
      var tail := flags[1..];
      ReplaceAt(tail, key, v, i - 1);
      assert Replace(flags, key, v) == [flags[0]] + tail[i - 1 := (key, v)];
      assert [flags[0]] + tail[i - 1 := (key, v)] == flags[i := (key, v)];
    }
  }

  /** The entries carry exactly the keys `ids`, in that order. */
  predicate ListedAs(flags: Flags, ids: seq<string>) {
    |flags| == |ids| && forall i :: 0 <= i < |ids| ==> flags[i].0 == ids[i]
  }

  /** Once every checkbox has registered, a click on checkbox `i` changes
      entry `i` alone, so the entries keep the order of the checkboxes and
      not the order of the clicks. */
  lemma SetListed(flags: Flags, ids: seq<string>, i: nat, v: bool)
    requires ListedAs(flags, ids) && NoDuplicates(ids) && i < |ids|
    ensures SetFlag(flags, ids[i], v) == flags[i := (ids[i], v)]
    ensures ListedAs(SetFlag(flags, ids[i], v), ids)
  {
    ReplaceAt(flags, ids[i], v, i);
  }

  /** Each key with its first letter upper-cased. */
  function Capitalized(ids: seq<string>): (r: seq<string>)
    ensures |r| == |ids|
    ensures forall i :: 0 <= i < |ids| ==> r[i] == Capitalize(ids[i])
  {
    seq(|ids|, i requires 0 <= i < |ids| => Capitalize(ids[i]))
  }

  /** Entries listed as `ids` give their labels in the order of `ids`. */
  lemma {:induction false} ListedLabels(flags: Flags, ids: seq<string>)
    requires ListedAs(flags, ids)
    ensures Subseq(AmenityLabels(flags), Capitalized(ids))
  {
    if flags != [] {
      var tail := flags[1..];
      assert forall i :: 0 <= i < |tail| ==> tail[i] == flags[i + 1];
      ListedLabels(tail, ids[1..]);
      var c := Capitalized(ids);
      assert c[1..] == Capitalized(ids[1..]);
      var rest := AmenityLabels(tail);
      if flags[0].1 {
        assert AmenityLabels(flags) == [c[0]] + rest;
        assert ([c[0]] + rest)[1..] == rest;
      } else {
        assert AmenityLabels(flags) == rest;
      }
    }
  }

  /** Every key unchecked, in the order given. */
  function Unchecked(ids: seq<string>): (r: Flags)
    ensures ListedAs(r, ids)
    ensures forall i :: 0 <= i < |r| ==> !r[i].1
  {
    seq(|ids|, i requires 0 <= i < |ids| => (ids[i], false))
  }

  /** A checkbox `amenities.<id>` registering as it mounts: a key the group
      already holds keeps its value, a new key enters unchecked. */
  function RegisterOne(flags: Flags, id: string): Flags {
    if id in Keys(flags) then flags else SetFlag(flags, id, false)
  }

  /** The checkboxes `ids` registering in the order they render. */
  function Register(flags: Flags, ids: seq<string>): Flags {
    if ids == [] then flags else RegisterOne(Register(flags, ids[..|ids| - 1]), ids[|ids| - 1])
  }

  /** On an empty group, distinct ordinary keys register unchecked, in
      render order. */
  lemma {:induction false} RegisterFresh(ids: seq<string>)
    requires NoDuplicates(ids)
    requires forall i :: 0 <= i < |ids| ==> !IndexKey(ids[i])
    ensures Register([], ids) == Unchecked(ids)
  {
    if ids != [] {
      var init := ids[..|ids| - 1];
      var id := ids[|ids| - 1];
      RegisterFresh(init);
      var f := Unchecked(init);
      forall i | 0 <= i < |f| ensures f[i].0 != id {
        assert f[i].0 == ids[i];
      }
      assert id !in Keys(f);
      SetFreshFlag(f, id, false);
      assert f + [(id, false)] == Unchecked(ids);
    }
  }

  /** Checkboxes whose keys the group already holds change nothing when they
      mount again. */
  lemma {:induction false} RegisterPresent(flags: Flags, ids: seq<string>)
    requires forall i :: 0 <= i < |ids| ==> ids[i] in Keys(flags)
    ensures Register(flags, ids) == flags
  {
    if ids != [] {
      RegisterPresent(flags, ids[..|ids| - 1]);
    }
  }

  /** Registering ordinary keys adds them unchecked at the end: the keys
      grow by `ids`, every entry is kept and the labels do not change. */
  lemma {:induction false} RegisterKeepsLabels(flags: Flags, ids: seq<string>)
    requires forall i :: 0 <= i < |ids| ==> !IndexKey(ids[i])
    ensures Keys(Register(flags, ids)) == Keys(flags) + set i | 0 <= i < |ids| :: ids[i]
    ensures forall e :: e in flags ==> e in Register(flags, ids)
    ensures AmenityLabels(Register(flags, ids)) == AmenityLabels(flags)
  {
    if ids != [] {
      var init := ids[..|ids| - 1];
      var id := ids[|ids| - 1];
      RegisterKeepsLabels(flags, init);
      var f := Register(flags, init);
      assert (set i | 0 <= i < |ids| :: ids[i]) == (set i | 0 <= i < |init| :: init[i]) + {id} by {
        forall i | 0 <= i < |init| ensures init[i] == ids[i] { }
      }
      if id !in Keys(f) {
        forall i | 0 <= i < |f| ensures f[i].0 != id {
          assert f[i].0 in Keys(f);
        }
        SetFreshFlag(f, id, false);
        AmenityLabelsAppend(f, id, false);
        SetFlagKeys(f, id, false);
      }
    }
  }

  /** The checkbox group of both listing forms, in render order. */
  const AmenityIds: seq<string> :=
    ["parking", "wifi", "ac", "kitchen", "water", "laundry", "security", "furnished", "gym"]

  /** The ids are distinct and none of them is an array index. */
  lemma AmenityIdsPlain()
    ensures NoDuplicates(AmenityIds)
    ensures forall i :: 0 <= i < |AmenityIds| ==> !IndexKey(AmenityIds[i])
  {
    forall i | 0 <= i < |AmenityIds| ensures !IndexKey(AmenityIds[i]) {
      assert !IsDigit(AmenityIds[i][0]);
    }
  }

  // ------------------------------------------------------- field names as paths

  /** The characters the form library deletes from a field name before it
      splits the name into a path. */
  predicate Kept(c: char) {
    !(c == '"' || c == '\'' || c == '|' || c == ']')
  }

  /** The characters that do not split a field name. */
  predicate InSegment(c: char) {
    c != '.' && c != '['
  }

  /** The first non-empty segment of a name split at dots and opening
      brackets, if there is one. */
  function FirstSegment(s: string): (r: Option<string>)
    ensures r.Some? ==> r.value != "" && forall i :: 0 <= i < |r.value| ==> InSegment(r.value[i])
    ensures r.None? <==> forall i :: 0 <= i < |s| ==> !InSegment(s[i])
  {
    if s == [] then None
    else if !InSegment(s[0]) then
      var r := FirstSegment(s[1..]);
      assert forall i :: 1 <= i < |s| ==> s[1..][i - 1] == s[i];
      r
    else Some(s[..PrefixLen(s, InSegment)])
  }

  /** The entry of the checkbox group that `setValue('amenities.' + name, v)`
      writes. The form library reads the name as a path: quotes, bars and
      closing brackets are deleted, and the rest is cut at every dot and
      opening bracket. The entry is the first segment of `name`, which holds
      `v` or, when more segments follow, an object (truthy either way). With
      no segment left, the write replaces the whole group. */
  function AmenityKey(name: string): (r: Option<string>)
    ensures r.Some? ==> r.value != ""
    ensures r.None? <==> forall i :: 0 <= i < |name| ==> !Kept(name[i]) || !InSegment(name[i])
  {
    var kept := Filter(name, Kept);
    FilterSpec(name, Kept);
    FirstSegment(kept)
  }

  /** A name the path syntax leaves whole. */
  predicate PlainName(name: string) {
    name != "" && forall i :: 0 <= i < |name| ==> Kept(name[i]) && InSegment(name[i])
  }

  lemma PlainKey(name: string)
    requires PlainName(name)
    ensures AmenityKey(name) == Some(name)
  {
    FilterSpec(name, Kept);
    assert Filter(name, Kept) == name;
    PrefixLenAll(name, InSegment);
    assert name[..|name|] == name;
  }

  /** The values of a submitted form by field name, and the amenity entries
      (empty when `data.amenities` is undefined). */
  datatype FormData = FormData(values: map<string, Value>, amenities: Flags)

  /** `data[key]`, undefined when the form never held the field. */
  function Field(d: FormData, key: string): (v: Value)
    ensures key !in d.values ==> v == Undefined
  {
    Get(d.values, key)
  }

  /** `form[key]`, undefined when the form has no such value. */
  function Get(values: map<string, Value>, key: string): Value {
    if key in values then values[key] else Undefined
  }

  // ------------------------------------------------------ inputs as they mount

  /** What an input leaves in the form when it mounts: a value the form
      already holds stays (the input is set to show it); an undefined one is
      replaced by the element's own value: "" for an empty text, number,
      e-mail or telephone input, null for a radio group with nothing
      checked, the first option for a select. */
  function MountValue(held: Value, own: Value): (v: Value)
    ensures held != Undefined ==> v == held
    ensures held == Undefined ==> v == own
  {
    if held == Undefined then own else held
  }

  /** The inputs `inputs`, each a field name with the element's own value,
      mounting in render order. */
  function Mount(values: map<string, Value>, inputs: seq<(string, Value)>): map<string, Value> {
    if inputs == [] then values
    else
      var m := Mount(values, inputs[..|inputs| - 1]);
      var (key, own) := inputs[|inputs| - 1];
      m[key := MountValue(Get(m, key), own)]
  }

  /** Each input names its own field. */
  predicate DistinctNames(inputs: seq<(string, Value)>) {
    forall i, j :: 0 <= i < j < |inputs| ==> inputs[i].0 != inputs[j].0
  }

  /** After the inputs mount, a field of one of them holds its earlier value
      when it had one and the element's own value otherwise; every other
      field is as before. */
  lemma {:induction false} MountSpec(values: map<string, Value>, inputs: seq<(string, Value)>, key: string)
    requires DistinctNames(inputs)
    ensures (forall i :: 0 <= i < |inputs| ==> inputs[i].0 != key) ==>
      Get(Mount(values, inputs), key) == Get(values, key)
    ensures forall i :: 0 <= i < |inputs| && inputs[i].0 == key ==>
      Get(Mount(values, inputs), key) == MountValue(Get(values, key), inputs[i].1)
  {
    if inputs != [] {
      var init := inputs[..|inputs| - 1];
      MountSpec(values, init, key);
    }
  }

  /** Mounting the same inputs again, as when a page shows a second time,
      changes nothing. */
  lemma {:induction false} MountAgain(values: map<string, Value>, inputs: seq<(string, Value)>)
    requires DistinctNames(inputs)
    requires forall i :: 0 <= i < |inputs| ==> inputs[i].1 != Undefined
    ensures Mount(Mount(values, inputs), inputs) == Mount(values, inputs)
  {
    var m := Mount(values, inputs);
    forall i | 0 <= i < |inputs| ensures Get(m, inputs[i].0) != Undefined {
      MountSpec(values, inputs, inputs[i].0);
    }
    MountDefined(m, inputs);
  }

  /** Inputs whose fields the form already holds change nothing. */
  lemma {:induction false} MountDefined(values: map<string, Value>, inputs: seq<(string, Value)>)
    requires forall i :: 0 <= i < |inputs| ==> Get(values, inputs[i].0) != Undefined
    ensures Mount(values, inputs) == values
  {
    if inputs != [] {
      MountDefined(values, inputs[..|inputs| - 1]);
      var key := inputs[|inputs| - 1].0;
      assert key in values;
    }
  }

  datatype Owner = Owner(name: Value, contactEmail: Value, contactPhone: Value)

  datatype Details = Details(bedrooms: Option<int>, bathrooms: Option<int>, totalArea: string, furnished: bool)

  /** The JSON object posted or put to the listings endpoint. */
  datatype Record = Record(id: Value, title: Value, kind: Value, image: Value, description: Value,
                           location: Value, price: Value, amenities: seq<string>, status: Value,
                           owner: Owner, details: Details)

  /** The `owner` object, from the three contact fields. */
  function OwnerOf(d: FormData): (o: Owner)
    ensures o.name == Field(d, "ownerName") && o.contactEmail == Field(d, "contactEmail")
    ensures o.contactPhone == Field(d, "contactPhone")
  {
    Owner(Field(d, "ownerName"), Field(d, "contactEmail"), Field(d, "contactPhone"))
  }

  const AreaSuffix: string := " sq ft"

  /** `data.furnished === "true"` */
  predicate IsTrueString(v: Value) {
    v == Str("true")
  }
}
