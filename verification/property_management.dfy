/** The admin "property management" page: a controlled form record that
    each input replaces with an updated copy, the edit and close buttons,
    and the create-or-update request on save. */
module PropertyManagement {
  import opened Values
  import opened Seqs

  datatype OwnerForm = OwnerForm(name: Value, description: Value, contactEmail: Value, contactPhone: Value)

  /** `formData`. The amenity list and the owner may be missing after
      copying a listing that lacks them. */
  datatype PropertyForm = PropertyForm(title: Value, kind: Value, description: Value, location: Value,
                                       price: Value, image: Value, amenities: Option<seq<string>>,
                                       status: Value, owner: Option<OwnerForm>)

  /** A listing as the page lists it. */
  datatype ManagedListing = ManagedListing(id: Value, title: Value, kind: Value, description: Value,
                                           location: Value, price: Value, image: Value,
                                           amenities: Option<seq<string>>, status: Value, owner: Option<OwnerForm>)

  /** The initial and reset value of the form. */
  const EmptyForm: PropertyForm :=
    PropertyForm(Str(""), Str(""), Str(""), Str(""), Str(""), Str(""), Some([]), Str("available"),
                 Some(OwnerForm(Str(""), Str(""), Str(""), Str(""))))

  /** The scalar top-level inputs. */
  datatype FieldKey = Title | Kind | Description | Location | Price | Image | Status

  function Get(f: PropertyForm, k: FieldKey): Value {
    match k
    case Title => f.title
    case Kind => f.kind
    case Description => f.description
    case Location => f.location
    case Price => f.price
    case Image => f.image
    case Status => f.status
  }

  /** `setFormData({ ...formData, <k>: v })` */
  function With(f: PropertyForm, k: FieldKey, v: Value): (r: PropertyForm)
    ensures Get(r, k) == v
    ensures forall k' :: k' != k ==> Get(r, k') == Get(f, k')
    ensures r.amenities == f.amenities && r.owner == f.owner
  {
    match k
    case Title => f.(title := v)
    case Kind => f.(kind := v)
    case Description => f.(description := v)
    case Location => f.(location := v)
    case Price => f.(price := v)
    case Image => f.(image := v)
    case Status => f.(status := v)
  }

  datatype OwnerKey = OwnerName | OwnerDescription | ContactEmail | ContactPhone

  function GetOwner(o: OwnerForm, k: OwnerKey): Value {
    match k
    case OwnerName => o.name
    case OwnerDescription => o.description
    case ContactEmail => o.contactEmail
    case ContactPhone => o.contactPhone
  }

  /** `setFormData({ ...formData, owner: { ...formData.owner, <k>: v } })`;
      spreading a missing owner contributes no fields. */
  function WithOwner(f: PropertyForm, k: OwnerKey, v: Value): (r: PropertyForm)
    ensures r.owner.Some? && GetOwner(r.owner.value, k) == v
    ensures forall k' :: k' != k ==>
      GetOwner(r.owner.value, k') == (if f.owner.Some? then GetOwner(f.owner.value, k') else Undefined)
    ensures forall k' :: Get(r, k') == Get(f, k')
    ensures r.amenities == f.amenities
  {
    var o := f.owner.GetOr(OwnerForm(Undefined, Undefined, Undefined, Undefined));
    var o' := match k
      case OwnerName => o.(name := v)
      case OwnerDescription => o.(description := v)
      case ContactEmail => o.(contactEmail := v)
      case ContactPhone => o.(contactPhone := v);
    f.(owner := Some(o'))
  }

  /** An amenity checkbox: checking appends, unchecking removes every
      occurrence of `a` and keeps every copy of the other labels. */
  function Toggle(amenities: seq<string>, a: string, checked: bool): (r: seq<string>)
    ensures checked ==> r == amenities + [a]
    ensures !checked ==> a !in r && Subseq(r, amenities)
    ensures !checked ==> forall i :: 0 <= i < |amenities| && amenities[i] != a ==> amenities[i] in r
    ensures !checked ==> forall x :: Count(r, x) == if x == a then 0 else Count(amenities, x)
  {
    if checked then amenities + [a]
    else
      FilterSpec(amenities, x => x != a);
      Filter(amenities, x => x != a)
  }

  /** Checking a new amenity and unchecking it again restores the list. */
  lemma ToggleOnOff(amenities: seq<string>, a: string)
    requires a !in amenities
    ensures Toggle(Toggle(amenities, a, true), a, false) == amenities
  {
    FilterConcat(amenities, [a], x => x != a);
    FilterSpec(amenities, x => x != a);
    assert Filter([a], x => x != a) == [];
  }

  /** `handleEdit`: the nine fields copied from the listing. */
  function FromListing(p: ManagedListing): (f: PropertyForm)
    ensures f.title == p.title && f.kind == p.kind && f.description == p.description
    ensures f.location == p.location && f.price == p.price && f.image == p.image
    ensures f.amenities == p.amenities && f.status == p.status && f.owner == p.owner
  {
    PropertyForm(p.title, p.kind, p.description, p.location, p.price, p.image, p.amenities, p.status, p.owner)
  }

  /** The request a save sends: `{ ...formData, id }`. */
  datatype Request = Put(putId: Value, body: PropertyForm) | Post(postId: string, body: PropertyForm)

  class ManagementPage {
    var formData: PropertyForm
    var editing: Option<ManagedListing>
    var showForm: bool
    /** Every request sent so far, in order. */
    var sent: seq<Request>

    constructor()
      ensures formData == EmptyForm && editing == None && !showForm && sent == []
    {
      formData := EmptyForm;
      editing := None;
      showForm := false;
      sent := [];
    }

    /** "Add Property": opens the form as it is. */
    method Open()
      modifies this
      ensures showForm && formData == old(formData) && editing == old(editing) && sent == old(sent)
    {
      showForm := true;
    }

    method SetField(k: FieldKey, v: string)
      modifies this
      ensures formData == With(old(formData), k, Str(v))
      ensures editing == old(editing) && showForm == old(showForm) && sent == old(sent)
    {
      formData := With(formData, k, Str(v));
    }

    method SetOwnerField(k: OwnerKey, v: string)
      modifies this
      ensures formData == WithOwner(old(formData), k, Str(v))
      ensures editing == old(editing) && showForm == old(showForm) && sent == old(sent)
    {
      formData := WithOwner(formData, k, Str(v));
    }

    /** A click on the checkbox of amenity `a`. The box shows whether the
        list includes `a`, so a click checks it exactly when it does not. */
    method ToggleAmenity(a: string, checked: bool)
      requires formData.amenities.Some?
      requires checked == (a !in formData.amenities.value)
      modifies this
      ensures formData == old(formData).(amenities := Some(Toggle(old(formData).amenities.value, a, checked)))
      ensures editing == old(editing) && showForm == old(showForm) && sent == old(sent)
    {
      formData := formData.(amenities := Some(Toggle(formData.amenities.value, a, checked)));
    }

    /** The edit button of a row. */
    method Edit(p: ManagedListing)
      modifies this
      ensures editing == Some(p) && formData == FromListing(p) && showForm && sent == old(sent)
    {
      editing := Some(p);
      formData := FromListing(p);
      showForm := true;
    }

    /** Saving. `valid` is the browser's verdict on the form's own
        constraints (the `required` inputs, the e-mail and number inputs):
        without it the submit event never fires and nothing changes. With it,
        an update keeps the edited listing's id, a creation takes the fresh
        id, and after a success the form is closed and reset. */
    method Submit(valid: bool, freshId: string, response: Response<()>)
      modifies this
      ensures !valid ==> unchanged(this)
      ensures valid && old(editing).Some? ==> sent == old(sent) + [Put(old(editing).value.id, old(formData))]
      ensures valid && old(editing).None? ==> sent == old(sent) + [Post(freshId, old(formData))]
      ensures valid && response.Ok? ==> formData == EmptyForm && editing == None && !showForm
      ensures valid && response.Failure? ==>
        formData == old(formData) && editing == old(editing) && showForm == old(showForm)
    {
      if !valid {
        return;
      }
      match editing {
        case Some(p) => sent := sent + [Put(p.id, formData)];
        case None => sent := sent + [Post(freshId, formData)];
      }
      if response.Ok? {
        showForm := false;
        editing := None;
        formData := EmptyForm;
      }
    }

    /** The × button closes and resets the form. */
    method Close()
      modifies this
      ensures formData == EmptyForm && editing == None && !showForm && sent == old(sent)
    {
      showForm := false;
      editing := None;
      formData := EmptyForm;
    }

    /** "Cancel" closes the form but leaves its values in place. */
    method Cancel()
      modifies this
      ensures formData == old(formData) && editing == None && !showForm && sent == old(sent)
    {
      showForm := false;
      editing := None;
    }
  }
}
