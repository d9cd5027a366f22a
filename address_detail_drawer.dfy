/**
  The side panel for one address: an editable copy of the address (the form),
  the controls that change one key of it each, and the Save button that hands
  the whole form to `onSave`.
 */
module AddressDetailDrawer {
  import opened Wrappers
  import opened Js
  import opened Types
  import opened Backend

  // ---------------------------------------------------------------------------
  // What the controls show
  // ---------------------------------------------------------------------------

  /** The heading: the street's name, or a placeholder when the drawer has no
      street, then a space and the house number. */
  function Title(street: Option<Street>, a: Address): (r: string)
    ensures |r| > |a.house_number| && r[|r| - |a.house_number|..] == a.house_number
    ensures street.Some? ==> street.value.name <= r
  {
    (if street.Some? then street.value.name else "Unbekannte Straße") + " " + a.house_number
  }

  /** Whether each traffic button, in button order, is marked active. */
  function TrafficActive(form: PartialAddress): (r: seq<bool>)
    ensures |r| == |AllTraffic|
  {
    seq(|AllTraffic|, k requires 0 <= k < |AllTraffic| => form.traffic == Some(AllTraffic[k]))
  }

  /** `Boolean(x)` of an optional flag: absent reads as unchecked. */
  function Checked(flag: Option<bool>): (r: bool)
    ensures r <==> flag == Some(true)
  {
    flag.Some? && flag.value
  }

  /** The selected `<option>`: the building type, `unknown` when absent. */
  function BuildingShown(form: PartialAddress): (r: string)
    ensures ParseBuilding(r) == Some(form.building.GetOr(Unknown))
  {
    BuildingNameRoundTrip(form.building.GetOr(Unknown), "");
    BuildingName(form.building.GetOr(Unknown))
  }

  /** The value of a text input bound to a nullable key: empty when the key is absent or null. */
  function TextShown(field: Option<Option<string>>): (r: string)
    ensures field.Some? && field.value.Some? ==> r == field.value.value
    ensures r != "" ==> field == Some(Some(r))
  {
    if field.Some? && field.value.Some? then field.value.value else ""
  }

  /** The value of the floors input: empty when absent or null, else the number's text. */
  function FloorsShown(field: Option<Option<JsNumber>>): (r: string)
    ensures r == "" <==> field.None? || field.value.None?
  {
    if field.Some? && field.value.Some? then
      match field.value.value
      case Num(n) => NumberToString(n)
      case NaN => "NaN"
    else ""
  }

  /** What typing `input` into the floors field stores: null for the empty
      text, otherwise `Number(input)`. */
  function FloorsFromInput(input: string): (r: Option<JsNumber>)
    ensures r.None? <==> input == ""
    ensures input != "" && AllWhitespace(input) ==> r == Some(Num(0))
  {
    if input == "" then None else Some(ToNumber(input))
  }

  /** Exactly one traffic button is active when the form has a traffic value,
      namely that value's button; none is active otherwise. */
  lemma TrafficActiveExactlyOne(form: PartialAddress)
    ensures form.traffic.None? ==> forall k | 0 <= k < 3 :: !TrafficActive(form)[k]
    ensures form.traffic.Some? ==>
      exists k | 0 <= k < 3 ::
        && AllTraffic[k] == form.traffic.value
        && TrafficActive(form)[k]
        && forall j | 0 <= j < 3 && j != k :: !TrafficActive(form)[j]
  {
    if form.traffic.Some? {
      var k := match form.traffic.value case Green => 0 case Yellow => 1 case Red => 2;
      assert AllTraffic[k] == form.traffic.value && TrafficActive(form)[k];
    }
  }

  /** A whole number typed into the floors field is stored as that number and
      shown as the same text; clearing the field stores null and shows nothing. */
  lemma FloorsInputRoundTrip(n: int)
    ensures FloorsFromInput(NumberToString(n)) == Some(Num(n))
    ensures FloorsShown(Some(FloorsFromInput(NumberToString(n)))) == NumberToString(n)
    ensures FloorsFromInput("") == None && FloorsShown(Some(FloorsFromInput(""))) == ""
  {
    NumberRoundTrip(n);
  }

  /** A stored floors value is read back unchanged from the text it is shown as. */
  lemma FloorsShownRoundTrip(n: int)
    ensures FloorsFromInput(FloorsShown(Some(Some(Num(n))))) == Some(Num(n))
  {
    NumberRoundTrip(n);
  }

  /** A drawer opened on an address shows that address's own values. */
  lemma ShownFromAddress(a: Address)
    ensures Checked(PartialOf(a).is_favorite) == a.is_favorite
    ensures Checked(PartialOf(a).has_garage) == a.has_garage
    ensures BuildingShown(PartialOf(a)) == BuildingName(a.building)
    ensures TextShown(PartialOf(a).notes) == a.notes.GetOr("")
    ensures TextShown(PartialOf(a).parking) == a.parking.GetOr("")
    ensures forall k | 0 <= k < 3 :: TrafficActive(PartialOf(a))[k] <==> AllTraffic[k] == a.traffic
    ensures ParseBuilding(BuildingShown(PartialOf(a))) == Some(a.building)
  {
    BuildingNameRoundTrip(a.building, "");
  }

  /** What the open drawer shows. */
  datatype DrawerView = DrawerView(
    title: string,
    trafficActive: seq<bool>,
    favorite: bool,
    building: string,
    floors: string,
    parking: string,
    garage: bool,
    shops: string,
    orientationFront: string,
    orientationBack: string,
    notes: string,
    saveDisabled: bool,
    saveLabel: string)

  class Drawer {
    var form: PartialAddress
    var saving: bool

    constructor ()
      ensures form == EmptyPartial && !saving
    {
      form, saving := EmptyPartial, false;
    }

    /** The effect run when the `address` prop changes: the form becomes a
        copy of the address, or empty. */
    method Reset(address: Option<Address>)
      modifies this`form
      ensures address.Some? ==> Completed(form) == Some(address.value)
      ensures address.None? ==> form == EmptyPartial && Completed(form) == None
      ensures form == if address.Some? then PartialOf(address.value) else EmptyPartial
    {
      form := if address.Some? then PartialOf(address.value) else EmptyPartial;
      if address.Some? {
        CompletedPartialOf(address.value);
      }
    }

    /** The drawer's view; nothing without an address. */
    function Render(address: Option<Address>, street: Option<Street>): (v: Option<DrawerView>)
      reads this
      ensures v.None? <==> address.None?
      ensures v.Some? ==>
        && v.value.title == Title(street, address.value)
        && v.value.saveDisabled == saving
        && v.value.notes == TextShown(form.notes)
        && v.value.floors == FloorsShown(form.floors)
    {
      if address.None? then None
      else Some(DrawerView(
        Title(street, address.value), TrafficActive(form), Checked(form.is_favorite),
        BuildingShown(form), FloorsShown(form.floors), TextShown(form.parking),
        Checked(form.has_garage), TextShown(form.shops), TextShown(form.orientation_front),
        TextShown(form.orientation_back), TextShown(form.notes),
        saving, if saving then "Speichert…" else "Speichern"))
    }

    method ChooseTraffic(t: Traffic)
      modifies this`form
      ensures form == old(form).(traffic := Some(t))
      ensures TrafficActive(form)[TrafficIndex(t)]
      ensures forall k | 0 <= k < 3 && k != TrafficIndex(t) :: !TrafficActive(form)[k]
    {
      form := form.(traffic := Some(t));
    }

    method ToggleFavorite(checked: bool)
      modifies this`form
      ensures form == old(form).(is_favorite := Some(checked))
      ensures Checked(form.is_favorite) == checked
    {
      form := form.(is_favorite := Some(checked));
    }

    method ChooseBuilding(b: BuildingType)
      modifies this`form
      ensures form == old(form).(building := Some(b))
      ensures ParseBuilding(BuildingShown(form)) == Some(b)
    {
      form := form.(building := Some(b));
      BuildingNameRoundTrip(b, "");
    }

    method EditFloors(input: string)
      modifies this`form
      ensures form == old(form).(floors := Some(FloorsFromInput(input)))
      ensures input == "" ==> form.floors == Some(None) && FloorsShown(form.floors) == ""
    {
      form := form.(floors := Some(FloorsFromInput(input)));
    }

    method EditParking(text: string)
      modifies this`form
      ensures form == old(form).(parking := Some(Some(text)))
      ensures TextShown(form.parking) == text
    {
      form := form.(parking := Some(Some(text)));
    }

    method ToggleGarage(checked: bool)
      modifies this`form
      ensures form == old(form).(has_garage := Some(checked))
      ensures Checked(form.has_garage) == checked
    {
      form := form.(has_garage := Some(checked));
    }

    method EditShops(text: string)
      modifies this`form
      ensures form == old(form).(shops := Some(Some(text)))
      ensures TextShown(form.shops) == text
    {
      form := form.(shops := Some(Some(text)));
    }

    method EditOrientationFront(text: string)
      modifies this`form
      ensures form == old(form).(orientation_front := Some(Some(text)))
      ensures TextShown(form.orientation_front) == text
    {
      form := form.(orientation_front := Some(Some(text)));
    }

    method EditOrientationBack(text: string)
      modifies this`form
      ensures form == old(form).(orientation_back := Some(Some(text)))
      ensures TextShown(form.orientation_back) == text
    {
      form := form.(orientation_back := Some(Some(text)));
    }

    method EditNotes(text: string)
      modifies this`form
      ensures form == old(form).(notes := Some(Some(text)))
      ensures TextShown(form.notes) == text
    {
      form := form.(notes := Some(Some(text)));
    }

    /** The Save click up to the awaited `onSave`: the whole form is sent, not
        only the keys the user changed. */
    method BeginSave() returns (changes: PartialAddress)
      modifies this`saving
      ensures changes == form && saving
    {
      saving := true;
      changes := form;
    }

    /** The rest of the click once `onSave` has settled. There is no
        `finally`: a rejected save leaves the button disabled. */
    method FinishSave(outcome: Outcome)
      modifies this`saving
      ensures outcome.Resolved? ==> !saving
      ensures outcome.Rejected? ==> saving == old(saving)
    {
      if outcome.Resolved? {
        saving := false;
      }
    }
  }

  /** The position of a traffic value's button. */
  function TrafficIndex(t: Traffic): (k: nat)
    ensures k < |AllTraffic| && AllTraffic[k] == t
  {
    match t
    case Green => 0
    case Yellow => 1
    case Red => 2
  }
}
