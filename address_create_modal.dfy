/**
  The modal that creates an address at a clicked map position: a street
  chosen through the autocomplete, a house number, and the Save handler that
  validates, trims, calls `onCreate`, then resets the inputs or shows the error.
 */
module AddressCreateModal {
  import opened Wrappers
  import opened Js
  import opened Types
  import opened Backend
  import StreetAutocomplete

  /** What `onCreate` receives. */
  datatype CreatePayload = CreatePayload(streetId: int, houseNumber: string, lat: real, lon: real)

  /** The validation message. */
  const MissingInput: string := "Bitte Straße und Hausnummer ausfüllen."

  /** The payload a Save click would send, or nothing when validation stops it:
      a street must be chosen and the house number must not be blank. */
  function SubmitPayload(street: Option<Street>, houseNumber: string, lat: real, lon: real): (r: Option<CreatePayload>)
    ensures r.None? <==> street.None? || AllWhitespace(houseNumber)
    ensures r.Some? ==>
      && r.value.streetId == street.value.id
      && r.value.lat == lat && r.value.lon == lon
      && r.value.houseNumber != ""
      && !IsWhitespace(r.value.houseNumber[0])
      && !IsWhitespace(r.value.houseNumber[|r.value.houseNumber| - 1])
      && exists i | 0 <= i <= |houseNumber| - |r.value.houseNumber| ::
           && houseNumber[i..i + |r.value.houseNumber|] == r.value.houseNumber
           && AllWhitespace(houseNumber[..i])
           && AllWhitespace(houseNumber[i + |r.value.houseNumber|..])
  {
    TrimEmptyIff(houseNumber);
    TrimIsInfix(houseNumber);
    if street.None? || Trim(houseNumber) == "" then None
    else Some(CreatePayload(street.value.id, Trim(houseNumber), lat, lon))
  }

  /** What the open modal shows. */
  datatype ModalView = ModalView(
    lat: real,
    lon: real,
    streetText: string,
    houseNumber: string,
    error: Option<string>,
    saveDisabled: bool,
    saveLabel: string)

  class CreateModal {
    var street: Option<Street>
    var houseNumber: string
    var saving: bool
    var error: Option<string>

    constructor ()
      ensures street == None && houseNumber == "" && !saving && error == None
    {
      street, houseNumber, saving, error := None, "", false, None;
    }

    /** The modal's view; a closed modal renders nothing. Its state lives on
        while it is closed, so reopening shows the inputs and error as they were. */
    function Render(isOpen: bool, lat: real, lon: real): (v: Option<ModalView>)
      reads this
      ensures v.None? <==> !isOpen
      ensures v.Some? ==> v.value.saveDisabled == saving && v.value.error == error
      ensures v.Some? ==> v.value.streetText == StreetAutocomplete.DisplayValue(street)
    {
      if !isOpen then None
      else Some(ModalView(lat, lon, StreetAutocomplete.DisplayValue(street), houseNumber, error,
                          saving, if saving then "Speichert…" else "Speichern"))
    }

    /** The autocomplete reports a new selection after the text changed. */
    method ChooseStreet(streets: seq<Street>, text: string)
      modifies this`street
      ensures street == StreetAutocomplete.Resolve(streets, text)
    {
      street := StreetAutocomplete.Resolve(streets, text);
    }

    method EditHouseNumber(text: string)
      modifies this`houseNumber
      ensures houseNumber == text
    {
      houseNumber := text;
    }

    /** The Save handler up to the awaited `onCreate`. It returns the payload
        `onCreate` receives, or nothing when validation stops the handler. */
    method BeginSave(lat: real, lon: real) returns (payload: Option<CreatePayload>)
      modifies this`saving, this`error
      ensures payload == SubmitPayload(street, houseNumber, lat, lon)
      ensures payload.None? ==> error == Some(MissingInput) && saving == old(saving)
      ensures payload.Some? ==> saving && error == None
    {
      payload := SubmitPayload(street, houseNumber, lat, lon);
      if payload.None? {
        error := Some(MissingInput);
        return;
      }
      saving := true;
      error := None;
    }

    /** The rest of the handler once `onCreate` has settled: the `try`,
        `catch` and `finally` branches. */
    method FinishSave(outcome: Outcome)
      modifies this`street, this`houseNumber, this`saving, this`error
      ensures !saving
      ensures outcome.Resolved? ==> street == None && houseNumber == "" && error == old(error)
      ensures outcome.Rejected? ==>
        street == old(street) && houseNumber == old(houseNumber) && error == Some(outcome.message)
    {
      if outcome.Resolved? {
        houseNumber := "";
        street := None;
      } else {
        error := Some(outcome.message);
      }
      saving := false;
    }

    /** The whole Save click, with `onCreate` settling as `outcome`. */
    method Save(lat: real, lon: real, outcome: Outcome) returns (payload: Option<CreatePayload>)
      modifies this`street, this`houseNumber, this`saving, this`error
      ensures payload == SubmitPayload(old(street), old(houseNumber), lat, lon)
      ensures payload.None? ==>
        && street == old(street) && houseNumber == old(houseNumber)
        && saving == old(saving) && error == Some(MissingInput)
      ensures payload.Some? && outcome.Resolved? ==>
        street == None && houseNumber == "" && !saving && error == None
      ensures payload.Some? && outcome.Rejected? ==>
        && street == old(street) && houseNumber == old(houseNumber)
        && !saving && error == Some(outcome.message)
    {
      payload := BeginSave(lat, lon);
      if payload.Some? {
        FinishSave(outcome);
      }
    }
  }

  /** A click at (51.4, 6.7), a chosen street and the house number "12a"
      send exactly that street, "12a" and those coordinates. */
  lemma CreateScenario(s: Street)
    ensures SubmitPayload(Some(s), "12a", 51.4, 6.7) == Some(CreatePayload(s.id, "12a", 51.4, 6.7))
  {
    assert !IsWhitespace("12a"[0]) && !IsWhitespace("12a"[2]);
    TrimUnchanged("12a");
  }
}
