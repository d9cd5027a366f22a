/**
  The street input with a suggestion list. Typed text is resolved against the
  full street list by exact, case-sensitive name equality on every change.
 */
module StreetAutocomplete {
  import opened Wrappers
  import opened Js
  import opened Types

  /** The test the input's `find` applies to each street. */
  function NameIs(text: string): Street -> bool {
    (s: Street) => s.name == text
  }

  /** The selection reported after the text changes to `text`: the first street
      named exactly `text`, or null. */
  function Resolve(streets: seq<Street>, text: string): (r: Option<Street>)
    ensures r.None? <==> forall k | 0 <= k < |streets| :: streets[k].name != text
    ensures r.Some? ==> r.value in streets && r.value.name == text
  {
    Find(streets, NameIs(text))
  }

  /** The text the input shows: the selected street's name, or the empty
      string when nothing is selected. In a list where the selected street is
      the only one of its name, typing the shown text back selects it again
      (`ResolveDisplayed` gives the general list). */
  function DisplayValue(value: Option<Street>): (r: string)
    ensures value.None? ==> r == ""
    ensures value.Some? ==> Resolve([value.value], r) == value
  {
    if value.Some? then value.value.name else ""
  }

  /** One `<option>` of the suggestion list. */
  datatype Suggestion = Suggestion(key: int, value: string)

  function Suggestions(streets: seq<Street>): (r: seq<Suggestion>)
    ensures |r| == |streets|
  {
    seq(|streets|, k requires 0 <= k < |streets| => Suggestion(streets[k].id, streets[k].name))
  }

  /** Resolution is exact and takes the first match; it is null exactly when no name matches. */
  lemma ResolveFirstExact(streets: seq<Street>, text: string)
    ensures Resolve(streets, text).None? <==> forall k | 0 <= k < |streets| :: streets[k].name != text
    ensures Resolve(streets, text).Some? ==>
      exists k | 0 <= k < |streets| ::
        && streets[k] == Resolve(streets, text).value
        && streets[k].name == text
        && forall j | 0 <= j < k :: streets[j].name != text
  {
    FindFirst(streets, NameIs(text));
  }

  /** Resolving the text shown for a listed street selects a street of that
      name: the first one, which is that very street when names are unique. */
  lemma ResolveDisplayed(streets: seq<Street>, s: Street)
    requires s in streets
    ensures Resolve(streets, DisplayValue(Some(s))).Some?
    ensures Resolve(streets, DisplayValue(Some(s))).value.name == s.name
    ensures (forall k | 0 <= k < |streets| :: streets[k].name == s.name ==> streets[k] == s) ==>
              Resolve(streets, DisplayValue(Some(s))) == Some(s)
  {
    ResolveFirstExact(streets, s.name);
  }

  /** Clearing the input clears the selection, unless some street has an empty name. */
  lemma ResolveCleared(streets: seq<Street>)
    requires forall k | 0 <= k < |streets| :: streets[k].name != ""
    ensures Resolve(streets, DisplayValue(None)) == None
  {
    ResolveFirstExact(streets, "");
  }

  /** There is one suggestion per street, in list order, and choosing any
      suggestion selects a street carrying that name. */
  lemma SuggestionsSelect(streets: seq<Street>, k: nat)
    requires k < |streets|
    ensures Suggestions(streets)[k] == Suggestion(streets[k].id, streets[k].name)
    ensures Resolve(streets, Suggestions(streets)[k].value).Some?
    ensures Resolve(streets, Suggestions(streets)[k].value).value.name == streets[k].name
  {
    ResolveDisplayed(streets, streets[k]);
  }
}
