/**
  The favorites page: the favorite addresses with their streets, each linking
  to the map with the address opened through the `addressId` deep link.
 */
module Favorites {
  import opened Wrappers
  import opened Js
  import opened Types
  import opened Backend
  import opened Router
  import MapView

  const NoNote: string := "Keine Notiz"

  /** The note line of a list entry: the first 80 characters of the note, or a
      placeholder when the note is null. An empty note stays empty. */
  function NotePreview(notes: Option<string>): (r: string)
    ensures notes.None? ==> r == NoNote
    ensures notes.Some? ==> |r| <= 80 && r <= notes.value
    ensures notes.Some? && |notes.value| <= 80 ==> r == notes.value
    ensures notes.Some? && |notes.value| > 80 ==> |r| == 80
  {
    if notes.None? then NoNote else SliceFront(notes.value, 80)
  }

  /** The bold line of a list entry: the joined street's name (nothing when
      absent), a space, the house number. */
  function EntryLabel(item: Address): (r: string)
    ensures |r| > |item.house_number| && r[|r| - |item.house_number|..] == item.house_number
    ensures item.street.Some? ==> item.street.value.name <= r
  {
    (if item.street.Some? then item.street.value.name else "") + " " + item.house_number
  }

  /** Where a click on an entry navigates. */
  function FavoriteHref(id: int): (r: string)
    ensures "/map?addressId=" <= r && NoWhitespace(r[15..])
  {
    "/map?addressId=" + NumberToString(id)
  }

  /** Following an entry's link opens the map with that address: the router
      reads back the map path and the id, and the map's deep link opens the
      first loaded address with that id. An id of 0 reads as no id at all. */
  lemma FavoriteLinkOpensAddress(addresses: seq<Address>, id: int)
    ensures ParseUrl(FavoriteHref(id)).path == "/map"
    ensures MapView.AddressIdParam(ParseUrl(FavoriteHref(id)).query) == Num(id)
    ensures id != 0 ==> MapView.DeepLinkTarget(addresses, ParseUrl(FavoriteHref(id)).query) == MapView.FindById(addresses, id)
    ensures id == 0 ==> MapView.DeepLinkTarget(addresses, ParseUrl(FavoriteHref(id)).query) == None
  {
    FavoriteHrefParses(id);
    var query := [("addressId", NumberToString(id))];
    assert SearchParam(query, "addressId") == Some(NumberToString(id));
    NumberRoundTrip(id);
  }

  /** The router reads an entry's link as the map path with one `addressId` pair. */
  lemma FavoriteHrefParses(id: int)
    ensures ParseUrl(FavoriteHref(id)) == Location("/map", [("addressId", NumberToString(id))])
  {
    var h := NumberToString(id);
    NumberToStringAvoids(id, '&');
    assert FavoriteHref(id) == "/map?addressId=" + h;
    assert "/map?addressId=" == "/map" + "?" + "addressId" + "=";
    ParseSingleParam("/map", "addressId", h);
  }

  class FavoritesPage {
    var items: seq<Address>
    var error: Option<string>
    /** The path the router is at. */
    var location: string

    constructor ()
      ensures items == [] && error == None && location == "/favorites"
    {
      items, error, location := [], None, "/favorites";
    }

    /** The favorites query on mount (favorite addresses with their streets,
        newest update first, as the backend orders them). */
    method Load(response: Response<seq<Address>>) returns (sent: seq<Request>)
      modifies this`items, this`error
      ensures sent == [SelectFavoriteAddresses]
      ensures response.error.Some? ==>
        error == Some(PermissionRemap(response.error.value)) && items == old(items)
      ensures response.error.None? ==> items == response.data.GetOr([]) && error == old(error)
    {
      sent := [SelectFavoriteAddresses];
      if response.error.Some? {
        error := Some(PermissionRemap(response.error.value));
        return;
      }
      items := response.data.GetOr([]);
    }

    /** A click on an entry. */
    method Open(item: Address)
      modifies this`location
      ensures location == FavoriteHref(item.id)
      ensures ParseUrl(location).path == "/map"
    {
      location := FavoriteHref(item.id);
      FavoriteLinkOpensAddress([], item.id);
    }
  }
}
