/**
  The map page: which addresses get a marker, the street-by-id index, the
  deep link from `?addressId=`, the photo-path rule, and the handlers that load,
  create and save addresses and upload and delete photos.
 */
module MapView {
  import opened Wrappers
  import opened Js
  import opened Types
  import opened Backend
  import opened Router
  import StreetAutocomplete
  import opened AddressCreateModal
  import PhotoGallery

  // ---------------------------------------------------------------------------
  // Visible addresses
  // ---------------------------------------------------------------------------

  /** An address gets a marker when it is on the selected street (if one is
      selected) and its house number contains the filter text (if any). */
  predicate IsShown(a: Address, selected: Option<Street>, houseNumberFilter: string) {
    && (selected.None? || a.street_id == selected.value.id)
    && (houseNumberFilter == "" || Contains(a.house_number, houseNumberFilter))
  }

  function ShownBy(selected: Option<Street>, houseNumberFilter: string): Address -> bool {
    (a: Address) => IsShown(a, selected, houseNumberFilter)
  }

  /** The addresses that get a marker: listed ones that pass both filters. */
  function VisibleAddresses(addresses: seq<Address>, selected: Option<Street>, houseNumberFilter: string): (r: seq<Address>)
    ensures |r| <= |addresses|
    ensures forall a | a in r ::
      && a in addresses
      && (selected.Some? ==> a.street_id == selected.value.id)
      && (houseNumberFilter != "" ==> Contains(a.house_number, houseNumberFilter))
  {
    Filter(addresses, ShownBy(selected, houseNumberFilter))
  }

  /** The visible list is the full list with some entries left out and the
      rest in their original order; it is never longer. */
  lemma VisibleIsSubsequence(addresses: seq<Address>, selected: Option<Street>, houseNumberFilter: string)
    ensures |VisibleAddresses(addresses, selected, houseNumberFilter)| <= |addresses|
    ensures IsSubsequence(VisibleAddresses(addresses, selected, houseNumberFilter), addresses)
  {
    FilterIsSubsequence(addresses, ShownBy(selected, houseNumberFilter));
  }

  /** An address is visible exactly when it is listed, matches the selected
      street and contains the house-number filter; it appears as often as it is listed. */
  /** Membership in the filtered list, for every address at once. */
  lemma VisibleIff(addresses: seq<Address>, selected: Option<Street>, houseNumberFilter: string)
    ensures forall a :: a in VisibleAddresses(addresses, selected, houseNumberFilter) <==>
      a in addresses && IsShown(a, selected, houseNumberFilter)
  {
    forall a
      ensures a in VisibleAddresses(addresses, selected, houseNumberFilter) <==>
        a in addresses && IsShown(a, selected, houseNumberFilter)
    {
      VisibleMember(addresses, selected, houseNumberFilter, a);
    }
  }

  lemma VisibleMember(addresses: seq<Address>, selected: Option<Street>, houseNumberFilter: string, a: Address)
    ensures a in VisibleAddresses(addresses, selected, houseNumberFilter) <==>
      && a in addresses
      && (selected.None? || a.street_id == selected.value.id)
      && (houseNumberFilter == "" || Contains(a.house_number, houseNumberFilter))
    ensures multiset(VisibleAddresses(addresses, selected, houseNumberFilter))[a] ==
      if IsShown(a, selected, houseNumberFilter) then multiset(addresses)[a] else 0
  {
    FilterMember(addresses, ShownBy(selected, houseNumberFilter), a);
    FilterMultiset(addresses, ShownBy(selected, houseNumberFilter), a);
  }

  /** With a street selected, every visible address is on it; with a filter
      text, every visible house number contains it. */
  lemma VisibleMatchesFilters(addresses: seq<Address>, selected: Option<Street>, houseNumberFilter: string)
    ensures forall a | a in VisibleAddresses(addresses, selected, houseNumberFilter) ::
      && (selected.Some? ==> a.street_id == selected.value.id)
      && Contains(a.house_number, houseNumberFilter)
  {
    forall a | a in VisibleAddresses(addresses, selected, houseNumberFilter)
      ensures Contains(a.house_number, houseNumberFilter)
    {
      if houseNumberFilter == "" {
        ContainsEmpty(a.house_number);
      }
    }
  }

  /** Without a selected street and with an empty filter every address is shown, in order. */
  lemma VisibleUnfiltered(addresses: seq<Address>)
    ensures VisibleAddresses(addresses, None, "") == addresses
  {
    FilterAll(addresses, ShownBy(None, ""));
  }

  // ---------------------------------------------------------------------------
  // Street index
  // ---------------------------------------------------------------------------

  /** `map.get(key)`. */
  function Get<K, V>(m: map<K, V>, key: K): Option<V> {
    if key in m then Some(m[key]) else None
  }

  /** The last street in the list with that id, or nothing. */
  function LastWithId(streets: seq<Street>, id: int): (r: Option<Street>)
    ensures r.None? <==> forall k | 0 <= k < |streets| :: streets[k].id != id
    ensures r.Some? ==>
      exists k | 0 <= k < |streets| ::
        streets[k] == r.value && r.value.id == id && forall j | k < j < |streets| :: streets[j].id != id
  {
    if streets == [] then None
    else if streets[|streets| - 1].id == id then Some(streets[|streets| - 1])
    else
      var front := streets[..|streets| - 1];
      var r := LastWithId(front, id);
      assert forall k | 0 <= k < |front| :: front[k] == streets[k];
      assert r.Some? ==> exists k | 0 <= k < |front| ::
        streets[k] == r.value && forall j | k < j < |front| :: streets[j].id != id;
      r
  }

  /** `streetNameById`: one `set` per street, in list order, so a later
      street with the same id overwrites an earlier one. */
  method StreetNameById(streets: seq<Street>) returns (index: map<int, Street>)
    ensures forall id :: Get(index, id) == LastWithId(streets, id)
  {
    index := map[];
    for i := 0 to |streets|
      invariant forall id :: Get(index, id) == LastWithId(streets[..i], id)
    {
      assert streets[..i + 1][..i] == streets[..i];
      index := index[streets[i].id := streets[i]];
    }
    assert streets[..|streets|] == streets;
  }

  /** When ids are unique, the index finds each street under its own id. */
  lemma LastWithIdUnique(streets: seq<Street>, k: nat)
    requires k < |streets|
    requires forall j | 0 <= j < |streets| && j != k :: streets[j].id != streets[k].id
    ensures LastWithId(streets, streets[k].id) == Some(streets[k])
  {
  }

  /** The text of a marker's popup: the street's name (nothing when the
      index lacks it) and the house number, separated by a space. */
  function PopupLabel(streets: seq<Street>, a: Address): (r: string)
    ensures |r| > |a.house_number| && r[|r| - |a.house_number|..] == a.house_number
    ensures LastWithId(streets, a.street_id).Some? ==> LastWithId(streets, a.street_id).value.name <= r
  {
    var street := LastWithId(streets, a.street_id);
    (if street.Some? then street.value.name else "") + " " + a.house_number
  }

  /** The popup ends with the house number and starts with the indexed street's name. */
  lemma PopupLabelParts(streets: seq<Street>, a: Address)
    ensures LastWithId(streets, a.street_id).Some? ==>
      PopupLabel(streets, a) == LastWithId(streets, a.street_id).value.name + " " + a.house_number
    ensures LastWithId(streets, a.street_id).None? ==> PopupLabel(streets, a) == " " + a.house_number
    ensures |PopupLabel(streets, a)| > |a.house_number|
    ensures PopupLabel(streets, a)[|PopupLabel(streets, a)| - |a.house_number|..] == a.house_number
  {
  }

  // ---------------------------------------------------------------------------
  // Deep link
  // ---------------------------------------------------------------------------

  /** `Number(searchParams.get('addressId'))`; an absent parameter reads as
      `Number(null)`, which is 0. */
  function AddressIdParam(query: seq<(string, string)>): (r: JsNumber)
    ensures (forall k | 0 <= k < |query| :: query[k].0 != "addressId") ==> r == Num(0)
    ensures forall k | 0 <= k < |query| && query[k].0 == "addressId" && (forall j | 0 <= j < k :: query[j].0 != "addressId") ::
      r == ToNumber(query[k].1)
  {
    SearchParamFirst(query, "addressId");
    var param := SearchParam(query, "addressId");
    if param.None? then Num(0) else ToNumber(param.value)
  }

  function IdIs(id: int): Address -> bool {
    (a: Address) => a.id == id
  }

  /** `addresses.find((entry) => entry.id === id)`. */
  function FindById(addresses: seq<Address>, id: int): (r: Option<Address>)
    ensures r.None? <==> forall k | 0 <= k < |addresses| :: addresses[k].id != id
    ensures r.Some? ==> r.value in addresses && r.value.id == id
  {
    Find(addresses, IdIs(id))
  }

  /** The address the deep link opens: none when the parameter is 0 or NaN,
      otherwise the first address with that id, if it is loaded. */
  function DeepLinkTarget(addresses: seq<Address>, query: seq<(string, string)>): (r: Option<Address>)
    ensures r.Some? ==> r.value in addresses && r.value.id != 0 && AddressIdParam(query) == Num(r.value.id)
  {
    var id := AddressIdParam(query);
    if id.Truthy() then FindById(addresses, id.value) else None
  }

  /** The deep link opens something exactly when the parameter is a non-zero
      number and a loaded address has that id; it then opens the first such address. */
  lemma DeepLinkOpensFirstMatch(addresses: seq<Address>, query: seq<(string, string)>)
    ensures DeepLinkTarget(addresses, query).Some? <==>
      && AddressIdParam(query).Truthy()
      && exists k | 0 <= k < |addresses| :: addresses[k].id == AddressIdParam(query).value
    ensures DeepLinkTarget(addresses, query).Some? ==>
      exists k | 0 <= k < |addresses| ::
        && addresses[k] == DeepLinkTarget(addresses, query).value
        && addresses[k].id == AddressIdParam(query).value
        && forall j | 0 <= j < k :: addresses[j].id != AddressIdParam(query).value
  {
    var id := AddressIdParam(query);
    if id.Truthy() {
      FindFirst(addresses, IdIs(id.value));
    }
  }

  /** Without an `addressId` parameter nothing opens. */
  lemma DeepLinkAbsent(addresses: seq<Address>, query: seq<(string, string)>)
    requires forall k | 0 <= k < |query| :: query[k].0 != "addressId"
    ensures DeepLinkTarget(addresses, query) == None
  {
  }

  // ---------------------------------------------------------------------------
  // Photo paths and the local photo list
  // ---------------------------------------------------------------------------

  /** The file name with every white-space run replaced by `-`. */
  function SafeName(fileName: string): (r: string)
    ensures NoWhitespace(r)
  {
    DashWhitespace(fileName)
  }

  /** `${userId}/${addressId}/${uuid}-${safeName}`. */
  function PhotoPath(userId: string, addressId: int, uuid: string, fileName: string): (r: string)
    ensures |r| > |userId| && r[..|userId|] == userId && r[|userId|] == '/'
  {
    userId + "/" + NumberToString(addressId) + "/" + uuid + "-" + SafeName(fileName)
  }

  /** A photo path's first folder is the uploading user's id, and the part
      after the next `/` names the address, when the user id holds no `/`. */
  lemma PhotoPathFolders(userId: string, addressId: int, uuid: string, fileName: string)
    requires '/' !in userId
    ensures SplitOnce(PhotoPath(userId, addressId, uuid, fileName), '/') ==
      (userId, Some(NumberToString(addressId) + "/" + uuid + "-" + SafeName(fileName)))
    ensures SplitOnce(NumberToString(addressId) + "/" + uuid + "-" + SafeName(fileName), '/') ==
      (NumberToString(addressId), Some(uuid + "-" + SafeName(fileName)))
  {
    NumberToStringAvoids(addressId, '/');
    TwoFolders(userId, NumberToString(addressId), uuid, SafeName(fileName));
  }

  /** The folder structure of a path, over plain strings. */
  lemma TwoFolders(user: string, folder: string, token: string, name: string)
    requires '/' !in user && '/' !in folder
    ensures SplitOnce(user + "/" + folder + "/" + token + "-" + name, '/') ==
      (user, Some(folder + "/" + token + "-" + name))
    ensures SplitOnce(folder + "/" + token + "-" + name, '/') == (folder, Some(token + "-" + name))
  {
    var file := token + "-" + name;
    var rest := folder + "/" + token + "-" + name;
    assert user + "/" + folder + "/" + token + "-" + name == user + ['/'] + rest;
    SplitOnceAt(user, '/', rest);
    assert rest == folder + ['/'] + file;
    SplitOnceAt(folder, '/', file);
  }

  /** Two users (ids without `/`) never share a photo path. */
  lemma PhotoPathSeparatesUsers(user1: string, user2: string, id1: int, id2: int,
                                uuid1: string, uuid2: string, name1: string, name2: string)
    requires '/' !in user1 && '/' !in user2 && user1 != user2
    ensures PhotoPath(user1, id1, uuid1, name1) != PhotoPath(user2, id2, uuid2, name2)
  {
    PhotoPathFolders(user1, id1, uuid1, name1);
    PhotoPathFolders(user2, id2, uuid2, name2);
  }

  /** For one user and one address, distinct tokens of the same length (as
      random UUIDs are) give distinct paths whatever the file names. */
  lemma PhotoPathSeparatesTokens(userId: string, addressId: int, uuid1: string, uuid2: string,
                                 name1: string, name2: string)
    requires |uuid1| == |uuid2| && uuid1 != uuid2
    ensures PhotoPath(userId, addressId, uuid1, name1) != PhotoPath(userId, addressId, uuid2, name2)
  {
    var folder := userId + "/" + NumberToString(addressId) + "/";
    assert PhotoPath(userId, addressId, uuid1, name1) == folder + uuid1 + ("-" + SafeName(name1));
    assert PhotoPath(userId, addressId, uuid2, name2) == folder + uuid2 + ("-" + SafeName(name2));
    SliceOfMiddle(folder, uuid1, "-" + SafeName(name1));
    SliceOfMiddle(folder, uuid2, "-" + SafeName(name2));
  }

  lemma SliceOfMiddle(a: string, b: string, c: string)
    ensures (a + b + c)[|a|..|a| + |b|] == b
  {
  }

  /** The photo list the photos effect builds: each row with the signed URL
      issued for its path, in row order. */
  function WithUrls(rows: seq<AddressPhoto>, signer: string -> Option<string>): (r: seq<GalleryPhoto>)
    ensures |r| == |rows| && Rows(r) == rows
  {
    seq(|rows|, k requires 0 <= k < |rows| => GalleryPhoto(rows[k], signer(rows[k].storage_path)))
  }

  /** One signed-URL request per row, in row order. */
  function SignedUrlRequests(rows: seq<AddressPhoto>): (r: seq<Request>)
    ensures |r| == |rows|
  {
    seq(|rows|, k requires 0 <= k < |rows| => CreateSignedUrl(rows[k].storage_path, SignedUrlSeconds))
  }

  /** The rows under a photo list. */
  function Rows(photos: seq<GalleryPhoto>): (r: seq<AddressPhoto>)
    ensures |r| == |photos|
  {
    seq(|photos|, k requires 0 <= k < |photos| => photos[k].photo)
  }

  /** The effect keeps every row, in order, and pairs each with the URL for
      its own path; each URL is requested with the one-hour lifetime. */
  lemma WithUrlsKeepsRows(rows: seq<AddressPhoto>, signer: string -> Option<string>)
    ensures Rows(WithUrls(rows, signer)) == rows
    ensures forall k | 0 <= k < |rows| ::
      && WithUrls(rows, signer)[k].signedUrl == signer(rows[k].storage_path)
      && SignedUrlRequests(rows)[k] == CreateSignedUrl(WithUrls(rows, signer)[k].photo.storage_path, 3600)
  {
  }

  /** The entry a successful upload puts in front of the local photo list. */
  function UploadedPhoto(id: int, addressId: int, path: string, createdAt: string, signedUrl: Option<string>): (r: GalleryPhoto)
    ensures PhotoGallery.CardOf(r).key == id && PhotoGallery.CardOf(r).caption == PhotoGallery.NoCaption
    ensures PhotoGallery.CardOf(r).image.Some? <==> signedUrl.Some? && signedUrl.value != ""
  {
    GalleryPhoto(AddressPhoto(id, addressId, path, None, createdAt), signedUrl)
  }

  function PhotoIdIsNot(id: int): GalleryPhoto -> bool {
    (p: GalleryPhoto) => p.photo.id != id
  }

  /** `prev.filter((item) => item.id !== id)`. */
  function RemovePhoto(photos: seq<GalleryPhoto>, id: int): (r: seq<GalleryPhoto>)
    ensures |r| <= |photos|
    ensures forall p | p in r :: p in photos && p.photo.id != id
  {
    Filter(photos, PhotoIdIsNot(id))
  }

  /** Deleting keeps exactly the entries with another id, each as often as
      before and in the original order, and drops every entry with that id. */
  lemma RemovePhotoKeepsOthers(photos: seq<GalleryPhoto>, id: int, p: GalleryPhoto)
    ensures IsSubsequence(RemovePhoto(photos, id), photos)
    ensures p in RemovePhoto(photos, id) <==> p in photos && p.photo.id != id
    ensures multiset(RemovePhoto(photos, id))[p] == if p.photo.id != id then multiset(photos)[p] else 0
    ensures (forall k | 0 <= k < |photos| :: photos[k].photo.id != id) ==> RemovePhoto(photos, id) == photos
  {
    FilterIsSubsequence(photos, PhotoIdIsNot(id));
    FilterMember(photos, PhotoIdIsNot(id), p);
    FilterMultiset(photos, PhotoIdIsNot(id), p);
    if forall k | 0 <= k < |photos| :: photos[k].photo.id != id {
      FilterAll(photos, PhotoIdIsNot(id));
    }
  }

  // ---------------------------------------------------------------------------
  // The page
  // ---------------------------------------------------------------------------

  /** Where the create flow was opened. */
  datatype Position = Position(lat: real, lon: real)

  const NotSignedIn: string := "Nicht eingeloggt."

  class MapPage {
    var streets: seq<Street>
    var addresses: seq<Address>
    var selectedStreet: Option<Street>
    var houseNumberFilter: string
    var createPos: Option<Position>
    var activeAddress: Option<Address>
    var photos: seq<GalleryPhoto>
    var error: Option<string>

    constructor ()
      ensures streets == [] && addresses == [] && selectedStreet == None && houseNumberFilter == ""
      ensures createPos == None && activeAddress == None && photos == [] && error == None
    {
      streets, addresses, selectedStreet, houseNumberFilter := [], [], None, "";
      createPos, activeAddress, photos, error := None, None, [], None;
    }

    /** The addresses that get a marker (before the finite-coordinate check). */
    function Visible(): (r: seq<Address>)
      reads this
      ensures |r| <= |addresses|
      ensures forall a :: a in r <==> a in addresses && IsShown(a, selectedStreet, houseNumberFilter)
    {
      VisibleIff(addresses, selectedStreet, houseNumberFilter);
      VisibleAddresses(addresses, selectedStreet, houseNumberFilter)
    }

    /** `isOpen` of the create modal. */
    predicate CreateOpen()
      reads this
    {
      createPos.Some?
    }

    /** The `street` prop the drawer receives for the active address. */
    function DrawerStreet(): (r: Option<Street>)
      reads this
      ensures activeAddress.None? ==> r.None?
      ensures r.Some? ==> r.value in streets && r.value.id == activeAddress.value.street_id
    {
      if activeAddress.Some? then LastWithId(streets, activeAddress.value.street_id) else None
    }

    /** The photos effect. Without an active address the list is emptied;
        otherwise the rows of that address (none when the query fails) are
        paired with their signed URLs. `signer` stands for the backend's answer
        to each signed-URL request. */
    method LoadPhotos(rows: Option<seq<AddressPhoto>>, signer: string -> Option<string>)
      returns (sent: seq<Request>)
      modifies this`photos
      ensures activeAddress.None? ==> photos == [] && sent == []
      ensures activeAddress.Some? ==>
        && sent == [SelectPhotos(activeAddress.value.id)] + SignedUrlRequests(rows.GetOr([]))
        && photos == WithUrls(rows.GetOr([]), signer)
    {
      if activeAddress.None? {
        photos := [];
        sent := [];
        return;
      }
      var found := rows.GetOr([]);
      sent := [SelectPhotos(activeAddress.value.id)] + SignedUrlRequests(found);
      photos := WithUrls(found, signer);
    }

    /** The street query on mount. A failure sets the (remapped) error and keeps the list. */
    method LoadStreets(response: Response<seq<Street>>) returns (sent: seq<Request>)
      modifies this`streets, this`error
      ensures sent == [SelectStreetsByName]
      ensures response.error.Some? ==>
        error == Some(PermissionRemap(response.error.value)) && streets == old(streets)
      ensures response.error.None? ==>
        streets == response.data.GetOr([]) && error == old(error)
    {
      sent := [SelectStreetsByName];
      if response.error.Some? {
        error := Some(PermissionRemap(response.error.value));
        return;
      }
      streets := response.data.GetOr([]);
    }

    /** `loadAddresses`. A failure sets the (remapped) error and keeps the list;
        a success replaces the list and leaves an earlier error in place. */
    method LoadAddresses(response: Response<seq<Address>>) returns (sent: seq<Request>)
      modifies this`addresses, this`error
      ensures sent == [SelectAddresses]
      ensures response.error.Some? ==>
        error == Some(PermissionRemap(response.error.value)) && addresses == old(addresses)
      ensures response.error.None? ==>
        addresses == response.data.GetOr([]) && error == old(error)
    {
      sent := [SelectAddresses];
      if response.error.Some? {
        error := Some(PermissionRemap(response.error.value));
        return;
      }
      addresses := response.data.GetOr([]);
    }

    /** The street filter's autocomplete reports its selection. */
    method FilterStreet(text: string)
      modifies this`selectedStreet
      ensures selectedStreet == StreetAutocomplete.Resolve(streets, text)
    {
      selectedStreet := StreetAutocomplete.Resolve(streets, text);
    }

    method FilterHouseNumber(text: string)
      modifies this`houseNumberFilter
      ensures houseNumberFilter == text
    {
      houseNumberFilter := text;
    }

    /** A click on the map opens the create flow there. */
    method ClickMap(lat: real, lon: real)
      modifies this`createPos
      ensures createPos == Some(Position(lat, lon)) && CreateOpen()
    {
      createPos := Some(Position(lat, lon));
    }

    method CloseCreate()
      modifies this`createPos
      ensures createPos == None && !CreateOpen()
    {
      createPos := None;
    }

    /** A click on a marker opens that address. */
    method ClickMarker(a: Address)
      modifies this`activeAddress
      ensures activeAddress == Some(a)
    {
      activeAddress := Some(a);
    }

    method CloseDrawer()
      modifies this`activeAddress
      ensures activeAddress == None
    {
      activeAddress := None;
    }

    /** The deep-link effect, run whenever the addresses or the query change. */
    method ApplyDeepLink(query: seq<(string, string)>)
      modifies this`activeAddress
      ensures activeAddress ==
        if DeepLinkTarget(addresses, query).Some? then DeepLinkTarget(addresses, query) else old(activeAddress)
    {
      var id := AddressIdParam(query);
      if id.Truthy() {
        var found := FindById(addresses, id.value);
        if found.Some? {
          activeAddress := found;
        }
      }
    }

    /** `onCreate`: insert the row; on failure reject with the remapped
        message; on success close the create flow and reload the addresses. */
    method Create(payload: CreatePayload, insertError: Option<string>, reload: Response<seq<Address>>)
      returns (outcome: Outcome, sent: seq<Request>)
      modifies this`createPos, this`addresses, this`error
      ensures |sent| >= 1 && sent[0] == InsertAddress(payload.streetId, payload.houseNumber, payload.lat, payload.lon)
      ensures insertError.Some? ==>
        && outcome == Rejected(PermissionRemap(insertError.value)) && |sent| == 1
        && createPos == old(createPos) && addresses == old(addresses) && error == old(error)
      ensures insertError.None? ==>
        && outcome == Resolved && createPos == None && !CreateOpen() && sent[1..] == [SelectAddresses]
        && (reload.error.Some? ==>
              error == Some(PermissionRemap(reload.error.value)) && addresses == old(addresses))
        && (reload.error.None? ==> addresses == reload.data.GetOr([]) && error == old(error))
    {
      sent := [InsertAddress(payload.streetId, payload.houseNumber, payload.lat, payload.lon)];
      if insertError.Some? {
        outcome := Rejected(PermissionRemap(insertError.value));
        return;
      }
      createPos := None;
      var more := LoadAddresses(reload);
      sent := sent + more;
      outcome := Resolved;
    }

    /** `onSave`: update the active address with the drawer's record, then
        reload; a failure sets the remapped error. It never rejects. */
    method Save(changes: PartialAddress, updateError: Option<string>, reload: Response<seq<Address>>)
      returns (sent: seq<Request>)
      modifies this`addresses, this`error
      ensures old(activeAddress).None? ==> sent == [] && addresses == old(addresses) && error == old(error)
      ensures activeAddress.Some? && updateError.Some? ==>
        && sent == [UpdateAddress(activeAddress.value.id, changes)]
        && error == Some(PermissionRemap(updateError.value)) && addresses == old(addresses)
      ensures activeAddress.Some? && updateError.None? ==>
        && sent == [UpdateAddress(activeAddress.value.id, changes), SelectAddresses]
        && (reload.error.Some? ==>
              error == Some(PermissionRemap(reload.error.value)) && addresses == old(addresses))
        && (reload.error.None? ==> addresses == reload.data.GetOr([]) && error == old(error))
    {
      sent := [];
      if activeAddress.None? {
        return;
      }
      sent := [UpdateAddress(activeAddress.value.id, changes)];
      if updateError.Some? {
        error := Some(PermissionRemap(updateError.value));
        return;
      }
      var more := LoadAddresses(reload);
      sent := sent + more;
    }

    /** `onUploadPhoto`. The signed-in user's id (`user`), the random token,
        the clock and the backend's answers are inputs. */
    method UploadPhoto(file: File, user: Option<string>, uuid: string,
                       uploadError: Option<string>, insertError: Option<string>,
                       signedUrl: Option<string>, now: int, nowIso: string)
      returns (outcome: Outcome, sent: seq<Request>)
      modifies this`photos
      ensures old(activeAddress).None? ==> outcome == Resolved && sent == [] && photos == old(photos)
      ensures activeAddress.Some? && (user.None? || user.value == "") ==>
        outcome == Rejected(NotSignedIn) && sent == [GetUser] && photos == old(photos)
      ensures activeAddress.Some? && user.Some? && user.value != "" ==>
        var path := PhotoPath(user.value, activeAddress.value.id, uuid, file.name);
        && (uploadError.Some? ==>
              outcome == Rejected(uploadError.value) && sent == [GetUser, UploadObject(path)]
              && photos == old(photos))
        && (uploadError.None? && insertError.Some? ==>
              && outcome == Rejected(insertError.value)
              && sent == [GetUser, UploadObject(path), InsertPhotoRow(activeAddress.value.id, path)]
              && photos == old(photos))
        && (uploadError.None? && insertError.None? ==>
              && outcome == Resolved
              && sent == [GetUser, UploadObject(path), InsertPhotoRow(activeAddress.value.id, path),
                          CreateSignedUrl(path, SignedUrlSeconds)]
              && photos == [UploadedPhoto(now, activeAddress.value.id, path, nowIso, signedUrl)] + old(photos))
    {
      sent := [];
      if activeAddress.None? {
        outcome := Resolved;
        return;
      }
      var address := activeAddress.value;
      sent := [GetUser];
      if user.None? || user.value == "" {
        outcome := Rejected(NotSignedIn);
        return;
      }
      var path := PhotoPath(user.value, address.id, uuid, file.name);
      sent := sent + [UploadObject(path)];
      if uploadError.Some? {
        outcome := Rejected(uploadError.value);
        return;
      }
      sent := sent + [InsertPhotoRow(address.id, path)];
      if insertError.Some? {
        outcome := Rejected(insertError.value);
        return;
      }
      sent := sent + [CreateSignedUrl(path, SignedUrlSeconds)];
      photos := [UploadedPhoto(now, address.id, path, nowIso, signedUrl)] + photos;
      outcome := Resolved;
    }

    /** `onDeletePhoto`: remove the stored object, then the row, then drop the
        entry locally. The backend's answers are not inspected. */
    method DeletePhoto(photo: AddressPhoto) returns (sent: seq<Request>)
      modifies this`photos
      ensures sent == [RemoveObject(photo.storage_path), DeletePhotoRow(photo.id)]
      ensures photos == RemovePhoto(old(photos), photo.id)
    {
      sent := [RemoveObject(photo.storage_path), DeletePhotoRow(photo.id)];
      photos := RemovePhoto(photos, photo.id);
    }
  }
}
