/** The domain records: streets, addresses and the photos attached to them. */
module Types {
  import opened Wrappers
  import opened Js

  /** Traffic-light status of an address. */
  datatype Traffic = Green | Yellow | Red

  /** Building kind: unknown, single-family house (EFH) or multi-family house (MFH). */
  datatype BuildingType = Unknown | Efh | Mfh

  /** The three traffic values, in the order the buttons show them. */
  const AllTraffic: seq<Traffic> := [Green, Yellow, Red]

  /** The wire name of a building type (also the value of its `<option>`). */
  function BuildingName(b: BuildingType): string {
    match b
    case Unknown => "unknown"
    case Efh => "efh"
    case Mfh => "mfh"
  }

  function ParseBuilding(s: string): Option<BuildingType> {
    if s == "unknown" then Some(Unknown)
    else if s == "efh" then Some(Efh)
    else if s == "mfh" then Some(Mfh)
    else None
  }

  lemma BuildingNameRoundTrip(b: BuildingType, s: string)
    ensures ParseBuilding(BuildingName(b)) == Some(b)
    ensures ParseBuilding(s) == Some(b) ==> BuildingName(b) == s
  {
  }

  datatype Street = Street(id: int, name: string, city: string)

  /** An address. Coordinates are carried through unchanged and never computed on;
      `street` is the optional joined street row, the reference proper is `street_id`. */
  datatype Address = Address(
    id: int,
    street_id: int,
    house_number: string,
    lat: real,
    lon: real,
    traffic: Traffic,
    is_favorite: bool,
    building: BuildingType,
    floors: Option<JsNumber>,
    parking: Option<string>,
    has_garage: bool,
    shops: Option<string>,
    orientation_front: Option<string>,
    orientation_back: Option<string>,
    notes: Option<string>,
    updated_at: string,
    created_at: string,
    street: Option<Street>)

  datatype AddressPhoto = AddressPhoto(
    id: int,
    address_id: int,
    storage_path: string,
    caption: Option<string>,
    created_at: string)

  /** A photo as the gallery holds it: the row plus the signed URL, when one was issued. */
  datatype GalleryPhoto = GalleryPhoto(photo: AddressPhoto, signedUrl: Option<string>)

  /** A file the user picked; only its name matters to the application. */
  datatype File = File(name: string)

  /** `Partial<Address>`: every key may be absent (outer `None`); the nullable
      fields additionally may be present and null (`Some(None)`). */
  datatype PartialAddress = PartialAddress(
    id: Option<int>,
    street_id: Option<int>,
    house_number: Option<string>,
    lat: Option<real>,
    lon: Option<real>,
    traffic: Option<Traffic>,
    is_favorite: Option<bool>,
    building: Option<BuildingType>,
    floors: Option<Option<JsNumber>>,
    parking: Option<Option<string>>,
    has_garage: Option<bool>,
    shops: Option<Option<string>>,
    orientation_front: Option<Option<string>>,
    orientation_back: Option<Option<string>>,
    notes: Option<Option<string>>,
    updated_at: Option<string>,
    created_at: Option<string>,
    street: Option<Street>)

  /** `{}` */
  const EmptyPartial := PartialAddress(None, None, None, None, None, None, None, None, None,
                                       None, None, None, None, None, None, None, None, None)

  /** `{ ...a }`: a copy of an address with every key present. */
  function PartialOf(a: Address): PartialAddress {
    PartialAddress(Some(a.id), Some(a.street_id), Some(a.house_number), Some(a.lat), Some(a.lon),
                   Some(a.traffic), Some(a.is_favorite), Some(a.building), Some(a.floors),
                   Some(a.parking), Some(a.has_garage), Some(a.shops), Some(a.orientation_front),
                   Some(a.orientation_back), Some(a.notes), Some(a.updated_at), Some(a.created_at),
                   a.street)
  }

  /** The address a partial record describes when all of its required keys are present. */
  function Completed(p: PartialAddress): Option<Address> {
    if && p.id.Some? && p.street_id.Some? && p.house_number.Some? && p.lat.Some? && p.lon.Some?
       && p.traffic.Some? && p.is_favorite.Some? && p.building.Some? && p.floors.Some?
       && p.parking.Some? && p.has_garage.Some? && p.shops.Some? && p.orientation_front.Some?
       && p.orientation_back.Some? && p.notes.Some? && p.updated_at.Some? && p.created_at.Some?
    then
      Some(Address(p.id.value, p.street_id.value, p.house_number.value, p.lat.value, p.lon.value,
                   p.traffic.value, p.is_favorite.value, p.building.value, p.floors.value,
                   p.parking.value, p.has_garage.value, p.shops.value, p.orientation_front.value,
                   p.orientation_back.value, p.notes.value, p.updated_at.value, p.created_at.value,
                   p.street))
    else None
  }

  /** Copying an address into a partial record loses nothing. */
  lemma CompletedPartialOf(a: Address)
    ensures Completed(PartialOf(a)) == Some(a)
  {
  }

  /** The empty record describes no address. */
  lemma CompletedEmpty()
    ensures Completed(EmptyPartial) == None
  {
  }
}
