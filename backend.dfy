/**
  The boundary to the hosted backend. Every query, mutation, storage and
  authentication call is represented by the request it issues; what the
  backend answers is supplied by the caller of a handler, as a response or
  an error message.
 */
module Backend {
  import opened Wrappers
  import opened Js
  import opened Types

  /** How an awaited callback settled: resolved, or rejected with an error's message. */
  datatype Outcome = Resolved | Rejected(message: string)

  /** The `{ data, error }` pair a backend query resolves to; `error` holds the error's message. */
  datatype Response<T> = Response(data: Option<T>, error: Option<string>)

  /** Lifetime of a signed photo URL, in seconds. */
  const SignedUrlSeconds: int := 60 * 60

  /** The calls a handler makes to the backend, in the order it makes them. */
  datatype Request =
    | SelectStreetsByName
    | SelectAddresses
    | SelectFavoriteAddresses
    | InsertAddress(streetId: int, houseNumber: string, lat: real, lon: real)
    | UpdateAddress(id: int, changes: PartialAddress)
    | GetUser
    | UploadObject(path: string)
    | SelectPhotos(addressId: int)
    | InsertPhotoRow(addressId: int, path: string)
    | CreateSignedUrl(path: string, expiresIn: int)
    | RemoveObject(path: string)
    | DeletePhotoRow(id: int)
    | GetSession
    | SignInWithPassword(email: string, password: string)
    | SignOut

  /** The fixed text shown for every permission error. */
  const NoAccess: string := "Kein Zugriff (Allowlist)."

  /** The remap applied wherever a load, create or save fails: a message that
      mentions `permission` (case-sensitively) becomes the fixed no-access text. */
  function PermissionRemap(message: string): (r: string)
    ensures r == message || r == NoAccess
    ensures Contains(message, "permission") ==> r == NoAccess
  {
    if Contains(message, "permission") then NoAccess else message
  }

  /** The no-access text does not itself mention `permission`. */
  lemma NoAccessLacksPermission()
    ensures !Contains(NoAccess, "permission")
  {
    if Contains(NoAccess, "permission") {
      ContainsFirstChar(NoAccess, "permission");
    }
  }

  /** What the user sees after the remap never mentions `permission`: a
      permission error is always replaced and never shown raw, and every
      other message is shown as it came. */
  lemma PermissionRemapHidesRaw(message: string)
    ensures !Contains(PermissionRemap(message), "permission")
    ensures PermissionRemap(message) == message <==> !Contains(message, "permission")
    ensures PermissionRemap(message) != message ==> PermissionRemap(message) == NoAccess
  {
    NoAccessLacksPermission();
  }

  /** Remapping an already remapped message changes nothing. */
  lemma PermissionRemapIdempotent(message: string)
    ensures PermissionRemap(PermissionRemap(message)) == PermissionRemap(message)
  {
    NoAccessLacksPermission();
  }
}
