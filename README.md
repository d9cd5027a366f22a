# Nestbau front end — a Dafny model

Nestbau is a small web front end for canvassing addresses on a map. Streets and
addresses live in a hosted backend. The map page shows a marker per address,
filtered by street and by house number. A click on the map opens a modal that
creates an address. A click on a marker opens a drawer: the address's
attributes (traffic light, favorite, building type, floors, parking, shops,
orientation, notes) can be edited there, and photos can be attached. A
favorites page lists the favorite addresses and links back into the map. A
login page signs the user in.

This project models the decision rules and the state changes of those pages
and components. It proves what they promise:

- which addresses are shown;
- how typed text resolves to a street;
- how the street index, the deep link and the favorites link fit together;
- how backend errors are turned into the messages the user sees;
- what each handler sends to the backend and in what order, and how it changes
  the page's state on each outcome.

## Layout

One module per source file, plus four supporting modules:

| module | models |
|---|---|
| `Wrappers` (wrappers.dfy) | `Option` for a value that may be `null` or `undefined`, and `??` on it |
| `Js` (js.dfy) | the JavaScript built-ins the source relies on: `includes`, `toLowerCase`, `trim`, `replace(/\s+/g, '-')`, `slice(0, n)`, `Number(text)` and number-to-text, `find`, `findIndex`, `filter` |
| `Router` (router.dfy) | how the router splits a URL into path and `key=value` query pairs, and `searchParams.get` |
| `Backend` (backend.dfy) | the backend boundary: the requests a handler issues, the `{ data, error }` responses, the outcome of an awaited callback, and the `permission` error remap shared by every load, create and save |
| `Types` (types.dfy) | `src/types.ts` |
| `StreetAutocomplete`, `AddressCreateModal`, `AddressDetailDrawer`, `PhotoGallery` | the four components |
| `MapView`, `Favorites`, `Login` | the three routes |

### How state and the backend are modelled

- **Components with state become classes.** Each `useState` becomes a field,
  and each handler becomes a method that `modifies` exactly the fields it sets.
- **Handlers that await in the middle are split in two** at the `await`.
  `BeginSave` is what happens before the call and returns what is passed to
  it. `FinishSave` takes how the call settled and does the rest.
- **Backend calls are not executed.** A handler returns the requests it issued,
  in order. What the backend answered is a parameter of the handler.
- **Nondeterministic inputs are parameters:** the random UUID, `Date.now()`,
  `new Date().toISOString()` and the signed-in user's id.
- **Pure expressions become functions,** and lemmas state what they promise.

## Model

| member | source | states |
|---|---|---|
| `Js.ToLower` | src/routes/Login.tsx:32-34 | lower-casing keeps the length and lower-cases each character on its own |
| `Js.ToLowerIdempotent` | src/routes/Login.tsx:32-34 | lower-casing twice is the same as lower-casing once |
| `Js.Contains` | src/routes/MapView.tsx:79 | `includes` finds every prefix of a string, and never a text longer than the string |
| `Js.ContainsInfix` | src/routes/MapView.tsx:79 | a text found inside a slice of a string is found in the whole string |
| `Js.ContainsEmpty` | src/routes/MapView.tsx:79 | every string contains the empty string, so an empty house-number filter excludes nothing |
| `Js.Trim` | src/components/AddressCreateModal.tsx:39 | `trim()` is never longer than its input and neither starts nor ends with white space |
| `Js.TrimStart` | src/components/AddressCreateModal.tsx:39 | the result is a suffix of the input, the removed prefix is all white space, and the result does not start with white space |
| `Js.TrimEnd` | src/components/AddressCreateModal.tsx:39 | the result is a prefix of the input, the removed suffix is all white space, and the result does not end with white space |
| `Js.TrimIsInfix` | src/components/AddressCreateModal.tsx:39-46 | the trimmed text is an infix of the input with white space only on either side, and it starts and ends with something other than white space |
| `Js.TrimEmptyIff` | src/components/AddressCreateModal.tsx:39 | `trim()` gives the empty string exactly when the input is all white space |
| `Js.TrimUnchanged` | src/components/AddressCreateModal.tsx:46 | a text that starts and ends with something other than white space is left as it is by trimming |
| `Js.TrimIdempotent` | src/components/AddressCreateModal.tsx:46 | trimming twice is the same as trimming once |
| `Js.DashWhitespace` | src/routes/MapView.tsx:143 | the replaced name holds no white space and is never longer than the original |
| `Js.DashWhitespaceKeepsWords` | src/routes/MapView.tsx:143 | text without white space passes through unchanged in front of any rest |
| `Js.DashWhitespaceRun` | src/routes/MapView.tsx:143 | each maximal white-space run becomes exactly one `-` |
| `Js.DashWhitespaceIdentityIff` | src/routes/MapView.tsx:143 | the replacement leaves a name unchanged exactly when the name has no white space |
| `Js.DashWhitespaceIdempotent` | src/routes/MapView.tsx:143 | replacing again changes nothing |
| `Js.SliceFront` | src/routes/Favorites.tsx:40 | `slice(0, n)` is a prefix of at most `n` characters: the whole text when it is short enough, exactly `n` characters otherwise |
| `Js.NumberToString` | src/routes/Favorites.tsx:37 | a printed integer is never empty and holds no white space |
| `Js.NatDigitsRoundTrip` | src/routes/MapView.tsx:52 | the decimal digits of a natural number read back as that number |
| `Js.NumberRoundTrip` | src/routes/MapView.tsx:52 | `Number(String(n))` is `n` for every integer `n` |
| `Js.NumberToStringAvoids` | src/routes/Favorites.tsx:37 | a printed integer holds only digits and `-`, so it never holds a URL separator |
| `Js.ToNumber` | src/routes/MapView.tsx:52 | `Number(text)` is 0 for an empty or all-white-space text, and NaN for any text holding a character other than a digit, a sign or white space |
| `Js.ForeignCharSurvivesTrim` | src/routes/MapView.tsx:52 | a character that is not white space is kept by `trim()` |
| `Js.FindIndex` | src/routes/MapView.tsx:54 | the index of the first element that passes the test, or the length when none passes |
| `Js.Find` | src/components/StreetAutocomplete.tsx:20 | `find` gives nothing exactly when no element passes, and otherwise an element of the list that passes |
| `Js.FindFirst` | src/components/StreetAutocomplete.tsx:20 | `find` gives nothing exactly when no element passes, and otherwise gives the first element that passes |
| `Js.Filter` | src/routes/MapView.tsx:77 | `filter` is never longer than its input and holds only listed elements that pass |
| `Js.FilterIsSubsequence` | src/routes/MapView.tsx:77 | `filter` keeps elements in their original order and leaves some out: the result embeds in the input in order |
| `Js.FilterMember` | src/routes/MapView.tsx:77 | an element is in the result exactly when it is in the input and passes the test |
| `Js.FilterMultiset` | src/routes/MapView.tsx:155 | a passing element occurs as often as in the input, and a failing one not at all |
| `Js.FilterAll` | src/routes/MapView.tsx:77 | when every element passes, `filter` returns the input unchanged |
| `Types.BuildingNameRoundTrip` | src/types.ts:2 | the three building types and their names `unknown`, `efh`, `mfh` correspond one to one |
| `Types.CompletedPartialOf` | src/types.ts:10-29 | copying an address into a `Partial<Address>` keeps every key, so the copy describes the same address |
| `Types.CompletedEmpty` | src/types.ts:10-29 | the empty record `{}` describes no address |
| `Backend.PermissionRemap` | src/routes/MapView.tsx:34 | the shown error is either the message itself or `Kein Zugriff (Allowlist).`, and always the latter when the message contains `permission` |
| `Backend.NoAccessLacksPermission` | src/routes/MapView.tsx:34 | the fixed no-access text does not itself contain `permission` |
| `Backend.PermissionRemapHidesRaw` | src/routes/MapView.tsx:34 | after the remap the message never contains `permission`. It is unchanged exactly when it did not contain `permission`, and otherwise it is `Kein Zugriff (Allowlist).` The same remap is applied at MapView.tsx lines 43, 118 and 133 and at Favorites.tsx line 23 |
| `Backend.PermissionRemapIdempotent` | src/routes/Favorites.tsx:23 | remapping an already remapped message changes nothing |
| `Router.SplitOnce` | src/routes/MapView.tsx:52 | splitting at the first separator gives a head without the separator and, when the separator occurs, the input is head, separator, tail |
| `Router.SplitOnceAt` | src/routes/MapView.tsx:52 | splitting `head + sep + tail`, where `head` has no `sep`, gives back `head` and `tail` |
| `Router.SplitOnceAbsent` | src/routes/MapView.tsx:52 | a text without the separator does not split |
| `Router.SplitAll` | src/routes/MapView.tsx:52 | `split` always yields at least one segment, none holds the separator, and joining them with the separator gives the input back |
| `Router.SearchParam` | src/routes/MapView.tsx:52 | `searchParams.get(key)` is null exactly when no pair has the key; otherwise it gives the value of the first pair with that key |
| `Router.SearchParamFirst` | src/routes/MapView.tsx:52 | for the first pair with the key, whichever it is, `get` gives exactly that pair's value |
| `Router.ParsePair` | src/routes/MapView.tsx:52 | a query segment's key holds no `=`; a segment with `=` is key, `=`, value; a segment without one is a key with the empty value |
| `Router.ParseQuery` | src/routes/MapView.tsx:52 | no key or value of the query holds `&` and no key holds `=`; a query without `&` is a single pair |
| `Router.ParseUrl` | src/routes/MapView.tsx:29 | the path is a prefix of the URL without `?`; a URL without `?` has no query; otherwise the URL is path, `?`, query text, and the pairs are those of that text |
| `Router.ParseSingleParam` | src/routes/Favorites.tsx:37 | a URL with one `key=value` pair is read back as that path and that single pair |
| `StreetAutocomplete.Resolve` | src/components/StreetAutocomplete.tsx:20 | the typed text selects null exactly when no street has that exact name; otherwise it selects a listed street with that name |
| `StreetAutocomplete.DisplayValue` | src/components/StreetAutocomplete.tsx:17 | the input shows the selected street's name, or nothing when no street is selected; in a list where it is the only street of that name, typing it back selects it (general lists: `ResolveDisplayed`) |
| `StreetAutocomplete.Suggestions` | src/components/StreetAutocomplete.tsx:25-27 | the suggestion list has one entry per street |
| `StreetAutocomplete.SuggestionsSelect` | src/components/StreetAutocomplete.tsx:25-27 | suggestion `k` is street `k`'s id and name, and choosing it selects a street with that name |
| `StreetAutocomplete.ResolveFirstExact` | src/components/StreetAutocomplete.tsx:20-21 | typed text selects null exactly when no street name equals it (case-sensitive); otherwise it selects the first street with exactly that name |
| `StreetAutocomplete.ResolveDisplayed` | src/components/StreetAutocomplete.tsx:17-20 | resolving the text shown for a listed street selects a street with the same name; it is that very street when names are unique |
| `StreetAutocomplete.ResolveCleared` | src/components/StreetAutocomplete.tsx:17-21 | clearing the input selects null, unless some street's name is empty |
| `AddressCreateModal.SubmitPayload` | src/components/AddressCreateModal.tsx:39-46 | validation stops the save exactly when no street is chosen or the house number is empty or white space only. Otherwise `onCreate` receives the street's id, the house number without surrounding white space, and the unchanged coordinates |
| `AddressCreateModal.CreateScenario` | src/components/AddressCreateModal.tsx:46 | street `s`, house number `12a` at (51.4, 6.7) send exactly that id, `12a` and those coordinates |
| `AddressCreateModal.CreateModal.constructor` | src/components/AddressCreateModal.tsx:15-18 | no street, empty house number, not saving, no error |
| `AddressCreateModal.CreateModal.Render` | src/components/AddressCreateModal.tsx:20-57 | a closed modal renders nothing; an open one shows the street's name, the error, and a Save button that is disabled while saving |
| `AddressCreateModal.CreateModal.ChooseStreet` | src/components/AddressCreateModal.tsx:27 | the autocomplete's resolution becomes the chosen street |
| `AddressCreateModal.CreateModal.EditHouseNumber` | src/components/AddressCreateModal.tsx:32 | the typed text becomes the house number |
| `AddressCreateModal.CreateModal.BeginSave` | src/components/AddressCreateModal.tsx:39-46 | when validation fails the error is the fixed message and `onCreate` is not called; otherwise saving is set and the error cleared before `onCreate` receives the payload |
| `AddressCreateModal.CreateModal.FinishSave` | src/components/AddressCreateModal.tsx:47-53 | on success the street and house number are reset; on failure the error is the thrown message and the inputs are kept; saving is false either way |
| `AddressCreateModal.CreateModal.Save` | src/components/AddressCreateModal.tsx:38-54 | the whole click: a rejected validation leaves inputs and saving flag as they were; otherwise success resets the inputs and failure shows the error; saving ends false |
| `MapView.VisibleAddresses` | src/routes/MapView.tsx:76-82 | every address that gets a marker is listed, is on the selected street when one is selected, and contains the filter text when there is one; the list never grows |
| `MapView.VisibleIsSubsequence` | src/routes/MapView.tsx:76-82 | the visible addresses are the full list with some entries left out, in the original order, and never more |
| `MapView.MapPage.Visible` | src/routes/MapView.tsx:76-82 | the page's marker list holds exactly the loaded addresses that pass the street and house-number filters, and is no longer than the loaded list |
| `MapView.VisibleIff` | src/routes/MapView.tsx:77-80 | for every address at once: visible exactly when listed and passing both filters |
| `MapView.VisibleMember` | src/routes/MapView.tsx:77-80 | an address is visible exactly when it is listed, is on the selected street (if any) and contains the house-number filter; it occurs as often as it is listed |
| `MapView.VisibleMatchesFilters` | src/routes/MapView.tsx:78-79 | every visible address is on the selected street and its house number contains the filter text |
| `MapView.VisibleUnfiltered` | src/routes/MapView.tsx:76-82 | with no street and an empty filter, every address is visible, in order |
| `MapView.LastWithId` | src/routes/MapView.tsx:84-88 | the reference for the street index: the last street in the list with that id, or nothing when none has it |
| `MapView.StreetNameById` | src/routes/MapView.tsx:84-88 | the map built by the `forEach`/`set` loop gives, for every id, the last street with that id, and nothing for an id no street has |
| `MapView.LastWithIdUnique` | src/routes/MapView.tsx:84-88 | when ids are unique, each street is found under its own id |
| `MapView.PopupLabel` | src/routes/MapView.tsx:105 | a popup ends with the house number and starts with the indexed street's name when the index has one |
| `MapView.PopupLabelParts` | src/routes/MapView.tsx:105 | a marker's popup is the indexed street's name (or nothing), a space, and the house number |
| `MapView.AddressIdParam` | src/routes/MapView.tsx:52 | the parameter reads as 0 when no pair is named `addressId`, and otherwise as `Number` of the first such pair's value |
| `MapView.FindById` | src/routes/MapView.tsx:54 | the lookup is empty exactly when no loaded address has the id, and otherwise gives a loaded address with that id |
| `MapView.DeepLinkTarget` | src/routes/MapView.tsx:51-56 | what the deep link opens is a loaded address with a non-zero id equal to the parameter |
| `MapView.DeepLinkOpensFirstMatch` | src/routes/MapView.tsx:51-56 | the deep link opens an address exactly when the parameter is a non-zero number and a loaded address has that id; it opens the first such address |
| `MapView.DeepLinkAbsent` | src/routes/MapView.tsx:52-53 | without an `addressId` parameter nothing is opened |
| `MapView.SafeName` | src/routes/MapView.tsx:143 | the stored file name has no white space |
| `MapView.PhotoPath` | src/routes/MapView.tsx:144 | every photo path starts with the user's id and a `/` |
| `MapView.PhotoPathFolders` | src/routes/MapView.tsx:144 | a photo path's first folder is the user's id and the next folder is the address id |
| `MapView.PhotoPathSeparatesUsers` | src/routes/MapView.tsx:144 | two different users never share a photo path |
| `MapView.PhotoPathSeparatesTokens` | src/routes/MapView.tsx:144 | for one user and address, different random tokens of the same length give different paths |
| `MapView.WithUrls` | src/routes/MapView.tsx:64-72 | one entry per row, and the entries' rows are the queried rows in order |
| `MapView.WithUrlsKeepsRows` | src/routes/MapView.tsx:64-72 | the photos effect keeps every row, in order, pairs it with the URL issued for its own path, and requests each URL for one hour |
| `MapView.UploadedPhoto` | src/routes/MapView.tsx:150 | the prepended entry is keyed by the new id, shows `Ohne Caption` (its caption is null), and shows an image exactly when a non-empty URL was issued |
| `MapView.RemovePhoto` | src/routes/MapView.tsx:155 | the list never grows and keeps only listed entries with another id |
| `MapView.RemovePhotoKeepsOthers` | src/routes/MapView.tsx:155 | deleting keeps exactly the entries with another id, each as often as before and in order; when no entry has the id the list is unchanged |
| `MapView.MapPage.constructor` | src/routes/MapView.tsx:19-28 | empty lists, no selection, empty filter, nothing open, no error |
| `MapView.MapPage.DrawerStreet` | src/routes/MapView.tsx:126 | the drawer's street is a loaded street with the active address's `street_id`, and there is none without an active address |
| `MapView.MapPage.LoadPhotos` | src/routes/MapView.tsx:59-74 | without an active address the photo list is emptied and nothing is sent. Otherwise the list is the address's rows (none if the query fails) with their signed URLs, after one query and one signed-URL request per row |
| `MapView.MapPage.LoadStreets` | src/routes/MapView.tsx:41-47 | on error the remapped message is shown and the list kept; otherwise the list is replaced and an earlier error stays |
| `MapView.MapPage.LoadAddresses` | src/routes/MapView.tsx:31-38 | on error the remapped message is shown and the list kept; otherwise the list is replaced (`data ?? []`) and an earlier error stays |
| `MapView.MapPage.FilterStreet` | src/routes/MapView.tsx:93 | the autocomplete's resolution becomes the street filter |
| `MapView.MapPage.FilterHouseNumber` | src/routes/MapView.tsx:94 | the typed text becomes the house-number filter |
| `MapView.MapPage.ClickMap` | src/routes/MapView.tsx:100 | a map click sets the create position, so the create modal is open (`isOpen`, line 111) at the clicked position |
| `MapView.MapPage.CloseCreate` | src/routes/MapView.tsx:115 | closing the modal forgets the position, so the modal is closed |
| `MapView.MapPage.ClickMarker` | src/routes/MapView.tsx:104 | a marker click makes its address the active one |
| `MapView.MapPage.CloseDrawer` | src/routes/MapView.tsx:128 | closing the drawer clears the active address |
| `MapView.MapPage.ApplyDeepLink` | src/routes/MapView.tsx:51-57 | the active address becomes the deep link's target when there is one, and is otherwise left as it was |
| `MapView.MapPage.Create` | src/routes/MapView.tsx:116-121 | the insert is sent first; an insert error rejects with the remapped message and changes nothing; otherwise the modal closes and the addresses are reloaded |
| `MapView.MapPage.Save` | src/routes/MapView.tsx:129-137 | without an active address nothing is sent; an update error shows the remapped message and skips the reload; otherwise the addresses are reloaded |
| `MapView.MapPage.UploadPhoto` | src/routes/MapView.tsx:138-151 | without an active address nothing happens. Without a user id it rejects with `Nicht eingeloggt.` before any storage call. An upload error rejects before the row insert, and an insert error rejects before the signed URL. Success prepends one entry for the new path and keeps the rest |
| `MapView.MapPage.DeletePhoto` | src/routes/MapView.tsx:152-156 | the stored object is removed, then the row, and the list drops every entry with that id |
| `AddressDetailDrawer.Title` | src/components/AddressDetailDrawer.tsx:36 | the heading ends with the house number and starts with the street's name when there is a street |
| `AddressDetailDrawer.Checked` | src/components/AddressDetailDrawer.tsx:55 | `Boolean(flag)` is checked exactly when the flag is present and true |
| `AddressDetailDrawer.BuildingShown` | src/components/AddressDetailDrawer.tsx:62 | the select's value reads back as the form's building type, `unknown` when absent |
| `AddressDetailDrawer.TextShown` | src/components/AddressDetailDrawer.tsx:70 | a text input shows the stored text, and any non-empty text it shows is exactly what is stored |
| `AddressDetailDrawer.FloorsShown` | src/components/AddressDetailDrawer.tsx:69 | the floors input is empty exactly when the key is absent or null |
| `AddressDetailDrawer.FloorsFromInput` | src/components/AddressDetailDrawer.tsx:69 | an empty input stores null and only then; text of white space alone would read as 0 (a property of `Number`; a number input hands over `''` for such text, which stores null) |
| `AddressDetailDrawer.TrafficActive` | src/components/AddressDetailDrawer.tsx:41-44 | one active flag per traffic button |
| `AddressDetailDrawer.TrafficActiveExactlyOne` | src/components/AddressDetailDrawer.tsx:41-44 | with a traffic value exactly that value's button is active; without one no button is |
| `AddressDetailDrawer.FloorsInputRoundTrip` | src/components/AddressDetailDrawer.tsx:69 | a typed whole number is stored as that number and shown as the same text; an emptied field stores null, not 0, and shows nothing |
| `AddressDetailDrawer.FloorsShownRoundTrip` | src/components/AddressDetailDrawer.tsx:69 | a stored number is read back unchanged from the text the field shows |
| `AddressDetailDrawer.ShownFromAddress` | src/components/AddressDetailDrawer.tsx:27-78 | a drawer opened on an address shows its favorite and garage flags, building type, notes and parking, and the right traffic button |
| `AddressDetailDrawer.TrafficIndex` | src/components/AddressDetailDrawer.tsx:41 | each traffic value has its own button position |
| `AddressDetailDrawer.Drawer.constructor` | src/components/AddressDetailDrawer.tsx:24-25 | empty form, not saving |
| `AddressDetailDrawer.Drawer.Reset` | src/components/AddressDetailDrawer.tsx:27-29 | the form becomes a copy that describes exactly the new address, or the empty record |
| `AddressDetailDrawer.Drawer.Render` | src/components/AddressDetailDrawer.tsx:31-89 | without an address nothing is rendered; with one, the title, notes, floors and disabled Save reflect the form and the saving flag |
| `AddressDetailDrawer.Drawer.ChooseTraffic` | src/components/AddressDetailDrawer.tsx:45 | only `traffic` changes, and exactly its button becomes active |
| `AddressDetailDrawer.Drawer.ToggleFavorite` | src/components/AddressDetailDrawer.tsx:56 | only `is_favorite` changes, and the box shows the new state |
| `AddressDetailDrawer.Drawer.ChooseBuilding` | src/components/AddressDetailDrawer.tsx:62-63 | only `building` changes, and the select shows the chosen type |
| `AddressDetailDrawer.Drawer.EditFloors` | src/components/AddressDetailDrawer.tsx:69 | only `floors` changes; an empty input stores null |
| `AddressDetailDrawer.Drawer.EditParking` | src/components/AddressDetailDrawer.tsx:70 | only `parking` changes; the raw text is stored, so clearing stores `''` |
| `AddressDetailDrawer.Drawer.ToggleGarage` | src/components/AddressDetailDrawer.tsx:72 | only `has_garage` changes |
| `AddressDetailDrawer.Drawer.EditShops` | src/components/AddressDetailDrawer.tsx:75 | only `shops` changes, to the raw text |
| `AddressDetailDrawer.Drawer.EditOrientationFront` | src/components/AddressDetailDrawer.tsx:76 | only `orientation_front` changes, to the raw text |
| `AddressDetailDrawer.Drawer.EditOrientationBack` | src/components/AddressDetailDrawer.tsx:77 | only `orientation_back` changes, to the raw text |
| `AddressDetailDrawer.Drawer.EditNotes` | src/components/AddressDetailDrawer.tsx:78 | only `notes` changes, to the raw text |
| `AddressDetailDrawer.Drawer.BeginSave` | src/components/AddressDetailDrawer.tsx:81-83 | the whole form record is passed to `onSave`, not a diff, and saving is set |
| `AddressDetailDrawer.Drawer.FinishSave` | src/components/AddressDetailDrawer.tsx:83-84 | saving ends when `onSave` resolves and stays set when it rejects (no `finally`) |
| `PhotoGallery.CardOf` | src/components/PhotoGallery.tsx:44-47 | a card is keyed by the photo id, shows the signed URL with the caption (or `Adresse`) as alt text exactly when the URL is present and non-empty, and shows `Ohne Caption` only for a null caption |
| `PhotoGallery.Cards` | src/components/PhotoGallery.tsx:43 | one card per photo |
| `PhotoGallery.CardsShowPhotos` | src/components/PhotoGallery.tsx:43-47 | cards are keyed by photo id, in order. A card shows an image exactly when the signed URL is present and non-empty. A null caption shows `Ohne Caption`, any other caption is shown as is |
| `PhotoGallery.Attempted` | src/components/PhotoGallery.tsx:34-36 | uploads run up to and including the first rejection; every earlier one resolved, and all of them run when none rejects |
| `PhotoGallery.Gallery.constructor` | src/components/PhotoGallery.tsx:12 | not busy, nothing picked |
| `PhotoGallery.Gallery.Pick` | src/components/PhotoGallery.tsx:31 | the picked files are the input's files |
| `PhotoGallery.Gallery.OnChange` | src/components/PhotoGallery.tsx:30-39 | an empty selection does nothing. Otherwise the files are uploaded one at a time in selection order, up to the first rejection. When all succeed, the upload button is enabled again and the input is cleared; after a rejection the button stays disabled and the files stay |
| `Login.SignInErrorText` | src/routes/Login.tsx:31-38 | the shown error is `Falsche Zugangsdaten.`, `Kein Zugriff (Allowlist).` or the message itself, and it differs from the message only when the lower-cased message contains `invalid login` or `not allowed` |
| `Login.SignInErrorCases` | src/routes/Login.tsx:31-38 | `invalid login` (any case) gives `Falsche Zugangsdaten.` and takes precedence; `not allowed` gives `Kein Zugriff (Allowlist).`; any other message is shown as it came |
| `Login.SignInErrorIgnoresCase` | src/routes/Login.tsx:32-34 | a message and its lower-cased form take the same branch: a recognised one maps to the same text, any other is shown in its own case |
| `Login.SignInErrorIdempotent` | src/routes/Login.tsx:31-38 | the fixed texts are not recognised errors themselves, so mapping a shown message again changes nothing |
| `Login.WrongCredentialsUnrecognised` | src/routes/Login.tsx:33 | `Falsche Zugangsdaten.` contains neither trigger phrase |
| `Login.NoAccessUnrecognised` | src/routes/Login.tsx:35 | `Kein Zugriff (Allowlist).` contains neither trigger phrase |
| `Login.InvalidCredentialsScenario` | src/routes/Login.tsx:32-33 | `Invalid login credentials` becomes `Falsche Zugangsdaten.` |
| `Login.LoginPage.constructor` | src/routes/Login.tsx:6-10 | empty fields, no error, not loading, no session |
| `Login.LoginPage.SignInDisabled` | src/routes/Login.tsx:25 | a missing configuration always disables the button, and the button is enabled only while no sign-in runs |
| `Login.LoginPage.CheckSession` | src/routes/Login.tsx:13-15 | the session query is sent and its answer sets the session flag |
| `Login.LoginPage.EditEmail` | src/routes/Login.tsx:22 | the typed text becomes the e-mail |
| `Login.LoginPage.EditPassword` | src/routes/Login.tsx:23 | the typed text becomes the password |
| `Login.LoginPage.BeginSignIn` | src/routes/Login.tsx:25-44 | loading is set and the error cleared before the sign-in with the entered e-mail and password; the button is disabled and reads `Anmeldung…` |
| `Login.LoginPage.FinishSignIn` | src/routes/Login.tsx:30-44 | loading ends on either outcome, so the button (with the configuration present) is enabled and reads `Einloggen`; an error shows the mapped message and stays on the page; success goes to `/map` |
| `Login.LoginPage.Logout` | src/routes/Login.tsx:46-51 | offered only with a session; signs out and clears the session flag |
| `Favorites.NotePreview` | src/routes/Favorites.tsx:40 | a null note shows `Keine Notiz`. Otherwise the preview is a prefix of the note of at most 80 characters, and a short note (including the empty one) is shown whole |
| `Favorites.EntryLabel` | src/routes/Favorites.tsx:39 | the entry's bold line ends with the house number and starts with the joined street's name when there is one |
| `Favorites.FavoriteHref` | src/routes/Favorites.tsx:37 | the link starts with `/map?addressId=` and the id part holds no white space |
| `Favorites.FavoriteHrefParses` | src/routes/Favorites.tsx:37 | the router reads the link as the path `/map` with the single pair `addressId` and the printed id |
| `Favorites.FavoriteLinkOpensAddress` | src/routes/Favorites.tsx:37 | following an entry's link reaches `/map`, the map reads the same id back, and it opens the first loaded address with that id; an id of 0 opens nothing |
| `Favorites.FavoritesPage.constructor` | src/routes/Favorites.tsx:11-12 | no items, no error |
| `Favorites.FavoritesPage.Load` | src/routes/Favorites.tsx:15-27 | the favorites query is sent; on error the remapped message is shown and the list kept; otherwise the list is replaced |
| `Favorites.FavoritesPage.Open` | src/routes/Favorites.tsx:37 | a click navigates to the entry's map link |

## Left out

- The backend client is not modelled; its queries, mutations, storage and authentication calls are network I/O. Each handler records the requests it sends and takes the backend's answers as parameters. Server-side filtering and ordering (`order('name')`, the favorite filter, newest-updated first) is the backend's work.
- The order in which concurrent effects and callbacks settle is not modelled. React scheduling, re-renders and a response arriving after the active address changed are out of scope; each handler runs from start to finish against the state it sees.
- MapView.MapPage.LoadPhotos: the signed URLs are requested concurrently (`Promise.all`). The model treats them as a single step, with the backend's answer per path given as a function.
- Coordinates are carried as `real` and never computed on. The `Number.isFinite` marker filter (MapView.tsx:102) always holds for them, and the `toFixed(5)` display of coordinates (AddressCreateModal.tsx:26) is not modelled.
- Js.ToNumber: JavaScript numbers are modelled as integers or NaN. Fractions, exponents, hexadecimal, `Infinity` and `-0` read as NaN or are absent, so a fractional floor count is not represented.
- Js.ToLower: lower-cases the ASCII letters only. The trigger phrases and fixed texts are ASCII, but a non-ASCII upper-case letter in an error message stays as it is.
- Router.ParseUrl: does not percent-decode. URLs with a `#` fragment are not modelled; a fragment stays in the last query value.
- Js.NumberToString: prints the decimal digits of every integer. JavaScript numbers are doubles, so `String(n)` switches to exponent form from 1e21 and integers above 2^53 are rounded; Js.NumberRoundTrip and the favorites link round trip therefore hold in the model for every integer, and in JavaScript only for integers of magnitude below 2^53.
- Js.SliceFront: counts characters as Unicode code points, while JavaScript's `slice` counts UTF-16 code units. A note with characters outside the Basic Multilingual Plane (an emoji, say) is cut at a different place, and JavaScript can cut one such character in half.
- Favorites.NotePreview: inherits the code-point count of Js.SliceFront, so its 80-character limit is 80 code points, not 80 UTF-16 units.
- Leaflet (map, tiles, markers, popups as widgets) and the exact JSX markup are not modelled; the views keep only the values the pages show or disable by.
- Login.LoginPage: the warning for a missing configuration is a plain read of a configuration flag, which is a parameter. The button's label and the gallery's upload button (`PhotoGallery.Gallery.UploadDisabled`, `disabled={busy}`) are plain reads of one field and are stated through the methods that set that field.
- The logout request's answer is ignored by the source and not modelled.
- `src/App.tsx`, `src/lib/config.ts` and `vite.config.ts` (route table, constants, build configuration) are not part of this model.
- Component lifetime is not modelled. When the drawer closes, its photo gallery unmounts, and that discards a `busy` flag left set by a failed upload. The model keeps one `Gallery` object.
