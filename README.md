# Raven County interactive map: a verified model of the viewer's logic

The Raven County map is a browser page that shows a game world image with
Leaflet. Under the drawing calls, `app.js` keeps a few globals and changes
them on each UI event. This project models that logic in Dafny and proves
what it does:

- **Coordinates** (`coords.dfy`, module `Coords`). A pixel becomes a game block by
  `x = round(lng - ORIGIN)` and `z = round(ORIGIN - lat)`. The go-to box maps back
  with `lat = ORIGIN - z` and `lng = x + ORIGIN`. `ORIGIN = 1408` and `MAP_SIZE = 2944`.
  The module also holds the two-click measurement and the grid overlay's line positions.
- **The go-to box** (`navigation.dfy`, `Navigation`). The box takes `"X Z"`. It trims
  the text, splits on `" "`, requires exactly two parts and reads each with `parseInt`.
  `text.dfy` (`Text`) models the JavaScript string functions involved: `trim`,
  `split(" ")`, `toLowerCase` and `parseInt`.
- **Login and roles** (`session.dfy`, `Session`). The page has a fixed table of two
  accounts (an admin and a mod). Login picks the first entry that matches both
  username and password. Otherwise the user becomes a `player` under the submitted
  name, so login never fails. The module also holds the role gates for placing
  markers, placing towns and exporting.
- **Annotations** (`annotations.dfy`, `Annotations`). This module describes markers
  and town labels as values. It states what creating, deleting and editing a marker
  do to the three lists: the public markers, the private markers and the town labels.
- **The page state** (`viewer.dfy`, `Viewer`). Class `MapViewer` holds the globals:
  `currentUser`, `placingMarker` (here `placing`), `measurePoints` and the three
  lists. A ghost field `storedPrivate` stands for the `localStorage` copy of the
  private markers. Each event handler is a method, and its contract ties the new
  state to the functions above. `Valid()` is the invariant every handler keeps:
  - at most one measurement point is pending;
  - the stored copy equals the private list (write-through);
  - marker mode implies someone is logged in, so creating a marker from a click
    never reaches the null `currentUser` dereference.
- **Scenarios** (`scenarios.dfy`). Three client methods follow whole interactions
  using only the contracts: an admin places and exports a town, a player places a
  private marker, and two clicks measure 32 blocks.

Prompt answers are method parameters. An empty string stands for a cancelled
prompt, because `if(!name)` treats `""` and `null` alike. The results of fetching
`publicMarkers.json` and `townLabels.json` are also parameters: `None` means the
fetch failed.

Some behaviour of `app.js` that the model keeps:

- `deleteMarker` matches markers by position (app.js:370-376); its `name` argument
  is unused. Both marker lists lose every entry at that position.
- Both exports refuse everyone but an admin (app.js:261 and app.js:290).
- `editMarker` is a delete followed by a create (app.js:354-356). It can change the
  type, and it can move a marker between the public and private lists according to
  the editor's role.
- There is a single town list (app.js:14), and it is never written to storage.
- Nothing keeps the public and private lists disjoint (app.js:206-213).

A login is not re-checked when a placement completes. If a mod starts town
placement and someone then logs in as a player, the next click still adds the
town. `Login`'s contract shows this by keeping `placing` unchanged.

## Model

| member | source | states |
|---|---|---|
| `Coords.Round` | app.js:47 | Math.round: the result is within half a unit of the input, with halves rounded up (v − ½ < r ≤ v + ½) |
| `Coords.PixelToBlock` | app.js:47-48 | the block under a pixel is the one whose own pixel is within half a pixel on each axis (x from lng, z from ORIGIN − lat) |
| `Coords.BlockToPixel` | app.js:399-400 | the go-to pixel of a block is a whole pixel, and converting it back gives the same block |
| `Coords.PixelRoundTrip` | app.js:122-124 | on whole pixels, pixel → block → pixel is the identity |
| `Coords.CentreIsBlockZero` | app.js:52-54 | the centring pixel (ORIGIN, ORIGIN) is block (0, 0) and back |
| `Coords.Measure` | app.js:105-110 | dx is b.lng − a.lng and dz is a.lat − b.lat, each rounded to the nearest block (halves up); the reported distance is over dx² + dz² |
| `Coords.MeasureMatchesBlocks` | app.js:105-109 | the measured offsets are within one block of the difference of the two clicked blocks on each axis, and equal to it on whole pixels |
| `Coords.DistanceZeroIff` | app.js:110 | the squared distance is non-negative, and zero iff both offsets are zero |
| `Coords.GridPositions` | app.js:67-73 | the grid loop yields 89 lines at 32·k pixels, from 0 to 2·ORIGIN (short of MAP_SIZE), each on a multiple of 32 blocks, including the block-0 line at ORIGIN |
| `Text.TrimStart` | app.js:383 | what is dropped from the front is all white space, and what is left starts with none |
| `Text.Trim` | app.js:383 | trim yields the contiguous piece of the input after the leading white space, with no white space at either end, and all it drops at either end is white space |
| `Text.TrimNoEdges` | app.js:383 | a string with no white space at either end trims to itself |
| `Text.TrimIdempotent` | app.js:383 | trimming twice is trimming once |
| `Text.Split` | app.js:384 | split(" ") yields one more piece than there are spaces, and no piece holds a space |
| `Text.JoinSplit` | app.js:384 | joining the pieces with single spaces gives the input back |
| `Text.ToLower` | app.js:171 | the length is kept, no ASCII capital is left, capitals shift by 32, and every other character is kept |
| `Text.ParseDigits` | app.js:391-392 | parseInt is NaN exactly when no digit of the radix follows |
| `Text.ParseInt` | app.js:391-392 | parseInt is NaN on input that is empty after the white space; a negative result needs a minus sign after the white space; input that starts with a decimal digit (and no "0x") yields a non-negative number |
| `Text.ParseDigitRun` | app.js:391-392 | a run of decimal digits parses as the number it denotes |
| `Text.ParseMinusDigitRun` | app.js:391-392 | a minus sign and a run of decimal digits parse as the negated number |
| `Text.ParseShowNonNegative` | app.js:391-392 | the printed digits of a natural number parse back as that number |
| `Text.ParseShowNegative` | app.js:391-392 | a minus sign before the printed digits of a natural number parses back as its negation |
| `Text.ParseShow` | app.js:391-392 | parseInt reads back any integer written as its decimal digits with a minus sign for negatives (JavaScript's own form below 10^21), and that form holds no space or white space at its ends |
| `Navigation.GoToCoords` | app.js:381-400 | the format is refused iff the trimmed input does not hold exactly one space; on success the pixel is a whole pixel whose block is the pair parseInt reads from the two parts; a number error means one part has no number |
| `Navigation.GoToWords` | app.js:381-400 | any two words without spaces that parseInt reads as x and z, joined by one space, go to the pixel of block (x, z) |
| `Navigation.GoToPrintedBlock` | app.js:381-400 | typing a block's "X Z" in decimal digits goes to that block's pixel |
| `Session.FindFrom` | app.js:326 | users.find: the index returned is the first entry whose username and password both match; none is returned only when no entry matches |
| `Session.Resolve` | app.js:326-332 | login keeps the submitted username, takes the first matching entry's role, and falls back to player when nothing matches |
| `Session.ResolveRoles` | app.js:16-19 | with the configured table, the role is admin iff the pair is the admin's, and mod iff it is the mod's |
| `Session.CanPlaceTown` | app.js:233 | town placement needs someone logged in, and that user is not a player |
| `Session.CanExport` | app.js:261 | exporting (this gate and the same one at line 290) needs town-placement rights, and that user is not a mod, so only an admin |
| `Session.GatesNested` | app.js:233-237 | each role stops at its own gate: a mod may place towns but not export, and a player may place markers but not towns |
| `Annotations.ValidTypes` | app.js:176-183 | the accepted types are exactly house, trader, tower, tent, safezone and infrastructure, each with a colour |
| `Annotations.ColorLookupTruthy` | app.js:185 | the check as written accepts every marker type, and off the Object.prototype names it accepts nothing else |
| `Annotations.LookupAcceptsInheritedKey` | app.js:185 | the check as written accepts "constructor" and "__proto__" typed in any case, which are no marker types |
| `Annotations.LookupAgreesOffPrototype` | app.js:185 | off the Object.prototype names, the check as written and the six-type check agree |
| `Annotations.CreateOutcomeOf` | app.js:185-213 | invalid type ⇒ refused; valid but not new ⇒ drawn only; new ⇒ public iff admin or mod, private for any other user, and a failure with nobody logged in |
| `Annotations.AfterCreate` | app.js:206-213 | a new valid marker is appended to the public list iff the role is admin or mod, otherwise to the private list; an invalid type, isNew = false or no user changes nothing; town labels never change |
| `Annotations.RemoveAt` | app.js:370-376 | the filter keeps only markers of the input that are not at the position, and keeps every such marker |
| `Annotations.RemoveAtConcat` | app.js:370-376 | filtering distributes over concatenation, so the kept markers stay in their original order |
| `Annotations.RemoveAtNothingThere` | app.js:370-376 | with no marker at the position the list is unchanged |
| `Annotations.RemoveAtIdempotent` | app.js:370-376 | deleting at the same position twice is deleting once |
| `Annotations.AfterDelete` | app.js:370-376 | both marker lists become their RemoveAt filter at the position, so they keep exactly the markers not there, in order; town labels stay |
| `Annotations.EditAsWritten` | app.js:346-357 | a cancelled prompt changes nothing; otherwise towns and markers elsewhere stay, and the only marker left at the position is the new one, if it was created |
| `Annotations.EditAtomic` | app.js:346-357 | the corrected edit either changes nothing or leaves the new marker in one of the lists; towns and markers elsewhere always stay |
| `Annotations.EditAsWrittenLoses` | app.js:346-357 | with both answers given but a refused type or no login, the edit removes the markers at the position and adds nothing |
| `Annotations.EditBeforeLoginLosesCabin` | app.js:354-356 | a visitor who is not logged in and edits a saved "Cabin" ends with an empty private list |
| `Annotations.EditAtomicReplacesOrKeeps` | app.js:346-357 | the corrected edit replaces exactly when both answers are given, the type is valid and someone is logged in: the markers at the position leave both lists and the new one is appended to the public list for an admin or a mod, to the private list otherwise; in every other case nothing changes |
| `Annotations.EditAgreesWhenCreated` | app.js:346-357 | when the new type is valid and someone is logged in, the edit as written equals the corrected edit |
| `Viewer.MapViewer.constructor` | app.js:6-14 | at page load nobody is logged in, there is no mode and no pending point, the public and town lists are empty, and the private list equals the stored copy |
| `Viewer.MapViewer.CreateMarkerOnMap` | app.js:174-214 | the outcome and the new lists are exactly CreateOutcomeOf and AfterCreate; storage is written only for a private addition; the mode, the points and the user are unchanged |
| `Viewer.MapViewer.LoadPublicMarkers` | app.js:130-142 | a successful fetch replaces the public list (even entries added before it arrived); a failed one leaves it as it was; nothing else changes |
| `Viewer.MapViewer.LoadPrivateMarkers` | app.js:146-150 | drawing the stored private markers changes no list and no storage |
| `Viewer.MapViewer.LoadTownLabels` | app.js:218-230 | a successful fetch replaces the town list, a failed one leaves it; nothing else changes |
| `Viewer.MapViewer.CreateTownLabel` | app.js:241-258 | a new label is appended to the town list, an old one only drawn; the marker lists and storage are unchanged |
| `Viewer.MapViewer.StartMeasure` | app.js:80-83 | the pending points are cleared and nothing else changes |
| `Viewer.MapViewer.StartMarkerPlacement` | app.js:154-161 | marker mode is entered iff someone is logged in; a refusal leaves the mode unchanged |
| `Viewer.MapViewer.StartTownPlacement` | app.js:232-239 | town mode is entered iff an admin or a mod is logged in; a refusal leaves the mode unchanged |
| `Viewer.MapViewer.PromptMarkerDetails` | app.js:163-172 | an empty answer to either prompt cancels with no change; otherwise the marker is created with its type lower-cased |
| `Viewer.MapViewer.HandleMapClick` | app.js:85-118 | town mode is served before marker mode; either is reset to none on the click and leaves the pending point alone; a marker click ends in CreateOutcomeOf of the lower-cased type; with no mode the first click records exactly one point, and the second reports Measure(a, b) and empties the points; a click in marker mode never meets a missing user |
| `Viewer.MapViewer.ExportTownLabels` | app.js:260-285 | the town labels are offered iff an admin is logged in, and then exactly as held |
| `Viewer.MapViewer.ExportPublicMarkers` | app.js:289-302 | the public markers are offered iff an admin is logged in, and then exactly as held |
| `Viewer.MapViewer.Login` | app.js:321-332 | the user becomes Resolve(u, p), so login never fails; lists, storage, mode and points are unchanged |
| `Viewer.MapViewer.DeleteMarker` | app.js:359-379 | both marker lists lose exactly the entries at (lat, lng), whatever their name, the rest stay in order, and the stored copy is rewritten to the new private list |
| `Viewer.MapViewer.EditMarker` | app.js:346-357 | an empty answer cancels; otherwise the lists become EditAsWritten: delete at the position, then create the new marker with its type lower-cased |

## Left out

- Leaflet rendering is left out: the map, circle markers, polylines, labels, popups, layer removal and `setView`/`fitBounds`. Only their effect on the globals is modelled.
- `alert` and `prompt` are left out; prompt answers are parameters and `""` stands for a cancelled prompt. The DOM reads are left out the same way: the username, password and coordinate boxes are parameters.
- `fetch` and the asynchronous loads are modelled as an `Option` given to the load methods. The timing of when a fetch resolves is left out.
- If the JSON is malformed or an entry lacks `latlng`, the source fails partway. This is not modelled.
- `localStorage` and JSON are abstracted: storage is the ghost field `storedPrivate`.
- A corrupt stored value makes `JSON.parse` throw at script load. This is not modelled.
- The export downloads (`Blob`, object URLs, data-URL anchors) are left out. Only the role gate and the exported sequence are kept.
- The nested `exportPublicMarkers` at app.js:266-276 is left out. It is a function declared inside `exportTownLabels` that is never called.
- `Coords.Measure`: the `Math.sqrt(...).toFixed(2)` floating-point distance is not modelled. The measurement reports `dx² + dz²` instead.
- Pixel positions are exact reals, not IEEE doubles. This drops rounding of fractional coordinates and strict equality on `NaN`/`-0` in `deleteMarker`.
- The grid overlay is left out beyond its line positions. Toggling it is rendering only.
- `Text.ParseDigits`: no integer width is modelled. Past 2^53, `parseInt` loses precision. A digit run too long for a double, which `parseInt` reads as `Infinity`, is not modelled either.
- `Text.ToLower`: only ASCII letters are lowered. No non-ASCII letter lowers to a letter of the six type names or of the Object.prototype names in use, so validation comes out the same.
- `Text.IsJsSpace` covers JavaScript's white space and line terminators as the ECMAScript specification's WhiteSpace and LineTerminator productions list them. It includes every Unicode `Zs` space separator (U+0020, U+00A0, U+1680, U+2000 to U+200A, U+202F, U+205F, U+3000).
- `Annotations.CreateOutcomeOf` uses the corrected six-type check (`IsValidType`), so it refuses "constructor", "__proto__" and the other Object.prototype names, which app.js:185 accepts; `Annotations.ColorLookupTruthy` models the check as written.
- `Viewer.MapViewer.CreateMarkerOnMap` uses the same corrected check, so it refuses the Object.prototype names that app.js:185 lets through.
- `Annotations.AfterCreate`, `Annotations.EditAsWritten`, `Viewer.MapViewer.PromptMarkerDetails`, `Viewer.MapViewer.HandleMapClick` and `Viewer.MapViewer.EditMarker` go through `CreateOutcomeOf`, so they too refuse "constructor" and "__proto__" where app.js:185 accepts them.
- `toggleTheme`, `openLogin`/`closeLogin`, `logout` (a page reload, which is the same as constructing a new `MapViewer` over the stored list) and `centerMap`'s view change are left out. They are UI.
- service-worker.js is not part of this model. It caches static assets in the browser.

## Findings

| source | as written | input that shows it | evidently intended | confidence | as-written member | corrected member |
|---|---|---|---|---|---|---|
| app.js:185 | the type is checked with `!colors[type]` on a plain object, so property names that every object inherits from Object.prototype pass the check | typing `constructor` or `__proto__` (in any case) at the type prompt stores a marker of that type | only the six listed types are accepted | not executed; high | `Annotations.LookupAcceptsInheritedKey` | `Annotations.ValidTypes` |
| app.js:346-357 | `editMarker` deletes every marker at the position before it knows whether the replacement can be created | a visitor who is not logged in (for example, after a reload) edits a saved private marker: it is deleted from the list and from storage, and creating the replacement throws on `currentUser.role`; a refused new type loses the marker the same way | an edit either replaces the marker or leaves it in place | not executed; medium | `Annotations.EditBeforeLoginLosesCabin` | `Annotations.EditAtomicReplacesOrKeeps` |

Marker creation in the model (`IsValidType`, used by `CreateOutcomeOf` and
`MapViewer.CreateMarkerOnMap`) uses the corrected six-entry check. `MapViewer.EditMarker`
keeps the as-written order of delete and create so that the page's behaviour stays visible.
`Annotations.EditAtomic` is the corrected edit, and `Annotations.EditAgreesWhenCreated`
proves that the two agree wherever the edit as written succeeds.
