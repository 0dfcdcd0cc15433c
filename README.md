# Bookfair vendor portal: stall selection, genre list and account settings

A Dafny model of the three vendor pages of the Colombo International Bookfair
stall-reservation web application that carry logic of their own:

- **Reservations** (`reservations.dfy`). The page generates an 8 x 10 grid of
  stalls, each with an id `row-col` and a name made of a letter `A`..`Z` and a
  cycle number. The vendor clicks stalls into and out of a selection of at
  most three. Reserved stalls cannot be picked. Confirming marks exactly the
  selected stalls as reserved by `Current User` and empties the selection.
  Size labels are the size with its first letter capitalised.
- **Dashboard** (`dashboard.dfy`). A list of literary genres. A genre is added
  from free text or from a preset list, and never under a name that another
  genre already has up to letter case. Genres are removed by id.
- **Account settings** (`account_settings.dfy`). An eight-field form. Saving
  first checks a requested password change: length, then confirmation. It
  then persists only the five profile fields, shows the business name and
  empties the three password fields.

`text.dfy` holds the string operations the pages rely on: decimal rendering of
a number, ASCII `toLowerCase`/`toUpperCase`, and `trim` over the ECMAScript
whitespace set. `wrappers.dfy` holds `Option`, which stands for a value that
may be `undefined`.

Each page is a class whose fields are the component's state (`stalls` and
`selected`; `genres` and `newGenre`; `formData`, `businessName`, `isSaving`,
`saveSuccess` and the persisted store). Each event handler is a method that
performs one synchronous transition. The new values are computed by pure
functions, and the invariants and round trips are proved about those
functions as lemmas. The random draws of the grid (size, reserved flag,
vendor number) are the `draws` parameter of `GenerateStalls`. The
`Date.now()` ids of new genres are `freshId` parameters. Browser storage is
the page's `storedBusinessName` and `storedAccount` fields.

Behaviour kept as the code has it:

- The add-genre guard trims the input only to reject blank text. The name
  comparison uses the untrimmed text, and the untrimmed text is stored.
  So `" Fiction"` is accepted next to `"Fiction"`.
- A click is judged by the `reserved` flag of the stall value passed in, and
  confirmation matches grid stalls to the selection by id.
- Genre ids are not guaranteed fresh, so removal drops every genre with the
  given id. `AddThenRemoveRestores` assumes the new id is unused.

## Model

| member | source | states |
|---|---|---|
| `Text.DecimalDigits` | frontend/src/pages/vendor/Reservations.tsx:36-42 | rendering a number yields a non-empty digit string with no leading zero |
| `Text.ParseDecimalDigits` | frontend/src/pages/vendor/Reservations.tsx:38-39 | reading a rendered number back gives the number |
| `Text.DecimalDigitsInjective` | frontend/src/pages/vendor/Reservations.tsx:38-42 | distinct numbers render differently |
| `Text.Lower` | frontend/src/pages/vendor/Dashboard.tsx:21 | lower-casing keeps the length and lower-cases each character |
| `Text.LowerIdempotent` | frontend/src/pages/vendor/Dashboard.tsx:21 | lower-casing twice equals lower-casing once |
| `Text.TrimStart` | frontend/src/pages/vendor/Dashboard.tsx:21 | the result is a suffix of the input, and only whitespace was cut off |
| `Text.TrimEnd` | frontend/src/pages/vendor/Dashboard.tsx:21 | the result is a prefix of the input, and only whitespace was cut off |
| `Text.TrimEmptyIffBlank` | frontend/src/pages/vendor/Dashboard.tsx:21 | `trim()` is empty exactly when the text is all whitespace |
| `Reservations.StallNameRoundTrip` | frontend/src/pages/vendor/Reservations.tsx:36-39 | the counter can be read back from the stall name (letter counter%26, suffix counter/26 when positive) |
| `Reservations.StallNamesDistinct` | frontend/src/pages/vendor/Reservations.tsx:36-39 | different counters give different stall names |
| `Reservations.GridIdsDistinct` | frontend/src/pages/vendor/Reservations.tsx:42 | different cells of the 8 x 10 grid get different `row-col` ids |
| `Reservations.GenerateStalls` | frontend/src/pages/vendor/Reservations.tsx:26-54 | the grid has 80 stalls; stall k is at row k/10, column k%10, with id `row-col`, the k-th name, and the drawn size and reserved flag; `reservedBy` is `Vendor N` with the drawn number for reserved stalls and unset otherwise; all ids and all names are pairwise distinct |
| `Reservations.SizeLabel` | frontend/src/pages/vendor/Reservations.tsx:124-126 | the label keeps the length and every character after the first; its first character is not lower case; it equals the size up to case |
| `Reservations.SizeLabels` | frontend/src/pages/vendor/Reservations.tsx:124-126 | the three sizes are labelled `Small`, `Medium`, `Large` |
| `Reservations.FindById` | frontend/src/pages/vendor/Reservations.tsx:59 | a stall is found exactly when one has the id, and it is the first such stall |
| `Reservations.WithoutId` | frontend/src/pages/vendor/Reservations.tsx:62 | no stall with the id remains; the list does not grow; an absent id changes nothing |
| `Reservations.WithoutIdMembers` | frontend/src/pages/vendor/Reservations.tsx:62 | the filter keeps exactly the stalls whose id differs |
| `Reservations.WithoutHeadId` | frontend/src/pages/vendor/Reservations.tsx:62 | with distinct ids, filtering out the first stall's id drops only that stall |
| `Reservations.WithoutIdCutsOut` | frontend/src/pages/vendor/Reservations.tsx:62 | with distinct ids, filtering out stall i's id gives the list with position i cut out, the rest in order |
| `Reservations.WithoutIdConcat` | frontend/src/pages/vendor/Reservations.tsx:62 | filtering distributes over concatenation, so order is kept |
| `Reservations.CutOutKeepsValid` | frontend/src/pages/vendor/Reservations.tsx:62 | removing one entry from a valid selection leaves a valid selection |
| `Reservations.ClickKeepsBoardValid` | frontend/src/pages/vendor/Reservations.tsx:56-70 | a click on a grid stall or a selected stall keeps every selected stall a copy of a grid stall, and keeps the selection valid |
| `Reservations.ClickKeepsSelectionValid` | frontend/src/pages/vendor/Reservations.tsx:56-70 | every click keeps the selection at most 3 long, free of repeated ids, and free of reserved stalls |
| `Reservations.DeselectCutsOut` | frontend/src/pages/vendor/Reservations.tsx:59-62 | clicking a selected available stall deselects it, removing exactly its entry and keeping the others in order |
| `Reservations.ClickTwiceRestores` | frontend/src/pages/vendor/Reservations.tsx:59-68 | with fewer than 3 selected, clicking an unselected available stall appends it, and a second click restores the selection |
| `Reservations.MarkOneCount` | frontend/src/pages/vendor/Reservations.tsx:80-86 | marking by the id of one unreserved stall among distinct ids reserves exactly one more stall |
| `Reservations.MarkReservedCompose` | frontend/src/pages/vendor/Reservations.tsx:80-86 | marking by one selection and then another equals marking by both |
| `Reservations.ConfirmReservesOnePerSelected` | frontend/src/pages/vendor/Reservations.tsx:80-88 | confirming a selection of distinct available grid stalls raises the reserved count by exactly the selection's size |
| `Reservations.ConfirmedStallIgnored` | frontend/src/pages/vendor/Reservations.tsx:57 | a confirmed stall is reserved by `Current User`, and later clicks on it change nothing |
| `Reservations.StallBoard.constructor` | frontend/src/pages/vendor/Reservations.tsx:20-54 | the page starts with the grid generated from the draws (80 stalls in row-column order with the cell ids, distinct names and drawn sizes and flags) and an empty selection, and the page invariant holds |
| `Reservations.StallBoard.Click` | frontend/src/pages/vendor/Reservations.tsx:56-70 | the grid is unchanged; a reserved stall is ignored; a selected one is filtered out; when 3 are selected the selection is kept (alert); otherwise the stall is appended; a click on a grid or selected stall keeps the page invariant |
| `Reservations.StallBoard.Confirm` | frontend/src/pages/vendor/Reservations.tsx:72-91 | an empty selection changes nothing; otherwise exactly the stalls with a selected id become reserved, every other field and stall is unchanged, the length is kept, the selection empties, and the reserved count grows by the selection's size |
| `Dashboard.FindByName` | frontend/src/pages/vendor/Dashboard.tsx:21 | a genre is found exactly when one has the name up to case |
| `Dashboard.RemainingGenres` | frontend/src/pages/vendor/Dashboard.tsx:27-29 | no genre with the id remains; an absent id changes nothing |
| `Dashboard.RemainingGenresMembers` | frontend/src/pages/vendor/Dashboard.tsx:28 | removal keeps exactly the genres whose id differs |
| `Dashboard.RemainingGenresConcat` | frontend/src/pages/vendor/Dashboard.tsx:28 | removal distributes over concatenation, so the kept genres stay in order |
| `Dashboard.AddKeepsNamesDistinct` | frontend/src/pages/vendor/Dashboard.tsx:21-22 | adding keeps genre names distinct up to case |
| `Dashboard.SelectKeepsNamesDistinct` | frontend/src/pages/vendor/Dashboard.tsx:32-33 | selecting a preset keeps genre names distinct up to case |
| `Dashboard.RemoveKeepsNamesDistinct` | frontend/src/pages/vendor/Dashboard.tsx:28 | removal keeps genre names distinct up to case |
| `Dashboard.RemoveKeepsIdsDistinct` | frontend/src/pages/vendor/Dashboard.tsx:28 | removal keeps genre ids distinct |
| `Dashboard.SelectIdempotent` | frontend/src/pages/vendor/Dashboard.tsx:31-35 | selecting the same preset twice gives the list that selecting it once gives |
| `Dashboard.PresentNameRejected` | frontend/src/pages/vendor/Dashboard.tsx:21 | a name already present up to case is neither added nor selected again |
| `Dashboard.AddThenRemoveRestores` | frontend/src/pages/vendor/Dashboard.tsx:20-29 | removing the unused id given to an add restores the list |
| `Dashboard.GenreBoard.constructor` | frontend/src/pages/vendor/Dashboard.tsx:11-12 | the dashboard starts with no genres and an empty input |
| `Dashboard.GenreBoard.SetNewGenre` | frontend/src/pages/vendor/Dashboard.tsx:79 | typing replaces the input text and leaves the genres alone |
| `Dashboard.GenreBoard.AddGenre` | frontend/src/pages/vendor/Dashboard.tsx:20-25 | the add succeeds exactly when the trimmed input is non-empty and no genre has the untrimmed name up to case; success appends one genre with the verbatim text and the fresh id and clears the input; failure changes nothing; blank input never adds; names stay distinct |
| `Dashboard.GenreBoard.RemoveGenre` | frontend/src/pages/vendor/Dashboard.tsx:27-29 | every genre with the id is dropped and the rest are kept; an absent id changes nothing; the input is untouched; distinct names and ids stay distinct |
| `Dashboard.GenreBoard.SelectFromList` | frontend/src/pages/vendor/Dashboard.tsx:31-35 | for a genre of the preset list (the only values the page passes), a preset whose name is absent up to case is appended under the fresh id, otherwise nothing changes; names stay distinct |
| `AccountSettings.UpdateField` | frontend/src/pages/vendor/AccountSettings.tsx:61-63 | the named field takes the value and every other field is unchanged |
| `AccountSettings.CheckPasswordChangeAccepts` | frontend/src/pages/vendor/AccountSettings.tsx:68-80 | a save passes validation exactly when the new password is empty, or is at least 6 long and equals the confirmation |
| `AccountSettings.LengthCheckedFirst` | frontend/src/pages/vendor/AccountSettings.tsx:69-74 | a non-empty new password shorter than 6 is reported as too short, whatever the confirmation holds |
| `AccountSettings.Profile` | frontend/src/pages/vendor/AccountSettings.tsx:84-90 | the persisted record alone rebuilds, on a fresh page, the form that was saved with its passwords emptied |
| `AccountSettings.ClearPasswords` | frontend/src/pages/vendor/AccountSettings.tsx:97-102 | the three password fields become empty and the five profile fields are kept |
| `AccountSettings.SaveThenRestore` | frontend/src/pages/vendor/AccountSettings.tsx:32-40 | reloading after a save restores the saved profile with empty passwords, and shows the saved business name unless it is empty |
| `AccountSettings.AccountSettingsPage.constructor` | frontend/src/pages/vendor/AccountSettings.tsx:11-45 | the page starts from the empty form merged with what is stored, not saving, no success shown |
| `AccountSettings.AccountSettingsPage.Edit` | frontend/src/pages/vendor/AccountSettings.tsx:61-63 | only the named form field changes; nothing else on the page or in the store does |
| `AccountSettings.AccountSettingsPage.Logout` | frontend/src/pages/vendor/AccountSettings.tsx:107-108 | the persisted business name is removed; the persisted record and the page state are kept |
| `AccountSettings.AccountSettingsPage.Save` | frontend/src/pages/vendor/AccountSettings.tsx:65-105 | the error is the ordered check's verdict (length before match, none for an empty new password); a refusal changes nothing; success stores the business name and the five-field record, shows the business name, sets success and clears the passwords; `isSaving` ends false on every path |

## Left out

- Grid randomness: sizes, reserved flags and vendor numbers come from `Math.random`; they are the `draws` parameter.
- Genre ids from `Date.now()`: they are the `freshId` parameter.
- The 1.5-second delay before a confirmation takes effect, the `isLoading` and `showConfirmModal` flags and the alerts. A confirmation is modelled as the effect its delayed callback has, applied at once.
- Reservations.StallBoard.Confirm: the page navigates to the dashboard in the same callback that confirms (Reservations.tsx line 100). The page then unmounts, and nothing is persisted. Returning to it runs the grid effect again and draws a fresh random grid. So the state the model reaches after `Confirm`, and any `Click` or `Confirm` that follows it, has no counterpart in the page.
- Reservations.StallBoard.Confirm: the delayed callback maps the `stalls` and `selectedStalls` captured when the confirm button was pressed (lines 78-101). The modal's backdrop still closes the modal while loading (lines 238-241), and the page's stalls stay clickable. So the page discards selections made during the 1.5 seconds, and still reserves a stall that was deselected in that window. The model applies the confirmation to the current state, so it does not capture either effect.
- Reservations.ConfirmedStallIgnored: its "later clicks change nothing" half describes a grid the page never shows again, because of the navigation above. The same holds for the raised reserved count that `ConfirmReservesOnePerSelected` describes.
- The 3-second timer that hides the save-success banner: timing.
- Reading browser storage and parsing its JSON on load. The load effect is modelled only as the merge of a stored name and a stored record (`Restore`). A stored value that fails to parse, or holds other keys, is not modelled.
- `getStallClasses` styling, all rendering, the profile-menu click-outside listener and routing: presentation.
- AccountSettings.AccountSettingsPage.Logout: models only the removal of the stored business name. The removal of the stored authentication token, which the model does not hold, and the navigation to the landing page are not modelled.
- Text.Lower: lower-casing covers ASCII letters only, because JavaScript's full Unicode case mapping is not modelled. Non-ASCII names that differ only in case count as distinct here.
- Reservations.SizeLabel: upper-cases ASCII only. The page applies it to the three ASCII size names.
- AccountSettings.CheckPasswordChange: string length counts characters, not UTF-16 code units. A password with characters outside the Basic Multilingual Plane is shorter here than JavaScript measures it.
- React's batching of state updates: each handler is one synchronous transition on the current state.
- The backend (registration, login, stall listing, reservation routes): it only wires HTTP to database and hashing libraries. The reservation controller it names is not part of this model, and no server-side reservation engine exists in the code.
