# Restaurant directory: validation and local state, verified

A Dafny model of the logic in a small React front end for a restaurant
directory. The front end lists records fetched from a server, edits a record
in a modal, deletes records, and creates new ones with a separate form. Two
components hold the logic:

- **The listing view** (`Home`). It keeps an ordered local copy of the
  collection, the record being edited, whether the edit modal is open, and
  the image preview. Saving validates the modal's values, sends an update, and
  on success replaces the matching record by identifier. Deleting removes
  records by identifier once the server has confirmed.
- **The create form** (`AddForm`). It keeps three text fields, the selected
  file, a `loading` flag and a preview. Submitting validates, sets `loading`,
  uploads, and then resets the form on status 201, shows a server or generic
  message on any other status, and shows a fixed message on a thrown error.

Both run the same ordered, short-circuiting validation chain. That chain is
defined once, as `Validation.Validate(draft, requireImage)`: the create form
passes `true` and the edit modal passes `false`.

Files:

- `common.dfy`: `Option` and the notification type `Toast`.
- `validation.dfy`: ECMAScript `trim`, the `/^[0-9]{10}$/` contact pattern,
  each rule stated on its own (`Violates`), and the chain. The main theorem
  is that the chain reports exactly the first broken rule.
- `records.dfy`: the record type and the two list patches, replace by
  identifier and remove by identifier, with their order, length and
  "nothing else changes" properties.
- `home.dfy`: the class `Listing` for the listing view.
- `addform.dfy`: the class `CreateForm` for the create form.

Network calls are not modelled as calls. Each handler takes what the awaited
request came to (`Updated(record) | UpdateFailed`, `Deleted | DeleteFailed`,
`Responded(status, message) | Threw`) as a parameter. Each handler is also
described by a pure function of its inputs (`SaveAttempt`, `SubmitAttempt`),
and its method is proved equal to that function.

Behaviour worth noting:

- The submit button is not disabled while `loading` is set; only its label
  changes (src/components/AddForm.tsx:199). `HandleSubmit` therefore has no
  guard on `loading`.
- In the edit modal a missing file is not an error
  (src/components/Home.tsx:66). Only the create form requires one.
- A successful delete filters out every record with that identifier. The
  list therefore shortens by one only when identifiers are unique and the
  identifier is present (`RemovePresentShortensByOne`). Otherwise it shortens
  by the number of matching records.
- A failed delete raises no notification; it is only logged
  (src/components/Home.tsx:98-99).
- A successful save closes the modal and clears the preview but keeps the
  edit target (src/components/Home.tsx:83-85).
- The fallback to "Failed to add restaurant" uses JavaScript's `||`. An empty
  server message therefore also falls back to the generic text.

## Model

| member | source | states |
|---|---|---|
| Validation.Message | src/components/AddForm.tsx:16-43 | every check's notification text is non-empty; the seven texts are those of the two forms |
| Validation.MessageIdentifiesError | src/components/Home.tsx:44-74 | distinct checks raise distinct texts, so the notification names the violated rule |
| Validation.TrimStart | src/components/Home.tsx:43 | dropping leading whitespace never lengthens the string |
| Validation.TrimEnd | src/components/Home.tsx:43 | dropping trailing whitespace never lengthens the string |
| Validation.TrimStartSpec | src/components/Home.tsx:43 | the leading part dropped is all whitespace, and what is kept is a suffix that is empty or starts with a non-whitespace character |
| Validation.TrimEndSpec | src/components/Home.tsx:43 | the trailing part dropped is all whitespace, and what is kept is a prefix that is empty or ends with a non-whitespace character |
| Validation.Trim | src/components/Home.tsx:43 | `trim()` never lengthens the string, and a non-empty result starts and ends with a non-whitespace character |
| Validation.TrimEmptyIffBlank | src/components/Home.tsx:43-54 | `!s.trim()` holds exactly when every character of `s` is ECMAScript whitespace |
| Validation.Validate | src/components/AddForm.tsx:15-45 | an accepted draft has a ten-digit contact, has a file when one is required, and any file is a JPEG/PNG of at most 5242880 bytes; "image required" is raised only when the file is required and absent |
| Validation.CheckImage | src/components/AddForm.tsx:32-45 | the file checks come after every text check in the chain's order |
| Validation.ValidateAcceptsIffNoViolation | src/components/AddForm.tsx:15-45 | the chain accepts a draft if and only if the draft breaks none of the seven rules |
| Validation.ValidateRejectsFirstViolation | src/components/Home.tsx:43-76 | a rejection names a broken rule, and every rule before it in the chain holds |
| Validation.FirstViolationUnique | src/components/Home.tsx:43-59 | only one error is produced: at most one rule is the first broken one |
| Validation.ValidateReportsFirstViolation | src/components/Home.tsx:43-76 | the chain rejects with `e` if and only if `e` is the first broken rule |
| Validation.BlankNameReportedFirst | src/components/Home.tsx:43-46 | a blank name is reported, whatever else is wrong |
| Validation.AllInvalidReportsName | src/components/AddForm.tsx:15-18 | a draft that breaks every rule that can fail at once raises only the name error |
| Validation.BlankContactReported | src/components/Home.tsx:51-54 | once name and location pass, "contact required" is raised exactly for a blank contact |
| Validation.MatchesDigitRunIff | src/components/Home.tsx:55-56 | matching `[0-9]{n}$` token by token from the start is the same as being exactly `n` characters long, all digits |
| Validation.IsTenDigits | src/components/Home.tsx:55-56 | the contact test holds exactly when `/^[0-9]{10}$/`, read token by token, matches the whole string |
| Validation.Violates | src/components/AddForm.tsx:15-45 | the name, location and contact rules are broken exactly when `field.trim()` is empty, and the format rule exactly when the contact pattern does not match |
| Validation.TenDigitsNotBlank | src/components/Home.tsx:51-59 | a contact that matches the pattern is never blank |
| Validation.ContactAcceptedIffTenDigits | src/components/Home.tsx:51-59 | after name and location pass, a contact that does not match the pattern gets one of the two contact errors, and a contact that matches leaves only the file checks to decide |
| Validation.UntrimmedContactRejected | src/components/Home.tsx:55-59 | the pattern runs on the untrimmed contact: `" 1234567890"` is rejected for its format |
| Validation.ImageRequiredExactly | src/components/AddForm.tsx:32-36 | the create chain says "Please select an image file" exactly when all text checks pass and no file is selected |
| Validation.EditAcceptsMissingImage | src/components/Home.tsx:66-78 | in the edit chain, a missing file is judged like a valid one |
| Validation.ImageSizeBoundary | src/components/Home.tsx:73-76 | 5242880 bytes is accepted and 5242881 is rejected for size |
| Validation.TypeCheckedBeforeSize | src/components/AddForm.tsx:37-45 | a file that is both the wrong type and too large is reported for its type |
| Validation.CreateIsEditPlusImageRequired | src/components/AddForm.tsx:15-45 | the create chain is the edit chain plus one extra rejection, for a missing file |
| Validation.CreateAcceptedImpliesEditAccepted | src/components/AddForm.tsx:32-36 | every draft the create chain accepts, the edit chain accepts |
| Validation.CompleteDraftWithoutImage | src/components/AddForm.tsx:32-36 | a draft with non-blank name and location, a ten-digit contact and no file passes the edit chain and gets "Please select an image file" from the create chain |
| Validation.EditAcceptedDoesNotImplyCreate | src/components/AddForm.tsx:32-36 | some draft passes the edit chain and is refused by create for its missing file |
| Records.CountId | src/components/Home.tsx:96 | the count of records with an identifier is zero exactly when none carries it |
| Records.ReplaceById | src/components/Home.tsx:83 | same length; every record with the target identifier becomes the returned record; every other record is unchanged in place |
| Records.ReplaceAbsentIsIdentity | src/components/Home.tsx:83 | replacing an absent identifier leaves the list as it is |
| Records.ReplaceIdempotent | src/components/Home.tsx:83 | applying the same update twice equals applying it once, whatever record the server returned |
| Records.ReplaceKeepsIds | src/components/Home.tsx:83 | an identifier-preserving update keeps every identifier, so unique identifiers stay unique |
| Records.ReplaceUniqueChangesOne | src/components/Home.tsx:83 | with unique identifiers, the update is a single-position update |
| Records.RemoveById | src/components/Home.tsx:96 | the result is an order-preserving subsequence, shorter by the number of records with that identifier, and holds exactly the records whose identifier differs |
| Records.CountIdUnique | src/components/Home.tsx:96 | with unique identifiers, a present identifier is carried by exactly one record |
| Records.RemovePresentShortensByOne | src/components/Home.tsx:93-97 | with unique identifiers and the identifier present, the delete shortens the list by exactly one and the identifier is gone |
| Records.RemoveAbsentIsIdentity | src/components/Home.tsx:96 | deleting an absent identifier leaves the list as it is |
| Records.RemoveIdempotent | src/components/Home.tsx:96 | deleting twice equals deleting once |
| Records.SubsequenceKeepsUniqueIds | src/components/Home.tsx:96 | a subsequence of a list with unique identifiers has unique identifiers |
| Records.RemoveKeepsUniqueIds | src/components/Home.tsx:96 | deleting keeps identifiers unique |
| Records.RemoveAfterReplace | src/components/Home.tsx:83-96 | updating a record and then deleting it equals deleting it directly |
| Home.SaveToast | src/components/Home.tsx:43-90 | every attempted save raises a notification, except one with no target; a failed check shows that check's message, a successful update "Restaurant Edited!" as a success, a failed update "Failed to update restaurant" as an error |
| Home.RequestFor | src/components/Home.tsx:61-81 | the update goes to the target's identifier and carries a file exactly when one was selected |
| Home.SaveAttempt | src/components/Home.tsx:34-90 | no target: nothing happens; a failed edit-chain check: that error, nothing sent; otherwise the request for the target is sent, and the save succeeds exactly when the update succeeded |
| Home.SentUpdateIsWellFormed | src/components/Home.tsx:43-81 | every update sent has non-blank fields, a ten-digit contact, and any file is a JPEG/PNG of at most 5 MB |
| Home.DeleteToast | src/components/Home.tsx:93-100 | a notification is raised exactly when the delete succeeded, and it is the "Restaurant deleted!" success; a failure is only logged |
| Home.Listing.constructor | src/components/Home.tsx:14-18 | the initial state: empty list, no target, modal closed, no preview |
| Home.Listing.Load | src/components/Home.tsx:20-26 | the local list becomes the fetched collection in the server's order; nothing else changes |
| Home.Listing.EditClick | src/components/Home.tsx:28-32 | the record becomes the target, the modal opens, the preview is the record's image, and the list is untouched |
| Home.Listing.CloseModal | src/components/Home.tsx:217 | the close and cancel buttons close the modal and change nothing else |
| Home.Listing.SaveChanges | src/components/Home.tsx:34-91 | the result is `SaveAttempt`; a save submitted while the modal is open always has a target; on success the list is `ReplaceById` of the old list, the modal is closed and the preview cleared; otherwise (no target, failed check, failed update) the state is unchanged |
| Home.Listing.DeleteClick | src/components/Home.tsx:93-101 | on success the list is `RemoveById` of the old list; on failure it is unchanged; the modal, target and preview never change |
| Home.EditThenDelete | src/components/Home.tsx:28-101 | on unique identifiers, load, edit and successful save keep the length, and a successful delete of that record shortens the list by one |
| AddForm.RefusalText | src/components/AddForm.tsx:68 | the refusal text is never empty: a non-empty server message if there is one, else (no message, or an empty one) "Failed to add restaurant" |
| AddForm.RequestFor | src/components/AddForm.tsx:49-53 | the upload carries the three fields untouched and the selected file |
| AddForm.SubmitAttempt | src/components/AddForm.tsx:14-76 | a create-chain failure sends nothing and reports that error; otherwise the upload is sent, and the result is Created on 201, Refused with `RefusalText` on another status, Errored on a throw |
| AddForm.SubmitToast | src/components/AddForm.tsx:58-72 | exactly one notification per submit: the "Restaurant added successfully!" success exactly on 201, and the message of each failure path as an error |
| AddForm.SentUploadIsWellFormed | src/components/AddForm.tsx:15-53 | every upload sent has non-blank fields, a ten-digit contact, and a JPEG/PNG file of at most 5 MB |
| AddForm.SentUploadPassesEditChain | src/components/AddForm.tsx:15-45 | every upload sent would also pass the edit modal's chain |
| AddForm.CreateForm.constructor | src/components/AddForm.tsx:7-11 | the initial form: empty fields, no file, not loading, no preview |
| AddForm.CreateForm.SetName | src/components/AddForm.tsx:152 | typing sets the name field |
| AddForm.CreateForm.SetLocation | src/components/AddForm.tsx:169 | typing sets the location field |
| AddForm.CreateForm.SetContact | src/components/AddForm.tsx:186 | typing sets the contact field |
| AddForm.CreateForm.ChooseFile | src/components/AddForm.tsx:100-101 | picking a file sets the file input's selection |
| AddForm.CreateForm.BeginSubmit | src/components/AddForm.tsx:14-53 | a failed check leaves `loading` as it was and sends nothing; a passed one sets `loading` and yields the upload for the form's values |
| AddForm.CreateForm.FinishSubmit | src/components/AddForm.tsx:55-75 | on 201 the fields become empty and the file and preview are cleared; otherwise they are kept; `loading` ends false in every case |
| AddForm.CreateForm.HandleSubmit | src/components/AddForm.tsx:14-76 | the result is `SubmitAttempt` on the form's values, and the notification is `SubmitToast` of it; a rejected draft changes nothing; after any upload `loading` is false, and the form is reset exactly on 201 |
| AddForm.CreateThenResubmit | src/components/AddForm.tsx:57-66 | after a 201 the form is empty, so an immediate resubmit is refused for the blank name |

## Left out

- Rendering: JSX markup, CSS, and the search, sort and pagination controls, which are inert.
- Notifications: only the kind and text of the toast are modelled. Position, duration and display are not.
- Image preview reads: the asynchronous `FileReader` reads in src/components/Home.tsx:227-236 and src/components/AddForm.tsx:100-109. They race without cancellation. The create form's `preview` is only cleared on 201, and the edit modal's preview is set by `EditClick` and cleared by a successful save.
- The HTTP client in `api calls/api_services.ts` is not part of this model. Its four calls appear only as outcome parameters. Which statuses it turns into a thrown error is also left to it, so any status is accepted as a `Responded` outcome.
- The response envelope: the fetched list and the updated record are taken as given. The shape `response.data.data` is not checked.
- Building the `FormData` payload: only its contents are modelled (the three fields, and the file when one is present).
- Console logging on failed updates and deletes.
- Routing (`src/App.tsx`) and the static header (`src/components/Header.tsx`) hold no logic.
- Interleaving of concurrent handlers: each handler runs to completion. The model does not capture one awaited request overlapping another handler, such as a delete that lands while a save is in flight.
