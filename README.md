# Corporate Living: a Dafny model of the tenancy workflow

Corporate Living is a property-management web application. Admins manage houses, rooms, users and tenancies. Coordinators review move-out intentions and create inspections. Tenants announce their move-out with photos and confirm receipt of keys on move-in. The application is a front end over a hosted database and an authentication provider.

This project models the parts of it that make decisions or change data:

- the shared vocabulary (`Types`);
- the route guard (`Middleware`);
- the image compression ladder (`ImageCompression`);
- the tenancy, move-out, review, inspection and move-in actions;
- the house quick-setup wizard and the house pages and actions;
- user creation with its compensating delete;
- the login redirect, the dashboard navigation filter and the notification endpoint.

The hosted store is an in-memory `Database.Db`:

- Each table is a `seq` of rows in insertion order, so ordered reads stay deterministic functions.
- `nextId` hands out fresh row ids.
- `Db.Valid()` says that every row id is below `nextId` and that every ENDED tenancy has an end date.
- Every remote write takes a `fault: Option<string>`: `Some(msg)` is the store's error, and nothing is written.

Several things the code reads from outside become inputs:

- the signed-in user (`Option<string>`);
- a profile's role;
- clock and random values;
- whether the client or the service key is configured;
- the answers of the authentication provider and of the compression library.

Each page is a `class` whose fields are the page's state (form contents, flags, the last alert shown, the path navigated to). Its handlers are methods whose `ensures` give the new page state and the new store. Pure decisions (route guard, filters, record builders, validators) are functions, proved against lemmas about them.

An operation with two sequential writes states its effect through a ghost predicate, for example `TenantMoveOutPage.SubmitEffect` or `QuickSetupPage.SetupEffect`. The lemmas beside it draw the consequences: nothing is written without an active tenancy, the status changes only on full success, and a failed insert writes nothing. The intermediate state after the first write succeeds and the second fails is part of the model.

The model follows what the application's code does, including two places where the code is looser than its own vocabulary suggests:

- The code offers "Create Inspection" for every listed move-out intention, whatever its sign-off status. It creates the inspection without checking for a PENDING or APPROVED intention (`InspectionsPage.EveryIntentionOffered`).
- `getTenantPendingTenancy` lists a status "PENDING" that no tenancy status has (`TenantMoveInActions.PendingMatchesNoStatus`).

## Model

| member | source | states |
|---|---|---|
| Types.ParseRole | lib/types.ts:1 | a stored role reads as a role exactly when it is ADMIN, COORDINATOR or TENANT, and that role's name is the stored text |
| Types.ParseStatus | lib/types.ts:3-9 | exactly the six status names read as tenancy statuses, each as the status carrying that name |
| Types.TenancyStatusesAreSix | lib/types.ts:3-9 | there are six tenancy statuses; the list holds every status, each once |
| Types.StatusNameInjective | lib/types.ts:3-9 | two statuses with the same stored name are the same status |
| Types.ParseChecklistKey | lib/types.ts:114-124 | a text is a `ChecklistKey` exactly when it is the key of an entry of `CHECKLIST_ITEMS` |
| Types.KeyIndex | lib/types.ts:114-122 | every checklist key sits at some position of `CHECKLIST_ITEMS` |
| Types.ChecklistItemsShape | lib/types.ts:114-122 | `CHECKLIST_ITEMS` has seven entries with pairwise distinct keys, each at its own index |
| Types.KeyNameInjective | lib/types.ts:114-124 | distinct checklist keys have distinct names |
| Middleware.Decide | middleware.ts:5-81 | a redirect never targets the requested path; it goes only to /login or one of the three portals; only the signed-out redirect carries `redirectTo`, set to the requested path |
| Middleware.SignedOutProtectedGoesToLogin | middleware.ts:19-23 | a signed-out request for a non-public path other than "/" is redirected to /login with `redirectTo` set to the path |
| Middleware.SignedOutPassesIff | middleware.ts:9-23 | a signed-out request passes exactly when its path starts with /login or is "/" |
| Middleware.HomeRedirect | middleware.ts:43-48 | a signed-in user at "/" goes to their known role's portal; with a missing or unknown role "/" passes |
| Middleware.PrefixesExclusive | middleware.ts:51-78 | a path lies under at most one of /admin, /coordinator, /tenant, and none of them is "/" |
| Middleware.AdminGuard | middleware.ts:51-58 | under /admin only ADMIN passes; another known role goes to its portal, an unknown one to /tenant |
| Middleware.CoordinatorGuard | middleware.ts:61-68 | under /coordinator only COORDINATOR passes; another known role goes to its portal, an unknown one to /tenant |
| Middleware.TenantGuard | middleware.ts:71-78 | under /tenant only TENANT passes; another known role goes to its portal, an unknown one to /admin |
| Middleware.SignedInElsewherePasses | middleware.ts:26-81 | a signed-in request outside "/" and the three guarded prefixes passes unchanged |
| Middleware.OwnPortalPasses | middleware.ts:37-81 | every path under a role's own portal lets that role through |
| Middleware.OneRedirectSettles | middleware.ts:37-81 | for a known role every redirect goes to that role's portal, which the same user then passes |
| Middleware.LoginRedirectSettles | middleware.ts:9-23 | the login page a signed-out request is sent to is itself let through |
| Middleware.UnknownRoleBounces | middleware.ts:51-78 | a signed-in user with a missing or unknown role is sent from /tenant to /admin and from /admin back to /tenant |
| ImageCompression.RenameToWebp | lib/imageCompression.ts:103 | a name with a final ".ext" has that suffix, from its last ".", replaced by ".webp"; any other name is unchanged |
| ImageCompression.RenameEndsInWebp | lib/imageCompression.ts:103 | a renamed name ends in ".webp" |
| ImageCompression.TryCompression | lib/imageCompression.ts:84-111 | an attempt fails exactly when the library throws; otherwise it yields an image/webp file with the renamed name and the library's size |
| ImageCompression.CompressImage | lib/imageCompression.ts:30-79 | not an image: refused; a small WebP: returned unchanged; a small other type: one attempt with entry 0, unchecked; a large file: the answer of the ladder walk `LadderFrom` from entry 0, i.e. the first ladder result within 1 MiB, or a refusal when no entry fits |
| ImageCompression.LargeImageNeverOversized | lib/imageCompression.ts:47-78 | from any entry on, the ladder walk answers a WebP file within 1 MiB produced by the first fitting entry, and answers the "cannot reach the limit" refusal exactly when no remaining entry fits; with `CompressImage` this covers every large file |
| ImageCompression.ValidateImageFile | lib/imageCompression.ts:141-157 | valid exactly when the type starts with "image/" and its lower-case form is listed; a wrong prefix gives the "select only image files" error |
| ImageCompression.UpperCasePrefixRejected | lib/imageCompression.ts:125-157 | "IMAGE/PNG" is a listed type but fails validation, because the prefix test is case-sensitive; "image/PNG" passes |
| ImageCompression.ValidatedFilesAreImages | lib/imageCompression.ts:141-147 | a validated file passes the "File must be an image" check of `compressImage` |
| AdminTenancyActions.BuildInsertData | app/admin/tenancies/actions.ts:70-86 | the record is OCCUPIED with room, tenant and start date copied; end date only when non-empty; slot and price whenever given |
| AdminTenancyActions.RowFromInsert | app/admin/tenancies/actions.ts:88-91 | the stored row holds exactly the inserted record's columns (`InsertOf` reads them back), the store's id and time, and no keys received yet |
| AdminTenancyActions.CreateTenancy | app/admin/tenancies/actions.ts:48-103 | no service key or a store error: that error and no row; otherwise exactly one row appended under a fresh id: the OCCUPIED record built from the input, with the end date only when non-empty |
| AdminTenancyActions.EndRows | app/admin/tenancies/actions.ts:109-116 | the rows with that id become ENDED with today's date, whatever their status; every other row is unchanged |
| AdminTenancyActions.EndTenancy | app/admin/tenancies/actions.ts:105-128 | on success the table is `EndRows` of the old one and the result is the updated rows; on an error nothing changes |
| AdminTenancyActions.EndRowsKeepsEndedDated | app/admin/tenancies/actions.ts:109-115 | ending a tenancy keeps every ENDED row dated |
| AdminTenancyActions.EndRowsChangesNothingElse | app/admin/tenancies/actions.ts:111-115 | ending changes only the status and end date of the matching rows |
| AdminTenancyActions.FetchTenanciesAdmin | app/admin/tenancies/actions.ts:23-46 | the read succeeds exactly with a service key and no store error, and then gives all tenancies, a permutation of the table, newest created first; otherwise the missing-key or store error |
| AdminTenanciesPage.FindRoom | app/admin/tenancies/page.tsx:119 | `rooms.find`: the first room with that id, or none when no room has it |
| AdminTenanciesPage.BuildRequest | app/admin/tenancies/page.tsx:112-130 | the slot is sent exactly when the chosen room holds two and a slot was picked; end date and price exactly when their fields are non-empty |
| AdminTenanciesPage.StatusLabel | app/admin/tenancies/page.tsx:390 | the label is the status name with every underscore turned into a space and every other character kept in place |
| AdminTenanciesPage.StatusLabelsDistinct | app/admin/tenancies/page.tsx:390 | different statuses get different labels |
| AdminTenanciesPage.EndButtonFollowsBadge | app/admin/tenancies/page.tsx:382-401 | the End Tenancy button shows exactly on rows whose badge is not grey (every status but ENDED), and the badge is green exactly for OCCUPIED |
| AdminTenanciesPage.EndedRowHidesButton | app/admin/tenancies/page.tsx:155-177 | after ending a tenancy its row is grey and offers no End Tenancy button; every other row keeps its button as before |
| AdminTenanciesPage.TenanciesPage.constructor | app/admin/tenancies/page.tsx:14-22 | the form starts empty and hidden |
| AdminTenanciesPage.TenanciesPage.ToggleForm | app/admin/tenancies/page.tsx:201 | the button flips the form's visibility |
| AdminTenanciesPage.TenanciesPage.HandleSubmit | app/admin/tenancies/page.tsx:108-153 | success appends exactly the row built from the form's record (the slot only for a double room with a slot picked, end date and price only when filled in) under a fresh id, then resets and hides the form; an error with a message keeps the form and shows the message; an empty error message counts as success |
| AdminTenanciesPage.TenanciesPage.HandleEndTenancy | app/admin/tenancies/page.tsx:155-177 | declining the confirmation, or having no client, writes nothing; otherwise the tenancy is ended, or the error alert is shown and nothing changes |
| TenantMoveOutActions.ActiveTenancies | app/tenant/move-out/actions.ts:27-28 | exactly the caller's tenancies whose status is OCCUPIED |
| TenantMoveOutActions.FindActiveTenancy | app/tenant/move-out/actions.ts:14-29 | `.single()`: found exactly when one tenancy is the caller's and OCCUPIED, and then it is that one |
| TenantMoveOutActions.GetTenantActiveTenancy | app/tenant/move-out/actions.ts:5-32 | signed out: "Not authenticated" with no data; otherwise data or the store's error, never both |
| TenantMoveOutActions.OnlyOwnOccupiedTenancy | app/tenant/move-out/actions.ts:27-28 | another user's tenancy, or one in another status, is never returned |
| TenantMoveOutActions.UniqueActiveTenancyFound | app/tenant/move-out/actions.ts:14-31 | when exactly one of the caller's tenancies is OCCUPIED, it is returned with no error |
| TenantMoveOutPage.FileExtension | app/tenant/move-out/page.tsx:19 | the text after the last "." (which holds no "."), or the whole name when there is none |
| TenantMoveOutPage.PhotoPathShape | app/tenant/move-out/page.tsx:19-20 | a photo path lies in its tenancy's folder and ends with "." and the file's extension |
| TenantMoveOutPage.UploadedPathsAreAccepted | app/tenant/move-out/page.tsx:70-81 | one path per accepted upload, never more than there are files, each from an accepted file |
| TenantMoveOutPage.AllAcceptedAllUploaded | app/tenant/move-out/page.tsx:73-80 | when every upload is accepted, every file gets a path |
| TenantMoveOutPage.UrlsOf | app/tenant/move-out/page.tsx:31-36 | one public URL per stored path, the k-th URL being the photo bucket's public address of the k-th path |
| TenantMoveOutPage.ObjectsOf | app/tenant/move-out/page.tsx:22-24 | one stored object per path, the k-th object being the k-th path in the photo bucket |
| TenantMoveOutPage.UploadAll | app/tenant/move-out/page.tsx:73-81 | the URL list holds the accepted uploads' URLs in file order, and exactly those objects are added to storage |
| TenantMoveOutPage.NewIntention | app/tenant/move-out/page.tsx:85-94 | the intention is PENDING, for that tenancy and date, with notes null exactly when the field is empty, the two URL lists, and no sign-off yet |
| TenantMoveOutPage.FailureText | app/tenant/move-out/page.tsx:111 | the error's message, or the default when it is empty |
| TenantMoveOutPage.MoveOutPage.constructor | app/tenant/move-out/page.tsx:7-15 | flags false, form and photo lists empty |
| TenantMoveOutPage.MoveOutPage.ChooseKeyAreaPhotos | app/tenant/move-out/page.tsx:118-122 | a new selection replaces the key-area photos; no selection keeps them |
| TenantMoveOutPage.MoveOutPage.ChooseDamagePhotos | app/tenant/move-out/page.tsx:124-128 | a new selection replaces the damage photos; no selection keeps them |
| TenantMoveOutPage.MoveOutPage.EditForm | app/tenant/move-out/page.tsx:186-201 | the date and notes inputs set the form |
| TenantMoveOutPage.MoveOutPage.HandleSubmit | app/tenant/move-out/page.tsx:39-116 | the store changes as `SubmitEffect` says; the outcome's alert is shown; `submitted` is set only by a full success; loading and uploading end false |
| TenantMoveOutPage.SubmitEffect | app/tenant/move-out/page.tsx:46-105 | the effect of one submission on the store: no user or no unique OCCUPIED tenancy writes nothing; otherwise the accepted photos are stored, a failed insert adds no intention, and a successful one adds the PENDING intention and then changes the tenancy to MOVE_OUT_INTENDED unless the update fails |
| TenantMoveOutPage.Submit | app/tenant/move-out/page.tsx:46-105 | the lookup, the uploads and the two writes have exactly the effect `SubmitEffect` gives |
| TenantMoveOutPage.RecordIntention | app/tenant/move-out/page.tsx:84-104 | a failed insert writes nothing; a successful one appends the intention, then the tenancy becomes MOVE_OUT_INTENDED unless the update fails |
| TenantMoveOutPage.NothingWrittenWithoutActiveTenancy | app/tenant/move-out/page.tsx:48-66 | with no user, or without exactly one OCCUPIED tenancy of theirs, nothing is uploaded or written |
| TenantMoveOutPage.StatusChangesOnlyOnSuccess | app/tenant/move-out/page.tsx:96-107 | the tenancies change only on full success, and then the caller's active tenancy becomes MOVE_OUT_INTENDED next to a new PENDING intention for it |
| TenantMoveOutPage.FailedInsertWritesNoRow | app/tenant/move-out/page.tsx:85-96 | a failed intention insert leaves intentions and tenancies unchanged and is not a success |
| TenantMoveOutPage.UrlListsBounded | app/tenant/move-out/page.tsx:70-94 | each stored URL list of the new intention is no longer than its file list |
| MoveOutReviewsPage.Project | app/coordinator/move-out-reviews/page.tsx:96-108 | the intention is kept whole; the tenancy is cut to its id, tenant, room label and house name |
| MoveOutReviewsPage.Transform | app/coordinator/move-out-reviews/page.tsx:96-108 | null data gives no items; otherwise one projected item per fetched row, in order |
| MoveOutReviewsPage.ReloadShowsDecision | app/coordinator/move-out-reviews/page.tsx:96-186 | the list reloaded after a decision shows the decided intention with its notes, under the same tenancy and without review controls, and every other item exactly as before |
| MoveOutReviewsPage.ProjectForgetsOnlyCoordinators | app/coordinator/move-out-reviews/page.tsx:96-108 | two rows project alike exactly when they differ at most in the house's coordinator list |
| MoveOutReviewsPage.SignOffRows | app/coordinator/move-out-reviews/page.tsx:131-139 | the intention with that id gets the status, the reviewing coordinator, the time and the notes; every other row is unchanged |
| MoveOutReviewsPage.SignOffKeepsSubmission | app/coordinator/move-out-reviews/page.tsx:131-139 | a sign-off keeps the tenant's submission: id, tenancy, date, notes, photos |
| MoveOutReviewsPage.SignOffIdempotent | app/coordinator/move-out-reviews/page.tsx:131-139 | signing off twice with the same values equals signing off once |
| MoveOutReviewsPage.ReviewsPage.constructor | app/coordinator/move-out-reviews/page.tsx:56-59 | no intentions, no review open, empty notes |
| MoveOutReviewsPage.ReviewsPage.StartReview | app/coordinator/move-out-reviews/page.tsx:337 | opens the editor for that intention |
| MoveOutReviewsPage.ReviewsPage.EditNotes | app/coordinator/move-out-reviews/page.tsx:304 | the textarea sets the notes |
| MoveOutReviewsPage.ReviewsPage.CancelReview | app/coordinator/move-out-reviews/page.tsx:326-327 | cancel closes the editor and clears the notes |
| MoveOutReviewsPage.ReviewsPage.HandleDecision | app/coordinator/move-out-reviews/page.tsx:118-186 | blank notes: the prompt and no write; no user: nothing; a store error: the error alert; success: APPROVED or REJECTED with the reviewing coordinator, the time and the notes on that intention, the editor closed; the tenancy table is never in its frame |
| MoveOutReviewsPage.ReviewedItemLeavesPending | app/coordinator/move-out-reviews/page.tsx:294 | a reviewed intention is no longer PENDING, so it shows no review controls, and it carries the notes |
| InspectionsPage.ListedIntentions | app/coordinator/inspections/page.tsx:45-67 | every intention, a permutation of the table, latest submitted first |
| InspectionsPage.EveryIntentionOffered | app/coordinator/inspections/page.tsx:134-168 | every intention is listed with the button, whatever its sign-off status |
| InspectionsPage.ListedInspections | app/coordinator/inspections/page.tsx:23-43 | every inspection, a permutation of the table, newest first |
| InspectionsPage.DetailPath | app/coordinator/inspections/page.tsx:99 | the detail page lies under /coordinator/inspections/ and what follows that prefix is the inspection's id in decimal |
| InspectionsPage.DetailPathsDistinct | app/coordinator/inspections/page.tsx:99 | two different inspections never share a detail page |
| InspectionsPage.ActionLabel | app/coordinator/inspections/page.tsx:243 | "View" exactly for FINAL, "Edit" exactly for DRAFT |
| InspectionsPage.FailureText | app/coordinator/inspections/page.tsx:102 | the error's message, or the default when it is empty |
| InspectionsPage.InspectionsPage.constructor | app/coordinator/inspections/page.tsx:8-12 | no alert and no navigation yet |
| InspectionsPage.InspectionsPage.HandleCreateInspection | app/coordinator/inspections/page.tsx:69-104 | no client or no user: nothing written; a failed insert: no inspection and the tenancy untouched; otherwise one DRAFT inspection by the user for that tenancy and room, then the tenancy becomes MOVE_OUT_INSPECTION_DRAFT unless that unchecked update fails, and the page goes to the new inspection |
| InspectionsPage.StatusUpdateChangesTenancy | app/coordinator/inspections/page.tsx:92-96 | the status update does change a tenancy not yet in draft, so a failed update leaves a different store while the page still reports success |
| TenantMoveInActions.PendingMatchesNoStatus | app/tenant/move-in/actions.ts:29 | no tenancy status is named "PENDING" |
| TenantMoveInActions.IncomingStatuses | app/tenant/move-in/actions.ts:29 | the status filter admits exactly OCCUPIED and MOVE_IN_PENDING_SIGNATURE |
| TenantMoveInActions.GetTenantPendingTenancy | app/tenant/move-in/actions.ts:5-39 | signed out: "Not authenticated"; otherwise the caller's newest tenancy in an admitted status, or an error exactly when there is none |
| TenantMoveInActions.EndsNoLaterTotal | app/tenant/move-in/actions.ts:55 | the end-date order (NULL first, then latest) relates any two end dates |
| TenantMoveInActions.EndsNoLaterTrans | app/tenant/move-in/actions.ts:55 | the end-date order is transitive |
| TenantMoveInActions.LatestEnded | app/tenant/move-in/actions.ts:55-57 | none exactly for no rows; otherwise a row that comes first in the end-date order |
| TenantMoveInActions.IntentionsOf | app/tenant/move-in/actions.ts:68 | exactly the intentions of that tenancy |
| TenantMoveInActions.PreviousTenancy | app/tenant/move-in/actions.ts:50-57 | the room's ENDED tenancy that ended last, or none exactly when the room has no ENDED tenancy |
| TenantMoveInActions.GetPreviousTenantMoveOutPhotos | app/tenant/move-in/actions.ts:41-77 | signed out: "Not authenticated"; otherwise never an error; no previous tenancy or a failed read gives no data; data is the evidence of an intention of the previous tenancy |
| TenantMoveInActions.SingleIntentionGivesEvidence | app/tenant/move-in/actions.ts:64-76 | when the previous tenancy has exactly one intention, its photos and notes are returned |
| TenantMoveInActions.KeysRows | app/tenant/move-in/actions.ts:88-95 | rows that are not both that id and the caller's are unchanged; each matching row has keys received and the time set and no other column changed |
| TenantMoveInActions.ConfirmKeysReceived | app/tenant/move-in/actions.ts:79-102 | signed out: "Not authenticated" and no write; a store error: that error and no write; otherwise success and `KeysRows` |
| TenantMoveInActions.KeysOnlyOwnRow | app/tenant/move-in/actions.ts:88-95 | another id or another tenant's row keeps its key fields |
| TenantMoveInActions.NoMatchStillSucceeds | app/tenant/move-in/actions.ts:97-101 | success does not mean a row matched: with no matching row the table is unchanged |
| QuickSetupPage.UpdateRooms | app/admin/houses/quick-setup/page.tsx:43-47 | same length and tempIds; only the named field of drafts with that tempId changes |
| QuickSetupPage.WithoutTempId | app/admin/houses/quick-setup/page.tsx:39 | exactly the drafts with another tempId remain |
| QuickSetupPage.RemoveDropsAtMostOne | app/admin/houses/quick-setup/page.tsx:37-41 | with distinct tempIds a removal drops at most one draft |
| QuickSetupPage.RemoveNeverEmpties | app/admin/houses/quick-setup/page.tsx:37-41 | with distinct tempIds and more than one draft, removal never empties the list |
| QuickSetupPage.SharedTempIdEmptiesList | app/admin/houses/quick-setup/page.tsx:29-41 | two drafts added in the same millisecond share a tempId, and removing it empties the list |
| QuickSetupPage.NumberedRooms | app/admin/houses/quick-setup/page.tsx:49-57 | `count` drafts (none for a count below one) labelled "Room n+1" … "Room n+count", capacity 1 |
| QuickSetupPage.NumberedRoomsDistinct | app/admin/houses/quick-setup/page.tsx:53-55 | a batch's labels and tempIds are pairwise distinct |
| QuickSetupPage.HasLabelIsTrimTest | app/admin/houses/quick-setup/page.tsx:78 | a draft is labelled exactly when its trimmed label is not empty |
| QuickSetupPage.NamedRooms | app/admin/houses/quick-setup/page.tsx:77-78 | exactly the labelled drafts, no more than there are drafts |
| QuickSetupPage.RoomRowsFrom | app/admin/houses/quick-setup/page.tsx:79-83 | one row per draft, of the new house, with the draft's label and capacity |
| QuickSetupPage.FailureText | app/admin/houses/quick-setup/page.tsx:98 | the error's message, or the default when it is empty |
| QuickSetupPage.QuickSetup.constructor | app/admin/houses/quick-setup/page.tsx:15-27 | step 1, empty house fields, one blank draft of capacity 1 with tempId "1" |
| QuickSetupPage.QuickSetup.EditHouse | app/admin/houses/quick-setup/page.tsx:163-175 | the step-1 inputs set the name and address |
| QuickSetupPage.QuickSetup.Next | app/admin/houses/quick-setup/page.tsx:187-291 | step 1 advances only with a name that is not blank, step 2 only with a labelled draft |
| QuickSetupPage.QuickSetup.Back | app/admin/houses/quick-setup/page.tsx:280-345 | back goes one step down and keeps the wizard's gating |
| QuickSetupPage.QuickSetup.AddRoom | app/admin/houses/quick-setup/page.tsx:29-35 | appends one blank draft of capacity 1 and keeps the others |
| QuickSetupPage.QuickSetup.RemoveRoom | app/admin/houses/quick-setup/page.tsx:37-41 | removes the drafts with that tempId only while there is more than one |
| QuickSetupPage.QuickSetup.UpdateRoom | app/admin/houses/quick-setup/page.tsx:236-247 | the label and capacity inputs apply `UpdateRooms` |
| QuickSetupPage.QuickSetup.AddMultipleRooms | app/admin/houses/quick-setup/page.tsx:49-59 | appends the numbered batch after the existing drafts, which are kept |
| QuickSetupPage.QuickSetup.HandleSubmit | app/admin/houses/quick-setup/page.tsx:61-102 | no client: nothing; otherwise the store changes as `SetupEffect` says with the labelled drafts, the alert reports the result, and success goes to the house's rooms page |
| QuickSetupPage.CreateHouseAndRooms | app/admin/houses/quick-setup/page.tsx:66-91 | a failed house insert writes nothing; otherwise the house is added, then its labelled rooms unless that insert fails |
| QuickSetupPage.SetupEffect | app/admin/houses/quick-setup/page.tsx:66-91 | the effect of a setup: a failed house insert writes nothing; otherwise the house is added active, and its labelled drafts become its rooms under consecutive ids unless the room insert fails, which leaves the house without rooms |
| QuickSetupPage.CreatedHouseHasNamedRooms | app/admin/houses/quick-setup/page.tsx:77-94 | a created house gets exactly as many rooms as there are labelled drafts, each pointing at it with a label that is not blank, and the alert counts them |
| QuickSetupPage.InsertRooms | app/admin/houses/quick-setup/page.tsx:85-88 | one bulk insert appends the rows under consecutive fresh ids |
| QuickSetupPage.SubmitAlwaysHasRooms | app/admin/houses/quick-setup/page.tsx:85-91 | on step 3 the wizard's gating leaves a labelled draft, so the room insert always runs: the setup is created exactly when that insert succeeds, and then with at least one new room |
| AdminHousesPage.EditHouseRows | app/admin/houses/page.tsx:50-53 | the house with that id takes the form's name and address; every other row is unchanged |
| AdminHousesPage.SetActive | app/admin/houses/page.tsx:78-81 | only the house with that id changes, and only its active flag |
| AdminHousesPage.ToggleTwiceRestores | app/admin/houses/page.tsx:74-81 | toggling a correctly shown flag twice restores the table |
| AdminHousesPage.FormOf | app/admin/houses/page.tsx:91 | the prefill is the name and the address, or "" when there is none |
| AdminHousesPage.UnchangedEditKeepsHouse | app/admin/houses/page.tsx:49-94 | saving the prefilled form unchanged keeps the house, except that a missing address becomes "" |
| AdminHousesPage.HousesPage.constructor | app/admin/houses/page.tsx:10-15 | empty hidden form and no house being edited |
| AdminHousesPage.HousesPage.ToggleForm | app/admin/houses/page.tsx:122 | the button flips the form's visibility |
| AdminHousesPage.HousesPage.EditForm | app/admin/houses/page.tsx:143-154 | the inputs set the name and address |
| AdminHousesPage.HousesPage.HandleSubmit | app/admin/houses/page.tsx:43-72 | with `editingId` set the house is updated, otherwise a new one is inserted; success clears, un-edits and hides the form; an error keeps it and shows the alert |
| AdminHousesPage.HousesPage.HandleToggleActive | app/admin/houses/page.tsx:74-88 | writes the opposite of the shown flag on that house only; an error changes nothing |
| AdminHousesPage.HousesPage.HandleEdit | app/admin/houses/page.tsx:90-94 | prefills the form, sets `editingId` and shows the form |
| AdminHousesPage.HousesPage.HandleCancelEdit | app/admin/houses/page.tsx:96-100 | empty fields, no house being edited, form hidden |
| DashboardHouseActions.Country | app/dashboard/houses/actions.ts:21 | never empty; "USA" exactly when the field is missing, empty or "USA"; any other text is kept |
| DashboardHouseActions.TotalRooms | app/dashboard/houses/actions.ts:22 | `parseInt(...) \|\| 0`: exactly the parsed number when the text parses, and 0 when it does not (a missing field or one without a digit) |
| DashboardHouseActions.TotalRoomsReadsNumber | app/dashboard/houses/actions.ts:22 | a total typed as a number is stored as that number; a missing one as 0 |
| DashboardHouseActions.RecordOf | app/dashboard/houses/actions.ts:43-52 | each column is the form's field, country and total normalised |
| DashboardHouseActions.UpdatedRows | app/dashboard/houses/actions.ts:54-57 | the house with that id takes the record's columns; id, active flag and creator stay, and other rows are unchanged |
| DashboardHouseActions.DeletedRows | app/dashboard/houses/actions.ts:72-75 | exactly the houses with another id remain |
| DashboardHouseActions.UpdateMatchesCreate | app/dashboard/houses/actions.ts:15-52 | update and create build the same columns from one form; only `created_by` differs |
| DashboardHouseActions.CreateHouse | app/dashboard/houses/actions.ts:7-38 | no user: redirect to /auth/login and no write; a store error is raised with no write; otherwise one house created by the user and a redirect to the list |
| DashboardHouseActions.UpdateHouse | app/dashboard/houses/actions.ts:40-67 | a store error is raised with no write; otherwise `UpdatedRows` and a redirect |
| DashboardHouseActions.DeleteHouse | app/dashboard/houses/actions.ts:69-84 | a store error is raised with no write; otherwise `DeletedRows` and a redirect |
| DashboardHouseActions.DeletedHouseIsGone | app/dashboard/houses/actions.ts:72-75 | after a delete no house carries that id |
| Strings.ParseInt | app/dashboard/houses/actions.ts:22 | `parseInt` of text without a decimal digit is NaN, and text without a minus sign never reads as a negative number |
| Strings.ParseIntOfNatToString | app/dashboard/houses/actions.ts:22 | `parseInt` reads a decimal numeral back as its number |
| Strings.ParseIntOfNegated | app/dashboard/houses/actions.ts:50 | `parseInt` reads a minus sign and a numeral as the negative number |
| Strings.ParseIntNaN | app/dashboard/houses/actions.ts:22-50 | "", "null" and "0x" do not parse, so the total falls back to 0 |
| Strings.TrimEmptyIffBlank | app/coordinator/move-out-reviews/page.tsx:119 | `trim()` is empty exactly for text made of white space |
| Database.Single | app/tenant/move-out/actions.ts:29 | `.single()` succeeds exactly on one row and returns it |
| Database.MaybeSingle | app/tenant/move-in/actions.ts:57 | `.maybeSingle()`: null for no row, the row for one, an error for several |
| Database.SetTenancyStatus | app/tenant/move-out/page.tsx:99-102 | the rows with that id take the status; every other row is unchanged |
| AdminUserActions.OrElse | app/admin/users/actions.ts:47 | `message \|\| fallback`: the message when it is not empty, otherwise the fallback |
| AdminUserActions.WithoutAuthUser | app/admin/users/actions.ts:68 | exactly the accounts with another id remain |
| AdminUserActions.CompensationRestores | app/admin/users/actions.ts:64-71 | deleting an account just added under a fresh id restores the accounts |
| AdminUserActions.Outcome | app/admin/users/actions.ts:13-78 | the result `createUser` returns: a crash is always a failure, a missing key returns the key message before anything else, every uncaught failure carries a message, and a created user is the one the provider opened |
| AdminUserActions.CreatedIffBothWritten | app/admin/users/actions.ts:45-73 | success with an id exactly when no crash, a key, a new account of that id, and a profile insert without error |
| AdminUserActions.FailuresCarryMessages | app/admin/users/actions.ts:21-77 | every failure has a message, except a caught `Error` whose message is empty |
| AdminUserActions.FailureLeavesNoAccount | app/admin/users/actions.ts:64-71 | with a fresh account id and a working delete, a failure leaves accounts and profiles as they were |
| AdminUserActions.CreateEffect | app/admin/users/actions.ts:39-71 | the effect on accounts and profiles: nothing unless an account was opened; then its profile is added too, or after a failed profile insert the account is deleted again when the delete works |
| AdminUserActions.CreateUser | app/admin/users/actions.ts:13-78 | the result follows the early returns; accounts and profiles change as `CreateEffect` says: nothing unless an account was opened, then the profile, or the compensating delete |
| AdminUsersPage.ValidationError | app/admin/users/page.tsx:57-63 | the missing-fields message exactly when a field is empty; the length message exactly when all are set and the password is shorter than 6; otherwise none |
| AdminUsersPage.OnlyEmptyCaughtErrorLooksLikeSuccess | app/admin/users/page.tsx:66-70 | the page reports no error exactly for a created user or a caught error with an empty message |
| AdminUsersPage.UsersPage.constructor | app/admin/users/page.tsx:11-20 | empty form with role TENANT, hidden, no messages |
| AdminUsersPage.UsersPage.OpenForm | app/admin/users/page.tsx:114-118 | "Create User" shows the form |
| AdminUsersPage.UsersPage.EditForm | app/admin/users/page.tsx:149-198 | the inputs, enabled only while not submitting, set the form |
| AdminUsersPage.UsersPage.HandleSubmit | app/admin/users/page.tsx:49-87 | a validation error is shown and `createUser` is not called; a refusal is shown and the form kept; otherwise the success message, the reset and closed form, and the load error if the refresh fails; never left submitting |
| AdminUsersPage.UsersPage.SuccessTimeout | app/admin/users/page.tsx:80 | the timeout clears the success message |
| AdminUsersPage.UsersPage.HandleCancel | app/admin/users/page.tsx:89-93 | empty form, hidden, no error |
| LoginPage.RouteForRole | app/login/page.tsx:52-59 | /admin exactly for ADMIN, /coordinator exactly for COORDINATOR, /tenant otherwise |
| LoginPage.LoginAgreesWithGuard | app/login/page.tsx:52-59 | for each role the login picks the portal the route guard assigns |
| LoginPage.LandingPasses | app/login/page.tsx:52-62 | a user with a known role lands on a page the route guard lets through |
| LoginPage.ProfileRole | app/login/page.tsx:37-41 | a read error is returned; a found role is the role of a profile with that id |
| LoginPage.FoundProfileLandsOnPortal | app/login/page.tsx:37-59 | a profile whose id is unique leads to its role's portal |
| LoginPage.SingleMatch | app/login/page.tsx:40-41 | when one profile has the id, the lookup keeps just that one |
| LoginPage.LoginForm.constructor | app/login/page.tsx:10-13 | empty fields, not loading, no error |
| LoginPage.LoginForm.EditForm | app/login/page.tsx:120-135 | the inputs set the email and password |
| LoginPage.LoginForm.HandleLogin | app/login/page.tsx:15-70 | not configured: the message and no sign-in; a sign-in error: its message or the default, and no navigation; signed in: the portal of the profile's role, or /tenant when the lookup fails, then a refresh; never left loading |
| DashboardNav.FilteredNavigation | components/layout/DashboardNav.tsx:17-32 | the entries whose roles include the profile's role |
| DashboardNav.NoRoleNoItems | components/layout/DashboardNav.tsx:30-32 | no profile, no role or an unlisted role: no entries |
| DashboardNav.StaffSeeAll | components/layout/DashboardNav.tsx:17-24 | ADMIN and COORDINATOR see all six entries in order |
| DashboardNav.TenantSeesFour | components/layout/DashboardNav.tsx:17-24 | TENANT sees exactly Dashboard, Tenancies, Move-Outs and Inspections, in that order |
| DashboardNav.TenantKeepsShared | components/layout/DashboardNav.tsx:18-23 | TENANT keeps every entry open to all three roles |
| DashboardNav.TenantDropsStaff | components/layout/DashboardNav.tsx:19-20 | TENANT does not see Houses and Rooms |
| DashboardNav.AtMostOneActive | components/layout/DashboardNav.tsx:49-53 | the hrefs differ, so at most one entry is highlighted for any pathname |
| NotificationsRoute.Post | app/api/notifications/route.ts:10-55 | the status is always 200, 400 or 500; a `null` body, and a known type with missing or `null` data, throw and get 500 with the runtime's message or the default |
| NotificationsRoute.MissingDataIsServerError | app/api/notifications/route.ts:18-32 | an object with a known type and no data or `null` data gets 500 with the runtime's message or the default |
| NotificationsRoute.KnownTypeQueued | app/api/notifications/route.ts:18-46 | each of the three known types, with any data that is not null, is queued and the type echoed |
| NotificationsRoute.UnknownTypeRefused | app/api/notifications/route.ts:34-38 | any other or missing type gets 400 "Unknown notification type" |
| NotificationsRoute.SuccessOnlyForKnownTypes | app/api/notifications/route.ts:12-46 | success exactly for a parsed object with a known type and data that is not null, and then the echoed type is known |
| NotificationsRoute.UnparsableIsServerError | app/api/notifications/route.ts:48-53 | a body that is not JSON gets 500 with the parser's message or the default |

## Left out

- Joined columns of the list queries (room labels, tenant names, house names) are not modelled. The lists are the table's rows, ordered as the query orders them. Only the move-out review projection models a join, as a datatype of fetched rows.
- Row-level security and the per-coordinator filter of the review list (`house_coordinators`) are left out. The store answers every read.
- The list refreshes after a write are not modelled: `fetchHouses`, `fetchTenancies`, `fetchIntentions` and `fetchUsers` (only its failure message is modelled), along with `revalidatePath` and `router.refresh` (only recorded as a flag).
- Logging (`console.log`/`console.error`) is left out, as is the notification endpoint's placeholder output: it sends no email.
- Clock, randomness, UUIDs and ISO timestamps are parameters. Row ids are natural numbers from `Db.nextId`, not UUIDs. Ordering keys (`created_at`, `submitted_at`) are natural numbers. Dates compare lexicographically, which matches YYYY-MM-DD text.
- Database defaults are assumed: a new house is active and has total rooms 0, and a new intention's `submitted_at` and `created_at` are the insert time.
- Concurrency is left out. The two writes of the move-out submission, of inspection creation, of the quick setup and of `createUser` happen in sequence, and the state between them is visible.
- `toLowerCase` maps ASCII letters only. No other Unicode case mapping is modelled. White space for `trim` and `parseInt` is the full JavaScript set.
- Password length counts Dafny characters, not UTF-16 code units.
- `parseFloat` of the rental price is a parameter. `parseInt` is modelled on digit text without a range limit: no double rounding, no integer column range.
- `QuickSetupPage.NumberedRooms` reads the clock once per batch, where the source reads `Date.now()` on every iteration. The batch's tempIds are kept distinct by their index.
- `TenantMoveOutPage.UploadAll` takes the upload answers (stored or not, plus the random fragment) as inputs. File contents and `FormData` file values are not modelled.
- Tables are sequences, not maps, so that the order of ordered and `.single()` reads can be stated.
- The cascade of `deleteHouse` onto rooms and tenancies is not modelled; it is decided by the database schema, which is not part of this model.
- `AdminUserActions.CreateUser`: a crash is modelled only before the first write, where the server client is created. The result of the compensating `deleteUser` is a parameter, because the source does not read it.
- `NotificationsRoute.Post`: the message of the runtime `TypeError` is a parameter. JSON numbers, booleans and arrays are one value `JScalar`, because the route only distinguishes null, text and objects.
- A profile's role column is typed as one of the three roles (`ProfileRow.role`). The login and navigation take the role as text, so other text is still covered there.
- `DashboardNav`: each entry's role array is modelled as a set, because the filter uses only `includes`.
- `Middleware.Decide`: a role text naming an inherited property of a JavaScript object (such as "toString") is treated as an unknown role.
- `AdminHousesPage.FormOf`: a house without a name prefills "" where the source prefills null.
- The image library's quality factors are kept as whole percentages. `formatFileSize` and the reduction percentage only feed log lines and are left out.
- The middleware matcher regex is framework configuration and is left out.
- Checklist save and finalise, the move-in acknowledgement and signature record, and the transitions to MOVE_OUT_INSPECTION_FINAL and MOVE_IN_PENDING_SIGNATURE are left out: none of the modelled files implements them.
- Page rendering is left out beyond the flags and texts the handlers set. The UI-only predicates `AdminTenanciesPage.ShowEndButton`, `AdminTenanciesPage.StatusBadge`, `MoveOutReviewsPage.ShowReviewControls` and `DashboardNav.IsActive` are stated as predicates and used by the lemmas above.
