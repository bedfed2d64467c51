# Valve inspection core, modelled in Dafny

This project models the logic inside a web application that tracks pressure
safety valves (PSVs) and their inspections. The application is mostly forms
over a hosted database. The model covers its four pieces that hold logic of
their own:

- **The inspection wizard** (`InspectionForm`, `inspection_form.dfy`). It has
  an information step (0) followed by seven photo steps (1 to 7), one per
  stage of the valve: arrival, dismantled, disc, nozzle, bonnet, finished,
  seal. Leaving step 0 creates the inspection record. Pressing "next" on the
  last photo step finalises the inspection. Finalising sends the component
  rows, then the action rows, then the completion update, and each request
  goes out whatever became of the ones before. The component records and the
  required-action list are edited on the client: add, update and remove for
  components, toggle for actions.
- **The test sub-flow** (`TestFlow`, `test_flow.dfy`). It holds the ±3%
  tolerance band around the cold differential test pressure (CDTP), the
  approval rule (only the third opening-pressure trial can reject), and the
  two-step navigation that hands control back to the enclosing wizard. It
  also holds the video path stored per test type and the two back-pressure
  check boxes.
- **The photo panel** (`PhotoUpload`, `photo_upload.dfy`). It holds the
  guideline table with its fallback and the gallery of uploaded photos. The
  wizard renders one panel for all seven photo steps and only changes the
  step it is given, so one gallery serves every step. A batch upload
  appends the files that succeeded, in input order. Removing a photo or
  editing its caption touches the gallery only after the database call
  succeeds.
- **The valve service** (`ValveService`, `valve_service.dfy`). It covers the
  cleaning of a new valve's payload, the search filter of the valve list,
  the company filter of the plant list, and how backend errors are passed on.

Every database or storage call is abstracted. Its outcome (success, a new
id, a URL) is a parameter of the operation that makes the call. Where the
source changes state in place (the wizard, the sub-flow, the gallery), the
model is a class whose methods update its fields. Each such method is tied
to pure functions, and the properties are proved as lemmas about those
functions. `common.dfy` holds `Option`/`Result` and JavaScript truthiness.
`text.dfy` holds the two string built-ins the code relies on: `trim` and
`split(sep).pop()`.

Some facts the proofs establish about the code as written:

- `handleNext` finalises at step 7. The step therefore never exceeds 7, and
  the component/action view, which is rendered only at step 8, is never
  shown (`ComponentsViewUnreachable`, `Wizard.ViewsOfValidState`). A
  fresh wizard on which only "next" is pressed therefore sends empty
  component and action inserts whenever it finalises (`PressNextOnly`).
  That this is what the interface does rests on the wiring of
  `InspectionForm.tsx`: the handlers that edit the two lists are attached
  only in the step-8 view (lines 348-457). The model's `AddComponent`,
  `ToggleAction` and the others can be called at any step.
- Clearing the "approved" back-pressure box records `false`, which asks for
  a rejection note, just as ticking "rejected" does (`BackPressureBoxes`).
- A CDTP of 0 or one that does not parse is stored as `null` when the
  inspection is created (`StoredCdtp`). The same CDTP text, parsed again
  by the test sub-flow from its own configuration, also gives the test band
  [0, 0] (`MissingCdtpBand`).
- An empty `tag` is dropped from the valve payload, although the payload
  type requires a `tag` (`EmptyTagDropped`).
- The photo panel keeps its gallery when the wizard moves to the next photo
  step (`Gallery.ShowStep`), so the gallery of step k also lists the photos
  of earlier steps. Removal rebuilds the storage path under the step shown
  at removal time, so it finds the stored file exactly when that is the
  step the file was uploaded under (`RemovalPathRoundTrip`). A photo taken
  at arrival and removed at the dismantled step leaves its file in storage
  (`StaleRemovalPath`).
- The drop handler is created once, on the panel's first render, so files
  dropped on the upload area are stored and recorded under the first photo
  step (`chegada`), whatever step is shown. Files picked in the file dialog
  use the current step (`Gallery.UploadFiles`).
- The search text goes into the `or(...)` filter unquoted. A search with a
  comma has its comma written four times, so the backend reads more than
  the four intended conditions (`OrFilterCommas`, `CommaInSearch`).

`src/components/valves/InspectionForm.tsx` has no mode-selection step, no
tests branch and no delete transition. The inspection is created on
leaving step 0 and finalised at the last photo step. The band is labelled
in the interface as the ASME BPVC Section XIII tolerance, but the code
applies a flat ±3% with no separate rule for low pressures, and so does the
model.

## Model

| member | source | states |
|---|---|---|
| Text.TrimStart | src/services/ValvulasService.ts:9-10 | what is cut from the front of a search is whitespace, the rest is a suffix that does not start with whitespace |
| Text.TrimEnd | src/services/ValvulasService.ts:9-10 | what is cut from the end is whitespace, the rest is a prefix that does not end with whitespace |
| Text.TrimEmptyIff | src/services/ValvulasService.ts:9 | `trim` gives the empty string exactly for empty or all-whitespace input |
| Text.TrimIsSlice | src/services/ValvulasService.ts:10 | the trimmed search is a contiguous slice of the input, with only whitespace cut away on both sides and no whitespace at either end |
| Text.TrimIdempotent | src/services/ValvulasService.ts:10 | trimming twice equals trimming once |
| Text.Trim | src/services/ValvulasService.ts:9-10 | `search.trim()`: whitespace cut from the end of what is left after cutting it from the front (properties in the three lemmas below) |
| Text.LastPiece | src/components/valves/PhotoUpload.tsx:143 | `split('.').pop()` gives the suffix after the last separator, which holds no separator, or the whole name when it has none |
| Text.LastPieceAfterSeparator | src/components/valves/TestFlow.tsx:59-60 | the text before the last separator does not affect `pop` |
| ValveService.Kept | src/services/ValvulasService.ts:22 | the filter test: a value is sent unless it is `undefined` or `''` |
| ValveService.Clean | src/services/ValvulasService.ts:21-23 | an entry is kept exactly when its value is neither `undefined` nor `''` |
| ValveService.CleanAppend | src/services/ValvulasService.ts:21-23 | cleaning works entry by entry, so kept entries keep their relative order |
| ValveService.CleanIdempotent | src/services/ValvulasService.ts:21-23 | a cleaned payload is unchanged by cleaning it again |
| ValveService.CleanDistinctKeys | src/services/ValvulasService.ts:21-23 | cleaning a payload with distinct keys leaves distinct keys, so the inserted object keeps each kept key and value |
| ValveService.CleanKeepsFalsyValues | src/services/ValvulasService.ts:22 | `null`, `0` and `false` survive cleaning; `undefined` and `''` are dropped |
| ValveService.EmptyTagDropped | src/services/ValvulasService.ts:19-23 | an empty-string `tag` leaves no `tag` in the inserted payload |
| ValveService.SearchPattern | src/services/ValvulasService.ts:9-10 | there is no pattern exactly when the search is absent or all whitespace; otherwise it is `%` + the trimmed search + `%` |
| ValveService.AllLike | src/services/ValvulasService.ts:11 | one `ilike` filter per column, in column order, all with the same pattern |
| ValveService.ILikeText | src/services/ValvulasService.ts:11 | one condition of the `or(...)` argument, `<column>.ilike.<pattern>` |
| ValveService.OrFilterText | src/services/ValvulasService.ts:11 | the `or(...)` argument as the source builds it: the four conditions joined with `,`, the pattern written in unquoted |
| ValveService.JoinFourLike | src/services/ValvulasService.ts:11 | four `ilike` filters with one pattern, joined with `,`, give the four conditions in order |
| ValveService.OrFilterOfQuery | src/services/ValvulasService.ts:6-12 | for every search that gives a pattern, the filters of `ValvulasQuery` joined with `,` are exactly the `or(...)` argument |
| ValveService.OrFilterCommas | src/services/ValvulasService.ts:11 | the argument has 3 + 4k commas for a pattern with k commas, so it holds just the three separators exactly when the search has no comma |
| ValveService.CommaInSearch | src/services/ValvulasService.ts:9-11 | the search `a,b` gives the pattern `%a,b%`, and the argument then has 7 commas instead of 3 |
| ValveService.ValvulasQuery | src/services/ValvulasService.ts:6-12 | the valve list is ordered newest first and filtered on tag, manufacturer, model and serial number exactly when there is a search pattern (the intended reading of the `or(...)` argument, see "Left out") |
| ValveService.PlantasQuery | src/services/ValvulasService.ts:47-49 | the plant list is ordered by name and filtered by company exactly when a non-empty company id is given |
| ValveService.SettleList | src/services/ValvulasService.ts:14-16 | a backend error is passed on unchanged, otherwise the rows are returned, with `null` read as the empty list |
| ValveService.SettleOne | src/services/ValvulasService.ts:25-32 | a backend error on insert is passed on unchanged, otherwise the returned row is |
| TestFlow.CdtpValue | src/components/valves/TestFlow.tsx:41 | the parsed CDTP, or 0 when it does not parse (`parseFloat` falling back to 0) |
| TestFlow.ToleranceMin | src/components/valves/TestFlow.tsx:42 | the lower end of the band, 97% of the CDTP |
| TestFlow.ToleranceMax | src/components/valves/TestFlow.tsx:43 | the upper end of the band, 103% of the CDTP |
| TestFlow.IsTestApproved | src/components/valves/TestFlow.tsx:45-47 | a reading is approved when it lies in the band, both ends included (characterised by the next lemmas) |
| TestFlow.ApprovedWithinThreePercent | src/components/valves/TestFlow.tsx:41-47 | for a non-negative CDTP, a reading is approved exactly when it is within 3% of the CDTP, both ends included |
| TestFlow.BandNonEmptyIff | src/components/valves/TestFlow.tsx:42-47 | some reading is approved exactly when the CDTP is non-negative |
| TestFlow.MissingCdtpBand | src/components/valves/TestFlow.tsx:41-47 | with an unparsable CDTP, only 0 is approved |
| TestFlow.BandAtTen | src/components/valves/TestFlow.tsx:42-47 | with CDTP 10 the band is [9.70, 10.30]: 9.70 and 10.30 pass, 9.69 and 10.31 fail |
| TestFlow.ApprovalStatus | src/components/valves/TestFlow.tsx:49-55 | the status is false exactly when the opening-pressure test is selected and trial 3 is set, non-zero and outside the band |
| TestFlow.FirstTrialsIgnored | src/components/valves/TestFlow.tsx:49-55 | trials 1 and 2 never change the status |
| TestFlow.Indicator | src/components/valves/TestFlow.tsx:179-193 | the mark under trial 3: shown only for the opening-pressure test with a set, non-zero trial 3, reading approved exactly when it is in the band |
| TestFlow.StatusMatchesIndicator | src/components/valves/TestFlow.tsx:179-193 | the status is false exactly when the mark under trial 3 reads "Reprovado" |
| TestFlow.RejectedThirdTrial | src/components/valves/TestFlow.tsx:49-55 | with CDTP 16 the band is [15.52, 16.48], and trials 15.8, 15.9, 16.5 are rejected |
| TestFlow.AfterApprovedBox | src/components/valves/TestFlow.tsx:224-228 | the readings after the "approved" box is ticked or cleared: the result is the box's value |
| TestFlow.AfterRejectedBox | src/components/valves/TestFlow.tsx:236-241 | the readings after the "rejected" box is ticked or cleared: `false` or unset |
| TestFlow.NoteShown | src/components/valves/TestFlow.tsx:249-259 | the rejection note is asked for exactly when the back-pressure result is `false` |
| TestFlow.BackPressureBoxes | src/components/valves/TestFlow.tsx:224-249 | ticking "rejected" asks for a note and clearing it does not; the "approved" box asks for a note exactly when cleared; no other reading changes |
| TestFlow.VideoPath | src/components/valves/TestFlow.tsx:59-60 | `<inspectionId>/videos/<testType>/<timestamp>.<ext>` (shape proved in the next lemma) |
| TestFlow.VideoPathShape | src/components/valves/TestFlow.tsx:59-60 | a video path starts with `<inspectionId>/videos/<testType>/` and ends with the file's extension |
| TestFlow.Flow.constructor | src/components/valves/TestFlow.tsx:37-39 | the sub-flow starts at step 1 with no readings and no videos |
| TestFlow.Flow.Cdtp | src/components/valves/TestFlow.tsx:41 | the CDTP of this sub-flow's configuration, as `CdtpValue` reads it |
| TestFlow.Flow.Approved | src/components/valves/TestFlow.tsx:49-55 | the status for the current readings, as `ApprovalStatus` gives it |
| TestFlow.Flow.HandleNext | src/components/valves/TestFlow.tsx:73-79 | step 1 goes to 2, and at 2 the wizard is told to finish with the step unchanged; readings are not checked |
| TestFlow.Flow.HandlePrevious | src/components/valves/TestFlow.tsx:81-87 | step 2 goes to 1, and at 1 the wizard is told to go back with the step unchanged |
| TestFlow.Flow.HandleVideoUpload | src/components/valves/TestFlow.tsx:57-71 | one path per test type: the new path replaces any earlier one for that type and other types are unchanged |
| TestFlow.Flow.CheckApprovedBox | src/components/valves/TestFlow.tsx:224-228 | the back-pressure result becomes the box's checked value |
| TestFlow.Flow.CheckRejectedBox | src/components/valves/TestFlow.tsx:236-241 | the back-pressure result becomes `false` when ticked and unset when cleared |
| PhotoUpload.GuidelineFor | src/components/valves/PhotoUpload.tsx:108-111 | a known step id gets its table entry, any other step its name with the single generic instruction |
| PhotoUpload.GuidelineHasInstructions | src/components/valves/PhotoUpload.tsx:28-111 | every step gets at least one instruction |
| PhotoUpload.StoragePath | src/components/valves/PhotoUpload.tsx:143-144 | `<inspectionId>/<stepId>/<stamp>.<ext>`, with `ext` the text after the file name's last `.` |
| PhotoUpload.StoragePathShape | src/components/valves/PhotoUpload.tsx:143-144 | a stored file lies under `<inspectionId>/<stepId>/` and keeps the file name's extension |
| PhotoUpload.RemovalPathRoundTrip | src/components/valves/PhotoUpload.tsx:204-208 | when stamp and extension hold no `/`, the path removal rebuilds under the step shown at removal is the upload path exactly when that step is the upload step |
| PhotoUpload.RebuiltPath | src/components/valves/PhotoUpload.tsx:204-208 | rebuilding `<front>/<step>/<tail>` from its last `/`-piece under another step gives the same path exactly when the steps agree |
| PhotoUpload.StaleRemovalPath | src/components/valves/PhotoUpload.tsx:204-208 | a file uploaded at `chegada` and removed while the panel shows `desmontada` is not the file removal asks for |
| PhotoUpload.BatchPaths | src/components/valves/PhotoUpload.tsx:143-144 | one storage path per file of a batch, built from the inspection, the step, the file's stamp and its name |
| PhotoUpload.Uploaded | src/components/valves/PhotoUpload.tsx:171-184 | a batch yields at most one photo per file, each with an empty description and the name of a file of the batch |
| PhotoUpload.UploadedAppend | src/components/valves/PhotoUpload.tsx:141-184 | the photos of two batches joined are the photos of each, in order |
| PhotoUpload.FailureIsIsolated | src/components/valves/PhotoUpload.tsx:177-184 | one failed file removes only its own photo; its siblings are added as if it were absent |
| PhotoUpload.AllSaved | src/components/valves/PhotoUpload.tsx:171-184 | when every file is saved, photo `i` carries file `i`'s name and the id and URL it was saved under |
| PhotoUpload.Removed | src/components/valves/PhotoUpload.tsx:211 | a photo remains exactly when it was there and has another id |
| PhotoUpload.RemovedAppend | src/components/valves/PhotoUpload.tsx:211 | removal works photo by photo over joined galleries, so remaining photos keep their order and repetitions |
| PhotoUpload.RemovedAbsent | src/components/valves/PhotoUpload.tsx:211 | removing an id no photo carries leaves the gallery as it was |
| PhotoUpload.Described | src/components/valves/PhotoUpload.tsx:228-230 | only the description of photos with the given id changes; length, order and other photos are kept |
| PhotoUpload.RemoveAfterDescribe | src/components/valves/PhotoUpload.tsx:211-230 | editing a photo's caption and then removing it leaves the gallery that the removal alone leaves |
| PhotoUpload.Gallery.constructor | src/components/valves/PhotoUpload.tsx:104-105 | a new panel shows its first step, has an empty gallery and is not uploading |
| PhotoUpload.Gallery.ShowStep | src/components/valves/InspectionForm.tsx:341-346 | moving to another photo step changes only the step shown; the gallery and the uploading flag are kept |
| PhotoUpload.Gallery.BeginUpload | src/components/valves/PhotoUpload.tsx:137-140 | an empty batch changes nothing; otherwise the panel shows that it is uploading |
| PhotoUpload.Gallery.CompleteUpload | src/components/valves/PhotoUpload.tsx:184-186 | the saved photos are appended after the previous ones, in input order, the paths are those of the given step, and uploading stops |
| PhotoUpload.Gallery.UploadFiles | src/components/valves/PhotoUpload.tsx:123-191 | a batch is stored and recorded under the current step from the dialog and under the first step from a drop; an empty batch changes nothing; otherwise photos become the old list followed by the saved uploads, and uploading ends false |
| PhotoUpload.Gallery.RemovePhoto | src/components/valves/PhotoUpload.tsx:193-217 | the photos with that id leave the gallery only after the database delete succeeds (and the URL parses); otherwise nothing changes |
| PhotoUpload.Gallery.UpdatePhotoDescription | src/components/valves/PhotoUpload.tsx:219-235 | the description changes only after the database update succeeds; otherwise nothing changes |
| InspectionForm.StepsHaveGuidelines | src/components/valves/InspectionForm.tsx:341-346 | every photo stage of the wizard has its own guideline entry |
| InspectionForm.NextStep | src/components/valves/InspectionForm.tsx:167-178 | the step one press leaves: unchanged on a failed creation at 0, one more below 7, unchanged at 7 (bounds in `NextStepBounds`) |
| InspectionForm.StepAfter | src/components/valves/InspectionForm.tsx:167-178 | the step after a run of presses from a fresh wizard |
| InspectionForm.PhotoPanelShown | src/components/valves/InspectionForm.tsx:341 | the panel shows on steps 1 to 7 once a truthy inspection id exists |
| InspectionForm.ComponentsViewShown | src/components/valves/InspectionForm.tsx:348 | the component/action view shows at step 8 only |
| InspectionForm.NextStepBounds | src/components/valves/InspectionForm.tsx:167-178 | a press never lowers the step, raises it by at most one, never passes 7, and leaves it unchanged only when creation fails at step 0 or at step 7 |
| InspectionForm.ComponentsViewUnreachable | src/components/valves/InspectionForm.tsx:173-177 | after any run of presses the step is at most 7, so the view that needs step 8 is never shown |
| InspectionForm.SuccessfulPresses | src/components/valves/InspectionForm.tsx:167-178 | with creation succeeding, k presses reach step min(k, 7) |
| InspectionForm.WithNewComponent | src/components/valves/InspectionForm.tsx:180-190 | one record is appended after the others, with exactly the seven fields, all empty |
| InspectionForm.WithComponentField | src/components/valves/InspectionForm.tsx:192-196 | one field of one record takes the value; every other field and record is kept |
| InspectionForm.WithoutIndex | src/components/valves/InspectionForm.tsx:198-200 | a valid index drops exactly that record, keeping the others in order; any other index changes nothing |
| InspectionForm.Without | src/components/valves/InspectionForm.tsx:205 | the action is gone, every other action's membership is kept, and no duplicate appears |
| InspectionForm.Toggled | src/components/valves/InspectionForm.tsx:202-208 | toggling flips the membership of that action and of no other |
| InspectionForm.ToggledNoDuplicates | src/components/valves/InspectionForm.tsx:202-208 | toggling keeps the action list free of duplicates |
| InspectionForm.WithoutAbsent | src/components/valves/InspectionForm.tsx:205 | removing an action that is not listed changes nothing |
| InspectionForm.ToggleTwice | src/components/valves/InspectionForm.tsx:202-208 | toggling twice restores membership, and for an unlisted action restores the list itself |
| InspectionForm.WithoutAppend | src/components/valves/InspectionForm.tsx:204-206 | removing an action that was just appended gives back the list before it |
| InspectionForm.StoredCdtp | src/components/valves/InspectionForm.tsx:80 | the CDTP is stored exactly when it parses to a non-zero number, and then as that number |
| InspectionForm.InspectionRowOf | src/components/valves/InspectionForm.tsx:74-86 | the inserted inspection row: valve, technician and the form's fields, with the CDTP as `StoredCdtp` gives it |
| InspectionForm.ComponentRow | src/components/valves/InspectionForm.tsx:105-108 | `{ inspecao_id, ...comp }`: the record's fields over the inspection id |
| InspectionForm.ComponentRowCarriesId | src/components/valves/InspectionForm.tsx:105-108 | a saved component row has the seven fields plus the inspection id, with the record's values |
| InspectionForm.ComponentRows | src/components/valves/InspectionForm.tsx:105-108 | one row per record, in order |
| InspectionForm.ActionRows | src/components/valves/InspectionForm.tsx:126-129 | one row per action, in order, each carrying the inspection id |
| InspectionForm.FinishAttempts | src/components/valves/InspectionForm.tsx:143-158 | the component insert, the action insert and the completion update, each with its outcome |
| InspectionForm.FinishIsBestEffort | src/components/valves/InspectionForm.tsx:143-158 | finalising sends three requests; the last is always the completion update with approval true, whatever the outcome of the first two; none re-inserts the inspection; there is one component row per record and one action row per action, each carrying the id |
| InspectionForm.Wizard.constructor | src/components/valves/InspectionForm.tsx:50-65 | a new wizard is at step 0 with no id, no components and no actions |
| InspectionForm.Wizard.CreateInspection | src/components/valves/InspectionForm.tsx:68-99 | called at step 0 only; without a valve or a user nothing is sent; otherwise the row is inserted and the id is stored only when the insert returns one; validity is kept |
| InspectionForm.Wizard.FinishInspection | src/components/valves/InspectionForm.tsx:143-165 | without an id nothing is sent; otherwise all three requests go out regardless of earlier failures, and the wizard closes exactly when the completion update succeeds |
| InspectionForm.Wizard.HandleNext | src/components/valves/InspectionForm.tsx:167-178 | at step 0 the step moves only when creation returns a truthy id; below 7 it goes up by one; at 7 the inspection is finalised and the step stays; validity is kept |
| InspectionForm.Wizard.AddComponent | src/components/valves/InspectionForm.tsx:180-190 | the component list gains one empty record at the end |
| InspectionForm.Wizard.UpdateComponent | src/components/valves/InspectionForm.tsx:192-196 | one field of one record changes |
| InspectionForm.Wizard.RemoveComponent | src/components/valves/InspectionForm.tsx:198-200 | the record at the index is removed |
| InspectionForm.Wizard.ToggleAction | src/components/valves/InspectionForm.tsx:202-208 | an offered action is toggled; the list stays free of duplicates and holds only offered actions |
| InspectionForm.Created | src/components/valves/InspectionForm.tsx:167-170 | for each press, whether `createInspection` would return a truthy id: a valve, a user and a truthy inserted id |
| InspectionForm.PressNextOnly | src/components/valves/InspectionForm.tsx:143-178 | a fresh wizard driven only by "next" reaches `StepAfter` of the presses, and every finalisation it performs inserts no component row and no action row |
| InspectionForm.Wizard.ViewsOfValidState | src/components/valves/InspectionForm.tsx:341-348 | in every reachable state, the photo panel shows exactly on steps 1 to 7 and the component/action view never |

## Left out

- Database and storage calls, toasts and console logging: each remote call is an outcome parameter, and the request it would send is a value.
- Concurrency of `uploadFiles`: the files of a batch are settled together, modelled as one map over the files in input order. Interleavings of two batches in flight are not modelled.
- Overlapping handlers: each method runs to completion before the next starts. A second press of "Próximo" while `createInspection` is pending (the button is never disabled, so two inspections can be inserted and one is orphaned), a second press at step 7 while `finishInspection` is pending (which sends its requests twice), and caption updates sent per keystroke whose answers arrive out of order (the gallery keeps whichever answers last) are not modelled.
- Floating point: readings and the CDTP are `real`, so rounding at the band edges is not captured. `parseFloat` is an abstract result, `None` for `NaN`.
- `Date.now()`, `Math.random()` and `new Date().toISOString()`: the stamps and the completion time are parameters.
- `new URL(photo.url).pathname.split('/').pop()` is a parameter of `RemovePhoto` (`None` when the URL does not parse); URL parsing and percent-encoding are not modelled.
- The result of the storage removal in `removePhoto` is not checked by the source, so the model only returns the path it asks to remove.
- Keystroke handlers that replace one field of the information form or one test reading (`setFormData`, the trial, bubble and note inputs): the form is a parameter of `HandleNext`, and readings are fields of `TestResults`.
- The drag-highlight state and the `inspectionType` wording of the photo panel: presentation only.
- The "Cancelar" and "Excluir Teste" buttons, and what the parent does with the `Finish`/`Back` signals: these call back into code that is not part of this model.
- `listEmpresas` and `deleteValvula`: only their error handling (`SettleList`, `SettleOne`) is modelled; their queries are plain selects and deletes.
- InspectionForm.Wizard.UpdateComponent: requires an index of a shown record and one of the seven field names, because the form only calls it that way. A JavaScript call with another index or an arbitrary field name (which could add keys, or override `inspecao_id` in the saved row) is not modelled.
- PhotoUpload.GuidelineFor: a step id that names a property every JavaScript object inherits (such as `constructor`) would hit that property instead of the fallback; step ids are not modelled as object property lookups.
- ValveService.ValvulasQuery: states the four `ilike` conditions the `or(...)` argument is meant to carry. For a search holding `,`, `(` or `)` the backend parses the unquoted argument differently or rejects the query, so `listValvulas` throws; PostgREST's parsing is not modelled, only the comma count (`OrFilterCommas`).
- The option lists of the component-name and condition selects (`InspectionForm.tsx:32-42`): a record's fields may hold any text in the model.
- Generated database types, plain CRUD forms, report templating, presentational pages and route guarding are outside the modelled core.
