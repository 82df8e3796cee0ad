# Doctor worklist table — a Dafny model

This project models the logic of the doctor worklist table of a radiology
PACS web client (`DoctorWorklistTable`, `StudyRow` and `PatientEditModal`).
The table lists imaging studies, one row per study. Each row shows status
badges, formatted dates and fallback values for missing fields, and opens
modals (detailed view, report, notes, patient edit, timeline) owned by the
table.

The model has two layers.

- **Display rules (pure functions).** `StatusDisplay` covers the status
  badge colour and label. `DateFormat` covers `formatDate`/`formatTime`.
  `RowPresenter` holds the row predicates, the row class list and every
  cell's fallback chain, put together by `RenderRow`. `JsRuntime` writes
  out the JavaScript built-ins these rules rely on: truthiness, `||`,
  `String(n)` including `NaN`, `padStart`, `substring` and `charAt`. A
  decimal reader serves as the round-trip partner of `String(n)`.
- **State (classes).** `DoctorWorklistTable` holds the five modal tuples,
  updated by open handlers and close callbacks. `Render` selects among the
  loading, empty and populated views. `RenderProps` applies the default
  props, and `CommitRender` mounts or unmounts the modals with the view. `StudyRow` holds
  the download-popover toggle. `PatientEditModal` holds the form draft and
  the `loading` flag around the awaited save. The table owns the mounted
  form (`editForm`): it exists only while the patient edit is shown in the
  populated view, so hiding the edit or leaving that view discards the draft.
  `SubmitPatientEdit` puts the form and the table together as `handleSubmit`
  does.

Modules: `Wrappers` (wrappers.dfy), `JsRuntime` (js_runtime.dfy),
`StatusDisplay` (status_display.dfy), `DateFormat` (date_format.dfy),
`StudyRecord` (study_record.dfy), `RowPresenter` (row_presenter.dfy),
`PatientEdit` (patient_edit.dfy), `WorklistTable` (worklist_table.dfy).

## Behaviour as the code has it

The model follows the code in these places, even where a reader of the
component might expect something else:

- `new Date(...)` does not throw on bad input, so the `try`/`catch` in
  `formatDate`/`formatTime` never fires. A truthy input that does not parse
  is shown as `NaN/NaN/NaN` and `NaN:NaN:NaN`. Only a falsy input gives `-`
  (`FormatDate`, `FormatTime`).
- `handleSavePatientEdit` catches and logs a failed update, so the `await
  onSave(...)` in `handleSubmit` always resolves. `onClose()` then runs, and
  the patient-edit modal is hidden even when the update failed
  (`SubmitPatientEdit`).
- The draft prefill reads `study.clinicalHistory.clinicalHistory` whenever
  `typeof` says `object`. That includes `null`, which throws, so `Prefill`
  and `SyncWithProps` require a history that is not `null`. The row cell
  guards against `null` and shows `-`. A wrapper object without an inner
  field prefills `undefined`, not `''` (`PrefillHistory`).
- `StudyRow` receives `onEditPatient` but never calls it, and
  `onOpenOHIFReporting` is unused. No row action reaches the patient-edit
  tuple, which only `handleEditPatient` opens (`OnRowAction`).
- The status colours are not injective: the downloaded and the verified
  statuses share the green classes (`StatusColorCollisions`). The labels
  of the twelve known statuses are injective (`LabelsDistinct`), but the
  caption as a whole is not: an unknown status is shown as it is, so a
  status sent as `Verified` reads like `report_verified`, and one sent as
  `Unknown` like a missing status (`CaptionsBeyondKnownStatuses`).
- The BP-ID, age/sex and referral cells test their field with `!== 'N/A'`
  alone. A missing field passes that test and is rendered as it is, which
  shows nothing. Their fallbacks (the study id, age and sex, `-`) apply only
  to the literal `N/A`. In particular, a study without `ageGender` shows an
  empty age/sex cell even when its age and sex are known (`RenderRow`,
  `AgeSexCellCases`, `BlankStudyRow`).
- The notes button counts a study flagged `hasStudyNotes` without any
  discussions as one note (`NotesCell`).
- The edit form is rendered only while the patient edit is shown, and only
  in the populated view. Closing it, a resolved save, or a pass through the
  loading or empty view unmounts it. Its draft and saving flag go with it,
  and a later mount starts again from the study's prefill
  (`LoadingRoundTripResetsDraft`). The `finally` of a submit clears the
  saving flag of a form that is already unmounted.

## Model

| member | source | states |
|---|---|---|
| `JsRuntime.FirstTruthyIsFirst` | client/src/components/common/WorklistTable/doctorWorklistTable.jsx:103-108 | a fallback chain `a \|\| b \|\| ''` yields `''` exactly when every candidate is falsy, and otherwise the first truthy candidate, with all earlier ones falsy |
| `JsRuntime.OrElse` | client/src/components/common/WorklistTable/doctorWorklistTable.jsx:103 | `v \|\| fallback` is never empty when the fallback is not |
| `JsRuntime.NatToDecimal` | client/src/components/common/WorklistTable/doctorWorklistTable.jsx:54-56 | `String(n)` for n ≥ 0 is a non-empty string of digits, one digit exactly for n < 10, at most two below 100, and no leading zero unless n = 0 |
| `JsRuntime.ParseNatToDecimal` | client/src/components/common/WorklistTable/doctorWorklistTable.jsx:54-56 | reading back the digits `String(n)` writes gives n |
| `JsRuntime.IntToString` | client/src/components/common/WorklistTable/doctorWorklistTable.jsx:56 | `String(n)` of an integer starts with `-` exactly when n is negative, and starts with `0` only when it is `0` itself |
| `JsRuntime.IntToStringRoundTrip` | client/src/components/common/WorklistTable/doctorWorklistTable.jsx:56-57 | `String(n)` loses nothing for any integer, negative years included: the signed reader gives n back |
| `JsRuntime.PadStart` | client/src/components/common/WorklistTable/doctorWorklistTable.jsx:54-55 | `padStart(width, fill)` keeps the string as its suffix and fills the front with `fill` up to `width`, never truncating |
| `JsRuntime.Prefix` | client/src/components/common/WorklistTable/doctorWorklistTable.jsx:309 | `substring(0, n)` is a prefix of at most n characters, the whole string when it is shorter |
| `JsRuntime.FirstChar` | client/src/components/common/WorklistTable/doctorWorklistTable.jsx:366 | `charAt(0)` is a prefix of the string of length one, or `''` for the empty string: the same as `substring(0, 1)` |
| `StatusDisplay.Code` | client/src/components/common/WorklistTable/doctorWorklistTable.jsx:15-27 | the case labels of `getStatusColor`; that they are distinct and each is recognised as its own status is stated by `StatusDisplay.ParseCode` and `StatusDisplay.ParseStatus` |
| `StatusDisplay.Shade` | client/src/components/common/WorklistTable/doctorWorklistTable.jsx:16-28 | the shade of each case; which statuses share one is stated by `StatusDisplay.SharedShades` |
| `StatusDisplay.Label` | client/src/components/common/WorklistTable/doctorWorklistTable.jsx:33-45 | the label of each case of `formatWorkflowStatus`; distinctness is stated by `StatusDisplay.LabelsDistinct`, and that no label is a code by `StatusDisplay.CaptionsBeyondKnownStatuses` |
| `StatusDisplay.ParseStatus` | client/src/components/common/WorklistTable/doctorWorklistTable.jsx:15-27 | a status is recognised exactly when it is one of the twelve codes, and then as the status with that code |
| `StatusDisplay.ParseCode` | client/src/components/common/WorklistTable/doctorWorklistTable.jsx:15-27 | each of the twelve codes is recognised as its own status |
| `StatusDisplay.ShadeClassesInjective` | client/src/components/common/WorklistTable/doctorWorklistTable.jsx:16-28 | two badge class strings are equal exactly when their shades are |
| `StatusDisplay.StatusColor` | client/src/components/common/WorklistTable/doctorWorklistTable.jsx:14-30 | `getStatusColor` is total, and it yields the gray default exactly for an unknown or absent status |
| `StatusDisplay.SharedShades` | client/src/components/common/WorklistTable/doctorWorklistTable.jsx:23-25 | the only two statuses that share a shade are final-report-downloaded and report-verified |
| `StatusDisplay.StatusColorCollisions` | client/src/components/common/WorklistTable/doctorWorklistTable.jsx:14-29 | two different known statuses get the same colour exactly when they are the downloaded and the verified status |
| `StatusDisplay.FormatWorkflowStatus` | client/src/components/common/WorklistTable/doctorWorklistTable.jsx:32-48 | an unknown non-empty status is shown unchanged, an empty or absent one as `Unknown`, and a known one by a label that is neither `Unknown` nor its raw code; never empty |
| `StatusDisplay.LabelsDistinct` | client/src/components/common/WorklistTable/doctorWorklistTable.jsx:33-45 | the labels of two known statuses are equal exactly when the statuses are |
| `StatusDisplay.CaptionsBeyondKnownStatuses` | client/src/components/common/WorklistTable/doctorWorklistTable.jsx:32-48 | no label is a status code, so an unknown status carrying a label's text is captioned like the known status, and an unknown status `Unknown` like a missing one |
| `StatusDisplay.StatusText` | client/src/components/common/WorklistTable/doctorWorklistTable.jsx:493 | the badge text is the case-status category when it is truthy, else the workflow-status label, and never empty |
| `DateFormat.TwoDigits` | client/src/components/common/WorklistTable/doctorWorklistTable.jsx:54-55 | `String(x).padStart(2, '0')` is at least two characters, and exactly two for a number in 0..99 |
| `DateFormat.TwoDigitsExact` | client/src/components/common/WorklistTable/doctorWorklistTable.jsx:54-55 | a number in 0..99 is written as exactly two digits that read back as the number; any other number is written unpadded and untruncated; `NaN` as `NaN` |
| `DateFormat.FormatDate` | client/src/components/common/WorklistTable/doctorWorklistTable.jsx:50-61 | the result is `-` exactly for a falsy input; a truthy input that does not parse gives `NaN/NaN/NaN` |
| `DateFormat.FormatTime` | client/src/components/common/WorklistTable/doctorWorklistTable.jsx:63-74 | the result is `-` exactly for a falsy input; an unparsable truthy input gives `NaN:NaN:NaN`; a valid time is exactly eight characters |
| `DateFormat.FormatDateRoundTrip` | client/src/components/common/WorklistTable/doctorWorklistTable.jsx:53-57 | for a valid date, reading `DD/MM/YYYY` back gives the day, the 1-based month and the year; the year is written exactly as `String(year)`, unpadded, with no leading zero unless the year is 0 |
| `DateFormat.FormatTimeRoundTrip` | client/src/components/common/WorklistTable/doctorWorklistTable.jsx:66-70 | for a valid date, reading `HH:MM:SS` back gives the hours, minutes and seconds |
| `RowPresenter.IsUrgent` | client/src/components/common/WorklistTable/doctorWorklistTable.jsx:262 | a study is urgent for priority `URGENT` or `EMERGENCY`; its effects are stated by `RowPresenter.RowClassesFollowFlags` and `RowPresenter.RenderRow` |
| `RowPresenter.IsRejected` | client/src/components/common/WorklistTable/doctorWorklistTable.jsx:265 | a study is rejected for workflow status `report_rejected`, which is the known status report-rejected, as stated by `RowPresenter.RejectionColumn` |
| `RowPresenter.HasNotes` | client/src/components/common/WorklistTable/doctorWorklistTable.jsx:263 | flagged notes or a positive discussion count; stated by `RowPresenter.NotesCell` |
| `RowPresenter.HasAttachments` | client/src/components/common/WorklistTable/doctorWorklistTable.jsx:264 | a positive attachment count; stated by `RowPresenter.AttachmentsCell` |
| `RowPresenter.RowBackground` | client/src/components/common/WorklistTable/doctorWorklistTable.jsx:269 | the background class is never empty; its alternation is stated by `RowPresenter.RowClassesFollowFlags` |
| `RowPresenter.RowClasses` | client/src/components/common/WorklistTable/doctorWorklistTable.jsx:268-270 | the class list has the six fixed classes plus two for each of the urgent and rejected flags that holds; which accents appear is stated by `RowPresenter.RowClassesFollowFlags` |
| `RowPresenter.BpIdCell` | client/src/components/common/WorklistTable/doctorWorklistTable.jsx:309 | the shown BP-ID is the BharatPACS id unless it is `N/A`, and then present exactly when the study id is, at most ten characters; stated further by `RowPresenter.BpIdShownIsPrefixOfCopied` |
| `RowPresenter.CopiedBpId` | client/src/components/common/WorklistTable/doctorWorklistTable.jsx:312 | the copied id is absent exactly when the BharatPACS id is absent, or is `N/A` with no study id; it is `N/A` only when the study id itself is |
| `RowPresenter.AgeSexCell` | client/src/components/common/WorklistTable/doctorWorklistTable.jsx:364-366 | the age/sex cell is absent exactly when `ageGender` is, and never empty in the `N/A` fallback; its cases are stated by `RowPresenter.AgeSexCellCases` |
| `RowPresenter.RenderRow` | client/src/components/common/WorklistTable/doctorWorklistTable.jsx:303-551 | the urgency marker, the notes and attachments highlights and the rejection column follow the row predicates; every text cell shows something; the BP-ID, age/sex and referral cells are empty for a missing field |
| `RowPresenter.ClinicalHistoryCell` | client/src/components/common/WorklistTable/doctorWorklistTable.jsx:444-446 | the clinical-history cell is never empty |
| `RowPresenter.NotesTitle` | client/src/components/common/WorklistTable/doctorWorklistTable.jsx:469 | the notes title is never empty; its count is stated by `RowPresenter.NotesCell` |
| `RowPresenter.AttachmentsTitle` | client/src/components/common/WorklistTable/doctorWorklistTable.jsx:456 | the attachments title is never empty; its count is stated by `RowPresenter.AttachmentsCell` |
| `RowPresenter.NotesCell` | client/src/components/common/WorklistTable/doctorWorklistTable.jsx:463-469 | the notes button is highlighted exactly when the study is flagged or has discussions; its title carries the number of discussions, 1 for a flagged study without any, and `No notes` otherwise |
| `RowPresenter.NotesTitleCount` | client/src/components/common/WorklistTable/doctorWorklistTable.jsx:469 | the notes title is the discussion count followed by ` note(s)`, `1 note(s)` for a flagged study without discussions, `No notes` otherwise, and the count reads back from it |
| `RowPresenter.AttachmentsCell` | client/src/components/common/WorklistTable/doctorWorklistTable.jsx:451-461 | the attachments button is highlighted exactly when there are attachments, and its title then carries their number, else `No attachments` |
| `RowPresenter.RowClassesFollowFlags` | client/src/components/common/WorklistTable/doctorWorklistTable.jsx:262-270 | the row background alternates (white on even, slate on odd positions), the rose-500 accent is present exactly for an urgent study, the rose-600 accent exactly for a rejected one, and the left border exactly when either holds |
| `RowPresenter.RejectionColumn` | client/src/components/common/WorklistTable/doctorWorklistTable.jsx:498-517 | the rejection column shows the verification notes, under the rejection reason or `-` as tooltip, exactly for a rejected study, and `-` otherwise; rejected means the known status report-rejected |
| `RowPresenter.AgeSexCellCases` | client/src/components/common/WorklistTable/doctorWorklistTable.jsx:364-366 | `ageGender` is shown whenever it is not exactly `N/A`; otherwise age, `/` and the first letter of the sex when both are truthy, else `-` |
| `RowPresenter.BpIdShownIsPrefixOfCopied` | client/src/components/common/WorklistTable/doctorWorklistTable.jsx:309-312 | the BP-ID shown is always a prefix of what the copy button copies: all of it unless the BharatPACS id is `N/A`, and then at most ten characters of the study id |
| `RowPresenter.ClinicalHistoryShapes` | client/src/components/common/WorklistTable/doctorWorklistTable.jsx:444-446 | a plain string and a wrapper holding the same string show the same text, `-` when empty; a wrapper without text, `null` and a missing history all show `-` |
| `RowPresenter.StatusCell` | client/src/components/common/WorklistTable/doctorWorklistTable.jsx:492-493 | the row's badge is gray exactly for an unknown status, and its text prefers the case-status category |
| `RowPresenter.BlankStudyRow` | client/src/components/common/WorklistTable/doctorWorklistTable.jsx:303-517 | a study with every optional field missing still renders: most cells at their placeholder (`-`, `N/A`, 0, `Unknown`, gray), but the BP-ID, age/sex and referral cells empty, since a missing field passes their `N/A` tests |
| `RowPresenter.RejectedUrgentRow` | client/src/components/common/WorklistTable/doctorWorklistTable.jsx:262-270 | any rejected, urgent study without a case-status category gets both accents, the urgency marker, the rejected status's label (`Rejected`) and a populated rejection column |
| `RowPresenter.WrappedHistoryRow` | client/src/components/common/WorklistTable/doctorWorklistTable.jsx:444-446 | a history wrapped as `{clinicalHistory: 'Hx of asthma'}` is shown as `Hx of asthma` |
| `RowPresenter.StudyRow.constructor` | client/src/components/common/WorklistTable/doctorWorklistTable.jsx:258-259 | a row starts with its popover closed and no anchor |
| `RowPresenter.StudyRow.HandleDownloadClick` | client/src/components/common/WorklistTable/doctorWorklistTable.jsx:272-281 | a click on the download button flips the popover and records the button's position; nothing else changes |
| `RowPresenter.StudyRow.CloseDownloadOptions` | client/src/components/common/WorklistTable/doctorWorklistTable.jsx:547 | the popover's close callback closes it and keeps the anchor |
| `RowPresenter.DownloadToggleTwice` | client/src/components/common/WorklistTable/doctorWorklistTable.jsx:280 | two clicks leave the popover open or closed as before, anchored at the second click |
| `PatientEdit.PrefillHistory` | client/src/components/common/WorklistTable/doctorWorklistTable.jsx:109 | a wrapper prefills its inner field as it is, `undefined` included; a plain string prefills itself and a missing history `''`; `null` is excluded because it throws |
| `PatientEdit.HistoryCellAgreesWithPrefill` | client/src/components/common/WorklistTable/doctorWorklistTable.jsx:109 | for any history but `null`, the row cell shows exactly the non-empty text the edit form starts from, and `-` when the form starts from nothing |
| `PatientEdit.Prefill` | client/src/components/common/WorklistTable/doctorWorklistTable.jsx:102-110 | each draft field is the first truthy value of its fallback chain (gender, then sex; description, then study name; referring-physician name, then referring physician) or `''` |
| `PatientEdit.SetField` | client/src/components/common/WorklistTable/doctorWorklistTable.jsx:142-216 | an input's change sets its own field and leaves every other field, clinical history included, unchanged |
| `PatientEdit.Heading` | client/src/components/common/WorklistTable/doctorWorklistTable.jsx:133 | the form heading is never empty; it is the first truthy value of the chain `patientName \|\| 'Edit Study'`, so the patient's name when truthy, else `Edit Study` |
| `PatientEdit.PatientEditModal.constructor` | client/src/components/common/WorklistTable/doctorWorklistTable.jsx:89-98 | the form starts with an all-empty draft and not saving |
| `PatientEdit.PatientEditModal.SyncWithProps` | client/src/components/common/WorklistTable/doctorWorklistTable.jsx:100-112 | when the props change, an open form with a study is reset to that study's prefill, and otherwise the draft is kept |
| `PatientEdit.PatientEditModal.EditField` | client/src/components/common/WorklistTable/doctorWorklistTable.jsx:145-214 | an input change replaces the draft by `SetField` of the old draft |
| `PatientEdit.PatientEditModal.BeginSubmit` | client/src/components/common/WorklistTable/doctorWorklistTable.jsx:114-118 | submitting marks the form as saving, which disables both buttons, and sends the draft with the study id |
| `PatientEdit.PatientEditModal.FinishSubmit` | client/src/components/common/WorklistTable/doctorWorklistTable.jsx:122-124 | after the save the form is no longer saving and its buttons work again |
| `WorklistTable.DoctorWorklistTable.constructor` | client/src/components/common/WorklistTable/doctorWorklistTable.jsx:573-577 | every modal tuple starts hidden and empty, and nothing is mounted |
| `WorklistTable.Rows` | client/src/components/common/WorklistTable/doctorWorklistTable.jsx:686-699 | one row per study, in input order, keyed by the study's id and rendered at its position |
| `WorklistTable.DoctorWorklistTable.Render` | client/src/components/common/WorklistTable/doctorWorklistTable.jsx:616-722 | loading gives the loading view whatever the studies; otherwise no studies gives the empty view; otherwise one row per study in input order, keyed by its id and rendered at its position, a footer with the pagination and `displayedRecords` equal to the number of studies, and exactly the open modals mounted |
| `WorklistTable.DoctorWorklistTable.RenderProps` | client/src/components/common/WorklistTable/doctorWorklistTable.jsx:556-571 | an omitted prop takes its default: no studies gives the empty view unless loading, an omitted `loading` shows the rows, and an omitted pagination gives the footer page 1 of 1, 0 records, 50 per page; the view is populated exactly when not loading with at least one study |
| `WorklistTable.DoctorWorklistTable.CommitRender` | client/src/components/common/WorklistTable/doctorWorklistTable.jsx:616-633 | the modals, and with them the edit form, are mounted exactly while the populated view is shown; leaving it unmounts the form, staying keeps it, and returning with the patient edit shown mounts a fresh form prefilled from the study |
| `WorklistTable.DoctorWorklistTable.MountEditForm` | client/src/components/common/WorklistTable/doctorWorklistTable.jsx:89-112 | a newly mounted edit form is a fresh object, not saving, whose draft is the study's prefill; it is mounted only while the patient edit is shown for that study and no form is mounted yet |
| `WorklistTable.DoctorWorklistTable.ShowTimeline` | client/src/components/common/WorklistTable/doctorWorklistTable.jsx:579-581 | opens the timeline with the study's id and data; only that tuple changes |
| `WorklistTable.DoctorWorklistTable.ShowDetailedView` | client/src/components/common/WorklistTable/doctorWorklistTable.jsx:583-585 | opens the detailed view for the id; only that tuple changes |
| `WorklistTable.DoctorWorklistTable.ViewReport` | client/src/components/common/WorklistTable/doctorWorklistTable.jsx:587-593 | opens the report with the study's id and data; only that tuple changes |
| `WorklistTable.DoctorWorklistTable.ShowStudyNotes` | client/src/components/common/WorklistTable/doctorWorklistTable.jsx:595-597 | opens the study notes for the id; only that tuple changes |
| `WorklistTable.DoctorWorklistTable.ViewStudy` | client/src/components/common/WorklistTable/doctorWorklistTable.jsx:599-601 | opens the detailed view for the study's id |
| `WorklistTable.DoctorWorklistTable.EditPatient` | client/src/components/common/WorklistTable/doctorWorklistTable.jsx:603-605 | opens the patient edit for the study; with the modals mounted, a newly shown form is fresh and prefilled, and an already mounted form keeps its saving flag and is prefilled again only for a different study |
| `WorklistTable.DoctorWorklistTable.SavePatientEdit` | client/src/components/common/WorklistTable/doctorWorklistTable.jsx:607-614 | hides the patient edit and unmounts its form only after the update resolves; a failure is swallowed and changes nothing |
| `WorklistTable.DoctorWorklistTable.CloseDetailedView` | client/src/components/common/WorklistTable/doctorWorklistTable.jsx:718 | resets only the detailed-view tuple to hidden and empty |
| `WorklistTable.DoctorWorklistTable.CloseReport` | client/src/components/common/WorklistTable/doctorWorklistTable.jsx:719 | resets only the report tuple to hidden and empty |
| `WorklistTable.DoctorWorklistTable.CloseStudyNotes` | client/src/components/common/WorklistTable/doctorWorklistTable.jsx:720 | resets only the notes tuple to hidden and empty |
| `WorklistTable.DoctorWorklistTable.ClosePatientEdit` | client/src/components/common/WorklistTable/doctorWorklistTable.jsx:721 | resets only the patient-edit tuple to hidden and empty, and unmounts the form |
| `WorklistTable.DoctorWorklistTable.CloseTimeline` | client/src/components/common/WorklistTable/doctorWorklistTable.jsx:722 | resets only the timeline tuple to hidden and empty |
| `WorklistTable.DoctorWorklistTable.OnRowAction` | client/src/components/common/WorklistTable/doctorWorklistTable.jsx:686-698 | a row's clock, notes, View and report buttons open the timeline, notes, detailed view and report for that study; every other row action leaves the table's state alone, and no row action touches the patient edit |
| `WorklistTable.DoctorWorklistTable.SubmitPatientEdit` | client/src/components/common/WorklistTable/doctorWorklistTable.jsx:114-125 | submitting sends the mounted form's draft with the edited study's id; the patient edit ends hidden and its form unmounted whether the update resolved or failed; no other modal changes |
| `WorklistTable.LoadingRoundTripResetsDraft` | client/src/components/common/WorklistTable/doctorWorklistTable.jsx:616-623 | a pass through the loading view while the edit is open discards the draft: the form that comes back is fresh, not saving, and holds the study's prefill |

## Left out

- `client/src/pages/Login.jsx` is not part of this model. It consists of the authentication hook, navigation, a timer-driven slider and animated backgrounds.
- Date parsing and time zones: the value of `new Date(raw)` is an input (`JsDate`), either invalid or carrying the local-time fields the getters return.
- Clipboard writes and their toasts (`copyToClipboard`), and both navigations (`handleViewOnlyClick`, `handleOHIFReporting`, with its `studyInstanceUID || _id` fallback): these are browser and router calls. The model keeps only what is copied (`CopiedBpId`).
- `RowPresenter.StudyRow.HandleDownloadClick`: the anchor is taken as an input. Computing it from `getBoundingClientRect()` and the scroll offsets is browser geometry on floating-point values.
- The imported modal collaborators (`StudyDetailedView`, `ReportModal`, `StudyNotesComponent`, `TimelineModal`, `DownloadOptions`, `TableFooter`) are not shown. The model stops at the props the table gives them. The page-change callbacks are only passed through to the footer.
- `onPatienIdClick` belongs to the table's parent. Clicking the patient name calls it and changes no table state.
- JSX markup and styling, except the class strings that carry meaning (row background and accents, status badge, modality badge), and every `console.log`/`console.error`.
- `RowPresenter.RowClasses`: the row's class attribute is modelled as its list of class tokens. The extra spaces the template string leaves for an absent accent are not modelled.
- `WorklistTable.SubmitPatientEdit` and `PatientEdit.PatientEditModal.BeginSubmit`: the browser's `required` validation is not modelled. That validation blocks the submit while a required input is empty. The model lets the submit start from any draft.
- Asynchronous scheduling: the submit is modelled as one step, with the save's outcome as an input. Nothing else can happen while the save is pending, and React's batching of the state updates is not modelled.
- `RowPresenter.StudyRow`: a row's popover state lives only as long as the row is mounted. The model does not tie row objects to the table's view. So it does not capture the reset when the table passes through the loading or empty view, or React's matching of rows to state by `key`.
- `WorklistTable.DoctorWorklistTable.EditPatient`: React re-runs the form's effect when the `study` reference changes. The model compares studies by value, so two equal study objects count as the same study.
- `JsRuntime.Prefix` and `JsRuntime.FirstChar` count Unicode scalar values. JavaScript's `substring` and `charAt` count UTF-16 code units, so the two differ on characters outside the Basic Multilingual Plane.
- `PatientEdit.PrefillHistory`: `Wrapped(None)` stands for both `{clinicalHistory: null}` and `{}`. The draft gets `null` for the first and `undefined` for the second; the model does not tell them apart.
- Field values of an unexpected JavaScript type are not modelled, such as a numeric `patientAge` or a non-string status. `null` and `undefined` are one `None`, except for `clinicalHistory`, where they behave differently.
- React keys are passed through as `key`. Their uniqueness is the backend's concern and is not checked.
