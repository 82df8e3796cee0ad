/** One imaging study as the worklist receives it from the backend. Every
    field the table reads is here; a field the backend may omit or send as
    `null` is an `Option`. */
module StudyRecord {
  import opened Wrappers
  import opened DateFormat

  /** `clinicalHistory` arrives either as a plain string or as an object
      wrapping one (whose inner field may itself be missing), or as `null`,
      or not at all. `null` and a missing field behave differently in the
      edit form, so they are kept apart. */
  datatype ClinicalHistory =
    | Plain(text: string)
    | Wrapped(inner: Option<string>)
    | Null
    | Undefined

  /** A timestamp field: its raw value, which the falsy check looks at, and
      the value `new Date(raw)` yields. */
  datatype Timestamp = Timestamp(raw: Option<string>, date: JsDate)

  datatype Study = Study(
    id: Option<string>,                     // `_id`
    bharatPacsId: Option<string>,
    organizationName: Option<string>,
    centerName: Option<string>,
    patientName: Option<string>,
    patientId: Option<string>,
    ageGender: Option<string>,
    patientAge: Option<string>,
    patientSex: Option<string>,
    patientGender: Option<string>,
    modality: Option<string>,
    studyDescription: Option<string>,
    studyName: Option<string>,
    seriesCount: Option<nat>,
    instanceCount: Option<nat>,
    accessionNumber: Option<string>,
    referralNumber: Option<string>,
    referringPhysicianName: Option<string>,
    referringPhysician: Option<string>,
    clinicalHistory: ClinicalHistory,
    studyDate: Timestamp,
    studyTime: Option<string>,
    createdAt: Timestamp,
    workflowStatus: Option<string>,
    caseStatusCategory: Option<string>,
    priority: Option<string>,
    hasStudyNotes: bool,                    // `hasStudyNotes === true`
    discussionCount: Option<nat>,           // `discussions.length`; None when there is no array
    attachmentCount: Option<nat>,           // `attachments.length`; None when there is no array
    verificationNotes: Option<string>,
    rejectionReason: Option<string>)        // `reportInfo?.verificationInfo?.rejectionReason`

  /** A study with every optional field missing. */
  const Blank: Study := Study(
    None, None, None, None, None, None, None, None, None, None, None, None, None,
    None, None, None, None, None, None, Undefined, Timestamp(None, InvalidDate), None,
    Timestamp(None, InvalidDate), None, None, None, false, None, None, None, None)
}
