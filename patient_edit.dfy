/** `PatientEditModal`: a form whose draft is prefilled from the study being
    edited, edited field by field, and sent to the save callback with the
    study id while the form shows that it is saving. */
module PatientEdit {
  import opened Wrappers
  import opened JsRuntime
  import opened StudyRecord
  import opened RowPresenter

  /** The form draft. `clinicalHistory` has no input field but is sent with
      the rest; it can be `undefined` (see `PrefillHistory`). */
  datatype FormData = FormData(
    patientName: string,
    patientAge: string,
    patientGender: string,
    studyName: string,
    referringPhysician: string,
    accessionNumber: string,
    clinicalHistory: Option<string>)

  /** The draft before any study has been loaded. */
  const EmptyForm: FormData := FormData("", "", "", "", "", "", Some(""))

  /** The inputs of the form. */
  datatype FormField =
    | PatientNameField | PatientAgeField | GenderField
    | StudyNameField | ReferringPhysicianField | AccessionNumberField

  /** The clinical history the draft starts from. A wrapper object gives its
      inner field as it is, so a wrapper without one gives `undefined`, not
      the empty string; a plain string or a missing field falls back to "".
      A `null` history is not accepted: `typeof null` is "object", and
      reading the inner field of `null` throws. */
  function PrefillHistory(h: ClinicalHistory): (v: Option<string>)
    requires h != Null
    ensures h.Wrapped? ==> v == h.inner
    ensures !h.Wrapped? ==> v.Some? && (Truthy(v) <==> h.Plain? && h.text != "")
  {
    match h
    case Wrapped(inner) => inner
    case Plain(text) => Some(OrElse(Some(text), ""))
    case Undefined => Some("")
  }

  /** The row cell and the form agree on a study's clinical history: the
      cell shows exactly the non-empty text the form starts from, and "-"
      when the form starts from nothing. */
  lemma HistoryCellAgreesWithPrefill(h: ClinicalHistory)
    requires h != Null
    ensures Truthy(PrefillHistory(h)) ==> ClinicalHistoryCell(h) == PrefillHistory(h).value
    ensures !Truthy(PrefillHistory(h)) ==> ClinicalHistoryCell(h) == "-"
  {
  }

  /** The draft for a study: each field is the first truthy value of its
      fallback chain, or the empty string. */
  function Prefill(s: Study): (f: FormData)
    requires s.clinicalHistory != Null
    ensures f.patientName == FirstTruthy([s.patientName])
    ensures f.patientAge == FirstTruthy([s.patientAge])
    ensures f.patientGender == FirstTruthy([s.patientGender, s.patientSex])
    ensures f.studyName == FirstTruthy([s.studyDescription, s.studyName])
    ensures f.referringPhysician == FirstTruthy([s.referringPhysicianName, s.referringPhysician])
    ensures f.accessionNumber == FirstTruthy([s.accessionNumber])
    ensures f.clinicalHistory == PrefillHistory(s.clinicalHistory)
  {
    FirstTruthyShort(s.patientName, s.patientName);
    FirstTruthyShort(s.patientAge, s.patientAge);
    FirstTruthyShort(s.accessionNumber, s.accessionNumber);
    FirstTruthyShort(s.patientGender, s.patientSex);
    FirstTruthyShort(s.studyDescription, s.studyName);
    FirstTruthyShort(s.referringPhysicianName, s.referringPhysician);
    FormData(
      OrElse(s.patientName, ""),
      OrElse(s.patientAge, ""),
      OrElse(s.patientGender, OrElse(s.patientSex, "")),
      OrElse(s.studyDescription, OrElse(s.studyName, "")),
      OrElse(s.referringPhysicianName, OrElse(s.referringPhysician, "")),
      OrElse(s.accessionNumber, ""),
      PrefillHistory(s.clinicalHistory))
  }

  /** The draft after one input changed: that field takes the new value and
      every other field keeps its value. */
  function SetField(f: FormData, field: FormField, value: string): (g: FormData)
    ensures g.clinicalHistory == f.clinicalHistory
    ensures g.patientName == if field == PatientNameField then value else f.patientName
    ensures g.patientAge == if field == PatientAgeField then value else f.patientAge
    ensures g.patientGender == if field == GenderField then value else f.patientGender
    ensures g.studyName == if field == StudyNameField then value else f.studyName
    ensures g.referringPhysician == if field == ReferringPhysicianField then value else f.referringPhysician
    ensures g.accessionNumber == if field == AccessionNumberField then value else f.accessionNumber
  {
    match field
    case PatientNameField => f.(patientName := value)
    case PatientAgeField => f.(patientAge := value)
    case GenderField => f.(patientGender := value)
    case StudyNameField => f.(studyName := value)
    case ReferringPhysicianField => f.(referringPhysician := value)
    case AccessionNumberField => f.(accessionNumber := value)
  }

  /** What the form sends to the save callback: the draft and the study id. */
  datatype UpdateRequest = UpdateRequest(form: FormData, studyId: Option<string>)

  /** The form's heading: the patient's name, or "Edit Study". It is the
      first truthy value of the chain `study?.patientName || 'Edit Study'`,
      so it is never empty. */
  function Heading(study: Option<Study>): (heading: string)
    ensures heading != ""
    ensures heading == FirstTruthy([if study.Some? then study.value.patientName else None, Some("Edit Study")])
    ensures study.Some? && Truthy(study.value.patientName) ==> heading == study.value.patientName.value
    ensures !(study.Some? && Truthy(study.value.patientName)) ==> heading == "Edit Study"
  {
    if study.Some? then OrElse(study.value.patientName, "Edit Study") else "Edit Study"
  }

  class PatientEditModal {
    var formData: FormData
    var loading: bool

    constructor ()
      ensures formData == EmptyForm && !loading
    {
      formData := EmptyForm;
      loading := false;
    }

    /** The effect that runs when the `study` or `isOpen` prop changes: an
        open form with a study starts over from that study's draft; anything
        else leaves the draft alone. */
    method SyncWithProps(study: Option<Study>, isOpen: bool)
      requires study.Some? && isOpen ==> study.value.clinicalHistory != Null
      modifies this`formData
      ensures formData == if study.Some? && isOpen then Prefill(study.value) else old(formData)
    {
      if study.Some? && isOpen {
        formData := Prefill(study.value);
      }
    }

    /** An input's change handler. */
    method EditField(field: FormField, value: string)
      modifies this`formData
      ensures formData == SetField(old(formData), field, value)
    {
      formData := SetField(formData, field, value);
    }

    /** Whether the Save and Close buttons accept a click. */
    predicate ButtonsEnabled()
      reads this
    {
      !loading
    }

    /** The first half of `handleSubmit`, up to the awaited save: the form
        marks itself as saving and builds the request from the draft. */
    method BeginSubmit(study: Study) returns (request: UpdateRequest)
      requires ButtonsEnabled()
      modifies this`loading
      ensures loading && !ButtonsEnabled()
      ensures request == UpdateRequest(formData, study.id)
    {
      loading := true;
      request := UpdateRequest(formData, study.id);
    }

    /** The `finally` of `handleSubmit`: the form is no longer saving. */
    method FinishSubmit()
      modifies this`loading
      ensures !loading && ButtonsEnabled()
    {
      loading := false;
    }
  }
}
