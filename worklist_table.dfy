/** `DoctorWorklistTable`: picks one of three views from its props, renders
    one row per study in input order with a footer, and owns the state of
    five modals, each opened by its own handler and reset by its own close
    callback. */
module WorklistTable {
  import opened Wrappers
  import opened StudyRecord
  import opened RowPresenter
  import opened PatientEdit

  /** The modal state tuples. The detailed view and the study notes keep a
      study id; the report and the timeline keep the id and the study; the
      patient edit keeps the study. */
  datatype IdModal = IdModal(show: bool, studyId: Option<string>)
  datatype DataModal = DataModal(show: bool, studyId: Option<string>, studyData: Option<Study>)
  datatype EditModal = EditModal(show: bool, study: Option<Study>)

  const ClosedIdModal: IdModal := IdModal(false, None)
  const ClosedDataModal: DataModal := DataModal(false, None, None)
  const ClosedEditModal: EditModal := EditModal(false, None)

  /** The five modals the table can mount. */
  datatype ModalKind = DetailedViewKind | ReportKind | NotesKind | PatientEditKind | TimelineKind

  const AllModalKinds: set<ModalKind> := {DetailedViewKind, ReportKind, NotesKind, PatientEditKind, TimelineKind}

  /** The pagination descriptor, read-only display data for the footer. */
  datatype Pagination = Pagination(
    currentPage: int, totalPages: int, totalRecords: int, recordsPerPage: int,
    hasNextPage: bool, hasPrevPage: bool)

  /** The pagination the table uses when none is passed. */
  const DefaultPagination: Pagination := Pagination(1, 1, 0, 50, false, false)

  /** The props the footer receives. */
  datatype FooterProps = FooterProps(
    currentPage: int, totalPages: int, totalRecords: int, recordsPerPage: int,
    displayedRecords: nat, loading: bool)

  /** One rendered row with its React key. */
  datatype RenderedRow = RenderedRow(key: Option<string>, row: RowView)

  /** The three mutually exclusive views. Only the populated view mounts the
      open modals. */
  datatype TableView =
    | LoadingView
    | EmptyView
    | Populated(rows: seq<RenderedRow>, footer: FooterProps, mounted: set<ModalKind>)

  /** `studies.map((study, index) => <StudyRow key={study._id} .../>)`. */
  function Rows(studies: seq<Study>): (rows: seq<RenderedRow>)
    ensures |rows| == |studies|
    ensures forall i :: 0 <= i < |studies| ==>
      rows[i].key == studies[i].id && rows[i].row == RenderRow(studies[i], i)
  {
    seq(|studies|, i requires 0 <= i < |studies| => RenderedRow(studies[i].id, RenderRow(studies[i], i)))
  }

  /** Whether props select the populated view: not loading, and at least
      one study, with the defaults for omitted props. */
  predicate ShowsRows(studies: Option<seq<Study>>, loading: Option<bool>) {
    !loading.GetOr(false) && studies.GetOr([]) != []
  }

  /** What a row's click handlers can do. Only the four listed in `OnRowAction`
      reach the table's state; the others navigate, copy, log or toggle the
      row's own popover. */
  datatype RowAction =
    | ClockClick | PatientNameClick | CopyIdClick | EyeClick | DownloadClick
    | ReportingClick | AttachmentsClick | NotesClick | ViewClick | ReportClick

  /** How the awaited `onUpdateStudyDetails` call ended. A missing callback
      throws when called, which ends like a rejection. */
  datatype UpdateOutcome = Resolved | Rejected

  class DoctorWorklistTable {
    var detailedView: IdModal
    var reportModal: DataModal
    var studyNotes: IdModal
    var patientEditModal: EditModal
    var timelineModal: DataModal
    /** Whether the last render was the populated view, the only one that
        mounts the modals. */
    var modalsMounted: bool
    /** The mounted patient-edit form with its own state, if any. It exists
        exactly while the patient edit is shown in the populated view; an
        unmounted form's draft is gone. */
    var editForm: Option<PatientEditModal>

    /** A hidden modal keeps nothing; an open report, timeline or patient
        edit holds the study it was opened for; the edit form is mounted
        exactly while the patient edit is shown and the modals are mounted,
        and the study it edits can be prefilled. */
    ghost predicate Valid()
      reads this
    {
      && (!detailedView.show ==> detailedView == ClosedIdModal)
      && (!studyNotes.show ==> studyNotes == ClosedIdModal)
      && (!reportModal.show ==> reportModal == ClosedDataModal)
      && (reportModal.show ==> reportModal.studyData.Some? && reportModal.studyId == reportModal.studyData.value.id)
      && (!timelineModal.show ==> timelineModal == ClosedDataModal)
      && (timelineModal.show ==> timelineModal.studyData.Some? && timelineModal.studyId == timelineModal.studyData.value.id)
      && (patientEditModal.show <==> patientEditModal.study.Some?)
      && (patientEditModal.show ==> patientEditModal.study.value.clinicalHistory != Null)
      && (editForm.Some? <==> patientEditModal.show && modalsMounted)
    }

    /** Before the first render every modal is hidden and nothing is mounted. */
    constructor ()
      ensures Valid() && forall k :: !IsOpen(k)
      ensures detailedView == ClosedIdModal && reportModal == ClosedDataModal && studyNotes == ClosedIdModal
      ensures patientEditModal == ClosedEditModal && timelineModal == ClosedDataModal
      ensures !modalsMounted && editForm == None
    {
      detailedView := ClosedIdModal;
      reportModal := ClosedDataModal;
      studyNotes := ClosedIdModal;
      patientEditModal := ClosedEditModal;
      timelineModal := ClosedDataModal;
      modalsMounted := false;
      editForm := None;
    }

    /** Whether the modal's `show` flag is set. */
    predicate IsOpen(k: ModalKind)
      reads this
    {
      match k
      case DetailedViewKind => detailedView.show
      case ReportKind => reportModal.show
      case NotesKind => studyNotes.show
      case PatientEditKind => patientEditModal.show
      case TimelineKind => timelineModal.show
    }

    /** The modals whose `show` flag is set. */
    function OpenModals(): (open: set<ModalKind>)
      reads this
      ensures forall k :: k in open <==> IsOpen(k)
    {
      set k | k in AllModalKinds && IsOpen(k)
    }

    /** The table for the given props. Loading wins over everything; then an
        empty list gives the empty view; otherwise there is one row per study
        in input order, the footer counts the displayed studies, and every
        open modal, and only those, is mounted. */
    function Render(studies: seq<Study>, loading: bool, pagination: Pagination): (view: TableView)
      reads this
      ensures loading ==> view == LoadingView
      ensures !loading && studies == [] ==> view == EmptyView
      ensures !loading && studies != [] ==>
        && view.Populated?
        && view.rows == Rows(studies)
        && view.footer == FooterProps(pagination.currentPage, pagination.totalPages, pagination.totalRecords,
                                      pagination.recordsPerPage, |studies|, false)
        && (forall k :: k in view.mounted <==> IsOpen(k))
    {
      if loading then LoadingView
      else if |studies| == 0 then EmptyView
      else
        Populated(
          Rows(studies),
          FooterProps(pagination.currentPage, pagination.totalPages, pagination.totalRecords,
                      pagination.recordsPerPage, |studies|, loading),
          OpenModals())
    }

    /** The table for the props as passed, `None` standing for an omitted
        prop, which takes its default: no studies, not loading, and page 1 of
        1 with 50 records per page. */
    function RenderProps(studies: Option<seq<Study>>, loading: Option<bool>, pagination: Option<Pagination>)
      : (view: TableView)
      reads this
      ensures view.Populated? <==> ShowsRows(studies, loading)
      ensures studies.None? && loading != Some(true) ==> view == EmptyView
      ensures loading.None? && studies.Some? && studies.value != [] ==> view.Populated?
      ensures pagination.None? && view.Populated? ==>
        view.footer.currentPage == 1 && view.footer.totalPages == 1
        && view.footer.totalRecords == 0 && view.footer.recordsPerPage == 50
      ensures pagination.Some? && view.Populated? ==> view.footer.recordsPerPage == pagination.value.recordsPerPage
    {
      Render(studies.GetOr([]), loading.GetOr(false), pagination.GetOr(DefaultPagination))
    }

    /** The commit of a render: the modals, and with them the edit form and
        its draft, are mounted exactly while the populated view is shown.
        Leaving it unmounts the form; coming back to it with the patient edit
        shown mounts a fresh form, which starts from the empty draft and is
        then prefilled from the study. */
    method CommitRender(studies: Option<seq<Study>>, loading: Option<bool>)
      requires Valid()
      modifies this`modalsMounted, this`editForm
      ensures Valid()
      ensures modalsMounted == ShowsRows(studies, loading)
      ensures !modalsMounted ==> editForm == None
      ensures modalsMounted && old(modalsMounted) ==> editForm == old(editForm)
      ensures modalsMounted && !old(modalsMounted) && patientEditModal.show ==>
        && editForm.Some? && fresh(editForm.value)
        && editForm.value.formData == Prefill(patientEditModal.study.value) && !editForm.value.loading
    {
      if !ShowsRows(studies, loading) {
        editForm := None;
      } else if !modalsMounted && patientEditModal.show {
        MountEditForm(patientEditModal.study.value);
      }
      modalsMounted := ShowsRows(studies, loading);
    }

    /** Mounting the edit form for a study: a fresh form starts from the
        empty draft and not saving, and its effect then prefills the draft.
        It is a step of `CommitRender` and `EditPatient`: the patient edit
        is already shown for this study and no form is mounted, and the
        caller re-establishes `Valid()`. */
    method MountEditForm(study: Study)
      requires patientEditModal.show && patientEditModal.study == Some(study) && editForm.None?
      requires study.clinicalHistory != Null
      modifies this`editForm
      ensures editForm.Some? && fresh(editForm.value)
      ensures editForm.value.formData == Prefill(study) && !editForm.value.loading
    {
      var form := new PatientEditModal();
      form.SyncWithProps(Some(study), true);
      editForm := Some(form);
    }

    /** `handleShowTimeline`. */
    method ShowTimeline(study: Study)
      requires Valid()
      modifies this`timelineModal
      ensures Valid() && (forall k :: IsOpen(k) <==> old(IsOpen(k)) || k == TimelineKind)
      ensures timelineModal == DataModal(true, study.id, Some(study))
    {
      timelineModal := DataModal(true, study.id, Some(study));
    }

    /** `handleShowDetailedView`. */
    method ShowDetailedView(studyId: Option<string>)
      requires Valid()
      modifies this`detailedView
      ensures Valid() && (forall k :: IsOpen(k) <==> old(IsOpen(k)) || k == DetailedViewKind)
      ensures detailedView == IdModal(true, studyId)
    {
      detailedView := IdModal(true, studyId);
    }

    /** `handleViewReport`. */
    method ViewReport(study: Study)
      requires Valid()
      modifies this`reportModal
      ensures Valid() && (forall k :: IsOpen(k) <==> old(IsOpen(k)) || k == ReportKind)
      ensures reportModal == DataModal(true, study.id, Some(study))
    {
      reportModal := DataModal(true, study.id, Some(study));
    }

    /** `handleShowStudyNotes`. */
    method ShowStudyNotes(studyId: Option<string>)
      requires Valid()
      modifies this`studyNotes
      ensures Valid() && (forall k :: IsOpen(k) <==> old(IsOpen(k)) || k == NotesKind)
      ensures studyNotes == IdModal(true, studyId)
    {
      studyNotes := IdModal(true, studyId);
    }

    /** `handleViewStudy`: the detailed view of the study's id. */
    method ViewStudy(study: Study)
      requires Valid()
      modifies this`detailedView
      ensures Valid() && (forall k :: IsOpen(k) <==> old(IsOpen(k)) || k == DetailedViewKind)
      ensures detailedView == IdModal(true, study.id)
    {
      ShowDetailedView(study.id);
    }

    /** `handleEditPatient`. With the modals mounted, a hidden patient edit
        mounts a fresh form prefilled from the study; an already mounted form
        stays, and its effect prefills it again only when the study changed.
        The study's clinical history must not be `null`, which the prefill
        cannot read. */
    method EditPatient(study: Study)
      requires Valid() && study.clinicalHistory != Null
      modifies this`patientEditModal, this`editForm, if editForm.Some? then {editForm.value} else {}
      ensures Valid() && (forall k :: IsOpen(k) <==> old(IsOpen(k)) || k == PatientEditKind)
      ensures patientEditModal == EditModal(true, Some(study))
      ensures old(editForm).Some? ==>
        && editForm == old(editForm) && editForm.value.loading == old(editForm.value.loading)
        && editForm.value.formData ==
             if old(patientEditModal.study) == Some(study) then old(editForm.value.formData) else Prefill(study)
      ensures old(editForm).None? && modalsMounted ==>
        && editForm.Some? && fresh(editForm.value)
        && editForm.value.formData == Prefill(study) && !editForm.value.loading
    {
      var sameStudy := patientEditModal.study == Some(study);
      patientEditModal := EditModal(true, Some(study));
      if editForm.Some? {
        if !sameStudy {
          editForm.value.SyncWithProps(Some(study), true);
        }
      } else if modalsMounted {
        MountEditForm(study);
      }
    }

    /** `handleSavePatientEdit`: awaits the update; on success hides the
        patient edit, which unmounts its form. A failure is logged and
        swallowed, so the caller sees no error and the modal stays as it was. */
    method SavePatientEdit(request: UpdateRequest, outcome: UpdateOutcome)
      requires Valid()
      modifies this`patientEditModal, this`editForm
      ensures Valid()
      ensures patientEditModal == if outcome == Resolved then ClosedEditModal else old(patientEditModal)
      ensures editForm == if outcome == Resolved then None else old(editForm)
    {
      if outcome == Resolved {
        patientEditModal := ClosedEditModal;
        editForm := None;
      }
    }

    /** The detailed view's close callback. */
    method CloseDetailedView()
      requires Valid()
      modifies this`detailedView
      ensures Valid() && (forall k :: IsOpen(k) <==> old(IsOpen(k)) && k != DetailedViewKind)
      ensures detailedView == ClosedIdModal
    {
      detailedView := ClosedIdModal;
    }

    /** The report modal's close callback. */
    method CloseReport()
      requires Valid()
      modifies this`reportModal
      ensures Valid() && (forall k :: IsOpen(k) <==> old(IsOpen(k)) && k != ReportKind)
      ensures reportModal == ClosedDataModal
    {
      reportModal := ClosedDataModal;
    }

    /** The study notes' close callback. */
    method CloseStudyNotes()
      requires Valid()
      modifies this`studyNotes
      ensures Valid() && (forall k :: IsOpen(k) <==> old(IsOpen(k)) && k != NotesKind)
      ensures studyNotes == ClosedIdModal
    {
      studyNotes := ClosedIdModal;
    }

    /** The patient edit's close callback: hides it and unmounts its form. */
    method ClosePatientEdit()
      requires Valid()
      modifies this`patientEditModal, this`editForm
      ensures Valid() && (forall k :: IsOpen(k) <==> old(IsOpen(k)) && k != PatientEditKind)
      ensures patientEditModal == ClosedEditModal && editForm == None
    {
      patientEditModal := ClosedEditModal;
      editForm := None;
    }

    /** The timeline's close callback. */
    method CloseTimeline()
      requires Valid()
      modifies this`timelineModal
      ensures Valid() && (forall k :: IsOpen(k) <==> old(IsOpen(k)) && k != TimelineKind)
      ensures timelineModal == ClosedDataModal
    {
      timelineModal := ClosedDataModal;
    }

    /** A click in a row, as `StudyRow` wires its callbacks: the clock opens
        the timeline, the notes button the study notes, View the detailed
        view, and the report button the report. No row action opens the
        patient edit: the row is given that callback but never calls it. */
    method OnRowAction(study: Study, action: RowAction)
      requires Valid()
      modifies this`detailedView, this`reportModal, this`studyNotes, this`timelineModal
      ensures Valid() && patientEditModal == old(patientEditModal)
      ensures timelineModal == if action == ClockClick then DataModal(true, study.id, Some(study)) else old(timelineModal)
      ensures studyNotes == if action == NotesClick then IdModal(true, study.id) else old(studyNotes)
      ensures detailedView == if action == ViewClick then IdModal(true, study.id) else old(detailedView)
      ensures reportModal == if action == ReportClick then DataModal(true, study.id, Some(study)) else old(reportModal)
    {
      match action
      case ClockClick => ShowTimeline(study);
      case NotesClick => ShowStudyNotes(study.id);
      case ViewClick => ViewStudy(study);
      case ReportClick => ViewReport(study);
      case _ =>
    }

    /** `handleSubmit` of the mounted edit form, as the table wires it. The
        form sends its draft with the edited study's id. The save callback it
        awaits is `SavePatientEdit`, which never throws, so the form's own
        `onClose()` always runs next: the patient edit ends hidden and its
        form unmounted whether the update succeeded or not, and no other
        modal changes. The `finally` then clears the saving flag of a form
        that is no longer mounted. */
    method SubmitPatientEdit(outcome: UpdateOutcome) returns (request: UpdateRequest)
      requires Valid() && editForm.Some? && editForm.value.ButtonsEnabled()
      modifies this`patientEditModal, this`editForm, editForm.value
      ensures Valid() && patientEditModal == ClosedEditModal && editForm == None
      ensures (forall k :: IsOpen(k) <==> old(IsOpen(k)) && k != PatientEditKind)
      ensures request == UpdateRequest(old(editForm.value.formData), old(patientEditModal.study.value.id))
    {
      var form := editForm.value;
      var study := patientEditModal.study.value;
      request := form.BeginSubmit(study);
      SavePatientEdit(request, outcome);
      ClosePatientEdit();
      form.FinishSubmit();
    }
  }

  /** A round trip of the table through the loading view while the patient
      edit is open discards the draft: the form that comes back is a fresh
      one, prefilled from the study again, whatever was typed before. */
  method LoadingRoundTripResetsDraft(table: DoctorWorklistTable, studies: seq<Study>, pagination: Pagination)
    requires table.Valid() && table.editForm.Some? && studies != []
    modifies table`modalsMounted, table`editForm
    ensures table.Valid() && table.RenderProps(Some(studies), Some(false), Some(pagination)).Populated?
    ensures table.patientEditModal == old(table.patientEditModal)
    ensures table.editForm.Some? && table.editForm != old(table.editForm) && fresh(table.editForm.value)
    ensures table.editForm.value.formData == Prefill(table.patientEditModal.study.value)
    ensures !table.editForm.value.loading
  {
    table.CommitRender(Some(studies), Some(true));
    assert table.editForm == None;
    table.CommitRender(Some(studies), Some(false));
  }
}
