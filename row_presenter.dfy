/** `StudyRow`: what one row of the worklist shows for one study, as pure
    functions of the study and its position, and the row's own state, the
    download-options popover. */
module RowPresenter {
  import opened Wrappers
  import opened JsRuntime
  import opened StatusDisplay
  import opened DateFormat
  import opened StudyRecord

  predicate IsUrgent(s: Study) {
    s.priority == Some("URGENT") || s.priority == Some("EMERGENCY")
  }

  predicate IsRejected(s: Study) {
    s.workflowStatus == Some("report_rejected")
  }

  predicate HasNotes(s: Study) {
    s.hasStudyNotes || (s.discussionCount.Some? && s.discussionCount.value > 0)
  }

  predicate HasAttachments(s: Study) {
    s.attachmentCount.Some? && s.attachmentCount.value > 0
  }

  /** Alternating row background: white on even rows, light slate on odd. */
  function RowBackground(index: nat): (background: string)
    ensures background != ""
  {
    if index % 2 == 0 then "bg-white" else "bg-slate-50/50"
  }

  const UrgentAccent: string := "border-l-rose-500"
  const RejectedAccent: string := "border-l-rose-600"

  /** The row's class list: background, an accent left border for each of
      urgent and rejected, then the fixed hover and border classes. */
  function RowClasses(s: Study, index: nat): (classes: seq<string>)
    ensures |classes| == 6 + (if IsUrgent(s) then 2 else 0) + (if IsRejected(s) then 2 else 0)
  {
    [RowBackground(index)]
    + (if IsUrgent(s) then ["border-l-4", UrgentAccent] else [])
    + (if IsRejected(s) then ["border-l-4", RejectedAccent] else [])
    + ["hover:bg-teal-50/50", "transition-all", "duration-200", "border-b", "border-slate-100"]
  }

  /** The BP-ID cell: the BharatPACS id unless it is the "N/A" sentinel,
      else the first ten characters of the study id (nothing when absent). */
  function BpIdCell(s: Study): (cell: Option<string>)
    ensures s.bharatPacsId == Some("N/A") ==> (cell.Some? <==> s.id.Some?)
    ensures s.bharatPacsId == Some("N/A") && cell.Some? ==> |cell.value| <= 10
    ensures s.bharatPacsId != Some("N/A") ==> cell == s.bharatPacsId
  {
    if s.bharatPacsId != Some("N/A") then s.bharatPacsId
    else match s.id
      case Some(i) => Some(Prefix(i, 10))
      case None => None
  }

  /** What the copy button next to the BP-ID puts on the clipboard. */
  function CopiedBpId(s: Study): (copied: Option<string>)
    ensures copied == Some("N/A") ==> s.id == Some("N/A")
    ensures copied.None? <==> s.bharatPacsId.None? || (s.bharatPacsId == Some("N/A") && s.id.None?)
  {
    if s.bharatPacsId != Some("N/A") then s.bharatPacsId else s.id
  }

  /** The age/sex cell. */
  function AgeSexCell(s: Study): (cell: Option<string>)
    ensures cell.None? <==> s.ageGender.None?
    ensures s.ageGender == Some("N/A") ==> cell.value != ""
  {
    if s.ageGender != Some("N/A") then s.ageGender
    else if Truthy(s.patientAge) && Truthy(s.patientSex) then
      Some(s.patientAge.value + "/" + FirstChar(s.patientSex.value))
    else Some("-")
  }

  /** The clinical-history cell: the inner string of a wrapper object, or the
      plain string, or "-" when that is empty or missing. */
  function ClinicalHistoryCell(h: ClinicalHistory): (text: string)
    ensures text != ""
  {
    match h
    case Wrapped(inner) => OrElse(inner, "-")
    case Plain(text) => OrElse(Some(text), "-")
    case Null => "-"
    case Undefined => "-"
  }

  /** The attachments button's title. */
  function AttachmentsTitle(s: Study): (title: string)
    ensures title != ""
  {
    if HasAttachments(s) then IntToString(s.attachmentCount.value) + " attachment(s)" else "No attachments"
  }

  /** The notes button's title: the number of discussions, or 1 for a study
      flagged as having notes without any. */
  function NotesTitle(s: Study): (title: string)
    ensures title != ""
  {
    if !HasNotes(s) then "No notes"
    else if s.discussionCount.Some? && s.discussionCount.value > 0 then IntToString(s.discussionCount.value) + " note(s)"
    else "1 note(s)"
  }

  /** The rejection-reason column: for a rejected study, the verification
      notes under a tooltip holding the rejection reason; otherwise a dash. */
  datatype RejectionCell = Reason(notes: Option<string>, tooltip: string) | Dash

  /** Everything one row shows, cell by cell. */
  datatype RowView = RowView(
    classes: seq<string>,
    bpId: Option<string>,
    centerName: string,
    subCenterName: string,
    patientName: string,
    urgentMarker: bool,
    uhid: string,
    ageSex: Option<string>,
    modality: string,
    modalityClasses: string,
    studyDescription: string,
    seriesCount: nat,
    instanceCount: nat,
    patientIdCell: string,
    accessionNumber: string,
    referral: Option<string>,
    clinicalHistory: string,
    attachmentsHighlighted: bool,
    attachmentsTitle: string,
    notesHighlighted: bool,
    notesTitle: string,
    studyDate: string,
    studyTime: string,
    uploadDate: string,
    uploadTime: string,
    statusClasses: string,
    statusText: string,
    rejection: RejectionCell)

  /** The row for the study at position `index`. The markers follow the row
      predicates, and every text cell shows something: each falls back to a
      placeholder. Only the BP-ID, age/sex and referral cells pass a missing
      field through, because their tests compare with "N/A" alone. */
  function RenderRow(s: Study, index: nat): (row: RowView)
    ensures row.urgentMarker == IsUrgent(s)
    ensures row.notesHighlighted == HasNotes(s) && row.attachmentsHighlighted == HasAttachments(s)
    ensures row.rejection.Reason? == IsRejected(s)
    ensures && row.centerName != "" && row.subCenterName != "" && row.patientName != "" && row.uhid != ""
            && row.modality != "" && row.studyDescription != "" && row.patientIdCell != ""
            && row.accessionNumber != "" && row.clinicalHistory != "" && row.attachmentsTitle != ""
            && row.notesTitle != "" && row.studyDate != "" && row.studyTime != "" && row.uploadDate != ""
            && row.uploadTime != "" && row.statusText != ""
    ensures s.bharatPacsId == None ==> row.bpId == None
    ensures s.ageGender == None ==> row.ageSex == None
    ensures s.referralNumber == None ==> row.referral == None
  {
    RowView(
      RowClasses(s, index),
      BpIdCell(s),
      OrElse(s.organizationName, "-"),
      OrElse(s.centerName, "-"),
      OrElse(s.patientName, "-"),
      IsUrgent(s),
      OrElse(s.patientId, "-"),
      AgeSexCell(s),
      OrElse(s.modality, "-"),
      if IsUrgent(s) then ShadeClasses("rose") else ShadeClasses("blue"),
      OrElse(s.studyDescription, "N/A"),
      s.seriesCount.GetOr(0),
      s.instanceCount.GetOr(0),
      OrElse(s.patientId, "-"),
      OrElse(s.accessionNumber, "-"),
      if s.referralNumber != Some("N/A") then s.referralNumber else Some("-"),
      ClinicalHistoryCell(s.clinicalHistory),
      HasAttachments(s),
      AttachmentsTitle(s),
      HasNotes(s),
      NotesTitle(s),
      FormatDate(s.studyDate.raw, s.studyDate.date),
      OrElse(s.studyTime, "-"),
      FormatDate(s.createdAt.raw, s.createdAt.date),
      FormatTime(s.createdAt.raw, s.createdAt.date),
      StatusColor(s.workflowStatus),
      StatusText(s.caseStatusCategory, s.workflowStatus),
      if IsRejected(s) then Reason(s.verificationNotes, OrElse(s.rejectionReason, "-")) else Dash)
  }

  /** The row classes follow the flags: the background alternates with the
      position, and each accent border is there exactly when its flag holds. */
  lemma RowClassesFollowFlags(s: Study, index: nat)
    ensures RowClasses(s, index)[0] == RowBackground(index)
    ensures RowBackground(index) != RowBackground(index + 1)
    ensures RowBackground(index) == RowBackground(index + 2)
    ensures UrgentAccent in RowClasses(s, index) <==> IsUrgent(s)
    ensures RejectedAccent in RowClasses(s, index) <==> IsRejected(s)
    ensures "border-l-4" in RowClasses(s, index) <==> IsUrgent(s) || IsRejected(s)
  {
    var tail := ["hover:bg-teal-50/50", "transition-all", "duration-200", "border-b", "border-slate-100"];
    var u: seq<string> := if IsUrgent(s) then ["border-l-4", UrgentAccent] else [];
    var r: seq<string> := if IsRejected(s) then ["border-l-4", RejectedAccent] else [];
    var c := RowClasses(s, index);
    assert c == [RowBackground(index)] + u + r + tail;
    assert forall x :: x in c <==> x == RowBackground(index) || x in u || x in r || x in tail;
  }

  /** The rejection column is populated exactly for a rejected study, with
      its verification notes and its rejection reason (or "-") as tooltip;
      a rejected status is the one known status `Rejected`. */
  lemma RejectionColumn(s: Study, index: nat)
    ensures RenderRow(s, index).rejection.Reason? <==> IsRejected(s)
    ensures IsRejected(s) <==> ParseStatus(s.workflowStatus) == Some(ReportRejected)
    ensures IsRejected(s) ==>
      RenderRow(s, index).rejection == Reason(s.verificationNotes, OrElse(s.rejectionReason, "-"))
  {
    ParseCode(ReportRejected);
  }

  /** The age/sex cell shows `ageGender` whenever it is not exactly "N/A";
      otherwise age, a slash and the first letter of the sex when both are
      truthy, else "-". */
  lemma AgeSexCellCases(s: Study)
    ensures s.ageGender != Some("N/A") ==> AgeSexCell(s) == s.ageGender
    ensures s.ageGender == Some("N/A") && Truthy(s.patientAge) && Truthy(s.patientSex) ==>
      AgeSexCell(s) == Some(s.patientAge.value + "/" + [s.patientSex.value[0]])
    ensures s.ageGender == Some("N/A") && !(Truthy(s.patientAge) && Truthy(s.patientSex)) ==>
      AgeSexCell(s) == Some("-")
  {
  }

  /** The BP-ID shown is always the start of what the copy button copies:
      all of it when the BharatPACS id is usable, at most ten characters of
      the study id otherwise. */
  lemma BpIdShownIsPrefixOfCopied(s: Study)
    ensures BpIdCell(s).Some? <==> CopiedBpId(s).Some?
    ensures BpIdCell(s).Some? ==> BpIdCell(s).value <= CopiedBpId(s).value
    ensures s.bharatPacsId != Some("N/A") ==> BpIdCell(s) == CopiedBpId(s)
    ensures s.bharatPacsId == Some("N/A") && BpIdCell(s).Some? ==> |BpIdCell(s).value| <= 10
  {
  }

  /** The clinical-history cell never shows a wrapper object: it shows the
      string the study carries, under either shape, or "-". */
  lemma ClinicalHistoryShapes(text: string)
    ensures ClinicalHistoryCell(Plain(text)) == ClinicalHistoryCell(Wrapped(Some(text)))
    ensures ClinicalHistoryCell(Plain(text)) == if text == "" then "-" else text
    ensures ClinicalHistoryCell(Wrapped(None)) == ClinicalHistoryCell(Null) == ClinicalHistoryCell(Undefined) == "-"
  {
  }

  /** The status badge: gray exactly for an unknown status; its text is the
      case-status category when there is one, else the status label. */
  lemma StatusCell(s: Study, index: nat)
    ensures RenderRow(s, index).statusClasses == GrayClasses <==> ParseStatus(s.workflowStatus).None?
    ensures Truthy(s.caseStatusCategory) ==> RenderRow(s, index).statusText == s.caseStatusCategory.value
    ensures !Truthy(s.caseStatusCategory) ==> RenderRow(s, index).statusText == FormatWorkflowStatus(s.workflowStatus)
  {
  }

  /** A study with every optional field missing still renders. Most cells
      fall back to their placeholder, but the BP-ID, age/sex and referral
      cells are empty: a missing field is not "N/A", so it is shown as it is. */
  lemma BlankStudyRow(index: nat)
    ensures var row := RenderRow(Blank, index);
      && row.bpId == None && row.centerName == "-" && row.subCenterName == "-"
      && row.patientName == "-" && row.uhid == "-" && row.ageSex == None && row.modality == "-"
      && row.studyDescription == "N/A" && row.seriesCount == 0 && row.instanceCount == 0
      && row.accessionNumber == "-" && row.referral == None && row.clinicalHistory == "-"
      && row.studyDate == "-" && row.studyTime == "-" && row.uploadDate == "-" && row.uploadTime == "-"
      && row.statusClasses == GrayClasses && row.statusText == "Unknown" && row.rejection == Dash
      && !row.urgentMarker && !row.notesHighlighted && !row.attachmentsHighlighted
  {
  }

  /** A rejected, urgent study without a case-status category: both
      accents, the urgency marker, the label "Rejected", and the rejection
      column filled rather than a dash. */
  lemma RejectedUrgentRow(s: Study, index: nat)
    requires ParseStatus(s.workflowStatus) == Some(ReportRejected) && IsUrgent(s) && !Truthy(s.caseStatusCategory)
    ensures UrgentAccent in RenderRow(s, index).classes && RejectedAccent in RenderRow(s, index).classes
    ensures RenderRow(s, index).urgentMarker
    ensures RenderRow(s, index).rejection == Reason(s.verificationNotes, OrElse(s.rejectionReason, "-"))
    ensures RenderRow(s, index).statusText == Label(ReportRejected)
  {
    RejectionColumn(s, index);
    RowClassesFollowFlags(s, index);
  }

  /** A wrapped clinical history shows its inner text. */
  lemma WrappedHistoryRow(index: nat)
    ensures RenderRow(Blank.(clinicalHistory := Wrapped(Some("Hx of asthma"))), index).clinicalHistory == "Hx of asthma"
  {
  }

  /** The count a button title leads with, read back: the integer before
      `suffix`, or `None` when the title is not a number followed by it. */
  function CountInTitle(title: string, suffix: string): Option<int> {
    if |title| > |suffix| && title[|title| - |suffix|..] == suffix
    then ParseInteger(title[..|title| - |suffix|])
    else None
  }

  /** The count the notes title carries, read back. */
  lemma {:induction false} NotesTitleCount(s: Study)
    ensures s.discussionCount.Some? && s.discussionCount.value > 0 ==>
      && NotesTitle(s) == IntToString(s.discussionCount.value) + " note(s)"
      && CountInTitle(NotesTitle(s), " note(s)") == Some(s.discussionCount.value as int)
    ensures s.hasStudyNotes && !(s.discussionCount.Some? && s.discussionCount.value > 0) ==>
      && NotesTitle(s) == "1 note(s)"
      && CountInTitle(NotesTitle(s), " note(s)") == Some(1)
    ensures !HasNotes(s) ==> NotesTitle(s) == "No notes" && CountInTitle("No notes", " note(s)") == None
  {
    var title := NotesTitle(s);
    if s.discussionCount.Some? && s.discussionCount.value > 0 {
      var n := s.discussionCount.value;
      IntToStringRoundTrip(n);
      assert title[..|title| - 8] == IntToString(n);
    } else if s.hasStudyNotes {
      IntToStringRoundTrip(1);
      assert title[..|title| - 8] == "1" == IntToString(1);
    }
  }

  /** The notes button is highlighted exactly when the study is flagged as
      having notes or has discussions. Its title carries the number of
      discussions, or 1 when the flag is set without any (the `|| '1'`
      fallback), and no count when there are no notes. */
  lemma NotesCell(s: Study, index: nat)
    ensures RenderRow(s, index).notesHighlighted <==>
      s.hasStudyNotes || (s.discussionCount.Some? && s.discussionCount.value > 0)
    ensures s.discussionCount.Some? && s.discussionCount.value > 0 ==>
      && RenderRow(s, index).notesTitle == IntToString(s.discussionCount.value) + " note(s)"
      && CountInTitle(RenderRow(s, index).notesTitle, " note(s)") == Some(s.discussionCount.value as int)
    ensures s.hasStudyNotes && !(s.discussionCount.Some? && s.discussionCount.value > 0) ==>
      && RenderRow(s, index).notesTitle == "1 note(s)"
      && CountInTitle(RenderRow(s, index).notesTitle, " note(s)") == Some(1)
    ensures !HasNotes(s) ==>
      RenderRow(s, index).notesTitle == "No notes" && CountInTitle("No notes", " note(s)") == None
  {
    assert RenderRow(s, index).notesTitle == NotesTitle(s);
    NotesTitleCount(s);
  }

  /** The attachments button is highlighted exactly when the study has
      attachments, and its title then carries their number. */
  lemma {:induction false} AttachmentsCell(s: Study, index: nat)
    ensures RenderRow(s, index).attachmentsHighlighted <==> s.attachmentCount.Some? && s.attachmentCount.value > 0
    ensures HasAttachments(s) ==>
      && RenderRow(s, index).attachmentsTitle == IntToString(s.attachmentCount.value) + " attachment(s)"
      && CountInTitle(RenderRow(s, index).attachmentsTitle, " attachment(s)") == Some(s.attachmentCount.value as int)
    ensures !HasAttachments(s) ==>
      && RenderRow(s, index).attachmentsTitle == "No attachments"
      && CountInTitle("No attachments", " attachment(s)") == None
  {
    var title := AttachmentsTitle(s);
    assert RenderRow(s, index).attachmentsTitle == title;
    if HasAttachments(s) {
      var n := s.attachmentCount.value;
      IntToStringRoundTrip(n);
      assert title[..|title| - 14] == IntToString(n);
    }
  }

  /** Where the download popover is anchored: below the download button,
      in page coordinates. */
  datatype Anchor = Anchor(top: int, left: int, width: int)

  /** The row's own state: whether its download-options popover is open and
      where it was last anchored. */
  class StudyRow {
    const study: Study
    const index: nat
    var showDownloadOptions: bool
    var downloadPosition: Option<Anchor>

    constructor (study: Study, index: nat)
      ensures this.study == study && this.index == index
      ensures !showDownloadOptions && downloadPosition == None
    {
      this.study := study;
      this.index := index;
      showDownloadOptions := false;
      downloadPosition := None;
    }

    /** The download button: records where the button is and toggles the
        popover. */
    method HandleDownloadClick(anchor: Anchor)
      modifies this`showDownloadOptions, this`downloadPosition
      ensures showDownloadOptions == !old(showDownloadOptions)
      ensures downloadPosition == Some(anchor)
    {
      downloadPosition := Some(anchor);
      showDownloadOptions := !showDownloadOptions;
    }

    /** The popover's close callback: closes it and keeps the last anchor. */
    method CloseDownloadOptions()
      modifies this`showDownloadOptions
      ensures !showDownloadOptions
    {
      showDownloadOptions := false;
    }
  }

  /** Two clicks on the download button leave the popover open or closed as
      it was, anchored at the second click. */
  method DownloadToggleTwice(row: StudyRow, first: Anchor, second: Anchor)
    modifies row
    ensures row.showDownloadOptions == old(row.showDownloadOptions)
    ensures row.downloadPosition == Some(second)
  {
    row.HandleDownloadClick(first);
    row.HandleDownloadClick(second);
  }
}
