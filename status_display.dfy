/** The status column of a worklist row: the colour classes of the status
    badge (`getStatusColor`) and its label (`formatWorkflowStatus`), both total
    over any status value, and the text the badge finally shows. */
module StatusDisplay {
  import opened Wrappers
  import opened JsRuntime

  /** The twelve workflow statuses the table knows, in the order the
      `getStatusColor` switch lists them. */
  datatype WorkflowStatus =
    | NewStudyReceived | PendingAssignment | AssignedToDoctor | DoctorOpenedReport
    | ReportInProgress | ReportDrafted | ReportFinalized | FinalReportDownloaded
    | VerificationInProgress | ReportVerified | ReportRejected | Archived

  /** The string the backend sends for each status. */
  function Code(w: WorkflowStatus): string {
    match w
    case NewStudyReceived => "new_study_received"
    case PendingAssignment => "pending_assignment"
    case AssignedToDoctor => "assigned_to_doctor"
    case DoctorOpenedReport => "doctor_opened_report"
    case ReportInProgress => "report_in_progress"
    case ReportDrafted => "report_drafted"
    case ReportFinalized => "report_finalized"
    case FinalReportDownloaded => "final_report_downloaded"
    case VerificationInProgress => "verification_in_progress"
    case ReportVerified => "report_verified"
    case ReportRejected => "report_rejected"
    case Archived => "archived"
  }

  /** Recognises a status value: `Some` exactly for the twelve codes. */
  function ParseStatus(status: Option<string>): (w: Option<WorkflowStatus>)
    ensures w.Some? ==> status == Some(Code(w.value))
    ensures w.None? ==> forall v :: status != Some(Code(v))
  {
    match status
    case Some("new_study_received") => Some(NewStudyReceived)
    case Some("pending_assignment") => Some(PendingAssignment)
    case Some("assigned_to_doctor") => Some(AssignedToDoctor)
    case Some("doctor_opened_report") => Some(DoctorOpenedReport)
    case Some("report_in_progress") => Some(ReportInProgress)
    case Some("report_drafted") => Some(ReportDrafted)
    case Some("report_finalized") => Some(ReportFinalized)
    case Some("final_report_downloaded") => Some(FinalReportDownloaded)
    case Some("verification_in_progress") => Some(VerificationInProgress)
    case Some("report_verified") => Some(ReportVerified)
    case Some("report_rejected") => Some(ReportRejected)
    case Some("archived") => Some(Archived)
    case _ => None
  }

  /** Every status badge uses one Tailwind shade for its background, text and
      border; the class strings of `getStatusColor` are this pattern filled
      with the shade, so the model writes them that way. */
  function ShadeClasses(shade: string): string {
    "bg-" + shade + "-100 text-" + shade + "-700 border border-" + shade + "-200"
  }

  /** Different shades give different class strings. */
  lemma ShadeClassesInjective(s1: string, s2: string)
    ensures ShadeClasses(s1) == ShadeClasses(s2) <==> s1 == s2
  {
    if ShadeClasses(s1) == ShadeClasses(s2) {
      assert |s1| == |s2|;
      assert ShadeClasses(s1)[3..3 + |s1|] == s1;
      assert ShadeClasses(s2)[3..3 + |s2|] == s2;
    }
  }

  /** The shade of each known status. */
  function Shade(w: WorkflowStatus): string {
    match w
    case NewStudyReceived => "blue"
    case PendingAssignment => "yellow"
    case AssignedToDoctor => "purple"
    case DoctorOpenedReport => "indigo"
    case ReportInProgress => "cyan"
    case ReportDrafted => "teal"
    case ReportFinalized => "emerald"
    case FinalReportDownloaded => "green"
    case VerificationInProgress => "orange"
    case ReportVerified => "green"
    case ReportRejected => "rose"
    case Archived => "slate"
  }

  /** The default classes, for anything that is not a known status. */
  const GrayClasses: string := ShadeClasses("gray")

  /** `getStatusColor`. The component switches on the raw status string;
      here that switch is `ParseStatus`, followed by the shade table. It is total:
      a known status gets the classes of its shade, and anything else (an
      unknown string, or no status at all) gets the gray classes, which no
      known status uses. */
  function StatusColor(status: Option<string>): (classes: string)
    ensures classes == GrayClasses <==> ParseStatus(status).None?
  {
    match ParseStatus(status)
    case Some(w) =>
      ShadeClassesInjective(Shade(w), "gray");
      ShadeClasses(Shade(w))
    case None => GrayClasses
  }

  /** Only the downloaded and the verified status share a shade. */
  lemma SharedShades(a: WorkflowStatus, b: WorkflowStatus)
    ensures Shade(a) == Shade(b) <==>
      a == b || (a == FinalReportDownloaded && b == ReportVerified) || (a == ReportVerified && b == FinalReportDownloaded)
  {
    match a
    case FinalReportDownloaded => {}
    case ReportVerified => {}
    case _ => {}
  }

  /** The colouring of known statuses is not injective: two different known
      statuses share a colour exactly when they are the downloaded and the
      verified status. */
  lemma StatusColorCollisions(s1: Option<string>, s2: Option<string>)
    requires ParseStatus(s1).Some? && ParseStatus(s2).Some? && s1 != s2
    ensures StatusColor(s1) == StatusColor(s2) <==>
      {ParseStatus(s1).value, ParseStatus(s2).value} == {FinalReportDownloaded, ReportVerified}
  {
    var w1, w2 := ParseStatus(s1).value, ParseStatus(s2).value;
    assert w1 != w2;
    ShadeClassesInjective(Shade(w1), Shade(w2));
    SharedShades(w1, w2);
    assert {w1, w2} == {FinalReportDownloaded, ReportVerified} <==>
      (w1 == FinalReportDownloaded && w2 == ReportVerified) || (w1 == ReportVerified && w2 == FinalReportDownloaded);
  }

  /** The short label of each known status. */
  function Label(w: WorkflowStatus): string {
    match w
    case NewStudyReceived => "New"
    case PendingAssignment => "Pending"
    case AssignedToDoctor => "Assigned"
    case DoctorOpenedReport => "Opened"
    case ReportInProgress => "In Progress"
    case ReportDrafted => "Drafted"
    case ReportFinalized => "Finalized"
    case FinalReportDownloaded => "Downloaded"
    case VerificationInProgress => "Verifying"
    case ReportVerified => "Verified"
    case ReportRejected => "Rejected"
    case Archived => "Archived"
  }

  /** `formatWorkflowStatus`: the short label of a known status; an unknown
      value is shown as it is, and an empty or missing one as "Unknown". The
      result is never empty, and a known status never shows its raw code. */
  function FormatWorkflowStatus(status: Option<string>): (caption: string)
    ensures ParseStatus(status).None? ==> caption == OrElse(status, "Unknown")
    ensures ParseStatus(status).Some? ==> caption != "Unknown" && caption != status.value
    ensures caption != ""
  {
    match ParseStatus(status)
    case Some(w) => Label(w)
    case None => OrElse(status, "Unknown")
  }

  /** Unlike the colours, the labels of two different known statuses differ. */
  lemma LabelsDistinct(s1: Option<string>, s2: Option<string>)
    requires ParseStatus(s1).Some? && ParseStatus(s2).Some?
    ensures FormatWorkflowStatus(s1) == FormatWorkflowStatus(s2) <==> s1 == s2
  {
    var w1, w2 := ParseStatus(s1).value, ParseStatus(s2).value;
    assert Label(w1) == Label(w2) <==> w1 == w2;
  }

  /** Beyond the known statuses the caption is ambiguous: no label is itself
      a status code, so a status sent as a label's text is shown as that
      label, and a status sent as "Unknown" reads like a missing one. */
  lemma {:induction false} CaptionsBeyondKnownStatuses(w: WorkflowStatus)
    ensures ParseStatus(Some(Label(w))).None?
    ensures FormatWorkflowStatus(Some(Label(w))) == FormatWorkflowStatus(Some(Code(w)))
    ensures FormatWorkflowStatus(Some("Unknown")) == FormatWorkflowStatus(None)
  {
    LabelStartsUpper(w);
    forall v: WorkflowStatus ensures Label(w) != Code(v) && "Unknown" != Code(v) {
      CodeStartsLower(v);
    }
    ParseCode(w);
  }

  lemma CodeStartsLower(w: WorkflowStatus)
    ensures |Code(w)| > 0 && 'a' <= Code(w)[0] <= 'z'
  {
  }

  lemma LabelStartsUpper(w: WorkflowStatus)
    ensures |Label(w)| > 0 && 'A' <= Label(w)[0] <= 'Z'
  {
  }

  /** Each code is recognised as its own status. */
  lemma ParseCode(w: WorkflowStatus)
    ensures ParseStatus(Some(Code(w))) == Some(w)
  {
  }

  /** The badge text: the case-status category when it is truthy, otherwise
      the label of the workflow status. */
  function StatusText(caseStatusCategory: Option<string>, workflowStatus: Option<string>): (text: string)
    ensures Truthy(caseStatusCategory) ==> text == caseStatusCategory.value
    ensures !Truthy(caseStatusCategory) ==> text == FormatWorkflowStatus(workflowStatus)
    ensures text != ""
  {
    OrElse(caseStatusCategory, FormatWorkflowStatus(workflowStatus))
  }
}
