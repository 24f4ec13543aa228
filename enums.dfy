/**
 * The enumerations shared by the records and the handlers: user roles, interview status,
 * interview result, proctoring log type and severity. Each has the string the database and
 * the wire use, and a parser that recognises exactly those strings.
 */
module Enums {
  import opened Wrappers

  datatype Role = Candidate | Interviewer | Admin

  function RoleName(r: Role): string
  {
    match r
    case Candidate => "candidate"
    case Interviewer => "interviewer"
    case Admin => "admin"
  }

  function ParseRole(s: string): (r: Option<Role>)
    ensures r.Some? <==> s in {"candidate", "interviewer", "admin"}
    ensures r.Some? ==> RoleName(r.value) == s
  {
    if s == "candidate" then Some(Candidate)
    else if s == "interviewer" then Some(Interviewer)
    else if s == "admin" then Some(Admin)
    else None
  }

  lemma RoleRoundTrip(r: Role)
    ensures ParseRole(RoleName(r)) == Some(r)
  {
  }

  datatype Status = Scheduled | Ongoing | Completed | Cancelled

  function StatusName(s: Status): string
  {
    match s
    case Scheduled => "scheduled"
    case Ongoing => "ongoing"
    case Completed => "completed"
    case Cancelled => "cancelled"
  }

  function ParseStatus(s: string): (r: Option<Status>)
    ensures r.Some? <==> s in {"scheduled", "ongoing", "completed", "cancelled"}
    ensures r.Some? ==> StatusName(r.value) == s
  {
    if s == "scheduled" then Some(Scheduled)
    else if s == "ongoing" then Some(Ongoing)
    else if s == "completed" then Some(Completed)
    else if s == "cancelled" then Some(Cancelled)
    else None
  }

  lemma StatusRoundTrip(s: Status)
    ensures ParseStatus(StatusName(s)) == Some(s)
  {
  }

  /** The decision recorded on a completed interview (`result`). */
  datatype Outcome = Pass | Fail

  function OutcomeName(o: Outcome): string
  {
    match o
    case Pass => "pass"
    case Fail => "fail"
  }

  function ParseOutcome(s: string): (r: Option<Outcome>)
    ensures r.Some? <==> s in {"pass", "fail"}
    ensures r.Some? ==> OutcomeName(r.value) == s
  {
    if s == "pass" then Some(Pass)
    else if s == "fail" then Some(Fail)
    else None
  }

  datatype LogType = TabSwitch | MultipleFace | MicMuted | WindowMinimize | AudioDetected | VideoDisabled

  function LogTypeName(t: LogType): string
  {
    match t
    case TabSwitch => "tab-switch"
    case MultipleFace => "multiple-face"
    case MicMuted => "mic-muted"
    case WindowMinimize => "window-minimize"
    case AudioDetected => "audio-detected"
    case VideoDisabled => "video-disabled"
  }

  function ParseLogType(s: string): (r: Option<LogType>)
    ensures r.Some? <==> s in {"tab-switch", "multiple-face", "mic-muted",
                               "window-minimize", "audio-detected", "video-disabled"}
    ensures r.Some? ==> LogTypeName(r.value) == s
  {
    if s == "tab-switch" then Some(TabSwitch)
    else if s == "multiple-face" then Some(MultipleFace)
    else if s == "mic-muted" then Some(MicMuted)
    else if s == "window-minimize" then Some(WindowMinimize)
    else if s == "audio-detected" then Some(AudioDetected)
    else if s == "video-disabled" then Some(VideoDisabled)
    else None
  }

  datatype Severity = Low | Medium | High

  function SeverityName(s: Severity): string
  {
    match s
    case Low => "low"
    case Medium => "medium"
    case High => "high"
  }

  function ParseSeverity(s: string): (r: Option<Severity>)
    ensures r.Some? <==> s in {"low", "medium", "high"}
    ensures r.Some? ==> SeverityName(r.value) == s
  {
    if s == "low" then Some(Low)
    else if s == "medium" then Some(Medium)
    else if s == "high" then Some(High)
    else None
  }
}
