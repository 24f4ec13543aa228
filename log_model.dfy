/**
 * The Log record (backend/src/models/Log.ts): one proctoring event of one interview, with its
 * enumerated type and severity, bounded details and defaults.
 */
module LogModel {
  import opened Wrappers
  import opened Enums
  import opened Text

  const DetailsMaxLength := 500

  datatype Log = Log(
    interviewId: string,
    logType: LogType,
    timestamp: int,
    details: string,
    severity: Severity,
    resolved: bool,
    createdAt: int,
    updatedAt: int)

  /** The schema validators that the field types do not already guarantee. */
  predicate ValidLog(l: Log)
  {
    && IsObjectIdText(l.interviewId)
    && l.details != "" && |l.details| <= DetailsMaxLength
  }

  /** Whether `new Log({ interviewId, type, details, severity })` passes validation. */
  predicate AcceptsLog(logType: Option<string>, details: Option<string>, severity: Option<string>)
  {
    && logType.Some? && ParseLogType(logType.value).Some?
    && details.Some? && details.value != "" && |details.value| <= DetailsMaxLength
    && ParseSeverity(severity.GetOr("medium")).Some?
  }

  /**
   * `new Log({ interviewId, type, details, severity })` and its validation at time `now`: the
   * severity defaults to "medium" when undefined, `resolved` to false and `timestamp` to `now`.
   * None is the ValidationError that makes `save()` throw.
   */
  function CreateLog(interviewId: string, logType: Option<string>, details: Option<string>,
                     severity: Option<string>, now: int): (r: Option<Log>)
    requires IsObjectIdText(interviewId)
    ensures r.Some? <==> AcceptsLog(logType, details, severity)
    ensures r.Some? ==> && ValidLog(r.value)
                        && r.value.interviewId == interviewId
                        && LogTypeName(r.value.logType) == logType.value
                        && r.value.details == details.value
                        && SeverityName(r.value.severity) == severity.GetOr("medium")
                        && !r.value.resolved
                        && r.value.timestamp == now && r.value.createdAt == now
  {
    if !AcceptsLog(logType, details, severity) then None
    else
      var t := ParseLogType(logType.value).value;
      var s := ParseSeverity(severity.GetOr("medium")).value;
      Some(Log(interviewId, t, now, details.value, s, false, now, now))
  }

  /** An undefined severity is stored as medium. */
  lemma SeverityDefaultsToMedium(interviewId: string, logType: string, details: string, now: int)
    requires IsObjectIdText(interviewId) && AcceptsLog(Some(logType), Some(details), None)
    ensures CreateLog(interviewId, Some(logType), Some(details), None, now).value.severity == Medium
  {
  }
}
