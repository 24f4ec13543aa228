/**
 * The request validators (backend/src/middleware/validation.ts): the `validate` middleware and the
 * four Joi schemas. Joi stops at the first failing rule (its default `abortEarly`), checking the
 * keys in the order the schema lists them, so a rejected body carries exactly one detail message.
 * For each schema there is the first-error function Joi computes and a plain statement of the
 * constraints; the two agree on which bodies are accepted.
 */
module Validation {
  import opened Wrappers
  import opened Enums
  import opened Http

  /** Joi's own message for an empty string, for keys whose schema does not override it. */
  function EmptyMessage(key: string): string
  {
    "\"" + key + "\" is not allowed to be empty"
  }

  /**
   * The `validate(schema)` middleware: a rejected body ends the request with 400 "Validation error"
   * and the detail messages; an accepted one goes on to the handler (`next()`).
   */
  function Validate<T>(firstError: Option<string>): (g: Gate<T>)
    ensures g.Next? <==> firstError.None?
    ensures firstError.Some? ==> g.reply == Err(400, "Validation error", [firstError.value])
  {
    match firstError
    case None => Next
    case Some(m) => Halt(Err(400, "Validation error", [m]))
  }

  // ----- registerSchema -----

  datatype RegisterBody = RegisterBody(name: Option<string>, email: Option<string>,
                                       password: Option<string>, role: Option<string>)

  /** Name of 2 to 50 characters, an e-mail, a password of at least 6, and a known role if any. */
  predicate RegisterAccepted(b: RegisterBody, isEmail: string -> bool)
  {
    && b.name.Some? && 2 <= |b.name.value| <= 50
    && b.email.Some? && b.email.value != "" && isEmail(b.email.value)
    && b.password.Some? && |b.password.value| >= 6
    && (b.role.Some? ==> ParseRole(b.role.value).Some?)
  }

  /** The first message Joi reports for a register body; `isEmail` is Joi's e-mail rule. */
  function RegisterError(b: RegisterBody, isEmail: string -> bool): (r: Option<string>)
    ensures r.None? <==> RegisterAccepted(b, isEmail)
  {
    if b.name.None? then Some("Name is required")
    else if b.name.value == "" then Some(EmptyMessage("name"))
    else if |b.name.value| < 2 then Some("Name must be at least 2 characters")
    else if |b.name.value| > 50 then Some("Name cannot exceed 50 characters")
    else if b.email.None? then Some("Email is required")
    else if b.email.value == "" then Some(EmptyMessage("email"))
    else if !isEmail(b.email.value) then Some("Please provide a valid email")
    else if b.password.None? then Some("Password is required")
    else if b.password.value == "" then Some(EmptyMessage("password"))
    else if |b.password.value| < 6 then Some("Password must be at least 6 characters")
    else if b.role.Some? && ParseRole(b.role.value).None? then
      Some("\"role\" must be one of [candidate, interviewer, admin]")
    else None
  }

  // ----- loginSchema -----

  datatype LoginBody = LoginBody(email: Option<string>, password: Option<string>)

  /** An e-mail and a non-empty password; the password has no length rule here. */
  predicate LoginAccepted(b: LoginBody, isEmail: string -> bool)
  {
    && b.email.Some? && b.email.value != "" && isEmail(b.email.value)
    && b.password.Some? && b.password.value != ""
  }

  function LoginError(b: LoginBody, isEmail: string -> bool): (r: Option<string>)
    ensures r.None? <==> LoginAccepted(b, isEmail)
  {
    if b.email.None? then Some("Email is required")
    else if b.email.value == "" then Some(EmptyMessage("email"))
    else if !isEmail(b.email.value) then Some("Please provide a valid email")
    else if b.password.None? then Some("Password is required")
    else if b.password.value == "" then Some(EmptyMessage("password"))
    else None
  }

  // ----- scheduleInterviewSchema -----

  datatype ScheduleBody = ScheduleBody(title: Option<string>, scheduledTime: Option<int>,
                                       duration: Option<int>)

  /** A title of 1 to 100 characters, a time strictly after `now`, a duration from 15 to 180. */
  predicate ScheduleAccepted(b: ScheduleBody, now: int)
  {
    && b.title.Some? && 1 <= |b.title.value| <= 100
    && b.scheduledTime.Some? && b.scheduledTime.value > now
    && b.duration.Some? && 15 <= b.duration.value <= 180
  }

  function ScheduleError(b: ScheduleBody, now: int): (r: Option<string>)
    ensures r.None? <==> ScheduleAccepted(b, now)
  {
    if b.title.None? then Some("Interview title is required")
    else if b.title.value == "" then Some(EmptyMessage("title"))
    else if |b.title.value| > 100 then Some("Title cannot exceed 100 characters")
    else if b.scheduledTime.None? then Some("Scheduled time is required")
    else if b.scheduledTime.value <= now then Some("Scheduled time must be in the future")
    else if b.duration.None? then Some("Duration is required")
    else if b.duration.value < 15 then Some("Duration must be at least 15 minutes")
    else if b.duration.value > 180 then Some("Duration cannot exceed 180 minutes")
    else None
  }

  // ----- interviewDecisionSchema -----

  datatype DecisionBody = DecisionBody(result: Option<string>, notes: Option<string>)

  /** A result of "pass" or "fail", and optional non-empty notes of at most 1000 characters. */
  predicate DecisionAccepted(b: DecisionBody)
  {
    && b.result.Some? && ParseOutcome(b.result.value).Some?
    && (b.notes.Some? ==> 1 <= |b.notes.value| <= 1000)
  }

  function DecisionError(b: DecisionBody): (r: Option<string>)
    ensures r.None? <==> DecisionAccepted(b)
  {
    if b.result.None? then Some("Result is required")
    else if ParseOutcome(b.result.value).None? then Some("Result must be either pass or fail")
    else if b.notes.Some? && b.notes.value == "" then Some(EmptyMessage("notes"))
    else if b.notes.Some? && |b.notes.value| > 1000 then Some("Notes cannot exceed 1000 characters")
    else None
  }
}
