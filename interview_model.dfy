/**
 * The Interview record (backend/src/models/Interview.ts): fields, schema constraints, defaults and
 * the pre-validate hook that generates the invite token from 32 random bytes.
 */
module InterviewModel {
  import opened Wrappers
  import opened Enums
  import opened Text

  const TitleMaxLength := 100
  const DurationMin := 15
  const DurationMax := 180
  const NotesMaxLength := 1000
  /** `crypto.randomBytes(32)`. */
  const InviteTokenBytes := 32

  /** An interview document; ids are canonical ObjectId text, times are integer timestamps. */
  datatype Interview = Interview(
    candidateId: Option<string>,
    interviewerId: string,
    title: string,
    status: Status,
    scheduledTime: int,
    duration: int,
    startedAt: Option<int>,
    completedAt: Option<int>,
    result: Option<Outcome>,
    notes: Option<string>,
    logs: seq<string>,
    inviteToken: Option<string>,
    createdAt: int,
    updatedAt: int)

  /**
   * `new Interview({ title, interviewerId, scheduledTime, duration, status: "scheduled" })` saved
   * at time `now`: no candidate, no token yet, an empty `logs` array, and both timestamps `now`.
   */
  function NewInterview(title: string, interviewerId: string, scheduledTime: int, duration: int, now: int): (r: Interview)
    ensures r.status == Scheduled && r.candidateId == None && r.interviewerId == interviewerId
    ensures r.title == title && r.scheduledTime == scheduledTime && r.duration == duration
    ensures r.startedAt == None && r.completedAt == None && r.result == None && r.notes == None
    ensures r.logs == [] && r.inviteToken == None && r.createdAt == now && r.updatedAt == now
  {
    Interview(None, interviewerId, title, Scheduled, scheduledTime, duration,
              None, None, None, None, [], None, now, now)
  }

  /**
   * The schema validators: a required interviewer, an optional candidate, a non-empty title of at
   * most 100 characters, a duration from 15 to 180, notes of at most 1000 characters and a
   * non-empty invite token. Status and result are enumeration values by construction. The
   * uniqueness of invite tokens is a property of the whole collection (see Store).
   */
  predicate ValidInterview(iv: Interview)
  {
    && IsObjectIdText(iv.interviewerId)
    && (iv.candidateId.Some? ==> IsObjectIdText(iv.candidateId.value))
    && iv.title != "" && |iv.title| <= TitleMaxLength
    && DurationMin <= iv.duration <= DurationMax
    && (iv.notes.Some? ==> |iv.notes.value| <= NotesMaxLength)
    && Truthy(iv.inviteToken)
  }

  /** The token the hook generates: `randomBytes(32).toString("hex")`. */
  function GeneratedToken(random: seq<byte>): (t: string)
    requires |random| == InviteTokenBytes
    ensures |t| == 64
    ensures forall i :: 0 <= i < |t| ==> IsLowerHexDigit(t[i])
    ensures HexDecode(t) == Some(random)
  {
    HexRoundTrip(random);
    HexEncode(random)
  }

  /** The record after the pre-validate hook: a token is generated only when there is none. */
  function WithInviteToken(iv: Interview, random: seq<byte>): (r: Interview)
    requires |random| == InviteTokenBytes
    ensures Truthy(r.inviteToken)
    ensures Truthy(iv.inviteToken) ==> r == iv
    ensures !Truthy(iv.inviteToken) ==> r == iv.(inviteToken := Some(GeneratedToken(random)))
  {
    if Truthy(iv.inviteToken) then iv else iv.(inviteToken := Some(GeneratedToken(random)))
  }

  /** Running the hook again, with any other random bytes, never replaces the token. */
  lemma InviteTokenIdempotent(iv: Interview, first: seq<byte>, second: seq<byte>)
    requires |first| == InviteTokenBytes && |second| == InviteTokenBytes
    ensures WithInviteToken(WithInviteToken(iv, first), second) == WithInviteToken(iv, first)
  {
  }

  /** An interview document in memory; route handlers assign its fields and then save it. */
  class InterviewDocument {
    var data: Interview

    constructor (iv: Interview)
      ensures data == iv
    {
      data := iv;
    }

    /** The pre-validate hook: `if (!this.inviteToken) this.inviteToken = ...`. */
    method PreValidate(random: seq<byte>)
      requires |random| == InviteTokenBytes
      modifies this
      ensures data == WithInviteToken(old(data), random)
    {
      if !Truthy(data.inviteToken) {
        data := data.(inviteToken := Some(GeneratedToken(random)));
      }
    }
  }
}
