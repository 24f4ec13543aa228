/**
 * The interview routes (backend/src/routes/interview.ts): scheduling a session, the role-scoped
 * list with pagination, lookup by invite token, get by id, the logs of an interview, start, and
 * the decision. `authenticate` (backend/src/middleware/auth.ts, not part of this model) is
 * represented by the user it loaded; a rejection by `authorize("interviewer", "admin")` is the
 * reply `Forbidden`.
 */
module InterviewRoutes {
  import opened Wrappers
  import opened Enums
  import opened Text
  import opened Http
  import opened Validation
  import opened UserModel
  import opened InterviewModel
  import opened LogModel
  import opened Store
  import opened Sorting

  /** An interview as the routes return it: its id string and its fields. */
  type Entry = (string, Interview)

  /** The roles `authorize("interviewer", "admin")` lets through. */
  predicate MayManage(user: Profile)
  {
    user.role == Interviewer || user.role == Admin
  }

  // ----- The id check and the access rule -----

  /** `!id || id === "undefined" || !/^[0-9a-fA-F]{24}$/.test(id)` is false. */
  predicate IdCheckPasses(id: string)
  {
    !(id == "" || id == "undefined" || !IsHex24(id))
  }

  /** The first two tests are subsumed by the pattern: the check is exactly "24 hex digits". */
  lemma IdCheckIsHex24(id: string)
    ensures IdCheckPasses(id) <==> IsHex24(id)
    ensures IdCheckPasses(id) ==> CastObjectId(id) == Some(Lower(id))
  {
  }

  /** Admin, the bound candidate, or the interviewer of the record. */
  predicate HasAccess(user: Profile, iv: Interview)
  {
    || user.role == Admin
    || (iv.candidateId.Some? && iv.candidateId.value == user.id)
    || iv.interviewerId == user.id
  }

  /** The request names an existing interview the user may see. */
  predicate Permits(interviews: map<string, Interview>, user: Profile, id: string)
  {
    IsHex24(id) && Lower(id) in interviews && HasAccess(user, interviews[Lower(id)])
  }

  /**
   * The checks that get, logs and start share, in their order: the id check, the lookup, and the
   * access rule.
   */
  function Guard<T>(interviews: map<string, Interview>, user: Profile, id: string): (g: Gate<T>)
    ensures g.Next? <==> Permits(interviews, user, id)
    ensures !IsHex24(id) ==> g == Halt(Error(400, "Invalid interview ID"))
    ensures IsHex24(id) && Lower(id) !in interviews ==> g == Halt(Error(404, "Interview not found"))
    ensures IsHex24(id) && Lower(id) in interviews && !HasAccess(user, interviews[Lower(id)]) ==>
              g == Halt(Error(403, "Access denied"))
  {
    IdCheckIsHex24(id);
    if !IdCheckPasses(id) then Halt(Error(400, "Invalid interview ID"))
    else
      var key := CastObjectId(id).value;
      if key !in interviews then Halt(Error(404, "Interview not found"))
      else if !HasAccess(user, interviews[key]) then Halt(Error(403, "Access denied"))
      else Next
  }

  // ----- POST /schedule -----

  /** The session a valid schedule request creates, after the pre-validate hook. */
  function ScheduledInterview(user: Profile, b: ScheduleBody, now: int, random: seq<byte>): (iv: Interview)
    requires ScheduleAccepted(b, now) && |random| == InviteTokenBytes
    ensures iv.status == Scheduled && iv.candidateId == None && iv.interviewerId == user.id
    ensures iv.title == b.title.value && iv.scheduledTime == b.scheduledTime.value
    ensures iv.duration == b.duration.value && iv.inviteToken == Some(GeneratedToken(random))
    ensures iv.startedAt == None && iv.completedAt == None && iv.result == None && iv.notes == None
    ensures iv.logs == [] && iv.createdAt == now && iv.updatedAt == now
    ensures IsObjectIdText(user.id) ==> ValidInterview(iv)
  {
    WithInviteToken(NewInterview(b.title.value, user.id, b.scheduledTime.value, b.duration.value, now), random)
  }

  /** Whether some stored interview already holds the token. */
  predicate TokenTaken(interviews: map<string, Interview>, token: Option<string>)
  {
    exists k :: k in interviews && interviews[k].inviteToken == token
  }

  /**
   * `POST /schedule`. `random` is what `crypto.randomBytes(32)` returns and `newId` the ObjectId
   * the driver assigns. A token that collides with a stored one violates the unique index.
   */
  method Schedule(db: Database, user: Profile, b: ScheduleBody, now: int, random: seq<byte>, newId: string)
    returns (reply: Reply<Entry>)
    requires db.Valid() && IsObjectIdText(user.id) && |random| == InviteTokenBytes
    requires IsObjectIdText(newId) && newId !in db.interviews
    modifies db
    ensures db.Valid()
    ensures db.users == old(db.users) && db.logs == old(db.logs)
    ensures !MayManage(user) ==> reply == Forbidden && db.interviews == old(db.interviews)
    ensures MayManage(user) && !ScheduleAccepted(b, now) ==>
              reply == Err(400, "Validation error", [ScheduleError(b, now).value])
              && db.interviews == old(db.interviews)
    ensures MayManage(user) && ScheduleAccepted(b, now) ==>
              var iv := ScheduledInterview(user, b, now, random);
              if TokenTaken(old(db.interviews), iv.inviteToken) then
                reply == InternalError() && db.interviews == old(db.interviews)
              else
                && db.interviews == old(db.interviews)[newId := iv]
                && reply == Ok(201, Some("Interview session created successfully"), (newId, iv))
  {
    if !MayManage(user) {
      return Forbidden;
    }
    var gate := Validate<Entry>(ScheduleError(b, now));
    if gate.Halt? {
      return gate.reply;
    }
    var doc := new InterviewDocument(NewInterview(b.title.value, user.id, b.scheduledTime.value,
                                                  b.duration.value, now));
    doc.PreValidate(random);
    var iv := doc.data;
    assert iv == ScheduledInterview(user, b, now, random);
    var holder := db.FindInterviewByToken(iv.inviteToken.value);
    if holder.Some? {
      return InternalError();
    }
    db.PutInterview(newId, iv);
    reply := Ok(201, Some("Interview session created successfully"), (newId, iv));
  }

  // ----- GET / -----

  /** The filter object `query`: an owner field set to the user's id, and an optional status. */
  datatype Query = Query(candidateId: Option<string>, interviewerId: Option<string>, status: Option<string>)

  /** Whether MongoDB returns `iv` for the filter `q`: every field present must be equal. */
  predicate Matches(q: Query, iv: Interview)
  {
    && (q.candidateId.Some? ==> iv.candidateId == q.candidateId)
    && (q.interviewerId.Some? ==> iv.interviewerId == q.interviewerId.value)
    && (q.status.Some? ==> StatusName(iv.status) == q.status.value)
  }

  /**
   * The records a user's list may contain: a candidate sees the interviews bound to them, an
   * interviewer the ones they run, an admin all; a truthy `status` keeps only that status.
   */
  predicate InScope(user: Profile, status: Option<string>, iv: Interview)
  {
    && (user.role == Candidate ==> iv.candidateId == Some(user.id))
    && (user.role == Interviewer ==> iv.interviewerId == user.id)
    && (Truthy(status) ==> StatusName(iv.status) == status.value)
  }

  /** The filter, built field by field. */
  method BuildQuery(user: Profile, status: Option<string>) returns (q: Query)
    ensures q.candidateId.Some? <==> user.role == Candidate
    ensures q.interviewerId.Some? <==> user.role == Interviewer
    ensures q.status.Some? <==> Truthy(status)
    ensures forall iv :: Matches(q, iv) <==> InScope(user, status, iv)
  {
    q := Query(None, None, None);
    if user.role == Candidate {
      q := q.(candidateId := Some(user.id));
    } else if user.role == Interviewer {
      q := q.(interviewerId := Some(user.id));
    }
    if Truthy(status) {
      q := q.(status := status);
    }
  }

  const DefaultPage := 1
  const DefaultLimit := 10

  function Skip(page: int, limit: int): (n: int)
    requires page >= 1 && limit >= 1
    ensures n >= 0
    ensures n == (page - 1) * limit
  {
    (page - 1) * limit
  }

  /** `Math.ceil(total / limit)`. */
  function PageCount(total: nat, limit: int): (p: nat)
    requires limit >= 1
    ensures p * limit >= total
    ensures p > 0 ==> (p - 1) * limit < total
  {
    CeilingDivision(total, limit);
    (total + limit - 1) / limit
  }

  lemma CeilingDivision(total: nat, limit: int)
    requires limit >= 1
    ensures var p := (total + limit - 1) / limit; p >= 0 && p * limit >= total && (p > 0 ==> (p - 1) * limit < total)
  {
    var n := total + limit - 1;
    var p := n / limit;
    var r := n % limit;
    assert n == p * limit + r && 0 <= r < limit;
    assert p * limit >= total;
    if p > 0 {
      assert (p - 1) * limit == p * limit - limit;
    }
  }

  /** `.skip(skip).limit(limit)` on the ordered results. */
  function Window<T>(s: seq<T>, skip: nat, limit: nat): (w: seq<T>)
    ensures |w| == (if skip >= |s| then 0 else if |s| - skip < limit then |s| - skip else limit)
    ensures forall i :: 0 <= i < |w| ==> w[i] == s[skip + i]
  {
    if skip >= |s| then []
    else if |s| - skip < limit then s[skip..]
    else s[skip..skip + limit]
  }

  datatype Page = Page(interviews: seq<Entry>, current: int, pages: int, total: int)

  function ScheduledAt(iv: Interview): int
  {
    iv.scheduledTime
  }

  /**
   * `GET /` with `page` and `limit` as numbers (defaults 1 and 10). `ordered` is the whole
   * in-scope result in the order `.sort({ scheduledTime: -1 })` gives it.
   */
  method List(db: Database, user: Profile, status: Option<string>, page: Option<int>, limit: Option<int>)
    returns (reply: Reply<Page>, ghost ordered: seq<Entry>)
    requires page.GetOr(DefaultPage) >= 1 && limit.GetOr(DefaultLimit) >= 1
    ensures SortedDesc(ordered, ScheduledAt) && DistinctKeys(ordered)
    ensures forall e :: e in ordered <==> e.0 in db.interviews && e.1 == db.interviews[e.0] && InScope(user, status, e.1)
    ensures var p, l := page.GetOr(DefaultPage), limit.GetOr(DefaultLimit);
            reply == Ok(200, None, Page(Window(ordered, Skip(p, l), l), p, PageCount(|ordered|, l), |ordered|))
    ensures reply.Ok? && |reply.data.interviews| <= limit.GetOr(DefaultLimit)
    ensures forall e :: e in reply.data.interviews ==>
              e.0 in db.interviews && e.1 == db.interviews[e.0] && InScope(user, status, e.1)
  {
    var p := page.GetOr(DefaultPage);
    var l := limit.GetOr(DefaultLimit);
    var skip := Skip(p, l);
    var q := BuildQuery(user, status);
    var all := CollectDesc(db.interviews, (iv: Interview) => Matches(q, iv), ScheduledAt);
    ordered := all;
    var total := |all|;
    reply := Ok(200, None, Page(Window(all, skip, l), p, PageCount(total, l), total));
  }

  // ----- GET /token/:token -----

  /** `GET /token/:token` (the first of the two handlers registered for that path). */
  method ByToken(db: Database, token: string) returns (reply: Reply<Entry>)
    requires db.Valid()
    ensures reply.Ok? <==> TokenTaken(db.interviews, Some(token))
    ensures reply.Ok? ==> && reply.status == 200
                          && reply.data.0 in db.interviews
                          && reply.data.1 == db.interviews[reply.data.0]
                          && reply.data.1.inviteToken == Some(token)
    ensures !reply.Ok? ==> reply == Error(404, "Interview not found")
  {
    var found := db.FindInterviewByToken(token);
    if found.None? {
      return Error(404, "Interview not found");
    }
    reply := Ok(200, None, (found.value, db.interviews[found.value]));
  }

  // ----- GET /:id -----

  method GetInterview(db: Database, user: Profile, id: string) returns (reply: Reply<Entry>)
    ensures reply.Ok? <==> Permits(db.interviews, user, id)
    ensures !reply.Ok? ==> reply == Guard<Entry>(db.interviews, user, id).reply
    ensures reply.Ok? ==> reply == Ok(200, None, (Lower(id), db.interviews[Lower(id)]))
  {
    var gate := Guard<Entry>(db.interviews, user, id);
    if gate.Halt? {
      return gate.reply;
    }
    var key := Lower(id);
    reply := Ok(200, None, (key, db.interviews[key]));
  }

  // ----- GET /:id/logs -----

  function LoggedAt(l: Log): int
  {
    l.timestamp
  }

  /** `GET /:id/logs`: the logs of the interview, newest first. */
  method Logs(db: Database, user: Profile, id: string) returns (reply: Reply<seq<(string, Log)>>)
    ensures !Permits(db.interviews, user, id) ==> reply == Guard<seq<(string, Log)>>(db.interviews, user, id).reply
    ensures Permits(db.interviews, user, id) ==>
              && reply.Ok? && reply.status == 200
              && SortedDesc(reply.data, LoggedAt) && DistinctKeys(reply.data)
              && forall e :: e in reply.data <==> e.0 in db.logs && e.1 == db.logs[e.0] && e.1.interviewId == Lower(id)
  {
    var gate := Guard<seq<(string, Log)>>(db.interviews, user, id);
    if gate.Halt? {
      return gate.reply;
    }
    var key := Lower(id);
    var logs := CollectDesc(db.logs, (l: Log) => l.interviewId == key, LoggedAt);
    reply := Ok(200, None, logs);
  }

  // ----- Status transitions -----

  /** The only moves the handlers make: scheduled to ongoing, and ongoing to completed. */
  predicate Advances(before: Status, after: Status)
  {
    before == after || (before == Scheduled && after == Ongoing) || (before == Ongoing && after == Completed)
  }

  /** No handler move reaches "cancelled" from another status or returns to an earlier one. */
  lemma AdvancesIsForward(a: Status, b: Status)
    requires Advances(a, b) && a != b
    ensures b != Cancelled && b != Scheduled && !Advances(b, a)
  {
  }

  /** The record `POST /:id/start` saves. */
  function Started(iv: Interview, now: int): (r: Interview)
    ensures r.status == Ongoing && r.startedAt == Some(now) && r.updatedAt == now
    ensures r.(status := iv.status, startedAt := iv.startedAt, updatedAt := iv.updatedAt) == iv
  {
    iv.(status := Ongoing, startedAt := Some(now), updatedAt := now)
  }

  // ----- POST /:id/start -----

  method Start(db: Database, user: Profile, id: string, now: int) returns (reply: Reply<Entry>)
    requires db.Valid()
    modifies db
    ensures db.Valid()
    ensures db.users == old(db.users) && db.logs == old(db.logs)
    ensures db.interviews.Keys == old(db.interviews.Keys)
    ensures forall k :: k in old(db.interviews) ==> Advances(old(db.interviews)[k].status, db.interviews[k].status)
    ensures !Permits(old(db.interviews), user, id) ==>
              reply == Guard<Entry>(old(db.interviews), user, id).reply && db.interviews == old(db.interviews)
    ensures Permits(old(db.interviews), user, id) && old(db.interviews)[Lower(id)].status != Scheduled ==>
              reply == Error(400, "Interview is not in scheduled status") && db.interviews == old(db.interviews)
    ensures Permits(old(db.interviews), user, id) && old(db.interviews)[Lower(id)].status == Scheduled ==>
              var iv := Started(old(db.interviews)[Lower(id)], now);
              && db.interviews == old(db.interviews)[Lower(id) := iv]
              && reply == Ok(200, Some("Interview started successfully"), (Lower(id), iv))
  {
    var gate := Guard<Entry>(db.interviews, user, id);
    if gate.Halt? {
      return gate.reply;
    }
    var key := Lower(id);
    var doc := new InterviewDocument(db.interviews[key]);
    if doc.data.status != Scheduled {
      return Error(400, "Interview is not in scheduled status");
    }
    doc.data := doc.data.(status := Ongoing, startedAt := Some(now));
    doc.data := doc.data.(updatedAt := now);  // the timestamps plugin, on save
    db.PutInterview(key, doc.data);
    reply := Ok(200, Some("Interview started successfully"), (key, doc.data));
  }

  // ----- POST /:id/decision -----

  /** The record the decision handler saves: `notes` left undefined unsets the stored notes. */
  function Decided(iv: Interview, b: DecisionBody, now: int): (r: Interview)
    requires DecisionAccepted(b)
    ensures r.status == Completed && r.completedAt == Some(now) && r.updatedAt == now
    ensures r.result.Some? && OutcomeName(r.result.value) == b.result.value && r.notes == b.notes
  {
    iv.(status := Completed, completedAt := Some(now), result := ParseOutcome(b.result.value),
        notes := b.notes, updatedAt := now)
  }

  /** The decision handler's replies in the order it attempts them, and the record it saves. */
  datatype DecisionRun = DecisionRun(sent: seq<Reply<Option<Entry>>>, saved: Option<Interview>)

  /**
   * Express sends only the first reply of a handler. A later `res.json` throws because the
   * headers are already sent; the handler's catch block then attempts a 500 reply, which throws
   * in turn, and nothing after the failed call runs.
   */
  function Attempt(replies: seq<Reply<Option<Entry>>>): (sent: seq<Reply<Option<Entry>>>)
    requires replies != []
    ensures |replies| == 1 ==> sent == replies
    ensures |replies| > 1 ==> sent == replies[..2] + [InternalError()]
    ensures sent != [] && sent[0] == replies[0]
  {
    if |replies| == 1 then replies else replies[..2] + [InternalError()]
  }

  /**
   * `POST /:id/decision` as written: after "Interview not found" and after "Access denied" the
   * handler does not return, so it goes on to the status check and the update.
   */
  function DecisionAsWritten(interviews: map<string, Interview>, user: Profile, id: string,
                             b: DecisionBody, now: int): (r: DecisionRun)
    ensures r.sent != []
    ensures r.saved.Some? <==>
              MayManage(user) && DecisionAccepted(b) && IsHex24(id) && Lower(id) in interviews &&
              interviews[Lower(id)].status == Ongoing
    ensures r.saved.Some? ==> r.saved.value == Decided(interviews[Lower(id)], b, now)
  {
    IdCheckIsHex24(id);
    if !MayManage(user) then DecisionRun([Forbidden], None)
    else if !DecisionAccepted(b) then DecisionRun([Err(400, "Validation error", [DecisionError(b).value])], None)
    else if !IdCheckPasses(id) then DecisionRun([Error(400, "Invalid interview ID")], None)
    else
      var key := Lower(id);
      var found := key in interviews;
      var missing: seq<Reply<Option<Entry>>> := if found then [] else [Error(404, "Interview not found")];
      var access := user.role == Admin || (found && interviews[key].interviewerId == user.id);
      var denied: seq<Reply<Option<Entry>>> := if access then [] else [Error(403, "Access denied")];
      if found && interviews[key].status != Ongoing then
        DecisionRun(Attempt(missing + denied + [Error(400, "Interview is not ongoing")]), None)
      else
        var saved := if found then Some(Decided(interviews[key], b, now)) else None;
        var data := if found then Some((key, saved.value)) else None;
        DecisionRun(Attempt(missing + denied + [Ok(200, Some("Interview decision submitted successfully"), data)]), saved)
  }

  /**
   * The first reply of the decision handler: the `authorize` rejection, then the validator's 400,
   * then the id check, then "Interview not found"; each of the first three is the only reply.
   */
  lemma DecisionFirstReply(interviews: map<string, Interview>, user: Profile, id: string,
                           b: DecisionBody, now: int)
    ensures var r := DecisionAsWritten(interviews, user, id, b, now);
            && (!MayManage(user) ==> r.sent == [Forbidden])
            && (MayManage(user) && !DecisionAccepted(b) ==>
                  r.sent == [Err(400, "Validation error", [DecisionError(b).value])])
            && (MayManage(user) && DecisionAccepted(b) && !IsHex24(id) ==>
                  r.sent == [Error(400, "Invalid interview ID")])
            && (MayManage(user) && DecisionAccepted(b) && IsHex24(id) && Lower(id) !in interviews ==>
                  r.sent[0] == Error(404, "Interview not found"))
  {
    IdCheckIsHex24(id);
  }
  /**
   * An interviewer who does not run an ongoing interview is refused with 403, and the interview
   * is completed with their result all the same.
   */
  lemma NonOwnerCompletesInterview(interviews: map<string, Interview>, user: Profile, id: string,
                                   b: DecisionBody, now: int)
    requires user.role == Interviewer && DecisionAccepted(b) && IsHex24(id)
    requires Lower(id) in interviews && interviews[Lower(id)].status == Ongoing
    requires interviews[Lower(id)].interviewerId != user.id
    ensures DecisionAsWritten(interviews, user, id, b, now).sent[0] == Error(403, "Access denied")
    ensures DecisionAsWritten(interviews, user, id, b, now).saved == Some(Decided(interviews[Lower(id)], b, now))
  {
    IdCheckIsHex24(id);
  }

  /** The handler as evidently intended: it returns after the 404 and after the 403 reply. */
  function DecisionCorrected(interviews: map<string, Interview>, user: Profile, id: string,
                             b: DecisionBody, now: int): (r: DecisionRun)
  {
    if !MayManage(user) then DecisionRun([Forbidden], None)
    else if !DecisionAccepted(b) then DecisionRun([Err(400, "Validation error", [DecisionError(b).value])], None)
    else if !IdCheckPasses(id) then DecisionRun([Error(400, "Invalid interview ID")], None)
    else
      var key := Lower(id);
      if key !in interviews then DecisionRun([Error(404, "Interview not found")], None)
      else if !(user.role == Admin || interviews[key].interviewerId == user.id) then
        DecisionRun([Error(403, "Access denied")], None)
      else if interviews[key].status != Ongoing then DecisionRun([Error(400, "Interview is not ongoing")], None)
      else
        var saved := Decided(interviews[key], b, now);
        DecisionRun([Ok(200, Some("Interview decision submitted successfully"), Some((key, saved)))], Some(saved))
  }

  /**
   * The corrected handler sends exactly one reply, and saves only an ongoing interview run by the
   * requester (or any ongoing interview for an admin), agreeing with the written handler there.
   */
  lemma DecisionCorrectedIsOwned(interviews: map<string, Interview>, user: Profile, id: string,
                                 b: DecisionBody, now: int)
    ensures |DecisionCorrected(interviews, user, id, b, now).sent| == 1
    ensures DecisionCorrected(interviews, user, id, b, now).saved.Some? <==>
              && MayManage(user) && DecisionAccepted(b) && IsHex24(id) && Lower(id) in interviews
              && interviews[Lower(id)].status == Ongoing
              && (user.role == Admin || interviews[Lower(id)].interviewerId == user.id)
    ensures DecisionCorrected(interviews, user, id, b, now).saved.Some? ==>
              DecisionCorrected(interviews, user, id, b, now) == DecisionAsWritten(interviews, user, id, b, now)
  {
    IdCheckIsHex24(id);
  }

  /** The assignments of the decision handler on the loaded interview, and `interview.save()`. */
  method SaveDecision(db: Database, key: string, b: DecisionBody, now: int) returns (saved: Interview)
    requires db.Valid() && key in db.interviews && db.interviews[key].status == Ongoing
    requires DecisionAccepted(b)
    modifies db
    ensures db.Valid()
    ensures saved == Decided(old(db.interviews)[key], b, now)
    ensures db.interviews == old(db.interviews)[key := saved]
    ensures db.users == old(db.users) && db.logs == old(db.logs)
  {
    var doc := new InterviewDocument(db.interviews[key]);
    doc.data := doc.data.(status := Completed, completedAt := Some(now),
                          result := ParseOutcome(b.result.value), notes := b.notes);
    doc.data := doc.data.(updatedAt := now);  // the timestamps plugin, on save
    db.PutInterview(key, doc.data);
    saved := doc.data;
  }

  /**
   * `POST /:id/decision`, as written. `sent` lists the replies it attempts; only the first
   * reaches the client.
   */
  method Decision(db: Database, user: Profile, id: string, b: DecisionBody, now: int)
    returns (sent: seq<Reply<Option<Entry>>>)
    requires db.Valid()
    modifies db
    ensures db.Valid()
    ensures db.users == old(db.users) && db.logs == old(db.logs)
    ensures sent == DecisionAsWritten(old(db.interviews), user, id, b, now).sent
    ensures var run := DecisionAsWritten(old(db.interviews), user, id, b, now);
            db.interviews == if run.saved.Some? then old(db.interviews)[Lower(id) := run.saved.value]
                             else old(db.interviews)
    ensures db.interviews.Keys == old(db.interviews.Keys)
    ensures forall k :: k in old(db.interviews) ==> Advances(old(db.interviews)[k].status, db.interviews[k].status)
  {
    IdCheckIsHex24(id);
    if !MayManage(user) {
      return [Forbidden];
    }
    var gate := Validate<Option<Entry>>(DecisionError(b));
    if gate.Halt? {
      return [gate.reply];
    }
    if !IdCheckPasses(id) {
      return [Error(400, "Invalid interview ID")];
    }
    sent := DecisionOnRecord(db, user, id, b, now);
  }

  /** The decision handler once the role, the body and the id have passed. */
  method DecisionOnRecord(db: Database, user: Profile, id: string, b: DecisionBody, now: int)
    returns (sent: seq<Reply<Option<Entry>>>)
    requires MayManage(user) && DecisionAccepted(b) && IsHex24(id)
    requires db.Valid()
    modifies db
    ensures db.Valid()
    ensures db.users == old(db.users) && db.logs == old(db.logs)
    ensures sent == DecisionAsWritten(old(db.interviews), user, id, b, now).sent
    ensures var run := DecisionAsWritten(old(db.interviews), user, id, b, now);
            db.interviews == if run.saved.Some? then old(db.interviews)[Lower(id) := run.saved.value]
                             else old(db.interviews)
    ensures db.interviews.Keys == old(db.interviews.Keys)
    ensures forall k :: k in old(db.interviews) ==> Advances(old(db.interviews)[k].status, db.interviews[k].status)
  {
    IdCheckIsHex24(id);
    var key := Lower(id);
    var found := key in db.interviews;
    sent := [];
    if !found {
      sent := [Error(404, "Interview not found")];
    }
    var access := user.role == Admin || (found && db.interviews[key].interviewerId == user.id);
    if !access {
      if sent != [] {
        return sent + [Error(403, "Access denied"), InternalError()];
      }
      sent := [Error(403, "Access denied")];
    }
    if found && db.interviews[key].status != Ongoing {
      if sent != [] {
        return sent + [Error(400, "Interview is not ongoing"), InternalError()];
      }
      return [Error(400, "Interview is not ongoing")];
    }
    var data: Option<Entry> := None;
    if found {
      var saved := SaveDecision(db, key, b, now);
      data := Some((key, saved));
    }
    var ok := Ok(200, Some("Interview decision submitted successfully"), data);
    if sent != [] {
      return sent + [ok, InternalError()];
    }
    sent := [ok];
  }
}
