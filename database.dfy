/**
 * The three MongoDB collections the handlers share, as maps: users keyed by their (normalised)
 * e-mail, which the unique index on `email` makes a key, and interviews and logs keyed by the
 * canonical text of their ObjectId. `Valid` is what the schema validators and unique indexes
 * guarantee about every stored document.
 */
module Store {
  import opened Wrappers
  import opened Text
  import opened UserModel
  import opened InterviewModel
  import opened LogModel

  /**
   * Every user is stored under its own address, which the `lowercase` setter left in lower case,
   * and ids are unique.
   */
  ghost predicate ValidUsers(users: map<string, User>)
  {
    && (forall e :: e in users ==>
          && users[e].email == e
          && IsLowerCase(e)
          && IsObjectIdText(users[e].id)
          && ValidUser(users[e]))
    && (forall e1, e2 :: e1 in users && e2 in users && users[e1].id == users[e2].id ==> e1 == e2)
  }

  /** Canonical keys, valid records, and the unique index on `inviteToken`. */
  ghost predicate ValidInterviews(interviews: map<string, Interview>)
  {
    && (forall k :: k in interviews ==> IsObjectIdText(k) && ValidInterview(interviews[k]))
    && (forall k1, k2 ::
          k1 in interviews && k2 in interviews && interviews[k1].inviteToken == interviews[k2].inviteToken
          ==> k1 == k2)
  }

  ghost predicate ValidLogs(logs: map<string, Log>)
  {
    forall k :: k in logs ==> IsObjectIdText(k) && ValidLog(logs[k])
  }

  /** Saving a valid new user under a fresh id and an unused address keeps the users valid. */
  lemma InsertUser(users: map<string, User>, u: User)
    requires ValidUsers(users)
    requires u.email !in users && IsLowerCase(u.email)
    requires IsObjectIdText(u.id) && ValidUser(u)
    requires forall e :: e in users ==> users[e].id != u.id
    ensures ValidUsers(users[u.email := u])
  {
    var m := users[u.email := u];
    forall e | e in m
      ensures m[e].email == e && IsLowerCase(e) && IsObjectIdText(m[e].id) && ValidUser(m[e])
    {
      if e != u.email {
        assert m[e] == users[e];
      }
    }
    forall e1, e2 | e1 in m && e2 in m && m[e1].id == m[e2].id
      ensures e1 == e2
    {
      if e1 != u.email && e2 != u.email {
        assert m[e1] == users[e1] && m[e2] == users[e2];
      }
    }
  }

  /**
   * Every stored address is its own normal form, so the normalised address of a request finds
   * exactly the user the `lowercase`/`trim` query setters would find.
   */
  lemma StoredAddressesAreNormal(users: map<string, User>)
    requires ValidUsers(users)
    ensures forall e :: e in users ==> NormalizeEmail(e) == e
  {
    forall e | e in users
      ensures NormalizeEmail(e) == e
    {
      LowerCaseIsFixed(e);
      StoredEmailIsNormal(users[e]);
    }
  }

  /** Saving a valid interview whose token no other record holds keeps the interviews valid. */
  lemma SaveInterview(interviews: map<string, Interview>, k: string, iv: Interview)
    requires ValidInterviews(interviews)
    requires IsObjectIdText(k) && ValidInterview(iv)
    requires forall k2 :: k2 in interviews && k2 != k ==> interviews[k2].inviteToken != iv.inviteToken
    ensures ValidInterviews(interviews[k := iv])
  {
  }

  class Database {
    var users: map<string, User>
    var interviews: map<string, Interview>
    var logs: map<string, Log>

    ghost predicate Valid()
      reads this
    {
      ValidUsers(users) && ValidInterviews(interviews) && ValidLogs(logs)
    }

    constructor ()
      ensures Valid()
      ensures users == map[] && interviews == map[] && logs == map[]
    {
      users := map[];
      interviews := map[];
      logs := map[];
    }

    /** An ObjectId the driver may assign to a new user: canonical and not yet taken. */
    predicate FreshUserId(id: string)
      reads this
    {
      IsObjectIdText(id) && forall e :: e in users ==> users[e].id != id
    }

    /** `user.save()` of a new user that passed validation; the unique index sees no clash. */
    method AddUser(u: User)
      requires Valid()
      requires u.email !in users && IsLowerCase(u.email)
      requires IsObjectIdText(u.id) && ValidUser(u)
      requires forall e :: e in users ==> users[e].id != u.id
      modifies this
      ensures Valid()
      ensures users == old(users)[u.email := u]
      ensures interviews == old(interviews) && logs == old(logs)
    {
      InsertUser(users, u);
      users := users[u.email := u];
    }

    /**
     * `interview.save()` of a new or changed interview that passed validation; no other record
     * holds its invite token, so the unique index accepts it.
     */
    method PutInterview(k: string, iv: Interview)
      requires Valid()
      requires IsObjectIdText(k) && ValidInterview(iv)
      requires forall k2 :: k2 in interviews && k2 != k ==> interviews[k2].inviteToken != iv.inviteToken
      modifies this
      ensures Valid()
      ensures interviews == old(interviews)[k := iv]
      ensures users == old(users) && logs == old(logs)
    {
      SaveInterview(interviews, k, iv);
      interviews := interviews[k := iv];
    }

    /** `log.save()` of a new log that passed validation, under a fresh id. */
    method AddLog(k: string, l: Log)
      requires Valid()
      requires IsObjectIdText(k) && k !in logs && ValidLog(l)
      modifies this
      ensures Valid()
      ensures logs == old(logs)[k := l]
      ensures users == old(users) && interviews == old(interviews)
    {
      logs := logs[k := l];
    }

    /**
     * `Interview.findByIdAndUpdate(k, { $push: { logs: logId } })` at time `now`: the id is appended
     * and the timestamps plugin sets `updatedAt`; an absent interview is left absent.
     */
    method PushLog(k: string, logId: string, now: int)
      requires Valid()
      modifies this
      ensures Valid()
      ensures k in old(interviews) ==>
                interviews == old(interviews)[k := old(interviews)[k].(logs := old(interviews)[k].logs + [logId], updatedAt := now)]
      ensures k !in old(interviews) ==> interviews == old(interviews)
      ensures users == old(users) && logs == old(logs)
    {
      if k in interviews {
        var iv := interviews[k];
        SaveInterview(interviews, k, iv.(logs := iv.logs + [logId], updatedAt := now));
        interviews := interviews[k := iv.(logs := iv.logs + [logId], updatedAt := now)];
      }
    }

    /** `User.findById(id)` for a canonical id: the user with that `_id`, if any. */
    method FindUserById(id: string) returns (u: Option<User>)
      requires Valid()
      ensures u.Some? <==> exists e :: e in users && users[e].id == id
      ensures u.Some? ==> u.value.email in users && users[u.value.email] == u.value && u.value.id == id
    {
      if e :| e in users && users[e].id == id {
        u := Some(users[e]);
      } else {
        u := None;
      }
    }

    /** `Interview.findOne({ inviteToken: token })`: unique, since tokens carry a unique index. */
    method FindInterviewByToken(token: string) returns (found: Option<string>)
      requires Valid()
      ensures found.Some? <==> exists k :: k in interviews && interviews[k].inviteToken == Some(token)
      ensures found.Some? ==> found.value in interviews && interviews[found.value].inviteToken == Some(token)
      ensures found.Some? ==> forall k :: k in interviews && interviews[k].inviteToken == Some(token) ==> k == found.value
    {
      if k :| k in interviews && interviews[k].inviteToken == Some(token) {
        found := Some(k);
      } else {
        found := None;
      }
    }
  }
}
