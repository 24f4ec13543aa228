/**
 * The authentication routes (backend/src/routes/auth.ts): `generateToken`, `POST /register`,
 * `POST /login` and `GET /me`. jsonwebtoken and bcrypt are abstract function pairs; the
 * `authenticate` middleware in front of `/me` is not part of this model, so `/me` receives the
 * user it loaded.
 */
module AuthRoutes {
  import opened Wrappers
  import opened Enums
  import opened Text
  import opened Http
  import opened Validation
  import opened UserModel
  import opened Store
  import Json

  /** The fallback for the `JWT_EXPIRES_IN` environment variable. */
  const DefaultExpiresIn := "24h"

  /** The payload `{ userId }` and the `expiresIn` option of `jwt.sign`. */
  datatype Claims = Claims(userId: string, expiresIn: string)

  /** `jwt.sign` and `jwt.verify` under `JWT_SECRET`; verify yields the `userId` of a good token. */
  datatype Jwt = Jwt(sign: Claims -> string, verify: string -> Option<string>)

  /** What the model assumes of jsonwebtoken: a token it signed verifies to its own payload. */
  ghost predicate Sound(j: Jwt)
  {
    forall c :: j.verify(j.sign(c)) == Some(c.userId)
  }

  /** `process.env.JWT_EXPIRES_IN || "24h"`. */
  function ExpiresIn(env: Option<string>): (r: string)
    ensures Truthy(env) ==> r == env.value
    ensures !Truthy(env) ==> r == DefaultExpiresIn
  {
    OrElse(env, DefaultExpiresIn)
  }

  function GenerateToken(j: Jwt, env: Option<string>, userId: string): string
  {
    j.sign(Claims(userId, ExpiresIn(env)))
  }

  /** The issued token carries the id it was generated for. */
  lemma TokenEncodesUser(j: Jwt, env: Option<string>, userId: string)
    requires Sound(j)
    ensures j.verify(GenerateToken(j, env, userId)) == Some(userId)
    ensures j.sign(Claims(userId, ExpiresIn(env))) == GenerateToken(j, env, userId)
  {
  }

  /** `data` of the register, login and `/me` responses: the public user fields and the token. */
  datatype Session = Session(user: Profile, token: Option<string>)

  /** The `user` object of those responses, as JSON. */
  function UserJson(p: Profile): (o: Json.Object)
    ensures o.Keys == {"id", "name", "email", "role", "createdAt"}
    ensures o["id"] == Json.Str(p.id) && o["email"] == Json.Str(p.email)
  {
    map["id" := Json.Str(p.id), "name" := Json.Str(p.name), "email" := Json.Str(p.email),
        "role" := Json.Str(RoleName(p.role)), "createdAt" := Json.Num(p.createdAt)]
  }

  /** The response user never carries the hash: it is the same whatever the stored hash is. */
  lemma ResponseHidesHash(u: User, otherHash: string)
    ensures "passwordHash" !in UserJson(ProfileOf(u))
    ensures UserJson(ProfileOf(u)) == UserJson(ProfileOf(u.(passwordHash := otherHash)))
  {
    ProfileIgnoresHash(u, otherHash);
  }

  /** `role || "candidate"`, then the `enum` validator of the role path. */
  function RegisterRole(role: Option<string>): (r: Option<Role>)
    ensures !Truthy(role) ==> r == Some(Candidate)
    ensures Truthy(role) ==> r == ParseRole(role.value)
  {
    ParseRole(OrElse(role, "candidate"))
  }

  /** A body Joi accepts always yields a role, and no role means candidate. */
  lemma AcceptedBodyHasRole(b: RegisterBody, isEmail: string -> bool)
    requires RegisterAccepted(b, isEmail)
    ensures RegisterRole(b.role).Some?
    ensures b.role.None? ==> RegisterRole(b.role) == Some(Candidate)
  {
  }

  /**
   * The document `new User({ name, email, passwordHash: password, role })` builds for an accepted
   * body, before its pre-save hook.
   */
  function NewUser(b: RegisterBody, isEmail: string -> bool, id: string, now: int): (u: User)
    requires RegisterAccepted(b, isEmail)
    ensures u.id == id && u.name == Trim(b.name.value) && u.email == NormalizeEmail(b.email.value)
    ensures u.role == RegisterRole(b.role).value && u.passwordHash == b.password.value
    ensures u.createdAt == now && u.updatedAt == now && u.version == 0
  {
    User(id, Trim(b.name.value), NormalizeEmail(b.email.value), RegisterRole(b.role).value,
         b.password.value, now, now, 0)
  }

  /**
   * Joi measures the untrimmed name and Mongoose the trimmed one, so a padded one-letter name
   * passes the request validator and fails on save.
   */
  lemma PaddedNameFailsOnSave(b: RegisterBody, isEmail: string -> bool, id: string, now: int)
    requires RegisterAccepted(b, isEmail) && b.name == Some(" a ")
    ensures !ValidNewUser(NewUser(b, isEmail, id, now))
  {
    var n := " a ";
    assert LeadingWs(n) == 1 by {
      assert n[1..] == "a ";
      assert LeadingWs("a ") == 0;
    }
    assert Trim(n) == n[1..1 + |Trim(n)|];
    assert |Trim(n)| <= 2;
    assert Trim(n) == "a" || Trim(n) == "a " || Trim(n) == "";
    assert IsTrimmed(Trim(n));
  }

  /**
   * `POST /register`. `newId` is the ObjectId the driver assigns and `salt` the result of
   * `bcrypt.genSalt(12)`. A document the Mongoose validators refuse makes `save()` throw.
   */
  method Register(db: Database, b: RegisterBody, isEmail: string -> bool, h: Hasher, salt: string,
                  j: Jwt, env: Option<string>, newId: string, now: int) returns (reply: Reply<Session>)
    requires db.Valid() && db.FreshUserId(newId)
    modifies db
    ensures db.Valid()
    ensures db.interviews == old(db.interviews) && db.logs == old(db.logs)
    ensures !RegisterAccepted(b, isEmail) ==>
              reply == Err(400, "Validation error", [RegisterError(b, isEmail).value])
              && db.users == old(db.users)
    ensures RegisterAccepted(b, isEmail) && NormalizeEmail(b.email.value) in old(db.users) ==>
              reply == Error(400, "User already exists with this email") && db.users == old(db.users)
    ensures RegisterAccepted(b, isEmail) && NormalizeEmail(b.email.value) !in old(db.users) &&
            !ValidNewUser(NewUser(b, isEmail, newId, now)) ==>
              reply == Error(500, "Internal server error during registration") && db.users == old(db.users)
    ensures RegisterAccepted(b, isEmail) && NormalizeEmail(b.email.value) !in old(db.users) &&
            ValidNewUser(NewUser(b, isEmail, newId, now)) ==>
              var u := NewUser(b, isEmail, newId, now).(passwordHash := h.hash(b.password.value, salt));
              && db.users == old(db.users)[u.email := u]
              && reply == Ok(201, Some("User registered successfully"),
                             Session(ProfileOf(u), Some(GenerateToken(j, env, newId))))
  {
    var gate := Validate<Session>(RegisterError(b, isEmail));
    if gate.Halt? {
      return gate.reply;
    }
    var email := NormalizeEmail(b.email.value);
    if email in db.users {
      return Error(400, "User already exists with this email");
    }
    var doc := new UserDocument(newId, b.name.value, b.email.value, b.password.value,
                                RegisterRole(b.role).value, now);
    if !ValidNewUser(doc.data) {
      return Error(500, "Internal server error during registration");
    }
    ghost var plain := doc.data;
    assert plain == NewUser(b, isEmail, newId, now);
    doc.PreSave(h, salt);
    doc.MarkSaved();
    var u := doc.data;
    assert u == plain.(passwordHash := h.hash(b.password.value, salt));
    assert ValidUser(u) by {
      assert u.name == plain.name && u.email == plain.email;
    }
    NormalizedIsLower(b.email.value);
    LowerCaseIsFixed(u.email);
    db.AddUser(u);
    reply := Ok(201, Some("User registered successfully"),
                Session(ProfileOf(u), Some(GenerateToken(j, env, newId))));
  }

  /**
   * `POST /login`: both an unknown address and a wrong password give the same 401 reply. The
   * method has no `modifies` clause: login never writes to the store.
   */
  method Login(db: Database, b: LoginBody, isEmail: string -> bool, h: Hasher,
               j: Jwt, env: Option<string>) returns (reply: Reply<Session>)
    requires db.Valid()
    ensures !LoginAccepted(b, isEmail) ==>
              reply == Err(400, "Validation error", [LoginError(b, isEmail).value])
    ensures LoginAccepted(b, isEmail) ==>
              var e := NormalizeEmail(b.email.value);
              && (reply == Error(401, "Invalid credentials") <==>
                    e !in db.users || !ComparePassword(h, db.users[e], b.password.value))
              && (e in db.users && ComparePassword(h, db.users[e], b.password.value) ==>
                    reply == Ok(200, Some("Login successful"),
                                Session(ProfileOf(db.users[e]), Some(GenerateToken(j, env, db.users[e].id)))))
  {
    var gate := Validate<Session>(LoginError(b, isEmail));
    if gate.Halt? {
      return gate.reply;
    }
    var email := NormalizeEmail(b.email.value);
    if email !in db.users {
      return Error(401, "Invalid credentials");
    }
    var user := db.users[email];
    if !ComparePassword(h, user, b.password.value) {
      return Error(401, "Invalid credentials");
    }
    reply := Ok(200, Some("Login successful"), Session(ProfileOf(user), Some(GenerateToken(j, env, user.id))));
  }

  /** A user registered with a sound hasher, under any role, can then log in with the same password. */
  method RegisterThenLogin(db: Database, name: string, email: string, password: string,
                           role: Option<string>, isEmail: string -> bool, h: Hasher, salt: string,
                           j: Jwt, env: Option<string>, newId: string, now: int)
    returns (registered: Reply<Session>, loggedIn: Reply<Session>)
    requires db.Valid() && db.FreshUserId(newId) && UserModel.Sound(h)
    requires RegisterAccepted(RegisterBody(Some(name), Some(email), Some(password), role), isEmail)
    requires LoginAccepted(LoginBody(Some(email), Some(password)), isEmail)
    modifies db
    ensures registered.Ok? ==> loggedIn.Ok? && loggedIn.data.user == registered.data.user
    ensures registered.Ok? ==> loggedIn.data.user.role == RegisterRole(role).value
    ensures registered.Ok? ==> loggedIn.data.token == Some(GenerateToken(j, env, newId))
  {
    registered := Register(db, RegisterBody(Some(name), Some(email), Some(password), role), isEmail,
                           h, salt, j, env, newId, now);
    loggedIn := Login(db, LoginBody(Some(email), Some(password)), isEmail, h, j, env);
  }

  /**
   * `GET /me`: the public fields of the user `authenticate` loaded; the reply carries no token and,
   * whatever the stored hash, no trace of it.
   */
  function Me(u: User): (r: Reply<Session>)
    ensures r.Ok? && r.status == 200 && r.summary == None && r.data.token == None
    ensures UserJson(r.data.user) ==
              map["id" := Json.Str(u.id), "name" := Json.Str(u.name), "email" := Json.Str(u.email),
                  "role" := Json.Str(RoleName(u.role)), "createdAt" := Json.Num(u.createdAt)]
    ensures "passwordHash" !in UserJson(r.data.user)
  {
    Ok(200, None, Session(ProfileOf(u), None))
  }
}
