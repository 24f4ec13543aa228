/**
 * The User record (backend/src/models/User.ts): its field constraints, the `trim`/`lowercase`
 * setters, the address pattern the e-mail must match, the pre-save hook that hashes the password,
 * `comparePassword`, and the `toJSON` transform. bcrypt is an abstract hash/compare pair.
 */
module UserModel {
  import opened Wrappers
  import opened Enums
  import opened Text
  import Json

  const NameMinLength := 2
  const NameMaxLength := 50
  const PasswordMinLength := 6
  /** The cost passed to `bcrypt.genSalt`; the salt itself is an input of the model. */
  const SaltRounds := 12

  datatype User = User(
    id: string,
    name: string,
    email: string,
    role: Role,
    passwordHash: string,
    createdAt: int,
    updatedAt: int,
    version: int)

  /** The user without its password hash: what `.select("-passwordHash")` loads. */
  datatype Profile = Profile(id: string, name: string, email: string, role: Role, createdAt: int)

  function ProfileOf(u: User): Profile
  {
    Profile(u.id, u.name, u.email, u.role, u.createdAt)
  }

  /** The profile of a user does not depend on its password hash. */
  lemma ProfileIgnoresHash(u: User, otherHash: string)
    ensures ProfileOf(u) == ProfileOf(u.(passwordHash := otherHash))
  {
  }

  // ----- The e-mail pattern /^\w+([.-]?\w+)*@\w+([.-]?\w+)*(\.\w{2,3})+$/ -----

  /** `\w` without the `u` flag: ASCII letters, digits and underscore. */
  predicate IsWordChar(c: char)
  {
    ('a' <= c <= 'z') || ('A' <= c <= 'Z') || ('0' <= c <= '9') || c == '_'
  }

  predicate IsSeparator(c: char)
  {
    c == '.' || c == '-'
  }

  /**
   * `\w+([.-]?\w+)*`: runs of word characters joined by single `.` or `-`, so the string starts
   * and ends with a word character and never has two separators in a row.
   */
  predicate IsDottedWords(s: string)
  {
    && |s| > 0
    && IsWordChar(s[0])
    && IsWordChar(s[|s| - 1])
    && (forall i :: 0 <= i < |s| ==> IsWordChar(s[i]) || IsSeparator(s[i]))
    && (forall i :: 0 <= i < |s| - 1 ==> !(IsSeparator(s[i]) && IsSeparator(s[i + 1])))
  }

  /** `s` ends in `.` followed by exactly `k` word characters. */
  predicate EndsWithSuffix(s: string, k: nat)
  {
    && k + 1 <= |s|
    && s[|s| - k - 1] == '.'
    && forall i :: |s| - k <= i < |s| ==> IsWordChar(s[i])
  }

  /**
   * `\w+([.-]?\w+)*(\.\w{2,3})+`: dotted words whose last separator is a `.` followed by two or
   * three word characters (the earlier `\.\w{2,3}` groups are absorbed by the dotted words).
   */
  predicate IsDomain(s: string)
  {
    IsDottedWords(s) && (EndsWithSuffix(s, 2) || EndsWithSuffix(s, 3))
  }

  /** The whole pattern: dotted words, one `@`, and a domain. */
  predicate MatchesEmailPattern(s: string)
  {
    exists i :: 0 <= i < |s| && s[i] == '@' && IsDottedWords(s[..i]) && IsDomain(s[i + 1..])
  }

  lemma LowerWordChar(c: char)
    ensures IsWordChar(LowerChar(c)) <==> IsWordChar(c)
    ensures IsSeparator(LowerChar(c)) <==> IsSeparator(c)
    ensures LowerChar(c) == '@' <==> c == '@'
    ensures LowerChar(c) == '.' <==> c == '.'
  {
  }

  lemma {:induction false} LowerDottedWords(s: string)
    ensures IsDottedWords(Lower(s)) <==> IsDottedWords(s)
    ensures EndsWithSuffix(Lower(s), 2) <==> EndsWithSuffix(s, 2)
    ensures EndsWithSuffix(Lower(s), 3) <==> EndsWithSuffix(s, 3)
  {
    forall i | 0 <= i < |s| {
      LowerWordChar(s[i]);
    }
  }

  /** Lowercasing neither makes an address match the pattern nor stops it from matching. */
  lemma LowerPreservesPattern(s: string)
    ensures MatchesEmailPattern(Lower(s)) <==> MatchesEmailPattern(s)
  {
    var l := Lower(s);
    forall i | 0 <= i < |s|
      ensures (l[i] == '@' && IsDottedWords(l[..i]) && IsDomain(l[i + 1..]))
          <==> (s[i] == '@' && IsDottedWords(s[..i]) && IsDomain(s[i + 1..]))
    {
      LowerWordChar(s[i]);
      assert l[..i] == Lower(s[..i]);
      assert l[i + 1..] == Lower(s[i + 1..]);
      LowerDottedWords(s[..i]);
      LowerDottedWords(s[i + 1..]);
    }
    if MatchesEmailPattern(s) {
      var i :| 0 <= i < |s| && s[i] == '@' && IsDottedWords(s[..i]) && IsDomain(s[i + 1..]);
      assert l[i] == '@' && IsDottedWords(l[..i]) && IsDomain(l[i + 1..]);
    }
    if MatchesEmailPattern(l) {
      var i :| 0 <= i < |l| && l[i] == '@' && IsDottedWords(l[..i]) && IsDomain(l[i + 1..]);
      assert s[i] == '@' && IsDottedWords(s[..i]) && IsDomain(s[i + 1..]);
    }
  }

  lemma WordCharIsNotWhitespace(c: char)
    requires IsWordChar(c)
    ensures !IsJsWhitespace(c)
  {
  }

  /** A matching address has no surrounding whitespace, so trimming leaves it alone. */
  lemma PatternIsTrimmed(s: string)
    requires MatchesEmailPattern(s)
    ensures Trim(s) == s
  {
    var i :| 0 <= i < |s| && s[i] == '@' && IsDottedWords(s[..i]) && IsDomain(s[i + 1..]);
    var local, domain := s[..i], s[i + 1..];
    assert IsWordChar(local[0]) && IsWordChar(domain[|domain| - 1]);
    assert s[0] == local[0] && s[|s| - 1] == domain[|domain| - 1];
    WordCharIsNotWhitespace(s[0]);
    WordCharIsNotWhitespace(s[|s| - 1]);
    TrimOfTrimmed(s);
  }

  /** An address the pattern accepts. */
  lemma PatternAccepts()
    ensures MatchesEmailPattern("jo.an@mail.com")
  {
    var good := "jo.an@mail.com";
    var local, domain := good[..5], good[6..];
    assert local == "jo.an" && domain == "mail.com";
    assert IsDottedWords(local) by {
      assert forall i :: 0 <= i < |local| ==> IsWordChar(local[i]) || IsSeparator(local[i]);
    }
    assert IsDottedWords(domain) by {
      assert forall i :: 0 <= i < |domain| ==> IsWordChar(domain[i]) || IsSeparator(domain[i]);
    }
    assert EndsWithSuffix(domain, 3);
    assert good[5] == '@';
  }

  /** An address the pattern refuses: its last label has four letters. */
  lemma PatternRefuses()
    ensures !MatchesEmailPattern("jo@example.info")
  {
    var bad := "jo@example.info";
    forall i | 0 <= i < |bad| && bad[i] == '@' ensures !IsDomain(bad[i + 1..]) {
      assert i == 2;
      var d := bad[3..];
      assert d == "example.info";
      assert d[|d| - 3] == 'n' && d[|d| - 4] == 'i';
    }
  }

  // ----- Setters and validators -----

  /** The `lowercase` then `trim` setters on `email`; Mongoose also applies them to query filters. */
  function NormalizeEmail(s: string): (r: string)
    ensures IsTrimmed(r) && |r| <= |s|
  {
    Trim(Lower(s))
  }

  /** Normalising an already normalised address changes nothing. */
  lemma NormalizeEmailIdempotent(s: string)
    ensures NormalizeEmail(NormalizeEmail(s)) == NormalizeEmail(s)
  {
    var t := Trim(Lower(s));
    assert Lower(Lower(s)) == Lower(s);
    LowerTrimCommute(Lower(s));
    TrimIdempotent(Lower(s));
  }

  /** A normalised address is all lowercase: trimming never brings back an upper-case letter. */
  lemma NormalizedIsLower(s: string)
    ensures Lower(NormalizeEmail(s)) == NormalizeEmail(s)
  {
    assert Lower(Lower(s)) == Lower(s);
    LowerTrimCommute(Lower(s));
  }

  /**
   * The schema validators on the name and e-mail of a user document whose setters have run: a name
   * of 2 to 50 characters and an e-mail matching the pattern. The role is an enumeration value by
   * construction.
   */
  predicate ValidUser(u: User)
  {
    && NameMinLength <= |u.name| <= NameMaxLength
    && MatchesEmailPattern(u.email)
  }

  /**
   * The validators of a new user document. Validation runs before the pre-save hook, so the
   * `minlength` of `passwordHash` is applied to the plain-text password.
   */
  predicate ValidNewUser(u: User)
  {
    ValidUser(u) && |u.passwordHash| >= PasswordMinLength
  }

  /** A valid stored e-mail is its own normal form, so the store can be keyed by it. */
  lemma StoredEmailIsNormal(u: User)
    requires ValidUser(u) && u.email == Lower(u.email)
    ensures NormalizeEmail(u.email) == u.email
  {
    PatternIsTrimmed(u.email);
  }

  // ----- Password hashing -----

  /** bcrypt: `hash(password, salt)` and `compare(candidate, hash)`. */
  datatype Hasher = Hasher(hash: (string, string) -> string, compare: (string, string) -> bool)

  /** What the model assumes of bcrypt: a password always matches its own hash. */
  ghost predicate Sound(h: Hasher)
  {
    forall p, salt :: h.compare(p, h.hash(p, salt))
  }

  /** `user.comparePassword(candidate)`. */
  function ComparePassword(h: Hasher, u: User, candidate: string): bool
  {
    h.compare(candidate, u.passwordHash)
  }

  /**
   * A user document in memory: the record plus Mongoose's record of whether `passwordHash` was
   * assigned since the document was loaded (`isModified("passwordHash")`).
   */
  class UserDocument {
    var data: User
    var passwordModified: bool

    /**
     * `new User({ name, email, passwordHash, role })`: the setters run, every path is new, and the
     * version key `__v` starts at 0.
     */
    constructor (id: string, name: string, email: string, password: string, role: Role, now: int)
      ensures data == User(id, Trim(name), NormalizeEmail(email), role, password, now, now, 0)
      ensures passwordModified
    {
      data := User(id, Trim(name), NormalizeEmail(email), role, password, now, now, 0);
      passwordModified := true;
    }

    /** A stored user, loaded: nothing is modified yet. */
    constructor Load(u: User)
      ensures data == u && !passwordModified
    {
      data := u;
      passwordModified := false;
    }

    /** The pre-save hook: hash the password only when it was modified. */
    method PreSave(h: Hasher, salt: string)
      modifies this
      ensures old(passwordModified) ==> data == old(data).(passwordHash := h.hash(old(data.passwordHash), salt))
      ensures !old(passwordModified) ==> data == old(data)
      ensures passwordModified == old(passwordModified)
    {
      if !passwordModified {
        return;
      }
      data := data.(passwordHash := h.hash(data.passwordHash, salt));
    }

    /** After a successful save Mongoose forgets which paths were modified. */
    method MarkSaved()
      modifies this
      ensures data == old(data) && !passwordModified
    {
      passwordModified := false;
    }
  }

  /** A new user's password verifies against the hash the pre-save hook stores. */
  method NewUserPasswordVerifies(h: Hasher, salt: string, id: string, name: string, email: string,
                                 password: string, role: Role, now: int) returns (ok: bool)
    requires Sound(h)
    ensures ok
  {
    var doc := new UserDocument(id, name, email, password, role, now);
    doc.PreSave(h, salt);
    doc.MarkSaved();
    doc.PreSave(h, salt);  // saving again does not hash the hash
    ok := ComparePassword(h, doc.data, password);
  }

  /**
   * A stored user loaded and saved again: `passwordHash` was not assigned, so the hook leaves the
   * stored hash alone and the saved record is the stored one.
   */
  method ResaveKeepsHash(h: Hasher, salt: string, u: User) returns (saved: User)
    ensures saved == u
  {
    var doc := new UserDocument.Load(u);
    doc.PreSave(h, salt);
    doc.MarkSaved();
    saved := doc.data;
  }

  // ----- Serialisation -----

  /** The plain object Mongoose hands to the `toJSON` transform as `ret`, version key included. */
  function Serialise(u: User): Json.Object
  {
    map["_id" := Json.Str(u.id), "name" := Json.Str(u.name), "email" := Json.Str(u.email),
        "role" := Json.Str(RoleName(u.role)), "passwordHash" := Json.Str(u.passwordHash),
        "createdAt" := Json.Num(u.createdAt), "updatedAt" := Json.Num(u.updatedAt), "__v" := Json.Num(u.version)]
  }

  /** The `toJSON` transform: `delete ret.passwordHash`. */
  function ToJSON(ret: Json.Object): (r: Json.Object)
    ensures "passwordHash" !in r
    ensures r.Keys == ret.Keys - {"passwordHash"}
    ensures forall k :: k in r ==> r[k] == ret[k]
  {
    ret - {"passwordHash"}
  }

  /** A serialised user carries every field but the hash, and nothing derived from the hash. */
  lemma SerialisedUserHidesHash(u: User, otherHash: string)
    ensures ToJSON(Serialise(u)).Keys == {"_id", "name", "email", "role", "createdAt", "updatedAt", "__v"}
    ensures ToJSON(Serialise(u)) == ToJSON(Serialise(u.(passwordHash := otherHash)))
  {
    var a := ToJSON(Serialise(u));
    var b := ToJSON(Serialise(u.(passwordHash := otherHash)));
    assert a.Keys == b.Keys;
    assert forall k :: k in a ==> a[k] == b[k];
  }
}
