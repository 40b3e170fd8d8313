/** Password sign-up and sign-in: the salted `salt:hash` password format, the
    role and e-mail normalisation, the registration checks (in the order the
    handler makes them), the login outcomes, and the default administrator
    created at start-up. The key-derivation function, the constant-time
    comparison, the random salt and the token signer are parameters: they
    are foreign code. A request body field is `None` when it is missing or
    is not a string. */
module PasswordLogin {
  import opened Common
  import opened Types
  import opened Records
  import opened Db

  const MinPasswordLength := 6

  const MissingCredentials := "Email e senha são obrigatórios"
  const MissingName := "Nome de usuário é obrigatório"
  const MissingPlan := "Selecione um plano para criar sua conta"
  const ShortPassword := "A senha deve ter pelo menos 6 caracteres"
  const UserExists := "Usuário já existe"
  const RegisterFailed := "Falha ao registrar usuário"
  const BadCredentials := "Credenciais inválidas"
  const LoginFailed := "Falha ao autenticar"

  const AdminEmail := "admin@oncoliving.com.br"
  const AdminPassword := "senha123"
  const AdminName := "Admin OncoLiving"
  const PasswordLoginMethod := "password"

  /** `pbkdf2Sync(password, salt, 100000, 64, "sha512").toString("hex")`. */
  type Kdf = (string, string) -> string

  /** `timingSafeEqual` on the two hex strings decoded to bytes: the verdict,
      or `None` when it throws (buffers of different lengths). */
  type SafeEqual = (string, string) -> Option<bool>

  /** The HTTP status and JSON body of a reply. */
  datatype Body = Failure(error: string) | NeedsLogin | Token(token: string)
  datatype Reply = Reply(status: nat, body: Body)

  /** `typeof v === "string" ? v : ""`. */
  function StringField(v: Option<string>): string
  {
    if v.Some? then v.value else ""
  }

  /** `normalizeRole`: ONCOLOGIST only for that exact string. */
  function NormalizeRole(role: Option<string>): (r: Role)
    ensures r == Oncologist <==> role == Some("ONCOLOGIST")
    ensures r == Patient <==> role != Some("ONCOLOGIST")
  {
    if role == Some("ONCOLOGIST") then Oncologist else Patient
  }

  /** Two pieces with a `:` between them. */
  function ColonJoined(salt: string, rest: string): string
  {
    salt + [':'] + rest
  }

  /** `hashPassword` with the salt `randomBytes` produced. */
  function HashPassword(password: string, salt: string, kdf: Kdf): string
  {
    ColonJoined(salt, kdf(password, salt))
  }

  /** `verifyPassword`: a missing or empty stored value, or one whose first
      two `:`-separated pieces are not both non-empty, never matches;
      otherwise the stored hash is compared with the hash of the password
      under the stored salt. */
  function VerifyPassword(stored: Option<string>, password: string, kdf: Kdf, equal: SafeEqual): (r: Option<bool>)
    ensures stored.None? || stored == Some("") ==> r == Some(false)
    ensures stored.Some? && (forall i :: 0 <= i < |stored.value| ==> stored.value[i] != ':') ==> r == Some(false)
    ensures stored.Some? && |stored.value| > 0 && stored.value[0] == ':' ==> r == Some(false)
    ensures forall salt, rest ::
              (stored == Some(ColonJoined(salt, rest)) && (forall i :: 0 <= i < |salt| ==> salt[i] != ':')
               && (rest == [] || rest[0] == ':')) ==> r == Some(false)
  {
    if stored.None? || stored.value == "" then Some(false)
    else
      var parts := Split(stored.value, ':');
      NoSepOneSplit(stored.value);
      LeadingSepSplit(stored.value);
      EmptyHashSplit(stored.value);
      var salt := parts[0];
      var hash := if |parts| > 1 then parts[1] else "";
      if salt == "" || hash == "" then Some(false) else equal(hash, kdf(password, salt))
  }

  lemma NoSepOneSplit(s: string)
    ensures (forall i :: 0 <= i < |s| ==> s[i] != ':') ==> |Split(s, ':')| == 1
  {
    if forall i :: 0 <= i < |s| ==> s[i] != ':' {
      SplitNoSep(s, ':');
    }
  }

  lemma LeadingSepSplit(s: string)
    ensures |s| > 0 && s[0] == ':' ==> Split(s, ':')[0] == ""
  {
  }

  /** A salt followed by `:` and nothing, or by a second `:`, leaves the hash
      piece empty. */
  lemma EmptyHashSplit(s: string)
    ensures forall salt, rest ::
              (s == ColonJoined(salt, rest) && (forall i :: 0 <= i < |salt| ==> salt[i] != ':')
               && (rest == [] || rest[0] == ':')) ==> |Split(s, ':')| > 1 && Split(s, ':')[1] == ""
  {
    forall salt, rest | s == ColonJoined(salt, rest) && (forall i :: 0 <= i < |salt| ==> salt[i] != ':')
                        && (rest == [] || rest[0] == ':')
      ensures |Split(s, ':')| > 1 && Split(s, ':')[1] == ""
    {
      SplitAfterFirst(salt, rest, ':');
      assert Split(rest, ':')[0] == [];
    }
  }

  /** `"ab:"` and `"ab::cd"` have an empty hash piece, so they never match. */
  lemma EmptyHashRejected(password: string, kdf: Kdf, equal: SafeEqual)
    ensures VerifyPassword(Some("ab:"), password, kdf, equal) == Some(false)
    ensures VerifyPassword(Some("ab::cd"), password, kdf, equal) == Some(false)
  {
    assert "ab:" == ColonJoined("ab", "");
    assert "ab::cd" == ColonJoined("ab", ":cd");
  }

  /** A stored `salt:hash` written by `hashPassword` is checked against the
      hash of the password under that same salt: the password it was made
      from is accepted exactly when the comparison accepts equal digests. */
  lemma VerifyHashedPassword(password: string, salt: string, kdf: Kdf, equal: SafeEqual)
    requires salt != "" && forall i :: 0 <= i < |salt| ==> salt[i] != ':'
    requires kdf(password, salt) != [] && forall i :: 0 <= i < |kdf(password, salt)| ==> kdf(password, salt)[i] != ':'
    ensures VerifyPassword(Some(HashPassword(password, salt, kdf)), password, kdf, equal)
         == equal(kdf(password, salt), kdf(password, salt))
  {
    SplitAround(salt, kdf(password, salt), ':');
  }

  /** The registration checks, in order; the first one that fails names the
      400 reply. The password is not trimmed; e-mail and name are. */
  function RegistrationError(email: Option<string>, password: Option<string>, name: Option<string>,
                             planChoice: Option<string>): (r: Option<string>)
    ensures r.None? <==>
              && Trim(StringField(email)) != "" && StringField(password) != ""
              && Trim(StringField(name)) != "" && StringField(planChoice) != ""
              && |StringField(password)| >= MinPasswordLength
    ensures Trim(StringField(email)) == "" || StringField(password) == "" ==> r == Some(MissingCredentials)
    ensures Trim(StringField(email)) != "" && StringField(password) != "" && Trim(StringField(name)) == "" ==>
              r == Some(MissingName)
    ensures (Trim(StringField(email)) != "" && StringField(password) != "" && Trim(StringField(name)) != ""
             && StringField(planChoice) == "") ==> r == Some(MissingPlan)
    ensures (Trim(StringField(email)) != "" && StringField(password) != "" && Trim(StringField(name)) != ""
             && StringField(planChoice) != "" && |StringField(password)| < MinPasswordLength) ==> r == Some(ShortPassword)
    ensures r == Some(ShortPassword) ==>
              Trim(StringField(name)) != "" && StringField(planChoice) != "" && |StringField(password)| < MinPasswordLength
  {
    if Trim(StringField(email)) == "" || StringField(password) == "" then Some(MissingCredentials)
    else if Trim(StringField(name)) == "" then Some(MissingName)
    else if StringField(planChoice) == "" then Some(MissingPlan)
    else if |StringField(password)| < MinPasswordLength then Some(ShortPassword)
    else None
  }

  /** A paid plan is a monthly or an annual one. */
  predicate HasPaidPlan(planChoice: Option<string>)
  {
    StringField(planChoice) == "monthly" || StringField(planChoice) == "annual"
  }

  /** The address an account is registered under. */
  function RegisteredEmail(email: Option<string>): string
  {
    NormalizeEmail(Trim(StringField(email)))
  }

  /** `POST /api/auth/register`. */
  method Register(db: Store, email: Option<string>, password: Option<string>, name: Option<string>,
                  role: Option<string>, planChoice: Option<string>, salt: string, kdf: Kdf, now: int)
    returns (reply: Reply)
    requires db.Valid()
    modifies db`counters, db`users
    ensures db.Valid()
    ensures RegistrationError(email, password, name, planChoice).Some? ==>
              && reply == Reply(400, Failure(RegistrationError(email, password, name, planChoice).value))
              && db.users == old(db.users) && db.counters == old(db.counters)
    ensures RegistrationError(email, password, name, planChoice).None? && !db.online ==>
              reply == Reply(500, Failure(RegisterFailed)) && db.users == old(db.users) && db.counters == old(db.counters)
    ensures RegistrationError(email, password, name, planChoice).None? && db.online &&
            old(db.UserByEmail(RegisteredEmail(email))).Some? ==>
              reply == Reply(409, Failure(UserExists)) && db.users == old(db.users) && db.counters == old(db.counters)
    ensures RegistrationError(email, password, name, planChoice).None? && db.online &&
            old(db.UserByEmail(RegisteredEmail(email))).None? ==>
              && reply == Reply(201, NeedsLogin)
              && db.counters == Bump(old(db.counters), Users)
              && db.users == old(db.users) + [User(db.counters.users, RegisteredEmail(email),
                   Some(Trim(StringField(name))), RegisteredEmail(email),
                   Some(HashPassword(StringField(password), salt, kdf)), NormalizeRole(role),
                   Some(PasswordLoginMethod), HasPaidPlan(planChoice), false, now)]
  {
    var problem := RegistrationError(email, password, name, planChoice);
    if problem.Some? {
      return Reply(400, Failure(problem.value));
    }
    var normalizedEmail := NormalizeEmail(Trim(StringField(email)));
    var displayName := Trim(StringField(name));
    var passwordHash := HashPassword(StringField(password), salt, kdf);
    var existing := db.UserByEmail(normalizedEmail);
    if existing.Some? {
      return Reply(409, Failure(UserExists));
    }
    NormalizeEmailIdempotent(Trim(StringField(email)));
    var created := db.CreateUser(normalizedEmail, normalizedEmail, displayName, passwordHash, NormalizeRole(role),
                                 PasswordLoginMethod, HasPaidPlan(planChoice), false, now);
    if created.Err? {
      return Reply(500, Failure(RegisterFailed));
    }
    reply := Reply(201, NeedsLogin);
  }

  /** `POST /api/auth/login`. An empty string is as falsy as a missing
      field. `sign` is `signAuthToken` on the user's open id; `None` is its
      throw when no JWT secret is configured, which the `catch` turns into
      500 after the sign-in time has been written. */
  method Login(db: Store, email: Option<string>, password: Option<string>, kdf: Kdf, equal: SafeEqual,
               sign: string -> Option<string>, now: int)
    returns (reply: Reply)
    requires db.Valid()
    modifies db`users
    ensures db.Valid()
    ensures StringField(email) == "" || StringField(password) == "" ==>
              reply == Reply(400, Failure(MissingCredentials)) && db.users == old(db.users)
    ensures StringField(email) != "" && StringField(password) != "" ==>
              var found := old(db.UserByEmail(NormalizeEmail(StringField(email))));
              var verdict := if found.Some? then VerifyPassword(found.value.passwordHash, StringField(password), kdf, equal)
                             else Some(false);
              && (verdict == Some(false) ==> reply == Reply(401, Failure(BadCredentials)) && db.users == old(db.users))
              && (verdict.None? ==> reply == Reply(500, Failure(LoginFailed)) && db.users == old(db.users))
              && (verdict == Some(true) ==>
                    var k := UserIndex(old(db.users), found.value.id);
                    && k < |old(db.users)|
                    && reply == (if sign(found.value.openId).Some? then Reply(200, Token(sign(found.value.openId).value))
                                 else Reply(500, Failure(LoginFailed)))
                    && db.users == old(db.users)[k := PatchUser(old(db.users)[k], SignedInAt(now))])
  {
    if StringField(email) == "" || StringField(password) == "" {
      return Reply(400, Failure(MissingCredentials));
    }
    var normalizedEmail := NormalizeEmail(StringField(email));
    var user := db.UserByEmail(normalizedEmail);
    if user.None? {
      return Reply(401, Failure(BadCredentials));
    }
    var verdict := VerifyPassword(user.value.passwordHash, StringField(password), kdf, equal);
    if verdict.None? {
      return Reply(500, Failure(LoginFailed));
    }
    if !verdict.value {
      return Reply(401, Failure(BadCredentials));
    }
    StoredUserIndexed(db.users, user.value);
    db.UpdateUserById(user.value.id, SignedInAt(now));
    var token := sign(user.value.openId);
    if token.None? {
      return Reply(500, Failure(LoginFailed));
    }
    reply := Reply(200, Token(token.value));
  }

  /** A stored user is found by its id. */
  lemma StoredUserIndexed(users: seq<User>, u: User)
    requires u in users
    ensures UserIndex(users, u.id) < |users|
  {
  }

  /** The patch `{ lastSignedIn: now }`. */
  function SignedInAt(now: int): (p: UserPatch)
    ensures p.lastSignedIn == Some(now) && p.name.None? && p.hasActivePlan.None? && p.hasCompletedAnamnesis.None?
  {
    UserPatch(None, None, None, Some(now))
  }

  /** `ensureAdmin`: the default oncologist account, created only when no
      user has its address; a failure to create it is logged and ignored. */
  method EnsureAdmin(db: Store, salt: string, kdf: Kdf, now: int)
    requires db.Valid()
    modifies db`counters, db`users
    ensures db.Valid()
    ensures !db.online || old(db.UserByEmail(AdminEmail)).Some? ==>
              db.users == old(db.users) && db.counters == old(db.counters)
    ensures db.online ==> db.UserByEmail(AdminEmail).Some?
    ensures db.online && old(db.UserByEmail(AdminEmail)).None? ==>
              && db.counters == Bump(old(db.counters), Users)
              && db.users == old(db.users) + [User(db.counters.users, AdminEmail, Some(AdminName), NormalizeEmail(AdminEmail),
                   Some(HashPassword(AdminPassword, salt, kdf)), Oncologist, Some(PasswordLoginMethod), true, true, now)]
  {
    var existing := db.UserByEmail(AdminEmail);
    if existing.Some? {
      return;
    }
    var created := db.CreateUser(AdminEmail, AdminEmail, AdminName, HashPassword(AdminPassword, salt, kdf),
                                 Oncologist, PasswordLoginMethod, true, true, now);
    assert db.online ==> db.users[|db.users| - 1].email == NormalizeEmail(AdminEmail);
  }
}
