/**
 * The authentication controller (Backend/Controllers/AuthController.js):
 * token issue, biometric digests, and the handlers for signup, password
 * login (with the lazy admin bootstrap), biometric login, biometric
 * enrolment and removal, biometric status, refresh-token rotation and
 * logout.  Each handler is a method of `AuthService` that answers with a
 * status code and a payload, and writes through `UserStore.Save`.
 */
module AuthController {
  import opened Primitives
  import opened UserModel

  /** ADMIN_EMAIL, ADMIN_PASSWORD, JWT_SECRET and REFRESH_TOKEN_SECRET. */
  datatype Config = Config(adminEmail: string, adminPassword: string, jwtSecret: string, refreshSecret: string)

  // ---------------------------------------------------------------- tokens

  /** The three tokens of `generateTokens`: access, refresh and the legacy `jwtToken`. */
  datatype TokenKind = Access | Refresh | Legacy

  /** The access and legacy tokens share JWT_SECRET; the refresh token has its own secret. */
  function Secret(cfg: Config, kind: TokenKind): string
  {
    match kind
    case Access => cfg.jwtSecret
    case Refresh => cfg.refreshSecret
    case Legacy => cfg.jwtSecret
  }

  /** `expiresIn`, in seconds: '15m', '7d' and '24h'. */
  function Lifetime(kind: TokenKind): nat
  {
    match kind
    case Access => 15 * 60
    case Refresh => 7 * 24 * 60 * 60
    case Legacy => 24 * 60 * 60
  }

  datatype Tokens = Tokens(accessToken: string, refreshToken: string, jwtToken: string)

  function TokenOf(t: Tokens, kind: TokenKind): string
  {
    match kind
    case Access => t.accessToken
    case Refresh => t.refreshToken
    case Legacy => t.jwtToken
  }

  /** The claims `{ email, id }` a user's tokens carry. */
  function ClaimsOf(u: UserRecord): Claims
  {
    Claims(u.email, u.id)
  }

  /** JWT signing of one token of the triad. */
  function Issue(c: Crypto, cfg: Config, kind: TokenKind, claims: Claims, now: Time): string
  {
    c.jwtSign(claims, Secret(cfg, kind), Lifetime(kind), now)
  }

  /** `generateTokens`: the triad, all over the same claims. */
  function GenerateTokens(c: Crypto, cfg: Config, claims: Claims, now: Time): (t: Tokens)
    ensures forall kind :: TokenOf(t, kind) == c.jwtSign(claims, Secret(cfg, kind), Lifetime(kind), now)
  {
    Tokens(Issue(c, cfg, Access, claims, now), Issue(c, cfg, Refresh, claims, now), Issue(c, cfg, Legacy, claims, now))
  }

  /**
   * Every token of the triad verifies, under the secret of its kind, to the
   * claims it was issued for, until its own lifetime has passed, and not after.
   */
  lemma IssuedTokensVerify(c: Crypto, cfg: Config, claims: Claims, now: Time, kind: TokenKind, t: Time)
    requires Lawful(c)
    ensures JwtVerify(c, TokenOf(GenerateTokens(c, cfg, claims, now), kind), Secret(cfg, kind), t) ==
            if t < now + Lifetime(kind) then Some(claims) else None
  {
    SignedTokenVerifies(c, claims, Secret(cfg, kind), Lifetime(kind), now, t);
  }

  /** `hashBiometricData`: the SHA-256 hex digest of the raw assertion. */
  function HashBiometricData(c: Crypto, data: string): (h: string)
    requires Lawful(c)
    ensures h != ""
  {
    c.sha256Hex(data)
  }

  // ------------------------------------------------------- record updates

  /** What addBiometric writes: the new digest, enabled, and the hook's timestamp. */
  function Enrolled(u: UserRecord, digest: string, now: Time): (r: UserRecord)
    ensures r == u.(biometricEnabled := true, biometricHash := Some(digest),
                    biometricRegisteredAt := r.biometricRegisteredAt)
    ensures digest != "" && u.biometricRegisteredAt.Some? ==> r.biometricRegisteredAt == u.biometricRegisteredAt
    ensures digest != "" && Registered(u) && u.biometricRegisteredAt.None? ==> r.biometricRegisteredAt == Some(now)
  {
    var doc := u.(biometricHash := Some(digest), biometricEnabled := true);
    PreSave(doc, HashModified(Some(u), doc), now)
  }

  /** What removeBiometric writes: no digest, disabled, and so no timestamp. */
  function Unenrolled(u: UserRecord, now: Time): (r: UserRecord)
    ensures r == u.(biometricEnabled := false, biometricHash := None, biometricRegisteredAt := None)
  {
    var doc := u.(biometricHash := None, biometricEnabled := false);
    PreSave(doc, HashModified(Some(u), doc), now)
  }

  /** Enrolling the same digest twice is enrolling it once: the first timestamp stays. */
  lemma EnrolIdempotent(u: UserRecord, digest: string, t1: Time, t2: Time)
    ensures Enrolled(Enrolled(u, digest, t1), digest, t2) == Enrolled(u, digest, t1)
  {
    var once := Enrolled(u, digest, t1);
    var doc := once.(biometricHash := Some(digest), biometricEnabled := true);
    assert doc == once;
    assert !HashModified(Some(once), doc);
  }

  /** Removing twice is removing once. */
  lemma UnenrolIdempotent(u: UserRecord, t1: Time, t2: Time)
    ensures Unenrolled(Unenrolled(u, t1), t2) == Unenrolled(u, t1)
  {
  }

  /** Removal after enrolment leaves no trace of the enrolment. */
  lemma UnenrolUndoesEnrol(u: UserRecord, digest: string, t1: Time, t2: Time)
    ensures Unenrolled(Enrolled(u, digest, t1), t2) == Unenrolled(u, t2)
  {
  }

  /**
   * The controller's own record invariant: Admin exactly when the email is
   * ADMIN_EMAIL (the rule both signup and the bootstrap apply, and nothing
   * changes afterwards), and biometric enabled exactly when a digest is stored.
   */
  predicate Consistent(u: UserRecord, adminEmail: string)
  {
    && (u.role == Admin <==> u.email == adminEmail)
    && (u.biometricEnabled <==> Truthy(u.biometricHash))
  }

  // -------------------------------------------------------------- refresh

  /**
   * The record a refresh token opens, if any: `jwt.verify` under the refresh
   * secret, then `findOne({ _id: decoded.id, refreshToken })`.
   */
  function RefreshTarget(c: Crypto, cfg: Config, users: map<UserId, UserRecord>, token: string, now: Time): (r: Option<UserId>)
    ensures r.Some? ==>
              && JwtVerify(c, token, cfg.refreshSecret, now).Some?
              && JwtVerify(c, token, cfg.refreshSecret, now).value.id == r.value
              && r.value in users && users[r.value].refreshToken == Some(token)
    ensures r.None? ==>
              || JwtVerify(c, token, cfg.refreshSecret, now).None?
              || var id := JwtVerify(c, token, cfg.refreshSecret, now).value.id;
                 id !in users || users[id].refreshToken != Some(token)
  {
    match JwtVerify(c, token, cfg.refreshSecret, now)
    case None => None
    case Some(claims) =>
      if claims.id in users && users[claims.id].refreshToken == Some(token) then Some(claims.id) else None
  }

  /**
   * A refresh token the controller stored for a user opens that user's
   * record for the token's seven-day life, and no longer.
   */
  lemma IssuedRefreshTokenAccepted(c: Crypto, cfg: Config, users: map<UserId, UserRecord>, id: UserId, issued: Time, now: Time)
    requires Lawful(c)
    requires id in users && users[id].id == id
    requires users[id].refreshToken == Some(GenerateTokens(c, cfg, ClaimsOf(users[id]), issued).refreshToken)
    ensures RefreshTarget(c, cfg, users, users[id].refreshToken.value, now) ==
            if now < issued + Lifetime(Refresh) then Some(id) else None
  {
    var claims := ClaimsOf(users[id]);
    IssuedTokensVerify(c, cfg, claims, issued, Refresh, now);
    assert TokenOf(GenerateTokens(c, cfg, claims, issued), Refresh) == users[id].refreshToken.value;
    assert Secret(cfg, Refresh) == cfg.refreshSecret;
  }

  /**
   * Single use: once a token has opened a record and that record stores a
   * different token, the first token opens nothing, at any later time.
   */
  lemma {:induction false} RotatedTokenRejected(c: Crypto, cfg: Config, before: map<UserId, UserRecord>,
                                                after: map<UserId, UserRecord>, token: string, t1: Time, t2: Time)
    requires RefreshTarget(c, cfg, before, token, t1).Some?
    requires var id := RefreshTarget(c, cfg, before, token, t1).value;
             id in after && after[id].refreshToken != Some(token)
    ensures RefreshTarget(c, cfg, after, token, t2).None?
  {
    var decoded := c.jwtDecode(token, cfg.refreshSecret);
    assert decoded.Some? && decoded.value.claims.id == RefreshTarget(c, cfg, before, token, t1).value;
  }

  /** A token that no record stores opens nothing, whoever signed it: the state logout leaves behind. */
  lemma UnheldTokenRejected(c: Crypto, cfg: Config, users: map<UserId, UserRecord>, token: string, now: Time)
    requires forall id :: id in users ==> users[id].refreshToken != Some(token)
    ensures RefreshTarget(c, cfg, users, token, now).None?
  {
  }

  // ------------------------------------------------------------- replies

  const UserExistsMessage := "User already exists, you can login"
  const SignupSuccessMessage := "Signup successful"
  const InternalErrorMessage := "Internal server error"
  const AuthFailedMessage := "Auth failed: email or password is wrong"
  const LoginSuccessMessage := "Login Success"
  const BiometricFieldsRequiredMessage := "Email and biometric data are required"
  const UserNotFoundMessage := "User not found"
  const BiometricNotEnabledMessage := "Biometric authentication not enabled for this user"
  const BiometricFailedMessage := "Biometric authentication failed"
  const BiometricLoginSuccessMessage := "Biometric Login Success"
  const AddBiometricFieldsRequiredMessage := "User ID and biometric data are required"
  const BiometricAddedMessage := "Biometric added successfully"
  const UserIdRequiredMessage := "User ID is required"
  const BiometricRemovedMessage := "Biometric removed successfully"
  const RefreshTokenRequiredMessage := "Refresh token is required"
  const InvalidRefreshTokenMessage := "Invalid refresh token"
  const LoggedOutMessage := "Logged out successfully"

  /** The profile part of a successful authentication. */
  datatype Profile = Profile(name: string, email: string, role: Role, userId: UserId, biometricEnabled: bool)

  /** The JSON body of a reply; every `Failed` body carries `success: false`, every other `success: true`. */
  datatype Payload =
    | Failed(message: string)
    | Authenticated(message: string, tokens: Tokens, profile: Profile)
    | BiometricChanged(message: string, biometricEnabled: bool)
    | BiometricStatus(biometricEnabled: bool, email: string, name: string)
    | Refreshed(tokens: Tokens, userId: UserId)
    | Done(message: string)

  datatype Reply = Reply(status: nat, payload: Payload)

  // ------------------------------------------------------------ handlers

  class AuthService {
    const config: Config
    const crypto: Crypto
    const store: UserStore

    ghost predicate Valid()
      reads this, store
    {
      && store.Valid()
      && Lawful(crypto)
      && (forall id :: id in store.users ==> Consistent(store.users[id], config.adminEmail))
    }

    constructor (config: Config, crypto: Crypto)
      requires Lawful(crypto)
      ensures Valid() && fresh(store)
      ensures this.config == config && this.crypto == crypto && store.users == map[]
    {
      this.config := config;
      this.crypto := crypto;
      this.store := new UserStore();
    }

    /**
     * Set the refresh token of a stored record and save it: the write that
     * login, biometric login, refresh and logout end with.  Nothing the hook
     * or the unique index looks at changes, so the save always succeeds.
     */
    method StoreRefreshToken(id: UserId, token: Option<string>, now: Time)
      requires Valid() && id in store.users
      modifies store
      ensures Valid()
      ensures store.users == old(store.users)[id := old(store.users)[id].(refreshToken := token)]
      ensures store.byEmail == old(store.byEmail) && store.nextId == old(store.nextId)
    {
      var doc := store.users[id].(refreshToken := token);
      PreSaveUnmodifiedIsIdentity(doc, now);
      ReindexedUnchangedEmail(store.users, store.byEmail, doc);
      var ok := store.Save(doc, now);
      assert ok;
    }

    /** `signup`. */
    method Signup(name: string, email: string, password: string, biometricData: Option<string>, salt: Salt, now: Time)
      returns (r: Reply)
      requires Valid()
      modifies store
      ensures Valid()
      ensures email in old(store.byEmail) ==> r == Reply(409, Failed(UserExistsMessage)) && unchanged(store)
      ensures email !in old(store.byEmail) ==>
                store.nextId == old(store.nextId) + 1 && old(store.nextId) !in old(store.users)
      ensures email !in old(store.byEmail) && (name == "" || email == "") ==>
                r == Reply(500, Failed(InternalErrorMessage)) &&
                store.users == old(store.users) && store.byEmail == old(store.byEmail)
      ensures email !in old(store.byEmail) && name != "" && email != "" ==>
                var id := old(store.nextId);
                var tokens := GenerateTokens(crypto, config, Claims(email, id), now);
                var enrolled := Truthy(biometricData);
                var u := UserRecord(
                  id, name, email, crypto.bcryptHash(password, salt),
                  if email == config.adminEmail then Admin else User,
                  enrolled,
                  if enrolled then Some(HashBiometricData(crypto, biometricData.value)) else None,
                  if enrolled then Some(now) else None,
                  Some(tokens.refreshToken));
                && store.users == old(store.users)[id := u]
                && store.byEmail == old(store.byEmail)[email := id]
                && r == Reply(201, Authenticated(SignupSuccessMessage, tokens, Profile(name, email, u.role, id, enrolled)))
    {
      var existing := store.FindByEmail(email);
      if existing.Some? {
        return Reply(409, Failed(UserExistsMessage));
      }
      var hashedPassword := crypto.bcryptHash(password, salt);
      var role := if email == config.adminEmail then Admin else User;
      var fields := UserFields(name, email, hashedPassword, Some(role), Some(false), None);
      if Truthy(biometricData) {
        fields := fields.(biometricHash := Some(HashBiometricData(crypto, biometricData.value)), biometricEnabled := Some(true));
      }
      var id := store.NewId();
      var doc := NewDocument(id, fields);
      var tokens := GenerateTokens(crypto, config, ClaimsOf(doc), now);
      doc := doc.(refreshToken := Some(tokens.refreshToken));
      // the hook stamps the registration time exactly when a digest is stored
      assert Previous(store.users, id).None?;
      assert PreSave(doc, HashModified(None, doc), now) ==
             doc.(biometricRegisteredAt := if Truthy(biometricData) then Some(now) else None);
      var ok := store.Save(doc, now);
      if !ok {
        return Reply(500, Failed(InternalErrorMessage));
      }
      r := Reply(201, Authenticated(SignupSuccessMessage, tokens, Profile(doc.name, doc.email, doc.role, id, doc.biometricEnabled)));
    }

    /** `login`: password login, bootstrapping the admin record on first use of the admin credentials. */
    method Login(email: string, password: string, salt: Salt, now: Time) returns (r: Reply)
      requires Valid()
      modifies store
      ensures Valid()
      ensures email !in old(store.byEmail) && !(email == config.adminEmail && password == config.adminPassword) ==>
                r == Reply(403, Failed(AuthFailedMessage)) && unchanged(store)
      ensures email in old(store.byEmail) &&
              !crypto.bcryptCompare(password, old(store.users)[old(store.byEmail)[email]].passwordHash) ==>
                r == Reply(403, Failed(AuthFailedMessage)) && unchanged(store)
      ensures email in old(store.byEmail) &&
              crypto.bcryptCompare(password, old(store.users)[old(store.byEmail)[email]].passwordHash) ==>
                var u := old(store.users)[old(store.byEmail)[email]];
                var tokens := GenerateTokens(crypto, config, Claims(email, u.id), now);
                && store.users == old(store.users)[u.id := u.(refreshToken := Some(tokens.refreshToken))]
                && store.byEmail == old(store.byEmail) && store.nextId == old(store.nextId)
                && r == Reply(200, Authenticated(LoginSuccessMessage, tokens,
                                                 Profile(u.name, email, u.role, u.id, u.biometricEnabled)))
      ensures email !in old(store.byEmail) && email == config.adminEmail && password == config.adminPassword ==>
                store.nextId == old(store.nextId) + 1 && old(store.nextId) !in old(store.users)
      ensures email !in old(store.byEmail) && email == config.adminEmail && password == config.adminPassword &&
              email == "" ==>
                r == Reply(500, Failed(InternalErrorMessage)) &&
                store.users == old(store.users) && store.byEmail == old(store.byEmail)
      ensures email !in old(store.byEmail) && email == config.adminEmail && password == config.adminPassword &&
              email != "" ==>
                var id := old(store.nextId);
                var tokens := GenerateTokens(crypto, config, Claims(email, id), now);
                var u := UserRecord(id, "Admin User", email, crypto.bcryptHash(config.adminPassword, salt), Admin,
                                    false, None, None, Some(tokens.refreshToken));
                && store.users == old(store.users)[id := u]
                && store.byEmail == old(store.byEmail)[email := id]
                && r == Reply(200, Authenticated(LoginSuccessMessage, tokens, Profile("Admin User", email, Admin, id, false)))
    {
      var found := store.FindByEmail(email);
      if found.None? {
        if email == config.adminEmail && password == config.adminPassword {
          // lazy admin bootstrap: a new, not yet saved, admin document
          var id := store.NewId();
          var doc := NewDocument(id, UserFields("Admin User", config.adminEmail, crypto.bcryptHash(config.adminPassword, salt),
                                                Some(Admin), Some(false), None));
          // the password check that follows always passes on this document
          assert crypto.bcryptCompare(password, doc.passwordHash);
          var tokens := GenerateTokens(crypto, config, ClaimsOf(doc), now);
          doc := doc.(refreshToken := Some(tokens.refreshToken));
          var ok := store.Save(doc, now);
          if !ok {
            return Reply(500, Failed(InternalErrorMessage));
          }
          return Reply(200, Authenticated(LoginSuccessMessage, tokens, Profile(doc.name, email, doc.role, id, doc.biometricEnabled)));
        }
        return Reply(403, Failed(AuthFailedMessage));
      }
      var user := found.value;
      if !crypto.bcryptCompare(password, user.passwordHash) {
        return Reply(403, Failed(AuthFailedMessage));
      }
      var tokens := GenerateTokens(crypto, config, ClaimsOf(user), now);
      StoreRefreshToken(user.id, Some(tokens.refreshToken), now);
      r := Reply(200, Authenticated(LoginSuccessMessage, tokens, Profile(user.name, email, user.role, user.id, user.biometricEnabled)));
    }

    /** `biometricLogin`: its checks run in this order, and every failure is a 403 that changes nothing. */
    method BiometricLogin(email: Option<string>, biometricData: Option<string>, now: Time) returns (r: Reply)
      requires Valid()
      modifies store
      ensures Valid()
      ensures !Truthy(email) || !Truthy(biometricData) ==>
                r == Reply(400, Failed(BiometricFieldsRequiredMessage)) && unchanged(store)
      ensures Truthy(email) && Truthy(biometricData) && email.value !in old(store.byEmail) ==>
                r == Reply(403, Failed(UserNotFoundMessage)) && unchanged(store)
      ensures Truthy(email) && Truthy(biometricData) && email.value in old(store.byEmail) ==>
                var u := old(store.users)[old(store.byEmail)[email.value]];
                && (!u.biometricEnabled || !Truthy(u.biometricHash) ==>
                      r == Reply(403, Failed(BiometricNotEnabledMessage)) && unchanged(store))
                && (u.biometricEnabled && Truthy(u.biometricHash) &&
                    HashBiometricData(crypto, biometricData.value) != u.biometricHash.value ==>
                      r == Reply(403, Failed(BiometricFailedMessage)) && unchanged(store))
                && (u.biometricEnabled && Truthy(u.biometricHash) &&
                    HashBiometricData(crypto, biometricData.value) == u.biometricHash.value ==>
                      var tokens := GenerateTokens(crypto, config, ClaimsOf(u), now);
                      && store.users == old(store.users)[u.id := u.(refreshToken := Some(tokens.refreshToken))]
                      && store.byEmail == old(store.byEmail) && store.nextId == old(store.nextId)
                      && r == Reply(200, Authenticated(BiometricLoginSuccessMessage, tokens,
                                                       Profile(u.name, u.email, u.role, u.id, true))))
    {
      if !Truthy(email) || !Truthy(biometricData) {
        return Reply(400, Failed(BiometricFieldsRequiredMessage));
      }
      var found := store.FindByEmail(email.value);
      if found.None? {
        return Reply(403, Failed(UserNotFoundMessage));
      }
      var user := found.value;
      if !user.biometricEnabled || !Truthy(user.biometricHash) {
        return Reply(403, Failed(BiometricNotEnabledMessage));
      }
      var providedHash := HashBiometricData(crypto, biometricData.value);
      if providedHash != user.biometricHash.value {
        return Reply(403, Failed(BiometricFailedMessage));
      }
      var tokens := GenerateTokens(crypto, config, ClaimsOf(user), now);
      StoreRefreshToken(user.id, Some(tokens.refreshToken), now);
      r := Reply(200, Authenticated(BiometricLoginSuccessMessage, tokens, Profile(user.name, user.email, user.role, user.id, true)));
    }

    /** `addBiometric`: enrol (or re-enrol) a biometric digest. */
    method AddBiometric(userId: Option<UserId>, biometricData: Option<string>, now: Time) returns (r: Reply)
      requires Valid()
      modifies store
      ensures Valid()
      ensures userId.None? || !Truthy(biometricData) ==>
                r == Reply(400, Failed(AddBiometricFieldsRequiredMessage)) && unchanged(store)
      ensures userId.Some? && Truthy(biometricData) && userId.value !in old(store.users) ==>
                r == Reply(404, Failed(UserNotFoundMessage)) && unchanged(store)
      ensures userId.Some? && Truthy(biometricData) && userId.value in old(store.users) ==>
                && store.users == old(store.users)[userId.value :=
                     Enrolled(old(store.users)[userId.value], HashBiometricData(crypto, biometricData.value), now)]
                && store.byEmail == old(store.byEmail) && store.nextId == old(store.nextId)
                && r == Reply(200, BiometricChanged(BiometricAddedMessage, true))
    {
      if userId.None? || !Truthy(biometricData) {
        return Reply(400, Failed(AddBiometricFieldsRequiredMessage));
      }
      if userId.value !in store.users {
        return Reply(404, Failed(UserNotFoundMessage));
      }
      var user := store.users[userId.value];
      var doc := user.(biometricHash := Some(HashBiometricData(crypto, biometricData.value)), biometricEnabled := true);
      ReindexedUnchangedEmail(store.users, store.byEmail, doc);
      var ok := store.Save(doc, now);
      assert ok;
      r := Reply(200, BiometricChanged(BiometricAddedMessage, true));
    }

    /** `removeBiometric`: drop the digest and disable biometric login. */
    method RemoveBiometric(userId: Option<UserId>, now: Time) returns (r: Reply)
      requires Valid()
      modifies store
      ensures Valid()
      ensures userId.None? ==> r == Reply(400, Failed(UserIdRequiredMessage)) && unchanged(store)
      ensures userId.Some? && userId.value !in old(store.users) ==>
                r == Reply(404, Failed(UserNotFoundMessage)) && unchanged(store)
      ensures userId.Some? && userId.value in old(store.users) ==>
                && store.users == old(store.users)[userId.value := Unenrolled(old(store.users)[userId.value], now)]
                && store.byEmail == old(store.byEmail) && store.nextId == old(store.nextId)
                && r == Reply(200, BiometricChanged(BiometricRemovedMessage, false))
    {
      if userId.None? {
        return Reply(400, Failed(UserIdRequiredMessage));
      }
      if userId.value !in store.users {
        return Reply(404, Failed(UserNotFoundMessage));
      }
      var user := store.users[userId.value];
      var doc := user.(biometricHash := None, biometricEnabled := false);
      ReindexedUnchangedEmail(store.users, store.byEmail, doc);
      var ok := store.Save(doc, now);
      assert ok;
      r := Reply(200, BiometricChanged(BiometricRemovedMessage, false));
    }

    /** `checkBiometricStatus`: a read-only projection; it has no `modifies` clause. */
    method CheckBiometricStatus(email: string) returns (r: Reply)
      requires Valid()
      ensures email !in store.byEmail ==> r == Reply(404, Failed(UserNotFoundMessage))
      ensures email in store.byEmail ==>
                var u := store.users[store.byEmail[email]];
                r == Reply(200, BiometricStatus(u.biometricEnabled, email, u.name))
      ensures r.status == 200 ==> r.payload.BiometricStatus? && (r.payload.biometricEnabled <==>
                Truthy(store.users[store.byEmail[email]].biometricHash))
    {
      var found := store.FindByEmail(email);
      if found.None? {
        return Reply(404, Failed(UserNotFoundMessage));
      }
      var user := found.value;
      r := Reply(200, BiometricStatus(user.biometricEnabled, user.email, user.name));
    }

    /** `refreshToken`: rotate the single stored refresh token. */
    method RefreshToken(token: Option<string>, now: Time) returns (r: Reply)
      requires Valid()
      modifies store
      ensures Valid()
      ensures !Truthy(token) ==> r == Reply(401, Failed(RefreshTokenRequiredMessage)) && unchanged(store)
      ensures Truthy(token) && RefreshTarget(crypto, config, old(store.users), token.value, now).None? ==>
                r == Reply(403, Failed(InvalidRefreshTokenMessage)) && unchanged(store)
      ensures Truthy(token) && RefreshTarget(crypto, config, old(store.users), token.value, now).Some? ==>
                var id := RefreshTarget(crypto, config, old(store.users), token.value, now).value;
                var u := old(store.users)[id];
                var tokens := GenerateTokens(crypto, config, ClaimsOf(u), now);
                && store.users == old(store.users)[id := u.(refreshToken := Some(tokens.refreshToken))]
                && store.byEmail == old(store.byEmail) && store.nextId == old(store.nextId)
                && r == Reply(200, Refreshed(tokens, id))
    {
      if !Truthy(token) {
        return Reply(401, Failed(RefreshTokenRequiredMessage));
      }
      var decoded := JwtVerify(crypto, token.value, config.refreshSecret, now);
      if decoded.None? {
        return Reply(403, Failed(InvalidRefreshTokenMessage));
      }
      var id := decoded.value.id;
      if id !in store.users || store.users[id].refreshToken != token {
        return Reply(403, Failed(InvalidRefreshTokenMessage));
      }
      var user := store.users[id];
      var tokens := GenerateTokens(crypto, config, ClaimsOf(user), now);
      StoreRefreshToken(id, Some(tokens.refreshToken), now);
      r := Reply(200, Refreshed(tokens, id));
    }

    /**
     * `logout`: clear the refresh token of one record that stores exactly the
     * presented value (an absent token matches a record that stores none);
     * the reply is the same whatever happens.
     */
    method Logout(token: Option<string>, now: Time) returns (r: Reply)
      requires Valid()
      modifies store
      ensures Valid()
      ensures r == Reply(200, Done(LoggedOutMessage))
      ensures store.byEmail == old(store.byEmail) && store.nextId == old(store.nextId)
      ensures (forall id :: id in old(store.users) ==> old(store.users)[id].refreshToken != token) ==>
                store.users == old(store.users)
      ensures (exists id :: id in old(store.users) && old(store.users)[id].refreshToken == token) ==>
                exists id :: id in old(store.users) && old(store.users)[id].refreshToken == token &&
                  store.users == old(store.users)[id := old(store.users)[id].(refreshToken := None)]
    {
      if exists id :: id in store.users && store.users[id].refreshToken == token {
        var id :| id in store.users && store.users[id].refreshToken == token;
        StoreRefreshToken(id, None, now);
      }
      r := Reply(200, Done(LoggedOutMessage));
    }
  }
}
