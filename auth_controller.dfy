/** The register and login handlers. Both answer with a signed token whose
    payload is `{ user: { id } }` and whose lifetime is seven days. Signing is
    modelled by the grant it signs (payload and lifetime) and by the payload
    `jwt.verify` later returns for the token, which adds the `iat` and `exp`
    claims. The password check (`user.comparePassword`, a bcrypt comparison in
    the User model) is a parameter. */
module AuthController {
  import opened Common
  import opened ObjectIds
  import opened Users
  import opened AuthMiddleware

  const TOKEN_LIFETIME_SECONDS: int := 7 * 24 * 60 * 60

  const MSG_USER_EXISTS: string := "User already exists"
  const MSG_MISSING_CREDENTIALS: string := "Please provide both email and password."
  const MSG_EMAIL_NOT_FOUND: string := "Invalid credentials: Email not found"
  const MSG_WRONG_PASSWORD: string := "Invalid credentials: Incorrect password"

  /** What `jwt.sign(payload, secret, { expiresIn })` is asked to sign. */
  datatype TokenGrant = TokenGrant(payload: map<string, Json>, expiresInSeconds: int)

  /** The grant both handlers issue: `{ user: { id: user.id } }` for seven days
      (`user.id` is the string form of the `_id`). */
  function IssuedGrant(id: ObjectId): TokenGrant {
    TokenGrant(map["user" := JObj(map["id" := JStr(ToHexString(id))])], TOKEN_LIFETIME_SECONDS)
  }

  /** The payload that the one canonical shape puts the id in: at the top level, where the middleware reads it. */
  function CanonicalGrant(id: ObjectId): TokenGrant {
    TokenGrant(map["id" := JStr(ToHexString(id))], TOKEN_LIFETIME_SECONDS)
  }

  /** The payload `jwt.verify` returns for a token signed at time `iat` from `g`. */
  function DecodedPayload(g: TokenGrant, iat: int): (j: Json)
    ensures j.JObj? && j.fields.Keys == g.payload.Keys + {"iat", "exp"}
    ensures j.fields["iat"] == JNum(iat)
    ensures j.fields["exp"] == JNum(iat + g.expiresInSeconds)
    ensures forall k :: k in g.payload && k != "iat" && k != "exp" ==> j.fields[k] == g.payload[k]
  {
    JObj(g.payload["iat" := JNum(iat)]["exp" := JNum(iat + g.expiresInSeconds)])
  }

  /** The register handler. `newId` is the `_id` the driver gives the new user. */
  method Register(store: UserStore, name: string, email: Email, password: string, newId: ObjectId)
    returns (r: Reply<TokenGrant>)
    requires store.Valid() && !IdInUse(store.users, newId)
    modifies store
    ensures store.Valid()
    ensures email in old(store.users) ==>
              r == Fail(400, MSG_USER_EXISTS) && store.users == old(store.users)
    ensures email !in old(store.users) ==>
              && r == Ok(200, IssuedGrant(newId))
              && store.users == old(store.users)[email := User(newId, name, email, password)]
  {
    var existing := store.FindOne(email);
    if existing.Some? {
      return Fail(400, MSG_USER_EXISTS);
    }
    var user := User(newId, name, email, password);
    store.Insert(user);
    r := Ok(200, IssuedGrant(user.id));
  }

  /** The login handler. `comparePassword(candidate, stored)` is the User model's password check. */
  function Login(users: map<Email, User>, email: Input<Text>, password: Input<Text>,
                 comparePassword: (string, string) -> bool): (r: Reply<TokenGrant>)
    ensures !Truthy(email) || !Truthy(password) <==> r == Fail(400, MSG_MISSING_CREDENTIALS)
    ensures Truthy(email) && Truthy(password) && Trim(email.value) !in users ==>
              r == Fail(401, MSG_EMAIL_NOT_FOUND)
    ensures r.Ok? <==>
              && Truthy(email) && Truthy(password)
              && Trim(email.value) in users
              && comparePassword(password.value, users[Trim(email.value)].password)
    ensures Truthy(email) && Truthy(password) && Trim(email.value) in users
            && !comparePassword(password.value, users[Trim(email.value)].password) ==>
              r == Fail(401, MSG_WRONG_PASSWORD)
    ensures r.Ok? ==> r == Ok(200, IssuedGrant(users[Trim(email.value)].id))
    ensures r.Fail? ==> r.status in {400, 401}
  {
    if !Truthy(email) || !Truthy(password) then Fail(400, MSG_MISSING_CREDENTIALS)
    else
      var trimmedEmail := Trim(email.value);
      if trimmedEmail !in users then Fail(401, MSG_EMAIL_NOT_FOUND)
      else
        var user := users[trimmedEmail];
        if !comparePassword(password.value, user.password) then Fail(401, MSG_WRONG_PASSWORD)
        else Ok(200, IssuedGrant(user.id))
  }

  /** A login that lacks either field is answered without looking at the user table. */
  lemma MissingCredentialsIgnoreTable(users1: map<Email, User>, users2: map<Email, User>,
                                      email: Input<Text>, password: Input<Text>,
                                      comparePassword: (string, string) -> bool)
    requires !Truthy(email) || !Truthy(password)
    ensures Login(users1, email, password, comparePassword) == Login(users2, email, password, comparePassword)
  {
  }

  /** Registering and then logging in with the same e-mail and password yields a token for the new user,
      when the address has no surrounding white space. */
  lemma LoginAfterRegister(users: map<Email, User>, name: string, email: Text, password: Text, id: ObjectId,
                           comparePassword: (string, string) -> bool)
    requires email !in users && Trim(email) == email
    requires comparePassword(password, password)
    ensures Login(users[email := User(id, name, email, password)], Given(email), Given(password), comparePassword)
            == Ok(200, IssuedGrant(id))
  {
  }

  /** Register keys the user by the address as given, login by the trimmed address: a user registered with
      surrounding white space cannot log in with that address. */
  lemma UntrimmedRegistrationCannotLogIn(users: map<Email, User>, name: string, email: Text,
                                         password: Text, id: ObjectId,
                                         comparePassword: (string, string) -> bool)
    requires email !in users && Trim(email) !in users
    requires IsJsWhitespace(email[0]) || IsJsWhitespace(email[|email| - 1])
    ensures Login(users[email := User(id, name, email, password)], Given(email), Given(password), comparePassword)
            == Fail(401, MSG_EMAIL_NOT_FOUND)
  {
    EdgeWhitespaceTrimMoves(email);
  }

  /** The password is compared as given, not trimmed: with an exact comparison, a password typed with a
      trailing space is refused although its trim is the stored one. */
  lemma PasswordComparedUntrimmed(users: map<Email, User>, email: Text, password: Text)
    requires Trim(email) in users && users[Trim(email)].password == Trim(password)
    requires IsJsWhitespace(password[|password| - 1])
    ensures Login(users, Given(email), Given(password), (candidate: string, stored: string) => candidate == stored)
            == Fail(401, MSG_WRONG_PASSWORD)
  {
    EdgeWhitespaceTrimMoves(password);
  }

  /** As written: a token issued by register or login never passes the middleware. Its payload carries the id
      under `user`, and the middleware reads a top-level `id`; whatever the verifier says of such a token,
      the request is rejected, and once the token verifies the rejection is "Malformed token payload". */
  lemma IssuedTokenNeverAuthenticates(header: string, verify: string -> Verification, users: map<Email, User>,
                                      id: ObjectId, iat: int)
    requires WellFormed(users)
    requires verify(ExtractToken(header)).Verified? ==>
               verify(ExtractToken(header)).payload == DecodedPayload(IssuedGrant(id), iat)
    ensures Authenticate(Some(header), verify, users).Unauthorized?
    ensures header != "" && ExtractToken(header) != "" && verify(ExtractToken(header)).Verified? ==>
              Authenticate(Some(header), verify, users) == Unauthorized(MSG_MALFORMED)
  {
    if header != "" && ExtractToken(header) != "" && verify(ExtractToken(header)).Verified? {
      var payload := DecodedPayload(IssuedGrant(id), iat);
      assert "id" !in payload.fields;
      NoTopLevelIdIsMalformed(header, verify, users);
    }
  }

  /** Corrected: a token carrying the canonical payload, presented as "Bearer <token>" and verified,
      authenticates exactly the registered user it names. */
  lemma CanonicalTokenAuthenticates(token: string, verify: string -> Verification, users: map<Email, User>,
                                    u: User, iat: int)
    requires WellFormed(users) && u.email in users && users[u.email] == u
    requires token != ""
    requires verify(token) == Verified(DecodedPayload(CanonicalGrant(u.id), iat))
    ensures Authenticate(Some(BEARER_PREFIX + token), verify, users) == Next(ToPrincipal(u))
  {
    ExtractAfterBearer(token);
    CastToHexStringRoundTrip(u.id);
    StoredIdAuthenticates(BEARER_PREFIX + token, verify, users, u, ToHexString(u.id));
  }
}
