/**
 * The account routes: `/register`, `/login`, `/refresh`, `/logout` and `/check`. The set of
 * refresh tokens that may still be exchanged (`activeRefreshTokens`) is the state of an
 * `AuthService`; accounts live in the shared `Database`.
 */
module AuthRoutes {
  import opened Js
  import opened Dates
  import opened Models
  import opened Store
  import opened Tokens
  import opened AuthMiddleware

  // ---------------------------------------------------------------- /register

  datatype RegisterOutcome = UsernameTaken | EmailInUse | Registered(id: int)

  predicate UsernameExists(users: map<int, User>, username: string) {
    exists id :: id in users && users[id].username == username
  }

  predicate EmailExists(users: map<int, User>, email: string) {
    exists id :: id in users && users[id].email == email
  }

  /** No two accounts share a username or an email: what the route's two look-ups protect. */
  predicate UniqueAccounts(users: map<int, User>) {
    forall a, b :: a in users && b in users && a != b ==>
      users[a].username != users[b].username && users[a].email != users[b].email
  }

  /**
   * `POST /register`: the username is checked before the email, so a request clashing on both is
   * told "Username already exists"; otherwise the account is created with the password hashed by
   * `hash` (bcrypt, cost 10).
   */
  method Register(db: Database, hash: string -> string, username: string, password: string, email: string,
                  dob: Date, bio: string, sex: string, searchedSex: string, minAge: int, maxAge: int)
    returns (r: RegisterOutcome)
    requires db.Valid()
    modifies db`users, db`nextUserId
    ensures db.Valid()
    ensures r == UsernameTaken <==> UsernameExists(old(db.users), username)
    ensures r == EmailInUse <==> !UsernameExists(old(db.users), username) && EmailExists(old(db.users), email)
    ensures !r.Registered? ==> db.users == old(db.users) && db.nextUserId == old(db.nextUserId)
    ensures r.Registered? ==>
      && r.id == old(db.nextUserId) && r.id !in old(db.users)
      && db.users == old(db.users)[r.id := User(r.id, username, email, hash(password), dob, bio, sex, searchedSex, minAge, maxAge)]
      && db.nextUserId == old(db.nextUserId) + 1
    ensures UniqueAccounts(old(db.users)) ==> UniqueAccounts(db.users)
  {
    var usernameTaken := UsernameExists(db.users, username);
    var emailTaken := EmailExists(db.users, email);
    if usernameTaken {
      return UsernameTaken;
    }
    if emailTaken {
      return EmailInUse;
    }
    var id := db.nextUserId;
    db.users := db.users[id := User(id, username, email, hash(password), dob, bio, sex, searchedSex, minAge, maxAge)];
    db.nextUserId := id + 1;
    return Registered(id);
  }

  // ---------------------------------------------------------------- the refresh-token set

  datatype LoginOutcome = UserNotFound | InvalidPassword | LoggedIn(accessToken: string, refreshToken: string)

  datatype RefreshOutcome = NoRefreshToken | TokenAlreadyUsed | InvalidRefreshToken | Refreshed(accessToken: string, refreshToken: string)

  /** The payload of a login access token: the account's id, names and search preferences. */
  function AccessClaims(u: User): Claims {
    Claims(Some(u.id), Some(u.username), Some(u.email), Some(u.searchedSex), Some(u.minAge), Some(u.maxAge))
  }

  /**
   * The access token `/refresh` issues, as written: signed with `SECRET_KEY`, although every
   * verifier of access tokens (the middleware, `/check`, the socket handshake) uses `JWT_SECRET`.
   */
  function RefreshedAccessTokenAsWritten(j: Jwt, secrets: Secrets, user: Claims, now: int): string {
    j.sign(secrets.secretKey, IdentityClaims(user.id, user.username), now + AccessLifetime)
  }

  /** The access token `/refresh` issues in this model: signed with `JWT_SECRET`, like the one from `/login`. */
  function RefreshedAccessToken(j: Jwt, secrets: Secrets, user: Claims, now: int): string {
    j.sign(secrets.jwtSecret, IdentityClaims(user.id, user.username), now + AccessLifetime)
  }

  /** The secrets of the repository's route tests, where `SECRET_KEY` and `JWT_SECRET` differ. */
  const TestSecrets := Secrets("testsecret", "testrefreshsecret", "testrefreshsecret", "testsecretkey")

  /**
   * As written, whenever `SECRET_KEY` differs from `JWT_SECRET` (as in the test configuration) a
   * refreshed access token is refused by `authenticateToken` with 403, however fresh it is.
   */
  lemma {:induction false} RefreshedTokenRefusedAsWritten(j: Jwt, secrets: Secrets, user: Claims, now: int)
    requires Sound(j) && secrets.secretKey != secrets.jwtSecret
    ensures Authenticate(Some("Bearer " + RefreshedAccessTokenAsWritten(j, secrets, user, now)), j, secrets, now) == Forbidden
  {
    ForeignTokenRefused(j, secrets, secrets.secretKey, IdentityClaims(user.id, user.username), now + AccessLifetime, now);
  }

  /** Under the test configuration's secrets, a token fresh from `/refresh` as written is refused at once. */
  lemma {:induction false} RefreshedTokenRefusedUnderTestSecrets(j: Jwt, user: Claims, now: int)
    requires Sound(j)
    ensures Authenticate(Some("Bearer " + RefreshedAccessTokenAsWritten(j, TestSecrets, user, now)), j, TestSecrets, now) == Forbidden
  {
    RefreshedTokenRefusedAsWritten(j, TestSecrets, user, now);
  }

  /** The corrected token is accepted by `authenticateToken` for its whole fifteen minutes, with the identity it was refreshed for. */
  lemma {:induction false} RefreshedTokenAccepted(j: Jwt, secrets: Secrets, user: Claims, now: int, later: int)
    requires Sound(j) && now <= later < now + AccessLifetime
    ensures Authenticate(Some("Bearer " + RefreshedAccessToken(j, secrets, user, now)), j, secrets, later)
         == Next(IdentityClaims(user.id, user.username))
  {
    AccessTokenPasses(j, secrets, IdentityClaims(user.id, user.username), now + AccessLifetime, later);
  }

  class AuthService {
    /** `activeRefreshTokens`: refresh tokens issued and not yet exchanged or logged out. */
    var activeRefreshTokens: set<string>

    constructor ()
      ensures activeRefreshTokens == {}
    {
      activeRefreshTokens := {};
    }

    /**
     * `POST /login`: an unknown email is 404 and a wrong password 400, both issuing nothing;
     * otherwise an access token (15 minutes, `JWT_SECRET`) and a refresh token (3 hours,
     * `JWT_REFRESH_SECRET`) are issued and the refresh token becomes active.
     */
    method Login(db: Database, j: Jwt, secrets: Secrets, compare: (string, string) -> bool, email: string, password: string, now: int)
      returns (r: LoginOutcome)
      modifies this
      ensures r == UserNotFound <==> !EmailExists(db.users, email)
      ensures !r.LoggedIn? ==> activeRefreshTokens == old(activeRefreshTokens)
      ensures r == InvalidPassword ==> exists id :: id in db.users && db.users[id].email == email && !compare(password, db.users[id].passwordHash)
      ensures r.LoggedIn? ==>
        && activeRefreshTokens == old(activeRefreshTokens) + {r.refreshToken}
        && exists id :: id in db.users && db.users[id].email == email && compare(password, db.users[id].passwordHash)
             && r.accessToken == j.sign(secrets.jwtSecret, AccessClaims(db.users[id]), now + AccessLifetime)
             && r.refreshToken == j.sign(secrets.jwtRefreshSecret, IdentityClaims(Some(db.users[id].id), Some(db.users[id].username)), now + LoginRefreshLifetime)
    {
      if !EmailExists(db.users, email) {
        return UserNotFound;
      }
      var id :| id in db.users && db.users[id].email == email;
      var user := db.users[id];
      if !compare(password, user.passwordHash) {
        return InvalidPassword;
      }
      var accessToken := j.sign(secrets.jwtSecret, AccessClaims(user), now + AccessLifetime);
      var refreshToken := j.sign(secrets.jwtRefreshSecret, IdentityClaims(Some(user.id), Some(user.username)), now + LoginRefreshLifetime);
      activeRefreshTokens := activeRefreshTokens + {refreshToken};
      return LoggedIn(accessToken, refreshToken);
    }

    /**
     * `POST /refresh`: no cookie is 401; a token not in the active set is 403 before it is even
     * verified; a token that does not verify under `REFRESH_SECRET` is 403 and stays in the set;
     * otherwise the old token leaves the set and a new seven-day one enters it.
     */
    method Refresh(j: Jwt, secrets: Secrets, cookie: Option<string>, now: int) returns (r: RefreshOutcome)
      modifies this
      ensures r == NoRefreshToken <==> !TruthyText(cookie)
      ensures r == TokenAlreadyUsed <==> TruthyText(cookie) && cookie.value !in old(activeRefreshTokens)
      ensures r == InvalidRefreshToken <==>
        TruthyText(cookie) && cookie.value in old(activeRefreshTokens) && j.verify(secrets.refreshSecret, cookie.value, now).None?
      ensures !r.Refreshed? ==> activeRefreshTokens == old(activeRefreshTokens)
      ensures r.Refreshed? ==>
        var user := j.verify(secrets.refreshSecret, cookie.value, now).value;
        && TruthyText(cookie) && cookie.value in old(activeRefreshTokens)
        && r.accessToken == RefreshedAccessToken(j, secrets, user, now)
        && r.refreshToken == j.sign(secrets.refreshSecret, IdentityClaims(user.id, user.username), now + RefreshedRefreshLifetime)
        && activeRefreshTokens == old(activeRefreshTokens) - {cookie.value} + {r.refreshToken}
    {
      if !TruthyText(cookie) {
        return NoRefreshToken;
      }
      var token := cookie.value;
      if token !in activeRefreshTokens {
        return TokenAlreadyUsed;
      }
      var verified := j.verify(secrets.refreshSecret, token, now);
      if verified.None? {
        return InvalidRefreshToken;
      }
      var user := verified.value;
      activeRefreshTokens := activeRefreshTokens - {token};
      var accessToken := RefreshedAccessToken(j, secrets, user, now);
      var refreshToken := j.sign(secrets.refreshSecret, IdentityClaims(user.id, user.username), now + RefreshedRefreshLifetime);
      activeRefreshTokens := activeRefreshTokens + {refreshToken};
      return Refreshed(accessToken, refreshToken);
    }

    /** `POST /logout`: the cookie's token, if any, stops being active; the answer is always 200. */
    method Logout(cookie: Option<string>)
      modifies this
      ensures TruthyText(cookie) ==> activeRefreshTokens == old(activeRefreshTokens) - {cookie.value}
      ensures !TruthyText(cookie) ==> activeRefreshTokens == old(activeRefreshTokens)
    {
      if TruthyText(cookie) {
        activeRefreshTokens := activeRefreshTokens - {cookie.value};
      }
    }
  }

  /**
   * A refresh token is exchanged at most once: after a successful `/refresh`, presenting the same
   * token again is refused as already used, unless the exchange happened to mint the very same text.
   */
  method RefreshTokenSingleUse(service: AuthService, j: Jwt, secrets: Secrets, token: string, now: int, later: int)
    returns (first: RefreshOutcome, second: RefreshOutcome)
    modifies service
    ensures first.Refreshed? && first.refreshToken != token ==> second == TokenAlreadyUsed
    ensures first == TokenAlreadyUsed ==> second == TokenAlreadyUsed
  {
    first := service.Refresh(j, secrets, Some(token), now);
    second := service.Refresh(j, secrets, Some(token), later);
  }

  /** After a logout the token cannot be exchanged any more. */
  method LogoutRevokes(service: AuthService, j: Jwt, secrets: Secrets, token: string, now: int)
    returns (r: RefreshOutcome)
    requires token != []
    modifies service
    ensures r == TokenAlreadyUsed
  {
    service.Logout(Some(token));
    r := service.Refresh(j, secrets, Some(token), now);
  }

  /**
   * A login refresh token is signed with `JWT_REFRESH_SECRET` but `/refresh` verifies with
   * `REFRESH_SECRET`: it is exchanged within its three hours exactly when the two variables agree.
   */
  lemma {:induction false} LoginRefreshTokenAccepted(j: Jwt, secrets: Secrets, u: User, now: int, later: int)
    requires Sound(j) && now <= later < now + LoginRefreshLifetime
    ensures var t := j.sign(secrets.jwtRefreshSecret, IdentityClaims(Some(u.id), Some(u.username)), now + LoginRefreshLifetime);
      j.verify(secrets.refreshSecret, t, later).Some? <==> secrets.refreshSecret == secrets.jwtRefreshSecret
  {
  }

  // ---------------------------------------------------------------- /check

  datatype CheckOutcome = AccessTokenMissing | InvalidAccessToken | TokenValid(user: Claims)

  /** `GET /check`: the same bearer extraction and verification as the middleware, with its own messages. */
  function Check(header: Option<string>, j: Jwt, secrets: Secrets, now: int): (r: CheckOutcome)
    ensures r == AccessTokenMissing <==> Authenticate(header, j, secrets, now) == Unauthorized
    ensures r == InvalidAccessToken <==> Authenticate(header, j, secrets, now) == Forbidden
    ensures r.TokenValid? ==> Authenticate(header, j, secrets, now) == Next(r.user)
  {
    var token := BearerToken(header);
    if !TruthyText(token) then AccessTokenMissing
    else match j.verify(secrets.jwtSecret, token.value, now)
      case None => InvalidAccessToken
      case Some(user) => TokenValid(user)
  }

  function CheckErrorMessage(r: CheckOutcome): string {
    match r
    case AccessTokenMissing => "Access token is missing"
    case InvalidAccessToken => "Invalid or expired access token"
    case TokenValid(_) => "Token is valid"
  }

  /** A request without an `Authorization` header is answered 401 "Access token is missing". */
  lemma {:induction false} CheckWithoutHeader(j: Jwt, secrets: Secrets, now: int)
    ensures Check(None, j, secrets, now) == AccessTokenMissing
    ensures CheckErrorMessage(Check(None, j, secrets, now)) == "Access token is missing"
  {
  }
}
