/** The authentication service: registration, sign-in, logout and the
    process-local list of revoked access tokens. bcrypt and JWT signing
    are foreign code and enter the model as uninterpreted functions. */
module Auth {
  import opened Wrappers
  import opened Users

  /** The JWT claims: subject, email and role of the account. */
  datatype Payload = Payload(sub: string, email: string, role: Role)

  /** What `register` and `signIn` return. */
  datatype AuthResult = AuthResult(user: Payload, access_token: string)

  /** The exceptions the service raises: `ConflictException`,
      `BadRequestException`, or the store's own unique-constraint error,
      which `register` lets propagate. */
  datatype AuthError = Conflict(message: string) | BadRequest(message: string) | Store(cause: StoreError)

  const UserAlreadyExists: string := "User already exists"
  const InvalidCredentials: string := "Invalid credentials"

  /** bcrypt as the service uses it: `hash(password, salt)`, with the salt
      drawn by `genSalt` at each call, and `compare(password, hash)`. */
  datatype Bcrypt = Bcrypt(hash: (string, string) -> string, compare: (string, string) -> bool)

  /** `getUserTokenPayload`: the claims of an account are its id (as the
      subject), its email and its role. */
  function TokenPayload(u: UserIdentity): (p: Payload)
    ensures p.sub == u.id && p.email == u.email && p.role == u.role
  {
    Payload(u.id, u.email, u.role)
  }

  /** `JwtService.sign` configured with the server secret and the
      two-minute lifetime: the token for some claims issued at time `now`
      (seconds); the issue and expiry times are part of the token. */
  type Signer = (Payload, int) -> string

  /** `register(dto)` on table `t` at time `now`, with `salt` the salt
      bcrypt drew and `id` the key the database generates: the result and
      the new table. */
  function Registered(t: Table, dto: CreateUserData, salt: string, id: string, now: int, bcrypt: Bcrypt, sign: Signer)
    : (out: (Result<AuthResult, AuthError>, Table))
    requires WellFormed(t)
    ensures WellFormed(out.1)
    ensures Lookup(t, dto.email).Some? ==> out == (Failure(Conflict(UserAlreadyExists)), t)
    ensures out.0.Failure? ==> out.1 == t
    ensures out.0.Success? <==> Lookup(t, dto.email).None? && !IdTaken(t, id)
    ensures Lookup(t, dto.email).None? && IdTaken(t, id) ==> out.0 == Failure(Store(UniqueConstraintViolation))
    ensures out.0.Success? ==>
      && Lookup(out.1, dto.email) == Some(Account(id, dto.email, bcrypt.hash(dto.password, salt), Therapist))
      && out.0.value.user == Payload(id, dto.email, Therapist)
      && out.0.value.access_token == sign(out.0.value.user, now)
    ensures forall e :: e != dto.email ==> Lookup(out.1, e) == Lookup(t, e)
  {
    if Lookup(t, dto.email).Some? then
      (Failure(Conflict(UserAlreadyExists)), t)
    else
      var (created, t') := Insert(t, CreateUserData(dto.email, bcrypt.hash(dto.password, salt)), id);
      match created
      case Failure(e) => (Failure(Store(e)), t')
      case Success(newUser) =>
        var payload := TokenPayload(newUser);
        (Success(AuthResult(payload, sign(payload, now))), t')
  }

  /** `signIn(dto)` on table `t` at time `now`. Both failures, no account
      with that email and a password bcrypt rejects, give one and the same
      error. */
  function SignedIn(t: Table, dto: CreateUserData, now: int, bcrypt: Bcrypt, sign: Signer)
    : (r: Result<AuthResult, AuthError>)
    requires WellFormed(t)
    ensures r.Success? <==>
      exists a :: a in t.Values && a.email == dto.email && bcrypt.compare(dto.password, a.password)
    ensures r.Failure? ==> r.error == BadRequest(InvalidCredentials)
    ensures r.Success? ==>
      exists a :: a in t.Values && a.email == dto.email &&
        r.value == AuthResult(TokenPayload(a.Identity()), sign(TokenPayload(a.Identity()), now))
  {
    var found := Lookup(t, dto.email);
    if found.None? || !bcrypt.compare(dto.password, found.value.password) then
      Failure(BadRequest(InvalidCredentials))
    else
      var payload := TokenPayload(found.value.Identity());
      Success(AuthResult(payload, sign(payload, now)))
  }

  /** Registering at time `now` and then signing in at time `later` with
      the same credentials succeeds, provided bcrypt accepts the password
      against the hash it made: the sign-in yields the claims of the
      registration, which carry the new account's id and email and the role
      therapist, in a token freshly issued at `later`. */
  lemma RegisterThenSignIn(t: Table, dto: CreateUserData, salt: string, id: string, now: int, later: int,
                           bcrypt: Bcrypt, sign: Signer)
    requires WellFormed(t)
    requires bcrypt.compare(dto.password, bcrypt.hash(dto.password, salt))
    requires Lookup(t, dto.email).None? && !IdTaken(t, id)
    ensures Registered(t, dto, salt, id, now, bcrypt, sign).0.Success?
    ensures Registered(t, dto, salt, id, now, bcrypt, sign).0.value.user == Payload(id, dto.email, Therapist)
    ensures SignedIn(Registered(t, dto, salt, id, now, bcrypt, sign).1, dto, later, bcrypt, sign)
         == Success(AuthResult(Payload(id, dto.email, Therapist), sign(Payload(id, dto.email, Therapist), later)))
  {
  }

  /** A second registration with the same email fails with Conflict and
      leaves the table as the first one left it. */
  lemma RegisterTwiceConflicts(t: Table, dto: CreateUserData, salt: string, id: string, now: int,
                               salt2: string, id2: string, now2: int, bcrypt: Bcrypt, sign: Signer)
    requires WellFormed(t)
    requires Registered(t, dto, salt, id, now, bcrypt, sign).0.Success?
    ensures Registered(Registered(t, dto, salt, id, now, bcrypt, sign).1, dto, salt2, id2, now2, bcrypt, sign)
         == (Failure(Conflict(UserAlreadyExists)), Registered(t, dto, salt, id, now, bcrypt, sign).1)
  {
  }

  class AuthService {
    const users: UserService
    const bcrypt: Bcrypt
    /** `JwtService.sign`. */
    const sign: Signer
    /** Tokens passed to `logout`, oldest first; kept for the life of the process. */
    var revokedAccessToken: seq<string>

    ghost predicate Valid()
      reads users
    {
      users.Valid()
    }

    constructor (users: UserService, bcrypt: Bcrypt, sign: Signer)
      requires users.Valid()
      ensures Valid()
      ensures this.users == users && this.bcrypt == bcrypt && this.sign == sign
      ensures revokedAccessToken == []
      ensures forall token :: !IsAccessTokenRevoked(token)
    {
      this.users := users;
      this.bcrypt := bcrypt;
      this.sign := sign;
      revokedAccessToken := [];
    }

    /** `hashPassword`, with `salt` the value `genSalt` produced. */
    function HashPassword(password: string, salt: string): string {
      bcrypt.hash(password, salt)
    }

    /** `comparePassword`. */
    function ComparePassword(password: string, userPassword: string): bool {
      bcrypt.compare(password, userPassword)
    }

    /** Looks the email up, hashes the password, creates the account and
        signs its claims, in that order; `now` is the clock when signing. */
    method Register(dto: CreateUserData, salt: string, id: string, now: int) returns (r: Result<AuthResult, AuthError>)
      requires Valid()
      modifies users
      ensures Valid()
      ensures (r, users.table) == Registered(old(users.table), dto, salt, id, now, bcrypt, sign)
    {
      var user := users.FindOne(dto.email);
      if user.Some? {
        return Failure(Conflict(UserAlreadyExists));
      }
      var hashedPassword := HashPassword(dto.password, salt);
      var newUser := users.Create(CreateUserData(dto.email, hashedPassword), id);
      match newUser
      case Failure(e) =>
        r := Failure(Store(e));
      case Success(created) =>
        var payload := TokenPayload(created);
        r := Success(AuthResult(payload, sign(payload, now)));
    }

    /** Reads the store only; `now` is the clock when signing. */
    method SignIn(dto: CreateUserData, now: int) returns (r: Result<AuthResult, AuthError>)
      requires Valid()
      ensures r == SignedIn(users.table, dto, now, bcrypt, sign)
    {
      var user := users.FindOne(dto.email);
      if user.None? || !ComparePassword(dto.password, user.value.password) {
        return Failure(BadRequest(InvalidCredentials));
      }
      var payload := TokenPayload(user.value.Identity());
      r := Success(AuthResult(payload, sign(payload, now)));
    }

    /** Revokes `accessToken`; a token already revoked is accepted again. */
    method Logout(accessToken: string)
      modifies this
      ensures revokedAccessToken == old(revokedAccessToken) + [accessToken]
      ensures IsAccessTokenRevoked(accessToken)
      ensures forall token :: token != accessToken ==>
        IsAccessTokenRevoked(token) == old(IsAccessTokenRevoked(token))
      ensures forall token :: old(IsAccessTokenRevoked(token)) ==> IsAccessTokenRevoked(token)
    {
      revokedAccessToken := revokedAccessToken + [accessToken];
    }

    /** Whether `logout` has been called with `accessToken`. */
    function IsAccessTokenRevoked(accessToken: string): (r: bool)
      reads this
      ensures r <==> exists i :: 0 <= i < |revokedAccessToken| && revokedAccessToken[i] == accessToken
    {
      accessToken in revokedAccessToken
    }
  }
}
