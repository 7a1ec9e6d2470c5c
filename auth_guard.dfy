/** The global authentication guard: public routes pass untouched; every
    other request needs an `Authorization: Bearer <token>` header whose
    token is non-empty, not revoked, and passes JWT verification, and then
    gets the verified claims and the raw token attached. */
module Guard {
  import opened Wrappers
  import opened Strings
  import opened Users
  import opened Auth

  const Bearer: string := "Bearer"

  /** `canActivate` returns `true` (Allow) or throws `UnauthorizedException`;
      it never returns `false`. */
  datatype Outcome = Allow | Unauthorized

  /** The guard's decision for one request: a public route is bypassed,
      a verified token is granted with its claims, anything else denied. */
  datatype Decision = Bypass | Grant(user: Payload, token: string) | Deny

  /** `header` is `Bearer `, then the space-free token `t`, then either
      nothing or a space (after which anything may follow). */
  predicate IsBearerHeader(header: string, t: string) {
    && !Contains(t, ' ')
    && |header| >= |Bearer| + 1 + |t|
    && header[..|Bearer| + 1 + |t|] == Bearer + " " + t
    && (|header| == |Bearer| + 1 + |t| || header[|Bearer| + 1 + |t|] == ' ')
  }

  /** When the first field of `header.split(' ')` is `Bearer` and there is a
      second field, the header is `Bearer ` followed by that field. */
  lemma {:induction false} SplitBearerShape(header: string)
    requires Split(header, ' ')[0] == Bearer && |Split(header, ' ')| >= 2
    ensures IsBearerHeader(header, Split(header, ' ')[1])
  {
    var fields := Split(header, ' ');
    var t := fields[1];
    var rest := if |fields| == 2 then "" else [' '] + Join(fields[2..], ' ');
    assert Join(fields[1..], ' ') == t + rest by {
      assert fields[1..][0] == t;
      if |fields| > 2 { assert fields[1..][1..] == fields[2..]; }
    }
    assert header == Bearer + " " + t + rest;
    assert header[..|Bearer| + 1 + |t|] == Bearer + " " + t;
  }

  /** `extractTokenFromHeader`: split the header at every space and take the
      second field, provided the first is exactly `Bearer`. A token comes
      only from a bearer header; `BearerHeaderYieldsToken` is the converse. */
  function ExtractTokenFromHeader(authorization: Option<string>): (token: Option<string>)
    ensures authorization.None? ==> token.None?
    ensures token.Some? ==> IsBearerHeader(authorization.value, token.value)
  {
    match authorization
    case None => None
    case Some(header) =>
      var fields := Split(header, ' ');
      if fields[0] == Bearer && |fields| >= 2 then
        SplitBearerShape(header);
        Some(fields[1])
      else None
  }

  /** Every bearer header `Bearer <t>` yields `t`, whatever follows after a
      further space. */
  lemma {:induction false} BearerHeaderYieldsToken(header: string, t: string)
    requires IsBearerHeader(header, t)
    ensures ExtractTokenFromHeader(Some(header)) == Some(t)
  {
    var n := |Bearer| + 1 + |t|;
    var rest := header[n..];
    assert header == Bearer + [' '] + (t + rest) by {
      assert header == header[..n] + rest;
    }
    assert !Contains(Bearer, ' ') by {
      forall i | 0 <= i < |Bearer| ensures Bearer[i] != ' ' { }
    }
    SplitAtSeparator(Bearer, ' ', t + rest);
    if rest == [] {
      assert t + rest == t;
      SplitWithoutSeparator(t, ' ');
    } else {
      assert rest[0] == header[n] == ' ';
      assert t + rest == t + [' '] + rest[1..];
      SplitAtSeparator(t, ' ', rest[1..]);
    }
  }

  /** The header a client sends for token `t`. */
  lemma HeaderForToken(t: string)
    requires !Contains(t, ' ')
    ensures ExtractTokenFromHeader(Some(Bearer + " " + t)) == Some(t)
  {
    var header := Bearer + " " + t;
    assert header[..|Bearer| + 1 + |t|] == header;
    BearerHeaderYieldsToken(header, t);
  }

  /** What `canActivate` decides, given the route's public flag, the
      `Authorization` header, the revoked tokens and the JWT verifier. */
  function Decide(isPublic: bool, authorization: Option<string>, revoked: seq<string>,
                  verify: string -> Option<Payload>): (d: Decision)
    ensures isPublic <==> d == Bypass
    ensures d.Grant? ==>
      && ExtractTokenFromHeader(authorization) == Some(d.token)
      && d.token != ""
      && d.token !in revoked
      && verify(d.token) == Some(d.user)
    ensures !isPublic && ExtractTokenFromHeader(authorization).Some? ==>
      var t := ExtractTokenFromHeader(authorization).value;
      t != "" && t !in revoked && verify(t).Some? ==> d == Grant(verify(t).value, t)
    ensures forall t :: ExtractTokenFromHeader(authorization) == Some(t) && t in revoked && !isPublic ==> d == Deny
    ensures ExtractTokenFromHeader(authorization) in {None, Some("")} && !isPublic ==> d == Deny
  {
    if isPublic then Bypass
    else
      var token := ExtractTokenFromHeader(authorization);
      if token.None? || token.value == "" || token.value in revoked then Deny
      else
        match verify(token.value)
        case None => Deny
        case Some(payload) => Grant(payload, token.value)
  }

  /** A request the guard lets through on a non-public route carries a
      bearer header with a non-empty, unrevoked token that verifies to the
      attached claims. */
  lemma GrantedRequestShape(authorization: Option<string>, revoked: seq<string>,
                            verify: string -> Option<Payload>, user: Payload, token: string)
    requires Decide(false, authorization, revoked, verify) == Grant(user, token)
    ensures authorization.Some? && IsBearerHeader(authorization.value, token)
    ensures token != "" && token !in revoked && verify(token) == Some(user)
  {
  }

  /** For any bearer header whose non-empty token verifies, the guard
      grants exactly when the token has not been revoked. */
  lemma RevocationDecides(header: string, t: string, revoked: seq<string>, verify: string -> Option<Payload>)
    requires IsBearerHeader(header, t) && t != "" && verify(t).Some?
    ensures Decide(false, Some(header), revoked, verify) == (if t in revoked then Deny else Grant(verify(t).value, t))
  {
    BearerHeaderYieldsToken(header, t);
  }

  /** An HTTP request as the guard sees it: the header it reads and the two
      properties it sets. */
  class Request {
    var authorization: Option<string>
    var user: Option<Payload>
    var token: Option<string>

    constructor (authorization: Option<string>)
      ensures this.authorization == authorization && user == None && token == None
    {
      this.authorization := authorization;
      user := None;
      token := None;
    }
  }

  class AuthGuard {
    const authService: AuthService

    constructor (authService: AuthService)
      ensures this.authService == authService
    {
      this.authService := authService;
    }

    /** `canActivate` for a route whose public flag is `isPublic`; `verify`
        is `jwtService.verifyAsync` with the configured secret at the time of
        the request, `None` for a bad signature or an expired token. */
    method CanActivate(isPublic: bool, request: Request, verify: string -> Option<Payload>) returns (outcome: Outcome)
      modifies request`user, request`token
      ensures var d := Decide(isPublic, request.authorization, authService.revokedAccessToken, verify);
        && (outcome == Allow <==> d != Deny)
        && (d.Grant? ==> request.user == Some(d.user) && request.token == Some(d.token))
        && (!d.Grant? ==> request.user == old(request.user) && request.token == old(request.token))
    {
      if isPublic {
        return Allow;
      }
      var token := ExtractTokenFromHeader(request.authorization);
      if token.None? || token.value == "" || authService.IsAccessTokenRevoked(token.value) {
        return Unauthorized;
      }
      var payload := verify(token.value);
      if payload.None? {
        return Unauthorized;
      }
      request.user := payload;
      request.token := token;
      return Allow;
    }
  }

  /** A client presents `Authorization: Bearer <t>` on a non-public
      route: it is let through exactly when `t` is non-empty, has not been
      revoked, and verifies. */
  method Present(guard: AuthGuard, t: string, verify: string -> Option<Payload>) returns (outcome: Outcome)
    requires !Contains(t, ' ')
    ensures outcome == Allow <==> t != "" && t !in guard.authService.revokedAccessToken && verify(t).Some?
  {
    HeaderForToken(t);
    var request := new Request(Some(Bearer + " " + t));
    outcome := guard.CanActivate(false, request, verify);
  }

  /** Register, use the issued token, sign in again later, log out the
      first token, then use both: the first token is refused although it
      still verifies, and the later sign-in's token is let through. */
  method RegisterUseLogout(dto: CreateUserData, salt: string, id: string, registeredAt: int, signedInAt: int,
                           bcrypt: Bcrypt, sign: Signer, verify: string -> Option<Payload>)
    returns (before: Outcome, afterLogout: Outcome, laterSession: Outcome)
    requires bcrypt.compare(dto.password, bcrypt.hash(dto.password, salt))
    requires var p := Payload(id, dto.email, Therapist);
      && sign(p, registeredAt) != "" && !Contains(sign(p, registeredAt), ' ') && verify(sign(p, registeredAt)).Some?
      && sign(p, signedInAt) != "" && !Contains(sign(p, signedInAt), ' ') && verify(sign(p, signedInAt)).Some?
      && sign(p, registeredAt) != sign(p, signedInAt)
    ensures before == Allow && afterLogout == Unauthorized && laterSession == Allow
  {
    var users := new UserService();
    var auth := new AuthService(users, bcrypt, sign);
    var guard := new AuthGuard(auth);
    ghost var p := Payload(id, dto.email, Therapist);
    RegisterThenSignIn(map[], dto, salt, id, registeredAt, signedInAt, bcrypt, sign);
    var registered := auth.Register(dto, salt, id, registeredAt);
    assert registered == Success(AuthResult(p, sign(p, registeredAt)));
    var first := registered.value.access_token;
    before := Present(guard, first, verify);
    var signedIn := auth.SignIn(dto, signedInAt);
    assert signedIn == Success(AuthResult(p, sign(p, signedInAt)));
    var second := signedIn.value.access_token;
    auth.Logout(first);
    afterLogout := Present(guard, first, verify);
    laterSession := Present(guard, second, verify);
  }
}
