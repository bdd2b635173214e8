/** The server's `protect` middleware: find a token in the request (parsed
    cookie, then `Authorization: Bearer`, then the raw `Cookie` header),
    verify it, look the user up, and either pass the request on with the
    user attached or answer 401. Token verification and the user lookup are
    passed in as functions. Also the `isVerified` and `restrictTo` guards,
    which the file defines but does not export: its final
    `module.exports = { protect }` replaces the exports object they were
    attached to, so only `protect` reaches a caller. */
module AuthMiddleware {
  import opened Values
  import opened Text

  /** What `protect` reads from a request: `req.cookies.token`,
      `req.headers.authorization` and `req.headers.cookie`. */
  datatype Request = Request(
    cookieToken: Option<string>,
    authorization: Option<string>,
    cookieHeader: Option<string>)

  datatype User = User(id: string, role: string, isVerified: bool)

  /** The middleware either calls `next` (once, with `req.user` set) or
      answers with an error status and message. */
  datatype Outcome = Next(user: User) | Denied(status: nat, message: string)

  const NotLoggedIn := "You are not logged in. Please log in to get access."
  const UserGone := "The user belonging to this token no longer exists."
  const InvalidToken := "Invalid token. Please log in again."

  /** The second space-separated field of an `Authorization` header, or
      `undefined` when there is none. */
  function BearerToken(authorization: string): (token: Option<string>)
    ensures token.Some? ==> ' ' !in token.value
  {
    var fields := Split(authorization, ' ');
    if |fields| > 1 then Some(fields[1]) else None
  }

  /** `Bearer <token>` yields the token. */
  lemma BearerTokenOfWellFormedHeader(token: string)
    requires ' ' !in token
    ensures BearerToken("Bearer " + token) == Some(token)
  {
    assert "Bearer " + token == "Bearer" + [' '] + token;
    SplitAfterFirst("Bearer", ' ', token);
    SplitWithoutSeparator(token, ' ');
  }

  /** The name of a `Cookie` header entry: the trimmed entry up to the first `=`. */
  function CookieName(entry: string): string
  {
    Split(Trim(entry), '=')[0]
  }

  /** The value of an entry: the text between its first and second `=`, or
      `undefined` when it has no `=`. */
  function CookieValue(entry: string): (value: Option<string>)
    ensures value.Some? ==> '=' !in value.value
  {
    var kv := Split(Trim(entry), '=');
    if |kv| > 1 then Some(kv[1]) else None
  }

  /** The value really is the text right after `name=`: the trimmed entry
      begins with the name, `=`, and the value. */
  lemma CookieValueFollowsName(entry: string)
    requires CookieValue(entry).Some?
    ensures CookieName(entry) + "=" + CookieValue(entry).value <= Trim(entry)
  {
    SplitPrefix(Trim(entry), '=');
  }

  /** The names of the `Cookie` header's entries, in order. */
  function CookieNames(entries: seq<string>): (names: seq<string>)
    ensures |names| == |entries|
    ensures forall i :: 0 <= i < |entries| ==> names[i] == CookieName(entries[i])
  {
    seq(|entries|, i requires 0 <= i < |entries| => CookieName(entries[i]))
  }

  /** Index of the first name at or after `from` equal to `token`, or the
      number of names. */
  function FirstTokenEntry(names: seq<string>, from: nat): (i: nat)
    requires from <= |names|
    ensures from <= i <= |names|
    ensures i < |names| ==> names[i] == "token"
    ensures forall j :: from <= j < i ==> names[j] != "token"
    decreases |names| - from
  {
    if from == |names| then from
    else if names[from] == "token" then from
    else FirstTokenEntry(names, from + 1)
  }

  /** The token the `Cookie` header scan finds: the value of the first entry
      named `token`; later entries are never looked at. */
  function CookieHeaderToken(header: string): (token: Option<string>)
    ensures token.Some? ==> '=' !in token.value
    ensures token.Some? ==> "token" in CookieNames(Split(header, ';'))
  {
    var entries := Split(header, ';');
    var i := FirstTokenEntry(CookieNames(entries), 0);
    if i < |entries| then CookieValue(entries[i]) else None
  }

  /** The scan of the `Cookie` header, stopping at the first entry named `token`. */
  method ScanCookieHeader(header: string) returns (token: Option<string>)
    ensures token == CookieHeaderToken(header)
  {
    var cookies := Split(header, ';');
    ghost var names := CookieNames(cookies);
    token := None;
    var i := 0;
    while i < |cookies|
      invariant 0 <= i <= |cookies|
      invariant forall j :: 0 <= j < i ==> names[j] != "token"
      invariant token == None
    {
      if CookieName(cookies[i]) == "token" {
        token := CookieValue(cookies[i]);
        break;
      }
      i := i + 1;
    }
    assert i < |cookies| ==> i == FirstTokenEntry(names, 0);
  }

  /** The token `protect` uses: a truthy parsed cookie first, then a header
      starting with `Bearer` (no space needed), then the `Cookie` header. */
  function ExtractToken(req: Request): (token: Option<string>)
    ensures Supplied(req.cookieToken) ==> token == req.cookieToken
    ensures token.Some? ==> Supplied(req.cookieToken) || Supplied(req.authorization) || Supplied(req.cookieHeader)
    ensures !Supplied(req.cookieToken) && token.Some? ==> ' ' !in token.value || '=' !in token.value
  {
    if Supplied(req.cookieToken) then req.cookieToken
    else if Supplied(req.authorization) && StartsWith(req.authorization.value, "Bearer") then
      BearerToken(req.authorization.value)
    else if Supplied(req.cookieHeader) then CookieHeaderToken(req.cookieHeader.value)
    else None
  }

  /** A truthy parsed cookie wins: the headers then do not matter. */
  lemma ParsedCookieTakesPrecedence(req: Request, authorization: Option<string>, cookieHeader: Option<string>)
    requires Supplied(req.cookieToken)
    ensures ExtractToken(req) == req.cookieToken
    ensures ExtractToken(req.(authorization := authorization, cookieHeader := cookieHeader)) == req.cookieToken
  {
  }

  /** With a Bearer header and no parsed cookie, the `Cookie` header is not read. */
  lemma BearerHeaderBeforeCookieHeader(req: Request, cookieHeader: Option<string>)
    requires !Supplied(req.cookieToken)
    requires Supplied(req.authorization) && StartsWith(req.authorization.value, "Bearer")
    ensures ExtractToken(req) == BearerToken(req.authorization.value)
    ensures ExtractToken(req.(cookieHeader := cookieHeader)) == ExtractToken(req)
  {
  }

  /** The outcome for a token, given the verifier (the user id inside a
      valid token, `None` when verification throws) and the user lookup. */
  function Authenticate(token: Option<string>, verify: string -> Option<string>, findUser: string -> Lookup<User>): (o: Outcome)
    ensures o.Denied? ==> o.status == 401
    ensures !Supplied(token) ==> o == Denied(401, NotLoggedIn)
    ensures o.Next? ==> Supplied(token) && verify(token.value).Some? && findUser(verify(token.value).value) == Found(o.user)
    ensures Supplied(token) && verify(token.value).None? ==> o == Denied(401, InvalidToken)
    ensures Supplied(token) && verify(token.value).Some? ==>
      match findUser(verify(token.value).value)
      case Found(user) => o == Next(user)
      case Missing => o == Denied(401, UserGone)
      case Threw => o == Denied(401, InvalidToken)
  {
    if !Supplied(token) then Denied(401, NotLoggedIn)
    else match verify(token.value)
      case None => Denied(401, InvalidToken)
      case Some(id) =>
        match findUser(id)
        case Found(user) => Next(user)
        case Missing => Denied(401, UserGone)
        case Threw => Denied(401, InvalidToken)
  }

  /** Without a token neither the verifier nor the lookup is consulted: any
      other pair of them gives the same outcome. */
  lemma NoTokenNoVerification(req: Request,
                              verify: string -> Option<string>, findUser: string -> Lookup<User>,
                              verify': string -> Option<string>, findUser': string -> Lookup<User>)
    requires !Supplied(ExtractToken(req))
    ensures Authenticate(ExtractToken(req), verify, findUser) == Authenticate(ExtractToken(req), verify', findUser')
    ensures Authenticate(ExtractToken(req), verify, findUser) == Denied(401, NotLoggedIn)
  {
  }

  /** `protect`. */
  method Protect(req: Request, verify: string -> Option<string>, findUser: string -> Lookup<User>) returns (o: Outcome)
    ensures o == Authenticate(ExtractToken(req), verify, findUser)
    ensures o.Next? ==> Supplied(ExtractToken(req))
  {
    var token: Option<string> := None;
    if Supplied(req.cookieToken) {
      token := req.cookieToken;
    } else if Supplied(req.authorization) && StartsWith(req.authorization.value, "Bearer") {
      var fields := Split(req.authorization.value, ' ');
      token := if |fields| > 1 then Some(fields[1]) else None;
    } else if Supplied(req.cookieHeader) {
      token := ScanCookieHeader(req.cookieHeader.value);
    }
    if !Supplied(token) {
      return Denied(401, NotLoggedIn);
    }
    var decoded := verify(token.value);
    if decoded.None? {
      return Denied(401, InvalidToken);
    }
    var user := findUser(decoded.value);
    if user.Missing? {
      return Denied(401, UserGone);
    }
    if user.Threw? {
      return Denied(401, InvalidToken);
    }
    o := Next(user.value);
  }

  /** `isVerified`: a user whose email is not verified is refused with 403. */
  function IsVerified(user: User): (o: Outcome)
    ensures o.Next? <==> user.isVerified
    ensures o.Next? ==> o.user == user
    ensures o.Denied? ==> o.status == 403
  {
    if !user.isVerified then Denied(403, "Please verify your email to access this resource.")
    else Next(user)
  }

  /** `restrictTo(...roles)`: only users whose role is listed pass. */
  function RestrictTo(roles: seq<string>, user: User): (o: Outcome)
    ensures o.Next? <==> user.role in roles
    ensures o.Next? ==> o.user == user
    ensures o.Denied? ==> o.status == 403
  {
    if user.role !in roles then Denied(403, "You do not have permission to perform this action.")
    else Next(user)
  }

  /** Adding a role to the list never turns an admitted user away. */
  lemma RestrictToMonotone(roles: seq<string>, extra: string, user: User)
    ensures RestrictTo(roles, user).Next? ==> RestrictTo(roles + [extra], user).Next?
  {
    if user.role in roles {
      assert user.role in roles + [extra];
    }
  }
}
