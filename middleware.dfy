/**
 * The request-admission middleware after the rate limiter: the bearer-token
 * `Authenticate`, the `RequireActivated` and `RequirePermission` checks, and
 * the `CORS` origin match. Each answers with a `Verdict` and the way it leaves
 * the chain; the value written under the context's "user" key and the broker
 * calls made are returned.
 */
module Middleware {
  import opened Wrappers
  import opened GoText
  import opened Models
  import opened Errors
  import opened Chain
  import opened TokenService
  import opened UserService

  const Bearer: Bytes := Ascii("Bearer")
  const Options: Bytes := Ascii("OPTIONS")

  /** What `Authenticate` leaves: its verdict, how it exits, the context user, the lookups made. */
  datatype AuthResult = AuthResult(verdict: Verdict, exit: Exit, user: ContextUser, calls: seq<Call>)

  /** What `RequireActivated` and `RequirePermission` leave: the verdict, how they exit, the lookups made. */
  datatype CheckResult = CheckResult(verdict: Verdict, exit: Exit, calls: seq<Call>)

  /** The token of a well-formed `Authorization` header: `["Bearer", t]` on splitting at spaces, `t` a valid plaintext. */
  function BearerToken(header: Bytes): (t: Option<Bytes>)
    ensures t.Some? ==> |t.value| == 26
  {
    var parts := Split(header, Space);
    if |parts| != 2 || parts[0] != Bearer then None
    else if PlainTextErrors(parts[1]) != [] then None
    else Some(parts[1])
  }

  /** A header is well formed exactly when it is "Bearer", one space, and 26 bytes holding no space. */
  lemma BearerTokenShape(header: Bytes, t: Bytes)
    ensures BearerToken(header) == Some(t) <==> header == Bearer + [Space] + t && |t| == 26 && Space !in t
  {
    assert Space !in Bearer;
    SplitIntoTwo(header, Space, Bearer, t);
  }

  /** `Authenticate`: resolve the `Authorization` header to the request's user. */
  function Authenticate(header: Bytes, store: Store): (r: AuthResult)
    ensures header == [] ==> r == AuthResult(Proceed, CallsNext, Anonymous, [])
    ensures header != [] && BearerToken(header).None? ==>
      r == AuthResult(Halt(InvalidAuthenticationToken), Aborts, Unset, [])
    ensures r.exit == ExitOf(r.verdict)
    ensures r.verdict == Proceed <==> r.user.Anonymous? || r.user.Known?
    ensures r.verdict.Halt? ==>
      r.verdict.rejection == InvalidAuthenticationToken || r.verdict.rejection.InternalServerError?
    ensures r.calls != [] <==> BearerToken(header).Some?
    ensures r.calls != [] ==> r.calls == [GetUserByToken(Authentication, BearerToken(header).value)]
    ensures r.user.Known? ==>
      && BearerToken(header).Some?
      && store.userByToken(Authentication, BearerToken(header).value) == Success(r.user.user)
  {
    if header == [] then AuthResult(Proceed, CallsNext, Anonymous, [])
    else
      var parts := Split(header, Space);
      if |parts| != 2 || parts[0] != Bearer then AuthResult(Halt(InvalidAuthenticationToken), Aborts, Unset, [])
      else
        var token := parts[1];
        if PlainTextErrors(token) != [] then AuthResult(Halt(InvalidAuthenticationToken), Aborts, Unset, [])
        else
          var (found, calls) := FindByToken(Authentication, token, store);
          if found.Failure? then
            if found.error == RecordNotFound then AuthResult(Halt(InvalidAuthenticationToken), Aborts, Unset, calls)
            else AuthResult(Halt(InternalServerError(found.error.Text())), Aborts, Unset, calls)
          else AuthResult(Proceed, CallsNext, Known(found.value), calls)
  }

  /**
   * For a well-formed header: a found user is stored and the request goes on;
   * a missing token is an invalid-token rejection; any other error is a 500.
   */
  lemma AuthenticateLookup(header: Bytes, store: Store)
    requires BearerToken(header).Some?
    ensures var found := store.userByToken(Authentication, BearerToken(header).value);
      var r := Authenticate(header, store);
      && (found.Success? ==> r.verdict == Proceed && r.user == Known(found.value))
      && (found == Failure(RecordNotFound) ==> r.verdict == Halt(InvalidAuthenticationToken) && r.user == Unset)
      && (found.Failure? && found.error != RecordNotFound ==>
            r.verdict == Halt(InternalServerError(found.error.Text())) && r.user == Unset)
  {
    assert header != [] by {
      assert Split([], Space) == [[]];
    }
  }

  /** A token the store does not know is answered exactly like a malformed header. */
  lemma UnknownTokenLikeMalformedHeader(good: Bytes, bad: Bytes, store: Store)
    requires BearerToken(good).Some? && store.userByToken(Authentication, BearerToken(good).value) == Failure(RecordNotFound)
    requires bad != [] && BearerToken(bad).None?
    ensures Authenticate(good, store).verdict == Authenticate(bad, store).verdict
    ensures Authenticate(good, store).user == Authenticate(bad, store).user
  {
    AuthenticateLookup(good, store);
  }

  /** "Bearer", a space and 26 non-space bytes always reach the store; a lower-case "bearer" never does. */
  lemma BearerIsCaseSensitive(t: Bytes, store: Store)
    requires |t| == 26 && Space !in t
    ensures Authenticate(Bearer + [Space] + t, store).calls == [GetUserByToken(Authentication, t)]
    ensures Authenticate(Ascii("bearer") + [Space] + t, store).calls == []
  {
    BearerTokenShape(Bearer + [Space] + t, t);
    var lower := Ascii("bearer") + [Space] + t;
    if BearerToken(lower).Some? {
      BearerTokenShape(lower, BearerToken(lower).value);
    }
  }

  /** `RequireActivated`: a known, activated user passes; absence, a wrong type or the anonymous user need authentication; an inactive user is refused. */
  function RequireActivated(user: ContextUser): (r: CheckResult)
    ensures r.verdict == Proceed <==> user.Known? && user.user.activated
    ensures !user.Known? ==> r.verdict == Halt(AuthenticationRequired)
    ensures user.Known? && !user.user.activated ==> r.verdict == Halt(InactiveAccount)
    ensures r.exit == ExitOf(r.verdict) && r.calls == []
  {
    match user
    case Unset => CheckResult(Halt(AuthenticationRequired), Aborts, [])
    case NotAUser => CheckResult(Halt(AuthenticationRequired), Aborts, [])
    case Anonymous => CheckResult(Halt(AuthenticationRequired), Aborts, [])
    case Known(u) =>
      if !u.activated then CheckResult(Halt(InactiveAccount), Aborts, []) else CheckResult(Proceed, CallsNext, [])
  }

  /** The id `RequirePermission` looks up: `models.AnonymousUser` is a zero `User`, id 0. */
  function ContextUserId(user: ContextUser): int
    requires user.Known? || user.Anonymous?
  {
    if user.Known? then user.user.id else 0
  }

  /**
   * `RequirePermission(code)`: one lookup of the user's permission codes; a
   * lookup error is a 500, a missing code is refused, otherwise the request
   * goes on. Without a `*models.User` in the context the source reads the id
   * through a nil pointer before any lookup: that panic is caught by
   * `gin.Recovery`.
   */
  function RequirePermission(code: string, user: ContextUser, store: Store): (r: CheckResult)
    ensures r.exit == ExitOf(r.verdict)
    ensures user.Unset? || user.NotAUser? ==> r == CheckResult(Panics, Aborts, [])
    ensures user.Known? || user.Anonymous? ==>
      var perms := store.permissionsFor(ContextUserId(user));
      && r.calls == [GetPermissions(ContextUserId(user))]
      && (r.verdict == Proceed <==> perms.Success? && code in perms.value)
      && (perms.Failure? ==> r.verdict == Halt(InternalServerError(perms.error.Text())))
      && (perms.Success? && code !in perms.value ==> r.verdict == Halt(NotPermitted))
  {
    if user.Unset? || user.NotAUser? then CheckResult(Panics, Aborts, [])
    else
      var id := ContextUserId(user);
      var perms := store.permissionsFor(id);
      if perms.Failure? then CheckResult(Halt(InternalServerError(perms.error.Text())), Aborts, [GetPermissions(id)])
      else if code !in perms.value then CheckResult(Halt(NotPermitted), Aborts, [GetPermissions(id)])
      else CheckResult(Proceed, CallsNext, [GetPermissions(id)])
  }

  /**
   * `CORS`: scan the trusted origins for an exact match of a non-empty
   * `Origin`; on a match, allow that origin, and answer a preflight (an
   * OPTIONS request carrying `Access-Control-Request-Method`) with 200 by a
   * bare `return`. Everything else goes on through `c.Next()`.
   */
  method Cors(origin: Bytes, requestMethod: Bytes, accessControlRequestMethod: Bytes, trusted: seq<Bytes>)
    returns (allowOrigin: Option<Bytes>, preflight: bool, exit: Exit)
    ensures allowOrigin == (if origin != [] && origin in trusted then Some(origin) else None)
    ensures preflight <==> allowOrigin.Some? && requestMethod == Options && accessControlRequestMethod != []
    ensures exit == (if preflight then Returns else CallsNext)
  {
    allowOrigin, preflight, exit := None, false, CallsNext;
    if origin != [] {
      var i := 0;
      while i < |trusted|
        invariant 0 <= i <= |trusted|
        invariant origin !in trusted[..i]
        invariant allowOrigin == None && !preflight
      {
        if origin == trusted[i] {
          allowOrigin := Some(origin);
          if requestMethod == Options && accessControlRequestMethod != [] {
            preflight := true;
            return allowOrigin, preflight, Returns;
          }
          break;
        }
        assert trusted[..i + 1] == trusted[..i] + [trusted[i]];
        i := i + 1;
      }
      assert allowOrigin == None ==> trusted[..i] == trusted;
    }
  }
}
