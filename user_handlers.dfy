/**
 * The user handlers: `RegisterUserHandler` and `ActivateUserHandler`, taken
 * over the decoded request body. Hashing the password (`Password.Set`, bcrypt),
 * generating a token (`models.GenerateToken`, which reads the clock and the
 * system's random source) and the email pattern are not part of this model:
 * they are given as `Externals`.
 */
module UserHandlers {
  import opened Wrappers
  import opened GoText
  import opened Validation
  import opened Models
  import opened Errors
  import opened Replies
  import UserService
  import TokenService

  datatype Externals = Externals(
    setPassword: Bytes -> Result<Bytes, string>,           // the hash of a plaintext, or the hashing error
    generateToken: (int, int, Scope) -> Result<Token, string>,
    emailRX: Bytes -> bool)

  /** How long an activation token lives: three days, in nanoseconds. */
  const ActivationTTL: int := 3 * 24 * 3600 * 1_000_000_000

  /** The permission every new user is granted. */
  const DefaultPermissions: seq<string> := ["movies:read"]

  const DuplicateEmailError := FieldError("email", "a user with this email address already exists")
  const InvalidTokenError := FieldError("token", "invalid or expired activation token")

  /** The decoded body of a registration. */
  datatype RegisterInput = RegisterInput(name: Bytes, email: Bytes, password: Bytes)

  /** The user a registration builds before it is stored: not activated, with both halves of the password set. */
  function NewUser(input: RegisterInput, hash: Bytes): (u: User)
    ensures !u.activated && u.name == input.name && u.email == input.email
    ensures u.password == Password(Some(input.password), Some(hash))
  {
    User(0, 0, input.name, input.email, Password(Some(input.password), Some(hash)), false, 0)
  }

  /** A registration's user passes validation exactly when its name, email and password do. */
  lemma NewUserValid(input: RegisterInput, hash: Bytes, emailRX: Bytes -> bool)
    ensures UserService.UserErrors(NewUser(input, hash), emailRX) == [] <==>
      && input.name != [] && |input.name| <= 500
      && input.email != [] && emailRX(input.email)
      && 8 <= |input.password| <= 72
  {
    UserService.UserErrorsEmpty(NewUser(input, hash), emailRX);
  }

  /**
   * What `RegisterUserHandler` does once the user is stored: grant the default
   * permission, issue an activation token and store it.
   */
  method GrantAndIssue(stored: User, store: Store, ext: Externals) returns (reply: Reply, calls: seq<Call>)
    ensures var granted := store.insertPermissions(stored.id, DefaultPermissions);
      var token := ext.generateToken(stored.id, ActivationTTL, Activation);
      var granting := [InsertPermissions(stored.id, DefaultPermissions)];
      && (granted.Some? ==> reply == Failed(InternalServerError(granted.value.Text())) && calls == granting)
      && (granted.None? && token.Failure? ==> reply == Failed(InternalServerError(token.error)) && calls == granting)
      && (granted.None? && token.Success? ==>
            var terrs := TokenService.PlainTextErrors(token.value.plaintext);
            && (terrs != [] ==> reply == Failed(FailedValidation(terrs)) && calls == granting)
            && (terrs == [] ==> calls == granting + [InsertToken(token.value)])
            && (terrs == [] && store.insertToken(token.value).Some? ==>
                  reply == Failed(InternalServerError(store.insertToken(token.value).value.Text())))
            && (terrs == [] && store.insertToken(token.value).None? ==>
                  reply == Answered(StatusAccepted, UserBody(stored), None)))
    ensures reply.Answered? ==>
      && reply == Answered(StatusAccepted, UserBody(stored), None)
      && ext.generateToken(stored.id, ActivationTTL, Activation).Success?
      && calls == [InsertPermissions(stored.id, DefaultPermissions),
                   InsertToken(ext.generateToken(stored.id, ActivationTTL, Activation).value)]
    ensures |calls| >= 1 && calls[0] == InsertPermissions(stored.id, DefaultPermissions)
  {
    var granted := store.insertPermissions(stored.id, DefaultPermissions);
    calls := [InsertPermissions(stored.id, DefaultPermissions)];
    if granted.Some? {
      return Failed(InternalServerError(granted.value.Text())), calls;
    }
    var token := ext.generateToken(stored.id, ActivationTTL, Activation);
    if token.Failure? {
      return Failed(InternalServerError(token.error)), calls;
    }
    var terrs, terr, tcalls := TokenService.Add(token.value, store);
    calls := calls + tcalls;
    if terrs != [] {
      return Failed(FailedValidation(terrs)), calls;
    }
    if terr.Some? {
      return Failed(InternalServerError(terr.value.Text())), calls;
    }
    reply := Answered(StatusAccepted, UserBody(stored), None);
  }

  /**
   * `RegisterUserHandler`, without the welcome email. Once the user is stored
   * the handler goes on as `GrantAndIssue` says, its calls after the insert.
   */
  method Register(body: Result<RegisterInput, string>, store: Store, ext: Externals)
    returns (reply: Reply, calls: seq<Call>)
    ensures body.Failure? ==> reply == Failed(BadRequest(Some(body.error))) && calls == []
    ensures body.Success? && ext.setPassword(body.value.password).Failure? ==>
      reply == Failed(InternalServerError(ext.setPassword(body.value.password).error)) && calls == []
    ensures body.Success? && ext.setPassword(body.value.password).Success? ==>
      var user := NewUser(body.value, ext.setPassword(body.value.password).value);
      var errs := UserService.UserErrors(user, ext.emailRX);
      var inserted := store.insertUser(user);
      && (errs != [] ==> reply == Failed(FailedValidation(errs)) && calls == [])
      && (errs == [] ==> |calls| >= 1 && calls[0] == InsertUser(user))
      && (errs == [] && inserted.Failure? ==> calls == [InsertUser(user)])
      && (errs == [] && inserted.Failure? && inserted.error == DuplicateEmail ==>
            reply == Failed(FailedValidation([DuplicateEmailError])))
      && (errs == [] && inserted.Failure? && inserted.error != DuplicateEmail ==>
            reply == Failed(InternalServerError(inserted.error.Text())))
      && (errs == [] && inserted.Success? ==>
            var stored := user.(id := inserted.value.id, createdAt := inserted.value.createdAt, version := inserted.value.version);
            var granted := store.insertPermissions(stored.id, DefaultPermissions);
            var token := ext.generateToken(stored.id, ActivationTTL, Activation);
            && |calls| >= 2 && calls[1] == InsertPermissions(stored.id, DefaultPermissions)
            && (granted.Some? ==> reply == Failed(InternalServerError(granted.value.Text())) && |calls| == 2)
            && (granted.None? && token.Failure? ==> reply == Failed(InternalServerError(token.error)) && |calls| == 2)
            && (granted.None? && token.Success? ==>
                  var terrs := TokenService.PlainTextErrors(token.value.plaintext);
                  && (terrs != [] ==> reply == Failed(FailedValidation(terrs)) && |calls| == 2)
                  && (terrs == [] ==> calls == [InsertUser(user), InsertPermissions(stored.id, DefaultPermissions), InsertToken(token.value)])
                  && (terrs == [] && store.insertToken(token.value).Some? ==>
                        reply == Failed(InternalServerError(store.insertToken(token.value).value.Text())))
                  && (terrs == [] && store.insertToken(token.value).None? ==>
                        reply == Answered(StatusAccepted, UserBody(stored), None))))
    ensures reply.Answered? ==>
      && reply.status == StatusAccepted && reply.payload.UserBody? && !reply.payload.user.activated
      && |calls| == 3 && calls[0].InsertUser?
      && calls[1] == InsertPermissions(reply.payload.user.id, DefaultPermissions)
      && ext.generateToken(reply.payload.user.id, ActivationTTL, Activation).Success?
      && calls[2] == InsertToken(ext.generateToken(reply.payload.user.id, ActivationTTL, Activation).value)
  {
    if body.Failure? {
      return Failed(BadRequest(Some(body.error))), [];
    }
    var input := body.value;
    var hash := ext.setPassword(input.password);
    if hash.Failure? {
      return Failed(InternalServerError(hash.error)), [];
    }
    var user := NewUser(input, hash.value);
    var errors, err, added, stored := UserService.Add(user, store, ext.emailRX);
    calls := added;
    if errors != [] {
      return Failed(FailedValidation(errors)), calls;
    }
    if err.Some? {
      if err.value == DuplicateEmail {
        assert errors + [DuplicateEmailError] == [DuplicateEmailError];
        return Failed(FailedValidation(errors + [DuplicateEmailError])), calls;
      }
      return Failed(InternalServerError(err.value.Text())), calls;
    }
    var issued;
    reply, issued := GrantAndIssue(stored, store, ext);
    calls := calls + issued;
  }

  /**
   * `ActivateUserHandler`. A user the broker finds by token is read with its
   * password hash; `ValidateUser` panics on one without, so that is required.
   */
  method Activate(body: Result<Bytes, string>, store: Store, emailRX: Bytes -> bool)
    returns (reply: Reply, calls: seq<Call>)
    requires body.Success? && store.userByToken(Activation, body.value).Success? ==>
      store.userByToken(Activation, body.value).value.password.hash.Some?
    ensures body.Failure? ==> reply == Failed(BadRequest(Some(body.error))) && calls == []
    ensures body.Success? ==>
      var plaintext := body.value;
      var perrs := TokenService.PlainTextErrors(plaintext);
      var found := store.userByToken(Activation, plaintext);
      && (perrs != [] ==> reply == Failed(FailedValidation(perrs)) && calls == [])
      && (perrs == [] && found.Failure? ==> calls == [GetUserByToken(Activation, plaintext)])
      && (perrs == [] && found.Failure? && found.error == RecordNotFound ==>
            reply == Failed(FailedValidation([InvalidTokenError])))
      && (perrs == [] && found.Failure? && found.error != RecordNotFound ==>
            reply == Failed(InternalServerError(found.error.Text())))
      && (perrs == [] && found.Success? ==>
            var user := found.value.(activated := true);
            var errs := UserService.UserErrors(user, emailRX);
            var updated := store.updateUser(user);
            var editing := [GetUserByToken(Activation, plaintext)] + (if errs == [] then [UpdateUser(user)] else []);
            var shown := if errs == [] && updated.Success? then user.(version := updated.value) else user;
            var removed := store.deleteTokens(Activation, user.id);
            && (errs == [] && updated.Failure? ==>
                  reply == Failed(InternalServerError(updated.error.Text())) && calls == editing)
            && (!(errs == [] && updated.Failure?) ==>
                  && calls == editing + [DeleteTokens(Activation, user.id)]
                  && (removed.Some? ==> reply == Failed(InternalServerError(removed.value.Text())))
                  && (removed.None? ==> reply == Answered(StatusOK, UserBody(shown), None))))
    ensures reply.Answered? ==>
      && reply.payload.UserBody? && reply.payload.user.activated
      && calls[0] == GetUserByToken(Activation, body.value)
      && calls[|calls| - 1] == DeleteTokens(Activation, reply.payload.user.id)
  {
    if body.Failure? {
      return Failed(BadRequest(Some(body.error))), [];
    }
    var plaintext := body.value;
    var v := new Validator();
    TokenService.ValidatePlainText(v, plaintext);
    assert v.errors == TokenService.PlainTextErrors(plaintext);
    if !v.Valid() {
      return Failed(FailedValidation(v.errors)), [];
    }
    var (found, lookup) := UserService.FindByToken(Activation, plaintext, store);
    calls := lookup;
    if found.Failure? {
      if found.error == RecordNotFound {
        v.AddError(InvalidTokenError.field, InvalidTokenError.message);
        assert v.errors == [InvalidTokenError];
        return Failed(FailedValidation(v.errors)), calls;
      }
      return Failed(InternalServerError(found.error.Text())), calls;
    }
    var user := found.value.(activated := true);
    // The validator `Edit` returns is dropped: a user that fails validation is not saved.
    var _, err, edits, edited := UserService.Edit(user, store, emailRX);
    calls := calls + edits;
    if err.Some? {
      return Failed(InternalServerError(err.value.Text())), calls;
    }
    var (removeErr, removal) := TokenService.RemoveAllForUser(Activation, edited.id, store);
    calls := calls + removal;
    if removeErr.Some? {
      return Failed(InternalServerError(removeErr.value.Text())), calls;
    }
    reply := Answered(StatusOK, UserBody(edited), None);
  }
}
