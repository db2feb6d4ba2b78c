/**
 * The user service: the email, password and user validators (checks recorded
 * into a caller's validator), validated insert and update, and token lookup.
 * The email pattern `validator.EmailRX` is not part of this model: whether an
 * address matches it is given as `emailRX`.
 */
module UserService {
  import opened Wrappers
  import opened GoText
  import opened Validation
  import opened Models

  function EmailErrors(email: Bytes, matchesRX: bool): (errs: seq<FieldError>)
    ensures email == [] ==> FieldError("email", "must be provided") in errs
    ensures errs == [] <==> (email != [] && matchesRX)
  {
    Failing(email != [], "email", "must be provided")
      + Failing(matchesRX, "email", "must be a valid email address")
  }

  method ValidateEmail(v: Validator, email: Bytes, emailRX: Bytes -> bool)
    modifies v
    ensures v.errors == old(v.errors) + EmailErrors(email, emailRX(email))
  {
    v.Check(email != [], "email", "must be provided");
    v.Check(emailRX(email), "email", "must be a valid email address");
  }

  function PasswordErrors(password: Bytes): (errs: seq<FieldError>)
    ensures errs == [] <==> 8 <= |password| <= 72
  {
    Failing(password != [], "password", "must be provided")
      + Failing(|password| >= 8, "password", "must be at least 8 bytes long")
      + Failing(|password| <= 72, "password", "must not be more than 72 bytes long")
  }

  method ValidatePasswordPlaintext(v: Validator, password: Bytes)
    modifies v
    ensures v.errors == old(v.errors) + PasswordErrors(password)
  {
    v.Check(password != [], "password", "must be provided");
    v.Check(|password| >= 8, "password", "must be at least 8 bytes long");
    v.Check(|password| <= 72, "password", "must not be more than 72 bytes long");
  }

  function NameErrors(name: Bytes): (errs: seq<FieldError>)
    ensures errs == [] <==> (name != [] && |name| <= 500)
  {
    Failing(name != [], "name", "must be provided")
      + Failing(|name| <= 500, "name", "must not be more than 500 bytes long")
  }

  /** The password checks `ValidateUser` makes: none without a plaintext. */
  function PlaintextErrors(plaintext: Option<Bytes>): (errs: seq<FieldError>)
    ensures errs == [] <==> (plaintext.Some? ==> 8 <= |plaintext.value| <= 72)
  {
    if plaintext.Some? then PasswordErrors(plaintext.value) else []
  }

  /**
   * The failures `ValidateUser` records. A missing password hash is a
   * programming error (the source panics), so it is a precondition here.
   */
  function UserErrors(user: User, emailRX: Bytes -> bool): seq<FieldError>
    requires user.password.hash.Some?
  {
    NameErrors(user.name) + EmailErrors(user.email, emailRX(user.email)) + PlaintextErrors(user.password.plaintext)
  }

  /** A user passes `ValidateUser` exactly when every one of its checks holds. */
  lemma UserErrorsEmpty(user: User, emailRX: Bytes -> bool)
    requires user.password.hash.Some?
    ensures UserErrors(user, emailRX) == [] <==>
      && user.name != [] && |user.name| <= 500
      && user.email != [] && emailRX(user.email)
      && (user.password.plaintext.Some? ==> 8 <= |user.password.plaintext.value| <= 72)
    ensures user.email == [] ==> FieldError("email", "must be provided") in UserErrors(user, emailRX)
  {
    var n, m := NameErrors(user.name), EmailErrors(user.email, emailRX(user.email));
    var p := PlaintextErrors(user.password.plaintext);
    assert UserErrors(user, emailRX) == n + m + p;
    assert |n + m + p| == |n| + |m| + |p|;
  }

  /**
   * `ValidateUser` only reports on the name, the email and the password, and
   * on the password only when a plaintext is present.
   */
  lemma UserErrorsFields(user: User, emailRX: Bytes -> bool)
    requires user.password.hash.Some?
    ensures forall e | e in UserErrors(user, emailRX) ::
      || e.field == "name" || e.field == "email"
      || (e.field == "password" && user.password.plaintext.Some?)
  {
    var n, m := NameErrors(user.name), EmailErrors(user.email, emailRX(user.email));
    var p := PlaintextErrors(user.password.plaintext);
    assert forall e | e in n :: e.field == "name";
    assert forall e | e in m :: e.field == "email";
    assert forall e | e in p :: e.field == "password" && user.password.plaintext.Some?;
    assert UserErrors(user, emailRX) == n + m + p;
  }

  method ValidateUser(v: Validator, user: User, emailRX: Bytes -> bool)
    requires user.password.hash.Some?
    modifies v
    ensures v.errors == old(v.errors) + UserErrors(user, emailRX)
  {
    v.Check(user.name != [], "name", "must be provided");
    v.Check(|user.name| <= 500, "name", "must not be more than 500 bytes long");
    AppendTwice(old(v.errors), Failing(user.name != [], "name", "must be provided"),
      Failing(|user.name| <= 500, "name", "must not be more than 500 bytes long"));
    ValidateEmail(v, user.email, emailRX);
    AppendTwice(old(v.errors), NameErrors(user.name), EmailErrors(user.email, emailRX(user.email)));
    if user.password.plaintext.Some? {
      ValidatePasswordPlaintext(v, user.password.plaintext.value);
    }
    AppendTwice(old(v.errors), NameErrors(user.name) + EmailErrors(user.email, emailRX(user.email)),
      PlaintextErrors(user.password.plaintext));
  }

  /**
   * `Add`: validate; only a valid user reaches `Broker.Insert`, which stamps
   * the user with its id, creation time and version on success; its error
   * is returned beside the validator.
   */
  method Add(user: User, store: Store, emailRX: Bytes -> bool)
    returns (errors: seq<FieldError>, err: Option<StoreError>, calls: seq<Call>, stored: User)
    requires user.password.hash.Some?
    ensures errors == UserErrors(user, emailRX)
    ensures errors != [] ==> err == None && calls == [] && stored == user
    ensures errors == [] ==> calls == [InsertUser(user)]
    ensures errors == [] && store.insertUser(user).Failure? ==>
      err == Some(store.insertUser(user).error) && stored == user
    ensures errors == [] && store.insertUser(user).Success? ==>
      var s := store.insertUser(user).value;
      err == None && stored == user.(id := s.id, createdAt := s.createdAt, version := s.version)
  {
    var v := new Validator();
    ValidateUser(v, user, emailRX);
    errors, err, calls, stored := v.errors, None, [], user;
    if v.Valid() {
      calls := [InsertUser(user)];
      var r := store.insertUser(user);
      if r.Failure? {
        return v.errors, Some(r.error), calls, user;
      }
      stored := user.(id := r.value.id, createdAt := r.value.createdAt, version := r.value.version);
    }
  }

  /**
   * `Edit`: validate; only a valid user reaches `Broker.Update`, which
   * records the new version on success; its error is propagated.
   */
  method Edit(user: User, store: Store, emailRX: Bytes -> bool)
    returns (errors: seq<FieldError>, err: Option<StoreError>, calls: seq<Call>, stored: User)
    requires user.password.hash.Some?
    ensures errors == UserErrors(user, emailRX)
    ensures errors != [] ==> err == None && calls == [] && stored == user
    ensures errors == [] ==> calls == [UpdateUser(user)]
    ensures errors == [] && store.updateUser(user).Failure? ==>
      err == Some(store.updateUser(user).error) && stored == user
    ensures errors == [] && store.updateUser(user).Success? ==>
      err == None && stored == user.(version := store.updateUser(user).value)
  {
    var v := new Validator();
    ValidateUser(v, user, emailRX);
    errors, err, calls, stored := v.errors, None, [], user;
    if v.Valid() {
      calls := [UpdateUser(user)];
      var r := store.updateUser(user);
      if r.Failure? {
        return v.errors, Some(r.error), calls, user;
      }
      stored := user.(version := r.value);
    }
  }

  /** `FindByToken`: the broker's user for this scope and plaintext, or its error. */
  function FindByToken(scope: Scope, plaintext: Bytes, store: Store): (r: (Result<User, StoreError>, seq<Call>))
    ensures r.1 == [GetUserByToken(scope, plaintext)]
    ensures r.0 == store.userByToken(scope, plaintext)
  {
    var found := store.userByToken(scope, plaintext);
    if found.Failure? then (Failure(found.error), [GetUserByToken(scope, plaintext)])
    else (Success(found.value), [GetUserByToken(scope, plaintext)])
  }
}
