/** The token service: plaintext format check, validated insert, bulk removal. */
module TokenService {
  import opened Wrappers
  import opened GoText
  import opened Validation
  import opened Models

  /** The failures `ValidatePlainText` records: non-empty, and exactly 26 bytes. */
  function PlainTextErrors(plaintext: Bytes): (errs: seq<FieldError>)
    ensures errs == [] <==> (plaintext != [] && |plaintext| == 26)
    ensures plaintext == [] ==>
      errs == [FieldError("token", "must be provided"), FieldError("token", "must be 26 bytes long")]
    ensures |plaintext| == 26 ==> errs == []
  {
    Failing(plaintext != [], "token", "must be provided")
      + Failing(|plaintext| == 26, "token", "must be 26 bytes long")
  }

  method ValidatePlainText(v: Validator, plaintext: Bytes)
    modifies v
    ensures v.errors == old(v.errors) + PlainTextErrors(plaintext)
  {
    v.Check(plaintext != [], "token", "must be provided");
    v.Check(|plaintext| == 26, "token", "must be 26 bytes long");
  }

  /**
   * `Add`: validate the plaintext on a fresh validator; only a valid token
   * reaches `Broker.Insert`, whose error is returned beside the validator.
   */
  method Add(token: Token, store: Store) returns (errors: seq<FieldError>, err: Option<StoreError>, calls: seq<Call>)
    ensures errors == PlainTextErrors(token.plaintext)
    ensures errors != [] ==> err == None && calls == []
    ensures errors == [] ==> calls == [InsertToken(token)] && err == store.insertToken(token)
  {
    var v := new Validator();
    ValidatePlainText(v, token.plaintext);
    errors, err, calls := v.errors, None, [];
    if v.Valid() {
      calls := [InsertToken(token)];
      var e := store.insertToken(token);
      if e.Some? {
        return v.errors, e, calls;
      }
    }
  }

  /** `RemoveAllForUser`: one `DeleteAllForUser` call with the same scope and user, and its error. */
  function RemoveAllForUser(scope: Scope, userId: int, store: Store): (r: (Option<StoreError>, seq<Call>))
    ensures r.1 == [DeleteTokens(scope, userId)]
    ensures r.0.Some? <==> store.deleteTokens(scope, userId).Some?
    ensures r.0 == store.deleteTokens(scope, userId)
  {
    var err := store.deleteTokens(scope, userId);
    if err.Some? then (err, [DeleteTokens(scope, userId)]) else (None, [DeleteTokens(scope, userId)])
  }
}
