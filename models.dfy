/**
 * The records the core passes around and the narrow interface it uses to reach
 * the database. The `internal/models` package is not part of this model: the
 * records carry the fields the core reads or writes. The store is a record of
 * functions, one per broker call the core makes, each giving that call's answer;
 * operations that reach the store also return the list of calls they made.
 */
module Models {
  import opened Wrappers
  import opened GoText

  /** Token scopes: `models.ScopeActivation` and `models.ScopeAuthentication`. */
  datatype Scope = Activation | Authentication

  /** A password: the plaintext (nil unless just set) and the bcrypt hash. */
  datatype Password = Password(plaintext: Option<Bytes>, hash: Option<Bytes>)

  datatype User = User(
    id: int, createdAt: int, name: Bytes, email: Bytes,
    password: Password, activated: bool, version: int)

  /** A movie; `genres` is `None` for a nil slice. */
  datatype Movie = Movie(
    id: int, createdAt: int, title: Bytes, year: int, runtime: int,
    genres: Option<seq<Bytes>>, version: int)

  datatype Token = Token(plaintext: Bytes, hash: Bytes, userId: int, expiry: int, scope: Scope)

  /** The value under the request context's "user" key. */
  datatype ContextUser =
    | Unset                // c.Get("user") finds nothing
    | NotAUser             // something that is not a *models.User
    | Anonymous            // models.AnonymousUser
    | Known(user: User)

  /** The errors the brokers return; `errors.Is` tells the sentinels apart. */
  datatype StoreError = RecordNotFound | EditConflict | DuplicateEmail | Other(text: string)
  {
    /** `err.Error()`. */
    function Text(): string {
      match this
      case RecordNotFound => "record not found"
      case EditConflict => "edit conflict"
      case DuplicateEmail => "duplicate email"
      case Other(t) => t
    }
  }

  /** The columns an INSERT ... RETURNING scans back into the record. */
  datatype Stamp = Stamp(id: int, createdAt: int, version: int)

  /** The brokers' answers. */
  datatype Store = Store(
    userByToken: (Scope, Bytes) -> Result<User, StoreError>,
    insertUser: User -> Result<Stamp, StoreError>,
    updateUser: User -> Result<int, StoreError>,           // the new version
    insertToken: Token -> Option<StoreError>,
    deleteTokens: (Scope, int) -> Option<StoreError>,
    permissionsFor: int -> Result<seq<string>, StoreError>,
    insertPermissions: (int, seq<string>) -> Option<StoreError>,
    insertMovie: Movie -> Result<Stamp, StoreError>)

  /** One broker call, as recorded in a trace. */
  datatype Call =
    | GetUserByToken(scope: Scope, plaintext: Bytes)
    | InsertUser(user: User)
    | UpdateUser(user: User)
    | InsertToken(token: Token)
    | DeleteTokens(scope: Scope, userId: int)
    | GetPermissions(userId: int)
    | InsertPermissions(userId: int, codes: seq<string>)
    | InsertMovie(movie: Movie)
}
