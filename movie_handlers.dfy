/**
 * The movie handlers: `CreateMovieHandler`, `ShowMovieHandler`,
 * `UpdateMovieHandler`, `DeleteMovieHandler` and `ListMoviesHandler`, each
 * taken over the extracted route parameter, decoded body and query values.
 *
 * The handlers call a movie service whose `Add` and `Edit` return a validator
 * (nil when the movie passed) beside the error, and which has `FindAll`; that
 * is not the interface of internal/services/movie.go, so the service the
 * handlers see is given as `MovieApi`, with one function per call.
 */
module MovieHandlers {
  import opened Wrappers
  import opened GoText
  import opened Validation
  import opened Models
  import opened Errors
  import opened Helpers
  import opened Replies

  /** `filter.Filter`: paging and sorting of a listing. */
  datatype Filter = Filter(page: int, pageSize: int, sort: Bytes, sortSafeList: seq<Bytes>)

  /** An `Add`/`Edit` answer: the validator if one came back (`None` for nil), the error, and the movie as the call left it. */
  datatype WriteOutcome = WriteOutcome(validator: Option<seq<FieldError>>, err: Option<StoreError>, movie: Movie)

  datatype MovieApi = MovieApi(
    findByID: int -> Result<Movie, StoreError>,
    add: Movie -> WriteOutcome,
    edit: Movie -> WriteOutcome,
    removeByID: int -> Option<StoreError>,
    findAll: (Bytes, seq<Bytes>, Filter) -> Result<(seq<Movie>, Metadata), StoreError>)

  datatype MovieCall =
    | FindMovie(id: int)
    | AddMovie(movie: Movie)
    | EditMovie(movie: Movie)
    | RemoveMovie(id: int)
    | FindAllMovies(title: Bytes, genres: seq<Bytes>, filter: Filter)

  /** The decoded body of a create request. */
  datatype CreateInput = CreateInput(title: Bytes, year: int, runtime: int, genres: Option<seq<Bytes>>)

  /** The decoded body of an update request: `None` for a field the client left out. */
  datatype UpdateInput = UpdateInput(title: Option<Bytes>, year: Option<int>, runtime: Option<int>, genres: Option<seq<Bytes>>)

  /** How a lookup or removal error is answered: not found is a 404 carrying the error text, anything else a 500. */
  function LookupFailure(err: StoreError): (r: Rejection)
    ensures err == RecordNotFound ==> r == NotFound(Some("record not found"))
    ensures err != RecordNotFound ==> r == InternalServerError(err.Text())
  {
    if err == RecordNotFound then NotFound(Some(err.Text())) else InternalServerError(err.Text())
  }

  /** The path a created movie is found at. */
  function MovieLocation(id: int): string {
    "/v1/movies/" + Itoa(id)
  }

  /** The id at the end of a created movie's location reads back as that id. */
  lemma MovieLocationNamesMovie(id: int)
    requires 1 <= id <= MaxInt64
    ensures MovieLocation(id) == "/v1/movies/" + Itoa(id)
    ensures ReadIDParam(Ascii(MovieLocation(id)[|"/v1/movies/"|..])) == Success(id)
  {
    assert MovieLocation(id)[|"/v1/movies/"|..] == Itoa(id);
    ReadIDParamRoundTrip(id);
  }

  /** `CreateMovieHandler`. */
  method CreateMovie(body: Result<CreateInput, string>, api: MovieApi) returns (reply: Reply, calls: seq<MovieCall>)
    ensures body.Failure? ==> reply == Failed(BadRequest(Some(body.error))) && calls == []
    ensures body.Success? ==>
      var m := Movie(0, 0, body.value.title, body.value.year, body.value.runtime, body.value.genres, 0);
      var out := api.add(m);
      && calls == [AddMovie(m)]
      && (out.validator.Some? ==> reply == Failed(FailedValidation(out.validator.value)))
      && (out.validator.None? && out.err.Some? ==> reply == Failed(BadRequest(Some(out.err.value.Text()))))
      && (out.validator.None? && out.err.None? ==>
            reply == Answered(StatusCreated, MovieBody(out.movie), Some(MovieLocation(out.movie.id))))
  {
    if body.Failure? {
      return Failed(BadRequest(Some(body.error))), [];
    }
    var input := body.value;
    var m := Movie(0, 0, input.title, input.year, input.runtime, input.genres, 0);
    var out := api.add(m);
    calls := [AddMovie(m)];
    if out.validator.Some? {
      return Failed(FailedValidation(out.validator.value)), calls;
    }
    if out.err.Some? {
      return Failed(BadRequest(Some(out.err.value.Text()))), calls;
    }
    reply := Answered(StatusCreated, MovieBody(out.movie), Some(MovieLocation(out.movie.id)));
  }

  /** `ShowMovieHandler`. */
  method ShowMovie(idParam: Bytes, api: MovieApi) returns (reply: Reply, calls: seq<MovieCall>)
    ensures ReadIDParam(idParam).Failure? ==> reply == Failed(NotFound(Some(InvalidIdMessage))) && calls == []
    ensures ReadIDParam(idParam).Success? ==>
      var id := ReadIDParam(idParam).value;
      && calls == [FindMovie(id)]
      && (api.findByID(id).Failure? ==> reply == Failed(LookupFailure(api.findByID(id).error)))
      && (api.findByID(id).Success? ==> reply == Answered(StatusOK, MovieBody(api.findByID(id).value), None))
  {
    var id := ReadIDParam(idParam);
    if id.Failure? {
      return Failed(NotFound(Some(id.error))), [];
    }
    calls := [FindMovie(id.value)];
    var found := api.findByID(id.value);
    if found.Failure? {
      return Failed(LookupFailure(found.error)), calls;
    }
    reply := Answered(StatusOK, MovieBody(found.value), None);
  }

  /** The PATCH merge: each field the client supplied overwrites the stored one. */
  function Merged(movie: Movie, input: UpdateInput): (m: Movie)
    ensures m.id == movie.id && m.createdAt == movie.createdAt && m.version == movie.version
    ensures m.title == (if input.title.Some? then input.title.value else movie.title)
    ensures m.year == (if input.year.Some? then input.year.value else movie.year)
    ensures m.runtime == (if input.runtime.Some? then input.runtime.value else movie.runtime)
    ensures m.genres == (if input.genres.Some? then input.genres else movie.genres)
  {
    movie.(
      title := if input.title.Some? then input.title.value else movie.title,
      year := if input.year.Some? then input.year.value else movie.year,
      runtime := if input.runtime.Some? then input.runtime.value else movie.runtime,
      genres := if input.genres.Some? then input.genres else movie.genres)
  }

  /** An empty patch changes nothing, and applying the same patch twice is applying it once. */
  lemma MergedIdentityAndIdempotent(movie: Movie, input: UpdateInput)
    ensures Merged(movie, UpdateInput(None, None, None, None)) == movie
    ensures Merged(Merged(movie, input), input) == Merged(movie, input)
  {
  }

  /** A stored field changes exactly when the client supplied a different value for it. */
  lemma MergedChangesOnlySupplied(movie: Movie, input: UpdateInput)
    ensures Merged(movie, input).title != movie.title ==> input.title == Some(Merged(movie, input).title)
    ensures Merged(movie, input).year != movie.year ==> input.year == Some(Merged(movie, input).year)
    ensures Merged(movie, input).runtime != movie.runtime ==> input.runtime == Some(Merged(movie, input).runtime)
    ensures Merged(movie, input).genres != movie.genres ==> input.genres == Merged(movie, input).genres
  {
  }

  /** `UpdateMovieHandler`. */
  method UpdateMovie(idParam: Bytes, body: Result<UpdateInput, string>, api: MovieApi)
    returns (reply: Reply, calls: seq<MovieCall>)
    ensures ReadIDParam(idParam).Failure? ==> reply == Failed(NotFound(Some(InvalidIdMessage))) && calls == []
    ensures ReadIDParam(idParam).Success? ==>
      var id := ReadIDParam(idParam).value;
      var found := api.findByID(id);
      && (found.Failure? ==> reply == Failed(LookupFailure(found.error)) && calls == [FindMovie(id)])
      && (found.Success? && body.Failure? ==> reply == Failed(BadRequest(Some(body.error))) && calls == [FindMovie(id)])
      && (found.Success? && body.Success? ==>
            var merged := Merged(found.value, body.value);
            var out := api.edit(merged);
            && calls == [FindMovie(id), EditMovie(merged)]
            && (out.validator.Some? ==> reply == Failed(FailedValidation(out.validator.value)))
            && (out.validator.None? && out.err == Some(EditConflict) ==> reply == Failed(EditConflictError(EditConflict.Text())))
            && (out.validator.None? && out.err.Some? && out.err != Some(EditConflict) ==>
                  reply == Failed(InternalServerError(out.err.value.Text())))
            && (out.validator.None? && out.err.None? ==> reply == Answered(StatusOK, MovieBody(out.movie), None)))
  {
    var id := ReadIDParam(idParam);
    if id.Failure? {
      return Failed(NotFound(Some(id.error))), [];
    }
    calls := [FindMovie(id.value)];
    var found := api.findByID(id.value);
    if found.Failure? {
      return Failed(LookupFailure(found.error)), calls;
    }
    if body.Failure? {
      return Failed(BadRequest(Some(body.error))), calls;
    }
    var input := body.value;
    var movie := found.value;
    if input.title.Some? {
      movie := movie.(title := input.title.value);
    }
    if input.year.Some? {
      movie := movie.(year := input.year.value);
    }
    if input.runtime.Some? {
      movie := movie.(runtime := input.runtime.value);
    }
    if input.genres.Some? {
      movie := movie.(genres := input.genres);
    }
    assert movie == Merged(found.value, input);
    var out := api.edit(movie);
    calls := calls + [EditMovie(movie)];
    if out.validator.Some? {
      return Failed(FailedValidation(out.validator.value)), calls;
    }
    if out.err.Some? {
      if out.err.value == EditConflict {
        return Failed(EditConflictError(out.err.value.Text())), calls;
      }
      return Failed(InternalServerError(out.err.value.Text())), calls;
    }
    reply := Answered(StatusOK, MovieBody(out.movie), None);
  }

  /** `DeleteMovieHandler`. */
  method DeleteMovie(idParam: Bytes, api: MovieApi) returns (reply: Reply, calls: seq<MovieCall>)
    ensures ReadIDParam(idParam).Failure? ==> reply == Failed(NotFound(Some(InvalidIdMessage))) && calls == []
    ensures ReadIDParam(idParam).Success? ==>
      var id := ReadIDParam(idParam).value;
      && calls == [RemoveMovie(id)]
      && (api.removeByID(id).Some? ==> reply == Failed(LookupFailure(api.removeByID(id).value)))
      && (api.removeByID(id).None? ==> reply == Answered(StatusOK, MessageBody("movie successfully deleted"), None))
  {
    var id := ReadIDParam(idParam);
    if id.Failure? {
      return Failed(NotFound(Some(id.error))), [];
    }
    calls := [RemoveMovie(id.value)];
    var err := api.removeByID(id.value);
    if err.Some? {
      return Failed(LookupFailure(err.value)), calls;
    }
    reply := Answered(StatusOK, MessageBody("movie successfully deleted"), None);
  }

  /**
   * The answer the id handlers give an id parameter that does not read as a
   * positive id: a 404 whose body carries the reason as its original error.
   */
  lemma InvalidIdIsNotFound()
    ensures StatusOf(Failed(NotFound(Some(InvalidIdMessage)))) == Some(StatusNotFound)
    ensures ErrorResponse(NotFoundError(Some(InvalidIdMessage))).error ==
      ErrorObject(ErrorResponseBody("NOT_FOUND", NotFoundMessage, [ErrorDetail("original_error", InvalidIdMessage)]))
  {
    ConstructorResponses(Some(InvalidIdMessage), "");
  }

  /** The sort keys a listing accepts. */
  const SortSafeList: seq<Bytes> := [
    Ascii("id"), Ascii("title"), Ascii("year"), Ascii("runtime"),
    Ascii("-id"), Ascii("-title"), Ascii("-year"), Ascii("-runtime")]

  /** `c.Query(key)`: the value, or "" when the key is absent. */
  function Query(query: map<string, Bytes>, key: string): Bytes {
    if key in query then query[key] else []
  }

  /** What `ReadInt` returns. */
  function IntOrDefault(value: Bytes, defaultValue: int): int {
    if value != [] && ParseInt64(value).Some? then ParseInt64(value).value else defaultValue
  }

  /** What `ReadInt` records. */
  function IntErrors(value: Bytes, key: string): seq<FieldError> {
    if value != [] && ParseInt64(value).None? then [FieldError(key, "must be an integer value")] else []
  }

  /** The filter a listing is run with. */
  function ListFilter(query: map<string, Bytes>): (f: Filter)
    ensures f.sortSafeList == SortSafeList
  {
    Filter(
      IntOrDefault(Query(query, "page"), 1),
      IntOrDefault(Query(query, "page_size"), 20),
      ReadString(Query(query, "sort"), Ascii("id")),
      SortSafeList)
  }

  /** Without query parameters a listing asks for page 1 of 20, sorted by id, among eight sort keys, with no title or genre filter. */
  lemma ListDefaults()
    ensures ListFilter(map[]) == Filter(1, 20, Ascii("id"), SortSafeList)
    ensures |SortSafeList| == 8
    ensures forall i, j | 0 <= i < j < |SortSafeList| :: SortSafeList[i] != SortSafeList[j]
    ensures ReadString(Query(map[], "title"), []) == [] && ReadCSV(Query(map[], "genres"), []) == []
    ensures IntErrors(Query(map[], "page"), "page") == [] && IntErrors(Query(map[], "page_size"), "page_size") == []
  {
    assert |SortSafeList[0]| == 2 && |SortSafeList[1]| == 5 && |SortSafeList[2]| == 4 && |SortSafeList[3]| == 7;
    assert |SortSafeList[4]| == 3 && |SortSafeList[5]| == 6 && |SortSafeList[6]| == 5 && |SortSafeList[7]| == 8;
    assert SortSafeList[1][0] == 116 && SortSafeList[6][0] == 45;
  }

  /**
   * `ListMoviesHandler`. `filterErrors` stands for `Filter.Validate`, which is
   * not part of this model: the failures it records for a filter.
   */
  method ListMovies(query: map<string, Bytes>, filterErrors: Filter -> seq<FieldError>, api: MovieApi)
    returns (reply: Reply, calls: seq<MovieCall>)
    ensures var errs := IntErrors(Query(query, "page"), "page") + IntErrors(Query(query, "page_size"), "page_size")
                        + filterErrors(ListFilter(query));
      var title, genres := ReadString(Query(query, "title"), []), ReadCSV(Query(query, "genres"), []);
      var found := api.findAll(title, genres, ListFilter(query));
      && (errs != [] ==> reply == Failed(FailedValidation(errs)) && calls == [])
      && (errs == [] ==> calls == [FindAllMovies(title, genres, ListFilter(query))])
      && (errs == [] && found.Failure? ==> reply == Failed(InternalServerError(found.error.Text())))
      && (errs == [] && found.Success? ==> reply == Answered(StatusOK, MoviesBody(found.value.0, found.value.1), None))
  {
    var v := new Validator();
    var title := ReadString(Query(query, "title"), []);
    var genres := ReadCSV(Query(query, "genres"), []);
    var page := ReadInt(Query(query, "page"), "page", 1, v);
    assert v.errors == IntErrors(Query(query, "page"), "page");
    var pageSize := ReadInt(Query(query, "page_size"), "page_size", 20, v);
    assert v.errors == IntErrors(Query(query, "page"), "page") + IntErrors(Query(query, "page_size"), "page_size");
    var sort := ReadString(Query(query, "sort"), Ascii("id"));
    var filter := Filter(page, pageSize, sort, SortSafeList);
    assert filter == ListFilter(query);
    v.errors := v.errors + filterErrors(filter);
    if !v.Valid() {
      return Failed(FailedValidation(v.errors)), [];
    }
    calls := [FindAllMovies(title, genres, filter)];
    var found := api.findAll(title, genres, filter);
    if found.Failure? {
      return Failed(InternalServerError(found.error.Text())), calls;
    }
    reply := Answered(StatusOK, MoviesBody(found.value.0, found.value.1), None);
  }
}
