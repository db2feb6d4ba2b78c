/**
 * The movie service: field validation and the forwarding insert. Its
 * `FindByID`, `Edit` and `RemoveByID` are stubs and are not part of this model.
 */
module MovieService {
  import opened Wrappers
  import opened GoText
  import opened Validation
  import opened Models

  /** `validator.Unique`: no value occurs twice. */
  predicate Unique(values: seq<Bytes>) {
    forall i, j | 0 <= i < j < |values| :: values[i] != values[j]
  }

  /** The genres as Go sees them: a nil slice has no elements. */
  function GenreList(genres: Option<seq<Bytes>>): seq<Bytes> {
    if genres.Some? then genres.value else []
  }

  /** All checks `Validate` makes, taken together. */
  predicate ValidMovie(m: Movie, currentYear: int) {
    && m.title != [] && |m.title| <= 500
    && m.year != 0 && m.year >= 1888 && m.year <= currentYear
    && m.runtime != 0 && m.runtime > 0
    && m.genres.Some? && 1 <= |GenreList(m.genres)| <= 5 && Unique(GenreList(m.genres))
  }

  /** The checks `Validate` makes, in the order it makes them. */
  function MovieRules(m: Movie, currentYear: int): (rules: seq<Rule>)
    ensures |rules| == 11
  {
    [ Rule(m.title != [], FieldError("title", "must be provided")),
      Rule(|m.title| <= 500, FieldError("title", "must not be more than 500 bytes long")),
      Rule(m.year != 0, FieldError("year", "must be provided")),
      Rule(m.year >= 1888, FieldError("year", "must be greater than 1888")),
      Rule(m.year <= currentYear, FieldError("year", "must not be in the future")),
      Rule(m.runtime != 0, FieldError("runtime", "must be provided")),
      Rule(m.runtime > 0, FieldError("runtime", "must be a positive integer")),
      Rule(m.genres.Some?, FieldError("genres", "must be provided")),
      Rule(|GenreList(m.genres)| >= 1, FieldError("genres", "must contain at least 1 genre")),
      Rule(|GenreList(m.genres)| <= 5, FieldError("genres", "must not contain more than 5 genres")),
      Rule(Unique(GenreList(m.genres)), FieldError("genres", "must not contain duplicate values")) ]
  }

  /**
   * `Validate`: the checks in order, on a fresh validator; the movie is taken
   * by value and not changed. `currentYear` is the year of the clock at the
   * time of the call.
   */
  function Validate(m: Movie, currentYear: int): (errs: seq<FieldError>)
    ensures errs == [] <==> ValidMovie(m, currentYear)
    ensures |errs| <= 11
  {
    var rules := MovieRules(m, currentYear);
    assert ValidMovie(m, currentYear) <==> forall i | 0 <= i < |rules| :: rules[i].holds by {
      if forall i | 0 <= i < |rules| :: rules[i].holds {
        assert rules[0].holds && rules[1].holds && rules[2].holds && rules[3].holds;
        assert rules[4].holds && rules[5].holds && rules[6].holds && rules[7].holds;
        assert rules[8].holds && rules[9].holds && rules[10].holds;
      }
    }
    Recorded(rules)
  }

  /** No two checks of `Validate` record the same failure. */
  lemma MovieRulesDistinct(m: Movie, currentYear: int)
    ensures var rules := MovieRules(m, currentYear);
      forall i, j | 0 <= i < |rules| && 0 <= j < |rules| && i != j :: rules[i].failure != rules[j].failure
  {
  }

  /**
   * The checks are independent: each message is reported exactly when its
   * own check fails, whatever the other fields hold.
   */
  lemma ValidateReportsEachFailure(m: Movie, currentYear: int)
    ensures var errs := Validate(m, currentYear);
      && (FieldError("title", "must be provided") in errs <==> m.title == [])
      && (FieldError("title", "must not be more than 500 bytes long") in errs <==> |m.title| > 500)
      && (FieldError("year", "must be provided") in errs <==> m.year == 0)
      && (FieldError("year", "must be greater than 1888") in errs <==> m.year < 1888)
      && (FieldError("year", "must not be in the future") in errs <==> m.year > currentYear)
      && (FieldError("runtime", "must be provided") in errs <==> m.runtime == 0)
      && (FieldError("runtime", "must be a positive integer") in errs <==> m.runtime <= 0)
      && (FieldError("genres", "must be provided") in errs <==> m.genres.None?)
      && (FieldError("genres", "must contain at least 1 genre") in errs <==> |GenreList(m.genres)| < 1)
      && (FieldError("genres", "must not contain more than 5 genres") in errs <==> |GenreList(m.genres)| > 5)
      && (FieldError("genres", "must not contain duplicate values") in errs <==> !Unique(GenreList(m.genres)))
  {
    var rules := MovieRules(m, currentYear);
    MovieRulesDistinct(m, currentYear);
    RecordedIndependently(rules, 0);
    RecordedIndependently(rules, 1);
    RecordedIndependently(rules, 2);
    RecordedIndependently(rules, 3);
    RecordedIndependently(rules, 4);
    RecordedIndependently(rules, 5);
    RecordedIndependently(rules, 6);
    RecordedIndependently(rules, 7);
    RecordedIndependently(rules, 8);
    RecordedIndependently(rules, 9);
    RecordedIndependently(rules, 10);
  }

  /** Two identical genres anywhere in the list are reported, however long it is. */
  lemma DuplicateGenreReported(m: Movie, currentYear: int, i: nat, j: nat)
    requires m.genres.Some? && i < j < |m.genres.value| && m.genres.value[i] == m.genres.value[j]
    ensures FieldError("genres", "must not contain duplicate values") in Validate(m, currentYear)
  {
    ValidateReportsEachFailure(m, currentYear);
  }

  /** `Add`: forwards to `Broker.Insert` and returns its error; on success the movie is stamped. */
  function Add(m: Movie, store: Store): (r: (Option<StoreError>, seq<Call>, Movie))
    ensures r.1 == [InsertMovie(m)]
    ensures store.insertMovie(m).Failure? ==> r.0 == Some(store.insertMovie(m).error) && r.2 == m
    ensures store.insertMovie(m).Success? ==>
      var s := store.insertMovie(m).value;
      r.0 == None && r.2 == m.(id := s.id, createdAt := s.createdAt, version := s.version)
  {
    match store.insertMovie(m)
    case Failure(e) => (Some(e), [InsertMovie(m)], m)
    case Success(s) => (None, [InsertMovie(m)], m.(id := s.id, createdAt := s.createdAt, version := s.version))
  }
}
