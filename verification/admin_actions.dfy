/**
 * The server actions behind the admin pages (app/actions/admin-actions.ts). Form data
 * is a map from field name to text: a name that is absent is what `formData.get`
 * reports as null, and a field is "filled" when it is present and non-empty (truthy).
 * The tables are a `Movies.Store`, the response cookies a `CookieJar`, and every store
 * call takes its own `fault` answer.
 */
module AdminActions {
  import opened Wrappers
  import opened JsText
  import opened Movies

  type FormData = map<string, string>

  /** The field is truthy: present and non-empty. */
  predicate Filled(form: FormData, key: string) {
    key in form && form[key] != ""
  }

  /** `formData.get(key)` as it is bound to a query parameter. */
  function Field(form: FormData, key: string): (v: Value)
    ensures v == Null <==> key !in form
    ensures key in form ==> v == Str(form[key])
  {
    if key in form then Str(form[key]) else Null
  }

  /** `formData.get(key) || fallback` bound as text. */
  function FieldOr(form: FormData, key: string, fallback: string): (v: Value)
    ensures Filled(form, key) ==> v == Str(form[key])
    ensures !Filled(form, key) ==> v == Str(fallback)
  {
    if Filled(form, key) then Str(form[key]) else Str(fallback)
  }

  /** `Number.parseInt(text)` as a parameter value: NaN when no digits are found. */
  function ParsedValue(text: string): (v: Value)
    ensures v.Int? || v == NaN
    ensures v == NaN <==> ParseInt(text) == None
    ensures ParseInt(text).Some? ==> v == Int(ParseInt(text).value)
  {
    match ParseInt(text)
    case Some(n) => Int(n)
    case None => NaN
  }

  /** A year typed as digits, possibly followed by other text, is stored as the number the
      digits denote; a year written by `String(n)` reads back as `n`. */
  lemma ParsedLeadingDigits(digits: string, rest: string, n: nat)
    requires |digits| >= 1 && AllDigits(digits)
    requires rest == "" || !IsDigit(rest[0])
    ensures ParsedValue(digits + rest) == Int(DigitsValue(digits))
    ensures ParsedValue(NatToString(n)) == Int(n)
  {
    ParseIntLeadingDigits(digits, rest);
    ParseIntNatToString(n);
  }

  /** The text a value takes in a template string. */
  function ValueText(v: Value): string {
    match v
    case Str(s) => s
    case Int(i) => if i < 0 then "-" + NatToString(-i) else NatToString(i)
    case NaN => "NaN"
    case Null => "null"
  }

  // ---------------------------------------------------------------------------
  // Cookies

  /** One week, in seconds. */
  const OneWeek: nat := 60 * 60 * 24 * 7

  datatype Cookie = Cookie(value: string, httpOnly: bool, secure: bool, maxAge: nat, path: string)

  class CookieJar {
    var cookies: map<string, Cookie>
    /** Whether NODE_ENV is "production", which makes the session cookie secure-only. */
    const production: bool

    constructor (production: bool)
      ensures this.production == production && cookies == map[]
    {
      this.production := production;
      cookies := map[];
    }

    /** Sets the `admin_id` session cookie the way both login paths do. */
    method SetSession(value: string)
      modifies this`cookies
      ensures cookies == old(cookies)["admin_id" := Cookie(value, true, production, OneWeek, "/")]
    {
      cookies := cookies["admin_id" := Cookie(value, true, production, OneWeek, "/")];
    }

    method Delete(name: string)
      modifies this`cookies
      ensures cookies == old(cookies) - {name}
    {
      cookies := cookies - {name};
    }
  }

  // ---------------------------------------------------------------------------
  // adminLogin / adminLogout

  /** What `authenticateAdmin` answers, or that the call threw. */
  datatype AuthOutcome = Admin(id: nat) | NoAdmin | Threw

  const CredentialsRequired := "Username and password are required"
  const InvalidCredentials := "Invalid username or password"
  const LoginFailed := "Failed to log in"

  /** The message `adminLogin` returns, or none when it succeeds. The authenticator's answer
      only matters once both fields are filled. */
  function LoginError(form: FormData, auth: AuthOutcome): (e: Option<string>)
    ensures e.None? <==> Filled(form, "username") && Filled(form, "password") && auth.Admin?
    ensures !Filled(form, "username") || !Filled(form, "password") ==> e == Some(CredentialsRequired)
    ensures Filled(form, "username") && Filled(form, "password") ==>
      (auth.NoAdmin? ==> e == Some(InvalidCredentials)) && (auth.Threw? ==> e == Some(LoginFailed))
  {
    if !Filled(form, "username") || !Filled(form, "password") then Some(CredentialsRequired)
    else match auth
      case NoAdmin => Some(InvalidCredentials)
      case Threw => Some(LoginFailed)
      case Admin(_) => None
  }

  /** `adminLogin`: on success the session cookie holds the admin's id for one week; on every
      failure no cookie is set. */
  method AdminLogin(form: FormData, auth: AuthOutcome, jar: CookieJar) returns (r: Result<nat>)
    modifies jar
    ensures LoginError(form, auth).Some? ==> r == Err(LoginError(form, auth).value) && jar.cookies == old(jar.cookies)
    ensures LoginError(form, auth).None? ==>
      r == Ok(auth.id) &&
      jar.cookies == old(jar.cookies)["admin_id" := Cookie(NatToString(auth.id), true, jar.production, OneWeek, "/")]
  {
    if !Filled(form, "username") || !Filled(form, "password") {
      return Err(CredentialsRequired);
    }
    match auth {
      case NoAdmin => return Err(InvalidCredentials);
      case Threw => return Err(LoginFailed);
      case Admin(id) =>
        jar.SetSession(NatToString(id));
        r := Ok(id);
    }
  }

  /** `adminLogout`: drops the session cookie and redirects to the login page. */
  method AdminLogout(jar: CookieJar) returns (location: string)
    modifies jar
    ensures location == "/admin/login"
    ensures "admin_id" !in jar.cookies && jar.cookies == old(jar.cookies) - {"admin_id"}
  {
    jar.Delete("admin_id");
    location := "/admin/login";
  }

  // ---------------------------------------------------------------------------
  // addMovie

  const YearRequired := "Release year is required and must be a valid number"
  const TitleRequired := "Title is required"

  /** The validation of `addMovie`: the release year is checked before the title. */
  function AddMovieError(form: FormData): (e: Option<string>)
    ensures e.None? <==> Filled(form, "release_year") && ParseInt(form["release_year"]).Some? && Filled(form, "title")
    ensures (!Filled(form, "release_year") || ParseInt(form["release_year"]).None?) ==> e == Some(YearRequired)
    ensures e == Some(TitleRequired) <==>
      Filled(form, "release_year") && ParseInt(form["release_year"]).Some? && !Filled(form, "title")
  {
    if !Filled(form, "release_year") || ParseInt(form["release_year"]).None? then Some(YearRequired)
    else if !Filled(form, "title") then Some(TitleRequired)
    else None
  }

  /** The movie `addMovie` creates from a valid form; an empty file URL is stored as null. */
  function NewMovie(form: FormData): (d: MovieInput)
    requires AddMovieError(form).None?
    ensures d.title == Str(form["title"]) && d.releaseYear == Int(ParseInt(form["release_year"]).value)
    ensures d.movieFileUrl == (if Filled(form, "movie_file_url") then Str(form["movie_file_url"]) else Null)
    ensures d.description == Field(form, "description") && d.genre == Field(form, "genre")
    ensures d.director == Field(form, "director") && d.posterUrl == Field(form, "poster_url")
  {
    MovieInput(
      Str(form["title"]), Field(form, "description"), Int(ParseInt(form["release_year"]).value),
      Field(form, "genre"), Field(form, "director"), Field(form, "poster_url"),
      if Filled(form, "movie_file_url") then Str(form["movie_file_url"]) else Null)
  }

  /** The trailer that goes with a new or edited movie. */
  function MovieTrailer(movieId: nat, movieTitle: string, form: FormData): (d: TrailerInput)
    requires Filled(form, "trailer_url")
    ensures d.movieId == Int(movieId) && d.title == Str(movieTitle + " - Trailer")
    ensures d.videoUrl == Str(form["trailer_url"]) && d.thumbnailUrl == FieldOr(form, "thumbnail_url", "")
  {
    TrailerInput(Int(movieId), Str(movieTitle + " - Trailer"), Str(form["trailer_url"]), FieldOr(form, "thumbnail_url", ""))
  }

  /** `addMovie`: validates, creates the movie, and creates its trailer exactly when a trailer
      URL is given. A store failure returns the store's message; a trailer failure leaves the
      movie in place. */
  method AddMovie(form: FormData, movieFault: Option<string>, trailerFault: Option<string>, store: Store)
    returns (r: Result<Row>)
    requires store.Valid()
    modifies store
    ensures store.Valid()
    ensures AddMovieError(form).Some? ==>
      r == Err(AddMovieError(form).value) && store.movies == old(store.movies) && store.trailers == old(store.trailers)
    ensures AddMovieError(form).None? && movieFault.Some? ==>
      r == Err(movieFault.value) && store.movies == old(store.movies) && store.trailers == old(store.trailers)
    ensures AddMovieError(form).None? && movieFault.None? ==>
      var movie := Row(old(store.nextMovieId), MovieRow(NewMovie(form)));
      && store.movies == old(store.movies) + [movie]
      && (!Filled(form, "trailer_url") ==> r == Ok(movie) && store.trailers == old(store.trailers))
      && (Filled(form, "trailer_url") && trailerFault.Some? ==>
            r == Err(trailerFault.value) && store.trailers == old(store.trailers))
      && (Filled(form, "trailer_url") && trailerFault.None? ==>
            r == Ok(movie) &&
            store.trailers == old(store.trailers) +
              [Row(old(store.nextTrailerId), TrailerRow(MovieTrailer(movie.id, form["title"], form)))])
  {
    var invalid := AddMovieError(form);
    if invalid.Some? {
      return Err(invalid.value);
    }
    var created := store.CreateMovie(NewMovie(form), movieFault);
    if created.Err? {
      return Err(created.message);
    }
    var movie := created.value;
    if Filled(form, "trailer_url") {
      var trailer := store.CreateTrailer(MovieTrailer(movie.id, form["title"], form), trailerFault);
      if trailer.Err? {
        return Err(trailer.message);
      }
    }
    r := Ok(movie);
  }

  // ---------------------------------------------------------------------------
  // editMovie

  /** The value `editMovie` assigns to a filled column: the parsed year, or the text. */
  function EditValue(form: FormData, column: Column): Value
    requires column in form
  {
    if column == "release_year" then ParsedValue(form[column]) else Str(form[column])
  }

  /** The assignments built from the filled fields among `columns`, in that order. */
  function FilledFields(form: FormData, columns: seq<Column>): seq<(Column, Value)>
  {
    if |columns| == 0 then []
    else
      (if Filled(form, columns[0]) then [(columns[0], EditValue(form, columns[0]))] else [])
      + FilledFields(form, columns[1..])
  }

  /** `updateData` of `editMovie`. */
  function UpdateFields(form: FormData): seq<(Column, Value)> {
    FilledFields(form, MovieColumns)
  }

  /** Position of a column in the column list. */
  function Rank(columns: seq<Column>, c: Column): nat
    requires c in columns
  {
    if columns[0] == c then 0 else 1 + Rank(columns[1..], c)
  }

  predicate Distinct(columns: seq<Column>) {
    forall i, j :: 0 <= i < j < |columns| ==> columns[i] != columns[j]
  }

  /** The assignments name exactly the filled columns, each once and in column order, and
      assign each the value read from its field. */
  lemma FilledFieldsExact(form: FormData, columns: seq<Column>)
    requires Distinct(columns)
    ensures var keys := Keys(FilledFields(form, columns));
      && (forall c :: c in keys <==> c in columns && Filled(form, c))
      && (forall i, j :: 0 <= i < j < |keys| ==> keys[i] in columns && keys[j] in columns && Rank(columns, keys[i]) < Rank(columns, keys[j]))
    ensures forall p :: p in FilledFields(form, columns) ==> p.0 in form && p.1 == EditValue(form, p.0)
  {
    FilledFieldsMembers(form, columns);
    FilledFieldsOrdered(form, columns);
    FilledFieldsValues(form, columns);
  }

  /** The keys of the assignments of the first column and then the rest. */
  lemma FilledFieldsKeys(form: FormData, columns: seq<Column>)
    requires |columns| > 0
    ensures Keys(FilledFields(form, columns)) ==
      (if Filled(form, columns[0]) then [columns[0]] else []) + Keys(FilledFields(form, columns[1..]))
  {
  }

  lemma {:induction false} FilledFieldsMembers(form: FormData, columns: seq<Column>)
    ensures forall c :: c in Keys(FilledFields(form, columns)) <==> c in columns && Filled(form, c)
    decreases |columns|
  {
    if |columns| > 0 {
      FilledFieldsMembers(form, columns[1..]);
      FilledFieldsKeys(form, columns);
      assert columns == [columns[0]] + columns[1..];
    }
  }

  lemma {:induction false} FilledFieldsOrdered(form: FormData, columns: seq<Column>)
    requires Distinct(columns)
    ensures var keys := Keys(FilledFields(form, columns));
      forall i, j :: 0 <= i < j < |keys| ==> keys[i] in columns && keys[j] in columns && Rank(columns, keys[i]) < Rank(columns, keys[j])
    decreases |columns|
  {
    if |columns| > 0 {
      var rest := columns[1..];
      DistinctTail(columns);
      FilledFieldsOrdered(form, rest);
      FilledFieldsMembers(form, rest);
      FilledFieldsKeys(form, columns);
      var tail := Keys(FilledFields(form, rest));
      var keys := Keys(FilledFields(form, columns));
      var d := if Filled(form, columns[0]) then 1 else 0;
      assert forall k :: d <= k < |keys| ==> keys[k] == tail[k - d] && keys[k] in rest;
      forall i, j | 0 <= i < j < |keys|
        ensures keys[i] in columns && keys[j] in columns && Rank(columns, keys[i]) < Rank(columns, keys[j])
      {
        if i < d {
          assert keys[i] == columns[0];
        }
      }
    }
  }

  lemma {:induction false} FilledFieldsValues(form: FormData, columns: seq<Column>)
    ensures forall p :: p in FilledFields(form, columns) ==> p.0 in form && p.1 == EditValue(form, p.0)
    decreases |columns|
  {
    if |columns| > 0 {
      FilledFieldsValues(form, columns[1..]);
    }
  }

  /** Dropping the first of distinct columns leaves distinct columns, one rank earlier. */
  lemma DistinctTail(columns: seq<Column>)
    requires |columns| > 0 && Distinct(columns)
    ensures Distinct(columns[1..])
    ensures forall c :: c in columns[1..] ==> c != columns[0] && Rank(columns, c) == 1 + Rank(columns[1..], c)
  {
    var rest := columns[1..];
    forall i, j | 0 <= i < j < |rest| ensures rest[i] != rest[j] {
      assert rest[i] == columns[i + 1] && rest[j] == columns[j + 1];
    }
    forall c | c in rest ensures c != columns[0] && Rank(columns, c) == 1 + Rank(rest, c) {
      var k :| 0 <= k < |rest| && rest[k] == c;
      assert columns[k + 1] == c;
    }
  }

  /** The seven movie columns are distinct. */
  lemma MovieColumnsDistinct()
    ensures Distinct(MovieColumns)
  {
  }

  /** `editMovie`'s update map holds exactly the filled movie fields, in the order the code
      tests them; `trailer_url` and `thumbnail_url` never become columns. */
  lemma UpdateFieldsExact(form: FormData)
    ensures var keys := Keys(UpdateFields(form));
      && (forall c :: c in keys <==> c in MovieColumns && Filled(form, c))
      && Distinct(keys)
      && "trailer_url" !in keys && "thumbnail_url" !in keys
    ensures forall p :: p in UpdateFields(form) ==> p.0 in form && p.1 == EditValue(form, p.0)
  {
    MovieColumnsDistinct();
    FilledFieldsExact(form, MovieColumns);
    var keys := Keys(UpdateFields(form));
    forall i, j | 0 <= i < j < |keys| ensures keys[i] != keys[j] {
      assert Rank(MovieColumns, keys[i]) < Rank(MovieColumns, keys[j]);
    }
  }

  /** The assignment for one column, when its field is filled. */
  function Pick(form: FormData, column: Column): seq<(Column, Value)> {
    if Filled(form, column) then [(column, EditValue(form, column))] else []
  }

  lemma UnfoldOnce(form: FormData, columns: seq<Column>)
    requires |columns| > 0
    ensures FilledFields(form, columns) == Pick(form, columns[0]) + FilledFields(form, columns[1..])
  {
  }

  lemma UpdateFieldsUnfolded(form: FormData)
    ensures UpdateFields(form) ==
      Pick(form, "title") + Pick(form, "description") + Pick(form, "release_year") + Pick(form, "genre")
      + Pick(form, "director") + Pick(form, "poster_url") + Pick(form, "movie_file_url")
  {
    var c1 := MovieColumns;
    var c2 := ["description", "release_year", "genre", "director", "poster_url", "movie_file_url"];
    var c3 := ["release_year", "genre", "director", "poster_url", "movie_file_url"];
    var c4 := ["genre", "director", "poster_url", "movie_file_url"];
    var c5 := ["director", "poster_url", "movie_file_url"];
    var c6 := ["poster_url", "movie_file_url"];
    var c7 := ["movie_file_url"];
    assert c1[1..] == c2 && c2[1..] == c3 && c3[1..] == c4 && c4[1..] == c5 && c5[1..] == c6 && c6[1..] == c7;
    assert c7[1..] == [];
    UnfoldOnce(form, c7);
    var f7 := Pick(form, "movie_file_url");
    assert FilledFields(form, c7) == f7;
    UnfoldOnce(form, c6);
    var f6 := Pick(form, "poster_url") + f7;
    assert FilledFields(form, c6) == f6;
    UnfoldOnce(form, c5);
    var f5 := Pick(form, "director") + f6;
    assert FilledFields(form, c5) == f5;
    UnfoldOnce(form, c4);
    var f4 := Pick(form, "genre") + f5;
    assert FilledFields(form, c4) == f4;
    UnfoldOnce(form, c3);
    var f3 := Pick(form, "release_year") + f4;
    assert FilledFields(form, c3) == f3;
    UnfoldOnce(form, c2);
    var f2 := Pick(form, "description") + f3;
    assert FilledFields(form, c2) == f2;
    UnfoldOnce(form, c1);
    assert UpdateFields(form) == Pick(form, "title") + f2;
    RegroupSeven(Pick(form, "title"), Pick(form, "description"), Pick(form, "release_year"), Pick(form, "genre"),
      Pick(form, "director"), Pick(form, "poster_url"), Pick(form, "movie_file_url"));
  }

  lemma RegroupSeven<T>(a: seq<T>, b: seq<T>, c: seq<T>, d: seq<T>, e: seq<T>, f: seq<T>, g: seq<T>)
    ensures a + b + c + d + e + f + g == a + (b + (c + (d + (e + (f + g)))))
  {
    assert e + f + g == e + (f + g);
    assert d + e + f + g == d + (e + (f + g));
    assert c + d + e + f + g == c + (d + (e + (f + g)));
    assert b + c + d + e + f + g == b + (c + (d + (e + (f + g))));
  }

  /** The successive `if`s that fill `updateData`. */
  method CollectUpdateFields(form: FormData) returns (fields: seq<(Column, Value)>)
    ensures fields == UpdateFields(form)
  {
    fields := [];
    if Filled(form, "title") { fields := fields + [("title", Str(form["title"]))]; }
    assert fields == Pick(form, "title");
    ghost var before2 := fields;
    if Filled(form, "description") { fields := fields + [("description", Str(form["description"]))]; }
    assert fields == before2 + Pick(form, "description");
    ghost var before3 := fields;
    if Filled(form, "release_year") { fields := fields + [("release_year", ParsedValue(form["release_year"]))]; }
    assert fields == before3 + Pick(form, "release_year");
    ghost var before4 := fields;
    if Filled(form, "genre") { fields := fields + [("genre", Str(form["genre"]))]; }
    assert fields == before4 + Pick(form, "genre");
    ghost var before5 := fields;
    if Filled(form, "director") { fields := fields + [("director", Str(form["director"]))]; }
    assert fields == before5 + Pick(form, "director");
    ghost var before6 := fields;
    if Filled(form, "poster_url") { fields := fields + [("poster_url", Str(form["poster_url"]))]; }
    assert fields == before6 + Pick(form, "poster_url");
    ghost var before7 := fields;
    if Filled(form, "movie_file_url") { fields := fields + [("movie_file_url", Str(form["movie_file_url"]))]; }
    assert fields == before7 + Pick(form, "movie_file_url");
    assert fields == Pick(form, "title") + Pick(form, "description") + Pick(form, "release_year") + Pick(form, "genre")
      + Pick(form, "director") + Pick(form, "poster_url") + Pick(form, "movie_file_url");
    UpdateFieldsUnfolded(form);
  }

  /** `movie.title` in a template: "undefined" when the row has no title column. */
  function TitleText(row: Row): string {
    if "title" in row.cols then ValueText(row.cols["title"]) else "undefined"
  }

  const NothingToUpdate := "No fields to update"
  const UpdateFailed := "Failed to update movie"

  /** The row with this id exists. */
  predicate HasRow(rows: seq<Row>, id: nat) {
    exists i :: 0 <= i < |rows| && rows[i].id == id
  }

  /** `editMovie`. With no filled field nothing is sent. Any failure reports "Failed to update
      movie": a store fault, and also a trailer URL given for an id no row has (reading
      the title of the missing row throws). The update already made stays when the trailer
      insert then fails. */
  method EditMovie(id: nat, form: FormData, updateFault: Option<string>, trailerFault: Option<string>, store: Store)
    returns (r: Result<Option<Row>>)
    requires store.Valid()
    modifies store
    ensures store.Valid()
    ensures |UpdateFields(form)| == 0 ==>
      r == Err(NothingToUpdate) && store.movies == old(store.movies) && store.trailers == old(store.trailers)
    ensures |UpdateFields(form)| > 0 && updateFault.Some? ==>
      r == Err(UpdateFailed) && store.movies == old(store.movies) && store.trailers == old(store.trailers)
    ensures |UpdateFields(form)| > 0 && updateFault.None? ==>
      store.movies == UpdatedRows(old(store.movies), id, UpdateFields(form))
    ensures |UpdateFields(form)| > 0 && updateFault.None? && !Filled(form, "trailer_url") ==>
      r == Ok(FindById(store.movies, id)) && store.trailers == old(store.trailers)
    ensures |UpdateFields(form)| > 0 && updateFault.None? && Filled(form, "trailer_url") ==>
      if !HasRow(old(store.movies), id) || trailerFault.Some? then
        r == Err(UpdateFailed) && store.trailers == old(store.trailers)
      else
        r == Ok(FindById(store.movies, id)) &&
        store.trailers == old(store.trailers) +
          [Row(old(store.nextTrailerId), TrailerRow(MovieTrailer(id, TitleText(FindById(store.movies, id).value), form)))]
  {
    var fields := CollectUpdateFields(form);
    if |fields| == 0 {
      return Err(NothingToUpdate);
    }
    var updated, _ := store.UpdateMovie(id, fields, updateFault);
    if updated.Err? {
      return Err(UpdateFailed);
    }
    var movie := updated.value;
    if Filled(form, "trailer_url") {
      if movie.None? {
        return Err(UpdateFailed);
      }
      var trailer := store.CreateTrailer(MovieTrailer(id, TitleText(movie.value), form), trailerFault);
      if trailer.Err? {
        return Err(UpdateFailed);
      }
    }
    r := Ok(movie);
  }

  // ---------------------------------------------------------------------------
  // removeMovie / addTrailer / removeTrailer

  method RemoveMovie(id: nat, fault: Option<string>, store: Store) returns (r: Result<()>)
    requires store.Valid()
    modifies store
    ensures store.Valid() && store.trailers == old(store.trailers)
    ensures r.Ok? <==> fault.None?
    ensures r.Err? ==> r.message == "Failed to delete movie" && store.movies == old(store.movies)
    ensures r.Ok? ==> store.movies == WithoutId(old(store.movies), id)
  {
    var deleted := store.DeleteMovie(id, fault);
    if deleted.Err? {
      return Err("Failed to delete movie");
    }
    r := Ok(());
  }

  const TrailerFieldsRequired := "Movie ID and video URL are required"

  /** `formData.get("movie_id")` as `parseInt` reads it: an absent field is the text "null". */
  function MovieIdText(form: FormData): string {
    if "movie_id" in form then form["movie_id"] else "null"
  }

  /** The guard of `addTrailer`: the parsed movie id is neither 0 nor NaN, and a video URL is given. */
  function AddTrailerError(form: FormData): (e: Option<string>)
    ensures e.None? <==> ParseInt(MovieIdText(form)).Some? && ParseInt(MovieIdText(form)).value != 0 && Filled(form, "video_url")
    ensures e.Some? ==> e.value == TrailerFieldsRequired
  {
    var movieId := ParseInt(MovieIdText(form));
    if movieId.None? || movieId.value == 0 || !Filled(form, "video_url") then Some(TrailerFieldsRequired) else None
  }

  /** A form without a movie id never passes the guard. */
  lemma MissingMovieIdRejected(form: FormData)
    requires "movie_id" !in form
    ensures AddTrailerError(form) == Some(TrailerFieldsRequired)
  {
    assert DigitPrefix(SignStripped(TrimStart("null"))) == "";
  }

  method AddTrailer(form: FormData, fault: Option<string>, store: Store) returns (r: Result<Row>)
    requires store.Valid()
    modifies store
    ensures store.Valid() && store.movies == old(store.movies)
    ensures AddTrailerError(form).Some? ==> r == Err(TrailerFieldsRequired) && store.trailers == old(store.trailers)
    ensures AddTrailerError(form).None? && fault.Some? ==>
      r == Err("Failed to add trailer") && store.trailers == old(store.trailers)
    ensures AddTrailerError(form).None? && fault.None? ==>
      var row := Row(old(store.nextTrailerId), TrailerRow(TrailerInput(
        Int(ParseInt(MovieIdText(form)).value), Field(form, "title"), Str(form["video_url"]), FieldOr(form, "thumbnail_url", ""))));
      r == Ok(row) && store.trailers == old(store.trailers) + [row]
  {
    var invalid := AddTrailerError(form);
    if invalid.Some? {
      return Err(invalid.value);
    }
    var movieId := ParseInt(MovieIdText(form)).value;
    var created := store.CreateTrailer(
      TrailerInput(Int(movieId), Field(form, "title"), Str(form["video_url"]), FieldOr(form, "thumbnail_url", "")), fault);
    if created.Err? {
      return Err("Failed to add trailer");
    }
    r := Ok(created.value);
  }

  method RemoveTrailer(id: nat, fault: Option<string>, store: Store) returns (r: Result<()>)
    requires store.Valid()
    modifies store
    ensures store.Valid() && store.movies == old(store.movies)
    ensures r.Ok? <==> fault.None?
    ensures r.Err? ==> r.message == "Failed to delete trailer" && store.trailers == old(store.trailers)
    ensures r.Ok? ==> store.trailers == WithoutId(old(store.trailers), id)
  {
    var deleted := store.DeleteTrailer(id, fault);
    if deleted.Err? {
      return Err("Failed to delete trailer");
    }
    r := Ok(());
  }
}
