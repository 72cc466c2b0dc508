/**
 * The add/edit movie form (components/admin/movie-form.tsx): the URLs its two upload
 * widgets report, the thumbnail it derives from a trailer URL, and the state its submit
 * handler moves through. The server action runs between `BeginSubmit` and `FinishSubmit`;
 * its reply is the argument of the latter.
 */
module MovieForm {
  import opened Wrappers
  import opened JsText
  import opened UploadLib
  import opened AdminActions

  // ---------------------------------------------------------------------------
  // Upload limits

  const MovieMaxSize: nat := 3 * 1024 * 1024 * 1024
  const MovieTypes: seq<string> := ["video/mp4", "video/quicktime", "video/x-msvideo", "video/webm"]
  const TrailerMaxSize: nat := 500 * 1024 * 1024
  const TrailerTypes: seq<string> := ["video/mp4", "video/quicktime", "video/webm"]

  /** The movie widget takes up to 3 GB and the trailer widget up to 500 MB; every trailer
      type is also a movie type, and AVI is accepted for movies only. */
  lemma UploadLimits()
    ensures MovieMaxSize == 3 * GiB && TrailerMaxSize == 500 * MiB && TrailerMaxSize < MovieMaxSize
    ensures |MovieTypes| == 4 && |TrailerTypes| == 3
    ensures forall t :: t in TrailerTypes ==> t in MovieTypes
    ensures "video/x-msvideo" in MovieTypes && "video/x-msvideo" !in TrailerTypes
    ensures FormatBytes(MovieMaxSize, 2) == "3 GB" && FormatBytes(TrailerMaxSize, 2) == "500 MB"
  {
    FormatThreeGiB();
    FormatFiveHundredMiB();
  }

  // ---------------------------------------------------------------------------
  // Thumbnail derivation

  /** `s` ends in `.ext` where `ext` is non-empty and holds neither '/' nor '.':
      what `/\.[^/.]+$/` finds. */
  predicate HasExtension(s: string) {
    exists k :: 0 <= k < |s| - 1 && s[k] == '.' && forall j :: k < j < |s| ==> s[j] != '/' && s[j] != '.'
  }

  /** `s.replace(/\.[^/.]+$/, ".jpg")`. */
  function ReplaceExtension(s: string): (r: string)
    ensures HasExtension(s) ==> EndsWith(r, ".jpg")
    ensures !HasExtension(s) ==> r == s
  {
    match LastIndexOfChar(s, '.')
    case None => s
    case Some(k) =>
      if k + 1 < |s| && '/' !in s[k + 1..] then
        var r := s[..k] + ".jpg";
        assert r[|r| - 4..] == ".jpg";
        r
      else
        s
  }

  /** With an extension, exactly the extension is replaced. */
  lemma ReplaceExtensionOf(base: string, ext: string)
    requires |ext| > 0 && '/' !in ext && '.' !in ext
    ensures ReplaceExtension(base + "." + ext) == base + ".jpg"
  {
    var s := base + "." + ext;
    assert s[|base|] == '.';
    forall j | |base| < j < |s| ensures s[j] != '.' && s[j] != '/' {
      assert s[j] == ext[j - |base| - 1];
    }
    assert LastIndexOfChar(s, '.') == Some(|base|);
    assert s[|base| + 1..] == ext;
    assert s[..|base|] == base;
  }

  /** The thumbnail URL `handleTrailerUploadComplete` derives from a trailer URL. */
  function DeriveThumbnail(url: string): string {
    ReplaceExtension(ReplaceFirst(url, "trailers", "thumbnails"))
  }

  /** For a trailer the upload route names `/uploads/trailers/<base>.<ext>`, the derived
      thumbnail is the simulated thumbnail URL of `<base>.jpg`. */
  lemma ThumbnailOfSimulatedTrailer(base: string, ext: string)
    requires |ext| > 0 && '/' !in ext && '.' !in ext
    ensures DeriveThumbnail(CreateSimulatedUrl(TrailerKind, base + "." + ext))
      == CreateSimulatedUrl(ThumbnailKind, base + ".jpg")
  {
    var f := base + "." + ext;
    var thumbBase := "/uploads/thumbnails/" + base;
    TrailerDirReplaced(f);
    assert "/uploads/thumbnails/" + f == thumbBase + "." + ext;
    ReplaceExtensionOf(thumbBase, ext);
    SimulatedThumbnailUrl(base);
  }

  /** Renaming the directory of a simulated trailer URL gives the thumbnail directory. */
  lemma TrailerDirReplaced(f: string)
    ensures ReplaceFirst(CreateSimulatedUrl(TrailerKind, f), "trailers", "thumbnails") == "/uploads/thumbnails/" + f
  {
    SimulatedUrlShape(TrailerKind, f);
    FirstTrailersAtNine("/" + f);
    assert "/uploads/" + ("thumbnails" + ("/" + f)) == "/uploads/thumbnails/" + f;
  }

  lemma SimulatedThumbnailUrl(base: string)
    ensures CreateSimulatedUrl(ThumbnailKind, base + ".jpg") == "/uploads/thumbnails/" + base + ".jpg"
  {
  }

  /** In `/uploads/trailers<rest>` the first "trailers" is the directory name. */
  lemma FirstTrailersAtNine(rest: string)
    ensures ReplaceFirst("/uploads/" + ("trailers" + rest), "trailers", "thumbnails") == "/uploads/" + ("thumbnails" + rest)
  {
    var url := "/uploads/" + ("trailers" + rest);
    assert url[9..17] == "trailers";
    assert OccursAt(url, "trailers", 9);
    forall j | 0 <= j < 9 ensures !OccursAt(url, "trailers", j) {
      assert url[j] == "/uploads/"[j] && "/uploads/"[j] in "/uploads/" && 't' !in "/uploads/";
      assert j + 8 <= |url| ==> url[j..j + 8][0] == url[j];
    }
    assert IndexOfFrom(url, "trailers", 0) == Some(9);
    assert url[..9] == "/uploads/";
    assert url[17..] == rest;
  }

  // ---------------------------------------------------------------------------
  // Submitting

  /** Where `handleSubmit` sends the form. */
  datatype Target = EditTarget(movieId: nat) | AddTarget

  /** What the server action gave back: its `error` field and the id of `result.movie`,
      or that the call threw. */
  datatype Reply = Replied(error: Option<string>, movieId: Option<nat>) | ActionThrew

  /** What the router is asked to do afterwards. */
  datatype Navigation = Stay | Refresh | PushAfterDelay(path: string)

  const SavingFailed := "An error occurred while saving the movie. Please try again."
  const Updated := "Movie updated successfully"
  const Added := "Movie added successfully"
  const MovieUploaded := "Movie file uploaded successfully. You can now save the movie."
  const TrailerUploaded := "Trailer uploaded successfully. You can now save the movie."

  /** A `string | null` state is truthy: set and non-empty. */
  predicate Truthy(o: Option<string>) {
    o.Some? && o.value != ""
  }

  /** `formData.set(key, url)` when the uploaded URL is truthy. */
  function Overwrite(form: FormData, key: string, url: Option<string>): (r: FormData)
    ensures Truthy(url) ==> r == form[key := url.value]
    ensures !Truthy(url) ==> r == form
  {
    if Truthy(url) then form[key := url.value] else form
  }

  /** The form data sent to the action: each uploaded URL that is set replaces its field,
      and nothing else changes. */
  function MergeUploads(form: FormData, movieUrl: Option<string>, trailerUrl: Option<string>, thumbnailUrl: Option<string>)
    : (r: FormData)
    ensures forall k :: k !in {"movie_file_url", "trailer_url", "thumbnail_url"} ==> (k in r <==> k in form)
    ensures forall k :: k in form && k !in {"movie_file_url", "trailer_url", "thumbnail_url"} ==> r[k] == form[k]
    ensures Truthy(movieUrl) ==> "movie_file_url" in r && r["movie_file_url"] == movieUrl.value
    ensures !Truthy(movieUrl) ==> ("movie_file_url" in r <==> "movie_file_url" in form)
    ensures !Truthy(movieUrl) && "movie_file_url" in form ==> r["movie_file_url"] == form["movie_file_url"]
    ensures Truthy(trailerUrl) ==> "trailer_url" in r && r["trailer_url"] == trailerUrl.value
    ensures !Truthy(trailerUrl) ==> ("trailer_url" in r <==> "trailer_url" in form)
    ensures !Truthy(trailerUrl) && "trailer_url" in form ==> r["trailer_url"] == form["trailer_url"]
    ensures Truthy(thumbnailUrl) ==> "thumbnail_url" in r && r["thumbnail_url"] == thumbnailUrl.value
    ensures !Truthy(thumbnailUrl) ==> ("thumbnail_url" in r <==> "thumbnail_url" in form)
    ensures !Truthy(thumbnailUrl) && "thumbnail_url" in form ==> r["thumbnail_url"] == form["thumbnail_url"]
  {
    Overwrite(Overwrite(Overwrite(form, "movie_file_url", movieUrl), "trailer_url", trailerUrl), "thumbnail_url", thumbnailUrl)
  }

  class FormState {
    /** The id of the movie being edited, when one is given. */
    const movie: Option<nat>
    const isEditing: bool

    var error: Option<string>
    var success: Option<string>
    var loading: bool
    var movieUrl: Option<string>
    var trailerUrl: Option<string>
    var trailerThumbnailUrl: Option<string>

    constructor (movie: Option<nat>, isEditing: bool)
      ensures this.movie == movie && this.isEditing == isEditing
      ensures error == None && success == None && !loading
      ensures movieUrl == None && trailerUrl == None && trailerThumbnailUrl == None
    {
      this.movie := movie;
      this.isEditing := isEditing;
      error, success, loading := None, None, false;
      movieUrl, trailerUrl, trailerThumbnailUrl := None, None, None;
    }

    /** The first half of `handleSubmit`: clears the messages, sets loading, merges the
        uploaded URLs, and picks edit mode only when editing with a movie at hand. */
    method BeginSubmit(form: FormData) returns (sent: FormData, target: Target)
      modifies this`loading, this`error, this`success
      ensures loading && error == None && success == None
      ensures sent == MergeUploads(form, movieUrl, trailerUrl, trailerThumbnailUrl)
      ensures target == if isEditing && movie.Some? then EditTarget(movie.value) else AddTarget
    {
      loading := true;
      error := None;
      success := None;
      sent := Overwrite(form, "movie_file_url", movieUrl);
      sent := Overwrite(sent, "trailer_url", trailerUrl);
      sent := Overwrite(sent, "thumbnail_url", trailerThumbnailUrl);
      if isEditing && movie.Some? {
        target := EditTarget(movie.value);
      } else {
        target := AddTarget;
      }
    }

    /** The second half of `handleSubmit`. A truthy `error` is shown; otherwise the success
        message follows `isEditing`, and a new movie's edit page is opened after the delay.
        Loading always ends. */
    method FinishSubmit(reply: Reply) returns (nav: Navigation)
      modifies this`loading, this`error, this`success
      ensures !loading
      ensures reply.ActionThrew? ==> error == Some(SavingFailed) && success == old(success) && nav == Stay
      ensures reply.Replied? && Truthy(reply.error) ==> error == reply.error && success == old(success) && nav == Stay
      ensures reply.Replied? && !Truthy(reply.error) ==>
        && error == old(error)
        && success == Some(if isEditing then Updated else Added)
        && nav == (if isEditing then Refresh
                   else if reply.movieId.Some? then PushAfterDelay("/admin/movies/edit/" + NatToString(reply.movieId.value))
                   else Stay)
    {
      nav := Stay;
      match reply {
        case ActionThrew =>
          error := Some(SavingFailed);
        case Replied(e, movieId) =>
          if Truthy(e) {
            error := e;
          } else {
            success := Some(if isEditing then Updated else Added);
            if !isEditing {
              if movieId.Some? {
                nav := PushAfterDelay("/admin/movies/edit/" + NatToString(movieId.value));
              }
            } else {
              nav := Refresh;
            }
          }
      }
      loading := false;
    }

    method HandleMovieUploadComplete(url: string)
      modifies this`movieUrl, this`success
      ensures movieUrl == Some(url) && success == Some(MovieUploaded)
    {
      movieUrl := Some(url);
      success := Some(MovieUploaded);
    }

    /** Records the trailer URL together with the thumbnail derived from it. */
    method HandleTrailerUploadComplete(url: string)
      modifies this`trailerUrl, this`trailerThumbnailUrl, this`success
      ensures trailerUrl == Some(url) && trailerThumbnailUrl == Some(DeriveThumbnail(url))
      ensures success == Some(TrailerUploaded)
    {
      trailerUrl := Some(url);
      trailerThumbnailUrl := Some(DeriveThumbnail(url));
      success := Some(TrailerUploaded);
    }
  }

  /** The reply an action's result gives the form. */
  function ReplyOf(r: Result<Movies.Row>): (reply: Reply)
    ensures reply.Replied?
    ensures r.Ok? ==> reply.error == None && reply.movieId == Some(r.value.id)
    ensures r.Err? ==> reply.error == Some(r.message) && reply.movieId == None
    ensures Truthy(reply.error) <==> r.Err? && r.message != ""
  {
    match r
    case Ok(row) => Replied(None, Some(row.id))
    case Err(e) => Replied(Some(e), None)
  }

  /** A fresh form submitted and answered by an action's result: a saved movie shows the
      mode's success message (and a new one opens its edit page), a failure with a message
      shows that message and stays; a failure with an empty message is not truthy, so the
      form takes the success path without a movie to open. */
  method SubmitOutcome(r: Result<Movies.Row>, isEditing: bool)
    returns (nav: Navigation, error: Option<string>, success: Option<string>)
    ensures r.Ok? ==> error == None && success == Some(if isEditing then Updated else Added)
    ensures r.Ok? ==> nav == (if isEditing then Refresh else PushAfterDelay("/admin/movies/edit/" + NatToString(r.value.id)))
    ensures r.Err? && r.message != "" ==> error == Some(r.message) && success == None && nav == Stay
    ensures r.Err? && r.message == "" ==>
      error == None && success == Some(if isEditing then Updated else Added) && nav == (if isEditing then Refresh else Stay)
  {
    var state := new FormState(None, isEditing);
    var reply := ReplyOf(r);
    nav := state.FinishSubmit(reply);
    error, success := state.error, state.success;
  }

  /** After an upload of trailer `base.ext` the form sends both the trailer URL and the
      thumbnail derived from it, whatever the form held before. */
  method UploadTrailerThenSubmit(form: FormData, base: string, ext: string)
    returns (sent: FormData, target: Target)
    requires |ext| > 0 && '/' !in ext && '.' !in ext
    ensures "trailer_url" in sent && sent["trailer_url"] == CreateSimulatedUrl(TrailerKind, base + "." + ext)
    ensures "thumbnail_url" in sent && sent["thumbnail_url"] == CreateSimulatedUrl(ThumbnailKind, base + ".jpg")
    ensures target == AddTarget
  {
    var state := new FormState(None, true);
    var url := CreateSimulatedUrl(TrailerKind, base + "." + ext);
    state.HandleTrailerUploadComplete(url);
    ThumbnailOfSimulatedTrailer(base, ext);
    sent, target := state.BeginSubmit(form);
  }
}
