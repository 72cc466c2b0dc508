# movie-website-4 — a verified model of its decision and state-update logic

The site is a Next.js movie catalogue with an admin area. Admins sign in, add and edit movies and
trailers, and upload video files. Visitors browse movies and genres and watch trailers. This
project models the parts of the site that decide things:

- the upload widget's seven-field session and its progress timer (`FileUpload`);
- the upload helpers: size and type checks, chunk size, unique file names, simulated storage
  URLs, and the unit choice of `formatBytes` (`UploadLib`);
- the movie and trailer tables and their queries, including the parameterised `UPDATE`
  statement (`Movies`);
- the server actions behind the admin forms, over that store and a response cookie jar
  (`AdminActions`);
- the movie form: merging uploaded URLs, deriving the trailer thumbnail, and the submit
  states (`MovieForm`);
- the genre page's count-and-sort (`Genres`);
- the request gate for admin pages and the API (`Middleware`);
- the trailer player's embed-URL resolution (`TrailerPlayer`);
- the admin trailer list with its thumbnail fallback and confirm-gated delete (`TrailerList`);
- the movie upload endpoint (`UploadRoute`);
- the login endpoint, including its fail-open fallback (`LoginRoute`).

Two modules support the rest. `Wrappers` holds `Option` and `Result`. `JsText` gives the
JavaScript string operations the source relies on: `includes`, `indexOf`, `lastIndexOf`,
`startsWith`/`endsWith`, `trim` with JavaScript's whitespace set, a first-match `replace`,
decimal `parseInt` and decimal rendering of integers.

How the outside world appears in the model:

- The database appears in two forms. `Movies.Store` is a class holding the two tables as
  sequences of rows. Each query takes a `fault: Option<string>`; `Some(m)` means the query
  throws with message `m`.
- The password check (`authenticateAdmin`) is a parameter `AuthOutcome`: an admin, none, or a
  throw.
- Each cookie jar is a `CookieJar` object.
- The clock and the random text of `generateUniqueFilename` are parameters.
- The fetch in the upload widget is split in two: `BeginUpload`, then `FinishUpload`, which
  receives the server's answer (`FetchOutcome`).
- The 500 ms timer is a `Tick` method.
- Progress is kept in half-percent units (0..198 stands for 0..99%), so the +0.5 step is exact.

## Model

| member | source | states |
|---|---|---|
| UploadLib.UnitIndex | lib/upload.ts:11 | the unit index of a positive size is the i with 1024^i ≤ bytes < 1024^(i+1) |
| UploadLib.UnitIndexUnique | lib/upload.ts:11 | that i is unique: any i bracketing the size is the one chosen |
| UploadLib.WholeUnits | lib/upload.ts:4-14 | m·1024^i bytes with 1 ≤ m < 1024 print as "m" and the i-th unit name, with no fraction, for any decimals up to 100 (negative decimals count as 0) |
| UploadLib.FormatThousandBytes | lib/upload.ts:4-14 | 0 prints "0 Bytes"; 1000 bytes stay in Bytes ("1000 Bytes") |
| UploadLib.FormatThreeGiB | lib/upload.ts:4-14 | 3·1024³ bytes print "3 GB" |
| UploadLib.FormatFiveHundredMiB | lib/upload.ts:4-14 | 500·1024² bytes print "500 MB" |
| UploadLib.StripTrailingZeros | lib/upload.ts:13 | the parseFloat clean-up keeps a prefix of the toFixed digits that does not end in '0', and everything it drops is a '0' |
| UploadLib.GenerateUniqueFilename | lib/upload.ts:17-23 | the name is exactly timestamp + "-" + random, a dot, and the original extension: it starts with that prefix and dot, its length is theirs plus the extension's, and the text after its last dot is the text after the original name's last dot (the whole name when it has none) |
| UploadLib.LastDotBeforeSuffix | lib/upload.ts:17-23 | appending "." and a dot-free extension makes that extension the text after the last dot |
| UploadLib.EmptyTypeListRejectsAll | lib/upload.ts:26-28 | an empty allowed-type list accepts no file |
| UploadLib.CalculateChunkSize | lib/upload.ts:36-49 | the chunk size is always 1, 2 or 5 MiB |
| UploadLib.ChunkSizeMonotone | lib/upload.ts:36-49 | the chunk size never decreases as the file grows; the steps are strict, at 100 MiB (1→2 MiB) and at 1 GiB (2→5 MiB) |
| UploadLib.CreateSimulatedUrl | lib/upload.ts:52-56 | the URL starts with "/uploads/" and ends with "/" + filename |
| UploadLib.SimulatedUrlShape | lib/upload.ts:52-56 | the URL is exactly "/uploads/" + the kind's directory + "/" + filename |
| UploadLib.SimulatedUrlDirsDistinct | lib/upload.ts:52-56 | equal URLs come from the same kind and the same file name: different (kind, name) pairs give different URLs |
| FileUpload.NextProgress | components/ui/file-upload.tsx:166-167 | one timer step never lowers progress, raises it while below 99% and never passes 99% |
| FileUpload.ProgressFollowsSchedule | components/ui/file-upload.tsx:161-170 | from 0%, k ticks give the tiered schedule: 6 steps of 5%, 10 of 3%, 30 of 1%, 18 of 0.5%, then 99% |
| FileUpload.ReachesCapAfter64Ticks | components/ui/file-upload.tsx:161-170 | 63 ticks are still below 99%, and 64 or more reach exactly 99% |
| FileUpload.SelectionError | components/ui/file-upload.tsx:57-70 | a file is accepted iff (the limit is 0 or size ≤ limit) and (no types are listed or its type is listed); an oversized file gets the size message even when its type is wrong too; a file within the limit whose type is not listed gets "Invalid file type. Allowed types: " and the list joined with ", "; every error is non-empty |
| FileUpload.SizeBoundInclusive | components/ui/file-upload.tsx:57-62 | a file exactly at the limit passes; one byte more is refused with the size message |
| FileUpload.OrUploadFailed | components/ui/file-upload.tsx:152-154 | a non-empty message is kept as it is; an empty one becomes "Upload failed"; the result is never empty |
| FileUpload.Classify | components/ui/file-upload.tsx:103-154 | the upload completes iff the response is OK, parses, and carries a non-empty url, and then completes with that url; a network failure shows its message or "Upload failed"; a non-OK response shows the message read from it; an OK response that does not parse shows "Invalid response format from server", one without a url "No URL returned from server"; no failure is without a message |
| FileUpload.ErrorResponseMessages | components/ui/file-upload.tsx:109-133 | the message for a non-OK response: for a JSON response its error field, or "Upload failed with status N" when it has none or does not parse; otherwise the HTML-page text, else a short body, else "Upload failed" for an empty body, else "Upload failed with status N" |
| FileUpload.UploadSession.constructor | components/ui/file-upload.tsx:22-40 | the session starts in its initial state; the size limit defaults to 3 GiB |
| FileUpload.UploadSession.HandleFileChange | components/ui/file-upload.tsx:44-74 | error, uploadComplete and progress are reset first; the file is kept iff it passes the checks, and then it is passed on; uploading, uploadUrl and isPaused stay |
| FileUpload.UploadSession.HandleRemoveFile | components/ui/file-upload.tsx:76-88 | all seven fields return to their initial values, and the change callback is given null |
| FileUpload.UploadSession.BeginUpload | components/ui/file-upload.tsx:90-95 | with no file nothing changes; otherwise uploading is set, error cleared and progress 0 |
| FileUpload.UploadSession.FinishUpload | components/ui/file-upload.tsx:96-157 | uploading always ends false; success sets uploadComplete and uploadUrl and hands the url on once; failure sets the classified message; progress is not touched |
| FileUpload.UploadSession.Tick | components/ui/file-upload.tsx:161-170 | progress advances one step only while uploading, not complete, without error and not paused; it never decreases |
| FileUpload.UploadSession.TogglePause | components/ui/file-upload.tsx:255 | the pause flag flips and nothing else changes |
| FileUpload.LateResponseAfterCancel | components/ui/file-upload.tsx:76-157 | a response arriving after the file was removed still completes the upload and hands on its url |
| FileUpload.SelectThenUpload | components/ui/file-upload.tsx:44-95 | a selected file is sent iff it passes the selection checks, and the file sent is that file |
| Movies.CreateMovieParams | lib/movies.ts:48-58 | createMovie binds one parameter per column, seven in all |
| Movies.CreateTrailerParams | lib/movies.ts:117-127 | createTrailer binds one parameter per column, four in all |
| Movies.InsertBindsColumnsInOrder | lib/movies.ts:48-58 | the i-th parameter is the value stored in the i-th column (title, description, release_year, genre, director, poster_url, movie_file_url); the same holds for trailers |
| Movies.UpdateStatement | lib/movies.ts:76-86 | the SQL opens with "UPDATE movies SET " and the SET clause of the keys; the parameters are the values in key order followed by the id; the SQL ends with "WHERE id = $(n+1) RETURNING *" |
| Movies.Assign | lib/movies.ts:76-86 | the updated row has exactly its old columns plus the assigned ones; a column not assigned keeps its value |
| Movies.AssignLastWins | lib/movies.ts:76-86 | a column assigned more than once ends with its last assignment |
| Movies.SetClauseRoundTrip | lib/movies.ts:76 | reading the SET clause back gives each key paired with placeholder i+1, in order, exactly once each |
| Movies.ParseSetItemRoundTrip | lib/movies.ts:76 | one "key = $n" item reads back as (key, n) |
| Movies.SplitJoin | lib/movies.ts:76 | splitting the ", "-joined items at commas gives back the items |
| Movies.FindById | lib/movies.ts:37-45 | a row found has the id and is in the table; none found means no row has it |
| Movies.WithoutId | lib/movies.ts:96-104 | exactly the rows with another id remain |
| Movies.WithoutIdKeepsOrder | lib/movies.ts:96-104 | deleting keeps the ids in increasing order |
| Movies.TrailersOf | lib/movies.ts:107-114 | exactly the trailers whose movie_id is the movie's id, never more rows than the table |
| Movies.TrailersOfKeepsOrder | lib/movies.ts:107-114 | filtering keeps the trailers' ids in increasing order |
| Movies.Reverse | lib/movies.ts:26-34 | the rows in reverse insertion order (newest first) |
| Movies.Store.GetAllMovies | lib/movies.ts:26-34 | newest first, with ids strictly decreasing; a failing query gives [] rather than throwing |
| Movies.Store.GetMovieById | lib/movies.ts:37-45 | some row iff the table holds the id; none on a failing query |
| Movies.Store.GetTrailersForMovie | lib/movies.ts:107-114 | the movie's trailers, newest first with ids strictly decreasing; [] on a failing query |
| Movies.Store.CreateMovie | lib/movies.ts:48-65 | appends one row with a fresh id and returns it; a failure is rethrown and changes nothing |
| Movies.Store.UpdateMovie | lib/movies.ts:68-93 | no fields: "No fields to update" and no query issued; otherwise the statement issued is UpdateStatement, the row is updated and returned; a failure is rethrown and changes nothing |
| Movies.Store.DeleteMovie | lib/movies.ts:96-104 | removes the rows with the id and returns the id, or none when no row had it; a failure is rethrown and changes nothing |
| Movies.Store.CreateTrailer | lib/movies.ts:117-134 | appends one trailer row with a fresh id and returns it; a failure is rethrown and changes nothing |
| Movies.Store.DeleteTrailer | lib/movies.ts:137-145 | removes the trailer rows with the id and returns the id, or none; a failure is rethrown and changes nothing |
| AdminActions.Field | app/actions/admin-actions.ts:56-72 | a form field is null exactly when it is absent, and otherwise is the submitted text |
| AdminActions.ParsedValue | app/actions/admin-actions.ts:58-64 | parseInt gives NaN exactly when no decimal digits lead the text, and otherwise the parsed integer |
| AdminActions.ParsedLeadingDigits | app/actions/admin-actions.ts:58-64 | a year typed as digits, possibly followed by other text, is the number those digits denote; String(n) reads back as n |
| JsText.ParseIntLeadingDigits | app/actions/admin-actions.ts:58-64 | parseInt of a run of digits followed by a non-digit (or nothing) is the value of the digits |
| AdminActions.CookieJar.SetSession | app/actions/admin-actions.ts:28-33 | admin_id is set HTTP-only on "/" for one week (604800 s), secure in production; other cookies stay |
| AdminActions.CookieJar.Delete | app/actions/admin-actions.ts:48-51 | only the named cookie is removed |
| AdminActions.LoginError | app/actions/admin-actions.ts:9-45 | success iff both fields are filled and the authenticator returns an admin; an empty field gives "Username and password are required" whatever the authenticator would say; none gives "Invalid username or password"; a throw gives "Failed to log in" |
| AdminActions.AdminLogin | app/actions/admin-actions.ts:9-45 | on success the session cookie holds the admin's id; on every failure no cookie changes |
| AdminActions.AdminLogout | app/actions/admin-actions.ts:48-51 | the session cookie is gone and the admin is sent to "/admin/login" |
| AdminActions.AddMovieError | app/actions/admin-actions.ts:58-80 | the year is checked first: an empty or non-numeric year gives the year error even with no title; the title error comes only with a valid year |
| AdminActions.NewMovie | app/actions/admin-actions.ts:83-91 | the parsed year and the title are stored; description, genre, director and poster URL are the form's text or null when absent; an empty movie file URL is stored as null |
| AdminActions.MovieTrailer | app/actions/admin-actions.ts:94-101 | the trailer is titled "<title> - Trailer", uses the trailer URL and the thumbnail or "" |
| AdminActions.AddMovie | app/actions/admin-actions.ts:54-113 | invalid forms and store failures change nothing; a movie is created, and a trailer exactly when a trailer URL is given; a failing trailer insert leaves the movie in place |
| AdminActions.FilledFieldsExact | app/actions/admin-actions.ts:132-140 | the update keys are exactly the listed columns whose form value is non-empty, in column order, each with its form value |
| AdminActions.UpdateFieldsExact | app/actions/admin-actions.ts:132-140 | for editMovie's seven columns: exactly the filled ones, without repeats, never trailer_url or thumbnail_url |
| AdminActions.CollectUpdateFields | app/actions/admin-actions.ts:132-140 | the field-by-field fill produces exactly those update fields |
| AdminActions.EditMovie | app/actions/admin-actions.ts:116-170 | no filled field: "No fields to update" and no change; a store failure: "Failed to update movie"; otherwise the row is updated and a trailer added exactly when a trailer URL is given |
| AdminActions.RemoveMovie | app/actions/admin-actions.ts:173-186 | success iff the delete does not throw, and then the movie's rows are gone; otherwise "Failed to delete movie" and no change |
| AdminActions.AddTrailerError | app/actions/admin-actions.ts:191-200 | refused iff movie_id parses to NaN or 0 or video_url is empty, always with "Movie ID and video URL are required" |
| AdminActions.MissingMovieIdRejected | app/actions/admin-actions.ts:191-200 | a form without movie_id is refused |
| AdminActions.AddTrailer | app/actions/admin-actions.ts:189-219 | a refused form or a store failure creates nothing; otherwise one trailer row with the parsed movie id is appended |
| AdminActions.RemoveTrailer | app/actions/admin-actions.ts:222-235 | success iff the delete does not throw, and then the trailer's rows are gone; otherwise "Failed to delete trailer" and no change |
| MovieForm.UploadLimits | components/admin/movie-form.tsx:170-201 | movies allow 3 GiB and four types, trailers 500 MiB and three of them (not AVI); the limits print as "3 GB" and "500 MB" |
| MovieForm.ReplaceExtension | components/admin/movie-form.tsx:90 | a name with an extension ends in ".jpg"; a name without one is unchanged |
| MovieForm.ReplaceExtensionOf | components/admin/movie-form.tsx:90 | "base.ext" becomes "base.jpg" |
| MovieForm.TrailerDirReplaced | components/admin/movie-form.tsx:90 | in a simulated trailer URL the first "trailers" is the directory, which becomes "thumbnails" |
| MovieForm.ThumbnailOfSimulatedTrailer | components/admin/movie-form.tsx:86-92 | the thumbnail derived from the URL of an uploaded trailer "base.ext" is the simulated thumbnail URL of "base.jpg" |
| MovieForm.MergeUploads | components/admin/movie-form.tsx:37-47 | the three upload fields take the uploaded URLs that are set; every other field is unchanged |
| MovieForm.FormState.constructor | components/admin/movie-form.tsx:21-28 | no messages, not loading, no uploaded URLs |
| MovieForm.FormState.BeginSubmit | components/admin/movie-form.tsx:31-56 | loading set, messages cleared, the merged form sent; edit mode only when editing with a movie at hand |
| MovieForm.FormState.FinishSubmit | components/admin/movie-form.tsx:58-78 | loading always ends; a thrown action gives the fixed saving message; a returned error is shown; otherwise the success message follows the mode, and a new movie's edit page opens after the delay |
| MovieForm.FormState.HandleMovieUploadComplete | components/admin/movie-form.tsx:81-84 | records the movie URL and the success message |
| MovieForm.FormState.HandleTrailerUploadComplete | components/admin/movie-form.tsx:86-92 | records the trailer URL with its derived thumbnail and the success message |
| MovieForm.ReplyOf | components/admin/movie-form.tsx:58-61 | a saved movie gives no error and its id; a failure gives its message and no id; the error is truthy iff the action failed with a non-empty message |
| MovieForm.SubmitOutcome | components/admin/movie-form.tsx:58-78 | a saved movie shows the mode's success message and then refreshes (editing) or opens its edit page (adding); a failure with a message shows it and stays; a failure with an empty message takes the success path with nowhere to go |
| MovieForm.UploadTrailerThenSubmit | components/admin/movie-form.tsx:31-92 | after a trailer upload, the form sends the trailer URL and the matching thumbnail URL whatever it held before |
| Genres.SplitOnCommaSpace | app/genres/page.tsx:15 | one piece more than there are commas; text without a comma is its own single piece; no piece holds a comma and none after the first starts with white space; the first piece is a prefix of the text |
| Genres.SplitJoinRoundTrip | app/genres/page.tsx:15 | splitting undoes a ", " join of comma-free items none of which but the first starts with white space |
| Genres.SplitOnCommaSpaceBySplit | app/genres/page.tsx:15 | splitting on a comma and the white space after it gives the pieces of a plain comma split, the same number of them, each after the first with its leading white space removed |
| Genres.SplitOnCommaTrimStart | app/genres/page.tsx:15 | dropping leading white space before a comma split only shortens the first piece |
| Genres.Kept | app/genres/page.tsx:17-19 | every kept token is non-empty and trimmed |
| Genres.KeptMembers | app/genres/page.tsx:17-19 | a token is kept iff it is non-empty and is the trimmed text of some piece; there are no more tokens than pieces |
| Genres.KeptIsNonEmptyTrims | app/genres/page.tsx:17-19 | the tokens are the trimmed pieces with the empty ones filtered out, in order, so each genre occurs among the tokens exactly as often as among the trimmed pieces |
| Genres.NonEmpty | app/genres/page.tsx:19 | the filter keeps every non-empty text as often as it occurs and drops every empty one |
| Genres.TrimAllAt | app/genres/page.tsx:18 | the i-th trimmed piece is the i-th piece trimmed |
| Genres.TokensOfJoin | app/genres/page.tsx:15-19 | a genre text written as "A, B, C" names exactly A, B and C, for trimmed, non-empty, comma-free names |
| Genres.TokensBySplit | app/genres/page.tsx:15-19 | for any genre text, the tokens are the trimmed, non-empty pieces of its plain comma split |
| Genres.Increment | app/genres/page.tsx:20 | one counted token gives the tally of one more occurrence |
| Genres.CountPieces | app/genres/page.tsx:17-22 | the inner loop adds the kept tokens of one genre string to the tally |
| Genres.CountGenres | app/genres/page.tsx:12-24 | the nested loops compute the tally of all kept tokens of all movies |
| Genres.FoldCounts | app/genres/page.tsx:12-24 | the keys are exactly the tokens, without repeats; each count is the token's number of occurrences and is at least 1; the counts sum to the number of tokens |
| Genres.NoGenreNoTokens | app/genres/page.tsx:13 | a movie with no genre adds nothing |
| Genres.KeysAreClean | app/genres/page.tsx:18-20 | every key is non-empty and trimmed with a count of at least 1 |
| Genres.InsertByCount | app/genres/page.tsx:27 | inserting into a list in non-increasing count order keeps that order and adds exactly that entry |
| Genres.SortByCount | app/genres/page.tsx:27 | the result is in non-increasing count order and is a permutation of the entries |
| Genres.CountLabel | app/genres/page.tsx:50 | the label starts with the count and a space, and ends in " movie" iff the count is 1 and in " movies" otherwise |
| Genres.NoTokensNoKeys | app/genres/page.tsx:36-38 | there are no genres iff there are no tokens |
| Genres.RenderGenres | app/genres/page.tsx:12-50 | the empty message iff no movie has a genre token; otherwise the cards of the sorted counts |
| Middleware.Decide | middleware.ts:8-39 | redirect to the login page iff the path is guarded and there is no (non-empty) session; to the dashboard iff it is the login page with a session; API paths pass with the three CORS headers, other paths with none; never a redirect to the same path |
| Middleware.CookieValueUnchecked | middleware.ts:10-15 | any two non-empty cookie values get the same decision |
| Middleware.EmptyCookieIsNoCookie | middleware.ts:10-15 | an empty cookie counts as no cookie |
| Middleware.ApiNeverRedirected | middleware.ts:28-37 | every API path passes with the CORS headers, signed in or not |
| Middleware.RedirectSettles | middleware.ts:8-25 | following a redirect with the same cookie leads to a page that is let through |
| TrailerPlayer.YouTubeId | components/trailer-player.tsx:18-20 | a captured id is 11 characters from the allowed set, and comes only from a URL with "youtube.com/" or "youtu.be/" |
| TrailerPlayer.VimeoId | components/trailer-player.tsx:27-29 | a captured id is a non-empty run of digits, from a URL with "vimeo.com/" |
| TrailerPlayer.EmbedAfter | components/trailer-player.tsx:14-38 | the YouTube test comes first, then Vimeo, then the URL itself; with no id the previous embed stays |
| TrailerPlayer.Render | components/trailer-player.tsx:40-55 | "Loading trailer..." iff the embed is empty; a video element iff it ends in ".mp4"; otherwise an iframe of the embed |
| TrailerPlayer.YouTubeTestFirst | components/trailer-player.tsx:16-25 | a URL that names both sites is treated as YouTube |
| TrailerPlayer.NoIdLoads | components/trailer-player.tsx:16-42 | a YouTube or Vimeo URL with no id shows "Loading trailer..." |
| TrailerPlayer.DirectUrlPlayed | components/trailer-player.tsx:34-55 | any other non-empty URL is played as is, in a video element iff it ends in ".mp4" |
| TrailerPlayer.ShortLinkId | components/trailer-player.tsx:16-24 | "https://youtu.be/ID" yields ID and its embed URL |
| TrailerPlayer.WatchLinkId | components/trailer-player.tsx:16-24 | "https://www.youtube.com/watch?v=ID" yields ID and its embed URL |
| TrailerPlayer.EmbedLinkId | components/trailer-player.tsx:16-24 | "https://www.youtube.com/embed/ID" yields ID and its embed URL |
| TrailerPlayer.VimeoLinkId | components/trailer-player.tsx:25-33 | "https://vimeo.com/DIGITS" yields DIGITS |
| TrailerPlayer.IdLinkEmbeds | components/trailer-player.tsx:16-24 | a YouTube URL whose id is found plays the embed URL of that id |
| TrailerList.YouTubeThumbnail | components/admin/trailer-list.tsx:45-55 | the placeholder iff no YouTube id is found; otherwise the image URL that holds the id |
| TrailerList.ThumbnailSrc | components/admin/trailer-list.tsx:63 | a non-empty stored thumbnail wins; otherwise the derived one; never empty |
| TrailerList.TitleOr | components/admin/trailer-list.tsx:64-73 | the alt text and the heading: a non-empty title wins, else the fixed word ("Trailer thumbnail", "Trailer"); never empty |
| TrailerList.DeleteButton | components/admin/trailer-list.tsx:81-85 | disabled iff its trailer is being deleted, and then it reads "Deleting..." |
| TrailerList.Render | components/admin/trailer-list.tsx:20-24 | the empty message iff there are no trailers; otherwise one card per trailer in order |
| TrailerList.TrailerListView.BeginDelete | components/admin/trailer-list.tsx:26-33 | nothing happens unless confirmed; then the trailer's id is loading |
| TrailerList.TrailerListView.FinishDelete | components/admin/trailer-list.tsx:35-41 | loading ends; a refresh on success, an alert otherwise |
| TrailerList.TrailerListView.HandleDelete | components/admin/trailer-list.tsx:26-42 | unconfirmed: no call and no change; confirmed: the trailer is removed (or an alert and no change) and loading ends |
| TrailerList.DeleteButtons | components/admin/trailer-list.tsx:26-42 | during a removal exactly that trailer's cards show a disabled "Deleting..." button; afterwards every button reads "Delete" |
| TrailerList.YouTubeLinksThumbnail | components/admin/trailer-list.tsx:45-52 | the three common YouTube links get the thumbnail of their id |
| TrailerList.ThumbnailMatchesPlayer | components/admin/trailer-list.tsx:45-52 | the list's thumbnail and the player's embed use the same id |
| TrailerList.VimeoLinkPlaceholder | components/admin/trailer-list.tsx:45-55 | a Vimeo link gets the placeholder |
| UploadRoute.Post | app/api/upload/movie/route.ts:7-50 | 401 "Unauthorized" iff there is no session, before the body is read; 400 "No file provided"; 200 iff a file is stored; a throw gives 500 with its message or "Upload failed" |
| UploadRoute.UploadedUrl | app/api/upload/movie/route.ts:23-40 | the reply holds the unique name, the file's size and the simulated movie URL of that name, which keeps the file's extension |
| LoginRoute.Login | app/api/admin/login/route.ts:5-82 | a sign-in iff the credentials are exactly admin/password123 and the lookup finds a row or fails; a failed lookup signs in admin 2 as super-admin with a warning; no row or other credentials give 401; a malformed body gives 500; a cookie is set iff signed in |
| LoginRoute.Post | app/api/admin/login/route.ts:24-29 | on sign-in the session cookie holds the id for 604800 s; otherwise no cookie changes |
| LoginRoute.SignInPassesGate | app/api/admin/login/route.ts:40-61 | every sign-in, the fail-open one included, sets a cookie that opens every admin page |

## Left out

- Floating point: `formatBytes` is computed with exact arithmetic. The unit is the exact floor
  of log base 1024 rather than `Math.floor(Math.log(...)/Math.log(1024))`, and rounding is half-up
  on the exact value. Only whole multiples of a unit are proved to print exactly.
- FormatBytes: `toFixed` throws a RangeError for more than 100 digits. The model takes
  `decimals <= 100` as a precondition rather than modelling the throw.
- The displayed byte and percentage rounding in the widget is presentation and is not modelled.
- Timers: the 500 ms interval, the 1500 ms redirect delay and the 1000 ms simulated upload delay.
  A tick is a method call. The delayed navigation is a `PushAfterDelay` value.
- Async interleaving: `handleUpload` is two steps. The model does not capture a tick or a pause
  arriving in between, except through the separate methods.
- The widget does not set progress to 100% on success. After a cancel, a late response still
  completes the upload and calls the callback. Selecting a file does not clear `uploadUrl`. The
  model keeps all three as the code has them.
- `parseInt`: only the decimal subset (leading whitespace, optional sign, longest digit prefix).
  Hexadecimal "0x" prefixes are not modelled. The result is an exact integer, so the loss of
  precision of `Number.parseInt` above 2^53 is not modelled.
- FormData is a single-valued map. The movie form has two inputs named `trailer_url` (the visible
  one and the hidden one). `get` reads the first and `set` replaces both, so a single-valued map
  gives the same answers; the second entry itself is not modelled.
- String lengths count characters, not UTF-16 code units. Regexes are modelled only for the
  fixed YouTube and Vimeo patterns, with their backtracking written out.
- `Object.entries` puts integer-like keys first in JavaScript; `Genres.Entries` uses insertion
  order. Keys such as `__proto__` are not treated specially.
- Genres.SortByCount: ordered and a permutation, but stability (the order of equal counts) is
  not proved.
- The genre card's link (`encodeURIComponent` of the genre) is not modelled.
- The exact whitespace of the SQL text is not modelled beyond the SET clause and the `WHERE`
  tail. Database cascades on delete (trailers of a deleted movie) are not modelled.
- `Movies.Store.UpdateMovie` applies repeated keys in order; the database's own handling of a
  repeated column is not modelled.
- `created_at DESC` ordering is modelled as reverse insertion order. Neither `created_at` nor
  `updated_at` is kept in a row, so the timestamp the update sets is not modelled.
- TrailerPlayer.EmbedAfter: the model keeps the previous embed when no id is found, as the
  effect does. The player starts from an empty embed, which is what `EmbedUrl` uses.
- Middleware: the route matcher configuration is not modelled (the decision applies to every
  path given). Redirect targets are paths, not absolute URLs.
- UploadRoute.Post: a "file" field sent as a plain string is not modelled. The body is either a
  file or absent.
- Throws of non-`Error` values are modelled as their fallback messages. JSON bodies that are not
  objects count as unparsable.
- The login route's console logging is not modelled.
- `TrailerList.Trailer` holds only the fields the list reads, not the whole database row.
- lib/db.ts (the connection pool) is not part of this model. Each query is an oracle answer.
- lib/admin-auth.ts (bcrypt comparison and the admin lookup) is not part of this model. Its
  answer is the `AuthOutcome` parameter.
- Pages and presentational components (home, movie list, dashboard, login page, the add, edit
  and trailer pages, header, cards, navigation, trailer form) compose the modelled pieces and
  are not modelled.
