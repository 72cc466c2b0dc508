/**
 * The movie upload endpoint (app/api/upload/movie/route.ts): it checks the session
 * cookie, reads the "file" field of the multipart body, and answers with a simulated
 * storage URL built from a fresh unique name. The clock and the random text of the
 * unique name are parameters, and so is what reading the body gives.
 */
module UploadRoute {
  import opened Wrappers
  import opened JsText
  import opened UploadLib

  /** A file part of the body: its name and its size in bytes. */
  datatype UploadedFile = UploadedFile(name: string, size: nat)

  /** What reading the body gives: the "file" entry (absent when there is none), or a
      throw, with a message when the thrown value is an `Error`. */
  datatype BodyOutcome = Parsed(file: Option<UploadedFile>) | ThrewError(message: string) | ThrewOther

  /** The JSON the endpoint answers with. */
  datatype Reply =
    | Failure(error: string)
    | Uploaded(url: string, filename: string, size: nat)

  datatype Response = Response(status: nat, reply: Reply)

  /** `POST`: `adminId` is the value of the `admin_id` cookie; an empty value counts as no
      session. */
  function Post(adminId: Option<string>, body: BodyOutcome, timestamp: nat, random: string): (r: Response)
    ensures r.status == 401 <==> adminId.None? || adminId.value == ""
    ensures r.status == 401 ==> r.reply == Failure("Unauthorized")
    ensures r.status == 200 <==> r.reply.Uploaded?
    ensures r.reply.Uploaded? <==> r.status != 401 && body.Parsed? && body.file.Some?
    ensures r.status != 401 && body == Parsed(None) ==> r == Response(400, Failure("No file provided"))
    ensures r.status != 401 && body.ThrewError? ==> r == Response(500, Failure(body.message))
    ensures r.status != 401 && body.ThrewOther? ==> r == Response(500, Failure("Upload failed"))
  {
    if adminId.None? || adminId.value == "" then Response(401, Failure("Unauthorized"))
    else match body
      case ThrewError(message) => Response(500, Failure(message))
      case ThrewOther => Response(500, Failure("Upload failed"))
      case Parsed(None) => Response(400, Failure("No file provided"))
      case Parsed(Some(file)) =>
        var unique := GenerateUniqueFilename(file.name, timestamp, random);
        Response(200, Uploaded("/uploads/movies/" + unique, unique, file.size))
  }

  /** A successful upload reports the unique name, the file's own size, the URL that
      `createSimulatedUrl` gives a movie of that name, and keeps the file's extension. */
  lemma UploadedUrl(adminId: string, file: UploadedFile, timestamp: nat, random: string)
    requires adminId != ""
    ensures var r := Post(Some(adminId), Parsed(Some(file)), timestamp, random);
      var unique := GenerateUniqueFilename(file.name, timestamp, random);
      && r.reply == Uploaded(CreateSimulatedUrl(MovieKind, unique), unique, file.size)
      && StartsWith(unique, NatToString(timestamp) + "-" + random + ".")
      && AfterLastDot(r.reply.url) == AfterLastDot(file.name)
  {
    var unique := GenerateUniqueFilename(file.name, timestamp, random);
    MovieUrl(unique);
    MovieUrlExtension(NatToString(timestamp) + "-" + random, AfterLastDot(file.name));
  }

  lemma MovieUrl(f: string)
    ensures CreateSimulatedUrl(MovieKind, f) == "/uploads/movies/" + f
  {
    SimulatedUrlShape(MovieKind, f);
    assert "/uploads/" + ("movies" + ("/" + f)) == "/uploads/movies/" + f;
  }

  lemma MovieUrlExtension(prefix: string, ext: string)
    requires '.' !in ext
    ensures AfterLastDot("/uploads/movies/" + (prefix + "." + ext)) == ext
  {
    assert "/uploads/movies/" + (prefix + "." + ext) == ("/uploads/movies/" + prefix) + "." + ext;
    LastDotBeforeSuffix("/uploads/movies/" + prefix, ext);
  }
}
