/**
 * The upload control (components/ui/file-upload.tsx): seven pieces of component state
 * changed by the selection, remove/cancel, pause and upload handlers and by a progress
 * timer. `handleUpload` is split at its `await`: BeginUpload runs up to the request,
 * FinishUpload receives what the request produced. Callbacks (`onChange`,
 * `onUploadComplete`) become returned values.
 */
module FileUpload {
  import opened Wrappers
  import opened JsText
  import opened UploadLib

  /** The `maxSize` prop's default: 3 GiB. */
  const DefaultMaxSize: nat := 3 * 1024 * 1024 * 1024

  // ---------------------------------------------------------------------------
  // Progress simulation. Progress is counted in half-percent units: 2 units are 1%,
  // so every value the timer can produce is a whole number of units.

  /** 99%, the most the timer ever shows. */
  const ProgressCap: nat := 198

  /** The timer's update: +5% below 30%, +3% below 60%, +1% below 90%, +0.5% otherwise,
      never beyond 99%. */
  function NextProgress(p: nat): (r: nat)
    ensures p <= ProgressCap ==> p <= r <= ProgressCap
    ensures p < ProgressCap ==> p < r
    ensures r <= ProgressCap
  {
    var inc := if p < 60 then 10 else if p < 120 then 6 else if p < 180 then 2 else 1;
    if p + inc < ProgressCap then p + inc else ProgressCap
  }

  /** The progress after `n` uninterrupted ticks starting from `p`. */
  function ProgressAfter(n: nat, p: nat): nat {
    if n == 0 then p else NextProgress(ProgressAfter(n - 1, p))
  }

  /** Closed form of the timer's schedule from 0%: 6 ticks of 5%, 10 of 3%, 30 of 1%,
      then 18 of 0.5%. */
  function Schedule(k: nat): nat {
    if k <= 6 then 10 * k
    else if k <= 16 then 60 + 6 * (k - 6)
    else if k <= 46 then 120 + 2 * (k - 16)
    else if k <= 64 then 180 + (k - 46)
    else ProgressCap
  }

  lemma {:induction false} ProgressFollowsSchedule(k: nat)
    ensures ProgressAfter(k, 0) == Schedule(k)
  {
    if k > 0 {
      ProgressFollowsSchedule(k - 1);
    }
  }

  /** From 0%, the timer reaches its 99% cap after exactly 64 ticks and stays there. */
  lemma ReachesCapAfter64Ticks(k: nat)
    ensures ProgressAfter(63, 0) < ProgressCap
    ensures k >= 64 ==> ProgressAfter(k, 0) == ProgressCap
  {
    ProgressFollowsSchedule(63);
    ProgressFollowsSchedule(k);
  }

  // ---------------------------------------------------------------------------
  // Selection checks

  function SizeErrorMessage(maxSize: nat): string {
    "File size exceeds the maximum allowed size (" + FormatBytes(maxSize, 2) + ")"
  }

  function TypeErrorMessage(allowedTypes: seq<string>): string {
    "Invalid file type. Allowed types: " + Join(allowedTypes, ", ")
  }

  /** The checks `handleFileChange` makes on a selected file, in order: size (skipped when
      `maxSize` is 0), then type (skipped when no types are listed). */
  function SelectionError(file: FileInfo, maxSize: nat, allowedTypes: seq<string>): (r: Option<string>)
    ensures r.None? <==>
      (maxSize == 0 || file.size <= maxSize) && (|allowedTypes| == 0 || file.mediaType in allowedTypes)
    ensures r.Some? ==> r.value != ""
    ensures maxSize > 0 && file.size > maxSize ==> r == Some(SizeErrorMessage(maxSize))
    ensures (maxSize == 0 || file.size <= maxSize) && |allowedTypes| > 0 && file.mediaType !in allowedTypes ==>
      r == Some(TypeErrorMessage(allowedTypes))
  {
    if maxSize != 0 && !ValidateFileSize(file, maxSize) then Some(SizeErrorMessage(maxSize))
    else if |allowedTypes| > 0 && !ValidateFileType(file, allowedTypes) then Some(TypeErrorMessage(allowedTypes))
    else None
  }

  /** A file of exactly the limit passes; one byte more is refused with the size message,
      even when its type is refused too. */
  lemma SizeBoundInclusive(name: string, mediaType: string, maxSize: nat, allowedTypes: seq<string>)
    requires maxSize > 0 && mediaType in allowedTypes
    ensures SelectionError(FileInfo(name, maxSize, mediaType), maxSize, allowedTypes) == None
    ensures SelectionError(FileInfo(name, maxSize + 1, mediaType), maxSize, allowedTypes)
            == Some(SizeErrorMessage(maxSize))
    ensures SelectionError(FileInfo(name, maxSize + 1, mediaType), maxSize, [])
            == Some(SizeErrorMessage(maxSize))
  {
  }

  // ---------------------------------------------------------------------------
  // What the upload request can produce

  /** The fields of a decoded JSON body the handler reads; "" stands for a field that is
      missing or falsy. */
  datatype JsonObject = JsonObject(error: string, url: string)

  /** A response body: its text, and its JSON reading when the text parses as an object. */
  datatype Body = Body(text: string, json: Option<JsonObject>)

  datatype FetchOutcome =
    | NetworkFailure(message: string)
    | HttpResponse(status: nat, contentType: string, body: Body)

  /** `response.ok`. */
  predicate IsOk(status: nat) { 200 <= status <= 299 }

  datatype UploadOutcome = Completed(url: string) | Failed(message: string)

  const HtmlPageMessage: string := "Server returned an HTML error page. Please check server logs."

  function StatusMessage(status: nat): string {
    "Upload failed with status " + NatToString(status)
  }

  /** The message thrown for a non-OK response: the JSON `error` field when the response
      says it is JSON, else a fixed text for an HTML page, else the body when it is short,
      else the status line. A JSON body that does not parse keeps the status line. */
  function ErrorResponseMessage(status: nat, contentType: string, body: Body): string {
    if Contains(contentType, "application/json") then
      match body.json
      case Some(obj) => if obj.error != "" then obj.error else StatusMessage(status)
      case None => StatusMessage(status)
    else if Contains(body.text, "<!DOCTYPE") then HtmlPageMessage
    else if |body.text| < 100 then body.text
    else StatusMessage(status)
  }

  /** `err.message || "Upload failed"`. */
  function OrUploadFailed(message: string): (r: string)
    ensures r != ""
    ensures message != "" ==> r == message
    ensures message == "" ==> r == "Upload failed"
  {
    if message == "" then "Upload failed" else message
  }

  /** How `handleUpload` classifies what its request produced: a network failure keeps its
      own message, a non-OK response the message read from it, an OK response that does not
      parse or names no URL a fixed message; no failure is ever without a message. */
  function Classify(r: FetchOutcome): (o: UploadOutcome)
    ensures o.Failed? ==> o.message != ""
    ensures o.Completed? <==>
      r.HttpResponse? && IsOk(r.status) && r.body.json.Some? && r.body.json.value.url != ""
    ensures o.Completed? ==> o.url == r.body.json.value.url
    ensures r.NetworkFailure? ==> o == Failed(OrUploadFailed(r.message))
    ensures r.HttpResponse? && !IsOk(r.status) ==>
      o == Failed(OrUploadFailed(ErrorResponseMessage(r.status, r.contentType, r.body)))
    ensures r.HttpResponse? && IsOk(r.status) && r.body.json.None? ==>
      o == Failed("Invalid response format from server")
    ensures r.HttpResponse? && IsOk(r.status) && r.body.json.Some? && r.body.json.value.url == "" ==>
      o == Failed("No URL returned from server")
  {
    match r
    case NetworkFailure(m) => Failed(OrUploadFailed(m))
    case HttpResponse(status, contentType, body) =>
      if !IsOk(status) then Failed(OrUploadFailed(ErrorResponseMessage(status, contentType, body)))
      else if body.json.None? then Failed("Invalid response format from server")
      else if body.json.value.url == "" then Failed("No URL returned from server")
      else Completed(body.json.value.url)
  }

  /** The error messages of a failed (non-OK) response, case by case. */
  lemma ErrorResponseMessages(status: nat, contentType: string, body: Body)
    requires !IsOk(status)
    ensures Contains(contentType, "application/json") && body.json.Some? && body.json.value.error != "" ==>
      Classify(HttpResponse(status, contentType, body)) == Failed(body.json.value.error)
    ensures Contains(contentType, "application/json") && (body.json.None? || body.json.value.error == "") ==>
      Classify(HttpResponse(status, contentType, body)) == Failed(StatusMessage(status))
    ensures !Contains(contentType, "application/json") && Contains(body.text, "<!DOCTYPE") ==>
      Classify(HttpResponse(status, contentType, body)) == Failed(HtmlPageMessage)
    ensures !Contains(contentType, "application/json") && !Contains(body.text, "<!DOCTYPE")
            && 0 < |body.text| < 100 ==>
      Classify(HttpResponse(status, contentType, body)) == Failed(body.text)
    ensures !Contains(contentType, "application/json") && !Contains(body.text, "<!DOCTYPE")
            && body.text == "" ==>
      Classify(HttpResponse(status, contentType, body)) == Failed("Upload failed")
    ensures !Contains(contentType, "application/json") && !Contains(body.text, "<!DOCTYPE")
            && |body.text| >= 100 ==>
      Classify(HttpResponse(status, contentType, body)) == Failed(StatusMessage(status))
  {
  }

  // ---------------------------------------------------------------------------
  // The component's state

  class UploadSession {
    const maxSize: nat
    const allowedTypes: seq<string>

    var file: Option<FileInfo>
    var error: Option<string>
    var uploading: bool
    /** In half-percent units. */
    var progress: nat
    var uploadComplete: bool
    var uploadUrl: Option<string>
    var isPaused: bool

    /** Progress stays within 0..99%, a recorded error is never empty, and a completed
        upload always has its URL. */
    ghost predicate Valid()
      reads this
    {
      && progress <= ProgressCap
      && (error.Some? ==> error.value != "")
      && (uploadComplete ==> uploadUrl.Some? && uploadUrl.value != "")
    }

    /** The state right after mounting, and after remove or cancel. */
    predicate IsInitial()
      reads this
    {
      && file == None && error == None && !uploading && progress == 0
      && !uploadComplete && uploadUrl == None && !isPaused
    }

    /** The timer runs only while uploading, not complete, without error, not paused. */
    predicate Ticking()
      reads this
    {
      uploading && !uploadComplete && error.None? && !isPaused
    }

    constructor (maxSizeProp: Option<nat>, allowedTypes: seq<string>)
      ensures Valid() && IsInitial()
      ensures maxSize == maxSizeProp.GetOr(DefaultMaxSize) && this.allowedTypes == allowedTypes
    {
      maxSize := maxSizeProp.GetOr(DefaultMaxSize);
      this.allowedTypes := allowedTypes;
      file, error, uploading, progress := None, None, false, 0;
      uploadComplete, uploadUrl, isPaused := false, None, false;
    }

    /** `handleFileChange`: `notified` is what `onChange` receives. */
    method HandleFileChange(selected: Option<FileInfo>) returns (notified: Option<FileInfo>)
      requires Valid()
      modifies this
      ensures Valid()
      ensures error == if selected.None? then None else SelectionError(selected.value, maxSize, allowedTypes)
      ensures file == if error.None? then selected else None
      ensures notified == file
      ensures !uploadComplete && progress == 0
      ensures uploading == old(uploading) && uploadUrl == old(uploadUrl) && isPaused == old(isPaused)
    {
      error := None;
      uploadComplete := false;
      progress := 0;
      if selected.None? {
        file := None;
        notified := None;
        return;
      }
      var f := selected.value;
      if maxSize != 0 && !ValidateFileSize(f, maxSize) {
        error := Some(SizeErrorMessage(maxSize));
        file := None;
        notified := None;
        return;
      }
      if |allowedTypes| > 0 && !ValidateFileType(f, allowedTypes) {
        error := Some(TypeErrorMessage(allowedTypes));
        file := None;
        notified := None;
        return;
      }
      file := selected;
      notified := selected;
    }

    /** `handleRemoveFile`, which the Cancel button also runs; `notified` is what `onChange`
        receives, which is null. */
    method HandleRemoveFile() returns (notified: Option<FileInfo>)
      modifies this
      ensures Valid() && IsInitial()
      ensures notified == None
    {
      file := None;
      error := None;
      uploading := false;
      progress := 0;
      uploadComplete := false;
      uploadUrl := None;
      isPaused := false;
      notified := None;
    }

    /** `handleUpload` up to the request: `sent` is the file posted, none when no file is
        selected (then nothing changes). */
    method BeginUpload() returns (sent: Option<FileInfo>)
      requires Valid()
      modifies this
      ensures Valid()
      ensures sent == file == old(file)
      ensures sent.None? ==> unchanged(this)
      ensures sent.Some? ==> uploading && error == None && progress == 0
      ensures uploadComplete == old(uploadComplete) && uploadUrl == old(uploadUrl)
      ensures isPaused == old(isPaused)
    {
      sent := file;
      if file.None? {
        return;
      }
      uploading := true;
      error := None;
      progress := 0;
    }

    /** `handleUpload` after the request: `completed` is what `onUploadComplete` receives.
        Nothing checks that the upload is still in progress, so a response arriving after
        a cancel is still recorded. Progress is left where the timer put it. */
    method FinishUpload(response: FetchOutcome) returns (completed: Option<string>)
      requires Valid()
      modifies this
      ensures Valid()
      ensures !uploading
      ensures Classify(response).Completed? ==>
        && uploadComplete && uploadUrl == Some(Classify(response).url)
        && completed == Some(Classify(response).url) && error == old(error)
      ensures Classify(response).Failed? ==>
        && error == Some(Classify(response).message) && completed == None
        && uploadComplete == old(uploadComplete) && uploadUrl == old(uploadUrl)
      ensures file == old(file) && progress == old(progress) && isPaused == old(isPaused)
    {
      var outcome := Classify(response);
      completed := None;
      match outcome {
        case Completed(url) =>
          uploadComplete := true;
          uploadUrl := Some(url);
          completed := Some(url);
        case Failed(message) =>
          error := Some(message);
      }
      uploading := false;
    }

    /** One firing of the 500 ms progress timer. */
    method Tick()
      requires Valid()
      modifies this`progress
      ensures Valid()
      ensures progress == if Ticking() then NextProgress(old(progress)) else old(progress)
      ensures old(progress) <= progress
    {
      if uploading && !uploadComplete && error.None? && !isPaused {
        progress := NextProgress(progress);
      }
    }

    /** The Pause/Resume button. */
    method TogglePause()
      requires Valid()
      modifies this`isPaused
      ensures Valid() && isPaused == !old(isPaused)
    {
      isPaused := !isPaused;
    }
  }

  /** A cancel does not stop a late success: after select, upload, cancel and then an OK
      response carrying a URL, the control still records completion and reports the URL. */
  method LateResponseAfterCancel(f: FileInfo, url: string) returns (completed: Option<string>, complete: bool)
    requires f.size <= DefaultMaxSize && url != ""
    ensures completed == Some(url) && complete
  {
    var session := new UploadSession(None, []);
    var _ := session.HandleFileChange(Some(f));
    var _ := session.BeginUpload();
    var _ := session.HandleRemoveFile();
    completed := session.FinishUpload(HttpResponse(200, "application/json", Body("", Some(JsonObject("", url)))));
    complete := session.uploadComplete;
  }

  /** A file is accepted exactly when both checks pass, with the type check skipped for an
      empty list; an oversized file of a refused type gets the size message. */
  method SelectThenUpload(maxSize: nat, allowedTypes: seq<string>, f: FileInfo) returns (sent: Option<FileInfo>, err: Option<string>)
    ensures err == SelectionError(f, maxSize, allowedTypes)
    ensures sent.Some? <==> err.None?
    ensures sent.Some? ==> sent.value == f
  {
    var session := new UploadSession(Some(maxSize), allowedTypes);
    var _ := session.HandleFileChange(Some(f));
    err := session.error;
    sent := session.BeginUpload();
  }
}
