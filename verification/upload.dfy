/** The client side of image uploads: the per-file checks done before any
    request, the count checks of a multiple upload, the rules by which a
    product's image upload turns the server's answer into a list of URLs, and
    the attempt and back-off schedule of the retrying single upload. The
    server's answers are parameters. */
module Upload {
  import opened Wrappers

  /** What the browser's `File` exposes to the checks: name, MIME type, size in bytes. */
  datatype FileInfo = FileInfo(name: string, mime: string, size: nat)

  /** The failures an upload can report, in the order the code can raise them. */
  datatype UploadError =
    | TypeNotAllowed(mime: string)
    | TooLarge(size: nat)
    | EmptyFile
    | NoFiles
    | TooManyFiles(maxFiles: int)
    | InvalidFile(position: nat, name: string, cause: UploadError)
    | Server(message: string)
    | AllUploadsFailed

  const AllowedTypes: seq<string> := ["image/jpeg", "image/jpg", "image/png", "image/webp"]
  const MaxSize: nat := 5 * 1024 * 1024
  const DefaultMaxFiles: int := 5

  // ------------------------------------------------------------ one file

  /** `validateFile`: the type test, then the upper size bound, then the
      empty-file test; the first that fails decides the error. */
  function ValidateFile(f: FileInfo): (r: Outcome<UploadError>)
    ensures r.Pass? <==> f.mime in AllowedTypes && 0 < f.size <= MaxSize
    ensures f.mime !in AllowedTypes ==> r == Fail(TypeNotAllowed(f.mime))
    ensures f.mime in AllowedTypes && f.size > MaxSize ==> r == Fail(TooLarge(f.size))
    ensures f.mime in AllowedTypes && f.size == 0 ==> r == Fail(EmptyFile)
  {
    if f.mime !in AllowedTypes then Fail(TypeNotAllowed(f.mime))
    else if f.size > MaxSize then Fail(TooLarge(f.size))
    else if f.size == 0 then Fail(EmptyFile)
    else Pass
  }

  /** The boundaries: exactly 5 MiB passes, one byte more does not, and the
      type is checked before the size, so an empty GIF is reported as a
      type error. */
  lemma ValidateFileBoundaries()
    ensures ValidateFile(FileInfo("a.png", "image/png", 5242880)).Pass?
    ensures ValidateFile(FileInfo("a.png", "image/png", 5242881)) == Fail(TooLarge(5242881))
    ensures ValidateFile(FileInfo("a.gif", "image/gif", 0)) == Fail(TypeNotAllowed("image/gif"))
    ensures ValidateFile(FileInfo("a.jpg", "image/jpg", 0)) == Fail(EmptyFile)
  {
  }

  /** What the server answers to a single upload: its `success` flag, the
      stored file's URL and its message. A request that throws (network
      failure, an HTTP error) is an `Err` carrying the message the code
      re-raises. */
  datatype SingleReply = SingleReply(success: bool, url: string, message: string)

  /** `uploadFileToBackend`: validate, then send; the URL on success,
      otherwise the server's message or a default one. */
  function UploadSingle(f: FileInfo, reply: Result<SingleReply, string>): (r: Result<string, UploadError>)
    ensures ValidateFile(f).Fail? ==> r == Err(ValidateFile(f).error)
    ensures r.Ok? <==> ValidateFile(f).Pass? && reply.Ok? && reply.value.success
    ensures r.Ok? ==> r.value == reply.value.url
  {
    match ValidateFile(f)
    case Fail(e) => Err(e)
    case Pass =>
      match reply
      case Err(m) => Err(Server(m))
      case Ok(d) =>
        if d.success then Ok(d.url)
        else Err(Server(if d.message == "" then "Erro no upload" else d.message))
  }

  // ------------------------------------------------------- several files

  /** The first file that fails validation: its 0-based position and the error. */
  datatype Invalid = Invalid(index: nat, error: UploadError)

  function FirstInvalid(files: seq<FileInfo>): (r: Option<Invalid>)
    ensures r.None? <==> forall i :: 0 <= i < |files| ==> ValidateFile(files[i]).Pass?
    ensures r.Some? ==> && r.value.index < |files|
                        && ValidateFile(files[r.value.index]) == Fail(r.value.error)
                        && forall j :: 0 <= j < r.value.index ==> ValidateFile(files[j]).Pass?
  {
    if |files| == 0 then None
    else match ValidateFile(files[0])
      case Fail(e) => Some(Invalid(0, e))
      case Pass =>
        match FirstInvalid(files[1..])
        case None => None
        case Some(v) => Some(Invalid(v.index + 1, v.error))
  }

  /** The server's answer to a multiple upload: `success`, the URLs of the
      stored files, the files it could not store, and its message. */
  datatype MultipleReply = MultipleReply(success: bool, urls: seq<string>, failed: seq<string>, message: string)

  /** A successful multiple upload: the URLs, and the failed files when
      there were any. */
  datatype MultipleResult = MultipleResult(urls: seq<string>, failed: seq<string>)

  /** `uploadMultipleFilesToBackend`: the empty list, then the count, are
      rejected before any file is looked at; then the first invalid file is
      reported with its 1-based position; only then is the request sent. */
  function UploadMultiple(files: seq<FileInfo>, maxFiles: int, reply: Result<MultipleReply, string>)
    : (r: Result<MultipleResult, UploadError>)
    ensures |files| == 0 ==> r == Err(NoFiles)
    ensures 0 < |files| && |files| > maxFiles ==> r == Err(TooManyFiles(maxFiles))
    ensures 0 < |files| <= maxFiles && FirstInvalid(files).Some? ==>
      var v := FirstInvalid(files).value;
      r == Err(InvalidFile(v.index + 1, files[v.index].name, v.error))
    ensures r.Ok? <==> && 0 < |files| <= maxFiles
                       && (forall i :: 0 <= i < |files| ==> ValidateFile(files[i]).Pass?)
                       && reply.Ok? && reply.value.success
    ensures r.Ok? ==> r.value.urls == reply.value.urls && r.value.failed == reply.value.failed
  {
    if |files| == 0 then Err(NoFiles)
    else if |files| > maxFiles then Err(TooManyFiles(maxFiles))
    else match FirstInvalid(files)
      case Some(v) => Err(InvalidFile(v.index + 1, files[v.index].name, v.error))
      case None =>
        match reply
        case Err(m) => Err(Server(m))
        case Ok(d) =>
          if d.success then Ok(MultipleResult(d.urls, d.failed))
          else Err(Server(if d.message == "" then "Erro no upload múltiplo" else d.message))
  }

  /** The file-level errors name the file by its 1-based position, which is
      always a position of the list. */
  lemma InvalidPositionInRange(files: seq<FileInfo>, maxFiles: int, reply: Result<MultipleReply, string>)
    requires UploadMultiple(files, maxFiles, reply).Err?
    requires UploadMultiple(files, maxFiles, reply).error.InvalidFile?
    ensures var e := UploadMultiple(files, maxFiles, reply).error;
      1 <= e.position <= |files| && files[e.position - 1].name == e.name
      && ValidateFile(files[e.position - 1]) == Fail(e.cause)
  {
  }

  /** `uploadProductImages`: an empty selection gives no URLs and sends
      nothing; otherwise a multiple upload with at most five files, whose
      URLs are returned unless some files failed and none succeeded. */
  function UploadProductImages(files: seq<FileInfo>, reply: Result<MultipleReply, string>)
    : (r: Result<seq<string>, UploadError>)
    ensures |files| == 0 ==> r == Ok([])
    ensures |files| > 0 && UploadMultiple(files, DefaultMaxFiles, reply).Err? ==>
      r == Err(UploadMultiple(files, DefaultMaxFiles, reply).error)
    ensures r == Err(AllUploadsFailed) <==>
      && |files| > 0 && UploadMultiple(files, DefaultMaxFiles, reply).Ok?
      && |reply.value.failed| > 0 && |reply.value.urls| == 0
    ensures |files| > 0 && r.Ok? ==> r.value == reply.value.urls
  {
    if |files| == 0 then Ok([])
    else match UploadMultiple(files, DefaultMaxFiles, reply)
      case Err(e) => Err(e)
      case Ok(res) =>
        if |res.failed| > 0 && |res.urls| == 0 then Err(AllUploadsFailed) else Ok(res.urls)
  }

  /** Six images are refused before anything is sent, whatever the server
      would have answered. */
  lemma SixImagesRefused(files: seq<FileInfo>, reply: Result<MultipleReply, string>)
    requires |files| == 6
    ensures UploadProductImages(files, reply) == Err(TooManyFiles(5))
  {
  }

  /** A reply that stored nothing but reports no failure is not an error:
      the product simply gets no images. */
  lemma NothingStoredNothingFailed(files: seq<FileInfo>)
    requires 0 < |files| <= 5 && FirstInvalid(files).None?
    ensures UploadProductImages(files, Ok(MultipleReply(true, [], [], ""))) == Ok([])
  {
  }

  // ------------------------------------------------------------- retries

  function Pow2(n: nat): (r: nat)
    ensures r >= 1
  {
    if n == 0 then 1 else 2 * Pow2(n - 1)
  }

  function Min(a: int, b: int): int { if a <= b then a else b }

  function Max(a: int, b: int): int { if a >= b then a else b }

  /** The wait in milliseconds after failed attempt `k` (1-based), when
      another attempt follows: doubling from one second, capped at five. */
  function Backoff(k: nat): (r: nat)
    requires k >= 1
    ensures 1000 <= r <= 5000
  {
    Min(1000 * Pow2(k - 1), 5000)
  }

  lemma {:induction false} Pow2AtLeast8(n: nat)
    requires n >= 3
    ensures Pow2(n) >= 8
    decreases n
  {
    if n > 3 {
      Pow2AtLeast8(n - 1);
    }
  }

  /** The schedule is 1 s, 2 s, 4 s and then 5 s for every later attempt. */
  lemma BackoffValues(k: nat)
    requires k >= 1
    ensures k == 1 ==> Backoff(k) == 1000
    ensures k == 2 ==> Backoff(k) == 2000
    ensures k == 3 ==> Backoff(k) == 4000
    ensures k >= 4 ==> Backoff(k) == 5000
  {
    if k >= 4 {
      Pow2AtLeast8(k - 1);
    }
  }

  lemma {:induction false} Pow2Monotone(a: nat, b: nat)
    requires a <= b
    ensures Pow2(a) <= Pow2(b)
    decreases b
  {
    if a < b {
      Pow2Monotone(a, b - 1);
    }
  }

  /** Waits never shrink from one attempt to the next. */
  lemma BackoffMonotone(j: nat, k: nat)
    requires 1 <= j <= k
    ensures Backoff(j) <= Backoff(k)
  {
    Pow2Monotone(j - 1, k - 1);
  }

  /** The waits after the first `n` failed attempts: 1 s, 2 s and 4 s, then
      5 s for every later one, never shrinking. */
  function Schedule(n: nat): (r: seq<nat>)
    ensures |r| == n
    ensures forall i :: 0 <= i < n ==> r[i] == (if i < 3 then [1000, 2000, 4000][i] else 5000)
    ensures forall i, j :: 0 <= i <= j < n ==> r[i] <= r[j]
  {
    var r := seq(n, i requires 0 <= i < n => Backoff(i + 1));
    assert forall i :: 0 <= i < n ==> r[i] == (if i < 3 then [1000, 2000, 4000][i] else 5000) by {
      forall i | 0 <= i < n ensures r[i] == (if i < 3 then [1000, 2000, 4000][i] else 5000) {
        BackoffValues(i + 1);
      }
    }
    r
  }

  /** Attempt `k` of a retried upload: `replies(k)` is what the server does
      on that attempt. */
  function Attempt(f: FileInfo, replies: nat -> Result<SingleReply, string>, k: nat): (r: Result<string, UploadError>)
    ensures r.Ok? <==> ValidateFile(f).Pass? && replies(k).Ok? && replies(k).value.success
    ensures r.Ok? ==> r.value == replies(k).value.url
    ensures ValidateFile(f).Fail? ==> r == Err(ValidateFile(f).error)
  {
    UploadSingle(f, replies(k))
  }

  /** `uploadWithRetry`: up to `maxRetries` attempts, returning at the first
      success and waiting `Backoff(k)` after a failed attempt `k` only when
      another attempt follows. When every attempt fails the last error is
      raised; with `maxRetries` below 1 no attempt is made and the error
      raised is undefined, which is `Err(None)` here. `delays` are the
      waits in order. */
  method UploadWithRetry(f: FileInfo, maxRetries: int, replies: nat -> Result<SingleReply, string>)
    returns (r: Result<string, Option<UploadError>>, attempts: nat, delays: seq<nat>)
    ensures attempts <= Max(maxRetries, 0)
    ensures r.Ok? <==> exists k :: 1 <= k <= maxRetries && Attempt(f, replies, k).Ok?
    ensures r.Ok? ==> && 1 <= attempts
                      && Attempt(f, replies, attempts) == Ok(r.value)
                      && (forall k :: 1 <= k < attempts ==> Attempt(f, replies, k).Err?)
                      && delays == Schedule(attempts - 1)
    ensures r.Err? ==> && attempts == Max(maxRetries, 0)
                       && delays == Schedule(Max(maxRetries - 1, 0))
                       && (maxRetries >= 1 ==> r.error == Some(Attempt(f, replies, maxRetries).error))
                       && (maxRetries < 1 ==> r.error == None)
  {
    r := Err(None);
    delays := [];
    var attempt: nat := 1;
    while attempt <= maxRetries
      invariant 1 <= attempt <= Max(maxRetries, 0) + 1
      invariant forall k :: 1 <= k < attempt ==> Attempt(f, replies, k).Err?
      invariant delays == Schedule(Min(attempt - 1, Max(maxRetries - 1, 0)))
      invariant attempt == 1 ==> r == Err(None)
      invariant attempt > 1 ==> r == Err(Some(Attempt(f, replies, attempt - 1).error))
      decreases maxRetries - attempt
    {
      var res := Attempt(f, replies, attempt);
      if res.Ok? {
        return Ok(res.value), attempt, delays;
      }
      r := Err(Some(res.error));
      if attempt < maxRetries {
        delays := delays + [Backoff(attempt)];
      }
      attempt := attempt + 1;
    }
    attempts := attempt - 1;
  }

  /** A file that fails validation fails on every attempt with the same
      error, whatever the server would have said: retrying never sends it. */
  lemma InvalidFileFailsEveryAttempt(f: FileInfo, replies: nat -> Result<SingleReply, string>, k: nat)
    requires ValidateFile(f).Fail?
    ensures Attempt(f, replies, k) == Err(ValidateFile(f).error)
  {
  }
}
