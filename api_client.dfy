/** The browser-side client of the image backend: the availability probe,
    the bounded retry wrapper, the upload and enhance calls with their
    error-message rules, and the preview URL builder. Every network call
    is an oracle value: what `fetch` produced for that call. */
module ApiClient {
  import opened Outcomes
  import Decimal

  const MaxRetriesReached := "Max retries reached"
  const ServerUnavailable := "API server is not available. Please ensure the server is running."
  const GenericError := "An error occurred while processing your request"
  const UploadFailed := "Failed to upload image"
  const EnhanceFailed := "Failed to enhance image"
  const DefaultMaxRetries := 3
  const DefaultDelay := 1000

  /** The fields of a JSON object the backend answers with. */
  datatype Payload = Payload(error: Option<string>, filename: Option<string>, message: Option<string>)

  /** A response body: a JSON object, or text that `json()` rejects with
      the given reason. */
  datatype Body = Parsed(payload: Payload) | Unparseable(reason: string)

  /** What one `fetch` produced: a rejection (network failure) or a
      response with a status and a body. */
  datatype FetchResult = NetworkError(reason: string) | Response(status: int, body: Body)

  /** `Response.ok`. */
  predicate IsSuccess(status: int) {
    200 <= status <= 299
  }

  datatype Verb = Get | Post
  datatype ClientFile = ClientFile(name: string, content: Bytes)
  datatype RequestBody =
    | NoBody
    | JsonBody(filename: string, options: Options)
    | FormBody(field: string, file: ClientFile)
  /** A request the client issued. */
  datatype Request = Request(verb: Verb, url: string, body: RequestBody)

  function HealthRequest(base: string): Request {
    Request(Get, base + "/api/health", NoBody)
  }

  function EnhancePost(base: string, filename: string, options: Options): Request {
    Request(Post, base + "/api/enhance", JsonBody(filename, options))
  }

  function UploadRequest(base: string, file: ClientFile): Request {
    Request(Post, base + "/api/upload", FormBody("file", file))
  }

  // ---------------------------------------------------------------------
  // Availability probe and error messages
  // ---------------------------------------------------------------------

  /** The probe never raises: a network failure reads as unavailable, and
      a response as available exactly when its status is 2xx, whatever
      its body. */
  function CheckApiAvailability(health: FetchResult): (available: bool)
    ensures health.NetworkError? ==> !available
    ensures health.Response? ==> (available <==> IsSuccess(health.status))
  {
    match health
    case NetworkError(_) => false
    case Response(status, _) => IsSuccess(status)
  }

  /** `field || fallback` for a string field that may be missing: the
      field when it is a non-empty string, otherwise the fallback, so the
      message is never empty when the fallback is not. */
  function ErrorOr(field: Option<string>, fallback: string): (m: string)
    ensures field.Some? && field.value != "" ==> m == field.value
    ensures !(field.Some? && field.value != "") ==> m == fallback
    ensures fallback != "" ==> m != ""
  {
    if field.Some? && field.value != "" then field.value else fallback
  }

  /** The message `handleApiError` raises for an error with `message`:
      never empty, and the original whenever there was one. */
  function HandleApiError(message: string): (m: string)
    ensures m != ""
    ensures message != "" ==> m == message
    ensures message == "" ==> m == GenericError
  {
    if message != "" then message else GenericError
  }

  // ---------------------------------------------------------------------
  // Bounded retry
  // ---------------------------------------------------------------------

  /** One step the retry wrapper takes: a call of the action, or a pause. */
  datatype Step = Call(attempt: nat) | Wait(ms: int)

  /** Result of the retry loop entered at attempt `i`, with the number of
      calls made in all; `action(j)` is the outcome of call number `j`. */
  function RetryFrom<T>(action: nat -> Outcome<T>, maxRetries: int, i: nat): (res: (Outcome<T>, nat))
    ensures i < maxRetries ==> i < res.1 <= maxRetries
    ensures i >= maxRetries ==> res == (Err(MaxRetriesReached), i)
    decreases maxRetries - i
  {
    if i >= maxRetries then (Err(MaxRetriesReached), i)
    else if action(i).Ok? || i == maxRetries - 1 then (action(i), i + 1)
    else RetryFrom(action, maxRetries, i + 1)
  }

  /** Result of `retryRequest(action, maxRetries)` and its number of calls. */
  function Retry<T>(action: nat -> Outcome<T>, maxRetries: int): (res: (Outcome<T>, nat))
    ensures maxRetries > 0 ==> 1 <= res.1 <= maxRetries
    ensures maxRetries <= 0 ==> res == (Err(MaxRetriesReached), 0)
  {
    RetryFrom(action, maxRetries, 0)
  }

  /** The steps of a run that made `calls` calls: calls in order, with one
      pause between consecutive calls. */
  function RetryTrace(calls: nat, delay: int): (trace: seq<Step>)
    ensures |trace| == if calls == 0 then 0 else 2 * calls - 1
    ensures calls >= 1 ==> trace[0] == Call(0) && trace[|trace| - 1] == Call(calls - 1)
  {
    if calls == 0 then []
    else if calls == 1 then [Call(0)]
    else RetryTrace(calls - 1, delay) + [Wait(delay), Call(calls - 1)]
  }

  /** The loop entered at `i < maxRetries` stops after a success or after
      its last allowed call, and returns the outcome of the call it made
      last. */
  lemma {:induction false} RetryFromOutcome<T>(action: nat -> Outcome<T>, maxRetries: int, i: nat)
    requires i < maxRetries
    ensures var (r, calls) := RetryFrom(action, maxRetries, i);
      i < calls <= maxRetries && r == action(calls - 1) &&
      (forall j :: i <= j < calls - 1 ==> action(j).Err?) &&
      (r.Err? ==> calls == maxRetries)
    decreases maxRetries - i
  {
    if action(i).Err? && i != maxRetries - 1 {
      RetryFromOutcome(action, maxRetries, i + 1);
    }
  }

  /** The wrapper never calls the action more than `maxRetries` times; its
      result is the last call's outcome, every earlier call failed, and a
      failure is raised only once all calls are used up. With no calls
      allowed it raises "Max retries reached". */
  lemma RetryOutcome<T>(action: nat -> Outcome<T>, maxRetries: int)
    ensures var (r, calls) := Retry(action, maxRetries);
      (maxRetries <= 0 ==> calls == 0 && r == Err(MaxRetriesReached)) &&
      (maxRetries > 0 ==>
        1 <= calls <= maxRetries && r == action(calls - 1) &&
        (forall j :: 0 <= j < calls - 1 ==> action(j).Err?) &&
        (r.Err? ==> calls == maxRetries))
  {
    if maxRetries > 0 {
      RetryFromOutcome(action, maxRetries, 0);
    }
  }

  lemma {:induction false} RetryFromFirstSuccess<T>(action: nat -> Outcome<T>, maxRetries: int, i: nat, k: nat)
    requires i <= k < maxRetries
    requires forall j :: i <= j < k ==> action(j).Err?
    requires action(k).Ok?
    ensures RetryFrom(action, maxRetries, i) == (action(k), k + 1)
    decreases k - i
  {
    if i < k {
      RetryFromFirstSuccess(action, maxRetries, i + 1, k);
    }
  }

  /** An action that fails `k` times and then succeeds, with `k` below the
      budget, yields that success after exactly `k + 1` calls. */
  lemma RetrySucceedsAfterFailures<T>(action: nat -> Outcome<T>, maxRetries: int, k: nat)
    requires k < maxRetries
    requires forall j :: 0 <= j < k ==> action(j).Err?
    requires action(k).Ok?
    ensures Retry(action, maxRetries) == (action(k), k + 1)
  {
    RetryFromFirstSuccess(action, maxRetries, 0, k);
  }

  lemma {:induction false} RetryFromAllFail<T>(action: nat -> Outcome<T>, maxRetries: int, i: nat)
    requires i < maxRetries
    requires forall j :: i <= j < maxRetries ==> action(j).Err?
    ensures RetryFrom(action, maxRetries, i) == (action(maxRetries - 1), maxRetries)
    decreases maxRetries - i
  {
    if i < maxRetries - 1 {
      RetryFromAllFail(action, maxRetries, i + 1);
    }
  }

  /** An action that always fails is called exactly `maxRetries` times and
      the error of the last call is raised. */
  lemma RetryAllFail<T>(action: nat -> Outcome<T>, maxRetries: int)
    requires maxRetries >= 1
    requires forall j :: 0 <= j < maxRetries ==> action(j).Err?
    ensures Retry(action, maxRetries) == (action(maxRetries - 1), maxRetries)
  {
    RetryFromAllFail(action, maxRetries, 0);
  }

  /** Calls alternate with pauses, starting and ending with a call, so a
      run of `calls` calls pauses `calls - 1` times. */
  lemma {:induction false} RetryTraceShape(calls: nat, delay: int)
    requires calls >= 1
    ensures |RetryTrace(calls, delay)| == 2 * calls - 1
    ensures forall j :: 0 <= j < 2 * calls - 1 ==>
      RetryTrace(calls, delay)[j] == if j % 2 == 0 then Call(j / 2) else Wait(delay)
  {
    if calls > 1 {
      RetryTraceShape(calls - 1, delay);
    }
  }

  /** `retryRequest`: call the action until it succeeds or `maxRetries`
      calls are made, pausing `delay` between calls. */
  method RetryRequest<T>(action: nat -> Outcome<T>, maxRetries: int, delay: int)
    returns (r: Outcome<T>, calls: nat, trace: seq<Step>)
    ensures (r, calls) == Retry(action, maxRetries)
    ensures trace == RetryTrace(calls, delay)
  {
    var i: nat := 0;
    trace := [];
    while i < maxRetries
      invariant i == 0 || i < maxRetries
      invariant RetryFrom(action, maxRetries, i) == Retry(action, maxRetries)
      invariant trace == if i == 0 then [] else RetryTrace(i, delay) + [Wait(delay)]
      decreases maxRetries - i
    {
      trace := trace + [Call(i)];
      var outcome := action(i);
      if outcome.Ok? || i == maxRetries - 1 {
        return outcome, i + 1, trace;
      }
      trace := trace + [Wait(delay)];
      i := i + 1;
    }
    r, calls := Err(MaxRetriesReached), 0;
  }

  // ---------------------------------------------------------------------
  // Upload and enhance
  // ---------------------------------------------------------------------

  /** One enhance attempt: a rejected fetch raises its own reason; a non-2xx
      response raises the body's non-empty `error`, or the fallback when
      there is none or the body is not JSON; a 2xx response yields its
      JSON body, or raises when that body is not JSON. */
  function EnhanceAttempt(response: FetchResult): (r: Outcome<Payload>)
    ensures r.Ok? <==> response.Response? && IsSuccess(response.status) && response.body.Parsed?
    ensures r.Ok? ==> r.value == response.body.payload
    ensures response.NetworkError? ==> r == Err(response.reason)
    ensures response.Response? && IsSuccess(response.status) && response.body.Unparseable? ==>
      r == Err(response.body.reason)
    ensures response.Response? && !IsSuccess(response.status) ==>
      (response.body.Parsed? && response.body.payload.error.Some? &&
       response.body.payload.error.value != "" ==>
        r == Err(response.body.payload.error.value)) &&
      (response.body.Unparseable? || response.body.payload.error.None? ||
       response.body.payload.error.value == "" ==>
        r == Err(EnhanceFailed))
  {
    match response
    case NetworkError(reason) => Err(reason)
    case Response(status, body) =>
      if !IsSuccess(status) then
        match body
        case Parsed(p) => Err(ErrorOr(p.error, EnhanceFailed))
        case Unparseable(_) => Err(EnhanceFailed)
      else
        match body
        case Parsed(p) => Ok(p)
        case Unparseable(reason) => Err(reason)
  }

  /** The action `enhanceImage` retries: attempt `i` meets `server(i)`. */
  function EnhanceAction(server: nat -> FetchResult): nat -> Outcome<Payload> {
    (i: nat) => EnhanceAttempt(server(i))
  }

  /** `enhanceImage`: the availability gate, then the retried POST of
      `{filename, options}` with options defaulting to `{}`. `sent` lists
      the requests issued, in order. */
  method EnhanceImage(base: string, filename: string, options: Option<Options>,
                      health: FetchResult, server: nat -> FetchResult)
    returns (r: Outcome<Payload>, sent: seq<Request>)
    ensures |sent| >= 1 && sent[0] == HealthRequest(base)
    ensures !CheckApiAvailability(health) ==> r == Err(ServerUnavailable) && |sent| == 1
    ensures CheckApiAvailability(health) ==>
      (r, |sent| - 1) == Retry(EnhanceAction(server), DefaultMaxRetries) &&
      2 <= |sent| <= 1 + DefaultMaxRetries &&
      forall k :: 1 <= k < |sent| ==> sent[k] == EnhancePost(base, filename, options.GetOr(map[]))
  {
    sent := [HealthRequest(base)];
    if !CheckApiAvailability(health) {
      return Err(ServerUnavailable), sent;
    }
    var calls, trace;
    r, calls, trace := RetryRequest(EnhanceAction(server), DefaultMaxRetries, DefaultDelay);
    RetryOutcome(EnhanceAction(server), DefaultMaxRetries);
    var request := EnhancePost(base, filename, options.GetOr(map[]));
    sent := sent + seq(calls, _ => request);
  }

  /** `uploadImage`: exactly one POST of the file under the form field
      `file`, with no availability gate and no retry. A failure inside the
      `try` goes through `handleApiError`; the JSON body of a 2xx response
      is returned without being awaited there, so its parse failure
      escapes unchanged. */
  method UploadImage(base: string, file: ClientFile, response: FetchResult)
    returns (r: Outcome<Payload>, sent: seq<Request>)
    ensures sent == [UploadRequest(base, file)]
    ensures r.Ok? <==> response.Response? && IsSuccess(response.status) && response.body.Parsed?
    ensures r.Ok? ==> r.value == response.body.payload
    ensures response.NetworkError? ==> r == Err(HandleApiError(response.reason))
    ensures response.Response? && !IsSuccess(response.status) ==>
      (response.body.Parsed? ==> r == Err(ErrorOr(response.body.payload.error, UploadFailed))) &&
      (response.body.Unparseable? ==> r == Err(HandleApiError(response.body.reason)))
    ensures response.Response? && IsSuccess(response.status) && response.body.Unparseable? ==>
      r == Err(response.body.reason)
    ensures r.Err? && !(response.Response? && IsSuccess(response.status)) ==> r.message != ""
  {
    sent := [UploadRequest(base, file)];
    match response
    case NetworkError(reason) =>
      r := Err(HandleApiError(reason));
    case Response(status, body) =>
      if !IsSuccess(status) {
        match body
        case Parsed(p) =>
          r := Err(HandleApiError(ErrorOr(p.error, UploadFailed)));
        case Unparseable(reason) =>
          r := Err(HandleApiError(reason));
      } else {
        match body
        case Parsed(p) =>
          r := Ok(p);
        case Unparseable(reason) =>
          r := Err(reason);
      }
  }

  // ---------------------------------------------------------------------
  // Preview URL
  // ---------------------------------------------------------------------

  /** `getPreviewUrl`: the base, the preview path, the file name as it is,
      and the timestamp `now` (milliseconds) as the `t` parameter. */
  function GetPreviewUrl(base: string, filename: string, now: nat): (url: string)
    ensures var head := base + "/api/preview/" + filename + "?t=";
      head <= url && |url| > |head| && Decimal.AllDigits(url[|head|..])
  {
    base + "/api/preview/" + filename + "?t=" + Decimal.Show(now)
  }

  /** Reads a preview URL for `base` back into its file name and
      timestamp: the timestamp is the run of digits at the end, preceded
      by `?t=`; everything between the path and that is the file name. */
  function ParsePreviewUrl(base: string, url: string): Option<(string, nat)> {
    var prefix := base + "/api/preview/";
    if !(prefix <= url) then None
    else
      var rest := url[|prefix|..];
      var k := Decimal.TrailingDigits(rest);
      if k == 0 || |rest| < k + 3 || rest[|rest| - k - 3..|rest| - k] != "?t=" then None
      else Some((rest[..|rest| - k - 3], Decimal.Value(rest[|rest| - k..])))
  }

  /** The file name goes into the URL verbatim, whatever characters it
      holds, and the timestamp is recoverable: parsing the URL gives both
      back. */
  lemma PreviewUrlRoundTrip(base: string, filename: string, now: nat)
    ensures ParsePreviewUrl(base, GetPreviewUrl(base, filename, now)) == Some((filename, now))
  {
    var prefix := base + "/api/preview/";
    var url := GetPreviewUrl(base, filename, now);
    var digits := Decimal.Show(now);
    var rest := url[|prefix|..];
    assert url == prefix + (filename + "?t=" + digits);
    assert rest == (filename + "?t=") + digits;
    Decimal.TrailingDigitsOfSuffix(filename + "?t=", digits);
    assert rest[..|rest| - |digits| - 3] == filename;
    assert rest[|rest| - |digits|..] == digits;
    Decimal.ValueOfShow(now);
  }

  /** Different names or timestamps never give the same preview URL. */
  lemma PreviewUrlInjective(base: string, f1: string, t1: nat, f2: string, t2: nat)
    requires GetPreviewUrl(base, f1, t1) == GetPreviewUrl(base, f2, t2)
    ensures f1 == f2 && t1 == t2
  {
    PreviewUrlRoundTrip(base, f1, t1);
    PreviewUrlRoundTrip(base, f2, t2);
  }
}
