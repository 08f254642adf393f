/**
 * The network error kinds of both apps, their user-facing messages and the
 * retry classification the upload path relies on, and the iOS endpoint
 * table (paths, HTTP methods, URLs).
 */
module Network {
  import opened Wrappers
  import opened Text

  /** Kotlin `NetworkError`; `Unknown` carries the cause's message, if it has one. */
  datatype AndroidNetworkError =
    | InvalidUrl
    | Unauthorized
    | NotFound
    | Timeout
    | Server(code: int, body: Option<string>)
    | UploadFailed(reason: string)
    | Unknown(causeMessage: Option<string>)
  {
    /** The exception message each kind is constructed with. */
    function Message(): (m: string)
      ensures Server? ==> StartsWith(m, "Server error (Status: " + IntToString(code) + ")")
      ensures Server? && body.None? ==> m == "Server error (Status: " + IntToString(code) + ")"
      ensures Server? && body.Some? ==> EndsWith(m, ": " + body.value)
      ensures UploadFailed? ==> m == "Upload failed: " + reason
      ensures Unknown? ==> m == causeMessage.GetOr("Unknown error")
    {
      match this
      case InvalidUrl => "Invalid URL"
      case Unauthorized => "Unauthorized. Please log in again."
      case NotFound => "Resource not found"
      case Timeout => "Request timed out. Please try again."
      case Server(code, body) =>
        var head := "Server error (Status: " + IntToString(code) + ")";
        var tail := if body.Some? then ": " + body.value else "";
        assert (head + tail)[..|head|] == head;
        head + tail
      case UploadFailed(reason) => "Upload failed: " + reason
      case Unknown(cause) => cause.GetOr("Unknown error")
    }

    /** `isRetriable`: a timeout, or a server error with a 5xx status. */
    predicate IsRetriable()
    {
      match this
      case Timeout => true
      case Server(code, _) => code >= 500
      case _ => false
    }
  }

  /** Swift `NetworkError`; `unknown` carries the wrapped error's description. */
  datatype IosNetworkError =
    | InvalidURL
    | NoConnection
    | ServerError(statusCode: int)
    | DecodingError
    | EncodingError
    | IosUnauthorized
    | IosNotFound
    | IosTimeout
    | IosUploadFailed(reason: string)
    | IosUnknown(description: string)
  {
    /** `errorDescription`. */
    function ErrorDescription(): (m: string)
      ensures ServerError? ==> m == "Server error (Status: " + IntToString(statusCode) + ")"
      ensures IosUploadFailed? ==> m == "Upload failed: " + reason
      ensures IosUnknown? ==> m == "Unknown error: " + description
    {
      match this
      case InvalidURL => "Invalid URL"
      case NoConnection => NetworkUnavailable
      case ServerError(code) => "Server error (Status: " + IntToString(code) + ")"
      case DecodingError => "Failed to decode server response"
      case EncodingError => "Failed to encode request data"
      case IosUnauthorized => "Unauthorized. Please log in again."
      case IosNotFound => "Resource not found"
      case IosTimeout => "Request timed out. Please try again."
      case IosUploadFailed(reason) => "Upload failed: " + reason
      case IosUnknown(d) => "Unknown error: " + d
    }

    /** `isRetriable`: no connection, a timeout, or a server error with a 5xx status. */
    predicate IsRetriable()
    {
      match this
      case NoConnection | IosTimeout => true
      case ServerError(code) => code >= 500
      case _ => false
    }
  }

  const NetworkUnavailable := "No internet connection. Please check your network settings."

  /** Exactly the timeouts and 5xx server errors are retried on Android. */
  lemma AndroidRetriable(e: AndroidNetworkError)
    ensures e.IsRetriable() <==> e == Timeout || (e.Server? && e.code >= 500)
  {
  }

  /** Exactly the lost connections, timeouts and 5xx server errors are retried on iOS. */
  lemma IosRetriable(e: IosNetworkError)
    ensures e.IsRetriable() <==> e == NoConnection || e == IosTimeout || (e.ServerError? && e.statusCode >= 500)
  {
  }

  /**
   * The platforms agree wherever both have the kind: a timeout is retried,
   * a server error is retried on both or on neither, and a client error
   * (4xx) never is.
   */
  lemma PlatformsAgreeOnRetry(code: int, body: Option<string>)
    ensures Server(code, body).IsRetriable() == ServerError(code).IsRetriable()
    ensures Timeout.IsRetriable() && IosTimeout.IsRetriable()
    ensures 400 <= code < 500 ==> !Server(code, body).IsRetriable() && !ServerError(code).IsRetriable()
    ensures !UploadFailed("").IsRetriable() && !IosUploadFailed("").IsRetriable()
  {
  }

  /** Without a body the Android and iOS server-error messages are the same text. */
  lemma ServerMessagesAgree(code: int)
    ensures Server(code, None).Message() == ServerError(code).ErrorDescription()
  {
  }

  // ------------------------------------------------------------ endpoints

  /** The iOS `Endpoint` cases. */
  datatype Endpoint =
    | Login
    | GetCurrentSchedule(teacherId: string, timestamp: string, classId: Option<string>)
    | CreateDebate
    | UploadSpeech(debateId: string)
    | GetSpeechStatus(speechId: string)
    | GetFeedbackContent(speechId: string)
    | GetDebateHistory(teacherId: string, limit: int)

  datatype HttpMethod = Get | Post | Put | Delete | Patch
  {
    function RawValue(): string
    {
      match this
      case Get => "GET"
      case Post => "POST"
      case Put => "PUT"
      case Delete => "DELETE"
      case Patch => "PATCH"
    }
  }

  /** `path`: fixed segments with the ids embedded; the schedule query names the class only when one is given. */
  function Path(e: Endpoint): (p: string)
    ensures |p| > 0 && p[0] == '/'
  {
    match e
    case Login => "/auth/login"
    case GetCurrentSchedule(teacherId, timestamp, classId) =>
      var path := "/schedule/current?teacher_id=" + teacherId + "&timestamp=" + timestamp;
      if classId.Some? then path + "&class_id=" + classId.value else path
    case CreateDebate => "/debates/create"
    case UploadSpeech(debateId) => "/debates/" + debateId + "/speeches"
    case GetSpeechStatus(speechId) => "/speeches/" + speechId + "/status"
    case GetFeedbackContent(speechId) => "/speeches/" + speechId + "/feedback"
    case GetDebateHistory(teacherId, limit) => "/teachers/" + teacherId + "/debates?limit=" + IntToString(limit)
  }

  /** `method`: POST for logging in, creating a debate and uploading a speech; GET for everything else. */
  function Method(e: Endpoint): (m: HttpMethod)
    ensures m == Post <==> (e.Login? || e.CreateDebate? || e.UploadSpeech?)
    ensures m == Get <==> !(e.Login? || e.CreateDebate? || e.UploadSpeech?)
  {
    match e
    case Login | CreateDebate | UploadSpeech(_) => Post
    case _ => Get
  }

  /** The text `url(baseURL:)` hands to `URL(string:)`. */
  function UrlString(e: Endpoint, baseUrl: string): (u: string)
    ensures StartsWith(u, baseUrl) && u[|baseUrl|..] == Path(e)
  {
    baseUrl + Path(e)
  }

  const BaseUrl := "https://api.genalphai.com/api"

  /** Naming a class only appends its query parameter to the schedule path. */
  lemma ScheduleClassSuffix(teacherId: string, timestamp: string, classId: string)
    ensures Path(GetCurrentSchedule(teacherId, timestamp, Some(classId)))
      == Path(GetCurrentSchedule(teacherId, timestamp, None)) + "&class_id=" + classId
  {
  }

  /** The speech endpoints embed the id between fixed segments, so the path determines the id. */
  lemma SpeechPathsDetermineIds(a: string, b: string)
    ensures Path(UploadSpeech(a)) == Path(UploadSpeech(b)) ==> a == b
    ensures Path(GetSpeechStatus(a)) == Path(GetSpeechStatus(b)) ==> a == b
    ensures Path(GetFeedbackContent(a)) == Path(GetFeedbackContent(b)) ==> a == b
  {
    SegmentedInjective("/debates/", a, b, "/speeches");
    SegmentedInjective("/speeches/", a, b, "/status");
    SegmentedInjective("/speeches/", a, b, "/feedback");
  }

  lemma SegmentedInjective(pre: string, a: string, b: string, post: string)
    ensures pre + a + post == pre + b + post ==> a == b
  {
    if pre + a + post == pre + b + post {
      var s := pre + a + post;
      assert |a| == |b|;
      assert a == s[|pre|..|pre| + |a|];
      assert b == (pre + b + post)[|pre|..|pre| + |b|];
    }
  }

  /** The status and feedback paths of one speech differ only in their last segment. */
  lemma StatusAndFeedbackShareSpeech(speechId: string)
    ensures var s := Path(GetSpeechStatus(speechId)); var f := Path(GetFeedbackContent(speechId));
      StartsWith(s, "/speeches/" + speechId + "/") && StartsWith(f, "/speeches/" + speechId + "/")
      && EndsWith(s, "/status") && EndsWith(f, "/feedback")
  {
    var p := "/speeches/" + speechId;
    assert Path(GetSpeechStatus(speechId)) == (p + "/") + "status";
    assert Path(GetFeedbackContent(speechId)) == (p + "/") + "feedback";
    assert Path(GetSpeechStatus(speechId)) == p + "/status";
    assert Path(GetFeedbackContent(speechId)) == p + "/feedback";
  }
}
