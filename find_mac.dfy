/** The Slack webhook handler for AWS Lambda (lambda_functions/find_mac.py).

    The Lambda event is modelled as nested records whose optional fields
    stand for dictionary keys that may be absent: a lookup `d['k']` of an
    absent key raises `KeyError`, which the model returns as
    `Failure(KeyError("k"))`. The three outbound calls (image download,
    text detection, message post) are injected as the total functions of a
    `Services` value; `None`/`false` from one of them stands for the
    exception the real call would raise. */
module LambdaFindMac {
  import opened Wrappers
  import opened Detection

  /** Image types the text-detection service accepts. */
  const SupportedTypes: seq<string> := ["image/jpeg", "image/jpg", "image/png"]
  /** Largest image, in bytes, the text-detection service accepts (5 MiB). */
  const MaxSize: int := 5242880
  /** Header Slack adds when it redelivers an event. */
  const RetryHeader: string := "X-Slack-Retry-Num"
  /** The only event subtype that is processed. */
  const FileShare: string := "file_share"
  /** The text searched for among the detected fragments. */
  const Needle: string := "MAC Address"

  newtype byte = x: int | 0 <= x < 256

  /** VERIFICATION_TOKEN and ACCESS_TOKEN, read once from the environment. */
  datatype Config = Config(verificationToken: string, accessToken: string)

  /** One entry of `event['event']['files']`. */
  datatype FileDetails = FileDetails(
    mimetype: Option<string>,
    size: Option<int>,
    id: Option<string>,
    urlPrivate: Option<string>)

  /** `event['event']`: `subtype` is read with `.get`, the others by indexing. */
  datatype EventDetails = EventDetails(
    subtype: Option<string>,
    channel: Option<string>,
    files: Option<seq<FileDetails>>)

  /** `event['body']`, the Slack event payload; a `challenge` of `None`
      stands for an absent key and for a JSON null alike. */
  datatype Body = Body(
    token: Option<string>,
    challenge: Option<string>,
    event: Option<EventDetails>)

  /** The Lambda event: the names of its HTTP headers and its body. */
  datatype Request = Request(headers: Option<set<string>>, body: Option<Body>)

  /** What a step can raise. */
  datatype Error = KeyError(key: string) | IndexError | DownloadError | DetectionError | PostError

  /** The outbound calls, as injected functions:
      `download(url, bearer)` fetches the private file URL,
      `detectText(image)` returns the DetectedText of every TextDetection,
      `postMessage(token, channel, text)` is false when the POST raises. */
  datatype Services = Services(
    download: (string, string) -> Option<seq<byte>>,
    detectText: seq<byte> -> Option<seq<string>>,
    postMessage: (string, string, string) -> bool)

  /** One outbound call the handler made, in order. */
  datatype Call =
    | Download(url: string, bearer: string)
    | DetectText(image: seq<byte>)
    | PostMessage(token: string, channel: string, text: string)

  /** How one invocation of the handler ends. */
  datatype Outcome =
    | Acknowledged                          // returns 200
    | ChallengeEcho(challenge: string)      // returns {'challenge': challenge}
    | Ignored                               // a guard rejected the event; returns None
    | Replied(channel: string, text: string) // posted the reply; returns None
    | Failed(error: Error)                  // raised inside the try block, logged; returns None
    | Escaped(error: Error)                 // raised before the try block; propagates

  /** The Python value the handler gives back to the Lambda runtime. */
  datatype PyValue = PyInt(i: int) | PyDict(key: string, val: string) | PyNone

  /** The returned value (`None` when an exception propagates instead): only
      retries and challenges are visible; every rejection, failure and
      normal completion looks the same to the caller. */
  function Returned(o: Outcome): (v: Option<PyValue>)
    ensures v.None? <==> o.Escaped?
    ensures v == Some(PyInt(200)) <==> o == Acknowledged
    ensures v.Some? && v.value.PyDict? <==> o.ChallengeEcho?
    ensures o.ChallengeEcho? ==> v == Some(PyDict("challenge", o.challenge))
    ensures v == Some(PyNone) <==> o.Ignored? || o.Replied? || o.Failed?
  {
    match o
    case Acknowledged => Some(PyInt(200))
    case ChallengeEcho(c) => Some(PyDict("challenge", c))
    case Escaped(_) => None
    case _ => Some(PyNone)
  }

  /** `verify_token`: whether the presented token is the configured one. */
  function VerifyToken(cfg: Config, body: Body): (r: Result<bool, Error>)
    ensures r == Success(true) <==> body.token == Some(cfg.verificationToken)
    ensures r == Success(false) <==> body.token.Some? && body.token.value != cfg.verificationToken
    ensures r.Failure? ==> r.error == KeyError("token")
  {
    match body.token
    case None => Failure(KeyError("token"))
    case Some(t) => Success(t == cfg.verificationToken)
  }

  /** `files[0]` of the event, when the event, its file list and that
      first entry exist. */
  function FirstFile(body: Body): Option<FileDetails>
  {
    if body.event.Some? && body.event.value.files.Some? && |body.event.value.files.value| > 0
    then Some(body.event.value.files.value[0])
    else None
  }

  /** The size and type limits on the first file. */
  predicate SupportedImage(f: FileDetails)
  {
    f.mimetype.Some? && f.mimetype.value in SupportedTypes &&
    f.size.Some? && f.size.value <= MaxSize
  }

  /** `validate_event`: a file-share event whose first file is an image of
      a supported type and size. `token` is passed but never used. */
  function ValidateEvent(body: Body, token: string): (r: Result<bool, Error>)
    ensures body.event.None? ==> r == Failure(KeyError("event"))
    ensures body.event.Some? && body.event.value.subtype != Some(FileShare) ==> r == Success(false)
    ensures r == Success(true) <==>
            body.event.Some? && body.event.value.subtype == Some(FileShare) &&
            FirstFile(body).Some? && SupportedImage(FirstFile(body).value)
    ensures r.Failure? ==>
            body.event.None? || FirstFile(body).None? ||
            FirstFile(body).value.mimetype.None? || FirstFile(body).value.size.None?
  {
    match body.event
    case None => Failure(KeyError("event"))
    case Some(ev) =>
      if ev.subtype != Some(FileShare) then Success(false)
      else
        match ev.files
        case None => Failure(KeyError("files"))
        case Some(files) =>
          if |files| == 0 then Failure(IndexError)
          else
            match files[0].mimetype
            case None => Failure(KeyError("mimetype"))
            case Some(mime) =>
              match files[0].size
              case None => Failure(KeyError("size"))
              case Some(size) =>
                if mime !in SupportedTypes then Success(false)
                else if size > MaxSize then Success(false)
                else Success(true)
  }

  /** An unsupported type is rejected, whatever the size, once both keys exist. */
  lemma UnsupportedTypeRejected(body: Body, token: string)
    requires body.event.Some? && body.event.value.subtype == Some(FileShare)
    requires FirstFile(body).Some? && FirstFile(body).value.size.Some?
    requires FirstFile(body).value.mimetype.Some?
    requires FirstFile(body).value.mimetype.value !in SupportedTypes
    ensures ValidateEvent(body, token) == Success(false)
  {
  }

  /** The size limit is inclusive: a supported image is accepted exactly
      when its size is at most MaxSize. */
  lemma SizeLimitInclusive(body: Body, token: string)
    requires body.event.Some? && body.event.value.subtype == Some(FileShare)
    requires FirstFile(body).Some? && FirstFile(body).value.size.Some?
    requires FirstFile(body).value.mimetype.Some?
    requires FirstFile(body).value.mimetype.value in SupportedTypes
    ensures ValidateEvent(body, token) == Success(FirstFile(body).value.size.value <= MaxSize)
  {
  }

  /** Only the first file is inspected: files after it never change the verdict. */
  lemma OnlyFirstFileInspected(body: Body, ev: EventDetails, f: FileDetails, more: seq<FileDetails>, token: string)
    ensures ValidateEvent(body.(event := Some(ev.(files := Some([f] + more)))), token)
         == ValidateEvent(body.(event := Some(ev.(files := Some([f])))), token)
  {
  }

  /** The `token` argument of `validate_event` does not affect its result. */
  lemma TokenArgumentUnused(body: Body, t1: string, t2: string)
    ensures ValidateEvent(body, t1) == ValidateEvent(body, t2)
  {
  }

  /** `find_mac` of the lambda function: detect text in the image, then
      reply with the first fragment containing "MAC Address". A detection
      failure is re-raised. */
  method DetectMac(svc: Services, image: seq<byte>) returns (r: Result<string, Error>)
    ensures r.Failure? <==> svc.detectText(image).None?
    ensures r.Failure? ==> r.error == DetectionError
    ensures r.Success? ==> r.value == Reply(Needle, svc.detectText(image).value)
  {
    var response := svc.detectText(image);
    if response.None? {
      return Failure(DetectionError);
    }
    var message := FindReply(Needle, response.value);
    r := Success(message);
  }

  /** The handler gets past the retry check into its try block. */
  predicate ReachesTry(req: Request)
  {
    req.headers.Some? && RetryHeader !in req.headers.value
  }

  /** Every guard of the handler passed: no retry header, a body whose
      token is the configured one, no challenge, and a valid event. */
  predicate PassesGuards(cfg: Config, req: Request)
  {
    req.headers.Some? && RetryHeader !in req.headers.value &&
    req.body.Some? && VerifyToken(cfg, req.body.value) == Success(true) &&
    req.body.value.challenge.None? &&
    ValidateEvent(req.body.value, req.body.value.token.value) == Success(true)
  }

  /** After the guards, nothing raises: the channel, URL and file id exist
      and download, detection and post all succeed. */
  ghost predicate RunsClean(cfg: Config, svc: Services, ev: EventDetails)
  {
    ev.files.Some? && |ev.files.value| > 0 &&
    ev.channel.Some? && ev.files.value[0].urlPrivate.Some? && ev.files.value[0].id.Some? &&
    var image := svc.download(ev.files.value[0].urlPrivate.value, cfg.accessToken);
    image.Some? &&
    var texts := svc.detectText(image.value);
    texts.Some? &&
    svc.postMessage(cfg.accessToken, ev.channel.value, Reply(Needle, texts.value))
  }

  /** `lambda_handler`: the guard chain, then download, detection and one
      reply to the event's channel; `calls` lists the outbound calls made. */
  method LambdaHandler(cfg: Config, svc: Services, req: Request) returns (outcome: Outcome, calls: seq<Call>)
    // Reading the headers happens outside the try block.
    ensures req.headers.None? ==> outcome == Escaped(KeyError("headers")) && calls == []
    ensures outcome.Escaped? ==> req.headers.None?
    // A retry is acknowledged without looking at the body.
    ensures req.headers.Some? && RetryHeader in req.headers.value ==> outcome == Acknowledged && calls == []
    ensures outcome == Acknowledged ==> req.headers.Some? && RetryHeader in req.headers.value
    // A wrong token is ignored, even when a challenge is present.
    ensures (req.headers.Some? && RetryHeader !in req.headers.value && req.body.Some? &&
             VerifyToken(cfg, req.body.value) == Success(false)) ==>
            outcome == Ignored && calls == []
    // With the right token, a challenge is echoed without validation.
    ensures (req.headers.Some? && RetryHeader !in req.headers.value && req.body.Some? &&
             VerifyToken(cfg, req.body.value) == Success(true) && req.body.value.challenge.Some?) ==>
            outcome == ChallengeEcho(req.body.value.challenge.value) && calls == []
    ensures outcome.ChallengeEcho? ==>
            ReachesTry(req) && req.body.Some? && VerifyToken(cfg, req.body.value) == Success(true) &&
            req.body.value.challenge == Some(outcome.challenge)
    // A missing body or token raises KeyError inside the try block.
    ensures ReachesTry(req) && req.body.None? ==> outcome == Failed(KeyError("body")) && calls == []
    ensures (ReachesTry(req) && req.body.Some? && VerifyToken(cfg, req.body.value).Failure?) ==>
            outcome == Failed(KeyError("token")) && calls == []
    // So does a field validate_event reads but cannot find.
    ensures (ReachesTry(req) && req.body.Some? && VerifyToken(cfg, req.body.value) == Success(true) &&
             req.body.value.challenge.None? &&
             ValidateEvent(req.body.value, req.body.value.token.value).Failure?) ==>
            outcome == Failed(ValidateEvent(req.body.value, req.body.value.token.value).error) && calls == []
    // Past the guards, each step that raises ends the handler there, with no later call.
    ensures PassesGuards(cfg, req) ==>
            var ev := req.body.value.event.value;
            var file := ev.files.value[0];
            (ev.channel.None? ==> outcome == Failed(KeyError("channel")) && calls == []) &&
            (ev.channel.Some? && file.urlPrivate.None? ==>
               outcome == Failed(KeyError("url_private")) && calls == []) &&
            (ev.channel.Some? && file.urlPrivate.Some? && file.id.None? ==>
               outcome == Failed(KeyError("id")) && calls == [])
    ensures (PassesGuards(cfg, req) &&
             var ev := req.body.value.event.value;
             var file := ev.files.value[0];
             ev.channel.Some? && file.urlPrivate.Some? && file.id.Some?) ==>
            var ev := req.body.value.event.value;
            var url := ev.files.value[0].urlPrivate.value;
            var image := svc.download(url, cfg.accessToken);
            (image.None? ==>
               outcome == Failed(DownloadError) && calls == [Download(url, cfg.accessToken)]) &&
            (image.Some? && svc.detectText(image.value).None? ==>
               outcome == Failed(DetectionError) &&
               calls == [Download(url, cfg.accessToken), DetectText(image.value)]) &&
            (image.Some? && svc.detectText(image.value).Some? &&
             !svc.postMessage(cfg.accessToken, ev.channel.value, Reply(Needle, svc.detectText(image.value).value)) ==>
               outcome == Failed(PostError) &&
               calls == [Download(url, cfg.accessToken), DetectText(image.value),
                         PostMessage(cfg.accessToken, ev.channel.value, Reply(Needle, svc.detectText(image.value).value))])
    // Rejections, caught failures and normal completion all return None to the caller.
    ensures Returned(outcome) == Some(PyNone) <==> ReachesTry(req) && !outcome.ChallengeEcho?
    // An event that fails validation is ignored.
    ensures (req.headers.Some? && RetryHeader !in req.headers.value && req.body.Some? &&
             VerifyToken(cfg, req.body.value) == Success(true) && req.body.value.challenge.None? &&
             ValidateEvent(req.body.value, req.body.value.token.value) == Success(false)) ==>
            outcome == Ignored && calls == []
    // Nothing is downloaded, detected or posted unless every guard passed.
    ensures calls != [] ==> PassesGuards(cfg, req)
    // The first call is the download of the first file's private URL with the bearer token.
    ensures calls != [] ==>
            req.body.value.event.value.files.value[0].urlPrivate.Some? &&
            calls[0] == Download(req.body.value.event.value.files.value[0].urlPrivate.value, cfg.accessToken)
    // At most one post, and nothing happens after it.
    ensures |calls| <= 3
    ensures forall i :: 0 <= i < |calls| && calls[i].PostMessage? ==> i == |calls| - 1
    // A reply is sent exactly when the guards pass and nothing raises ...
    ensures outcome.Replied? <==> PassesGuards(cfg, req) && RunsClean(cfg, svc, req.body.value.event.value)
    // ... and when the guards pass but something raises, the handler ends quietly.
    ensures PassesGuards(cfg, req) && !RunsClean(cfg, svc, req.body.value.event.value) ==> outcome.Failed?
    // The reply goes to the event's channel, with the text built from the detected fragments.
    ensures outcome.Replied? ==>
            var ev := req.body.value.event.value;
            var image := svc.download(ev.files.value[0].urlPrivate.value, cfg.accessToken);
            ev.channel == Some(outcome.channel) &&
            outcome.text == Reply(Needle, svc.detectText(image.value).value) &&
            calls == [Download(ev.files.value[0].urlPrivate.value, cfg.accessToken),
                      DetectText(image.value),
                      PostMessage(cfg.accessToken, outcome.channel, outcome.text)]
    // A post was attempted exactly when the reply went out or the post itself failed.
    ensures (exists i :: 0 <= i < |calls| && calls[i].PostMessage?) <==>
            outcome.Replied? || outcome == Failed(PostError)
  {
    calls := [];
    if req.headers.None? {
      return Escaped(KeyError("headers")), calls;
    }
    if RetryHeader in req.headers.value {
      return Acknowledged, calls;
    }
    // try:
    if req.body.None? {
      return Failed(KeyError("body")), calls;
    }
    var body := req.body.value;
    var verified := VerifyToken(cfg, body);
    if verified.Failure? {
      return Failed(verified.error), calls;
    }
    if !verified.value {
      return Ignored, calls;
    }
    if body.challenge.Some? {
      return ChallengeEcho(body.challenge.value), calls;
    }
    var valid := ValidateEvent(body, body.token.value);
    if valid.Failure? {
      return Failed(valid.error), calls;
    }
    if !valid.value {
      return Ignored, calls;
    }
    var ev := body.event.value;
    var file := ev.files.value[0];
    if ev.channel.None? {
      return Failed(KeyError("channel")), calls;
    }
    if file.urlPrivate.None? {
      return Failed(KeyError("url_private")), calls;
    }
    if file.id.None? {
      return Failed(KeyError("id")), calls;
    }
    var channel, url := ev.channel.value, file.urlPrivate.value;
    calls := calls + [Download(url, cfg.accessToken)];
    var image := svc.download(url, cfg.accessToken);
    if image.None? {
      return Failed(DownloadError), calls;
    }
    calls := calls + [DetectText(image.value)];
    var message := DetectMac(svc, image.value);
    if message.Failure? {
      return Failed(message.error), calls;
    }
    calls := calls + [PostMessage(cfg.accessToken, channel, message.value)];
    assert calls[2].PostMessage?;
    if !svc.postMessage(cfg.accessToken, channel, message.value) {
      return Failed(PostError), calls;
    }
    outcome := Replied(channel, message.value);
  }

  /** The reply for the fragments of the example screenshot. */
  lemma ExampleReply()
    ensures Reply(Needle, ["foo", "MAC Address 00:11:22:33:44:55", "bar"])
         == "MAC Address 00:11:22:33:44:55" + Suffix
  {
    var texts := ["foo", "MAC Address 00:11:22:33:44:55", "bar"];
    assert !PyString.Contains(Needle, texts[0]);
    assert PyString.Contains(Needle, texts[1]);
    ReplyAtFirstMatch(Needle, texts, 1);
  }
}
