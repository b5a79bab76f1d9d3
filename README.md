# Slack MAC-address bot: a Dafny model of its decision core

The repository is a Slack webhook handler for AWS Lambda. A user shares a
screenshot in Slack. The handler downloads the image, asks Amazon Rekognition
to detect text in it, looks for a fragment containing "MAC Address" and posts
a reply to the channel. A scratch script (`main.py`) runs the same matching
loop over a saved Rekognition response, with the shorter needle "MAC".

The model covers everything in that flow that is not a network call:

- `PyString`: Python's `needle in s` on strings, proved equal to "occurs at
  some index".
- `Detection`: the first-match reply both versions of `find_mac` compose. It
  gives the index of the first matching fragment, the reply as a function, and
  the `for` loop with early return as a method proved against that function.
- `LambdaFindMac` (`lambda_functions/find_mac.py`): the constants
  `SUPPORTED_TYPES` and `MAX_SIZE`, `verify_token`, `validate_event`, the
  matching part of `find_mac`, and `lambda_handler`. The handler is a method
  that returns an `Outcome` and the list of outbound calls it made.
- `ScratchMain` (`main.py`): the scratch `find_mac` with the needle "MAC".

The Lambda event is modelled as nested records. Each dictionary key the
source reads with `d['k']` is an `Option`, because a missing key raises
`KeyError`. A raise inside the handler's `try` block becomes
`Outcome.Failed(error)`. The `headers` lookup sits outside the `try` block,
so a missing `headers` key becomes `Outcome.Escaped`. The check order is kept
exactly. For example, `validate_event` reads both `mimetype` and `size` before
it tests the type, so a missing `size` raises even when the type is
unsupported.

The download, the Rekognition call and the Slack post are injected as total
functions in a `Services` value. A `None` or `false` result stands for the
exception the real call would raise. The configuration (`VERIFICATION_TOKEN`,
`ACCESS_TOKEN`) is an immutable `Config` parameter.

Where the docstring of `validate_event` (lambda_functions/find_mac.py:84-93) and the code differ, the model follows the code. The docstring lists only `event` among the arguments and promises simply `False` for an unsupported event:

- An event that is missing a field `validate_event` reads does not simply
  fail validation. The lookup raises, and the handler catches it and logs it.
  The caller sees the same `None` either way (`LambdaFindMac.LambdaHandler`
  applies `LambdaFindMac.Returned` to its outcome).
- `validate_event` takes a `token` argument that it never uses.

## Model

| member | source | states |
|---|---|---|
| PyString.Contains | lambda_functions/find_mac.py:173 | Python's substring test holds exactly when the needle occurs at some index of the string; the empty needle is contained everywhere |
| Detection.FirstMatch | lambda_functions/find_mac.py:172-174 | the chosen index holds a fragment containing the needle and is the smallest such index; no index exactly when no fragment contains the needle |
| Detection.FindReply | lambda_functions/find_mac.py:171-176 | the loop with early return yields the reply of the first match, or the not-found message once every fragment has been checked |
| Detection.ReplyAtFirstMatch | main.py:9-12 | when fragment i contains the needle and none before it does, the reply is fragment i plus the fixed suffix; it starts with the fragment and ends with the suffix |
| Detection.ReplyWithoutMatch | lambda_functions/find_mac.py:176 | with no matching fragment, the empty list included, the reply is exactly "No MAC Address in screenshot" |
| Detection.NotFoundExactlyWithoutMatch | main.py:13 | the reply equals the not-found message if and only if no fragment contains the needle: a matched reply can never take that shape |
| Detection.LaterFragmentsIgnored | lambda_functions/find_mac.py:172-175 | whatever follows the first matching fragment d, the reply is d plus the suffix |
| Detection.ShorterNeedleMatchesNoLater | main.py:10 | a needle contained in a longer one matches whenever the longer one does, at the same or an earlier fragment |
| LambdaFindMac.VerifyToken | lambda_functions/find_mac.py:77-80 | true exactly when the presented token equals the configured verification token, false when it differs, a KeyError when there is no token |
| LambdaFindMac.ValidateEvent | lambda_functions/find_mac.py:83-129 | no event raises KeyError; a subtype other than "file_share", absent included, is rejected before any file is read; accepted exactly when the subtype is "file_share" and the first file has a supported type and a size of at most 5242880; raises only when a field it reads is missing |
| LambdaFindMac.UnsupportedTypeRejected | lambda_functions/find_mac.py:117-123 | a first file whose type is not image/jpeg, image/jpg or image/png is rejected, whatever its size |
| LambdaFindMac.SizeLimitInclusive | lambda_functions/find_mac.py:125-129 | a supported image is accepted exactly when its size is at most 5242880, so 5242880 itself passes |
| LambdaFindMac.OnlyFirstFileInspected | lambda_functions/find_mac.py:117-119 | files after the first never change the verdict of validate_event |
| LambdaFindMac.TokenArgumentUnused | lambda_functions/find_mac.py:83 | the token argument of validate_event has no effect on its result |
| LambdaFindMac.DetectMac | lambda_functions/find_mac.py:148-176 | a detection failure is re-raised; otherwise the result is the "MAC Address" reply for the detected fragments |
| LambdaFindMac.Returned | lambda_functions/find_mac.py:17-62 | only a retry (200) and a challenge ({'challenge': v}) are visible to the caller; rejections, caught failures and normal completion all return None; only an escaped exception returns nothing |
| LambdaFindMac.LambdaHandler | lambda_functions/find_mac.py:17-62 | a retry header is acknowledged with no call; a wrong token is ignored even when a challenge is present; a challenge is echoed verbatim with no validation, and only then; an invalid event is ignored; a missing body, token or field read by validate_event ends as the caught KeyError or IndexError; no call happens unless every guard passes, and the first call downloads the first file's URL with the bearer token; there is at most one post and nothing after it; a reply goes out exactly when the guards pass and nothing raises, to the event's channel, with the text built from the detected fragments; past the guards, a missing channel, url_private or id fails before any call, a failed download stops after the download, a failed detection stops after the detection, and a failed post is the third and last call; every outcome except a retry, a challenge or an escaped exception returns None |
| LambdaFindMac.ExampleReply | lambda_functions/find_mac.py:171-175 | for the fragments "foo", "MAC Address 00:11:22:33:44:55", "bar" the reply is the second fragment followed by the suffix |
| ScratchMain.FindMac | main.py:4-13 | the scratch loop gives the reply for the needle "MAC"; it is the not-found message exactly when no fragment contains "MAC" |
| ScratchMain.MatchesNoLaterThanLambda | main.py:10 | whenever the lambda version finds "MAC Address", the scratch version finds "MAC" at the same or an earlier fragment |
| ScratchMain.NeedlesDiffer | main.py:10-12 | the fragment "MAC 0A:1B" is a match for the scratch script and not for the lambda function |

## Left out

- `download_image` and `post_message` (lambda_functions/find_mac.py:132-145, 179-200) are network I/O. Each is an injected function, and the handler records the call with its URL, channel, text and tokens. The Authorization header and the form encoding it builds are not modelled.
- The Rekognition client and `detect_text` request (lambda_functions/find_mac.py:14, 160-169) call a foreign service. Each call is an injected function that returns the DetectedText strings or fails. Other fields of a TextDetection are not modelled. The response is assumed to always have `TextDetections` and `DetectedText`.
- Reading `VERIFICATION_TOKEN` and `ACCESS_TOKEN` from the environment (lambda_functions/find_mac.py:11-12) is process setup. It becomes the `Config` parameter, and a missing variable (a failure at start-up) is not modelled.
- `print` and `logging` output, and the commented-out `files.info` code, have no effect on the outcome.
- main.py's reading of `response.json` and its module-level `print` (main.py:5-6, 16) are file I/O and output. `ScratchMain.FindMac` takes the DetectedText strings directly.
- Python's dynamic types are not modelled. Tokens, channels, URLs and types are strings, and sizes are integers. A body given as an unparsed JSON string, a `headers` value of null (a TypeError rather than a KeyError) and a comparison of non-integer sizes are left out.
- Exceptions are modelled as values (`Error`, `Outcome.Failed`, `Outcome.Escaped`), not as control flow. Only the kind of exception and, for KeyError, the missing key are kept.
