/** The scratch script main.py: the matching loop of `find_mac` run over
    the TextDetections of a saved response, with the shorter needle "MAC".
    Reading and parsing the saved response is not modelled: the loop gets
    the DetectedText strings directly. */
module ScratchMain {
  import opened Wrappers
  import opened PyString
  import opened Detection
  import LambdaFindMac

  /** The needle of the scratch version. */
  const Needle: string := "MAC"

  /** `find_mac` of main.py: the first fragment containing "MAC" plus the
      suffix, or the not-found message. */
  method FindMac(texts: seq<string>) returns (msg: string)
    ensures msg == Reply(Needle, texts)
    ensures msg == NotFound <==> forall j :: 0 <= j < |texts| ==> !Contains(Needle, texts[j])
  {
    msg := FindReply(Needle, texts);
    NotFoundExactlyWithoutMatch(Needle, texts);
  }

  /** The scratch needle is found no later than the lambda function's:
      every fragment containing "MAC Address" contains "MAC". */
  lemma MatchesNoLaterThanLambda(texts: seq<string>)
    requires FirstMatch(LambdaFindMac.Needle, texts).Some?
    ensures FirstMatch(Needle, texts).Some?
    ensures FirstMatch(Needle, texts).value <= FirstMatch(LambdaFindMac.Needle, texts).value
  {
    assert OccursAt(Needle, LambdaFindMac.Needle, 0);
    ShorterNeedleMatchesNoLater(Needle, LambdaFindMac.Needle, texts);
  }

  /** A fragment with "MAC" but without "MAC Address" separates the two:
      the scratch version replies with it, the lambda function does not. */
  lemma NeedlesDiffer()
    ensures Reply(Needle, ["MAC 0A:1B"]) == "MAC 0A:1B" + Suffix
    ensures Reply(LambdaFindMac.Needle, ["MAC 0A:1B"]) == NotFound
  {
  }
}
