/** The reply both versions of `find_mac` compose from the text fragments
    the text-detection service returns: the first fragment, in response
    order, that contains a needle, followed by a fixed suffix; or a fixed
    "not found" message. The lambda function and the scratch script share
    this logic and differ only in the needle. */
module Detection {
  import opened Wrappers
  import opened PyString

  const Suffix: string := " was sent to IT. They'll connect you to the network!"
  const NotFound: string := "No MAC Address in screenshot"

  /** Index of the first fragment that contains `needle`, if any. */
  function FirstMatch(needle: string, texts: seq<string>): (r: Option<nat>)
    ensures r.Some? ==> r.value < |texts| && Contains(needle, texts[r.value])
    ensures r.Some? ==> forall j :: 0 <= j < r.value ==> !Contains(needle, texts[j])
    ensures r.None? <==> forall j :: 0 <= j < |texts| ==> !Contains(needle, texts[j])
  {
    if texts == [] then None
    else if Contains(needle, texts[0]) then Some(0)
    else
      match FirstMatch(needle, texts[1..])
      case None => None
      case Some(k) => Some(k + 1)
  }

  /** The reply message for the fragments `texts`. */
  function Reply(needle: string, texts: seq<string>): string
  {
    match FirstMatch(needle, texts)
    case Some(i) => texts[i] + Suffix
    case None => NotFound
  }

  /** The `for` loop with early return of both `find_mac` functions. */
  method FindReply(needle: string, texts: seq<string>) returns (msg: string)
    ensures msg == Reply(needle, texts)
  {
    for i := 0 to |texts|
      invariant forall j :: 0 <= j < i ==> !Contains(needle, texts[j])
    {
      if Contains(needle, texts[i]) {
        msg := texts[i] + Suffix;
        return;
      }
    }
    msg := NotFound;
  }

  /** The fragment at the smallest matching index wins: the reply is that
      fragment followed by the suffix. */
  lemma ReplyAtFirstMatch(needle: string, texts: seq<string>, i: nat)
    requires i < |texts| && Contains(needle, texts[i])
    requires forall j :: 0 <= j < i ==> !Contains(needle, texts[j])
    ensures Reply(needle, texts) == texts[i] + Suffix
    ensures Reply(needle, texts)[..|texts[i]|] == texts[i]
    ensures Reply(needle, texts)[|texts[i]|..] == Suffix
  {
  }

  /** Without a matching fragment (in particular for no fragments at all)
      the reply is exactly the not-found message. */
  lemma ReplyWithoutMatch(needle: string, texts: seq<string>)
    requires forall j :: 0 <= j < |texts| ==> !Contains(needle, texts[j])
    ensures Reply(needle, texts) == NotFound
  {
  }

  /** The reply is the not-found message exactly when no fragment matches:
      a matched fragment plus the suffix is always longer than it. */
  lemma NotFoundExactlyWithoutMatch(needle: string, texts: seq<string>)
    ensures Reply(needle, texts) == NotFound <==>
            forall j :: 0 <= j < |texts| ==> !Contains(needle, texts[j])
  {
    match FirstMatch(needle, texts)
    case None =>
    case Some(i) =>
      assert |texts[i] + Suffix| >= |Suffix| > |NotFound|;
  }

  /** Matches after the first one are ignored: whatever follows the first
      matching fragment `d`, the reply is `d` plus the suffix. */
  lemma {:induction false} LaterFragmentsIgnored(needle: string, before: seq<string>, d: string, after: seq<string>)
    requires forall j :: 0 <= j < |before| ==> !Contains(needle, before[j])
    requires Contains(needle, d)
    ensures Reply(needle, before + [d] + after) == d + Suffix
  {
    var texts := before + [d] + after;
    assert texts[|before|] == d;
    assert forall j :: 0 <= j < |before| ==> texts[j] == before[j];
    ReplyAtFirstMatch(needle, texts, |before|);
  }

  /** A shorter needle contained in a longer one matches no later: when
      `long` matches, `short` matches too, at the same or an earlier fragment. */
  lemma ShorterNeedleMatchesNoLater(short: string, long: string, texts: seq<string>)
    requires Contains(short, long)
    requires FirstMatch(long, texts).Some?
    ensures FirstMatch(short, texts).Some?
    ensures FirstMatch(short, texts).value <= FirstMatch(long, texts).value
  {
    var k := FirstMatch(long, texts).value;
    ContainsTransitive(short, long, texts[k]);
  }
}
