/**
 * `waitForElement` in youtubeChat.js: look for the chat container, and retry
 * every 100 ms until it appears or the retry counter passes
 * `timeout / 100`. Time is not modelled: the input lists, check by check,
 * whether the element is present at that check.
 */
module Polling {

  /** Milliseconds between two checks. */
  const PollInterval := 100

  /** The timeout `waitForElement` falls back to when its caller gives none. */
  const DefaultTimeout := 10000

  /** The element that holds the chat messages. */
  const ChatContainerSelector := "#item-scroller"

  /**
   * `maxTries = timeout / interval`. JavaScript divides exactly; since the
   * counter it is compared with is a whole number, `tries > timeout / 100`
   * holds exactly when `tries > timeout / 100` rounded down.
   */
  function MaxTries(timeout: nat): nat {
    timeout / PollInterval
  }

  /** How the promise stands after the checks observed. */
  datatype PollOutcome =
    | Found(attempt: nat)       // resolved by the check with this index
    | NotFound(reason: string)  // rejected
    | Waiting                   // neither yet: the observed checks ran out first

  /**
   * The polling loop over `present`, the result of each successive check.
   * `checks` is the number of checks made.
   */
  method WaitForElement(selector: string, timeout: nat, present: seq<bool>)
    returns (outcome: PollOutcome, checks: nat)
    ensures checks <= MaxTries(timeout) + 1 && checks <= |present|
    ensures forall j :: 0 <= j < checks && !outcome.Found? ==> !present[j]
    ensures outcome.Found? ==>
      && outcome.attempt <= MaxTries(timeout)
      && checks == outcome.attempt + 1
      && present[outcome.attempt]
      && forall j :: 0 <= j < outcome.attempt ==> !present[j]
    ensures outcome.NotFound? <==>
      MaxTries(timeout) < |present| && forall j :: 0 <= j <= MaxTries(timeout) ==> !present[j]
    ensures outcome.NotFound? ==> outcome.reason == "Element not found: " + selector && checks == MaxTries(timeout) + 1
    ensures outcome.Waiting? <==>
      |present| <= MaxTries(timeout) && forall j :: 0 <= j < |present| ==> !present[j]
    ensures outcome.Waiting? ==> checks == |present|
  {
    var maxTries := timeout / PollInterval;
    var tries := 0;
    while tries < |present|
      invariant tries <= maxTries && tries <= |present|
      invariant forall j :: 0 <= j < tries ==> !present[j]
    {
      if present[tries] {
        return Found(tries), tries + 1;
      }
      tries := tries + 1;
      if tries > maxTries {
        return NotFound("Element not found: " + selector), tries;
      }
    }
    return Waiting, tries;
  }

  /**
   * The scraper's wait for the chat container, with the default timeout: the
   * page gives up after 101 failed checks, about ten seconds, and never checks
   * more often than that.
   */
  method WaitForChatContainer(present: seq<bool>) returns (outcome: PollOutcome, checks: nat)
    ensures checks <= 101
    ensures outcome.Found? ==> outcome.attempt <= 100 && outcome.attempt < |present| && present[outcome.attempt]
    ensures outcome.NotFound? <==> 100 < |present| && forall j :: 0 <= j <= 100 ==> !present[j]
    ensures outcome.NotFound? ==> outcome.reason == "Element not found: #item-scroller" && checks == 101
  {
    outcome, checks := WaitForElement(ChatContainerSelector, DefaultTimeout, present);
  }
}
