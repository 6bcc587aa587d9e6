/**
 * The retry policy of the summary request (`callGeminiAPI`): up to three
 * attempts, returning on the first successful reply, sleeping 1000 ms and then
 * 2000 ms between failed attempts, and failing after the third failure with no
 * further sleep.
 *
 * The network is not modelled: what each attempt brings back is an input, one
 * `Attempt` per attempt, and the sleeps are recorded in a ghost sequence
 * instead of being waited for.
 */
module Gemini {
  import opened Wrappers

  /** `retries` in the source: the number of attempts made at most. */
  const MAX_ATTEMPTS: nat := 3

  /** The first back-off delay, in milliseconds. */
  const BASE_DELAY: nat := 1000

  /** The reply text used when a successful reply carries none. */
  const NO_SUMMARY: string := "No summary available."

  /** What `response.json()` gives for a reply. */
  datatype Body =
    | Malformed                    // the body does not parse (`response.json()` throws), or parses to `null` (reading `candidates` throws)
    | Parsed(text: Option<string>) // any other value: `candidates[0].content.parts[0].text` when every step of that path exists, else `None`

  /** What one attempt brings back. */
  datatype Attempt =
    | NetworkError                       // `fetch` itself rejects
    | Response(status: int, body: Body)  // an HTTP reply

  /** The error `callGeminiAPI` finally throws. */
  datatype CallError =
    | FetchFailed            // the rejection of `fetch`, rethrown
    | BadStatus(status: int) // "API call failed with status: ..."
    | BadBody                // the error of parsing or reading the body, rethrown

  datatype CallResult = Summary(text: string) | Failed(error: CallError)

  /** `response.ok`: a status in the range 200-299. */
  predicate IsOk(a: Attempt) {
    a.Response? && 200 <= a.status <= 299
  }

  /** An attempt that ends the loop with a summary: an OK reply whose body parses to anything but `null`. */
  predicate Succeeds(a: Attempt) {
    IsOk(a) && a.body.Parsed?
  }

  /** The text returned for a successful reply: its text, or the fallback when that is missing or empty (`|| "No summary available."`). */
  function ReplyText(a: Attempt): (text: string)
    requires Succeeds(a)
    ensures text != ""
    ensures a.body.text.Some? && a.body.text.value != "" ==> text == a.body.text.value
    ensures a.body.text.None? || a.body.text.value == "" ==> text == NO_SUMMARY
  {
    match a.body.text
    case Some(t) => if t != "" then t else NO_SUMMARY
    case None => NO_SUMMARY
  }

  /** The error a failed attempt raises. */
  function FailureOf(a: Attempt): CallError
    requires !Succeeds(a)
  {
    if a.NetworkError? then FetchFailed
    else if !IsOk(a) then BadStatus(a.status)
    else BadBody
  }

  /** Attempt `k` is the first of the call's attempts to succeed. */
  predicate FirstSuccessAt(outcomes: seq<Attempt>, k: nat) {
    && k < MAX_ATTEMPTS && k < |outcomes|
    && Succeeds(outcomes[k])
    && forall j :: 0 <= j < k ==> !Succeeds(outcomes[j])
  }

  /** None of the call's attempts succeeds. */
  predicate AllAttemptsFail(outcomes: seq<Attempt>)
    requires |outcomes| >= MAX_ATTEMPTS
  {
    forall k :: 0 <= k < MAX_ATTEMPTS ==> !Succeeds(outcomes[k])
  }

  function Pow2(n: nat): nat {
    if n == 0 then 1 else 2 * Pow2(n - 1)
  }

  /** The delays slept after the first `n` failed attempts: 1000 ms, doubling each time. */
  function Backoff(n: nat): (delays: seq<nat>)
    ensures |delays| == n
  {
    if n == 0 then [] else Backoff(n - 1) + [BASE_DELAY * Pow2(n - 1)]
  }

  function Sum(s: seq<nat>): nat {
    if |s| == 0 then 0 else Sum(s[..|s| - 1]) + s[|s| - 1]
  }

  /**
   * One call of `callGeminiAPI`: attempt `i` (from 0) brings back
   * `outcomes[i]`. Returns the result, how many attempts were made, and the
   * delays slept between them.
   */
  method CallGemini(outcomes: seq<Attempt>) returns (r: CallResult, attempts: nat, ghost slept: seq<nat>)
    requires |outcomes| >= MAX_ATTEMPTS
    ensures 1 <= attempts <= MAX_ATTEMPTS
    ensures r.Summary? ==> FirstSuccessAt(outcomes, attempts - 1) && r.text == ReplyText(outcomes[attempts - 1])
    ensures r.Failed? ==> AllAttemptsFail(outcomes) && attempts == MAX_ATTEMPTS
    ensures r.Failed? ==> r.error == FailureOf(outcomes[MAX_ATTEMPTS - 1])
    ensures slept == Backoff(attempts - 1)
  {
    var i := 0;
    var delay := BASE_DELAY;
    slept := [];
    while i < MAX_ATTEMPTS
      invariant 0 <= i < MAX_ATTEMPTS
      invariant forall k :: 0 <= k < i ==> !Succeeds(outcomes[k])
      invariant delay == BASE_DELAY * Pow2(i)
      invariant slept == Backoff(i)
      decreases MAX_ATTEMPTS - i
    {
      var a := outcomes[i];
      if Succeeds(a) {
        return Summary(ReplyText(a)), i + 1, slept;
      }
      if i == MAX_ATTEMPTS - 1 {
        return Failed(FailureOf(a)), i + 1, slept;
      }
      slept := slept + [delay];
      delay := delay * 2;
      i := i + 1;
    }
    // The final `throw` after the loop: the third failure has already thrown.
    assert false;
  }

  /** The back-off sequence is 1000 ms and then 2000 ms for the two sleeps the loop can make. */
  lemma BackoffDelays()
    ensures Backoff(MAX_ATTEMPTS - 1) == [1000, 2000]
  {
  }

  /** Each delay is twice the one before it. */
  lemma {:induction false} BackoffDoubles(n: nat, i: nat)
    requires i + 1 < n
    ensures Backoff(n)[i + 1] == 2 * Backoff(n)[i]
  {
    if i + 2 < n {
      BackoffDoubles(n - 1, i);
    } else {
      assert Backoff(n)[i + 1] == BASE_DELAY * Pow2(i + 1);
      assert Backoff(n - 1)[i] == BASE_DELAY * Pow2(i);
    }
  }

  /** Sleeping after `n` failures waits `1000 * (2^n - 1)` ms in all. */
  lemma {:induction false} BackoffTotal(n: nat)
    ensures Sum(Backoff(n)) == BASE_DELAY * (Pow2(n) - 1)
  {
    if n > 0 {
      BackoffTotal(n - 1);
      assert Backoff(n)[..n - 1] == Backoff(n - 1);
    }
  }
}
