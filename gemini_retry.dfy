/** The Gemini client of the workshop page (App.jsx): a missing-key guard,
    then up to five attempts with an exponential back-off between them.
    The network is an oracle `server`, where `server(i)` is what the
    `i`-th attempt observes; the timers are the list of delays waited. */
module GeminiRetry {
  import opened Wrappers

  const MissingKeyMessage: string :=
    "Missing Gemini API key. Set VITE_GEMINI_API_KEY in your .env file."
  const TooManyRequests: string := "Too Many Requests"
  const ApiErrorPrefix: string := "API Error: "
  const NoResponse: string := "No response generated."

  const MaxAttempts: nat := 5
  const InitialDelay: nat := 1000

  /** What one `fetch` attempt observes: an HTTP response (its status, its
      status text and the text at `candidates[0].content.parts[0]`, if
      that path exists), or an exception from `fetch` or from decoding the
      body. */
  datatype Attempt =
    | Response(status: int, statusText: string, text: Option<string>)
    | Thrown(message: string)

  /** `response.ok`. */
  predicate Ok(status: int)
  {
    200 <= status <= 299
  }

  /** How one attempt ends: the text returned, or the message of the error
      that the loop catches. */
  function Outcome(a: Attempt): (o: Result<string, string>)
    ensures a.Thrown? ==> o == Failure(a.message)
    ensures a.Response? && !Ok(a.status) ==>
              o == Failure(if a.status == 429 then TooManyRequests
                           else ApiErrorPrefix + a.statusText)
    ensures a.Response? && Ok(a.status) ==> o.Success? && o.value != ""
    ensures a.Response? && Ok(a.status) && a.text.Some? && a.text.value != "" ==>
              o == Success(a.text.value)
    ensures a.Response? && Ok(a.status) && (a.text == None || a.text == Some("")) ==>
              o == Success(NoResponse)
  {
    match a
    case Thrown(m) => Failure(m)
    case Response(status, statusText, text) =>
      if !Ok(status) then
        if status == 429 then Failure(TooManyRequests)
        else Failure(ApiErrorPrefix + statusText)
      else if text.Some? && text.value != "" then Success(text.value)
      else Success(NoResponse)
  }

  function Pow2(n: nat): nat
  {
    if n == 0 then 1 else 2 * Pow2(n - 1)
  }

  /** The delay waited after the failed attempt `i`. */
  function Delay(i: nat): nat
  {
    InitialDelay * Pow2(i)
  }

  /** The delays waited after the first `k` failed attempts. */
  function Backoff(k: nat): (ws: seq<nat>)
    ensures |ws| == k
    ensures forall j :: 0 <= j < k ==> ws[j] == Delay(j)
  {
    if k == 0 then [] else Backoff(k - 1) + [Delay(k - 1)]
  }

  function Sum(ws: seq<nat>): nat
  {
    if ws == [] then 0 else Sum(ws[..|ws| - 1]) + ws[|ws| - 1]
  }

  /** Each delay doubles the one before. */
  lemma Doubling(i: nat)
    ensures Delay(i + 1) == 2 * Delay(i)
  {
  }

  /** The time waited after `k` failures is 1000 * (2^k - 1) ms. */
  lemma {:induction false} BackoffTotal(k: nat)
    ensures Sum(Backoff(k)) + InitialDelay == InitialDelay * Pow2(k)
  {
    if k > 0 {
      var ws := Backoff(k);
      var p := Pow2(k - 1);
      assert ws == Backoff(k - 1) + [Delay(k - 1)];
      assert ws[..|ws| - 1] == Backoff(k - 1);
      assert Sum(ws) == Sum(Backoff(k - 1)) + Delay(k - 1);
      BackoffTotal(k - 1);
      assert Delay(k - 1) == 1000 * p && Pow2(k) == 2 * p;
    }
  }

  /** Four waits at most: 1, 2, 4 and 8 seconds, 15 seconds in all. */
  lemma WorstCaseWaits()
    ensures Backoff(MaxAttempts - 1) == [1000, 2000, 4000, 8000]
    ensures Sum(Backoff(MaxAttempts - 1)) == 15000
  {
    BackoffTotal(4);
    assert Pow2(4) == 16;
  }

  /** `callGemini(prompt, systemInstruction)`: `r` is the resolved text or
      the rejection message, `attempts` the number of requests sent and
      `waits` the delays waited in between. */
  method CallGemini(apiKey: string, server: nat -> Attempt)
    returns (r: Result<string, string>, attempts: nat, waits: seq<nat>)
    ensures apiKey == "" ==> r == Failure(MissingKeyMessage) && attempts == 0 && waits == []
    ensures apiKey != "" ==> 1 <= attempts <= MaxAttempts
    ensures apiKey != "" ==> r == Outcome(server(attempts - 1))
    ensures apiKey != "" ==> forall j :: 0 <= j < attempts - 1 ==> Outcome(server(j)).Failure?
    ensures apiKey != "" && r.Failure? ==> attempts == MaxAttempts
    ensures apiKey != "" ==> waits == Backoff(attempts - 1)
  {
    if apiKey == "" {
      return Failure(MissingKeyMessage), 0, [];
    }
    var delay := InitialDelay;
    waits := [];
    var i := 0;
    while i < MaxAttempts
      invariant 0 <= i <= MaxAttempts - 1
      invariant delay == Delay(i) && waits == Backoff(i)
      invariant forall j :: 0 <= j < i ==> Outcome(server(j)).Failure?
    {
      var o := Outcome(server(i));
      if o.Success? {
        return o, i + 1, waits;
      }
      if i == MaxAttempts - 1 {
        return o, i + 1, waits;
      }
      waits := waits + [delay];
      delay := delay * 2;
      i := i + 1;
    }
    assert false;
  }
}
