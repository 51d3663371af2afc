/**
 * The request-orchestration helpers of services/geminiService.ts:
 * data-URL stripping, the transient-error retry policy, the shaping of an
 * image-edit response and the suggestion flow that turns failures into [].
 *
 * The remote model is not modelled: each remote call is replaced by its
 * outcome (a response or the error it threw), and `JSON.parse` by an
 * oracle that either yields a suggestion list or fails.
 */
module GeminiService {
  import opened Types

  // ---------------------------------------------------------------------
  // cleanBase64: `s.includes(",") ? s.split(",")[1] : s`
  // ---------------------------------------------------------------------

  /** The index of the first comma in `s`, or `|s|` when there is none. */
  function IndexOfComma(s: string): (i: nat)
    ensures i <= |s|
    ensures i < |s| ==> s[i] == ','
    ensures forall j :: 0 <= j < i ==> s[j] != ','
  {
    if s == [] || s[0] == ',' then 0 else 1 + IndexOfComma(s[1..])
  }

  /** The inverse of `Split`: the segments glued back together with commas. */
  function Join(parts: seq<string>): string
    requires |parts| >= 1
  {
    if |parts| == 1 then parts[0] else parts[0] + "," + Join(parts[1..])
  }

  /** JavaScript's `s.split(",")`: the comma-free segments of `s`, in order. */
  function Split(s: string): (parts: seq<string>)
    ensures |parts| >= 1
    ensures forall k :: 0 <= k < |parts| ==> ',' !in parts[k]
    ensures Join(parts) == s
    decreases |s|
  {
    var i := IndexOfComma(s);
    if i == |s| then
      [s]
    else
      var tail := Split(s[i + 1..]);
      assert s == s[..i] + "," + s[i + 1..];
      assert ([s[..i]] + tail)[1..] == tail;
      [s[..i]] + tail
  }

  /** Strips a data-URL prefix: everything up to the first comma, and
      everything from a second comma on. */
  function CleanBase64(base64: string): (r: string)
    ensures ',' !in base64 ==> r == base64
    ensures ',' !in r
  {
    if ',' in base64 then
      var parts := Split(base64);
      parts[1]
    else
      base64
  }

  /** With a comma present, the result is the segment after the first comma,
      up to the next comma or the end. */
  lemma CleanBase64TakesSecondSegment(s: string)
    requires ',' in s
    ensures var rest := s[IndexOfComma(s) + 1..];
            CleanBase64(s) == rest[..IndexOfComma(rest)]
  {
    var i := IndexOfComma(s);
    var rest := s[i + 1..];
    assert Split(s) == [s[..i]] + Split(rest);
    if IndexOfComma(rest) == |rest| {
      assert rest[..|rest|] == rest;
    }
  }

  /** Cleaning an already clean string changes nothing. */
  lemma CleanBase64Idempotent(s: string)
    ensures CleanBase64(CleanBase64(s)) == CleanBase64(s)
  {
  }

  lemma IndexOfCommaAfterCommaFree(prefix: string, rest: string)
    requires ',' !in prefix
    ensures IndexOfComma(prefix + "," + rest) == |prefix|
  {
    var s := prefix + "," + rest;
    var i := IndexOfComma(s);
    assert s[|prefix|] == ',';
  }

  /** A data URL `<header>,<payload>` with a comma-free header and payload
      is stripped to exactly its payload. */
  lemma CleanBase64StripsDataUrl(header: string, payload: string)
    requires ',' !in header && ',' !in payload
    ensures CleanBase64(header + "," + payload) == payload
  {
    var s := header + "," + payload;
    IndexOfCommaAfterCommaFree(header, payload);
    assert s[..|header|] == header;
    assert s[|header| + 1..] == payload;
    assert Split(s) == [header] + Split(payload);
  }

  /** Splitting a comma-join of comma-free segments gives the segments back. */
  lemma {:induction false} SplitJoin(parts: seq<string>)
    requires |parts| >= 1
    requires forall k :: 0 <= k < |parts| ==> ',' !in parts[k]
    ensures Split(Join(parts)) == parts
  {
    if |parts| == 1 {
      assert IndexOfComma(parts[0]) == |parts[0]|;
    } else {
      var s := Join(parts);
      var tail := Join(parts[1..]);
      IndexOfCommaAfterCommaFree(parts[0], tail);
      assert s[|parts[0]| + 1..] == tail;
      assert s[..|parts[0]|] == parts[0];
      SplitJoin(parts[1..]);
    }
  }

  // ---------------------------------------------------------------------
  // Transient-error classification
  // ---------------------------------------------------------------------

  /** `sub` occurs in `s` starting at index `i`. */
  ghost predicate OccursAt(s: string, sub: string, i: int)
  {
    0 <= i && i + |sub| <= |s| && s[i..i + |sub|] == sub
  }

  /** JavaScript's `s.includes(sub)`: a case-sensitive substring search. */
  function Includes(s: string, sub: string): bool
    decreases |s|
  {
    if |s| < |sub| then false
    else s[..|sub|] == sub || Includes(s[1..], sub)
  }

  lemma {:induction false} IncludesIffOccurs(s: string, sub: string)
    ensures Includes(s, sub) <==> exists i :: OccursAt(s, sub, i)
    decreases |s|
  {
    if |s| < |sub| {
    } else if s[..|sub|] == sub {
      assert OccursAt(s, sub, 0);
    } else {
      IncludesIffOccurs(s[1..], sub);
      if Includes(s[1..], sub) {
        var i :| OccursAt(s[1..], sub, i);
        assert s[1..][i..i + |sub|] == s[i + 1..i + 1 + |sub|];
        assert OccursAt(s, sub, i + 1);
      }
      if exists i :: OccursAt(s, sub, i) {
        var i :| OccursAt(s, sub, i);
        assert i != 0;
        assert s[1..][i - 1..i - 1 + |sub|] == s[i..i + |sub|];
        assert OccursAt(s[1..], sub, i - 1);
      }
    }
  }

  /** An error is worth retrying when its message mentions an HTTP 500,
      an XHR failure or an RPC failure. */
  predicate IsTransient(e: Exception)
  {
    Includes(e.message, "500") || Includes(e.message, "xhr") || Includes(e.message, "Rpc failed")
  }

  /** Transience is exactly the case-sensitive occurrence of one of the
      three markers somewhere in the message. */
  lemma IsTransientIff(e: Exception)
    ensures IsTransient(e) <==>
              (exists i :: OccursAt(e.message, "500", i))
              || (exists i :: OccursAt(e.message, "xhr", i))
              || (exists i :: OccursAt(e.message, "Rpc failed", i))
  {
    IncludesIffOccurs(e.message, "500");
    IncludesIffOccurs(e.message, "xhr");
    IncludesIffOccurs(e.message, "Rpc failed");
  }

  /** The match does not fold case: "xhr" is transient, "XHR" is terminal. */
  lemma TransientMatchIsCaseSensitive()
    ensures IsTransient(Exception("xhr"))
    ensures !IsTransient(Exception("XHR"))
  {
    assert "XHR"[..3] == "XHR";
  }

  // ---------------------------------------------------------------------
  // callWithRetry
  // ---------------------------------------------------------------------

  /** The factor by which the delay grows on each retry. */
  const Backoff: real := 1.5

  /** `retries` and `delay` defaults of callWithRetry. */
  const DefaultRetries: int := 3
  const DefaultDelay: real := 1500.0

  /** What one call of callWithRetry did: the value it returned or the error
      it threw, how many times it invoked the operation, and the delay (in
      milliseconds) it slept before each retry. */
  datatype RetryRun<T> = RetryRun(result: Result<T>, attempts: nat, sleeps: seq<real>)

  /** The most attempts a call may make: the first one plus one per unit of
      a positive retry budget. */
  function Budget(retries: int): (n: nat)
    ensures n >= 1
    ensures retries >= 0 ==> n == retries + 1
    ensures retries <= 0 ==> n == 1
  {
    if retries <= 0 then 1 else retries + 1
  }

  function Pow(b: real, k: nat): real
  {
    if k == 0 then 1.0 else b * Pow(b, k - 1)
  }

  /**
   * The retry policy, stated without recursion. `outcomes[k]` is what the
   * operation yields on its k-th invocation.
   *  - it invokes the operation at least once and at most Budget(retries) times;
   *  - every invocation but the last failed with a transient error;
   *  - the last invocation's value or error is passed on unchanged;
   *  - it stops before the budget is spent only on a value or a terminal error;
   *  - before retry k it slept delay * 1.5^k.
   */
  ghost predicate IsRetryRun<T>(outcomes: seq<Result<T>>, retries: int, delay: real, run: RetryRun<T>)
  {
    && 1 <= run.attempts <= Budget(retries)
    && run.attempts <= |outcomes|
    && run.result == outcomes[run.attempts - 1]
    && (forall k :: 0 <= k < run.attempts - 1 ==> outcomes[k].Err? && IsTransient(outcomes[k].error))
    && (run.attempts < Budget(retries) ==> run.result.Ok? || !IsTransient(run.result.error))
    && |run.sleeps| == run.attempts - 1
    && (forall k :: 0 <= k < |run.sleeps| ==> run.sleeps[k] == delay * Pow(Backoff, k))
  }

  /**
   * callWithRetry(fn, retries, delay): invoke the operation; on an error,
   * rethrow it when the budget is used up or the error is terminal, and
   * otherwise sleep `delay` and try again with one retry fewer and the
   * delay multiplied by 1.5. The operation is given by the outcomes of its
   * successive invocations, which must cover the budget.
   */
  function CallWithRetry<T>(outcomes: seq<Result<T>>, retries: int, delay: real): (run: RetryRun<T>)
    requires |outcomes| >= Budget(retries)
    ensures IsRetryRun(outcomes, retries, delay, run)
    decreases Budget(retries)
  {
    match outcomes[0]
    case Ok(_) => RetryRun(outcomes[0], 1, [])
    case Err(e) =>
      if retries <= 0 || !IsTransient(e) then
        RetryRun(outcomes[0], 1, [])
      else
        var rest := CallWithRetry(outcomes[1..], retries - 1, delay * Backoff);
        RetryStep(outcomes, retries, delay, rest);
        RetryRun(rest.result, rest.attempts + 1, [delay] + rest.sleeps)
  }

  /** One retry: a transient failure, a sleep of `delay`, then the run of
      the remaining invocations under the smaller budget and longer delay. */
  lemma RetryStep<T>(outcomes: seq<Result<T>>, retries: int, delay: real, rest: RetryRun<T>)
    requires |outcomes| >= Budget(retries) && retries > 0
    requires outcomes[0].Err? && IsTransient(outcomes[0].error)
    requires IsRetryRun(outcomes[1..], retries - 1, delay * Backoff, rest)
    ensures IsRetryRun(outcomes, retries, delay, RetryRun(rest.result, rest.attempts + 1, [delay] + rest.sleeps))
  {
    var sleeps := [delay] + rest.sleeps;
    forall k | 1 <= k < |sleeps|
      ensures sleeps[k] == delay * Pow(Backoff, k)
    {
      calc {
        sleeps[k];
        rest.sleeps[k - 1];
        (delay * Backoff) * Pow(Backoff, k - 1);
        delay * (Backoff * Pow(Backoff, k - 1));
      }
    }
    forall k | 0 <= k < rest.attempts
      ensures outcomes[k].Err? && IsTransient(outcomes[k].error)
    {
      if k > 0 {
        assert outcomes[k] == outcomes[1..][k - 1];
      }
    }
  }

  /** The policy determines the run: any run meeting IsRetryRun is the one
      CallWithRetry computes. */
  lemma RetryRunUnique<T>(outcomes: seq<Result<T>>, retries: int, delay: real, run: RetryRun<T>)
    requires |outcomes| >= Budget(retries)
    requires IsRetryRun(outcomes, retries, delay, run)
    ensures run == CallWithRetry(outcomes, retries, delay)
  {
    var other := CallWithRetry(outcomes, retries, delay);
    assert run.attempts == other.attempts;
    assert run.sleeps == other.sleeps;
  }

  /** The first invocation that yields a value or a terminal error ends the
      call within the budget: its value is returned (or its error rethrown)
      and the operation is not invoked again. */
  lemma RetryStopsAtFirstDecisiveOutcome<T>(outcomes: seq<Result<T>>, retries: int, delay: real, k: nat)
    requires |outcomes| >= Budget(retries)
    requires k < Budget(retries)
    requires forall j :: 0 <= j < k ==> outcomes[j].Err? && IsTransient(outcomes[j].error)
    requires outcomes[k].Ok? || !IsTransient(outcomes[k].error)
    ensures CallWithRetry(outcomes, retries, delay).result == outcomes[k]
    ensures CallWithRetry(outcomes, retries, delay).attempts == k + 1
  {
    var run := CallWithRetry(outcomes, retries, delay);
    assert !(run.attempts - 1 < k);
  }

  /** A terminal error on the first invocation is rethrown at once, with no sleep. */
  lemma RetryTerminalErrorNoDelay<T>(outcomes: seq<Result<T>>, retries: int, delay: real)
    requires |outcomes| >= Budget(retries)
    requires outcomes[0].Err? && !IsTransient(outcomes[0].error)
    ensures CallWithRetry(outcomes, retries, delay) == RetryRun(outcomes[0], 1, [])
  {
    RetryStopsAtFirstDecisiveOutcome(outcomes, retries, delay, 0);
  }

  /** When every invocation fails transiently, the whole budget is spent and
      the last error is rethrown. */
  lemma RetryExhaustsBudget<T>(outcomes: seq<Result<T>>, retries: int, delay: real)
    requires |outcomes| >= Budget(retries)
    requires forall j :: 0 <= j < Budget(retries) ==> outcomes[j].Err? && IsTransient(outcomes[j].error)
    ensures CallWithRetry(outcomes, retries, delay).attempts == Budget(retries)
    ensures CallWithRetry(outcomes, retries, delay).result == outcomes[Budget(retries) - 1]
  {
    var run := CallWithRetry(outcomes, retries, delay);
    assert run.attempts - 1 < Budget(retries);
  }

  lemma {:induction false} PowAtLeastOne(b: real, k: nat)
    requires b >= 1.0
    ensures Pow(b, k) >= 1.0
  {
    if k > 0 {
      PowAtLeastOne(b, k - 1);
    }
  }

  lemma {:induction false} PowIncreasing(b: real, j: nat, k: nat)
    requires b > 1.0 && j < k
    ensures Pow(b, j) < Pow(b, k)
    decreases k
  {
    PowAtLeastOne(b, k - 1);
    if j < k - 1 {
      PowIncreasing(b, j, k - 1);
    }
  }

  /** With a positive initial delay each sleep is longer than the one before. */
  lemma RetrySleepsIncrease<T>(outcomes: seq<Result<T>>, retries: int, delay: real, run: RetryRun<T>)
    requires delay > 0.0
    requires IsRetryRun(outcomes, retries, delay, run)
    ensures forall j, k :: 0 <= j < k < |run.sleeps| ==> run.sleeps[j] < run.sleeps[k]
  {
    forall j, k | 0 <= j < k < |run.sleeps| ensures run.sleeps[j] < run.sleeps[k] {
      var x, y := Pow(Backoff, j), Pow(Backoff, k);
      PowIncreasing(Backoff, j, k);
      assert delay * x < delay * y;
    }
  }

  /** With the defaults the only sleeps are 1500, 2250 and 3375 ms, in that
      order, and at most four invocations happen. */
  lemma RetryDefaultSchedule<T>(outcomes: seq<Result<T>>)
    requires |outcomes| >= Budget(DefaultRetries)
    ensures var run := CallWithRetry(outcomes, DefaultRetries, DefaultDelay);
            run.attempts <= 4 && run.sleeps <= [1500.0, 2250.0, 3375.0]
  {
    var run := CallWithRetry(outcomes, DefaultRetries, DefaultDelay);
    assert Pow(Backoff, 0) == 1.0;
    assert Pow(Backoff, 1) == 1.5;
    assert Pow(Backoff, 2) == 2.25;
  }

  /** Two transient failures then a value: the value is returned after
      sleeping 1500 and 2250 ms. */
  lemma RetryRecoversAfterTwoTransientFailures<T>(v: T, later: seq<Result<T>>, run: RetryRun<T>)
    requires IsRetryRun([Err(Exception("xhr")), Err(Exception("500")), Ok(v)] + later,
                        DefaultRetries, DefaultDelay, run)
    ensures run.result == Ok(v) && run.attempts == 3 && run.sleeps == [1500.0, 2250.0]
  {
    var outcomes := [Err(Exception("xhr")), Err(Exception("500")), Ok(v)] + later;
    assert outcomes[0] == Err(Exception("xhr")) && outcomes[1] == Err(Exception("500"));
    assert outcomes[2] == Ok(v);
    assert IsTransient(Exception("xhr")) && IsTransient(Exception("500"));
    assert run.attempts == 3;
    assert Pow(Backoff, 1) == 1.5;
  }

  // ---------------------------------------------------------------------
  // editImage
  // ---------------------------------------------------------------------

  /** The parts of a generateContent response that editImage reads. */
  datatype InlineData = InlineData(data: Option<string>, mimeType: Option<string>)
  datatype Part = Part(inlineData: Option<InlineData>, text: Option<string>)
  datatype Content = Content(parts: Option<seq<Part>>)
  datatype Candidate = Candidate(content: Option<Content>)
  datatype EditResponse = EditResponse(candidates: Option<seq<Candidate>>)

  const PngDataUrlPrefix: string := "data:image/png;base64,"

  /** `response.candidates?.[0]?.content?.parts`. */
  function ResponseParts(response: EditResponse): Option<seq<Part>>
  {
    match response.candidates
    case None => None
    case Some(cs) =>
      if |cs| == 0 then None
      else match cs[0].content
        case None => None
        case Some(c) => c.parts
  }

  /** A template-literal substitution: an absent value renders as "undefined". */
  function Interpolate(s: Option<string>): string
  {
    match s
    case Some(v) => v
    case None => "undefined"
  }

  /**
   * editImage after the remote call: the error of a failed call is rethrown
   * unchanged; otherwise the first part carrying inline data becomes a PNG
   * data URL, and a response without parts or without such a part gives null.
   */
  method EditImage(call: Result<EditResponse>) returns (r: Result<Option<string>>)
    ensures call.Err? ==> r == Err(call.error)
    ensures call.Ok? ==> r.Ok?
    ensures call.Ok? && ResponseParts(call.value).None? ==> r == Ok(None)
    ensures call.Ok? && ResponseParts(call.value).Some? ==>
              var parts := ResponseParts(call.value).value;
              && (r.value.None? <==> forall i :: 0 <= i < |parts| ==> parts[i].inlineData.None?)
              && (r.value.Some? ==>
                    exists i :: 0 <= i < |parts| && parts[i].inlineData.Some?
                      && (forall j :: 0 <= j < i ==> parts[j].inlineData.None?)
                      && r.value.value == PngDataUrlPrefix + Interpolate(parts[i].inlineData.value.data))
  {
    if call.Err? {
      return Err(call.error);
    }
    var maybeParts := ResponseParts(call.value);
    if maybeParts.None? {
      return Ok(None);
    }
    var parts := maybeParts.value;
    var i := 0;
    while i < |parts|
      invariant 0 <= i <= |parts|
      invariant forall j :: 0 <= j < i ==> parts[j].inlineData.None?
    {
      if parts[i].inlineData.Some? {
        return Ok(Some(PngDataUrlPrefix + Interpolate(parts[i].inlineData.value.data)));
      }
      i := i + 1;
    }
    return Ok(None);
  }

  /** The payload of an edited image's data URL is recovered by cleanBase64
      (base64 text never contains a comma). */
  lemma EditedImagePayloadRoundTrip(data: string)
    requires ',' !in data
    ensures CleanBase64(PngDataUrlPrefix + data) == data
  {
    var header := "data:image/png;base64";
    assert PngDataUrlPrefix + data == header + "," + data;
    assert forall k :: 0 <= k < |header| ==> header[k] != ',';
    CleanBase64StripsDataUrl(header, data);
  }

  // ---------------------------------------------------------------------
  // getPromptSuggestions
  // ---------------------------------------------------------------------

  /** `JSON.parse(text) as PromptSuggestion[]`: a list, or None when it throws. */
  type JsonParser = string -> Option<seq<PromptSuggestion>>

  /**
   * One invocation of fetchSuggestions, given the outcome of its remote
   * call (the response text, "" when absent, or the error thrown): a call
   * error propagates; empty text and unparsable text both give [].
   */
  function FetchSuggestions(reply: Result<string>, parse: JsonParser): (r: Result<seq<PromptSuggestion>>)
    ensures reply.Err? <==> r.Err?
    ensures reply.Err? ==> r.error == reply.error
    ensures r.Ok? && r.value != [] ==> reply.value != "" && parse(reply.value) == Some(r.value)
    ensures reply.Ok? && reply.value != "" && parse(reply.value).Some? ==> r == Ok(parse(reply.value).value)
    ensures reply.Ok? && (reply.value == "" || parse(reply.value).None?) ==> r == Ok([])
  {
    match reply
    case Err(e) => Err(e)
    case Ok(text) =>
      if text == "" then Ok([])
      else
        match parse(text)
        case None => Ok([])
        case Some(list) => Ok(list)
  }

  /** The invocation outcomes the retry wrapper sees for a series of replies. */
  function FetchOutcomes(replies: seq<Result<string>>, parse: JsonParser): seq<Result<seq<PromptSuggestion>>>
  {
    seq(|replies|, k requires 0 <= k < |replies| => FetchSuggestions(replies[k], parse))
  }

  /**
   * getPromptSuggestions: fetchSuggestions under callWithRetry with the
   * default policy, every error that escapes turned into []. `replies[k]`
   * is the outcome of the k-th remote call. Once the client exists it never
   * fails, and a non-empty list is always the parse of some non-empty
   * reply, unchanged.
   */
  function GetPromptSuggestions(replies: seq<Result<string>>, parse: JsonParser): (r: seq<PromptSuggestion>)
    requires |replies| >= Budget(DefaultRetries)
    ensures r != [] ==> exists k :: 0 <= k < |replies| && replies[k].Ok? && replies[k].value != ""
                                    && parse(replies[k].value) == Some(r)
  {
    var run := CallWithRetry(FetchOutcomes(replies, parse), DefaultRetries, DefaultDelay);
    match run.result
    case Ok(list) => list
    case Err(_) => []
  }

  /** A reply that arrives is never retried: its text decides the result,
      [] when empty or unparsable, otherwise the parsed list unchanged. */
  lemma SuggestionsFromFirstDeliveredReply(replies: seq<Result<string>>, parse: JsonParser, k: nat)
    requires |replies| >= Budget(DefaultRetries)
    requires k < Budget(DefaultRetries)
    requires forall j :: 0 <= j < k ==> replies[j].Err? && IsTransient(replies[j].error)
    requires replies[k].Ok?
    ensures GetPromptSuggestions(replies, parse) ==
              if replies[k].value == "" then []
              else match parse(replies[k].value)
                   case None => []
                   case Some(list) => list
  {
    var outcomes := FetchOutcomes(replies, parse);
    RetryStopsAtFirstDecisiveOutcome(outcomes, DefaultRetries, DefaultDelay, k);
  }

  /** A call that ultimately fails yields []: after transient errors, the
      k-th remote call throws either a terminal error or the last budgeted
      one; later replies are never requested. */
  lemma SuggestionsWhenCallFails(replies: seq<Result<string>>, parse: JsonParser, k: nat)
    requires |replies| >= Budget(DefaultRetries)
    requires k < Budget(DefaultRetries)
    requires forall j :: 0 <= j < k ==> replies[j].Err? && IsTransient(replies[j].error)
    requires replies[k].Err? && (k == Budget(DefaultRetries) - 1 || !IsTransient(replies[k].error))
    ensures GetPromptSuggestions(replies, parse) == []
  {
    var outcomes := FetchOutcomes(replies, parse);
    if !IsTransient(replies[k].error) {
      RetryStopsAtFirstDecisiveOutcome(outcomes, DefaultRetries, DefaultDelay, k);
    } else {
      RetryExhaustsBudget(outcomes, DefaultRetries, DefaultDelay);
    }
  }
}
