/** The root `ResearchService.java`: a pool of API keys used round robin, a
    loop that moves to the next key only when the current one is rate limited
    (HTTP 429), a one-request-per-second pause, and a prompt builder that
    rejects unknown operations. */
module KeyRotation {
  import opened Wrappers
  import opened Api
  import Gemini

  const SummarizeLead := "Provide a clear and concise summary of the following text in a few sentences:\n\n"
  const SuggestLead := "Based on the following content: suggest related topics and further reading. Format the response with clear headings and bullet points:\n\n"
  const NoContent := "No content found in response"
  const MinInterval := 1000

  /** An exception raised inside one attempt: one with a known message, or the
      NullPointerException of switching on a null operation, whose message
      the JVM decides. */
  datatype Exception = Raised(message: string) | NullOperation

  /** `buildPrompt`: a fixed lead for "summarize" and "suggest", an
      IllegalArgumentException for any other operation. */
  function BuildPrompt(req: ResearchRequest): (r: Result<string, Exception>)
    ensures r.Success? <==> req.operation == Some("summarize") || req.operation == Some("suggest")
    ensures req.operation == Some("summarize") ==> r == Success(SummarizeLead + Appended(req.content))
    ensures req.operation == Some("suggest") ==> r == Success(SuggestLead + Appended(req.content))
    ensures req.operation.None? ==> r == Failure(NullOperation)
    ensures req.operation.Some? && r.Failure? ==> r == Failure(Raised("Unknown Operation: " + req.operation.value))
  {
    match req.operation
    case None => Failure(NullOperation)
    case Some(op) =>
      if op == "summarize" then Success(SummarizeLead + Appended(req.content))
      else if op == "suggest" then Success(SuggestLead + Appended(req.content))
      else Failure(Raised("Unknown Operation: " + op))
  }

  /** A reply body after `objectMapper.readValue`: the parsed reply, or the
      message of the exception the parser raised. */
  datatype Body = Parsed(response: GeminiResponse) | Unparseable(message: string)

  /** `extractTextFromResponse`: the text of part 0 of candidate 0, the fixed
      "no content" text, or a parse failure. */
  function ExtractTextFromResponse(body: Body): (r: Result<Option<string>, string>)
    ensures body.Unparseable? ==> r == Failure("Failed to parse API response: " + body.message)
    ensures body.Parsed? && HasFirstPart(body.response) ==> r == Success(FirstPartText(body.response))
    ensures body.Parsed? && !HasFirstPart(body.response) ==> r == Success(Some(NoContent))
  {
    match body
    case Unparseable(m) => Failure("Failed to parse API response: " + m)
    case Parsed(resp) =>
      if HasFirstPart(resp) then Success(FirstPartText(resp)) else Success(Some(NoContent))
  }

  /** The two services take the same text out of any reply that has a
      candidate; they differ only on a reply without candidates, where this
      one answers "No content found in response" and `GeminiService` answers
      "No candidates found in response". */
  lemma ExtractorsAgreeOnCandidates(resp: GeminiResponse)
    ensures HasCandidates(resp) ==> ExtractTextFromResponse(Parsed(resp)) == Success(Gemini.ExtractText(resp))
    ensures !HasCandidates(resp) ==>
      ExtractTextFromResponse(Parsed(resp)) == Success(Some(NoContent))
      && Gemini.ExtractText(resp) == Some(Gemini.NoCandidates)
  {
  }

  /** What one call to the Gemini API with one key produced. */
  datatype Attempt = Answered(body: Body) | TooManyRequests | Failed(message: string)

  /** Why `processContent` raised. */
  datatype ServiceError = AllKeysRateLimited | RequestFailed(cause: Exception) | NotProcessed

  /** The message of the RuntimeException `processContent` raises; `None`
      where it embeds the JVM's NullPointerException message. */
  function Message(e: ServiceError): (m: Option<string>)
    ensures m.None? <==> e == RequestFailed(NullOperation)
  {
    match e
    case AllKeysRateLimited => Some("All API keys rate limited." + " Please try again later.")
    case NotProcessed => Some("Failed to process request")
    case RequestFailed(Raised(m)) => Some("API request failed: " + m)
    case RequestFailed(NullOperation) => None
  }

  /** The message names the error: two errors with the same known message
      are the same error. */
  lemma MessageIdentifiesError(a: ServiceError, b: ServiceError)
    requires Message(a).Some? && Message(a) == Message(b)
    ensures a == b
  {
    var lead := "API request failed: ";
    if a.RequestFailed? && b.RequestFailed? {
      assert a.cause.message == Message(a).value[|lead|..];
      assert b.cause.message == Message(b).value[|lead|..];
    } else {
      SecondCharOfMessage(a);
      SecondCharOfMessage(b);
    }
  }

  /** The second character of a known message tells the three kinds apart. */
  lemma SecondCharOfMessage(e: ServiceError)
    requires Message(e).Some?
    ensures |Message(e).value| > 1
    ensures Message(e).value[1] == if e.AllKeysRateLimited? then 'l' else if e.NotProcessed? then 'a' else 'P'
  {
    match e
    case AllKeysRateLimited =>
    case NotProcessed =>
    case RequestFailed(c) =>
      assert Message(e).value == "API request failed: " + c.message;
  }

  /** How long `enforceRateLimit` sleeps, given the time of the previous
      request and the current time, both in milliseconds. */
  function Delay(last: int, now: int): (pause: int)
    ensures pause >= 0
    ensures pause == 0 <==> now - last >= MinInterval
    ensures pause > 0 ==> now + pause == last + MinInterval
    ensures now >= last ==> pause <= MinInterval
  {
    var elapsed := now - last;
    if elapsed < MinInterval then MinInterval - elapsed else 0
  }

  /** The counter after one call of `getNextApiKey` over `n` keys. */
  function Next(k: nat, n: nat): nat
    requires n > 0
  {
    (k + 1) % n
  }

  /** One step either moves to the following key or wraps to key 0. */
  lemma NextWraps(k: nat, n: nat)
    requires k < n
    ensures Next(k, n) == if k + 1 < n then k + 1 else 0
  {
    if k + 1 == n {
      assert (k + 1) % n == n % n == 0;
    }
  }

  /** The counter after `j` calls of `getNextApiKey` from `start`: the index
      of the key the next call returns. */
  function KeyIndex(start: nat, j: nat, n: nat): (k: nat)
    requires start < n
    ensures k < n
  {
    if j == 0 then start else Next(KeyIndex(start, j - 1, n), n)
  }

  /** The `j`-th call after `start` uses the index `j` places further on,
      wrapped around once. */
  lemma {:induction false} KeyIndexIsOffset(start: nat, j: nat, n: nat)
    requires start < n && j <= n
    ensures KeyIndex(start, j, n) == if start + j < n then start + j else start + j - n
  {
    if j > 0 {
      KeyIndexIsOffset(start, j - 1, n);
      NextWraps(KeyIndex(start, j - 1, n), n);
    }
  }

  /** The indices of the keys that the first `n` calls from `start` return. */
  ghost function KeysUsed(start: nat, n: nat): set<int>
    requires start < n
  {
    set j | 0 <= j < n :: KeyIndex(start, j, n)
  }

  /** `n` successive calls from any starting index use every one of the `n`
      keys once, and the counter then stands where it started. */
  lemma RoundRobinCoversAllKeys(start: nat, n: nat)
    requires start < n
    ensures forall m: int :: m in KeysUsed(start, n) <==> 0 <= m < n
    ensures KeyIndex(start, n, n) == start
  {
    forall m: int | 0 <= m < n
      ensures m in KeysUsed(start, n)
    {
      var j := if m >= start then m - start else m + n - start;
      KeyIndexIsOffset(start, j, n);
    }
    KeyIndexIsOffset(start, n, n);
  }

  /** The attempt loop of `processContent` from attempt `i` on, with the key
      counter at `start` before the first attempt: what it returns or raises,
      and how many attempts (calls of `getNextApiKey`) it made in all.  The
      reply to each attempt comes from `network`, given the attempt number
      and the key. */
  function Run(keys: seq<string>, start: nat, req: ResearchRequest,
               network: (nat, string) -> Attempt, i: nat): (out: (Result<Option<string>, ServiceError>, nat))
    requires i <= |keys| && (|keys| > 0 ==> start < |keys|)
    ensures i <= out.1 <= |keys|
    ensures out.1 == i <==> i == |keys|
    decreases |keys| - i
  {
    if i == |keys| then (Failure(NotProcessed), i)
    else
      var key := keys[KeyIndex(start, i, |keys|)];
      match BuildPrompt(req)
      case Failure(e) => (Failure(RequestFailed(e)), i + 1)
      case Success(_) =>
        match network(i, key)
        case Answered(body) =>
          (match ExtractTextFromResponse(body)
           case Success(text) => Success(text)
           case Failure(m) => Failure(RequestFailed(Raised(m))), i + 1)
        case TooManyRequests =>
          if i == |keys| - 1 then (Failure(AllKeysRateLimited), i + 1)
          else Run(keys, start, req, network, i + 1)
        case Failed(m) => (Failure(RequestFailed(Raised(m))), i + 1)
  }

  /** Every attempt before `k` (from `i` on) was rate limited. */
  ghost predicate RateLimitedBetween(keys: seq<string>, start: nat, network: (nat, string) -> Attempt, i: nat, k: nat)
    requires k <= |keys| && start < |keys|
  {
    forall j :: i <= j < k ==> network(j, keys[KeyIndex(start, j, |keys|)]) == TooManyRequests
  }

  /** Rate-limited attempts before the last one only move the loop on. */
  lemma {:induction false} SkipRateLimited(keys: seq<string>, start: nat, req: ResearchRequest,
                                           network: (nat, string) -> Attempt, i: nat, k: nat)
    requires i <= k < |keys| && start < |keys|
    requires BuildPrompt(req).Success?
    requires RateLimitedBetween(keys, start, network, i, k)
    ensures Run(keys, start, req, network, i) == Run(keys, start, req, network, k)
    decreases k - i
  {
    if i < k {
      SkipRateLimited(keys, start, req, network, i + 1, k);
    }
  }

  /** With no keys nothing is attempted and "Failed to process request" is
      raised; with at least one key that error never occurs. */
  lemma NotProcessedOnlyWithoutKeys(keys: seq<string>, start: nat, req: ResearchRequest,
                                    network: (nat, string) -> Attempt)
    requires |keys| > 0 ==> start < |keys|
    ensures Run(keys, start, req, network, 0).0 == Failure(NotProcessed) <==> |keys| == 0
    ensures |keys| == 0 ==> Run(keys, start, req, network, 0).1 == 0
  {
    if |keys| > 0 {
      NeverNotProcessed(keys, start, req, network, 0);
    }
  }

  lemma {:induction false} NeverNotProcessed(keys: seq<string>, start: nat, req: ResearchRequest,
                                             network: (nat, string) -> Attempt, i: nat)
    requires i < |keys| && start < |keys|
    ensures Run(keys, start, req, network, i).0 != Failure(NotProcessed)
    decreases |keys| - i
  {
    if i + 1 < |keys| {
      NeverNotProcessed(keys, start, req, network, i + 1);
    }
  }

  /** An operation other than "summarize" and "suggest" fails on the first
      attempt, after one key has been drawn, with the exception `buildPrompt` raised. */
  lemma BadOperationFailsFirstAttempt(keys: seq<string>, start: nat, req: ResearchRequest,
                                      network: (nat, string) -> Attempt)
    requires start < |keys|
    requires BuildPrompt(req).Failure?
    ensures Run(keys, start, req, network, 0) == (Failure(RequestFailed(BuildPrompt(req).error)), 1)
  {
  }

  /** "All API keys rate limited" is raised exactly when every key was tried
      and every attempt got a 429. */
  lemma AllRateLimitedIff(keys: seq<string>, start: nat, req: ResearchRequest,
                          network: (nat, string) -> Attempt)
    requires start < |keys|
    ensures Run(keys, start, req, network, 0).0 == Failure(AllKeysRateLimited) <==>
      BuildPrompt(req).Success? && RateLimitedBetween(keys, start, network, 0, |keys|)
    ensures Run(keys, start, req, network, 0).0 == Failure(AllKeysRateLimited) ==>
      Run(keys, start, req, network, 0).1 == |keys|
  {
    var n := |keys|;
    if BuildPrompt(req).Success? {
      if RateLimitedBetween(keys, start, network, 0, n) {
        SkipRateLimited(keys, start, req, network, 0, n - 1);
      } else {
        var k :| 0 <= k < n && network(k, keys[KeyIndex(start, k, n)]) != TooManyRequests;
        FirstNonRateLimited(keys, start, req, network, k);
      }
    }
  }

  /** If some attempt is not rate limited, the loop stops at the first such
      attempt without having raised "All API keys rate limited". */
  lemma {:induction false} FirstNonRateLimited(keys: seq<string>, start: nat, req: ResearchRequest,
                                               network: (nat, string) -> Attempt, k: nat)
    requires k < |keys| && start < |keys|
    requires BuildPrompt(req).Success?
    requires network(k, keys[KeyIndex(start, k, |keys|)]) != TooManyRequests
    ensures Run(keys, start, req, network, 0).0 != Failure(AllKeysRateLimited)
    decreases k
  {
    var n := |keys|;
    if RateLimitedBetween(keys, start, network, 0, k) {
      SkipRateLimited(keys, start, req, network, 0, k);
    } else {
      var k' :| 0 <= k' < k && network(k', keys[KeyIndex(start, k', n)]) != TooManyRequests;
      FirstNonRateLimited(keys, start, req, network, k');
    }
  }

  /** Any other failure of attempt `k`, after rate-limited attempts only,
      aborts at once with "API request failed: " and the error's message: no
      further key is tried. */
  lemma OtherErrorAborts(keys: seq<string>, start: nat, req: ResearchRequest,
                         network: (nat, string) -> Attempt, k: nat, m: string)
    requires k < |keys| && start < |keys|
    requires BuildPrompt(req).Success?
    requires RateLimitedBetween(keys, start, network, 0, k)
    requires network(k, keys[KeyIndex(start, k, |keys|)]) == Failed(m)
    ensures Run(keys, start, req, network, 0) == (Failure(RequestFailed(Raised(m))), k + 1)
    ensures Message(Run(keys, start, req, network, 0).0.error) == Some("API request failed: " + m)
  {
    SkipRateLimited(keys, start, req, network, 0, k);
  }

  /** A reply to attempt `k`, after rate-limited attempts only, ends the loop:
      with the text taken out of that reply, or, for a body that cannot be
      parsed, with the parse error wrapped once more by the catch-all. */
  lemma AnswerEndsLoop(keys: seq<string>, start: nat, req: ResearchRequest,
                       network: (nat, string) -> Attempt, k: nat, body: Body)
    requires k < |keys| && start < |keys|
    requires BuildPrompt(req).Success?
    requires RateLimitedBetween(keys, start, network, 0, k)
    requires network(k, keys[KeyIndex(start, k, |keys|)]) == Answered(body)
    ensures Run(keys, start, req, network, 0).1 == k + 1
    ensures ExtractTextFromResponse(body).Success? ==>
      Run(keys, start, req, network, 0).0 == Success(ExtractTextFromResponse(body).value)
    ensures ExtractTextFromResponse(body).Failure? ==>
      Run(keys, start, req, network, 0).0 == Failure(RequestFailed(Raised(ExtractTextFromResponse(body).error)))
  {
    SkipRateLimited(keys, start, req, network, 0, k);
  }

  /** A reply that cannot be parsed, after rate-limited attempts only,
      aborts the loop with "API request failed: " and the parse error: no
      further key is tried. */
  lemma UnparseableAnswerAborts(keys: seq<string>, start: nat, req: ResearchRequest,
                                network: (nat, string) -> Attempt, k: nat, m: string)
    requires k < |keys| && start < |keys|
    requires BuildPrompt(req).Success?
    requires RateLimitedBetween(keys, start, network, 0, k)
    requires network(k, keys[KeyIndex(start, k, |keys|)]) == Answered(Unparseable(m))
    ensures Run(keys, start, req, network, 0) == (Failure(RequestFailed(Raised("Failed to parse API response: " + m))), k + 1)
    ensures Message(Run(keys, start, req, network, 0).0.error)
      == Some("API request failed: " + ("Failed to parse API response: " + m))
  {
    AnswerEndsLoop(keys, start, req, network, k, Unparseable(m));
  }

  /** The (key, prompt) pairs of the first `count` attempts from `start`. */
  function Calls(keys: seq<string>, start: nat, prompt: string, count: nat): (calls: seq<(string, string)>)
    requires start < |keys|
    ensures |calls| == count
  {
    if count == 0 then [] else Calls(keys, start, prompt, count - 1) + [(keys[KeyIndex(start, count - 1, |keys|)], prompt)]
  }

  /** Call `j` sends the same prompt with the key `j` places after the
      starting one, round-robin; over `|keys|` calls every key is used
      once. */
  lemma {:induction false} CallsUseKeysInTurn(keys: seq<string>, start: nat, prompt: string, count: nat)
    requires start < |keys|
    ensures forall j :: 0 <= j < count ==> Calls(keys, start, prompt, count)[j] == (keys[KeyIndex(start, j, |keys|)], prompt)
  {
    if count > 0 {
      CallsUseKeysInTurn(keys, start, prompt, count - 1);
    }
  }

  /** The root service: its configured keys, the round-robin counter, the
      time of the last request, and the API calls it has issued as
      (key, prompt) pairs. */
  class ResearchService {
    const apiKeys: seq<string>
    var currentKeyIndex: nat
    var lastRequestTime: int
    var sent: seq<(string, string)>

    /** The counter always designates a key (it stays 0 when there are none). */
    ghost predicate Valid()
      reads this
    {
      if |apiKeys| == 0 then currentKeyIndex == 0 else currentKeyIndex < |apiKeys|
    }

    constructor (keys: seq<string>)
      ensures Valid()
      ensures apiKeys == keys && currentKeyIndex == 0 && lastRequestTime == 0 && sent == []
    {
      apiKeys := keys;
      currentKeyIndex := 0;
      lastRequestTime := 0;
      sent := [];
    }

    /** `getNextApiKey`: the key at the counter; the counter advances by one,
        modulo the number of keys. */
    method GetNextApiKey() returns (key: string)
      requires Valid() && |apiKeys| > 0
      modifies this`currentKeyIndex
      ensures Valid()
      ensures key == apiKeys[old(currentKeyIndex)]
      ensures currentKeyIndex == Next(old(currentKeyIndex), |apiKeys|)
    {
      key := apiKeys[currentKeyIndex];
      currentKeyIndex := (currentKeyIndex + 1) % |apiKeys|;
    }

    /** `enforceRateLimit`, with the clock read before (`now`) and after
        (`resumed`) the pause: it sleeps `Delay(last, now)` and records the
        second reading. */
    method EnforceRateLimit(now: int, resumed: int) returns (pause: int)
      modifies this`lastRequestTime
      ensures pause == Delay(old(lastRequestTime), now)
      ensures lastRequestTime == resumed
    {
      var elapsed := now - lastRequestTime;
      pause := 0;
      if elapsed < 1000 {
        pause := 1000 - elapsed;
      }
      lastRequestTime := resumed;
    }

    /** Attempt `i` of the loop of `processContent`: draw the next key,
        send the prompt with it (`makeApiRequest`) and read the reply.  The
        attempt either ends the loop with the outcome `Run` gives, or was
        rate limited and leaves the rest to the next attempt. */
    method TryKey(req: ResearchRequest, network: (nat, string) -> Attempt, i: nat, ghost start: nat)
      returns (stop: bool, r: Result<Option<string>, ServiceError>)
      requires Valid() && i < |apiKeys| && start < |apiKeys|
      requires currentKeyIndex == KeyIndex(start, i, |apiKeys|)
      modifies this`currentKeyIndex, this`sent
      ensures Valid() && currentKeyIndex == KeyIndex(start, i + 1, |apiKeys|)
      ensures BuildPrompt(req).Failure? ==> stop && sent == old(sent)
      ensures BuildPrompt(req).Success? ==>
        sent == old(sent) + [(apiKeys[KeyIndex(start, i, |apiKeys|)], BuildPrompt(req).value)]
      ensures stop ==> (r, i + 1) == Run(apiKeys, start, req, network, i)
      ensures !stop ==> Run(apiKeys, start, req, network, i) == Run(apiKeys, start, req, network, i + 1)
    {
      var key := GetNextApiKey();
      var prompt := BuildPrompt(req);
      if prompt.Failure? {
        return true, Failure(RequestFailed(prompt.error));
      }
      sent := sent + [(key, prompt.value)];
      match network(i, key) {
        case Answered(body) =>
          var text := ExtractTextFromResponse(body);
          if text.Failure? {
            return true, Failure(RequestFailed(Raised(text.error)));
          }
          return true, Success(text.value);
        case TooManyRequests =>
          if i == |apiKeys| - 1 {
            return true, Failure(AllKeysRateLimited);
          }
          stop, r := false, Failure(NotProcessed);
        case Failed(m) =>
          return true, Failure(RequestFailed(Raised(m)));
      }
    }

    /** `processContent`: pause for the rate limit, then try the keys in
        round-robin order, at most one attempt per key. */
    method ProcessContent(req: ResearchRequest, now: int, resumed: int,
                          network: (nat, string) -> Attempt)
      returns (r: Result<Option<string>, ServiceError>)
      requires Valid()
      modifies this
      ensures Valid()
      ensures lastRequestTime == resumed
      ensures var attempts := Run(apiKeys, old(currentKeyIndex), req, network, 0).1;
        && r == Run(apiKeys, old(currentKeyIndex), req, network, 0).0
        && (|apiKeys| == 0 ==> currentKeyIndex == old(currentKeyIndex))
        && (|apiKeys| > 0 ==> currentKeyIndex == KeyIndex(old(currentKeyIndex), attempts, |apiKeys|))
        && sent == old(sent) + (if |apiKeys| == 0 || BuildPrompt(req).Failure? then []
                                else Calls(apiKeys, old(currentKeyIndex), BuildPrompt(req).value, attempts))
    {
      var _ := EnforceRateLimit(now, resumed);
      r := TryKeys(req, network);
    }

    /** The loop of `processContent`. */
    method TryKeys(req: ResearchRequest, network: (nat, string) -> Attempt)
      returns (r: Result<Option<string>, ServiceError>)
      requires Valid()
      modifies this`currentKeyIndex, this`sent
      ensures Valid()
      ensures var attempts := Run(apiKeys, old(currentKeyIndex), req, network, 0).1;
        && r == Run(apiKeys, old(currentKeyIndex), req, network, 0).0
        && (|apiKeys| == 0 ==> currentKeyIndex == old(currentKeyIndex))
        && (|apiKeys| > 0 ==> currentKeyIndex == KeyIndex(old(currentKeyIndex), attempts, |apiKeys|))
        && sent == old(sent) + (if |apiKeys| == 0 || BuildPrompt(req).Failure? then []
                                else Calls(apiKeys, old(currentKeyIndex), BuildPrompt(req).value, attempts))
    {
      ghost var start := currentKeyIndex;
      ghost var sent0 := sent;
      ghost var spec := Run(apiKeys, start, req, network, 0);
      ghost var prompt := BuildPrompt(req);
      var n := |apiKeys|;
      var i := 0;
      while i < n
        invariant 0 <= i <= n && Valid()
        invariant n > 0 ==> currentKeyIndex == KeyIndex(start, i, n)
        invariant n == 0 ==> currentKeyIndex == start
        invariant spec == Run(apiKeys, start, req, network, i)
        invariant i > 0 ==> prompt.Success?
        invariant sent == sent0 + (if i == 0 then [] else Calls(apiKeys, start, prompt.value, i))
      {
        var stop;
        stop, r := TryKey(req, network, i, start);
        if prompt.Success? {
          assert Calls(apiKeys, start, prompt.value, i + 1)
            == (if i == 0 then [] else Calls(apiKeys, start, prompt.value, i))
               + [(apiKeys[KeyIndex(start, i, n)], prompt.value)];
        }
        if stop {
          return;
        }
        i := i + 1;
      }
      r := Failure(NotProcessed);
    }
  }
}
