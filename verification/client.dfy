/**
 * The generation client's control logic (src/lib/gemini.ts:8-110): a
 * round-robin pool of API keys, a call that tries at most one key per pool
 * entry, and two loops that regenerate until the validator accepts.
 *
 * The HTTP request is not modelled. Each attempt's outcome is read from a
 * script of outcomes supplied by the caller, one per attempt, in order;
 * once the script is used up every further attempt fails as a transport
 * fault would.
 */
module Client {
  import opened Wrappers
  import opened Prompts
  import opened ResponseParsing
  import opened AnswerValidation

  /** What one `fetch` attempt yields. */
  datatype FetchOutcome =
    | Delivered(text: string)  // `response.ok`; the text of the first candidate's first part
    | HttpError                // `!response.ok`
    | TransportFault           // `fetch`, `response.text()` or `response.json()` threw

  /** The error `callGeminiAPI` throws once every key has failed. */
  datatype ApiError = AllKeysFailed

  /** The outcome of attempt `j` of a script. */
  function OutcomeAt(script: seq<FetchOutcome>, j: nat): FetchOutcome {
    if j < |script| then script[j] else TransportFault
  }

  /** The script left after `k` attempts. */
  function Drop(script: seq<FetchOutcome>, k: nat): (rest: seq<FetchOutcome>)
    ensures |rest| == if k <= |script| then |script| - k else 0
  {
    if k <= |script| then script[k..] else []
  }

  /** Attempt `j >= 1` of a script is attempt `j - 1` of what is left after the first. */
  lemma OutcomeAfterFirst(script: seq<FetchOutcome>)
    ensures forall j :: 1 <= j ==> OutcomeAt(script, j) == OutcomeAt(Drop(script, 1), j - 1)
  {
  }

  /** How many attempts a call that starts at `retryCount` may still make. */
  function Budget(retryCount: nat, poolSize: nat): nat {
    if retryCount < poolSize then poolSize - retryCount else 0
  }

  /** The result of one `callGeminiAPI` and the number of attempts (keys) it used. */
  datatype CallResult = CallResult(result: Result<string, ApiError>, attempts: nat)

  /**
   * `callGeminiAPI(prompt, retryCount)` over a pool of `poolSize` keys: it
   * returns the first delivered text, and throws only after every remaining
   * key has failed once.
   */
  function Retry(script: seq<FetchOutcome>, retryCount: nat, poolSize: nat): (c: CallResult)
    decreases Budget(retryCount, poolSize)
    ensures c.attempts <= Budget(retryCount, poolSize)
    ensures c.result.Success? ==>
      && 1 <= c.attempts <= |script|
      && OutcomeAt(script, c.attempts - 1) == Delivered(c.result.value)
      && forall j :: 0 <= j < c.attempts - 1 ==> !OutcomeAt(script, j).Delivered?
    ensures c.result.Failure? ==>
      && c.result.error == AllKeysFailed
      && c.attempts == Budget(retryCount, poolSize)
      && forall j :: 0 <= j < c.attempts ==> !OutcomeAt(script, j).Delivered?
  {
    if retryCount >= poolSize then CallResult(Failure(AllKeysFailed), 0)
    else
      match OutcomeAt(script, 0)
      case Delivered(text) => CallResult(Success(text), 1)
      case _ =>
        var c := Retry(Drop(script, 1), retryCount + 1, poolSize);
        OutcomeAfterFirst(script);
        CallResult(c.result, c.attempts + 1)
  }

  /** A failed attempt leaves the rest of the call to the next key, on the rest of the script. */
  lemma RetryAfterFailure(script: seq<FetchOutcome>, retryCount: nat, poolSize: nat)
    requires retryCount < poolSize && !OutcomeAt(script, 0).Delivered?
    ensures var c := Retry(Drop(script, 1), retryCount + 1, poolSize);
      && Retry(script, retryCount, poolSize) == CallResult(c.result, c.attempts + 1)
      && Drop(Drop(script, 1), c.attempts) == Drop(script, c.attempts + 1)
  {
  }

  /** With three keys that all fail, the third failure ends the call: no fourth attempt. */
  lemma ExampleThreeKeysExhausted()
    ensures Retry([HttpError, TransportFault, HttpError, Delivered("late")], 0, 3)
            == CallResult(Failure(AllKeysFailed), 3)
  {
    var script := [HttpError, TransportFault, HttpError, Delivered("late")];
    assert Drop(script, 1) == script[1..];
    assert Drop(script[1..], 1) == script[2..];
    assert Drop(script[2..], 1) == script[3..];
  }

  /** The index after `i` in a pool of `n` keys: `(i + 1) % n`, written without the modulus. */
  function Next(i: nat, n: nat): (j: nat)
    requires i < n
    ensures j < n
  {
    if i + 1 == n then 0 else i + 1
  }

  /** `Next` is the source's `(i + 1) % n`. */
  lemma NextIsModulo(i: nat, n: nat)
    requires i < n
    ensures Next(i, n) == (i + 1) % n
  {
  }

  /** The index after `k` rotations from `i`. */
  function Advance(i: nat, k: nat, n: nat): (j: nat)
    requires i < n
    ensures j < n
    decreases k
  {
    if k == 0 then i else Advance(Next(i, n), k - 1, n)
  }

  /** Within one lap, `k` rotations add `k`, wrapping once past the end. */
  lemma {:induction false} AdvanceWithinLap(i: nat, k: nat, n: nat)
    requires i < n && k <= n
    ensures Advance(i, k, n) == if i + k < n then i + k else i + k - n
    decreases k
  {
    if k > 0 {
      AdvanceWithinLap(Next(i, n), k - 1, n);
    }
  }

  /** Rotating `a` times and then `b` times is rotating `a + b` times. */
  lemma {:induction false} AdvanceAdd(i: nat, a: nat, b: nat, n: nat)
    requires i < n
    ensures Advance(Advance(i, a, n), b, n) == Advance(i, a + b, n)
    decreases a
  {
    if a > 0 {
      AdvanceAdd(Next(i, n), a - 1, b, n);
    }
  }

  /**
   * The keys one call tries, at indices `Advance(start, j, n)` for `j` below
   * the number of attempts, are pairwise distinct: at most `n` attempts
   * never reuse a key.
   */
  lemma RotationVisitsDistinctKeys(start: nat, n: nat, a: nat, b: nat)
    requires start < n && a < b < n
    ensures Advance(start, a, n) != Advance(start, b, n)
  {
    AdvanceWithinLap(start, a, n);
    AdvanceWithinLap(start, b, n);
  }

  /** One request as sent: the index and value of the key, and the prompt. */
  datatype Request = Request(keyIndex: nat, key: string, prompt: Prompt)

  /** The result of a whole generate request and how many outcomes of the script it consumed. */
  datatype Generation<T> = Generation(result: Result<T, ApiError>, used: nat, attempts: nat)

  /** How many outcomes of the script `k` attempts consume. */
  function Consumed(script: seq<FetchOutcome>, k: nat): (n: nat)
    ensures n <= |script| && Drop(script, k) == script[n..]
  {
    if k <= |script| then k else |script|
  }

  /** Parse a generated text and keep it only if `verifyAnswer` accepts it. */
  function AcceptQuestion(text: string, questionType: string): (r: Option<GeneratedQuestion>)
    ensures r.Some? <==> VerifyAnswer(ParseGeneratedQuestion(text, questionType))
    ensures r.Some? ==> r.value == ParseGeneratedQuestion(text, questionType)
  {
    var question := ParseGeneratedQuestion(text, questionType);
    if VerifyAnswer(question) then Some(question) else None
  }

  /** Parse a solution text and keep it only if `verifyPYQAnswer` accepts its answer. */
  function AcceptSolution(text: string, questionStatement: string, questionType: string,
                          options: Option<seq<string>>): (r: Option<PyqSolution>)
    ensures r.Some? <==>
      VerifyPYQAnswer(questionStatement, ParsePYQSolution(text, questionType).answer, questionType, options)
    ensures r.Some? ==> r.value == ParsePYQSolution(text, questionType)
  {
    var solution := ParsePYQSolution(text, questionType);
    if VerifyPYQAnswer(questionStatement, solution.answer, questionType, options) then Some(solution) else None
  }

  /**
   * The regenerate loop of `generateQuestion` and `generatePYQSolution`:
   * call, then `accept` parses and validates the text; a rejected text
   * starts a new round, a call that throws ends the request. The accepted
   * text is the last one consumed.
   */
  function Rounds<T>(script: seq<FetchOutcome>, poolSize: nat, accept: string -> Option<T>)
    : (g: Generation<T>)
    decreases |script|
    ensures g.used <= |script|
    ensures g.result.Failure? ==> g.result.error == AllKeysFailed
    ensures g.result.Success? ==>
      && g.used >= 1 && script[g.used - 1].Delivered?
      && accept(script[g.used - 1].text) == Some(g.result.value)
  {
    var c := Retry(script, 0, poolSize);
    match c.result
    case Failure(e) => Generation(Failure(e), Consumed(script, c.attempts), c.attempts)
    case Success(text) =>
      assert script[c.attempts - 1] == OutcomeAt(script, c.attempts - 1);
      match accept(text)
      case Some(v) => Generation(Success(v), c.attempts, c.attempts)
      case None =>
        var rest := script[c.attempts..];
        var g := Rounds(rest, poolSize, accept);
        assert g.result.Success? ==> rest[g.used - 1] == script[c.attempts + g.used - 1];
        Generation(g.result, c.attempts + g.used, c.attempts + g.attempts)
  }

  /** The texts the loop is known to have rejected: those before the last outcome it consumed. */
  function RejectedBound<T>(g: Generation<T>): nat {
    if g.result.Success? && g.used > 0 then g.used - 1 else g.used
  }

  /** Within one call only the last attempt can have delivered a text, and that text is the call's result. */
  lemma OnlyLastAttemptDelivers(script: seq<FetchOutcome>, poolSize: nat, j: nat)
    requires j < |script| && script[j].Delivered?
    requires j < Retry(script, 0, poolSize).attempts
    ensures var c := Retry(script, 0, poolSize);
      c.result.Success? && j == c.attempts - 1 && script[j].text == c.result.value
  {
    assert OutcomeAt(script, j) == script[j];
  }

  /** A delivered text among the first call's outcomes, before the loop's last one, was rejected. */
  lemma RejectedWithinFirstCall<T>(script: seq<FetchOutcome>, poolSize: nat, accept: string -> Option<T>, j: nat)
    requires j < RejectedBound(Rounds(script, poolSize, accept)) && j < |script| && script[j].Delivered?
    requires j < Retry(script, 0, poolSize).attempts
    ensures accept(script[j].text).None?
  {
    OnlyLastAttemptDelivers(script, poolSize, j);
    RoundsByFirstCall(script, poolSize, accept);
  }

  /** The loop only reaches outcomes after the first call's when the first call's text was rejected. */
  lemma LaterRoundsFollowRejection<T>(script: seq<FetchOutcome>, poolSize: nat, accept: string -> Option<T>, j: nat)
    requires j < RejectedBound(Rounds(script, poolSize, accept))
    requires Retry(script, 0, poolSize).attempts <= j
    ensures var c := Retry(script, 0, poolSize);
      c.result.Success? && accept(c.result.value).None?
  {
    RoundsByFirstCall(script, poolSize, accept);
  }

  /** An outcome after the first call's is one the rest of the loop knows to be rejected. */
  lemma RejectedAfterFirstCall<T>(script: seq<FetchOutcome>, poolSize: nat, accept: string -> Option<T>, j: nat)
    requires j < RejectedBound(Rounds(script, poolSize, accept)) && j < |script|
    requires Retry(script, 0, poolSize).attempts <= j
    ensures var c := Retry(script, 0, poolSize);
      0 < c.attempts <= |script| && j - c.attempts < RejectedBound(Rounds(script[c.attempts..], poolSize, accept))
  {
    LaterRoundsFollowRejection(script, poolSize, accept, j);
    RoundsByFirstCall(script, poolSize, accept);
  }

  /**
   * Every text delivered before the accepted one, or before the call that
   * ended the request with an error, was rejected: the loop never skips an
   * acceptable text.
   */
  lemma {:induction false} RoundsRejectEarlierTexts<T>(script: seq<FetchOutcome>, poolSize: nat,
                                                        accept: string -> Option<T>, j: nat)
    requires j < RejectedBound(Rounds(script, poolSize, accept)) && j < |script|
    requires script[j].Delivered?
    ensures accept(script[j].text).None?
    decreases |script|
  {
    var c := Retry(script, 0, poolSize);
    if j < c.attempts {
      RejectedWithinFirstCall(script, poolSize, accept, j);
    } else {
      RejectedAfterFirstCall(script, poolSize, accept, j);
      SuffixOfSuffix(script, c.attempts, j - c.attempts);
      RoundsRejectEarlierTexts(script[c.attempts..], poolSize, accept, j - c.attempts);
    }
  }

  /**
   * One unfolding of the loop: a call that throws ends it with its error,
   * an accepted text ends it with what `accept` made of it, and a rejected
   * text leaves the rest of the loop to the rest of the script.
   */
  lemma RoundsByFirstCall<T>(script: seq<FetchOutcome>, poolSize: nat, accept: string -> Option<T>)
    ensures var c := Retry(script, 0, poolSize);
      var all := Rounds(script, poolSize, accept);
      && (c.result.Failure? ==>
            all == Generation(Failure(AllKeysFailed), Consumed(script, c.attempts), c.attempts))
      && (c.result.Success? && accept(c.result.value).Some? ==>
            all == Generation(Success(accept(c.result.value).value), c.attempts, c.attempts))
      && (c.result.Success? && accept(c.result.value).None? ==>
            var g := Rounds(script[c.attempts..], poolSize, accept);
            all == Generation(g.result, c.attempts + g.used, c.attempts + g.attempts))
  {
  }


  /** The acceptance step of `generateQuestion`. */
  function QuestionAcceptor(questionType: string): string -> Option<GeneratedQuestion> {
    text => AcceptQuestion(text, questionType)
  }

  /** The acceptance step of `generatePYQSolution`. */
  function SolutionAcceptor(questionStatement: string, questionType: string, options: Option<seq<string>>)
    : string -> Option<PyqSolution>
  {
    text => AcceptSolution(text, questionStatement, questionType, options)
  }

  /** What the loop returns is what `accept` made of the last text it consumed. */
  lemma RoundsResultAccepted<T>(script: seq<FetchOutcome>, poolSize: nat, accept: string -> Option<T>)
    ensures var g := Rounds(script, poolSize, accept);
      g.result.Success? ==> exists text :: accept(text) == Some(g.result.value)
  {
    var g := Rounds(script, poolSize, accept);
    if g.result.Success? {
      var text := script[g.used - 1].text;
      assert accept(text) == Some(g.result.value);
    }
  }

  /** `generateQuestion` only returns a question `verifyAnswer` accepts, parsed as the requested type. */
  lemma GeneratedQuestionIsValid(script: seq<FetchOutcome>, poolSize: nat, questionType: string)
    ensures var g := Rounds(script, poolSize, QuestionAcceptor(questionType));
      g.result.Success? ==> VerifyAnswer(g.result.value) && g.result.value.questionType == questionType
  {
    var g := Rounds(script, poolSize, QuestionAcceptor(questionType));
    RoundsResultAccepted(script, poolSize, QuestionAcceptor(questionType));
    if g.result.Success? {
      var text :| QuestionAcceptor(questionType)(text) == Some(g.result.value);
      assert AcceptQuestion(text, questionType) == Some(g.result.value);
    }
  }

  /** `generatePYQSolution` only returns a solution whose answer `verifyPYQAnswer` accepts. */
  lemma GeneratedSolutionIsValid(script: seq<FetchOutcome>, poolSize: nat, questionStatement: string,
                                 questionType: string, options: Option<seq<string>>)
    ensures var g := Rounds(script, poolSize, SolutionAcceptor(questionStatement, questionType, options));
      g.result.Success? ==> VerifyPYQAnswer(questionStatement, g.result.value.answer, questionType, options)
  {
    var accept := SolutionAcceptor(questionStatement, questionType, options);
    var g := Rounds(script, poolSize, accept);
    RoundsResultAccepted(script, poolSize, accept);
    if g.result.Success? {
      var text :| accept(text) == Some(g.result.value);
      assert AcceptSolution(text, questionStatement, questionType, options) == Some(g.result.value);
    }
  }

  /** With no keys every call throws before any attempt, so a request fails at once. */
  lemma EmptyPoolFailsAtOnce<T>(script: seq<FetchOutcome>, accept: string -> Option<T>)
    ensures Rounds(script, 0, accept) == Generation(Failure(AllKeysFailed), 0, 0)
  {
    assert Retry(script, 0, 0) == CallResult(Failure(AllKeysFailed), 0);
  }

  /** The requests of `count` consecutive attempts starting at key index `start`. */
  function Requests(keys: seq<string>, start: nat, count: nat, prompt: Prompt): (r: seq<Request>)
    requires start < |keys|
    ensures |r| == count
    ensures forall j :: 0 <= j < count ==> r[j].prompt == prompt
    decreases count
  {
    if count == 0 then []
    else [Request(start, keys[start], prompt)] + Requests(keys, Next(start, |keys|), count - 1, prompt)
  }

  /** A run is its first request followed by the run from the next key. */
  lemma RequestsCons(keys: seq<string>, before: seq<Request>, start: nat, count: nat, prompt: Prompt)
    requires start < |keys|
    ensures before + [Request(start, keys[start], prompt)] + Requests(keys, Next(start, |keys|), count, prompt)
            == before + Requests(keys, start, count + 1, prompt)
  {
  }

  /** Attempt `j` of a run uses the key `j` rotations after the first. */
  lemma {:induction false} RequestsRotate(keys: seq<string>, start: nat, count: nat, prompt: Prompt, j: nat)
    requires start < |keys| && j < count
    ensures var k := Advance(start, j, |keys|);
      Requests(keys, start, count, prompt)[j] == Request(k, keys[k], prompt)
    decreases count
  {
    if j > 0 {
      RequestsRotate(keys, Next(start, |keys|), count - 1, prompt, j - 1);
    }
  }

  /** Two runs back to back are one longer run. */
  lemma {:induction false} RequestsAppend(keys: seq<string>, before: seq<Request>, start: nat, a: nat, b: nat, prompt: Prompt)
    requires start < |keys|
    ensures before + Requests(keys, start, a, prompt) + Requests(keys, Advance(start, a, |keys|), b, prompt)
            == before + Requests(keys, start, a + b, prompt)
    decreases a
  {
    if a > 0 {
      var next := Next(start, |keys|);
      var first := [Request(start, keys[start], prompt)];
      RequestsAppend(keys, before + first, next, a - 1, b, prompt);
      assert Requests(keys, start, a, prompt) == first + Requests(keys, next, a - 1, prompt);
      assert Requests(keys, start, a + b, prompt) == first + Requests(keys, next, a - 1 + b, prompt);
      assert before + first + Requests(keys, next, a - 1, prompt) == before + Requests(keys, start, a, prompt);
    }
  }

  /** Requests sent from `start` for `a` attempts and then from where they left off for `b` more. */
  lemma RunsCompose(keys: seq<string>, before: seq<Request>, start: nat, a: nat, b: nat, total: nat, prompt: Prompt,
                    mid: seq<Request>, midIndex: nat, after: seq<Request>, afterIndex: nat)
    requires start < |keys| && total == a + b
    requires mid == before + Requests(keys, start, a, prompt) && midIndex == Advance(start, a, |keys|)
    requires after == mid + Requests(keys, midIndex, b, prompt) && afterIndex == Advance(midIndex, b, |keys|)
    ensures after == before + Requests(keys, start, total, prompt) && afterIndex == Advance(start, total, |keys|)
  {
    RequestsAppend(keys, before, start, a, b, prompt);
    AdvanceAdd(start, a, b, |keys|);
  }

  /**
   * The state `callGeminiAPI(prompt, retryCount)` leaves behind, from a log
   * `before` and key index `start`: its result and the script left are those
   * of `Retry`, and each attempt sent the prompt with the next key in turn.
   */
  ghost predicate CallLogged(keys: seq<string>, script: seq<FetchOutcome>, retryCount: nat, prompt: Prompt,
                             result: Result<string, ApiError>, rest: seq<FetchOutcome>,
                             before: seq<Request>, start: nat, after: seq<Request>, afterIndex: nat)
    requires start < |keys|
  {
    var c := Retry(script, retryCount, |keys|);
    && result == c.result && rest == Drop(script, c.attempts)
    && after == before + Requests(keys, start, c.attempts, prompt)
    && afterIndex == Advance(start, c.attempts, |keys|)
  }

  /** Every key already tried: the call throws without an attempt. */
  lemma ExhaustedCall(keys: seq<string>, script: seq<FetchOutcome>, retryCount: nat, prompt: Prompt,
                      before: seq<Request>, start: nat)
    requires start < |keys| && retryCount >= |keys|
    ensures CallLogged(keys, script, retryCount, prompt, Failure(AllKeysFailed), script, before, start, before, start)
  {
    assert before + [] == before;
  }

  /** A delivered first attempt: the call returns its text after one request. */
  lemma DeliveredCall(keys: seq<string>, script: seq<FetchOutcome>, retryCount: nat, prompt: Prompt,
                      before: seq<Request>, start: nat)
    requires start < |keys| && retryCount < |keys| && OutcomeAt(script, 0).Delivered?
    ensures CallLogged(keys, script, retryCount, prompt, Success(OutcomeAt(script, 0).text), Drop(script, 1),
                       before, start, before + [Request(start, keys[start], prompt)], Next(start, |keys|))
  {
    assert Requests(keys, start, 1, prompt) == [Request(start, keys[start], prompt)];
  }

  /** A failed first attempt: the call is its first request followed by the retry with the next key. */
  lemma RetriedCall(keys: seq<string>, script: seq<FetchOutcome>, retryCount: nat, prompt: Prompt,
                    result: Result<string, ApiError>, rest: seq<FetchOutcome>,
                    before: seq<Request>, start: nat, after: seq<Request>, afterIndex: nat)
    requires start < |keys| && retryCount < |keys| && !OutcomeAt(script, 0).Delivered?
    requires CallLogged(keys, Drop(script, 1), retryCount + 1, prompt, result, rest,
                        before + [Request(start, keys[start], prompt)], Next(start, |keys|), after, afterIndex)
    ensures CallLogged(keys, script, retryCount, prompt, result, rest, before, start, after, afterIndex)
  {
    var c := Retry(Drop(script, 1), retryCount + 1, |keys|);
    RetryAfterFailure(script, retryCount, |keys|);
    RequestsCons(keys, before, start, c.attempts, prompt);
  }

  /**
   * The state a request of the regenerate loop leaves behind, from a log
   * `before` and key index `start`: its result and the script left are
   * those of `Rounds`, and every attempt of every round sent the prompt,
   * one key after the other.
   */
  ghost predicate RoundsLogged<T>(keys: seq<string>, script: seq<FetchOutcome>, accept: string -> Option<T>,
                                  prompt: Prompt, result: Result<T, ApiError>, rest: seq<FetchOutcome>,
                                  before: seq<Request>, start: nat, after: seq<Request>, afterIndex: nat)
    requires start < |keys|
  {
    var g := Rounds(script, |keys|, accept);
    && result == g.result && rest == script[g.used..]
    && after == before + Requests(keys, start, g.attempts, prompt)
    && afterIndex == Advance(start, g.attempts, |keys|)
  }

  /** A call that throws: the loop ends after that call's attempts. */
  lemma FailedRound<T>(keys: seq<string>, script: seq<FetchOutcome>, accept: string -> Option<T>,
                       prompt: Prompt, result: Result<T, ApiError>, rest: seq<FetchOutcome>,
                       before: seq<Request>, start: nat, after: seq<Request>, afterIndex: nat)
    requires start < |keys|
    requires var c := Retry(script, 0, |keys|);
      && c.result.Failure? && result == Failure(AllKeysFailed) && rest == Drop(script, c.attempts)
      && after == before + Requests(keys, start, c.attempts, prompt)
      && afterIndex == Advance(start, c.attempts, |keys|)
    ensures RoundsLogged(keys, script, accept, prompt, result, rest, before, start, after, afterIndex)
  {
    RoundsByFirstCall(script, |keys|, accept);
  }

  /** An accepted text: the loop ends after that call's attempts, with what `accept` made of it. */
  lemma AcceptedRound<T>(keys: seq<string>, script: seq<FetchOutcome>, accept: string -> Option<T>,
                         prompt: Prompt, result: Result<T, ApiError>, rest: seq<FetchOutcome>,
                         before: seq<Request>, start: nat, after: seq<Request>, afterIndex: nat)
    requires start < |keys|
    requires var c := Retry(script, 0, |keys|);
      && c.result.Success? && accept(c.result.value).Some?
      && result == Success(accept(c.result.value).value) && rest == Drop(script, c.attempts)
      && after == before + Requests(keys, start, c.attempts, prompt)
      && afterIndex == Advance(start, c.attempts, |keys|)
    ensures RoundsLogged(keys, script, accept, prompt, result, rest, before, start, after, afterIndex)
  {
    RoundsByFirstCall(script, |keys|, accept);
  }

  /** A suffix of a suffix is a suffix. */
  lemma SuffixOfSuffix<X>(s: seq<X>, a: nat, b: nat)
    requires a <= |s| && b <= |s| - a
    ensures s[a..][b..] == s[a + b..]
  {
  }

  /** After a rejected text the loop goes on with the rest of the script. */
  lemma RejectedRoundShape<T>(script: seq<FetchOutcome>, poolSize: nat, accept: string -> Option<T>)
    requires var c := Retry(script, 0, poolSize); c.result.Success? && accept(c.result.value).None?
    ensures var c := Retry(script, 0, poolSize);
      var tail := Drop(script, c.attempts);
      var g := Rounds(tail, poolSize, accept);
      var all := Rounds(script, poolSize, accept);
      && all.result == g.result
      && all.attempts == c.attempts + g.attempts
      && script[all.used..] == tail[g.used..]
  {
    var c := Retry(script, 0, poolSize);
    var g := Rounds(script[c.attempts..], poolSize, accept);
    RoundsByFirstCall(script, poolSize, accept);
    SuffixOfSuffix(script, c.attempts, g.used);
  }

  /**
   * A rejected text: the first call's requests followed by those of the
   * remaining rounds are the requests of all rounds from the start.
   */
  lemma RejectedRound<T>(keys: seq<string>, script: seq<FetchOutcome>, accept: string -> Option<T>,
                         prompt: Prompt, result: Result<T, ApiError>, rest: seq<FetchOutcome>,
                         before: seq<Request>, start: nat, mid: seq<Request>, midIndex: nat,
                         after: seq<Request>, afterIndex: nat)
    requires start < |keys|
    requires var c := Retry(script, 0, |keys|);
      && c.result.Success? && accept(c.result.value).None?
      && mid == before + Requests(keys, start, c.attempts, prompt)
      && midIndex == Advance(start, c.attempts, |keys|)
    requires var c := Retry(script, 0, |keys|);
      midIndex < |keys| &&
      RoundsLogged(keys, Drop(script, c.attempts), accept, prompt, result, rest, mid, midIndex, after, afterIndex)
    ensures RoundsLogged(keys, script, accept, prompt, result, rest, before, start, after, afterIndex)
  {
    var c := Retry(script, 0, |keys|);
    var g := Rounds(Drop(script, c.attempts), |keys|, accept);
    RejectedRoundShape(script, |keys|, accept);
    var total := Rounds(script, |keys|, accept).attempts;
    RunsCompose(keys, before, start, c.attempts, g.attempts, total, prompt, mid, midIndex, after, afterIndex);
  }

  /** Within one call the keys tried are pairwise distinct: no key is tried twice. */
  lemma CallTriesDistinctKeys(keys: seq<string>, start: nat, count: nat, prompt: Prompt, a: nat, b: nat)
    requires start < |keys| && count <= |keys| && a < b < count
    ensures Requests(keys, start, count, prompt)[a].keyIndex != Requests(keys, start, count, prompt)[b].keyIndex
  {
    RequestsRotate(keys, start, count, prompt, a);
    RequestsRotate(keys, start, count, prompt, b);
    RotationVisitsDistinctKeys(start, |keys|, a, b);
  }

  /** The client: the key pool and the module-level rotation index of the source. */
  class GeminiClient {
    const keys: seq<string>
    var currentKeyIndex: nat
    /** Every request sent so far, in order. */
    ghost var sent: seq<Request>

    ghost predicate Valid()
      reads this
    {
      |keys| > 0 && currentKeyIndex < |keys|
    }

    constructor (keys: seq<string>)
      requires |keys| > 0
      ensures Valid() && this.keys == keys && currentKeyIndex == 0 && sent == []
    {
      this.keys := keys;
      currentKeyIndex := 0;
      sent := [];
    }

    /** `getNextApiKey`: the key at the index, and the index moves on by one, wrapping. */
    method GetNextApiKey() returns (key: string)
      requires |keys| > 0 && currentKeyIndex < |keys|
      modifies this
      ensures currentKeyIndex < |keys| && sent == old(sent)
      ensures key == keys[old(currentKeyIndex)]
      ensures currentKeyIndex == (old(currentKeyIndex) + 1) % |keys|
      ensures currentKeyIndex == Next(old(currentKeyIndex), |keys|)
    {
      key := keys[currentKeyIndex];
      NextIsModulo(currentKeyIndex, |keys|);
      currentKeyIndex := (currentKeyIndex + 1) % |keys|;
    }

    /**
     * `callGeminiAPI(prompt, retryCount)`: every attempt takes the next key,
     * the successful one included; a failed attempt retries with the next.
     */
    method CallGeminiAPI(prompt: Prompt, script: seq<FetchOutcome>, retryCount: nat)
      returns (result: Result<string, ApiError>, rest: seq<FetchOutcome>)
      requires Valid()
      modifies this
      decreases Budget(retryCount, |keys|)
      ensures Valid()
      ensures CallLogged(keys, script, retryCount, prompt, result, rest, old(sent), old(currentKeyIndex), sent, currentKeyIndex)
    {
      ghost var before, start := sent, currentKeyIndex;
      if retryCount >= |keys| {
        ExhaustedCall(keys, script, retryCount, prompt, before, start);
        return Failure(AllKeysFailed), script;
      }
      var apiKey := GetNextApiKey();
      sent := sent + [Request(start, apiKey, prompt)];
      match OutcomeAt(script, 0) {
        case Delivered(text) =>
          result, rest := Success(text), Drop(script, 1);
          DeliveredCall(keys, script, retryCount, prompt, before, start);
        case _ =>
          result, rest := CallGeminiAPI(prompt, Drop(script, 1), retryCount + 1);
          RetriedCall(keys, script, retryCount, prompt, result, rest, before, start, sent, currentKeyIndex);
      }
    }

    /**
     * The recursion shared by `generateQuestion` and `generatePYQSolution`:
     * send the prompt, run `accept` (parse and validate) on the text, and
     * start over on a rejected text; a call that throws ends the request
     * with its error.
     */
    method Regenerate<T>(prompt: Prompt, accept: string -> Option<T>, script: seq<FetchOutcome>)
      returns (result: Result<T, ApiError>, rest: seq<FetchOutcome>)
      requires Valid()
      modifies this
      decreases |script|
      ensures Valid()
      ensures RoundsLogged(keys, script, accept, prompt, result, rest, old(sent), old(currentKeyIndex), sent, currentKeyIndex)
    {
      ghost var before, start := sent, currentKeyIndex;
      var generatedText, after := CallGeminiAPI(prompt, script, 0);
      match generatedText {
        case Failure(e) =>
          result, rest := Failure(e), after;
          FailedRound(keys, script, accept, prompt, result, rest, before, start, sent, currentKeyIndex);
        case Success(text) =>
          var accepted := accept(text);
          if accepted.Some? {
            result, rest := Success(accepted.value), after;
            AcceptedRound(keys, script, accept, prompt, result, rest, before, start, sent, currentKeyIndex);
          } else {
            ghost var mid, midIndex := sent, currentKeyIndex;
            result, rest := Regenerate(prompt, accept, after);
            RejectedRound(keys, script, accept, prompt, result, rest, before, start, mid, midIndex, sent, currentKeyIndex);
          }
      }
    }

    /**
     * `generateQuestion`: the question prompt sent again and again until
     * `parseGeneratedQuestion` and `verifyAnswer` accept a response.
     */
    method GenerateQuestion(questionType: string, topicId: string, existingQuestions: seq<string>,
                            alreadyGeneratedQuestions: seq<string>, context: QuestionContext,
                            script: seq<FetchOutcome>)
      returns (result: Result<GeneratedQuestion, ApiError>, rest: seq<FetchOutcome>)
      requires Valid()
      modifies this
      ensures Valid()
      ensures var g := Rounds(script, |keys|, QuestionAcceptor(questionType));
        && result == g.result && rest == script[g.used..]
        && sent == old(sent) + Requests(keys, old(currentKeyIndex), g.attempts, BuildQuestionPrompt(questionType, existingQuestions, alreadyGeneratedQuestions, context))
        && currentKeyIndex == Advance(old(currentKeyIndex), g.attempts, |keys|)
    {
      var prompt := BuildQuestionPrompt(questionType, existingQuestions, alreadyGeneratedQuestions, context);
      result, rest := Regenerate(prompt, QuestionAcceptor(questionType), script);
    }

    /**
     * `generatePYQSolution`: the solution prompt sent again and again until
     * `parsePYQSolution` and `verifyPYQAnswer` accept a response.
     */
    method GeneratePYQSolution(questionStatement: string, questionType: string,
                               options: Option<seq<string>>, context: QuestionContext,
                               script: seq<FetchOutcome>)
      returns (result: Result<PyqSolution, ApiError>, rest: seq<FetchOutcome>)
      requires Valid()
      modifies this
      ensures Valid()
      ensures var g := Rounds(script, |keys|, SolutionAcceptor(questionStatement, questionType, options));
        && result == g.result && rest == script[g.used..]
        && sent == old(sent) + Requests(keys, old(currentKeyIndex), g.attempts, BuildPYQSolutionPrompt(questionStatement, questionType, options, context))
        && currentKeyIndex == Advance(old(currentKeyIndex), g.attempts, |keys|)
    {
      var prompt := BuildPYQSolutionPrompt(questionStatement, questionType, options, context);
      result, rest := Regenerate(prompt, SolutionAcceptor(questionStatement, questionType, options), script);
    }
  }
}
