/** `withRetry`, `generateFeedback` and `generateQuestions` of
    src/lib/gemini/client.ts; the model calls are parameters. */
module Gemini {
  import opened Wrappers
  import opened Random

  const MaxRetries: nat := 3
  const BaseDelayMs: nat := 1000

  /** What a failed call throws: an `Error` with its message, or any other value. */
  datatype Thrown = ErrorObject(message: string) | NonError

  /** How one call of `fn` settles. */
  datatype Attempt<T> = Returned(value: T) | Threw(error: Thrown)

  /** `s.includes(sub)`. */
  predicate Contains(s: string, sub: string)
    decreases |s|
  {
    (|sub| <= |s| && s[..|sub|] == sub) || (|s| > 0 && Contains(s[1..], sub))
  }

  /** `sub` occurs in `s` at position `i`. */
  predicate OccursAt(s: string, sub: string, i: int) {
    0 <= i && i + |sub| <= |s| && s[i..i + |sub|] == sub
  }

  /** `includes` holds exactly when `sub` occurs at some position. */
  lemma {:induction false} ContainsOccurs(s: string, sub: string)
    ensures Contains(s, sub) <==> exists i :: OccursAt(s, sub, i)
    decreases |s|
  {
    if |s| > 0 {
      ContainsOccurs(s[1..], sub);
      if |sub| <= |s| && s[..|sub|] == sub {
        assert OccursAt(s, sub, 0);
      }
      if Contains(s[1..], sub) {
        var i :| OccursAt(s[1..], sub, i);
        assert s[i + 1..i + 1 + |sub|] == s[1..][i..i + |sub|];
        assert OccursAt(s, sub, i + 1);
      }
      if exists i :: OccursAt(s, sub, i) {
        var i :| OccursAt(s, sub, i);
        if i > 0 {
          assert s[1..][i - 1..i - 1 + |sub|] == s[i..i + |sub|];
          assert OccursAt(s[1..], sub, i - 1);
          assert Contains(s[1..], sub);
        } else {
          assert s[..|sub|] == sub;
        }
        assert Contains(s, sub);
      }
    } else {
      if Contains(s, sub) {
        assert OccursAt(s, sub, 0);
      }
      if exists i :: OccursAt(s, sub, i) {
        var i :| OccursAt(s, sub, i);
        assert s[..|sub|] == s[i..i + |sub|];
      }
    }
  }

  /** Rate-limit and overload errors are retried; anything else is rethrown at once. */
  predicate IsRetryable(e: Thrown) {
    e.ErrorObject? &&
    (Contains(e.message, "429") || Contains(e.message, "503") || Contains(e.message, "Resource exhausted"))
  }

  /** `call(req, k)` is how the k-th call of `fn` settles. */
  type Calls<!P, T> = (P, nat) -> Attempt<T>

  /** The loop of `withRetry` from `attempt` on: what it settles with, and how
      many calls were made in all. */
  function RetryFrom<P, T>(call: Calls<P, T>, req: P, retries: nat, attempt: nat): (r: (Attempt<T>, nat))
    requires attempt <= retries
    ensures attempt < r.1 <= retries + 1
    ensures r.0 == call(req, r.1 - 1)
    ensures forall k :: attempt <= k < r.1 - 1 ==> call(req, k).Threw? && IsRetryable(call(req, k).error)
    ensures r.0.Threw? ==> !IsRetryable(r.0.error) || r.1 == retries + 1
    decreases retries - attempt
  {
    match call(req, attempt)
    case Returned(v) => (Returned(v), attempt + 1)
    case Threw(e) =>
      if !IsRetryable(e) || attempt == retries then (Threw(e), attempt + 1)
      else RetryFrom(call, req, retries, attempt + 1)
  }

  function RetryOutcome<P, T>(call: Calls<P, T>, req: P, retries: nat): (Attempt<T>, nat) {
    RetryFrom(call, req, retries, 0)
  }

  /** `withRetry(fn, retries)`: returns the first value `fn` resolves to, rethrows a
      non-retryable error at once and the last error after `retries` retries, and
      waits the backoff delay before each retry. The loop always leaves through a
      return or a throw, so the trailing `throw new Error("Unreachable")` is dead. */
  method WithRetry<P, T>(call: Calls<P, T>, req: P, retries: nat, rand: nat -> real)
    returns (r: Attempt<T>, calls: nat, delays: seq<real>)
    requires Draws(rand)
    ensures (r, calls) == RetryOutcome(call, req, retries)
    ensures delays == Schedule(BaseDelayMs, calls - 1, rand)
  {
    delays := [];
    var attempt: nat := 0;
    while true
      invariant attempt <= retries
      invariant RetryFrom(call, req, retries, attempt) == RetryOutcome(call, req, retries)
      invariant delays == Schedule(BaseDelayMs, attempt, rand)
      decreases retries - attempt
    {
      var outcome := call(req, attempt);
      if outcome.Returned? {
        return outcome, attempt + 1, delays;
      }
      if !IsRetryable(outcome.error) || attempt == retries {
        return outcome, attempt + 1, delays;
      }
      delays := delays + [BackoffDelay(BaseDelayMs, attempt, rand(attempt))];
      attempt := attempt + 1;
    }
  }

  /** A call that succeeds first time is made once. */
  lemma FirstCallSucceeds<P, T>(call: Calls<P, T>, req: P, retries: nat)
    requires call(req, 0).Returned?
    ensures RetryOutcome(call, req, retries) == (call(req, 0), 1)
  {
  }

  /** A non-retryable error is rethrown after the one call that raised it. */
  lemma NonRetryableThrownAtOnce<P, T>(call: Calls<P, T>, req: P, retries: nat)
    requires call(req, 0).Threw? && !IsRetryable(call(req, 0).error)
    ensures RetryOutcome(call, req, retries) == (call(req, 0), 1)
  {
  }

  /** A call that keeps failing with a retryable error is made `retries + 1` times
      and its last error is rethrown. */
  lemma {:induction false} AlwaysRetryableExhausts<P, T>(call: Calls<P, T>, req: P, retries: nat, attempt: nat)
    requires attempt <= retries
    requires forall k :: attempt <= k <= retries ==> call(req, k).Threw? && IsRetryable(call(req, k).error)
    ensures RetryFrom(call, req, retries, attempt) == (call(req, retries), retries + 1)
    decreases retries - attempt
  {
    if attempt < retries {
      AlwaysRetryableExhausts(call, req, retries, attempt + 1);
    }
  }

  /** Any `Error` whose message mentions 429, 503 or "Resource exhausted" is retried. */
  lemma RetryableMessages(prefix: string, suffix: string)
    ensures IsRetryable(ErrorObject(prefix + "429" + suffix))
    ensures IsRetryable(ErrorObject(prefix + "503" + suffix))
    ensures IsRetryable(ErrorObject(prefix + "Resource exhausted" + suffix))
  {
    ContainsInfix(prefix, "429", suffix);
    ContainsInfix(prefix, "503", suffix);
    ContainsInfix(prefix, "Resource exhausted", suffix);
  }

  /** A text contains whatever is written inside it. */
  lemma ContainsInfix(prefix: string, code: string, suffix: string)
    ensures Contains(prefix + code + suffix, code)
  {
    var m := prefix + code + suffix;
    assert m[|prefix|..|prefix| + |code|] == code;
    assert OccursAt(m, code, |prefix|);
    ContainsOccurs(m, code);
  }


  /** A thrown value that is not an `Error` is never retried. */
  lemma NonErrorNotRetryable()
    ensures !IsRetryable(NonError)
  {
  }

  /** The model's reply: `response.text()` yields the text, or None when it throws. */
  datatype Reply = Reply(text: Option<string>)

  datatype FeedbackParams = FeedbackParams(
    characterPrompt: string, component: real, questionText: string,
    userAnswer: string, pronunciationScore: Option<real>, isCorrect: bool)

  /** The system instruction: the character's prompt and the component number. */
  datatype SystemPrompt = SystemPrompt(characterPrompt: string, component: real)

  /** The two user prompts, with the values each one interpolates. */
  datatype UserPrompt =
    | PronunciationPrompt(questionText: string, score: real, didWell: bool)
    | AnswerPrompt(questionText: string, userAnswer: string, gotItRight: bool)

  datatype FeedbackRequest = FeedbackRequest(system: SystemPrompt, user: UserPrompt)

  /** The pronunciation prompt is used exactly when a score is given; the answer
      prompt carries the student's answer. */
  function FeedbackPrompt(p: FeedbackParams): (r: FeedbackRequest)
    ensures r.system == SystemPrompt(p.characterPrompt, p.component)
    ensures r.user.PronunciationPrompt? <==> p.pronunciationScore.Some?
    ensures r.user.questionText == p.questionText
    ensures r.user.PronunciationPrompt? ==> r.user.score == p.pronunciationScore.value && r.user.didWell == p.isCorrect
    ensures r.user.AnswerPrompt? ==> r.user.userAnswer == p.userAnswer && r.user.gotItRight == p.isCorrect
  {
    var user :=
      if p.pronunciationScore.Some? then PronunciationPrompt(p.questionText, p.pronunciationScore.value, p.isCorrect)
      else AnswerPrompt(p.questionText, p.userAnswer, p.isCorrect);
    FeedbackRequest(SystemPrompt(p.characterPrompt, p.component), user)
  }

  const PraiseFallback: string := "做得好！继续加油！ Nice work, keep it up!"
  const RetryFallback: string := "再试一次吧！Practice makes perfect!"

  /** The reply text, or the canned encouragement when the calls or the text fail. */
  function FeedbackText(p: FeedbackParams, outcome: Attempt<Reply>): (r: string)
    ensures outcome.Returned? && outcome.value.text.Some? ==> r == outcome.value.text.value
    ensures !(outcome.Returned? && outcome.value.text.Some?) ==> r == (if p.isCorrect then PraiseFallback else RetryFallback)
  {
    if outcome.Returned? && outcome.value.text.Some? then outcome.value.text.value
    else if p.isCorrect then PraiseFallback
    else RetryFallback
  }

  /** `generateFeedback`: never throws; on failure it answers with the fallback
      matching `isCorrect`. */
  method GenerateFeedback(p: FeedbackParams, call: Calls<FeedbackRequest, Reply>, rand: nat -> real)
    returns (text: string, calls: nat, delays: seq<real>)
    requires Draws(rand)
    ensures var out := RetryOutcome(call, FeedbackPrompt(p), MaxRetries);
      text == FeedbackText(p, out.0) && calls == out.1 && delays == Schedule(BaseDelayMs, calls - 1, rand)
  {
    var req := FeedbackPrompt(p);
    var outcome;
    outcome, calls, delays := WithRetry(call, req, MaxRetries, rand);
    text := FeedbackText(p, outcome);
  }

  /** When the model is unavailable for every call, feedback is the canned text. */
  lemma FeedbackFallsBack(p: FeedbackParams, call: Calls<FeedbackRequest, Reply>)
    requires forall k :: call(FeedbackPrompt(p), k).Threw?
    ensures FeedbackText(p, RetryOutcome(call, FeedbackPrompt(p), MaxRetries).0)
         == if p.isCorrect then PraiseFallback else RetryFallback
  {
    var out := RetryOutcome(call, FeedbackPrompt(p), MaxRetries);
    assert call(FeedbackPrompt(p), out.1 - 1).Threw?;
  }

  datatype QuestionParams = QuestionParams(component: real, count: real, difficulty: Option<string>)

  /** The question prompt: count and component, and a difficulty line only for a
      non-empty difficulty. */
  datatype QuestionPrompt = QuestionPrompt(count: real, component: real, difficultyLine: Option<string>)

  function QuestionsPrompt(p: QuestionParams): (r: QuestionPrompt)
    ensures r.count == p.count && r.component == p.component
    ensures r.difficultyLine.Some? <==> p.difficulty.Some? && p.difficulty.value != ""
    ensures r.difficultyLine.Some? ==> r.difficultyLine.value == p.difficulty.value
  {
    QuestionPrompt(p.count, p.component, if p.difficulty.Some? && p.difficulty.value != "" then p.difficulty else None)
  }

  /** Why `generateQuestions` rejects. */
  datatype QuestionsError =
    | GenerationFailed(error: Thrown)  // rethrown by withRetry
    | NoText                           // `response.text()` threw
    | MalformedJson                    // `JSON.parse` threw

  function QuestionsResult<J>(outcome: Attempt<Reply>, parseJson: string -> Option<J>): (r: Result<J, QuestionsError>)
    ensures outcome.Threw? ==> r == Failure(GenerationFailed(outcome.error))
    ensures outcome.Returned? ==> !(r.Failure? && r.error.GenerationFailed?)
    ensures r.Success? <==> outcome.Returned? && outcome.value.text.Some? && parseJson(outcome.value.text.value).Some?
    ensures r.Success? ==> r.value == parseJson(outcome.value.text.value).value
  {
    match outcome
    case Threw(e) => Failure(GenerationFailed(e))
    case Returned(reply) =>
      match reply.text
      case None => Failure(NoText)
      case Some(t) =>
        match parseJson(t)
        case None => Failure(MalformedJson)
        case Some(j) => Success(j)
  }

  /** `generateQuestions`: errors from the model, the text and the JSON parse
      reach the caller. */
  method GenerateQuestions<J>(p: QuestionParams, call: Calls<QuestionPrompt, Reply>,
                              parseJson: string -> Option<J>, rand: nat -> real)
    returns (r: Result<J, QuestionsError>, calls: nat, delays: seq<real>)
    requires Draws(rand)
    ensures var out := RetryOutcome(call, QuestionsPrompt(p), MaxRetries);
      r == QuestionsResult(out.0, parseJson) && calls == out.1 && delays == Schedule(BaseDelayMs, calls - 1, rand)
  {
    var outcome;
    outcome, calls, delays := WithRetry(call, QuestionsPrompt(p), MaxRetries, rand);
    r := QuestionsResult(outcome, parseJson);
  }
}
