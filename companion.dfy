/** `synthesizeCompanion` of src/lib/voice/client.ts: the expression-to-instruction
    lookup and the retry loop around one realtime synthesis. */
module Companion {
  import opened Wrappers
  import opened Bytes
  import opened Random

  const MaxRetries: nat := 3
  const BaseDelayMs: nat := 1500

  /** The voice instruction for each expression. */
  const ExpressionInstructions: map<string, string> := map[
    "neutral" := "Speak naturally and warmly, like a friendly study buddy.",
    "happy" := "Speak with a cheerful, bright tone full of energy and joy.",
    "proud" := "Speak with warm pride and admiration, celebrating achievement.",
    "excited" := "Speak with high energy and enthusiasm, truly thrilled.",
    "thinking" := "Speak thoughtfully and gently, as if carefully considering.",
    "encouraging" := "Speak with warm encouragement, supportive and motivating.",
    "teasing" := "Speak playfully with a light, teasing tone.",
    "surprised" := "Speak with gentle surprise, showing care and concern.",
    "listening" := "Speak softly and attentively.",
    "disappointed" := "Speak gently with slight concern, still supportive."
  ]

  const NeutralInstruction: string := "Speak naturally and warmly, like a friendly study buddy."

  /** The instruction for an optional expression: a missing expression, or one
      without an entry, speaks with the neutral instruction. */
  function Instructions(expression: Option<string>): (r: string)
    ensures r in ExpressionInstructions.Values
    ensures expression.Some? && expression.value in ExpressionInstructions ==> r == ExpressionInstructions[expression.value]
    ensures (expression.None? || expression.value !in ExpressionInstructions) ==> r == NeutralInstruction
  {
    var name := expression.GetOr("neutral");
    if name in ExpressionInstructions then ExpressionInstructions[name]
    else ExpressionInstructions["neutral"]
  }

  /** Every expression has its own instruction: distinct expressions speak differently. */
  lemma InstructionsDistinct(a: string, b: string)
    requires a in ExpressionInstructions && b in ExpressionInstructions && a != b
    ensures Instructions(Some(a)) != Instructions(Some(b))
  {
  }

  /** The request `synthesizeCompanionOnce` receives. */
  datatype CompanionRequest = CompanionRequest(voiceId: string, text: string, instructions: string)

  /** The configuration error thrown before any attempt. */
  datatype CompanionError = ApiKeyMissing

  /** `once(req, k)` is the outcome of the k-th call of `synthesizeCompanionOnce`:
      the audio it resolves to, or None when it rejects. */
  type Once = (CompanionRequest, nat) -> Option<seq<byte>>

  /** The first attempt among `from..MaxRetries` that succeeds, if any. */
  function FirstSuccess(once: Once, req: CompanionRequest, from: nat): (r: Option<nat>)
    requires from <= MaxRetries + 1
    ensures r.Some? ==> from <= r.value <= MaxRetries && once(req, r.value).Some?
    ensures r.Some? ==> forall k :: from <= k < r.value ==> once(req, k).None?
    ensures r.None? ==> forall k :: from <= k <= MaxRetries ==> once(req, k).None?
    decreases MaxRetries + 1 - from
  {
    if from > MaxRetries then None
    else if once(req, from).Some? then Some(from)
    else FirstSuccess(once, req, from + 1)
  }

  /** `synthesizeCompanion`: throws without an API key; otherwise up to four
      attempts, with a backoff wait after each failed one but the last, resolving
      to the first audio or to null. `delays` are the waits, in order. */
  method SynthesizeCompanion(apiKeyConfigured: bool, voiceId: string, text: string, expression: Option<string>,
                             once: Once, rand: nat -> real)
    returns (r: Result<Option<seq<byte>>, CompanionError>, attempts: nat, delays: seq<real>)
    requires Draws(rand)
    ensures !apiKeyConfigured ==> r == Failure(ApiKeyMissing) && attempts == 0 && delays == []
    ensures apiKeyConfigured ==>
      var req := CompanionRequest(voiceId, text, Instructions(expression));
      match FirstSuccess(once, req, 0)
      case Some(k) => r == Success(once(req, k)) && attempts == k + 1 && delays == Schedule(BaseDelayMs, k, rand)
      case None => r == Success(None) && attempts == MaxRetries + 1 && delays == Schedule(BaseDelayMs, MaxRetries, rand)
  {
    if !apiKeyConfigured {
      return Failure(ApiKeyMissing), 0, [];
    }
    var instructions := Instructions(expression);
    var req := CompanionRequest(voiceId, text, instructions);
    delays := [];
    var attempt: nat := 0;
    while true
      invariant attempt <= MaxRetries
      invariant FirstSuccess(once, req, attempt) == FirstSuccess(once, req, 0)
      invariant delays == Schedule(BaseDelayMs, attempt, rand)
      decreases MaxRetries - attempt
    {
      var audio := once(req, attempt);
      if audio.Some? {
        return Success(audio), attempt + 1, delays;
      }
      if attempt == MaxRetries {
        return Success(None), attempt + 1, delays;
      }
      delays := delays + [BackoffDelay(BaseDelayMs, attempt, rand(attempt))];
      attempt := attempt + 1;
    }
  }

  /** When every attempt fails, the caller waits at least 10.5 s and less than
      12 s in total before getting null. */
  lemma ExhaustedWait(rand: nat -> real)
    requires Draws(rand)
    ensures 10500.0 <= Sum(Schedule(BaseDelayMs, MaxRetries, rand)) < 12000.0
  {
    ScheduleTotal(BaseDelayMs, MaxRetries, rand);
  }
}
