# PCSWebTool audio and AI helpers in Dafny

This project models the server-side core of PCSWebTool, a Putonghua (PSC) practice
web application. It covers:

- **WAV handling** in the voice client: building a 44-byte RIFF/WAVE header around
  16-bit PCM, parsing a WAV back into its payload and format, generating silence
  of an exact duration, and trimming trailing silence.
- **Word-group synthesis**: words go through a per-word cache that holds at
  most 500 entries and evicts in FIFO order. A word synthesised in a group is
  served from the cache when it recurs within the next 500 words. Only a new
  key evicts, and a cache hit stores nothing, so the word is synthesised again
  only once 500 other new keys have been stored after it. The words are joined with exact-length pauses
  under one header.
- **Companion synthesis**: each expression maps to an instruction, with up to
  four attempts and exponential backoff.
- **The `/api/tts/speak` route**: authentication, validation, its own 500-entry
  FIFO audio cache and its status codes.
- **The Gemini wrapper**: the retry policy of `withRetry` (which errors are
  retried, how many calls are made, the backoff delays), and the feedback and
  question generators built on it.
- **Fisher–Yates `shuffle` and `randomizeAnswerPositions`**.
- **The local character-image fallback**.

Network calls, `Math.random()` and the speech vendor are parameters:

- A `Vendor` maps a voice and the UTF-16 code units of the text sent to the
  downloaded WAV, or to None when the request fails.
- `rand(k)` is the k-th draw of `Math.random()` in the retry loops. In
  `shuffle` it is the draw made at array position k, so the first draw is
  `rand(n - 1)` and the last is `rand(1)`.
- `call(req, k)` is how the k-th call to the model settles.

Files:

| file | module | contents |
|---|---|---|
| `wrappers.dfy` | `Wrappers` | `Option` and `Result` |
| `bytes.dfy` | `Bytes` | bytes, little-endian fields, ASCII |
| `utf16.dfy` | `Utf16` | JavaScript strings as UTF-16 code units |
| `wav.dfy` | `Wav` | `addWavHeader`, `parseWavPcm` |
| `silence.dfy` | `Silence` | `generateSilence`, `trimTrailingSilence` |
| `fifo_cache.dfy` | `FifoCache` | the insertion-ordered `Map` caches, capped at 500 entries |
| `random.dfy` | `Random` | the backoff formula |
| `word_group.dfy` | `WordGroup` | `synthesizeAcademic` truncation, `synthesizeWord`, `synthesizeWordGroup` |
| `companion.dfy` | `Companion` | `synthesizeCompanion` |
| `speak_route.dfy` | `SpeakRoute` | `POST /api/tts/speak` |
| `gemini.dfy` | `Gemini` | `withRetry`, `generateFeedback`, `generateQuestions` |
| `utils.dfy` | `Utils` | `shuffle`, `randomizeAnswerPositions` |
| `character_images.dfy` | `CharacterImages` | `getCharacterImageFallback` |

The source uses Node semantics, and the model states them explicitly:

- `readUInt16LE`/`readUInt32LE` past the end throw a `RangeError`. This is
  modelled as `Failure(OutOfBounds)`.
- `toString("ascii")` clears the high bit of each byte. The marker comparison
  therefore uses `b % 128`.
- `subarray` clamps its end, and a negative end counts from the back.
- `writeUInt*LE` throws on an out-of-range value. `AddWavHeader` therefore
  requires the fields to fit (`Encodable`).
- `Math.round` rounds halves up.

## Model

| member | source | states |
|---|---|---|
| Bytes.Le16 | src/lib/voice/client.ts:383-388 | `writeUInt16LE`: two bytes, low byte first, whose little-endian value is the field |
| Bytes.Le32 | src/lib/voice/client.ts:378-391 | `writeUInt32LE`: four bytes whose little-endian value is the field |
| Bytes.I16At | src/lib/voice/client.ts:286 | `readInt16LE` is two's complement: in [-32768, 32768), non-negative exactly when the high byte is below 128, and equal to the unsigned reading modulo 2^16 |
| Bytes.U16AtLe16 | src/lib/voice/client.ts:238 | a 16-bit field written little-endian reads back as the same value wherever it sits |
| Bytes.U32AtLe32 | src/lib/voice/client.ts:239 | a 32-bit field written little-endian reads back as the same value wherever it sits |
| Bytes.Ascii | src/lib/voice/client.ts:377 | `header.write(s)` of an ASCII tag writes one byte per character, its code |
| Wav.EncodableShorter | src/lib/voice/client.ts:378 | if a payload's header fields fit, a shorter payload's fit too |
| Wav.HeaderLayout | src/lib/voice/client.ts:375-391 | the 44 header bytes hold each tag and field at its offset: RIFF 0, size 4, WAVE 8, "fmt " 12, 16 at 16, 1 at 20, channels 22, rate 24, byte rate 28, block align 32, bits 34, "data" 36, size 40 |
| Wav.AddWavHeader | src/lib/voice/client.ts:364-394 | the result is 44 + \|pcm\| bytes, the payload follows the header unchanged, the four tags sit at 0/8/12/36, and every field reads back: RIFF size \|pcm\| + 36, fmt size 16, format 1, channels, rate, byte rate, block align, bits, data size \|pcm\| |
| Wav.ByteRateExact | src/lib/voice/client.ts:370-371 | for whole-byte samples, byte rate = rate × block align and 8 × block align = channels × bits, with no rounding |
| Wav.ScanFrom | src/lib/voice/client.ts:243-249 | the scan stops at an even offset no lower than its start; it stops on the "data" marker when it stops before \|wav\| - 8; every even offset it passed lies below \|wav\| - 8 and holds no marker |
| Wav.Parse | src/lib/voice/client.ts:231-255 | a successful parse needs at least 44 bytes and yields a payload no longer than \|wav\| - 44 |
| Wav.ParseWavPcm | src/lib/voice/client.ts:231-255 | the field reads, the marker scan loop and the `subarray` yield exactly `Parse` |
| Wav.AsciiDataMatches | src/lib/voice/client.ts:245 | the bytes of "data" pass the ASCII comparison |
| Wav.RoundTrip | src/lib/voice/client.ts:231-255 | parsing the output of `addWavHeader(pcm, format)` gives back exactly `pcm` and the format |
| Wav.ParseFailsExactly | src/lib/voice/client.ts:238-251 | parsing throws exactly when the buffer is under 44 bytes, or has odd length and no marker; no other error exists |
| Wav.NoMarkerGivesEmptyPcm | src/lib/voice/client.ts:243-252 | an even-length buffer without the marker still parses, to an empty payload and the header's format |
| Silence.SamplesFor | src/lib/voice/client.ts:266 | `Math.round(ms / 1000 * rate)`: 1000n ≤ ms × rate + 500 < 1000n + 1000 |
| Silence.GenerateSilence | src/lib/voice/client.ts:260-269 | exactly samples × block-align bytes, every one zero |
| Silence.DefaultPauseBytes | src/lib/voice/client.ts:266-268 | the default 750 ms pause at 24 kHz mono 16-bit is 36000 bytes |
| Silence.ScanBack | src/lib/voice/client.ts:284-289 | the backward scan stops in [-1, k], at -1 only when it starts there, on a sample louder than the threshold when above 0, and every sample it passed is at most the threshold |
| Silence.SubarrayEnd | src/lib/voice/client.ts:292 | `subarray`'s end clamped to [0, length], with a negative end counted from the back |
| Silence.Trimmed | src/lib/voice/client.ts:274-293 | the trimmed buffer is a prefix of the input, of even length, at most the whole samples |
| Silence.TrimTrailingSilence | src/lib/voice/client.ts:274-293 | the backward scan loop and the cut yield exactly `Trimmed` |
| Silence.TrimCut | src/lib/voice/client.ts:283-292 | all samples after the last audible one are quiet, the last audible one (above 0) is loud, and the length is 2 × min(last + margin, total) clamped at 0 |
| Silence.TrimAgainNoLonger | src/lib/voice/client.ts:274-293 | trimming a trimmed buffer again never lengthens it |
| Silence.ScanBackIgnoresSampleZero | src/lib/voice/client.ts:285 | the scan never reads sample 0: buffers differing only there scan alike |
| Silence.TrimIgnoresSampleZero | src/lib/voice/client.ts:285-292 | buffers that differ only in sample 0 are cut to the same length |
| Silence.ZeroMarginDropsLastAudible | src/lib/voice/client.ts:291-292 | with margin 0 the cut falls before the last audible sample: samples 0, 1000, 0 keep only the first |
| FifoCache.Appended | src/app/api/tts/speak/route.ts:32 | `set` of a new key appends it last in insertion order and keeps the cache consistent |
| FifoCache.EvictOldest | src/app/api/tts/speak/route.ts:36-39 | deleting the first key removes it from the order and the entries and leaves every other entry |
| FifoCache.Stored | src/app/api/tts/speak/route.ts:32-40 | after a store the key holds the value, at most 500 entries remain, other values are unchanged, a known key keeps its place, a new key goes last, and only the oldest key of a full cache can be evicted |
| FifoCache.StoreAllFits | src/app/api/tts/speak/route.ts:32-40 | storing distinct new keys that fit keeps them all, in insertion order |
| FifoCache.FirstKeyEvictedAfterOverflow | src/app/api/tts/speak/route.ts:35-40 | after 501 distinct stores into an empty cache, 500 entries remain and only the first key has gone |
| FifoCache.StoreIntoFull | src/app/api/tts/speak/route.ts:32-40 | a new key stored into a full cache replaces its oldest key, leaving 500 entries |
| FifoCache.StoredIsRecent | src/lib/voice/client.ts:332-336 | a newly stored key is the newest one |
| FifoCache.StoredKeepsRecent | src/lib/voice/client.ts:332-336 | a key among the newest m, for m below 500, is still stored, and among the newest m + 1, after any store |
| FifoCache.Newest | src/lib/voice/client.ts:334-336 | the newest 500 keys: at most 500, all taken from the keys given |
| FifoCache.StoredFresh | src/lib/voice/client.ts:332-336 | storing a new key leaves the order as the newest 500 of the old order followed by the key |
| FifoCache.NewestAppend | src/lib/voice/client.ts:332-336 | keeping the newest 500 keys before or after appending a key gives the same order |
| FifoCache.StoreAllSplit | src/app/api/tts/speak/route.ts:32-40 | storing a + b is storing a, then b |
| FifoCache.Cache.constructor | src/app/api/tts/speak/route.ts:7 | a new cache is empty |
| FifoCache.Cache.Get | src/app/api/tts/speak/route.ts:27 | `get` finds exactly the stored keys and returns their values |
| FifoCache.Cache.Store | src/app/api/tts/speak/route.ts:32-40 | `set`, then delete the first key above 500 entries: the new state is `Stored` of the old one, and the invariant is kept |
| Random.DoubledIsPower | src/lib/voice/client.ts:220 | doubling the base k times is `base * Math.pow(2, k)` |
| Random.BackoffDelay | src/lib/voice/client.ts:220 | the wait before retry k lies in [base × 2^k, base × 2^k + 500) |
| Random.Schedule | src/lib/gemini/client.ts:21 | the k-th wait is the backoff delay of attempt k with the k-th draw |
| Random.ScheduleTotal | src/lib/gemini/client.ts:21-23 | n waits total at least base × (2^n - 1) and less than that plus 500n |
| Companion.Instructions | src/lib/voice/client.ts:204-206 | the instruction is always one of the ten; a known expression gets its own; a missing or unknown one gets the neutral one |
| Companion.InstructionsDistinct | src/lib/voice/client.ts:6-17 | different expressions have different instructions |
| Companion.FirstSuccess | src/lib/voice/client.ts:208-215 | the first attempt in range that resolves, with every earlier attempt failed; None only when all four fail |
| Companion.SynthesizeCompanion | src/lib/voice/client.ts:195-226 | no API key throws before any attempt; otherwise the first audio is returned after k + 1 attempts and k backoff waits, or null after 4 attempts and 3 waits |
| Companion.ExhaustedWait | src/lib/voice/client.ts:216-223 | when every attempt fails, the caller waits between 10.5 s and 12 s in total |
| Utf16.Units | src/lib/voice/client.ts:29 | a character is one code unit, itself, inside the Basic Multilingual Plane, and a high and a low surrogate above it, from which it is recovered |
| Utf16.EncodeAppend | src/lib/voice/client.ts:29 | the code units of a concatenation are those of the parts, one after the other |
| Utf16.BmpEncode | src/lib/voice/client.ts:29 | inside the Basic Multilingual Plane a text has one code unit per character, equal to the character |
| Utf16.AstralLength | src/lib/voice/client.ts:29 | characters above the plane take two code units each |
| WordGroup.SynthesizeAcademic | src/lib/voice/client.ts:24-78 | a contract-free definition: the vendor applied to the voice and `Sent(text)`; its properties are carried by `Sent` and `ShortTextSentWhole` |
| WordGroup.Sent | src/lib/voice/client.ts:29 | `slice(0, 600)` counts UTF-16 code units: what is sent is the first min(600, length) code units of the text |
| WordGroup.ShortTextSentWhole | src/lib/voice/client.ts:24-29 | a text of at most 600 code units reaches the vendor whole |
| WordGroup.SameFirst600SameAudio | src/lib/voice/client.ts:29 | texts agreeing on their first 600 code units get the same audio |
| WordGroup.BmpTextSentWhole | src/lib/voice/client.ts:29 | a text of at most 600 characters inside the Basic Multilingual Plane is sent whole, one code unit per character |
| WordGroup.AstralTextCutAt300 | src/lib/voice/client.ts:29 | of 400 copies of U+20000 only the first 300 are sent |
| WordGroup.CutSplitsSurrogatePair | src/lib/voice/client.ts:29 | 599 letters followed by U+20000 are cut after the high surrogate 0xD840, splitting the pair |
| WordGroup.CacheKey | src/lib/voice/client.ts:329 | a contract-free definition of the key `${voiceId}:${text}`, also used at src/app/api/tts/speak/route.ts:24; its properties are carried by `CacheKeySameVoice`, `CacheKeyInjective` and `CacheKeyCollision` |
| WordGroup.CacheKeySameVoice | src/lib/voice/client.ts:329 | for one voice, different words have different keys |
| WordGroup.CacheKeyInjective | src/app/api/tts/speak/route.ts:24 | voices without ':' never share a key |
| WordGroup.CacheKeyCollision | src/app/api/tts/speak/route.ts:24 | with a ':' in the voice, ("a:b", "c") and ("a", "b:c") share a key |
| WordGroup.WrittenIsWellFormed | src/lib/voice/client.ts:331 | a re-wrapped clip parses back to its payload and format |
| WordGroup.WordClip | src/lib/voice/client.ts:300-307 | `synthesizeWord` fails exactly when the vendor does; otherwise it keeps the vendor's format and an even-length prefix of its payload |
| WordGroup.SynthesizeWord | src/lib/voice/client.ts:300-307 | running the parse and trim loops yields exactly `WordClip` |
| WordGroup.Rewrapped | src/lib/voice/client.ts:331 | the cached container for a synthesised word exists exactly when the vendor succeeds, and parses back to the trimmed clip |
| WordGroup.Step | src/lib/voice/client.ts:328-340 | a cached word costs no vendor call and leaves the cache unchanged; a missing word calls the vendor once, then either fails with the cache unchanged or stores the re-wrapped clip and appends it |
| WordGroup.ResolveFrom | src/lib/voice/client.ts:328-341 | the loop keeps the cache bounded and holding only well-formed containers, and collects one buffer per word when no synthesis fails |
| WordGroup.AllCachedNoSynthesis | src/lib/voice/client.ts:328-341 | when every word is cached, nothing is synthesised, the cache is unchanged, and buffer j is the cached buffer of word j |
| WordGroup.RepeatedWordSynthesizedOnce | src/lib/voice/client.ts:328-341 | in the group `[w, w]`, `w` is synthesised at most once |
| WordGroup.SynthesizedStaysRecent | src/lib/voice/client.ts:328-341 | a word synthesised at position i stays among the newest t - i keys after word t, for t - i at most 500, unless the group failed |
| WordGroup.TurnServedFromCache | src/lib/voice/client.ts:328-340 | a word whose key is in the cache is not sent to the vendor and leaves the cache unchanged |
| WordGroup.RepeatWithinBoundServedFromCache | src/lib/voice/client.ts:310-341 | when word i was synthesised and word j repeats it at most 500 words later, word j is not sent to the vendor and leaves the cache unchanged |
| WordGroup.DistinctWordsAllSynthesized | src/lib/voice/client.ts:328-341 | from an empty cache, distinct words that the vendor voices are all synthesised, and the cache order is the newest 500 of their keys |
| WordGroup.RepeatAfterBoundResynthesized | src/lib/voice/client.ts:310-341 | from an empty cache, when the 501 words before the repeat are distinct and all voiced, the repeat is synthesised again |
| WordGroup.StepTraceable | src/lib/voice/client.ts:328-340 | one turn keeps every cache entry and collected buffer traceable to the old cache or the vendor |
| WordGroup.ResolvedBuffersTraceable | src/lib/voice/client.ts:328-341 | the whole loop keeps every entry and buffer traceable |
| WordGroup.ResolvedBuffersOrigin | src/lib/voice/client.ts:328-341 | each collected buffer is the one cached for its word before the call, or that word's vendor audio trimmed and re-wrapped |
| WordGroup.InterleaveLength | src/lib/voice/client.ts:351-355 | the joined payload is the sum of the words' lengths plus (n - 1) pauses |
| WordGroup.InterleaveFront | src/lib/voice/client.ts:351-355 | the joined payload is the first word, a pause, then the rest joined |
| WordGroup.ConcatWithPauses | src/lib/voice/client.ts:351-355 | the `forEach` with `Buffer.concat` yields exactly `Interleave` |
| WordGroup.PcmsOf | src/lib/voice/client.ts:344 | one payload per buffer, in order, each the parse of that buffer |
| WordGroup.ParseAll | src/lib/voice/client.ts:344 | `wordBuffers.map(parseWavPcm)`: one parsed value per buffer, each the parse of that buffer |
| WordGroup.Assembled | src/lib/voice/client.ts:343-358 | an empty group fails; an over-long payload fails at the header; otherwise the result parses back to the words joined with pauses, in the first word's format |
| WordGroup.ResolveWord | src/lib/voice/client.ts:328-340 | one iteration of the loop against the cache object yields exactly `Step` |
| WordGroup.AssembleGroup | src/lib/voice/client.ts:343-358 | the parse loop, silence and concatenation yield exactly `Assembled` |
| WordGroup.SynthesizeWordGroup | src/lib/voice/client.ts:318-359 | the cache ends as `Resolve` leaves it, the words sent to the vendor are those `Resolve` lists, and the result is a synthesis failure or the assembled group |
| SpeakRoute.Handle | src/app/api/tts/speak/route.ts:9-53 | 401 without a user, 500 on a body that is not JSON or is `null`, 400 unless both fields are non-empty strings; then a cached key is served from the cache with no synthesis; otherwise the vendor is called, and a failure is 500 with the cache unchanged while a success is stored and served |
| SpeakRoute.RepeatServedFromCache | src/app/api/tts/speak/route.ts:26-41 | after a request is answered with audio, repeating it returns the same audio from the cache, whatever the vendor would now return |
| SpeakRoute.CacheChangesOnlyOnSynthesis | src/app/api/tts/speak/route.ts:29-41 | only a successful synthesis changes the cache |
| SpeakRoute.Post | src/app/api/tts/speak/route.ts:9-53 | the handler against the cache object gives the response, cache state and vendor use of `Handle` |
| Gemini.ContainsOccurs | src/lib/gemini/client.ts:15-17 | `includes` holds exactly when the substring occurs at some position |
| Gemini.RetryFrom | src/lib/gemini/client.ts:9-25 | calls run from the given attempt to at most retries + 1; the result is the last call's outcome; every earlier call threw a retryable error; a thrown result is non-retryable or the last allowed call |
| Gemini.WithRetry | src/lib/gemini/client.ts:8-27 | the loop settles with `RetryOutcome` after that many calls, with one backoff wait before each retry |
| Gemini.FirstCallSucceeds | src/lib/gemini/client.ts:11 | a first call that resolves is the only call |
| Gemini.NonRetryableThrownAtOnce | src/lib/gemini/client.ts:19 | a non-retryable first error is rethrown after one call |
| Gemini.AlwaysRetryableExhausts | src/lib/gemini/client.ts:19 | always-retryable failures make retries + 1 calls and rethrow the last error |
| Gemini.IsRetryable | src/lib/gemini/client.ts:13-17 | a contract-free definition of the retry test; its properties are carried by `RetryableMessages` and `NonErrorNotRetryable` |
| Gemini.RetryableMessages | src/lib/gemini/client.ts:13-17 | any message containing 429, 503 or "Resource exhausted" is retryable |
| Gemini.NonErrorNotRetryable | src/lib/gemini/client.ts:14 | a thrown non-`Error` value is never retried |
| Gemini.FeedbackPrompt | src/lib/gemini/client.ts:39-53 | the pronunciation prompt is used exactly when a score is given, carrying the question, score and correctness; otherwise the answer prompt carries the question, answer and correctness |
| Gemini.FeedbackText | src/lib/gemini/client.ts:62-67 | the reply's text when there is one; otherwise the praise or the retry fallback according to `isCorrect` |
| Gemini.GenerateFeedback | src/lib/gemini/client.ts:29-69 | never throws: it answers with the text of the retried call, or the fallback |
| Gemini.FeedbackFallsBack | src/lib/gemini/client.ts:63-67 | when every call throws, the feedback is the fallback matching `isCorrect` |
| Gemini.QuestionsPrompt | src/lib/gemini/client.ts:78-81 | the difficulty line appears exactly for a non-empty difficulty |
| Gemini.QuestionsResult | src/lib/gemini/client.ts:83-84 | a thrown call is rethrown as is; success exactly when the text exists and parses, giving the parsed value |
| Gemini.GenerateQuestions | src/lib/gemini/client.ts:71-85 | the result is `QuestionsResult` of the retried call's outcome |
| Utils.SwapIndexInRange | src/lib/utils.ts:12 | the drawn partner j lies in [0, i] |
| Utils.PicksValid | src/lib/utils.ts:12 | every position's partner lies at or below it |
| Utils.Swap | src/lib/utils.ts:13 | the destructuring swap exchanges positions i and j and leaves all others |
| Utils.SwapPermutes | src/lib/utils.ts:13 | a swap keeps the multiset of elements |
| Utils.ShuffleWith | src/lib/utils.ts:11-14 | the passes keep the length |
| Utils.Shuffled | src/lib/utils.ts:9-16 | the shuffled copy has the input's length |
| Utils.ShuffleWithPermutes | src/lib/utils.ts:11-14 | the passes keep the multiset of elements |
| Utils.ShuffledPermutes | src/lib/utils.ts:9-16 | the shuffled copy is a permutation of the input |
| Utils.ShuffleWithMap | src/lib/utils.ts:11-14 | the passes commute with mapping the elements |
| Utils.ShuffledMap | src/lib/utils.ts:20-22 | shuffling indices and then mapping them equals shuffling the mapped sequence |
| Utils.Shuffle | src/lib/utils.ts:9-16 | a fresh array holding `Shuffled` of the input array's contents; the caller's array is unchanged |
| Utils.ShortUnchanged | src/lib/utils.ts:11 | arrays of at most one element come back equal |
| Utils.Range | src/lib/utils.ts:20 | `options.map((_, i) => i)` is 0 .. n - 1 |
| Utils.IndexOf | src/lib/utils.ts:23 | `indexOf`: the first position holding x, or -1 exactly when x is absent |
| Utils.Pick | src/lib/utils.ts:22 | option k of the result is the option at shuffled index k |
| Utils.ShuffledRange | src/lib/utils.ts:20-21 | shuffled indices are all in range and each index occurs |
| Utils.RandomizedOptions | src/lib/utils.ts:20-22 | mapping the shuffled indices to options equals shuffling the options under the same draws |
| Utils.RandomizedKeepsAnswer | src/lib/utils.ts:19-30 | the options are `shuffle(options)` under the same draws, a permutation of the old ones; an in-range answer index follows its option; an out-of-range one becomes -1; the other fields are kept |
| Utils.RandomizeAnswerPositions | src/lib/utils.ts:19-30 | running `shuffle` on an index array yields exactly `Randomized` |
| CharacterImages.GetCharacterImageFallback | src/lib/character-images.ts:6-14 | non-empty expressions are returned as they are; otherwise a character with a bundled portrait gets it as "neutral", and any other character gets the empty map |
| CharacterImages.FallbackNeverEmpty | src/lib/character-images.ts:10-13 | a character with a bundled portrait always ends up with an image |
| CharacterImages.FallbackEmptyExactly | src/lib/character-images.ts:10-13 | the result is empty exactly when the images are empty and the character has no bundled portrait |
| CharacterImages.FallbackImagesFromSources | src/lib/character-images.ts:6-14 | every image shown is the character's own or the bundled portrait as "neutral" |
| CharacterImages.FallbackIdempotent | src/lib/character-images.ts:6-14 | applying the fallback twice equals applying it once |
| CharacterImages.KaedeFallback | src/lib/character-images.ts:2-4 | Kaede falls back to "/img/character/Kaede/pcs1.png" |

## Left out

- Network I/O:
  - the HTTP requests and the audio download of `synthesizeAcademic`;
  - the realtime WebSocket session `synthesizeCompanionOnce`;
  - the Gemini SDK;
  - Supabase authentication.

  They are parameters: a `Vendor` function, a `once` function, `call` functions, and an `authenticated` flag.
- Sleeps and logging: `setTimeout` waits and `console` messages are not modelled. Each delay is returned as a value instead.
- Real numbers: `Math.random()` draws are exact reals in [0, 1), not IEEE doubles. Rounding (`Math.round`, `Math.floor`) is exact.
- Number ranges: durations, sample rates and counts are naturals. Negative or fractional `pauseMs`, `marginMs` and sample rates are not modelled.
- JSON values: only strings are modelled for `voiceId` and `text`. A body whose fields are numbers or other JSON values is not covered. Likewise a question's `correctIndex` from the model's JSON is an integer: a fractional, NaN or non-number value, which `indexOf` would turn into -1, is not covered.
- JSON parsing in `generateQuestions`: `JSON.parse` is a parameter, and its output type is left abstract.
- Prompt wording: the Gemini prompts are kept as structured values holding what they interpolate, not as their template text.
- Response metadata: response headers (`Content-Type`, `Cache-Control`) and the `Uint8Array` copy are not modelled.
- Object keys: lookups in `EXPRESSION_INSTRUCTIONS` and `CHARACTER_IMAGES` treat keys as plain strings. Inherited object keys such as "constructor" are not modelled.
- Concurrency: concurrent requests interleaving on the module-level caches are not modelled. Each request runs to completion.
- WordGroup.VendorWellFormed: a vendor WAV that fails to parse would make `synthesizeWord` throw. The word-group model instead requires every vendor success to be a well-formed WAV whose fields can be written back.
- Wav.AddWavHeader: a payload or format whose fields do not fit makes Node throw. The model excludes this through its `Encodable` requirement, and only `WordGroup.Assembled` models that throw, as `HeaderOutOfRange`.
- Wav.AddWavHeader: `Encodable` also requires `bitsPerSample` to be a multiple of 8, which Node does not demand. For other sample widths `byteRate` and `blockAlign` are fractional, and `writeUInt32LE`/`writeUInt16LE` truncate them. The model does not cover those formats.
- Silence.GenerateSilence: requires `bitsPerSample` to be a multiple of 8. For other widths the source's `Buffer.alloc` truncates a fractional byte count, and the model does not cover that.
- Gemini.FeedbackPrompt: the score is an exact real. NaN, infinities and the decimal text JavaScript prints for a number are not modelled. The same holds for the component number and the question count.
- Utils.ShuffleWith: its own contract states only the length. Permutation and mapping are stated by separate lemmas.
- Not part of this model:
  - `cn` in src/lib/utils.ts, a class-name merger over third-party libraries;
  - the Azure speech client;
  - the other API routes and the UI components.
