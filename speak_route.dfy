/** The POST handler of src/app/api/tts/speak/route.ts and its module-level
    `audioCache`. */
module SpeakRoute {
  import opened Wrappers
  import opened Bytes
  import opened FifoCache
  import opened WordGroup

  /** The parsed JSON body: the two string fields it may carry. */
  datatype SpeakBody = SpeakBody(voiceId: Option<string>, text: Option<string>)

  /** A JSON error with its status, or the WAV audio (status 200). */
  datatype Response = Json(status: nat, error: string) | Audio(wav: seq<byte>)

  const Unauthorized: Response := Json(401, "Unauthorized")
  const MissingFields: Response := Json(400, "Missing voiceId or text")
  const TtsFailed: Response := Json(500, "TTS failed")

  /** A present, non-empty string; `!value` holds for everything else. */
  predicate Truthy(v: Option<string>) {
    v.Some? && v.value != ""
  }

  /** What one request does: the response, the cache after it, and whether the
      vendor was called. */
  datatype Handled = Handled(response: Response, cache: CacheState, synthesized: bool)

  /** The handler on a request: `authenticated` is whether the session has a user,
      `body` is None when the body is not valid JSON or is JSON `null`, whose
      destructuring throws inside the `try` (status 500). */
  function Handle(c: CacheState, authenticated: bool, body: Option<SpeakBody>, vendor: Vendor): (h: Handled)
    requires WellFormed(c)
    ensures WellFormed(h.cache)
    ensures !authenticated ==> h == Handled(Unauthorized, c, false)
    ensures authenticated && body.None? ==> h == Handled(TtsFailed, c, false)
    ensures authenticated && body.Some? && !(Truthy(body.value.voiceId) && Truthy(body.value.text)) ==>
      h == Handled(MissingFields, c, false)
    ensures authenticated && body.Some? && Truthy(body.value.voiceId) && Truthy(body.value.text) ==>
      var key := CacheKey(body.value.voiceId.value, body.value.text.value);
      var synth := SynthesizeAcademic(vendor, body.value.voiceId.value, body.value.text.value);
      && (key in c.entries ==> h == Handled(Audio(c.entries[key]), c, false))
      && (key !in c.entries && synth.None? ==> h == Handled(TtsFailed, c, true))
      && (key !in c.entries && synth.Some? ==> h == Handled(Audio(synth.value), Stored(c, key, synth.value), true))
    ensures h.response.Audio? ==> h.response.wav in h.cache.entries.Values
  {
    if !authenticated then Handled(Unauthorized, c, false)
    else if body.None? then Handled(TtsFailed, c, false)
    else if !Truthy(body.value.voiceId) || !Truthy(body.value.text) then Handled(MissingFields, c, false)
    else
      var voiceId := body.value.voiceId.value;
      var text := body.value.text.value;
      var key := CacheKey(voiceId, text);
      if key in c.entries then Handled(Audio(c.entries[key]), c, false)
      else
        match SynthesizeAcademic(vendor, voiceId, text)
        case None => Handled(TtsFailed, c, true)
        case Some(wav) =>
          var stored := Stored(c, key, wav);
          assert stored.entries[key] == wav;
          Handled(Audio(wav), stored, true)
  }

  /** Once a request has been answered with audio, the same request is answered
      with the same audio from the cache, without calling the vendor, whatever it
      would now return. */
  lemma RepeatServedFromCache(c: CacheState, body: SpeakBody, vendor: Vendor, later: Vendor)
    requires WellFormed(c)
    requires Handle(c, true, Some(body), vendor).response.Audio?
    ensures var h := Handle(c, true, Some(body), vendor);
      Handle(h.cache, true, Some(body), later) == Handled(h.response, h.cache, false)
  {
  }

  /** Only a successful synthesis changes the cache. */
  lemma CacheChangesOnlyOnSynthesis(c: CacheState, authenticated: bool, body: Option<SpeakBody>, vendor: Vendor)
    requires WellFormed(c)
    ensures var h := Handle(c, authenticated, body, vendor);
      h.cache != c ==> h.synthesized && h.response.Audio?
  {
  }

  /** `POST(request)` against the route's cache. */
  method Post(cache: Cache, authenticated: bool, body: Option<SpeakBody>, vendor: Vendor)
    returns (response: Response, synthesized: bool)
    requires cache.Valid()
    modifies cache
    ensures cache.Valid()
    ensures Handled(response, cache.State(), synthesized) == Handle(old(cache.State()), authenticated, body, vendor)
  {
    synthesized := false;
    if !authenticated {
      return Unauthorized, false;
    }
    if body.None? {
      return TtsFailed, false;
    }
    var voiceId := body.value.voiceId;
    var text := body.value.text;
    if !Truthy(voiceId) || !Truthy(text) {
      return MissingFields, false;
    }
    var cacheKey := CacheKey(voiceId.value, text.value);
    var audioBuffer := cache.Get(cacheKey);
    if audioBuffer.None? {
      synthesized := true;
      var wav := SynthesizeAcademic(vendor, voiceId.value, text.value);
      if wav.None? {
        return TtsFailed, true;
      }
      cache.Store(cacheKey, wav.value);
      audioBuffer := wav;
    }
    response := Audio(audioBuffer.value);
  }
}
