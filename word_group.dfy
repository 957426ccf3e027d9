/** Word-group synthesis: `synthesizeWord`, `wordAudioCache` and
    `synthesizeWordGroup` of src/lib/voice/client.ts, with the network part of
    `synthesizeAcademic` as a parameter. */
module WordGroup {
  import opened Bytes
  import opened Wrappers
  import opened Wav
  import opened Silence
  import opened FifoCache
  import opened Utf16

  /** `synthesizeAcademic` sends at most this many UTF-16 code units. */
  const TextLimit: nat := 600
  const DefaultPauseMs: nat := 750
  const DefaultTrim: TrimOptions := TrimOptions(None, None)

  /** The speech vendor behind `synthesizeAcademic`: the downloaded WAV for a voice
      and the code units of the text sent, or None when the request, the response
      or the download fails (the promise rejects). */
  type Vendor = (string, seq<CodeUnit>) -> Option<seq<byte>>

  /** `text.slice(0, 600)`: the first 600 code units of the text, which may end
      with the first half of a surrogate pair. */
  function Sent(text: string): (r: seq<CodeUnit>)
    ensures |r| == if |Encode(text)| <= TextLimit then |Encode(text)| else TextLimit
    ensures r == Encode(text)[..|r|]
  {
    var units := Encode(text);
    if |units| <= TextLimit then units else units[..TextLimit]
  }

  /** `synthesizeAcademic`: the vendor is sent the text cut to 600 code units. */
  function SynthesizeAcademic(vendor: Vendor, voiceId: string, text: string): Option<seq<byte>> {
    vendor(voiceId, Sent(text))
  }

  /** A text of at most 600 code units reaches the vendor whole. */
  lemma ShortTextSentWhole(vendor: Vendor, voiceId: string, text: string)
    requires |Encode(text)| <= TextLimit
    ensures SynthesizeAcademic(vendor, voiceId, text) == vendor(voiceId, Encode(text))
  {
  }

  /** Texts that agree on their first 600 code units get the same audio. */
  lemma SameFirst600SameAudio(vendor: Vendor, voiceId: string, a: string, b: string)
    requires |Encode(a)| >= TextLimit && |Encode(b)| >= TextLimit
    requires Encode(a)[..TextLimit] == Encode(b)[..TextLimit]
    ensures SynthesizeAcademic(vendor, voiceId, a) == SynthesizeAcademic(vendor, voiceId, b)
  {
    assert Sent(a) == Encode(a)[..TextLimit];
    assert Sent(b) == Encode(b)[..TextLimit];
  }

  /** Inside the Basic Multilingual Plane the limit is 600 characters: such a
      text of at most 600 characters is sent whole, one code unit per character. */
  lemma BmpTextSentWhole(text: string)
    requires |text| <= TextLimit && forall i :: 0 <= i < |text| ==> InBmp(text[i])
    ensures Sent(text) == Encode(text) && |Sent(text)| == |text|
    ensures forall i :: 0 <= i < |text| ==> Sent(text)[i] == text[i] as int
  {
    BmpEncode(text);
  }

  /** Characters outside the plane count twice: of 400 copies of U+20000 only
      the first 300 are sent. */
  lemma AstralTextCutAt300()
    ensures var text := seq(400, _ => '\U{20000}');
      Sent(text) == Encode(text[..300])
  {
    var text := seq(400, _ => '\U{20000}');
    assert text == text[..300] + text[300..];
    EncodeAppend(text[..300], text[300..]);
    AstralLength(text[..300]);
  }

  /** The cut can fall inside a surrogate pair: after 599 letters, U+20000 is sent
      as its high surrogate 0xD840 alone. */
  lemma CutSplitsSurrogatePair()
    ensures var letters := seq(599, _ => 'a');
      Sent(letters + ['\U{20000}']) == Encode(letters) + [0xD840]
  {
    var letters := seq(599, _ => 'a');
    EncodeAppend(letters, ['\U{20000}']);
    BmpEncode(letters);
    assert Encode(['\U{20000}']) == Units('\U{20000}') == [0xD840, 0xDC00];
  }

  /** The cache key `${voiceId}:${text}` used by both caches. */
  function CacheKey(voiceId: string, text: string): string {
    voiceId + ":" + text
  }

  /** For one voice, different texts get different keys. */
  lemma {:induction false} CacheKeySameVoice(voiceId: string, a: string, b: string)
    requires CacheKey(voiceId, a) == CacheKey(voiceId, b)
    ensures a == b
  {
    var n := |voiceId| + 1;
    assert a == CacheKey(voiceId, a)[n..];
    assert b == CacheKey(voiceId, b)[n..];
  }

  /** In a key whose voice has no colon, the first colon ends the voice. */
  lemma FirstColon(voiceId: string, text: string)
    requires ':' !in voiceId
    ensures CacheKey(voiceId, text)[|voiceId|] == ':'
    ensures forall m :: 0 <= m < |voiceId| ==> CacheKey(voiceId, text)[m] != ':'
  {
    forall m | 0 <= m < |voiceId|
      ensures CacheKey(voiceId, text)[m] != ':'
    {
      assert CacheKey(voiceId, text)[m] == voiceId[m];
    }
  }

  /** Voices without a colon never share a key. */
  lemma {:induction false} CacheKeyInjective(v1: string, t1: string, v2: string, t2: string)
    requires ':' !in v1 && ':' !in v2
    requires CacheKey(v1, t1) == CacheKey(v2, t2)
    ensures v1 == v2 && t1 == t2
  {
    var k := CacheKey(v1, t1);
    FirstColon(v1, t1);
    FirstColon(v2, t2);
    assert |v1| == |v2|;
    assert v1 == k[..|v1|] && v2 == CacheKey(v2, t2)[..|v2|];
    CacheKeySameVoice(v1, t1, t2);
  }

  /** A voice containing a colon can share a key with another voice. */
  lemma CacheKeyCollision()
    ensures CacheKey("a:b", "c") == CacheKey("a", "b:c")
  {
  }

  /** A container that parses and whose payload and format can be written back. */
  ghost predicate WellFormedWav(wav: seq<byte>) {
    Parse(wav).Success? && Encodable(|Parse(wav).value.pcm|, Parse(wav).value.format)
  }

  /** The vendor returns well-formed containers whenever it succeeds. */
  ghost predicate VendorWellFormed(vendor: Vendor) {
    forall v, t :: vendor(v, t).Some? ==> WellFormedWav(vendor(v, t).value)
  }

  /** Every buffer in the word cache is a well-formed container. */
  ghost predicate WordCacheWellFormed(c: CacheState) {
    forall k :: k in c.entries ==> WellFormedWav(c.entries[k])
  }

  lemma WrittenIsWellFormed(pcm: seq<byte>, f: Format)
    requires Encodable(|pcm|, f)
    ensures WellFormedWav(AddWavHeader(pcm, f))
    ensures Parse(AddWavHeader(pcm, f)).value == Decoded(pcm, f)
  {
    RoundTrip(pcm, f);
  }

  /** What `synthesizeWord` resolves to: the vendor's payload with its trailing
      silence trimmed (default threshold and margin), and its format. */
  function WordClip(vendor: Vendor, voiceId: string, word: string): (r: Option<Decoded>)
    requires VendorWellFormed(vendor)
    ensures r.Some? <==> SynthesizeAcademic(vendor, voiceId, word).Some?
    ensures r.Some? ==> Encodable(|r.value.pcm|, r.value.format)
    ensures r.Some? ==>
      var d := Parse(SynthesizeAcademic(vendor, voiceId, word).value).value;
      r.value.format == d.format && |r.value.pcm| <= |d.pcm| && r.value.pcm == d.pcm[..|r.value.pcm|] && |r.value.pcm| % 2 == 0
  {
    match SynthesizeAcademic(vendor, voiceId, word)
    case None => None
    case Some(wav) =>
      var d := Parse(wav).value;
      var trimmed := Trimmed(d.pcm, d.format.sampleRate, DefaultTrim);
      EncodableShorter(|d.pcm|, |trimmed|, d.format);
      Some(Decoded(trimmed, d.format))
  }

  /** `synthesizeWord`, running the parse and trim loops. */
  method SynthesizeWord(vendor: Vendor, voiceId: string, word: string) returns (r: Option<Decoded>)
    requires VendorWellFormed(vendor)
    ensures r == WordClip(vendor, voiceId, word)
  {
    var wav := SynthesizeAcademic(vendor, voiceId, word);
    if wav.None? {
      return None;
    }
    var parsed := ParseWavPcm(wav.value);
    var pcm := TrimTrailingSilence(parsed.value.pcm, parsed.value.format.sampleRate, DefaultTrim);
    r := Some(Decoded(pcm, parsed.value.format));
  }

  /** The container `synthesizeWordGroup` caches for a word it had to synthesise:
      the clip under a fresh header, or None when the synthesis fails. */
  function Rewrapped(vendor: Vendor, voiceId: string, word: string): (r: Option<seq<byte>>)
    requires VendorWellFormed(vendor)
    ensures r.Some? <==> SynthesizeAcademic(vendor, voiceId, word).Some?
    ensures r.Some? ==> WellFormedWav(r.value) && Parse(r.value) == Success(WordClip(vendor, voiceId, word).value)
  {
    match WordClip(vendor, voiceId, word)
    case None => None
    case Some(clip) =>
      WrittenIsWellFormed(clip.pcm, clip.format);
      Some(AddWavHeader(clip.pcm, clip.format))
  }

  /** The state of the per-word loop of `synthesizeWordGroup`: the cache, the
      buffers collected so far, the words sent to the vendor so far, and whether
      a synthesis failed (which aborts the group). */
  datatype Resolution = Resolution(cache: CacheState, buffers: seq<seq<byte>>, synthesized: seq<string>, failed: bool)

  ghost predicate Resumable(vendor: Vendor, acc: Resolution) {
    && VendorWellFormed(vendor)
    && !acc.failed
    && WellFormed(acc.cache)
    && WordCacheWellFormed(acc.cache)
    && forall j :: 0 <= j < |acc.buffers| ==> WellFormedWav(acc.buffers[j])
  }

  /** One turn of the loop for `word`. A cached key is used as is, with no call to
      the vendor and no change to the cache; a missing key calls the vendor once
      and stores the trimmed, re-wrapped audio under the key, or fails the group. */
  function Step(vendor: Vendor, voiceId: string, acc: Resolution, word: string): (r: Resolution)
    requires Resumable(vendor, acc)
    ensures WellFormed(r.cache) && WordCacheWellFormed(r.cache)
    ensures CacheKey(voiceId, word) in acc.cache.entries ==>
      r == acc.(buffers := acc.buffers + [acc.cache.entries[CacheKey(voiceId, word)]])
    ensures CacheKey(voiceId, word) !in acc.cache.entries ==>
      && r.synthesized == acc.synthesized + [word]
      && (r.failed <==> Rewrapped(vendor, voiceId, word).None?)
      && (r.failed ==> r.cache == acc.cache)
      && (!r.failed ==>
            var buf := Rewrapped(vendor, voiceId, word).value;
            r.buffers == acc.buffers + [buf] && r.cache == Stored(acc.cache, CacheKey(voiceId, word), buf))
    ensures !r.failed ==> Resumable(vendor, r)
  {
    var key := CacheKey(voiceId, word);
    if key in acc.cache.entries then
      BuffersStayWavs(acc.buffers, acc.cache.entries[key]);
      acc.(buffers := acc.buffers + [acc.cache.entries[key]])
    else
      match Rewrapped(vendor, voiceId, word)
      case None => acc.(synthesized := acc.synthesized + [word], failed := true)
      case Some(buf) =>
        StoredKeepsWavs(acc.cache, key, buf);
        BuffersStayWavs(acc.buffers, buf);
        Resolution(Stored(acc.cache, key, buf), acc.buffers + [buf], acc.synthesized + [word], false)
  }

  /** Appending a well-formed container keeps every buffer well formed. */
  lemma BuffersStayWavs(buffers: seq<seq<byte>>, buf: seq<byte>)
    requires WellFormedWav(buf) && forall j :: 0 <= j < |buffers| ==> WellFormedWav(buffers[j])
    ensures forall j :: 0 <= j < |buffers + [buf]| ==> WellFormedWav((buffers + [buf])[j])
  {
  }

  /** Storing a well-formed container keeps every cached value well formed. */
  lemma StoredKeepsWavs(c: CacheState, key: string, buf: seq<byte>)
    requires WellFormed(c) && WordCacheWellFormed(c) && WellFormedWav(buf)
    ensures WordCacheWellFormed(Stored(c, key, buf))
  {
  }

  /** The loop from word `i` on, stopping at the first failed synthesis. */
  function ResolveFrom(vendor: Vendor, voiceId: string, words: seq<string>, i: nat, acc: Resolution): (r: Resolution)
    requires i <= |words| && Resumable(vendor, acc)
    ensures WellFormed(r.cache) && WordCacheWellFormed(r.cache)
    ensures !r.failed ==> Resumable(vendor, r) && |r.buffers| == |acc.buffers| + |words| - i
    decreases |words| - i
  {
    if i == |words| then acc
    else
      var next := Step(vendor, voiceId, acc, words[i]);
      if next.failed then next else ResolveFrom(vendor, voiceId, words, i + 1, next)
  }

  function Resolve(vendor: Vendor, voiceId: string, words: seq<string>, c: CacheState): Resolution
    requires VendorWellFormed(vendor) && WellFormed(c) && WordCacheWellFormed(c)
  {
    ResolveFrom(vendor, voiceId, words, 0, Resolution(c, [], [], false))
  }

  /** When every word is cached, the vendor is never called and the cache is left
      as it was; each buffer is the cached one, in word order. */
  lemma {:induction false} AllCachedNoSynthesis(vendor: Vendor, voiceId: string, words: seq<string>, i: nat, acc: Resolution)
    requires i <= |words| && Resumable(vendor, acc)
    requires forall w :: w in words ==> CacheKey(voiceId, w) in acc.cache.entries
    ensures var r := ResolveFrom(vendor, voiceId, words, i, acc);
      && !r.failed && r.cache == acc.cache && r.synthesized == acc.synthesized
      && |r.buffers| == |acc.buffers| + |words| - i
      && r.buffers[..|acc.buffers|] == acc.buffers
      && forall j :: i <= j < |words| ==> r.buffers[|acc.buffers| + (j - i)] == acc.cache.entries[CacheKey(voiceId, words[j])]
    decreases |words| - i
  {
    if i < |words| {
      var key := CacheKey(voiceId, words[i]);
      assert words[i] in words;
      var next := Step(vendor, voiceId, acc, words[i]);
      assert next == acc.(buffers := acc.buffers + [acc.cache.entries[key]]);
      assert next.cache == acc.cache && |next.buffers| == |acc.buffers| + 1;
      AllCachedNoSynthesis(vendor, voiceId, words, i + 1, next);
      var r := ResolveFrom(vendor, voiceId, words, i + 1, next);
      assert r.buffers[..|next.buffers|] == next.buffers;
      assert r.buffers[..|acc.buffers|] == next.buffers[..|acc.buffers|];
      forall j | i <= j < |words|
        ensures r.buffers[|acc.buffers| + (j - i)] == acc.cache.entries[CacheKey(voiceId, words[j])]
      {
        if j == i {
          assert r.buffers[|acc.buffers|] == next.buffers[|acc.buffers|];
        } else {
          assert |next.buffers| + (j - (i + 1)) == |acc.buffers| + (j - i);
          assert r.buffers[|next.buffers| + (j - (i + 1))] == next.cache.entries[CacheKey(voiceId, words[j])];
        }
      }
    }
  }

  /** In the two-word group `[word, word]` the word is synthesised at most once:
      after its first turn its key is in the cache. */
  lemma RepeatedWordSynthesizedOnce(vendor: Vendor, voiceId: string, word: string, c: CacheState)
    requires VendorWellFormed(vendor) && WellFormed(c) && WordCacheWellFormed(c)
    ensures |Resolve(vendor, voiceId, [word, word], c).synthesized| <= 1
  {
    var words := [word, word];
    var acc := Resolution(c, [], [], false);
    var first := Step(vendor, voiceId, acc, word);
    if !first.failed {
      assert CacheKey(voiceId, word) in first.cache.entries;
      var second := Step(vendor, voiceId, first, word);
      assert second.synthesized == first.synthesized;
      assert ResolveFrom(vendor, voiceId, words, 1, first) == ResolveFrom(vendor, voiceId, words, 2, second);
    }
  }

  /** For one voice, different texts get different keys (stated without a
      precondition, for use on words known to differ). */
  lemma CacheKeyDistinct(voiceId: string, a: string, b: string)
    ensures CacheKey(voiceId, a) == CacheKey(voiceId, b) ==> a == b
  {
    if CacheKey(voiceId, a) == CacheKey(voiceId, b) {
      CacheKeySameVoice(voiceId, a, b);
    }
  }

  /** Resolving one more word continues from where the shorter group stopped. */
  lemma {:induction false} ResolveFromAppend(vendor: Vendor, voiceId: string, ws: seq<string>, w: string, i: nat, acc: Resolution)
    requires i <= |ws| && Resumable(vendor, acc)
    ensures var r := ResolveFrom(vendor, voiceId, ws, i, acc);
      ResolveFrom(vendor, voiceId, ws + [w], i, acc) == if r.failed then r else Step(vendor, voiceId, r, w)
    decreases |ws| - i
  {
    var all := ws + [w];
    if i == |ws| {
      assert all[i] == w;
    } else {
      assert all[i] == ws[i];
      var next := Step(vendor, voiceId, acc, ws[i]);
      if !next.failed {
        ResolveFromAppend(vendor, voiceId, ws, w, i + 1, next);
      }
    }
  }

  /** The group's first t words: the first t - 1, then turn t - 1 unless a
      synthesis already failed. */
  lemma ResolvePrefix(vendor: Vendor, voiceId: string, words: seq<string>, c: CacheState, t: nat)
    requires VendorWellFormed(vendor) && WellFormed(c) && WordCacheWellFormed(c) && 0 < t <= |words|
    ensures var r := Resolve(vendor, voiceId, words[..t - 1], c);
      Resolve(vendor, voiceId, words[..t], c) == if r.failed then r else Step(vendor, voiceId, r, words[t - 1])
  {
    assert words[..t] == words[..t - 1] + [words[t - 1]];
    ResolveFromAppend(vendor, voiceId, words[..t - 1], words[t - 1], 0, Resolution(c, [], [], false));
  }

  /** A turn that synthesises its word leaves that word's key the most recent. */
  lemma StepMissRecent(vendor: Vendor, voiceId: string, acc: Resolution, w: string)
    requires Resumable(vendor, acc) && CacheKey(voiceId, w) !in acc.cache.entries
    ensures var next := Step(vendor, voiceId, acc, w);
      !next.failed ==> Recent(next.cache, CacheKey(voiceId, w), 1)
  {
    var next := Step(vendor, voiceId, acc, w);
    if !next.failed {
      StoredIsRecent(acc.cache, CacheKey(voiceId, w), Rewrapped(vendor, voiceId, w).value);
    }
  }

  /** Any turn keeps a key among the m most recent within the m + 1 most recent. */
  lemma StepKeepsRecent(vendor: Vendor, voiceId: string, acc: Resolution, w: string, key: string, m: nat)
    requires Resumable(vendor, acc) && Recent(acc.cache, key, m) && m < MaxEntries
    ensures var next := Step(vendor, voiceId, acc, w);
      !next.failed ==> Recent(next.cache, key, m + 1)
  {
    var next := Step(vendor, voiceId, acc, w);
    if !next.failed {
      if CacheKey(voiceId, w) in acc.cache.entries {
        var p :| 0 <= p < |acc.cache.order| && acc.cache.order[p] == key && |acc.cache.order| - p <= m;
        assert next.cache.order[p] == key;
      } else {
        StoredKeepsRecent(acc.cache, CacheKey(voiceId, w), Rewrapped(vendor, voiceId, w).value, key, m);
      }
    }
  }

  /** The turn that synthesises a word leaves its key the most recent. */
  lemma MissLeavesRecent(vendor: Vendor, voiceId: string, words: seq<string>, c: CacheState, i: nat, t: nat)
    requires VendorWellFormed(vendor) && WellFormed(c) && WordCacheWellFormed(c)
    requires t == i + 1 && t <= |words|
    requires CacheKey(voiceId, words[i]) !in Resolve(vendor, voiceId, words[..i], c).cache.entries
    ensures var r := Resolve(vendor, voiceId, words[..t], c);
      r.failed || Recent(r.cache, CacheKey(voiceId, words[i]), t - i)
  {
    ResolvePrefix(vendor, voiceId, words, c, t);
    var prev := Resolve(vendor, voiceId, words[..i], c);
    assert words[..t - 1] == words[..i];
    if !prev.failed {
      StepMissRecent(vendor, voiceId, prev, words[i]);
    }
  }

  /** Turn t - 1 keeps the key of word i, when among the t - 1 - i most recent,
      within the t - i most recent. */
  lemma TurnKeepsRecent(vendor: Vendor, voiceId: string, words: seq<string>, c: CacheState, i: nat, t: nat)
    requires VendorWellFormed(vendor) && WellFormed(c) && WordCacheWellFormed(c)
    requires i + 1 < t <= |words| && t - i <= MaxEntries
    requires var prev := Resolve(vendor, voiceId, words[..t - 1], c);
      prev.failed || Recent(prev.cache, CacheKey(voiceId, words[i]), t - 1 - i)
    ensures var r := Resolve(vendor, voiceId, words[..t], c);
      r.failed || Recent(r.cache, CacheKey(voiceId, words[i]), t - i)
  {
    ResolvePrefix(vendor, voiceId, words, c, t);
    var prev := Resolve(vendor, voiceId, words[..t - 1], c);
    if !prev.failed {
      StepKeepsRecent(vendor, voiceId, prev, words[t - 1], CacheKey(voiceId, words[i]), t - 1 - i);
    }
  }

  /** After a word is synthesised at turn i, its key stays among the t - i most
      recent keys of the cache up to turn t, while t - i is at most the bound. */
  lemma {:induction false} SynthesizedStaysRecent(vendor: Vendor, voiceId: string, words: seq<string>, c: CacheState, i: nat, t: nat)
    requires VendorWellFormed(vendor) && WellFormed(c) && WordCacheWellFormed(c)
    requires i < t <= |words| && t - i <= MaxEntries
    requires CacheKey(voiceId, words[i]) !in Resolve(vendor, voiceId, words[..i], c).cache.entries
    ensures var r := Resolve(vendor, voiceId, words[..t], c);
      r.failed || Recent(r.cache, CacheKey(voiceId, words[i]), t - i)
    decreases t
  {
    if t == i + 1 {
      MissLeavesRecent(vendor, voiceId, words, c, i, t);
    } else {
      SynthesizedStaysRecent(vendor, voiceId, words, c, i, t - 1);
      TurnKeepsRecent(vendor, voiceId, words, c, i, t);
    }
  }

  /** Turn j sends nothing to the vendor and changes no cache entry when the
      key of its word is among the 500 most recent. */
  lemma TurnServedFromCache(vendor: Vendor, voiceId: string, words: seq<string>, c: CacheState, j: nat, m: nat)
    requires VendorWellFormed(vendor) && WellFormed(c) && WordCacheWellFormed(c) && j < |words|
    requires var prev := Resolve(vendor, voiceId, words[..j], c);
      prev.failed || Recent(prev.cache, CacheKey(voiceId, words[j]), m)
    ensures Resolve(vendor, voiceId, words[..j + 1], c).synthesized == Resolve(vendor, voiceId, words[..j], c).synthesized
    ensures Resolve(vendor, voiceId, words[..j + 1], c).cache == Resolve(vendor, voiceId, words[..j], c).cache
  {
    ResolvePrefix(vendor, voiceId, words, c, j + 1);
    assert words[..j + 1 - 1] == words[..j];
    var prev := Resolve(vendor, voiceId, words[..j], c);
    if !prev.failed {
      var p :| 0 <= p < |prev.cache.order| && prev.cache.order[p] == CacheKey(voiceId, words[j]) && |prev.cache.order| - p <= m;
      assert CacheKey(voiceId, words[j]) in prev.cache.order;
    }
  }

  /** A word synthesised at turn i is served from the cache when it comes again
      within the next 500 words: that turn calls no vendor and changes no cache
      entry, whatever other words come in between. */
  lemma RepeatWithinBoundServedFromCache(vendor: Vendor, voiceId: string, words: seq<string>, c: CacheState, i: nat, j: nat)
    requires VendorWellFormed(vendor) && WellFormed(c) && WordCacheWellFormed(c)
    requires i < j < |words| && words[i] == words[j] && j - i <= MaxEntries
    requires CacheKey(voiceId, words[i]) !in Resolve(vendor, voiceId, words[..i], c).cache.entries
    ensures Resolve(vendor, voiceId, words[..j + 1], c).synthesized == Resolve(vendor, voiceId, words[..j], c).synthesized
    ensures Resolve(vendor, voiceId, words[..j + 1], c).cache == Resolve(vendor, voiceId, words[..j], c).cache
  {
    SynthesizedStaysRecent(vendor, voiceId, words, c, i, j);
    TurnServedFromCache(vendor, voiceId, words, c, j, j - i);
  }

  /** The cache keys of a sequence of words, in order. */
  function Keys(voiceId: string, words: seq<string>): (r: seq<string>)
    ensures |r| == |words| && forall j :: 0 <= j < |words| ==> r[j] == CacheKey(voiceId, words[j])
  {
    seq(|words|, j requires 0 <= j < |words| => CacheKey(voiceId, words[j]))
  }

  /** A turn for a word whose key is not cached and that synthesises appends the
      word to the synthesised list and its key to the cache order. */
  lemma StepFresh(vendor: Vendor, voiceId: string, acc: Resolution, w: string)
    requires Resumable(vendor, acc) && CacheKey(voiceId, w) !in acc.cache.entries
    requires SynthesizeAcademic(vendor, voiceId, w).Some?
    ensures var next := Step(vendor, voiceId, acc, w);
      && !next.failed && next.synthesized == acc.synthesized + [w]
      && next.cache.order == Newest(acc.cache.order + [CacheKey(voiceId, w)])
  {
    StoredFresh(acc.cache, CacheKey(voiceId, w), Rewrapped(vendor, voiceId, w).value);
  }

  /** The key of a word differs from the keys of all other words of a sequence
      of distinct words. */
  lemma DistinctKeys(voiceId: string, words: seq<string>, t: nat)
    requires Distinct(words) && t < |words|
    ensures forall j :: 0 <= j < |words| && j != t ==> Keys(voiceId, words)[j] != CacheKey(voiceId, words[t])
  {
    forall j | 0 <= j < |words| && j != t ensures Keys(voiceId, words)[j] != CacheKey(voiceId, words[t]) {
      CacheKeyDistinct(voiceId, words[j], words[t]);
    }
  }

  /** None of the newest keys of the words before t is the key of word t. */
  lemma FreshKeyNotNewest(voiceId: string, words: seq<string>, t: nat)
    requires Distinct(words) && t < |words|
    ensures CacheKey(voiceId, words[t]) !in Newest(Keys(voiceId, words[..t]))
    ensures Keys(voiceId, words[..t + 1]) == Keys(voiceId, words[..t]) + [CacheKey(voiceId, words[t])]
  {
    DistinctKeys(voiceId, words, t);
    var before := Keys(voiceId, words[..t]);
    forall j | 0 <= j < t ensures before[j] != CacheKey(voiceId, words[t]) {
      assert before[j] == Keys(voiceId, words)[j];
    }
  }

  /** A cache whose order is the newest keys of the words before t does not
      hold the key of word t. */
  lemma FreshKeyNotCached(voiceId: string, words: seq<string>, t: nat, cache: CacheState)
    requires Distinct(words) && t < |words|
    requires Consistent(cache) && cache.order == Newest(Keys(voiceId, words[..t]))
    ensures CacheKey(voiceId, words[t]) !in cache.entries
  {
    FreshKeyNotNewest(voiceId, words, t);
  }

  /** A prefix one word longer is the prefix followed by that word. */
  lemma PrefixSnoc(words: seq<string>, t: nat)
    requires t < |words|
    ensures words[..t + 1] == words[..t] + [words[t]]
  {
  }

  /** The newest keys after one more distinct word. */
  lemma NextNewest(voiceId: string, words: seq<string>, t: nat)
    requires Distinct(words) && t < |words|
    ensures Newest(Newest(Keys(voiceId, words[..t])) + [CacheKey(voiceId, words[t])])
      == Newest(Keys(voiceId, words[..t + 1]))
  {
    FreshKeyNotNewest(voiceId, words, t);
    NewestAppend(Keys(voiceId, words[..t]), CacheKey(voiceId, words[t]));
  }

  /** One turn for a fresh word, on the loop state: the word is synthesised and
      its key joins the newest keys. */
  lemma FreshTurnState(vendor: Vendor, voiceId: string, words: seq<string>, t: nat, prev: Resolution)
    requires t < |words| && Distinct(words) && Resumable(vendor, prev)
    requires SynthesizeAcademic(vendor, voiceId, words[t]).Some?
    requires prev.synthesized == words[..t] && prev.cache.order == Newest(Keys(voiceId, words[..t]))
    ensures var r := Step(vendor, voiceId, prev, words[t]);
      !r.failed && r.synthesized == words[..t + 1] && r.cache.order == Newest(Keys(voiceId, words[..t + 1]))
  {
    FreshKeyNotCached(voiceId, words, t, prev.cache);
    StepFresh(vendor, voiceId, prev, words[t]);
    NextNewest(voiceId, words, t);
    PrefixSnoc(words, t);
  }

  /** One turn of `DistinctWordsAllSynthesized`. */
  lemma DistinctTurn(vendor: Vendor, voiceId: string, words: seq<string>, t: nat)
    requires VendorWellFormed(vendor) && 0 < t <= |words| && Distinct(words)
    requires SynthesizeAcademic(vendor, voiceId, words[t - 1]).Some?
    requires var prev := Resolve(vendor, voiceId, words[..t - 1], Empty);
      !prev.failed && prev.synthesized == words[..t - 1] && prev.cache.order == Newest(Keys(voiceId, words[..t - 1]))
    ensures var r := Resolve(vendor, voiceId, words[..t], Empty);
      !r.failed && r.synthesized == words[..t] && r.cache.order == Newest(Keys(voiceId, words[..t]))
  {
    ResolvePrefix(vendor, voiceId, words, Empty, t);
    assert words[..t - 1 + 1] == words[..t];
    FreshTurnState(vendor, voiceId, words, t - 1, Resolve(vendor, voiceId, words[..t - 1], Empty));
  }

  /** From an empty cache, distinct words that all synthesise are each
      synthesised, and the cache keeps the newest 500 of their keys. */
  lemma {:induction false} DistinctWordsAllSynthesized(vendor: Vendor, voiceId: string, words: seq<string>, t: nat)
    requires VendorWellFormed(vendor) && t <= |words| && Distinct(words)
    requires forall w :: w in words ==> SynthesizeAcademic(vendor, voiceId, w).Some?
    ensures var r := Resolve(vendor, voiceId, words[..t], Empty);
      !r.failed && r.synthesized == words[..t] && r.cache.order == Newest(Keys(voiceId, words[..t]))
    decreases t
  {
    if t == 0 {
      assert words[..0] == [];
    } else {
      DistinctWordsAllSynthesized(vendor, voiceId, words, t - 1);
      assert words[t - 1] in words;
      DistinctTurn(vendor, voiceId, words, t);
    }
  }

  /** The bound is tight: in a group of 502 words whose first 501 are distinct and
      whose last repeats the first, every turn synthesises, so the first word is
      sent to the vendor twice (storing the 501st word evicted it). */
  lemma RepeatAfterBoundResynthesized(vendor: Vendor, voiceId: string, words: seq<string>)
    requires VendorWellFormed(vendor)
    requires |words| == MaxEntries + 2 && words[0] == words[MaxEntries + 1]
    requires Distinct(words[..MaxEntries + 1])
    requires forall w :: w in words ==> SynthesizeAcademic(vendor, voiceId, w).Some?
    ensures Resolve(vendor, voiceId, words, Empty).synthesized == words
  {
    var n := MaxEntries + 1;
    var front := words[..n];
    forall w | w in front ensures SynthesizeAcademic(vendor, voiceId, w).Some? {
      assert w in words;
    }
    FirstEvicted(vendor, voiceId, front);
    assert words[n] in words;
    LastTurnSynthesizes(vendor, voiceId, words, n);
    assert words[..n + 1] == words;
  }

  /** The newest 500 keys of 501 distinct words leave out the first word's key. */
  lemma FirstKeyGone(voiceId: string, front: seq<string>, cache: CacheState)
    requires |front| == MaxEntries + 1 && Distinct(front)
    requires Consistent(cache) && cache.order == Newest(Keys(voiceId, front))
    ensures CacheKey(voiceId, front[0]) !in cache.entries
  {
    DistinctKeys(voiceId, front, 0);
    assert cache.order == Keys(voiceId, front)[1..];
    assert CacheKey(voiceId, front[0]) !in cache.order;
  }

  /** After the 501 distinct words, the first one's key has been evicted. */
  lemma FirstEvicted(vendor: Vendor, voiceId: string, front: seq<string>)
    requires VendorWellFormed(vendor)
    requires |front| == MaxEntries + 1 && Distinct(front)
    requires forall w :: w in front ==> SynthesizeAcademic(vendor, voiceId, w).Some?
    ensures var r := Resolve(vendor, voiceId, front, Empty);
      !r.failed && r.synthesized == front && CacheKey(voiceId, front[0]) !in r.cache.entries
  {
    DistinctWordsAllSynthesized(vendor, voiceId, front, |front|);
    assert front[..|front|] == front;
    FirstKeyGone(voiceId, front, Resolve(vendor, voiceId, front, Empty).cache);
  }

  /** The last turn of `RepeatAfterBoundResynthesized`. */
  lemma LastTurnSynthesizes(vendor: Vendor, voiceId: string, words: seq<string>, n: nat)
    requires VendorWellFormed(vendor) && n < |words|
    requires SynthesizeAcademic(vendor, voiceId, words[n]).Some?
    requires var r := Resolve(vendor, voiceId, words[..n], Empty);
      !r.failed && r.synthesized == words[..n] && CacheKey(voiceId, words[n]) !in r.cache.entries
    ensures Resolve(vendor, voiceId, words[..n + 1], Empty).synthesized == words[..n + 1]
  {
    ResolvePrefix(vendor, voiceId, words, Empty, n + 1);
    assert words[..n + 1 - 1] == words[..n];
    StepFresh(vendor, voiceId, Resolve(vendor, voiceId, words[..n], Empty), words[n]);
    PrefixSnoc(words, n);
  }

  /** Where a cached buffer came from: it was in the cache `c0` before the call,
      or it is the re-wrapped vendor audio for the word its key names. */
  ghost predicate Traceable(vendor: Vendor, voiceId: string, c0: CacheState, key: string, buf: seq<byte>)
    requires VendorWellFormed(vendor)
  {
    || (key in c0.entries && buf == c0.entries[key])
    || (|key| > |voiceId| && key[..|voiceId| + 1] == voiceId + ":" &&
        Rewrapped(vendor, voiceId, key[|voiceId| + 1..]) == Some(buf))
  }

  ghost predicate AllTraceable(vendor: Vendor, voiceId: string, c0: CacheState, words: seq<string>, acc: Resolution)
    requires VendorWellFormed(vendor)
  {
    && (forall k :: k in acc.cache.entries ==> Traceable(vendor, voiceId, c0, k, acc.cache.entries[k]))
    && |acc.buffers| <= |words|
    && (forall j :: 0 <= j < |acc.buffers| ==> Traceable(vendor, voiceId, c0, CacheKey(voiceId, words[j]), acc.buffers[j]))
  }

  lemma KeyWord(voiceId: string, w: string)
    ensures |CacheKey(voiceId, w)| > |voiceId|
    ensures CacheKey(voiceId, w)[..|voiceId| + 1] == voiceId + ":"
    ensures CacheKey(voiceId, w)[|voiceId| + 1..] == w
  {
  }

  /** After one turn, every cache entry is still traceable. */
  lemma StepCacheTraceable(vendor: Vendor, voiceId: string, c0: CacheState, words: seq<string>, i: nat, acc: Resolution)
    requires i < |words| && |acc.buffers| == i
    requires Resumable(vendor, acc) && AllTraceable(vendor, voiceId, c0, words, acc)
    ensures var r := Step(vendor, voiceId, acc, words[i]);
      !r.failed ==> forall k :: k in r.cache.entries ==> Traceable(vendor, voiceId, c0, k, r.cache.entries[k])
  {
    var r := Step(vendor, voiceId, acc, words[i]);
    var key := CacheKey(voiceId, words[i]);
    KeyWord(voiceId, words[i]);
    if !r.failed && key !in acc.cache.entries {
      forall k | k in r.cache.entries
        ensures Traceable(vendor, voiceId, c0, k, r.cache.entries[k])
      {
        if k != key {
          assert k in acc.cache.entries && r.cache.entries[k] == acc.cache.entries[k];
        }
      }
    }
  }

  /** Extending the buffers with one traceable buffer keeps them all traceable. */
  lemma ExtendTraceable(vendor: Vendor, voiceId: string, c0: CacheState, words: seq<string>,
                        before: seq<seq<byte>>, b: seq<byte>)
    requires VendorWellFormed(vendor) && |before| < |words|
    requires forall j :: 0 <= j < |before| ==> Traceable(vendor, voiceId, c0, CacheKey(voiceId, words[j]), before[j])
    requires Traceable(vendor, voiceId, c0, CacheKey(voiceId, words[|before|]), b)
    ensures forall j :: 0 <= j < |before + [b]| ==> Traceable(vendor, voiceId, c0, CacheKey(voiceId, words[j]), (before + [b])[j])
  {
    forall j | 0 <= j < |before + [b]|
      ensures Traceable(vendor, voiceId, c0, CacheKey(voiceId, words[j]), (before + [b])[j])
    {
      if j < |before| {
        assert (before + [b])[j] == before[j];
      }
    }
  }

  /** After one turn, the buffer added for the word is traceable to its key. */
  lemma StepBufferTraceable(vendor: Vendor, voiceId: string, c0: CacheState, words: seq<string>, i: nat, acc: Resolution)
    requires i < |words| && |acc.buffers| == i
    requires Resumable(vendor, acc) && AllTraceable(vendor, voiceId, c0, words, acc)
    ensures var r := Step(vendor, voiceId, acc, words[i]);
      !r.failed ==> (|r.buffers| == i + 1 && r.buffers == acc.buffers + [r.buffers[i]] &&
                     Traceable(vendor, voiceId, c0, CacheKey(voiceId, words[i]), r.buffers[i]))
  {
    var r := Step(vendor, voiceId, acc, words[i]);
    var key := CacheKey(voiceId, words[i]);
    KeyWord(voiceId, words[i]);
    if !r.failed && key in acc.cache.entries {
      assert r.buffers[i] == acc.cache.entries[key];
    }
  }

  lemma StepTraceable(vendor: Vendor, voiceId: string, c0: CacheState, words: seq<string>, i: nat, acc: Resolution)
    requires i < |words| && |acc.buffers| == i
    requires Resumable(vendor, acc) && AllTraceable(vendor, voiceId, c0, words, acc)
    ensures var r := Step(vendor, voiceId, acc, words[i]);
      !r.failed ==> AllTraceable(vendor, voiceId, c0, words, r)
  {
    var r := Step(vendor, voiceId, acc, words[i]);
    StepCacheTraceable(vendor, voiceId, c0, words, i, acc);
    StepBufferTraceable(vendor, voiceId, c0, words, i, acc);
    if !r.failed {
      ExtendTraceable(vendor, voiceId, c0, words, acc.buffers, r.buffers[i]);
    }
  }

  lemma {:induction false} ResolvedBuffersTraceable(vendor: Vendor, voiceId: string, c0: CacheState, words: seq<string>, i: nat, acc: Resolution)
    requires i <= |words| && |acc.buffers| == i
    requires Resumable(vendor, acc) && AllTraceable(vendor, voiceId, c0, words, acc)
    ensures var r := ResolveFrom(vendor, voiceId, words, i, acc);
      !r.failed ==> AllTraceable(vendor, voiceId, c0, words, r)
    decreases |words| - i
  {
    if i < |words| {
      var next := Step(vendor, voiceId, acc, words[i]);
      StepTraceable(vendor, voiceId, c0, words, i, acc);
      if !next.failed {
        ResolvedBuffersTraceable(vendor, voiceId, c0, words, i + 1, next);
      }
    }
  }

  /** Every buffer the loop collects for a word is either what the cache held for
      that word before the call, or the vendor's audio for that word, trimmed and
      re-wrapped. */
  lemma ResolvedBuffersOrigin(vendor: Vendor, voiceId: string, c0: CacheState, words: seq<string>)
    requires VendorWellFormed(vendor) && WellFormed(c0) && WordCacheWellFormed(c0)
    ensures var r := Resolve(vendor, voiceId, words, c0);
      !r.failed ==>
        && |r.buffers| == |words|
        && forall j :: 0 <= j < |words| ==>
             var key := CacheKey(voiceId, words[j]);
             (key in c0.entries && r.buffers[j] == c0.entries[key]) || Rewrapped(vendor, voiceId, words[j]) == Some(r.buffers[j])
  {
    var r := Resolve(vendor, voiceId, words, c0);
    ResolvedBuffersTraceable(vendor, voiceId, c0, words, 0, Resolution(c0, [], [], false));
    if !r.failed {
      forall j | 0 <= j < |words|
        ensures var key := CacheKey(voiceId, words[j]);
          (key in c0.entries && r.buffers[j] == c0.entries[key]) || Rewrapped(vendor, voiceId, words[j]) == Some(r.buffers[j])
      {
        KeyWord(voiceId, words[j]);
      }
    }
  }

  /** `word1 + silence + word2 + ... + wordN`, with no pause after the last word. */
  function Interleave(pcms: seq<seq<byte>>, gap: seq<byte>): seq<byte>
    decreases |pcms|
  {
    if |pcms| == 0 then []
    else if |pcms| == 1 then pcms[0]
    else Interleave(pcms[..|pcms| - 1], gap) + gap + pcms[|pcms| - 1]
  }

  function SumLengths(pcms: seq<seq<byte>>): nat
    decreases |pcms|
  {
    if |pcms| == 0 then 0 else SumLengths(pcms[..|pcms| - 1]) + |pcms[|pcms| - 1]|
  }

  /** The payload length is the words' lengths plus one pause per gap. */
  lemma {:induction false} InterleaveLength(pcms: seq<seq<byte>>, gap: seq<byte>)
    requires |pcms| >= 1
    ensures |Interleave(pcms, gap)| == SumLengths(pcms) + (|pcms| - 1) * |gap|
    decreases |pcms|
  {
    if |pcms| > 1 {
      var n := |pcms|;
      var front := pcms[..n - 1];
      InterleaveLength(front, gap);
      assert |Interleave(pcms, gap)| == |Interleave(front, gap)| + |gap| + |pcms[n - 1]|;
      assert SumLengths(pcms) == SumLengths(front) + |pcms[n - 1]|;
      assert (n - 1) * |gap| == (n - 2) * |gap| + |gap|;
    }
  }

  /** The payload starts with the first word followed by the pause and the rest. */
  lemma {:induction false} InterleaveFront(first: seq<byte>, rest: seq<seq<byte>>, gap: seq<byte>)
    requires |rest| >= 1
    ensures Interleave([first] + rest, gap) == first + gap + Interleave(rest, gap)
    decreases |rest|
  {
    var all := [first] + rest;
    if |rest| == 1 {
      assert all[..1] == [first];
    } else {
      var front := rest[..|rest| - 1];
      assert all[..|all| - 1] == [first] + front;
      InterleaveFront(first, front, gap);
    }
  }

  /** The `forEach` that pushes each word and, except after the last, the silence,
      followed by `Buffer.concat(parts)`. */
  method ConcatWithPauses(pcms: seq<seq<byte>>, silence: seq<byte>) returns (joined: seq<byte>)
    ensures joined == Interleave(pcms, silence)
  {
    joined := [];
    var i := 0;
    while i < |pcms|
      invariant 0 <= i <= |pcms|
      invariant joined == if i == 0 then [] else Interleave(pcms[..i], silence) + (if i < |pcms| then silence else [])
    {
      assert pcms[..i + 1][..i] == pcms[..i];
      joined := joined + pcms[i];
      if i < |pcms| - 1 {
        joined := joined + silence;
      }
      i := i + 1;
    }
    assert pcms[..|pcms|] == pcms;
  }

  datatype GroupError =
    | SynthesisFailed   // a word's synthesis rejected
    | EmptyGroup        // `parsed[0]` is undefined and its destructuring throws
    | HeaderOutOfRange  // the final header's size field does not fit 32 bits

  ghost predicate AllWellFormed(buffers: seq<seq<byte>>) {
    forall j :: 0 <= j < |buffers| ==> WellFormedWav(buffers[j])
  }

  /** The payloads of well-formed containers, in order. */
  function PcmsOf(buffers: seq<seq<byte>>): (r: seq<seq<byte>>)
    requires AllWellFormed(buffers)
    ensures |r| == |buffers|
    ensures forall j :: 0 <= j < |buffers| ==> Parse(buffers[j]).Success? && r[j] == Parse(buffers[j]).value.pcm
    decreases |buffers|
  {
    if buffers == [] then []
    else
      var last := buffers[|buffers| - 1];
      assert WellFormedWav(last);
      PcmsOf(buffers[..|buffers| - 1]) + [Parse(last).value.pcm]
  }

  /** The part of `synthesizeWordGroup` after the loop: the payloads joined with
      silence of the pause length in the first word's format, under one header.
      The result reads back as exactly that payload and format. */
  function Assembled(buffers: seq<seq<byte>>, pauseMs: nat): (r: Result<seq<byte>, GroupError>)
    requires AllWellFormed(buffers)
    ensures buffers == [] <==> r == Failure(EmptyGroup)
    ensures buffers != [] ==>
      WellFormedWav(buffers[0]) &&
      var fmt := Parse(buffers[0]).value.format;
      var joined := Interleave(PcmsOf(buffers), GenerateSilence(pauseMs, fmt));
      && (r == Failure(HeaderOutOfRange) <==> |joined| + HeaderSize - 8 >= TwoTo32)
      && (r.Success? ==> Parse(r.value) == Success(Decoded(joined, fmt)))
  {
    if buffers == [] then Failure(EmptyGroup)
    else
      assert WellFormedWav(buffers[0]);
      var fmt := Parse(buffers[0]).value.format;
      var joined := Interleave(PcmsOf(buffers), GenerateSilence(pauseMs, fmt));
      if |joined| + HeaderSize - 8 < TwoTo32 then
        RoundTrip(joined, fmt);
        Success(AddWavHeader(joined, fmt))
      else Failure(HeaderOutOfRange)
  }

  /** One turn of the per-word loop of `synthesizeWordGroup`. */
  method ResolveWord(cache: Cache, vendor: Vendor, voiceId: string, word: string, buffers: seq<seq<byte>>, synthesized: seq<string>)
    returns (buffers': seq<seq<byte>>, synthesized': seq<string>, failed: bool)
    requires cache.Valid() && Resumable(vendor, Resolution(cache.State(), buffers, synthesized, false))
    modifies cache
    ensures Resolution(cache.State(), buffers', synthesized', failed)
         == Step(vendor, voiceId, Resolution(old(cache.State()), buffers, synthesized, false), word)
    ensures cache.Valid()
  {
    var cacheKey := CacheKey(voiceId, word);
    var buf := cache.Get(cacheKey);
    buffers', synthesized', failed := buffers, synthesized, false;
    if buf.None? {
      var result := SynthesizeWord(vendor, voiceId, word);
      synthesized' := synthesized + [word];
      if result.None? {
        failed := true;
        return;
      }
      var wav := AddWavHeader(result.value.pcm, result.value.format);
      cache.Store(cacheKey, wav);
      buf := Some(wav);
    }
    buffers' := buffers + [buf.value];
  }

  /** The parse loop and the concatenation after the per-word loop. */
  method AssembleGroup(wordBuffers: seq<seq<byte>>, pauseMs: nat) returns (r: Result<seq<byte>, GroupError>)
    requires AllWellFormed(wordBuffers)
    ensures r == Assembled(wordBuffers, pauseMs)
  {
    var parsed := ParseAll(wordBuffers);
    if |parsed| == 0 {
      return Failure(EmptyGroup);
    }
    var format := parsed[0].format;
    var silence := GenerateSilence(pauseMs, format);
    var pcms := seq(|parsed|, k requires 0 <= k < |parsed| => parsed[k].pcm);
    assert pcms == PcmsOf(wordBuffers);
    var joined := ConcatWithPauses(pcms, silence);
    if |joined| + HeaderSize - 8 >= TwoTo32 {
      return Failure(HeaderOutOfRange);
    }
    r := Success(AddWavHeader(joined, format));
  }

  /** `wordBuffers.map(parseWavPcm)`. */
  method ParseAll(wordBuffers: seq<seq<byte>>) returns (parsed: seq<Decoded>)
    requires AllWellFormed(wordBuffers)
    ensures |parsed| == |wordBuffers|
    ensures forall m :: 0 <= m < |wordBuffers| ==> Parse(wordBuffers[m]) == Success(parsed[m])
  {
    parsed := [];
    var j := 0;
    while j < |wordBuffers|
      invariant 0 <= j <= |wordBuffers| && |parsed| == j
      invariant forall m :: 0 <= m < j ==> Parse(wordBuffers[m]) == Success(parsed[m])
    {
      var p := ParseWavPcm(wordBuffers[j]);
      assert WellFormedWav(wordBuffers[j]);
      parsed := parsed + [p.value];
      j := j + 1;
    }
  }



  /** `synthesizeWordGroup(voiceId, words, pauseMs)` against the shared word cache. */
  method SynthesizeWordGroup(cache: Cache, vendor: Vendor, voiceId: string, words: seq<string>, pauseMs: Option<nat>)
    returns (r: Result<seq<byte>, GroupError>, synthesized: seq<string>)
    requires cache.Valid() && WordCacheWellFormed(cache.State()) && VendorWellFormed(vendor)
    modifies cache
    ensures cache.Valid() && WordCacheWellFormed(cache.State())
    ensures var res := Resolve(vendor, voiceId, words, old(cache.State()));
      && cache.State() == res.cache
      && synthesized == res.synthesized
      && r == if res.failed then Failure(SynthesisFailed) else Assembled(res.buffers, pauseMs.GetOr(DefaultPauseMs))
  {
    var wordBuffers: seq<seq<byte>> := [];
    synthesized := [];
    var i := 0;
    while i < |words|
      invariant 0 <= i <= |words|
      invariant cache.Valid()
      invariant Resumable(vendor, Resolution(cache.State(), wordBuffers, synthesized, false))
      invariant ResolveFrom(vendor, voiceId, words, i, Resolution(cache.State(), wordBuffers, synthesized, false))
             == Resolve(vendor, voiceId, words, old(cache.State()))
    {
      var failed;
      wordBuffers, synthesized, failed := ResolveWord(cache, vendor, voiceId, words[i], wordBuffers, synthesized);
      if failed {
        r := Failure(SynthesisFailed);
        return;
      }
      i := i + 1;
    }
    r := AssembleGroup(wordBuffers, pauseMs.GetOr(DefaultPauseMs));
  }

}
