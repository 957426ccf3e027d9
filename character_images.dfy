/** src/lib/character-images.ts: the local fallback portraits. */
module CharacterImages {

  /** `CHARACTER_IMAGES`: the characters with a bundled portrait. */
  const CharacterImages: map<string, string> := map["Kaede" := "/img/character/Kaede/pcs1.png"]

  /** The expression images to show: the database's own when there are any;
      otherwise the bundled portrait as the neutral expression, when the
      character has one; otherwise the (empty) images unchanged. */
  function GetCharacterImageFallback(characterName: string, expressions: map<string, string>): (r: map<string, string>)
    ensures |expressions| > 0 ==> r == expressions
    ensures |expressions| == 0 && characterName in CharacterImages ==>
      r == map["neutral" := CharacterImages[characterName]]
    ensures |expressions| == 0 && characterName !in CharacterImages ==> r == expressions
  {
    if |expressions| > 0 then expressions
    else if characterName !in CharacterImages || CharacterImages[characterName] == "" then expressions
    else map["neutral" := CharacterImages[characterName]]
  }

  /** A character with a bundled portrait always ends up with at least one image,
      and every image shown is either one of its own or that portrait. */
  lemma FallbackNeverEmpty(characterName: string, expressions: map<string, string>)
    requires characterName in CharacterImages
    ensures |GetCharacterImageFallback(characterName, expressions)| > 0
  {
    var r := GetCharacterImageFallback(characterName, expressions);
    if |expressions| == 0 {
      assert "neutral" in r;
    }
  }

  /** The result is empty exactly when the character has no images and no
      bundled portrait. */
  lemma FallbackEmptyExactly(characterName: string, expressions: map<string, string>)
    ensures |GetCharacterImageFallback(characterName, expressions)| == 0 <==>
      |expressions| == 0 && characterName !in CharacterImages
  {
    if characterName in CharacterImages {
      FallbackNeverEmpty(characterName, expressions);
    }
  }

  lemma FallbackImagesFromSources(characterName: string, expressions: map<string, string>)
    ensures forall e :: e in GetCharacterImageFallback(characterName, expressions) ==>
      (e in expressions && GetCharacterImageFallback(characterName, expressions)[e] == expressions[e]) ||
      (e == "neutral" && characterName in CharacterImages &&
       GetCharacterImageFallback(characterName, expressions)[e] == CharacterImages[characterName])
  {
  }

  /** Applying the fallback twice changes nothing more. */
  lemma FallbackIdempotent(characterName: string, expressions: map<string, string>)
    ensures var once := GetCharacterImageFallback(characterName, expressions);
      GetCharacterImageFallback(characterName, once) == once
  {
    var once := GetCharacterImageFallback(characterName, expressions);
    if |expressions| == 0 && characterName in CharacterImages {
      assert "neutral" in once;
    }
  }

  /** Kaede's portrait is the bundled one. */
  lemma KaedeFallback()
    ensures GetCharacterImageFallback("Kaede", map[]) == map["neutral" := "/img/character/Kaede/pcs1.png"]
  {
  }
}
