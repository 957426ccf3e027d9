/** JavaScript strings as UTF-16 code units. A Dafny `string` is a sequence of
    Unicode scalar values; `Encode` gives the code units a JavaScript string
    holding the same text is made of, which is what `length` and `slice` count. */
module Utf16 {

  /** One UTF-16 code unit. */
  type CodeUnit = x: int | 0 <= x < 0x1_0000

  /** A character of the Basic Multilingual Plane takes one code unit. */
  predicate InBmp(c: char) {
    c as int < 0x1_0000
  }

  /** The code units of one character: the character itself inside the Basic
      Multilingual Plane, a high and a low surrogate above it. */
  function Units(c: char): (r: seq<CodeUnit>)
    ensures |r| == if InBmp(c) then 1 else 2
    ensures InBmp(c) ==> r[0] == c as int
    ensures !InBmp(c) ==> 0xD800 <= r[0] < 0xDC00 && 0xDC00 <= r[1] < 0xE000
    ensures !InBmp(c) ==> c as int == 0x1_0000 + (r[0] as int - 0xD800) * 0x400 + (r[1] as int - 0xDC00)
  {
    if InBmp(c) then [c as int]
    else
      var v := c as int - 0x1_0000;
      [0xD800 + v / 0x400, 0xDC00 + v % 0x400]
  }

  /** The code units of a whole text, character by character. */
  function Encode(s: string): seq<CodeUnit>
    decreases |s|
  {
    if s == [] then [] else Units(s[0]) + Encode(s[1..])
  }

  /** Encoding a concatenation encodes the parts one after the other. */
  lemma {:induction false} EncodeAppend(a: string, b: string)
    ensures Encode(a + b) == Encode(a) + Encode(b)
    decreases |a|
  {
    if a == [] {
      assert a + b == b;
    } else {
      assert (a + b)[0] == a[0] && (a + b)[1..] == a[1..] + b;
      EncodeAppend(a[1..], b);
    }
  }

  /** Inside the Basic Multilingual Plane a text has one code unit per character,
      and the code units are the characters. */
  lemma {:induction false} BmpEncode(s: string)
    requires forall i :: 0 <= i < |s| ==> InBmp(s[i])
    ensures |Encode(s)| == |s|
    ensures forall i :: 0 <= i < |s| ==> Encode(s)[i] == s[i] as int
    decreases |s|
  {
    if s != [] {
      BmpEncode(s[1..]);
      forall i | 0 <= i < |s| ensures Encode(s)[i] == s[i] as int {
        if i > 0 {
          assert Encode(s)[i] == Encode(s[1..])[i - 1];
          assert s[1..][i - 1] == s[i];
        }
      }
    }
  }

  /** Outside it every character takes two code units. */
  lemma {:induction false} AstralLength(s: string)
    requires forall i :: 0 <= i < |s| ==> !InBmp(s[i])
    ensures |Encode(s)| == 2 * |s|
    decreases |s|
  {
    if s != [] {
      assert forall i :: 0 <= i < |s| - 1 ==> s[1..][i] == s[i + 1];
      AstralLength(s[1..]);
    }
  }
}
