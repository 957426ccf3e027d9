/** Bytes of a Node.js `Buffer` and the little-endian accessors the WAV code uses. */
module Bytes {

  type byte = x: int | 0 <= x < 256

  const TwoTo16: nat := 0x1_0000
  const TwoTo32: nat := 0x1_0000_0000

  /** `writeUInt16LE`: the two bytes of `v`, least significant first. */
  function Le16(v: nat): (r: seq<byte>)
    requires v < TwoTo16
    ensures |r| == 2 && r[0] as int + 256 * r[1] as int == v
  {
    [v % 256, v / 256]
  }

  /** `writeUInt32LE`: the four bytes of `v`, least significant first. */
  function Le32(v: nat): (r: seq<byte>)
    requires v < TwoTo32
    ensures |r| == 4 && r[0] as int + 256 * (r[1] as int + 256 * (r[2] as int + 256 * r[3] as int)) == v
  {
    Le16(v % TwoTo16) + Le16(v / TwoTo16)
  }

  /** `readUInt16LE(off)`; the caller has checked that both bytes exist. */
  function U16At(s: seq<byte>, off: nat): nat
    requires off + 2 <= |s|
  {
    s[off] as int + 256 * s[off + 1] as int
  }

  /** `readUInt32LE(off)`; the caller has checked that all four bytes exist. */
  function U32At(s: seq<byte>, off: nat): nat
    requires off + 4 <= |s|
  {
    U16At(s, off) + TwoTo16 * U16At(s, off + 2)
  }

  /** `readInt16LE(off)`: the two bytes read as a two's-complement value. */
  function I16At(s: seq<byte>, off: nat): (r: int)
    requires off + 2 <= |s|
    ensures -0x8000 <= r < 0x8000
    ensures r >= 0 <==> s[off + 1] < 128
    ensures (U16At(s, off) - r) % TwoTo16 == 0
  {
    var u := U16At(s, off);
    if u < 0x8000 then u else u - TwoTo16
  }

  function Abs(x: int): nat {
    if x < 0 then -x else x
  }

  lemma U16AtLe16(v: nat, pre: seq<byte>, post: seq<byte>)
    requires v < TwoTo16
    ensures U16At(pre + Le16(v) + post, |pre|) == v
  {
    var s := pre + Le16(v) + post;
    assert s[|pre|] == Le16(v)[0] && s[|pre| + 1] == Le16(v)[1];
  }

  lemma U32AtLe32(v: nat, pre: seq<byte>, post: seq<byte>)
    requires v < TwoTo32
    ensures U32At(pre + Le32(v) + post, |pre|) == v
  {
    var lo, hi := Le16(v % TwoTo16), Le16(v / TwoTo16);
    assert pre + Le32(v) + post == pre + lo + (hi + post);
    assert pre + Le32(v) + post == (pre + lo) + hi + post;
    U16AtLe16(v % TwoTo16, pre, hi + post);
    U16AtLe16(v / TwoTo16, pre + lo, post);
  }

  /** The bytes of an ASCII string, as `Buffer.write(str, off)` stores them. */
  function Ascii(s: string): (r: seq<byte>)
    requires forall i :: 0 <= i < |s| ==> s[i] as int < 128
    ensures |r| == |s| && forall i :: 0 <= i < |s| ==> r[i] == s[i] as int
  {
    seq(|s|, i requires 0 <= i < |s| => s[i] as int)
  }

  /** Decoding with `toString("ascii")` clears the high bit of each byte. */
  predicate AsciiMatches(s: seq<byte>, off: nat, text: string)
    requires off + |text| <= |s|
  {
    forall i :: 0 <= i < |text| ==> s[off + i] % 128 == text[i] as int
  }
}
