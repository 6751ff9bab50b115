// UTF-8 decoding as the regex engine performs it (utf8.h, regex_engine.h).

module Utf8 {

  type Byte = b: int | 0 <= b < 256
  type Rune = nat

  /** The replacement rune the decoder reports for a malformed sequence. */
  const BAD: Rune := 0xFFFD

  /** One decoded rune and the number of bytes it came from. */
  datatype Decoded = Decoded(rune: Rune, width: nat)

  predicate IsDigit(r: Rune) { '0' as int <= r <= '9' as int }

  predicate IsContinuation(b: Byte) { 128 <= b < 192 }

  /** Appends the six payload bits of a continuation byte. */
  function Extend(acc: nat, b: Byte): (r: nat)
    ensures acc * 64 <= r < acc * 64 + 64
  {
    acc * 64 + (b as int) % 64
  }

  /** The rune that starts at byte `pos` of `s`, with the number of bytes consumed. */
  function DecodeRune(s: seq<Byte>, pos: nat): (d: Decoded)
    requires pos < |s|
    ensures 1 <= d.width <= |s| - pos
    ensures d.rune < 0x20_0000
    ensures d.width == 1 ==> d.rune == s[pos] < 128 || (s[pos] >= 128 && d.rune == BAD)
    ensures d.width > 1 ==> s[pos + d.width - 1] >= 128
  {
    var c0 := s[pos] as int;
    var size := |s| - pos;
    if c0 < 128 then
      Decoded(c0, 1)
    else if 192 <= c0 < 224 && size >= 2 then
      if IsContinuation(s[pos + 1]) then
        Decoded(Extend(c0 % 32, s[pos + 1]), 2)
      else
        Decoded(BAD, 1)
    else if 224 <= c0 < 240 && size >= 3 then
      if IsContinuation(s[pos + 1]) && IsContinuation(s[pos + 2]) then
        Decoded(Extend(Extend(c0 % 16, s[pos + 1]), s[pos + 2]), 3)
      else
        Decoded(BAD, 1)
    else if 240 <= c0 < 248 && size >= 4 then
      if IsContinuation(s[pos + 1]) && IsContinuation(s[pos + 2]) && IsContinuation(s[pos + 3]) then
        Decoded(Extend(Extend(Extend(c0 % 8, s[pos + 1]), s[pos + 2]), s[pos + 3]), 4)
      else
        Decoded(BAD, 1)
    else
      Decoded(BAD, 1)
  }

  /** The runes of `s` from byte `pos` on, decoded front to back. */
  ghost function Runes(s: seq<Byte>, pos: nat): (rs: seq<Rune>)
    requires pos <= |s|
    ensures |rs| == 0 <==> pos == |s|
    decreases |s| - pos
  {
    if pos == |s| then []
    else var d := DecodeRune(s, pos); [d.rune] + Runes(s, pos + d.width)
  }

  /** Where the `k`-th rune counted from byte `pos` starts; the end of `s` after the last. */
  ghost function Offset(s: seq<Byte>, pos: nat, k: nat): (o: nat)
    requires pos <= |s| && k <= |Runes(s, pos)|
    ensures pos <= o <= |s|
    ensures o == |s| <==> k == |Runes(s, pos)|
    ensures o == pos <==> k == 0
    decreases k, |s|
  {
    if k == 0 then pos
    else Offset(s, pos + DecodeRune(s, pos).width, k - 1)
  }

  /** Decoding can be resumed at any boundary. */
  lemma {:induction false} DecodeSuffix(s: seq<Byte>, pos: nat, k: nat)
    requires pos <= |s| && k <= |Runes(s, pos)|
    ensures Runes(s, Offset(s, pos, k)) == Runes(s, pos)[k..]
    decreases k
  {
    if k > 0 {
      DecodeSuffix(s, pos + DecodeRune(s, pos).width, k - 1);
    }
  }

  /** Counting from the next boundary takes one step less. */
  lemma Onward(s: seq<Byte>, pos: nat, next: nat, k: nat)
    requires pos <= |s| && 0 < k <= |Runes(s, pos)| && next == pos + DecodeRune(s, pos).width
    ensures |Runes(s, next)| == |Runes(s, pos)| - 1
    ensures Offset(s, pos, k) == Offset(s, next, k - 1)
  {
  }

  /** Boundaries counted from a boundary are boundaries counted from the start. */
  /** As many runes are left as have not been passed. */
  lemma RunesLeft(s: seq<Byte>, pos: nat, k: nat)
    requires pos <= |s| && k <= |Runes(s, pos)|
    ensures |Runes(s, Offset(s, pos, k))| == |Runes(s, pos)| - k
  {
    DecodeSuffix(s, pos, k);
  }

  lemma {:induction false} OffsetSuffix(s: seq<Byte>, pos: nat, k: nat, a: nat)
    requires pos <= |s| && k + a <= |Runes(s, pos)|
    ensures a <= |Runes(s, Offset(s, pos, k))|
    ensures Offset(s, Offset(s, pos, k), a) == Offset(s, pos, k + a)
    decreases k
  {
    if k > 0 {
      var next := pos + DecodeRune(s, pos).width;
      Onward(s, pos, next, k);
      Onward(s, pos, next, k + a);
      OffsetSuffix(s, next, k - 1, a);
    }
    RunesLeft(s, pos, k);
  }

  /** One decoding step at a boundary: the rune there and the next boundary. */
  lemma DecodeAt(s: seq<Byte>, pos: nat, k: nat)
    requires pos <= |s| && k < |Runes(s, pos)|
    ensures DecodeRune(s, Offset(s, pos, k)).rune == Runes(s, pos)[k]
    ensures Offset(s, pos, k) + DecodeRune(s, Offset(s, pos, k)).width == Offset(s, pos, k + 1)
  {
    DecodeSuffix(s, pos, k);
    OffsetSuffix(s, pos, k, 1);
    assert Runes(s, Offset(s, pos, k))[0] == Runes(s, pos)[k];
  }

  /** Later boundaries lie further right. */
  lemma OffsetIncreases(s: seq<Byte>, pos: nat, a: nat, b: nat)
    requires pos <= |s| && a < b <= |Runes(s, pos)|
    ensures Offset(s, pos, a) < Offset(s, pos, b)
  {
    OffsetSuffix(s, pos, a, b - a);
  }

  lemma DecodeView(s: seq<Byte>, base: nat, pos: nat)
    requires base + pos < |s|
    ensures DecodeRune(s[base..], pos) == DecodeRune(s, base + pos)
  {
  }

  /** A view of the bytes from `base` on decodes exactly like those bytes in place. */
  lemma {:induction false} ViewRunes(s: seq<Byte>, base: nat, pos: nat)
    requires base + pos <= |s|
    ensures Runes(s[base..], pos) == Runes(s, base + pos)
    decreases |s| - base - pos
  {
    if base + pos < |s| {
      DecodeView(s, base, pos);
      ViewRunes(s, base, pos + DecodeRune(s, base + pos).width);
    }
  }

  /** The boundaries of the view are those of the whole string, counted from `base`. */
  lemma {:induction false} ViewOffset(s: seq<Byte>, base: nat, pos: nat, k: nat)
    requires base + pos <= |s| && k <= |Runes(s, base + pos)|
    ensures k <= |Runes(s[base..], pos)|
    ensures base + Offset(s[base..], pos, k) == Offset(s, base + pos, k)
    decreases k
  {
    ViewRunes(s, base, pos);
    if k > 0 {
      DecodeView(s, base, pos);
      ViewOffset(s, base, pos + DecodeRune(s, base + pos).width, k - 1);
    }
  }

  /**
   * No multi-byte sequence spells an ASCII rune. Strings that follow
   * section 3 of RFC 3629 have this property; the decoder alone does not
   * enforce it.
   */
  ghost predicate NoOverlongAscii(s: seq<Byte>)
  {
    forall k :: 0 <= k < |Runes(s, 0)| ==> RuneAt(s, k).width > 1 ==> RuneAt(s, k).rune >= 128
  }

  /** The `k`-th decoding step from the start of `s`. */
  ghost function RuneAt(s: seq<Byte>, k: nat): Decoded
    requires k < |Runes(s, 0)|
  {
    DecodeRune(s, Offset(s, 0, k))
  }
}
