// UTF-8 encoding, the inverse of the engine's decoder on well-formed text.

module Encoding {
  import opened Utf8

  const MAX_ENCODABLE: Rune := 0x10FFFF

  /** The shortest encoding of a rune. */
  function Encode(r: Rune): (s: seq<Byte>)
    requires r <= MAX_ENCODABLE
    ensures |s| >= 1
    ensures r < 128 ==> s == [r]
    ensures r >= 128 ==> s[0] >= 128
  {
    if r < 128 then [r]
    else if r < 0x800 then [192 + r / 64, 128 + r % 64]
    else if r < 0x1_0000 then [224 + r / 4096, 128 + r / 64 % 64, 128 + r % 64]
    else [240 + r / 0x4_0000, 128 + r / 4096 % 64, 128 + r / 64 % 64, 128 + r % 64]
  }

  predicate HoldsAt(s: seq<Byte>, pos: nat, part: seq<Byte>, k: nat)
    requires pos + |part| <= |s| && k < |part|
  {
    s[pos + k] == part[k]
  }

  /** The part stands at `pos`. */
  predicate Holds(s: seq<Byte>, pos: nat, part: seq<Byte>)
  {
    pos + |part| <= |s| && forall k {:trigger HoldsAt(s, pos, part, k)} :: 0 <= k < |part| ==> HoldsAt(s, pos, part, k)
  }

  lemma HoldsParts(s: seq<Byte>, pos: nat, a: seq<Byte>, b: seq<Byte>)
    requires Holds(s, pos, a + b)
    ensures Holds(s, pos, a) && Holds(s, pos + |a|, b)
  {
    forall k | 0 <= k < |a|
      ensures HoldsAt(s, pos, a, k)
    {
      assert HoldsAt(s, pos, a + b, k);
    }
    var mid := pos + |a|;
    forall k | 0 <= k < |b|
      ensures HoldsAt(s, mid, b, k)
    {
      assert HoldsAt(s, pos, a + b, |a| + k);
    }
  }

  lemma HoldsByte(s: seq<Byte>, pos: nat, part: seq<Byte>, k: nat)
    requires Holds(s, pos, part) && k < |part|
    ensures s[pos + k] == part[k]
  {
    assert HoldsAt(s, pos, part, k);
  }

  lemma HoldsSlice(s: seq<Byte>, pos: nat, part: seq<Byte>)
    requires Holds(s, pos, part)
    ensures s[pos..pos + |part|] == part
  {
    forall k | 0 <= k < |part|
      ensures s[pos..pos + |part|][k] == part[k]
    {
      HoldsByte(s, pos, part, k);
    }
  }

  /** Decoding where a rune's encoding stands gives back the rune and its width. */
  lemma DecodeEncoded(s: seq<Byte>, pos: nat, r: Rune)
    requires r <= MAX_ENCODABLE && Holds(s, pos, Encode(r))
    ensures DecodeRune(s, pos) == Decoded(r, |Encode(r)|)
  {
    var e := Encode(r);
    HoldsByte(s, pos, e, 0);
    if r < 128 {
      return;
    }
    HoldsByte(s, pos, e, 1);
    if r < 0x800 {
      DecodeTwo(s, pos, r);
    } else if r < 0x1_0000 {
      HoldsByte(s, pos, e, 2);
      DecodeThree(s, pos, r);
    } else {
      HoldsByte(s, pos, e, 2);
      HoldsByte(s, pos, e, 3);
      DecodeFour(s, pos, r);
    }
  }

  lemma DecodeTwo(s: seq<Byte>, pos: nat, r: Rune)
    requires 128 <= r < 0x800 && pos + 2 <= |s| && s[pos] == 192 + r / 64 && s[pos + 1] == 128 + r % 64
    ensures DecodeRune(s, pos) == Decoded(r, 2)
  {
  }

  /** A continuation byte gives back the six bits it was made of. */
  lemma ExtendBack(v: nat, b: Byte)
    requires b == 128 + v % 64
    ensures IsContinuation(b) && Extend(v / 64, b) == v
  {
  }

  lemma DecodeThreeBytes(s: seq<Byte>, pos: nat)
    requires pos + 3 <= |s| && 224 <= s[pos] < 240 && IsContinuation(s[pos + 1]) && IsContinuation(s[pos + 2])
    ensures DecodeRune(s, pos) == Decoded(Extend(Extend(s[pos] - 224, s[pos + 1]), s[pos + 2]), 3)
  {
    assert s[pos] % 16 == s[pos] - 224;
  }

  lemma DecodeFourBytes(s: seq<Byte>, pos: nat)
    requires pos + 4 <= |s| && 240 <= s[pos] < 248
    requires IsContinuation(s[pos + 1]) && IsContinuation(s[pos + 2]) && IsContinuation(s[pos + 3])
    ensures DecodeRune(s, pos) == Decoded(Extend(Extend(Extend(s[pos] - 240, s[pos + 1]), s[pos + 2]), s[pos + 3]), 4)
  {
    assert s[pos] % 8 == s[pos] - 240;
  }

  lemma {:induction false} DecodeThree(s: seq<Byte>, pos: nat, r: Rune)
    requires 0x800 <= r < 0x1_0000 && pos + 3 <= |s|
    requires s[pos] == 224 + r / 4096 && s[pos + 1] == 128 + r / 64 % 64 && s[pos + 2] == 128 + r % 64
    ensures DecodeRune(s, pos) == Decoded(r, 3)
  {
    assert r / 4096 == r / 64 / 64;
    ExtendBack(r / 64, s[pos + 1]);
    ExtendBack(r, s[pos + 2]);
    DecodeThreeBytes(s, pos);
  }

  lemma {:induction false} DecodeFour(s: seq<Byte>, pos: nat, r: Rune)
    requires 0x1_0000 <= r <= MAX_ENCODABLE && pos + 4 <= |s|
    requires s[pos] == 240 + r / 0x4_0000 && s[pos + 1] == 128 + r / 4096 % 64
    requires s[pos + 2] == 128 + r / 64 % 64 && s[pos + 3] == 128 + r % 64
    ensures DecodeRune(s, pos) == Decoded(r, 4)
  {
    Quarters(r);
    ExtendBack(r / 4096, s[pos + 1]);
    ExtendBack(r / 64, s[pos + 2]);
    ExtendBack(r, s[pos + 3]);
    DecodeFourBytes(s, pos);
  }

  lemma Quarters(r: nat)
    ensures r / 64 / 64 == r / 4096 && r / 4096 / 64 == r / 0x4_0000
  {
  }
}
