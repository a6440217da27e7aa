/** Lower-case hexadecimal: the encoder used for tokens, digests and keys. */
module Hex {
  import opened Prelude

  type nibble = x: int | 0 <= x < 16

  function Digit(x: nibble): char {
    if x < 10 then ('0' as int + x) as char else ('a' as int + x - 10) as char
  }

  /** The digits, written out. */
  lemma DigitsAre(x: nibble)
    ensures Digit(x) == "0123456789abcdef"[x]
  {
  }

  predicate IsDigit(c: char) {
    '0' <= c <= '9' || 'a' <= c <= 'f'
  }

  function Nibble(c: char): (x: nibble)
    requires IsDigit(c)
    ensures Digit(x) == c
  {
    if '0' <= c <= '9' then c as int - '0' as int else c as int - 'a' as int + 10
  }

  /** The text of some bytes, high digit first. */
  function Encoded(bytes: seq<byte>): (text: string)
    ensures |text| == 2 * |bytes|
  {
    if bytes == [] then ""
    else
      var last := bytes[|bytes| - 1];
      Encoded(bytes[..|bytes| - 1]) + [Digit(last / 16), Digit(last % 16)]
  }

  /** `encode_hex` and `to_hex`. */
  method Encode(bytes: seq<byte>) returns (out: string)
    ensures out == Encoded(bytes)
  {
    out := "";
    for i := 0 to |bytes|
      invariant out == Encoded(bytes[..i])
    {
      assert bytes[..i + 1][..i] == bytes[..i];
      out := out + [Digit(bytes[i] / 16)];
      out := out + [Digit(bytes[i] % 16)];
    }
    assert bytes[..|bytes|] == bytes;
  }

  lemma {:induction false} EncodedAt(bytes: seq<byte>, i: nat)
    requires i < |bytes|
    ensures Encoded(bytes)[2 * i] == Digit(bytes[i] / 16) && Encoded(bytes)[2 * i + 1] == Digit(bytes[i] % 16)
  {
    if i < |bytes| - 1 {
      EncodedAt(bytes[..|bytes| - 1], i);
    }
  }

  lemma DigitNibble(x: nibble)
    ensures IsDigit(Digit(x)) && Nibble(Digit(x)) == x
  {
  }

  /** The byte two digits stand for. */
  function Pair(text: string, i: nat): byte
    requires 2 * i + 1 < |text| && IsDigit(text[2 * i]) && IsDigit(text[2 * i + 1])
  {
    Nibble(text[2 * i]) as int * 16 + Nibble(text[2 * i + 1]) as int
  }

  predicate Digits(text: string) {
    forall i | 0 <= i < |text| :: IsDigit(text[i])
  }

  lemma EncodedPair(bytes: seq<byte>, i: nat)
    requires i < |bytes|
    ensures IsDigit(Encoded(bytes)[2 * i]) && IsDigit(Encoded(bytes)[2 * i + 1]) && Pair(Encoded(bytes), i) == bytes[i]
  {
    EncodedAt(bytes, i);
    DigitNibble(bytes[i] / 16);
    DigitNibble(bytes[i] % 16);
  }

  lemma PairDigits(text: string, i: nat)
    requires 2 * i + 1 < |text| && IsDigit(text[2 * i]) && IsDigit(text[2 * i + 1])
    ensures Digit(Pair(text, i) / 16) == text[2 * i] && Digit(Pair(text, i) % 16) == text[2 * i + 1]
  {
    var high: int, low: int := Nibble(text[2 * i]), Nibble(text[2 * i + 1]);
    assert (high * 16 + low) / 16 == high && (high * 16 + low) % 16 == low;
  }

  lemma Halves(k: nat)
    ensures k == 2 * (k / 2) || k == 2 * (k / 2) + 1
  {
  }

  lemma EncodedSpells(bytes: seq<byte>)
    ensures Digits(Encoded(bytes)) && forall i | 0 <= i < |bytes| :: bytes[i] == Pair(Encoded(bytes), i)
  {
    forall k | 0 <= k < |Encoded(bytes)|
      ensures IsDigit(Encoded(bytes)[k])
    {
      Halves(k);
      EncodedPair(bytes, k / 2);
    }
    forall i | 0 <= i < |bytes|
      ensures bytes[i] == Pair(Encoded(bytes), i)
    {
      EncodedPair(bytes, i);
    }
  }

  lemma SpelledAt(text: string, bytes: seq<byte>, i: nat)
    requires |text| == 2 * |bytes| && i < |bytes| && IsDigit(text[2 * i]) && IsDigit(text[2 * i + 1])
    requires bytes[i] == Pair(text, i)
    ensures text[2 * i] == Encoded(bytes)[2 * i] && text[2 * i + 1] == Encoded(bytes)[2 * i + 1]
  {
    EncodedAt(bytes, i);
    PairDigits(text, i);
  }

  lemma SpelledIsEncoded(text: string, bytes: seq<byte>)
    requires |text| == 2 * |bytes| && Digits(text) && forall i | 0 <= i < |bytes| :: bytes[i] == Pair(text, i)
    ensures Encoded(bytes) == text
  {
    forall k | 0 <= k < |text|
      ensures text[k] == Encoded(bytes)[k]
    {
      Halves(k);
      var i := k / 2;
      assert bytes[i] == Pair(text, i);
      SpelledAt(text, bytes, i);
    }
  }

  /** The bytes are what the text's digits spell exactly when the text is their encoding. */
  lemma SpellsIff(text: string, bytes: seq<byte>)
    requires |text| == 2 * |bytes|
    ensures Encoded(bytes) == text <==> Digits(text) && forall i | 0 <= i < |bytes| :: bytes[i] == Pair(text, i)
  {
    EncodedSpells(bytes);
    if Digits(text) && forall i | 0 <= i < |bytes| :: bytes[i] == Pair(text, i) {
      SpelledIsEncoded(text, bytes);
    }
  }

  lemma Injective(a: seq<byte>, b: seq<byte>)
    requires Encoded(a) == Encoded(b)
    ensures a == b
  {
    SpellsIff(Encoded(a), a);
    SpellsIff(Encoded(b), b);
  }
}
