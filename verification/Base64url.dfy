/**
 Unpadded base64url: the encoder's loop over groups of three bytes, and a decoder of section 5 of
 RFC 4648 that, like the one tokens are read with, refuses non-zero trailing bits.
 */
module Base64url {
  import opened Prelude
  import Bits

  type sextet = x: int | 0 <= x < 64

  /** The alphabet: letters, digits, then `-` and `_`. */
  function Symbol(x: sextet): char {
    if x < 26 then ('A' as int + x) as char
    else if x < 52 then ('a' as int + x - 26) as char
    else if x < 62 then ('0' as int + x - 52) as char
    else if x == 62 then '-'
    else '_'
  }

  predicate InAlphabet(c: char) {
    'A' <= c <= 'Z' || 'a' <= c <= 'z' || '0' <= c <= '9' || c == '-' || c == '_'
  }

  function Index(c: char): (x: sextet)
    requires InAlphabet(c)
    ensures Symbol(x) == c
  {
    if 'A' <= c <= 'Z' then c as int - 'A' as int
    else if 'a' <= c <= 'z' then c as int - 'a' as int + 26
    else if '0' <= c <= '9' then c as int - '0' as int + 52
    else if c == '-' then 62
    else 63
  }

  /** The alphabet of section 5 of RFC 4648: where each stretch starts, and that it goes up by one. */
  lemma AlphabetIs(x: sextet)
    ensures Symbol(0) == 'A' && Symbol(26) == 'a' && Symbol(52) == '0' && Symbol(62) == '-' && Symbol(63) == '_'
    ensures x !in {0, 26, 52, 62, 63} ==> Symbol(x) as int == Symbol(x - 1) as int + 1
  {
  }

  lemma SymbolIndex(x: sextet)
    ensures InAlphabet(Symbol(x)) && Index(Symbol(x)) == x
  {
  }

  predicate Alphabetic(text: string) {
    forall i | 0 <= i < |text| :: InAlphabet(text[i])
  }

  // One group.

  /** The characters of some indices, and the indices of some characters. */
  function Symbols(xs: seq<sextet>): string {
    seq(|xs|, i requires 0 <= i < |xs| => Symbol(xs[i]))
  }

  function Indices(text: string): seq<sextet>
    requires Alphabetic(text)
  {
    seq(|text|, i requires 0 <= i < |text| => Index(text[i]))
  }

  lemma IndicesOfSymbols(xs: seq<sextet>)
    ensures Alphabetic(Symbols(xs)) && Indices(Symbols(xs)) == xs
  {
    forall i | 0 <= i < |xs|
      ensures InAlphabet(Symbols(xs)[i]) && Index(Symbols(xs)[i]) == xs[i]
    {
      SymbolIndex(xs[i]);
    }
  }

  lemma SymbolsOfIndices(text: string)
    requires Alphabetic(text)
    ensures Symbols(Indices(text)) == text
  {
  }

  /** One to three bytes, most significant bit first, cut into one more six-bit field than there are
      bytes; the last field is filled up with zero bits. */
  function Fields(chunk: seq<byte>): (xs: seq<sextet>)
    requires 1 <= |chunk| <= 3
    ensures |xs| == |chunk| + 1
  {
    var b0, b1 := chunk[0], if |chunk| > 1 then chunk[1] else 0;
    if |chunk| == 1 then [b0 / 4, b0 % 4 * 16]
    else if |chunk| == 2 then [b0 / 4, b0 % 4 * 16 + b1 / 16, b1 % 16 * 4]
    else [b0 / 4, b0 % 4 * 16 + b1 / 16, b1 % 16 * 4 + chunk[2] / 64, chunk[2] % 64]
  }

  /** Two to four fields as one byte fewer; the bits that belong to no byte must be zero. */
  function Joined(xs: seq<sextet>): (r: Option<seq<byte>>)
    requires 2 <= |xs| <= 4
    ensures r.Some? ==> |r.value| == |xs| - 1
  {
    var first: byte := High(xs[0], xs[1]);
    if |xs| == 2 then
      if xs[1] % 16 == 0 then Some([first]) else None
    else
      var second: byte := Middle(xs[1], xs[2]);
      if |xs| == 3 then
        if xs[2] % 4 == 0 then Some([first, second]) else None
      else
        Some([first, second, Low(xs[2], xs[3])])
  }

  // The three ways a byte lies across two fields.

  function High(x: sextet, y: sextet): byte {
    var h: int := x;
    h * 4 + y / 16
  }

  function Middle(y: sextet, z: sextet): byte {
    var h: int := y % 16;
    h * 16 + z / 4
  }

  function Low(z: sextet, w: sextet): byte {
    var h: int := z % 4;
    h * 64 + w
  }

  lemma HighOf(b: byte, t: nat)
    requires t < 16
    ensures High(b / 4, b % 4 * 16 + t) == b && (b % 4 * 16 + t) % 16 == t
  {
    Bits.RemainderIs(b % 4 * 16 + t, b % 4, 16, t);
  }

  lemma MiddleOf(b: byte, p: nat, t: nat)
    requires t < 4 && p < 4
    ensures Middle(p * 16 + b / 16, b % 16 * 4 + t) == b && (b % 16 * 4 + t) % 4 == t
  {
    Bits.RemainderIs(p * 16 + b / 16, p, 16, b / 16);
    Bits.RemainderIs(b % 16 * 4 + t, b % 16, 4, t);
  }

  lemma LowOf(b: byte, p: nat)
    requires p < 16
    ensures Low(p * 4 + b / 64, b % 64) == b
  {
    Bits.RemainderIs(p * 4 + b / 64, p, 4, b / 64);
  }

  lemma JoinedFields(chunk: seq<byte>)
    requires 1 <= |chunk| <= 3
    ensures Joined(Fields(chunk)) == Some(chunk)
  {
    var b0 := chunk[0];
    if |chunk| == 1 {
      HighOf(b0, 0);
      assert chunk == [b0];
    } else if |chunk| == 2 {
      HighOf(b0, chunk[1] / 16);
      MiddleOf(chunk[1], b0 % 4, 0);
      assert chunk == [b0, chunk[1]];
    } else {
      HighOf(b0, chunk[1] / 16);
      MiddleOf(chunk[1], b0 % 4, chunk[2] / 64);
      LowOf(chunk[2], chunk[1] % 16);
      assert chunk == [b0, chunk[1], chunk[2]];
    }
  }

  lemma SplitHigh(x: sextet, y: sextet)
    ensures High(x, y) / 4 == x && High(x, y) % 4 == y / 16
  {
    Bits.RemainderIs(High(x, y), x, 4, y / 16);
  }

  lemma SplitMiddle(y: sextet, z: sextet)
    ensures Middle(y, z) / 16 == y % 16 && Middle(y, z) % 16 == z / 4
  {
    Bits.RemainderIs(Middle(y, z), y % 16, 16, z / 4);
  }

  lemma SplitLow(z: sextet, w: sextet)
    ensures Low(z, w) / 64 == z % 4 && Low(z, w) % 64 == w
  {
    Bits.RemainderIs(Low(z, w), z % 4, 64, w);
  }

  lemma FieldsJoined(xs: seq<sextet>)
    requires 2 <= |xs| <= 4 && Joined(xs).Some?
    ensures Fields(Joined(xs).value) == xs
  {
    SplitHigh(xs[0], xs[1]);
    if |xs| == 2 {
      assert xs == [xs[0], xs[1]];
    } else {
      SplitMiddle(xs[1], xs[2]);
      if |xs| == 3 {
        assert xs == [xs[0], xs[1], xs[2]];
      } else {
        SplitLow(xs[2], xs[3]);
        assert xs == [xs[0], xs[1], xs[2], xs[3]];
      }
    }
  }

  function Group(chunk: seq<byte>): (text: string)
    requires 1 <= |chunk| <= 3
    ensures |text| == |chunk| + 1
  {
    Symbols(Fields(chunk))
  }

  function Ungroup(text: string): (r: Option<seq<byte>>)
    requires 2 <= |text| <= 4
    ensures r.Some? ==> |r.value| == |text| - 1
  {
    if Alphabetic(text) then Joined(Indices(text)) else None
  }

  lemma GroupRoundTrip(chunk: seq<byte>)
    requires 1 <= |chunk| <= 3
    ensures Alphabetic(Group(chunk)) && Ungroup(Group(chunk)) == Some(chunk)
  {
    IndicesOfSymbols(Fields(chunk));
    JoinedFields(chunk);
  }

  lemma UngroupRoundTrip(text: string)
    requires 2 <= |text| <= 4 && Ungroup(text).Some?
    ensures Group(Ungroup(text).value) == text
  {
    FieldsJoined(Indices(text));
    SymbolsOfIndices(text);
  }

  // A 24-bit group read as four 6-bit indices.

  lemma Index0(b0: byte, b1: byte, b2: byte)
    ensures (b0 * 65536 + b1 * 256 + b2) / 262144 % 64 == b0 / 4
  {
    var q, r := b0 / 4, b0 % 4;
    Bits.RemainderIs(b0 * 65536 + b1 * 256 + b2, q, 262144, r * 65536 + b1 * 256 + b2);
  }

  lemma Index1(b0: byte, b1: byte, b2: byte)
    ensures (b0 * 65536 + b1 * 256 + b2) / 4096 % 64 == b0 % 4 * 16 + b1 / 16
  {
    var q, r, t, u := b0 / 4, b0 % 4, b1 / 16, b1 % 16;
    var x := r * 16 + t;
    Bits.RemainderIs(b0 * 65536 + b1 * 256 + b2, q * 64 + x, 4096, u * 256 + b2);
    Bits.RemainderIs(q * 64 + x, q, 64, x);
  }

  lemma Index2(b0: byte, b1: byte, b2: byte)
    ensures (b0 * 65536 + b1 * 256 + b2) / 64 % 64 == b1 % 16 * 4 + b2 / 64
  {
    var t, u, v, w := b1 / 16, b1 % 16, b2 / 64, b2 % 64;
    var x := u * 4 + v;
    Bits.RemainderIs(b0 * 65536 + b1 * 256 + b2, (b0 * 16 + t) * 64 + x, 64, w);
    Bits.RemainderIs((b0 * 16 + t) * 64 + x, b0 * 16 + t, 64, x);
  }

  lemma Index3(b0: byte, b1: byte, b2: byte)
    ensures (b0 * 65536 + b1 * 256 + b2) % 64 == b2 % 64
  {
    var v, w := b2 / 64, b2 % 64;
    Bits.RemainderIs(b0 * 65536 + b1 * 256 + b2, b0 * 1024 + b1 * 4 + v, 64, w);
  }

  // Whole texts.

  function Encoded(bytes: seq<byte>): string {
    if bytes == [] then ""
    else if |bytes| <= 3 then Group(bytes)
    else Group(bytes[..3]) + Encoded(bytes[3..])
  }

  function Decoded(text: string): Option<seq<byte>> {
    if text == "" then Some([])
    else if |text| == 1 then None
    else if |text| <= 4 then Ungroup(text)
    else
      var first, rest := Ungroup(text[..4]), Decoded(text[4..]);
      if first.Some? && rest.Some? then Some(first.value + rest.value) else None
  }

  /** The group arithmetic: three bytes make 24 bits, read as four indices. */
  method CutGroup(chunk: seq<byte>) returns (indices: seq<sextet>)
    requires 1 <= |chunk| <= 3
    ensures |indices| == 4 && indices[..|chunk| + 1] == Fields(chunk)
  {
    var b0: byte := chunk[0];
    var b1: byte := if |chunk| > 1 then chunk[1] else 0;
    var b2: byte := if |chunk| > 2 then chunk[2] else 0;
    var n := b0 * 65536 + b1 * 256 + b2;
    indices := [n / 262144 % 64, n / 4096 % 64, n / 64 % 64, n % 64];
    IndicesAreFields(chunk, b0, b1, b2);
  }

  /** The inner loop: one character more than the group has bytes. */
  method PushGroup(out: string, chunk: seq<byte>) returns (r: string)
    requires 1 <= |chunk| <= 3
    ensures r == out + Group(chunk)
  {
    var indices := CutGroup(chunk);
    var xs := indices[..|chunk| + 1];
    r := out;
    for k := 0 to |xs|
      invariant r == out + Symbols(xs)[..k]
    {
      r := r + [Symbol(xs[k])];
    }
  }

  lemma IndicesAreFields(chunk: seq<byte>, b0: byte, b1: byte, b2: byte)
    requires 1 <= |chunk| <= 3 && b0 == chunk[0]
    requires b1 == (if |chunk| > 1 then chunk[1] else 0) && b2 == (if |chunk| > 2 then chunk[2] else 0)
    ensures var n := b0 * 65536 + b1 * 256 + b2;
            var indices := [n / 262144 % 64, n / 4096 % 64, n / 64 % 64, n % 64];
            forall k | 0 <= k <= |chunk| :: indices[k] == Fields(chunk)[k]
  {
    Index0(b0, b1, b2);
    Index1(b0, b1, b2);
    Index2(b0, b1, b2);
    Index3(b0, b1, b2);
  }

  /** The encoder's loop. */
  method Encode(bytes: seq<byte>) returns (out: string)
    ensures out == Encoded(bytes)
  {
    out := "";
    var i := 0;
    assert bytes[0..] == bytes && out + Encoded(bytes) == Encoded(bytes);
    while i < |bytes|
      invariant 0 <= i <= |bytes|
      invariant out + Encoded(bytes[i..]) == Encoded(bytes)
    {
      var chunk := Chunk(bytes, i);
      UnfoldAt(out, bytes, i);
      out := PushGroup(out, chunk);
      i := i + |chunk|;
    }
    assert bytes[i..] == [] && out + "" == out;
  }

  /** The next three bytes, or what is left of them. */
  function Chunk(bytes: seq<byte>, i: nat): (chunk: seq<byte>)
    requires i < |bytes|
    ensures 1 <= |chunk| <= 3 && i + |chunk| <= |bytes|
  {
    if i + 3 <= |bytes| then bytes[i..i + 3] else bytes[i..]
  }

  lemma UnfoldAt(out: string, bytes: seq<byte>, i: nat)
    requires i < |bytes|
    ensures var chunk := Chunk(bytes, i);
            out + Encoded(bytes[i..]) == out + Group(chunk) + Encoded(bytes[i + |chunk|..])
  {
    var chunk, rest := Chunk(bytes, i), bytes[i..];
    if |rest| <= 3 {
      assert chunk == rest && bytes[i + |chunk|..] == [];
    } else {
      assert rest[..3] == chunk && rest[3..] == bytes[i + |chunk|..];
    }
  }

  /** Decoding undoes encoding. */
  lemma {:induction false} DecodeEncode(bytes: seq<byte>)
    ensures Decoded(Encoded(bytes)) == Some(bytes)
  {
    if bytes == [] {
    } else if |bytes| <= 3 {
      GroupRoundTrip(bytes);
    } else {
      var head, rest := Group(bytes[..3]), Encoded(bytes[3..]);
      GroupRoundTrip(bytes[..3]);
      DecodeEncode(bytes[3..]);
      Length(bytes[3..]);
      assert (head + rest)[..4] == head && (head + rest)[4..] == rest;
      assert bytes[..3] + bytes[3..] == bytes;
    }
  }

  /** Encoding undoes decoding: every text that decodes is the encoding of what it decodes to. */
  lemma {:induction false} EncodeDecode(text: string)
    requires Decoded(text).Some?
    ensures Encoded(Decoded(text).value) == text
  {
    if text == "" {
    } else if |text| <= 4 {
      UngroupRoundTrip(text);
    } else {
      var first, rest := Ungroup(text[..4]).value, Decoded(text[4..]).value;
      UngroupRoundTrip(text[..4]);
      EncodeDecode(text[4..]);
      assert |rest| > 0;
      assert (first + rest)[..3] == first && (first + rest)[3..] == rest;
      assert text[..4] + text[4..] == text;
    }
  }

  /** The two are inverse: a text decodes to some bytes exactly when it is their encoding. */
  lemma DecodesIff(text: string, bytes: seq<byte>)
    ensures Decoded(text) == Some(bytes) <==> Encoded(bytes) == text
  {
    if Decoded(text).Some? {
      EncodeDecode(text);
    }
    DecodeEncode(bytes);
  }

  /** Exactly ceil(4n/3) characters, all of the alphabet. */
  lemma {:induction false} Length(bytes: seq<byte>)
    ensures |Encoded(bytes)| == (4 * |bytes| + 2) / 3 && Alphabetic(Encoded(bytes))
  {
    if bytes == [] {
    } else if |bytes| <= 3 {
      GroupRoundTrip(bytes);
    } else {
      GroupRoundTrip(bytes[..3]);
      Length(bytes[3..]);
    }
  }

  lemma Injective(a: seq<byte>, b: seq<byte>)
    requires Encoded(a) == Encoded(b)
    ensures a == b
  {
    DecodeEncode(a);
    DecodeEncode(b);
  }
}
