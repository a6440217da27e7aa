/**
 The `otpauth` provisioning URI: percent-encoding, Base32, and the URI put together from them.
 Text enters as the bytes of its UTF-8 form.
 */
module Otpauth {
  import opened Prelude
  import opened Texts
  import Bits

  // Percent-encoding.

  predicate Unreserved(b: byte) {
    || 'A' as int <= b <= 'Z' as int || 'a' as int <= b <= 'z' as int || '0' as int <= b <= '9' as int
    || b == '-' as int || b == '_' as int || b == '.' as int || b == '~' as int
  }

  function UpperDigit(x: int): char
    requires 0 <= x < 16
  {
    if x < 10 then ('0' as int + x) as char else ('A' as int + x - 10) as char
  }

  function Escaped(b: byte): string {
    if Unreserved(b) then [b as char] else ['%', UpperDigit(b / 16), UpperDigit(b % 16)]
  }

  function PercentEncoded(input: seq<byte>): string {
    if input == [] then "" else Escaped(input[0]) + PercentEncoded(input[1..])
  }

  method PushEscaped(out: string, b: byte) returns (r: string)
    ensures r == out + Escaped(b)
  {
    if Unreserved(b) {
      return out + [b as char];
    }
    r := out + ['%'];
    r := r + [UpperDigit(b / 16)];
    r := r + [UpperDigit(b % 16)];
  }

  lemma EncodedStep(out: string, input: seq<byte>, i: nat)
    requires i < |input|
    ensures out + PercentEncoded(input[i..]) == out + Escaped(input[i]) + PercentEncoded(input[i + 1..])
  {
    assert input[i..][0] == input[i] && input[i..][1..] == input[i + 1..];
  }

  /** `percent_encode`. */
  method PercentEncode(input: seq<byte>) returns (out: string)
    ensures out == PercentEncoded(input)
  {
    out := "";
    assert input[0..] == input && out + PercentEncoded(input) == PercentEncoded(input);
    for i := 0 to |input|
      invariant out + PercentEncoded(input[i..]) == PercentEncoded(input)
    {
      EncodedStep(out, input, i);
      out := PushEscaped(out, input[i]);
    }
    assert input[|input|..] == [] && out + "" == out;
  }

  /** The value of a hexadecimal digit of either case. */
  function HexValue(c: char): (r: Option<int>)
    ensures r.Some? ==> 0 <= r.value < 16
  {
    if '0' <= c <= '9' then Some(c as int - '0' as int)
    else if 'A' <= c <= 'F' then Some(c as int - 'A' as int + 10)
    else if 'a' <= c <= 'f' then Some(c as int - 'a' as int + 10)
    else None
  }

  /** A decoder after section 2.1 of RFC 3986. */
  function PercentDecoded(text: string): Option<seq<byte>> {
    if text == "" then Some([])
    else if text[0] == '%' then
      if |text| < 3 || HexValue(text[1]).None? || HexValue(text[2]).None? then None
      else
        var rest := PercentDecoded(text[3..]);
        if rest.None? then None
        else Some([HexValue(text[1]).value * 16 + HexValue(text[2]).value] + rest.value)
    else if text[0] as int >= 128 then None
    else
      var rest := PercentDecoded(text[1..]);
      if rest.None? then None else Some([text[0] as int] + rest.value)
  }

  lemma {:induction false} PercentRoundTrip(input: seq<byte>)
    ensures PercentDecoded(PercentEncoded(input)) == Some(input)
  {
    if input != [] {
      PercentRoundTrip(input[1..]);
      var b, rest := input[0], PercentEncoded(input[1..]);
      var text := Escaped(b) + rest;
      assert input == [b] + input[1..];
      if Unreserved(b) {
        assert text[0] == b as char && text[1..] == rest;
      } else {
        assert text[0] == '%' && text[1] == UpperDigit(b / 16) && text[2] == UpperDigit(b % 16) && text[3..] == rest;
        assert HexValue(text[1]) == Some(b / 16) && HexValue(text[2]) == Some(b % 16);
      }
    }
  }

  /** Nothing but the unreserved characters of section 2.3 of RFC 3986 and `%`, so none of the delimiters of a URI. */
  lemma {:induction false} PercentIsPlain(input: seq<byte>)
    ensures forall c | c in PercentEncoded(input) ::
              'A' <= c <= 'Z' || 'a' <= c <= 'z' || '0' <= c <= '9' || c in {'-', '_', '.', '~', '%'}
  {
    if input != [] {
      PercentIsPlain(input[1..]);
    }
  }

  // Base32 without padding.

  type bits = seq<bool>

  /** The low bits of a number, most significant first. */
  function LowBits(x: nat, width: nat): (r: bits)
    ensures |r| == width
  {
    if width == 0 then [] else LowBits(x / 2, width - 1) + [x % 2 == 1]
  }

  function ByteBits(b: byte): (r: bits)
    ensures |r| == 8
  {
    LowBits(b, 8)
  }

  function AllBits(bytes: seq<byte>): (r: bits)
    ensures |r| == 8 * |bytes|
  {
    if bytes == [] then [] else ByteBits(bytes[0]) + AllBits(bytes[1..])
  }

  function Bit(b: bool, weight: nat): nat {
    if b then weight else 0
  }

  function FiveValue(f: bits): (x: int)
    requires |f| == 5
    ensures 0 <= x < 32
  {
    Bit(f[0], 16) + Bit(f[1], 8) + Bit(f[2], 4) + Bit(f[3], 2) + Bit(f[4], 1)
  }

  function Symbol32(x: int): char
    requires 0 <= x < 32
  {
    if x < 26 then ('A' as int + x) as char else ('2' as int + x - 26) as char
  }

  /** The alphabet of section 6 of RFC 4648: where each stretch starts, and that it goes up by one. */
  lemma Alphabet32Is(x: int)
    requires 0 <= x < 32
    ensures Symbol32(0) == 'A' && Symbol32(26) == '2'
    ensures x !in {0, 26} ==> Symbol32(x) as int == Symbol32(x - 1) as int + 1
  {
  }

  /** Five bits a character, the last field filled up with zero bits. */
  function Base32OfBits(b: bits): string {
    if b == [] then ""
    else if |b| < 5 then [Symbol32(FiveValue(b + seq(5 - |b|, _ => false)))]
    else [Symbol32(FiveValue(b[..5]))] + Base32OfBits(b[5..])
  }

  function Base32(bytes: seq<byte>): string {
    Base32OfBits(AllBits(bytes))
  }

  lemma FiveInjective(f: bits, g: bits)
    requires |f| == 5 && |g| == 5 && FiveValue(f) == FiveValue(g)
    ensures f == g
  {
  }

  lemma {:induction false} BitsInjective(b: bits, c: bits)
    requires Base32OfBits(b) == Base32OfBits(c) && (|b| - |c|) % 8 == 0
    ensures b == c
    decreases |b|
  {
    Base32Length(b);
    Base32Length(c);
    if b == [] {
    } else if |b| < 5 {
      var pad := seq(5 - |b|, _ => false);
      FiveInjective(b + pad, c + pad);
      assert forall i | 0 <= i < |b| :: (b + pad)[i] == (c + pad)[i];
    } else {
      assert Base32OfBits(b)[0] == Symbol32(FiveValue(b[..5]));
      assert Base32OfBits(c)[0] == Symbol32(FiveValue(c[..5]));
      FiveInjective(b[..5], c[..5]);
      assert Base32OfBits(b)[1..] == Base32OfBits(b[5..]);
      assert Base32OfBits(c)[1..] == Base32OfBits(c[5..]);
      BitsInjective(b[5..], c[5..]);
      assert b == b[..5] + b[5..] && c == c[..5] + c[5..];
    }
  }

  lemma {:induction false} Base32Length(b: bits)
    ensures |Base32OfBits(b)| == (|b| + 4) / 5
  {
    if |b| >= 5 {
      Base32Length(b[5..]);
    }
  }

  lemma {:induction false} Base32IsPlain(b: bits)
    ensures forall c | c in Base32OfBits(b) :: 'A' <= c <= 'Z' || '2' <= c <= '7'
  {
    if |b| >= 5 {
      Base32IsPlain(b[5..]);
    }
  }

  lemma {:induction false} LowBitsInjective(x: nat, y: nat, width: nat)
    requires x < Bits.Power2(width) && y < Bits.Power2(width) && LowBits(x, width) == LowBits(y, width)
    ensures x == y
  {
    if width > 0 {
      assert LowBits(x, width)[..width - 1] == LowBits(x / 2, width - 1);
      assert LowBits(y, width)[..width - 1] == LowBits(y / 2, width - 1);
      assert LowBits(x, width)[width - 1] == (x % 2 == 1) && LowBits(y, width)[width - 1] == (y % 2 == 1);
      LowBitsInjective(x / 2, y / 2, width - 1);
    }
  }

  lemma ByteBitsInjective(a: byte, b: byte)
    requires ByteBits(a) == ByteBits(b)
    ensures a == b
  {
    Bits.Powers();
    LowBitsInjective(a, b, 8);
  }

  lemma {:induction false} AllBitsInjective(a: seq<byte>, b: seq<byte>)
    requires AllBits(a) == AllBits(b)
    ensures a == b
  {
    if a != [] {
      assert AllBits(a)[..8] == ByteBits(a[0]) && AllBits(b)[..8] == ByteBits(b[0]);
      assert AllBits(a)[8..] == AllBits(a[1..]) && AllBits(b)[8..] == AllBits(b[1..]);
      ByteBitsInjective(a[0], b[0]);
      AllBitsInjective(a[1..], b[1..]);
      assert a == [a[0]] + a[1..] && b == [b[0]] + b[1..];
    }
  }

  lemma Base32Injective(a: seq<byte>, b: seq<byte>)
    requires Base32(a) == Base32(b)
    ensures a == b
  {
    BitsInjective(AllBits(a), AllBits(b));
    AllBitsInjective(a, b);
  }

  // Base32 by arithmetic.

  /** Bit `j` of the bytes, most significant first, and zero past their end. */
  function BitAt(bytes: seq<byte>, j: nat): int {
    if j / 8 < |bytes| then bytes[j / 8] as int / Bits.Power2(7 - j % 8) % 2 else 0
  }

  lemma {:induction false} LowBitsAt(x: nat, width: nat, i: nat)
    requires i < width
    ensures LowBits(x, width)[i] <==> x / Bits.Power2(width - 1 - i) % 2 == 1
    decreases width
  {
    if i < width - 1 {
      LowBitsAt(x / 2, width - 1, i);
      Bits.RemainderByDouble(x, Bits.Power2(width - 2 - i));
    }
  }

  lemma {:induction false} AllBitsAt(bytes: seq<byte>, j: nat)
    requires j < 8 * |bytes|
    ensures AllBits(bytes)[j] <==> BitAt(bytes, j) == 1
    decreases |bytes|
  {
    if j < 8 {
      LowBitsAt(bytes[0], 8, j);
    } else {
      AllBitsAt(bytes[1..], j - 8);
      assert (j - 8) / 8 == j / 8 - 1 && (j - 8) % 8 == j % 8;
    }
  }

  /** Bit `j`, and false past the end. */
  predicate BitOf(b: bits, j: nat) {
    j < |b| && b[j]
  }

  lemma {:induction false} OfBitsAt(b: bits, k: nat)
    requires k < |Base32OfBits(b)|
    ensures Base32OfBits(b)[k] ==
            Symbol32(FiveValue([BitOf(b, 5 * k), BitOf(b, 5 * k + 1), BitOf(b, 5 * k + 2), BitOf(b, 5 * k + 3), BitOf(b, 5 * k + 4)]))
    decreases |b|
  {
    if |b| < 5 {
      assert k == 0;
    } else if k > 0 {
      OfBitsAt(b[5..], k - 1);
    }
  }

  lemma BitIs(bytes: seq<byte>, j: nat)
    ensures BitAt(bytes, j) == if BitOf(AllBits(bytes), j) then 1 else 0
  {
    if j < 8 * |bytes| {
      AllBitsAt(bytes, j);
    }
  }

  lemma FiveIs(f: bits, a: int, b: int, c: int, d: int, e: int)
    requires |f| == 5 && a == (if f[0] then 1 else 0) && b == (if f[1] then 1 else 0) && c == (if f[2] then 1 else 0)
    requires d == (if f[3] then 1 else 0) && e == if f[4] then 1 else 0
    ensures FiveValue(f) == 16 * a + 8 * b + 4 * c + 2 * d + e
  {
  }

  /** Character `k` of the Base32 text spells bits 5k to 5k + 4 of the secret, most significant first. */
  lemma Base32At(bytes: seq<byte>, k: nat)
    requires k < |Base32(bytes)|
    ensures var x := 16 * BitAt(bytes, 5 * k) + 8 * BitAt(bytes, 5 * k + 1) + 4 * BitAt(bytes, 5 * k + 2)
                     + 2 * BitAt(bytes, 5 * k + 3) + BitAt(bytes, 5 * k + 4);
            0 <= x < 32 && Base32(bytes)[k] == Symbol32(x)
    ensures |Base32(bytes)| == (8 * |bytes| + 4) / 5
  {
    var b := AllBits(bytes);
    Base32Length(b);
    OfBitsAt(b, k);
    BitIs(bytes, 5 * k);
    BitIs(bytes, 5 * k + 1);
    BitIs(bytes, 5 * k + 2);
    BitIs(bytes, 5 * k + 3);
    BitIs(bytes, 5 * k + 4);
    FiveIs([BitOf(b, 5 * k), BitOf(b, 5 * k + 1), BitOf(b, 5 * k + 2), BitOf(b, 5 * k + 3), BitOf(b, 5 * k + 4)],
           BitAt(bytes, 5 * k), BitAt(bytes, 5 * k + 1), BitAt(bytes, 5 * k + 2), BitAt(bytes, 5 * k + 3),
           BitAt(bytes, 5 * k + 4));
  }

  // The URI.

  const SCHEME := "otpauth://totp/"
  const TAIL := "&period=30&digits=6&algorithm=SHA1"

  function ProvisioningUri(secret: seq<byte>, account: seq<byte>, issuer: seq<byte>): string {
    SCHEME + (PercentEncoded(issuer) + ":" + (PercentEncoded(account) + "?" + ("secret=" +
    (Base32(secret) + "&" + ("issuer=" + PercentEncoded(issuer) + TAIL)))))
  }

  /** Different secrets, accounts or issuers never give the same URI. */
  lemma UriDeterminesInputs(secret: seq<byte>, account: seq<byte>, issuer: seq<byte>,
                            otherSecret: seq<byte>, otherAccount: seq<byte>, otherIssuer: seq<byte>)
    requires ProvisioningUri(secret, account, issuer) == ProvisioningUri(otherSecret, otherAccount, otherIssuer)
    ensures secret == otherSecret && account == otherAccount && issuer == otherIssuer
  {
    var i, i' := PercentEncoded(issuer), PercentEncoded(otherIssuer);
    var a, a' := PercentEncoded(account), PercentEncoded(otherAccount);
    var s, s' := Base32(secret), Base32(otherSecret);
    var z, z' := "issuer=" + i + TAIL, "issuer=" + i' + TAIL;
    var y, y' := s + "&" + z, s' + "&" + z';
    var x, x' := a + "?" + ("secret=" + y), a' + "?" + ("secret=" + y');
    Plain(issuer, account, secret);
    Plain(otherIssuer, otherAccount, otherSecret);
    DropSame(SCHEME, i + ":" + x, i' + ":" + x');
    CutAt(i, x, i', x', ':');
    CutAt(a, "secret=" + y, a', "secret=" + y', '?');
    DropSame("secret=", y, y');
    CutAt(s, z, s', z', '&');
    Base32Injective(secret, otherSecret);
    PercentRoundTrip(issuer);
    PercentRoundTrip(otherIssuer);
    PercentRoundTrip(account);
    PercentRoundTrip(otherAccount);
  }

  lemma TwoPieces(a: string, b: string, d: char)
    requires d !in a && d !in b
    ensures Split(a + [d] + b, d) == [a, b]
  {
    SplitJoined(a, b, d);
    SplitSingle(a, d);
    SplitSingle(b, d);
  }

  lemma OnePieceMore(a: string, b: string, d: char)
    requires d !in a
    ensures Split(a + [d] + b, d) == [a] + Split(b, d)
  {
    SplitJoined(a, b, d);
    SplitSingle(a, d);
  }

  lemma FivePieces(a: string, b: string, c: string, e: string, f: string, d: char)
    requires d !in a && d !in b && d !in c && d !in e && d !in f
    ensures Split(a + [d] + (b + [d] + (c + [d] + (e + [d] + f))), d) == [a, b, c, e, f]
  {
    TwoPieces(e, f, d);
    OnePieceMore(c, e + [d] + f, d);
    OnePieceMore(b, c + [d] + (e + [d] + f), d);
    OnePieceMore(a, b + [d] + (c + [d] + (e + [d] + f)), d);
  }

  /** The query of the URI, parameter by parameter. */
  function Query(i: string, s: string): string {
    ("secret=" + s) + ['&'] + (("issuer=" + i) + ['&'] + ("period=30" + ['&'] + ("digits=6" + ['&'] + "algorithm=SHA1")))
  }

  lemma TailIs()
    ensures TAIL == ['&'] + ("period=30" + ['&'] + ("digits=6" + ['&'] + "algorithm=SHA1"))
  {
  }

  lemma Regroup(a: string, b: string, c: string, e: string, t: string)
    ensures a + (b + "&" + (c + e + (['&'] + t))) == (a + b) + ['&'] + ((c + e) + ['&'] + t)
  {
  }

  lemma QueryIs(i: string, s: string)
    ensures "secret=" + (s + "&" + ("issuer=" + i + TAIL)) == Query(i, s)
  {
    TailIs();
    Regroup("secret=", s, "issuer=", i, "period=30" + ['&'] + ("digits=6" + ['&'] + "algorithm=SHA1"));
  }

  lemma QueryIsPlain(i: string, s: string)
    requires '?' !in i && '?' !in s
    ensures '?' !in Query(i, s)
  {
  }

  lemma LabelFirst(i: string, a: string, q: string)
    ensures i + ":" + (a + "?" + q) == (i + [':'] + a) + ['?'] + q
  {
  }

  lemma PlainPieces(issuer: seq<byte>, account: seq<byte>, secret: seq<byte>)
    ensures var i, a, s := PercentEncoded(issuer), PercentEncoded(account), Base32(secret);
            && ':' !in i && '?' !in i && '&' !in i && ':' !in a && '?' !in a && '?' !in s && '&' !in s
  {
    PercentIsPlain(issuer);
    PercentIsPlain(account);
    Base32IsPlain(AllBits(secret));
  }

  lemma QueryReads(i: string, s: string)
    requires '&' !in i && '&' !in s
    ensures Split(Query(i, s), '&') == ["secret=" + s, "issuer=" + i, "period=30", "digits=6", "algorithm=SHA1"]
  {
    FivePieces("secret=" + s, "issuer=" + i, "period=30", "digits=6", "algorithm=SHA1", '&');
  }

  /** What a reader of the URI finds: the issuer and the account in the label, and the secret, the issuer and the
      fixed parameters in the query. */
  lemma UriReads(secret: seq<byte>, account: seq<byte>, issuer: seq<byte>)
    ensures var uri := ProvisioningUri(secret, account, issuer);
            && "otpauth://totp/" <= uri
            && var parts := Split(uri[|"otpauth://totp/"|..], '?');
               && |parts| == 2
               && var named := Split(parts[0], ':');
                  && |named| == 2
                  && PercentDecoded(named[0]) == Some(issuer) && PercentDecoded(named[1]) == Some(account)
                  && Split(parts[1], '&') ==
                     ["secret=" + Base32(secret), "issuer=" + named[0], "period=30", "digits=6", "algorithm=SHA1"]
  {
    var i, a, s := PercentEncoded(issuer), PercentEncoded(account), Base32(secret);
    PlainPieces(issuer, account, secret);
    QueryIs(i, s);
    LabelFirst(i, a, Query(i, s));
    QueryIsPlain(i, s);
    TwoPieces(i + [':'] + a, Query(i, s), '?');
    TwoPieces(i, a, ':');
    QueryReads(i, s);
    PercentRoundTrip(issuer);
    PercentRoundTrip(account);
    var rest := (i + [':'] + a) + ['?'] + Query(i, s);
    assert ProvisioningUri(secret, account, issuer) == "otpauth://totp/" + rest;
    assert ("otpauth://totp/" + rest)[|"otpauth://totp/"|..] == rest;
  }

  lemma Plain(issuer: seq<byte>, account: seq<byte>, secret: seq<byte>)
    ensures ':' !in PercentEncoded(issuer) && '?' !in PercentEncoded(account) && '&' !in Base32(secret)
  {
    PercentIsPlain(issuer);
    PercentIsPlain(account);
    Base32IsPlain(AllBits(secret));
  }
}
