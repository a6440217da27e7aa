/**
 One-time passwords after RFC 4226 and RFC 6238. The keyed hash is a function; its digests have the
 twenty bytes of HMAC-SHA1.
 */
module Totp {
  import opened Prelude
  import Bits

  type Digest = s: seq<byte> | |s| == 20 witness seq(20, _ => 0)
  type Mac = (seq<byte>, u64) -> Digest

  const STEP_SECS := 30
  const DIGITS := 6
  const MAX_WINDOW := 2
  const MASK7: nat := 0x7f
  const MASK4: nat := 0x0f

  // Truncation.

  /** The four-byte window the low nibble of the last byte selects. */
  function Offset(hash: Digest): (offset: nat)
    ensures offset == hash[19] % 16 && offset + 3 <= 18
  {
    Bits.Powers();
    Bits.AndMask(hash[19], 4);
    Bits.And(hash[19], MASK4)
  }

  /** Dynamic truncation: mask, shift and or. */
  function Truncated(hash: Digest): nat {
    var o := Offset(hash);
    Bits.Or(Bits.Or(Bits.Or(Bits.Shl32(Bits.And(hash[o], MASK7), 24), Bits.Shl32(hash[o + 1], 16)),
                    Bits.Shl32(hash[o + 2], 8)),
            hash[o + 3])
  }

  /** An unsigned integer, most significant byte first. */
  function BigEndian(bytes: seq<byte>): nat {
    if bytes == [] then 0 else BigEndian(bytes[..|bytes| - 1]) * 256 + bytes[|bytes| - 1]
  }

  lemma BigEndianOfFour(a: byte, b: byte, c: byte, d: byte)
    ensures BigEndian([a, b, c, d]) == a * 16777216 + b * 65536 + c * 256 + d
  {
    var w := [a, b, c, d];
    assert w[..3] == [a, b, c] && [a, b, c][..2] == [a, b] && [a, b][..1] == [a] && [a][..0] == [];
    assert BigEndian([a]) == a;
    assert BigEndian([a, b]) == a * 256 + b;
    assert BigEndian([a, b, c]) == (a * 256 + b) * 256 + c;
  }

  lemma Masked(a: nat)
    ensures Bits.And(a, MASK7) == a % 128
  {
    Bits.Powers();
    Bits.AndMask(a, 7);
  }

  lemma Shifted(top: nat, b: nat, c: nat)
    requires top < 128 && b < 256 && c < 256
    ensures Bits.Shl32(top, 24) == top * 16777216 && Bits.Shl32(b, 16) == b * 65536 && Bits.Shl32(c, 8) == c * 256
  {
    Bits.Powers();
  }

  // Or-ing the next byte in below what is already there.

  lemma Second(top: nat, b: nat)
    requires b < 256
    ensures Bits.Or(top * 16777216, b * 65536) == (top * 256 + b) * 65536
  {
    Bits.Powers();
    Bits.OrDisjoint(top, b * 65536, 24);
  }

  lemma Third(two: nat, c: nat)
    requires c < 256
    ensures Bits.Or(two * 65536, c * 256) == (two * 256 + c) * 256
  {
    Bits.Powers();
    Bits.OrDisjoint(two, c * 256, 16);
  }

  lemma Fourth(three: nat, d: nat)
    requires d < 256
    ensures Bits.Or(three * 256, d) == three * 256 + d
  {
    Bits.Powers();
    Bits.OrDisjoint(three, d, 8);
  }

  lemma TopPlaced(a: nat)
    ensures Bits.Shl32(Bits.And(a, MASK7), 24) == a % 128 * 16777216
  {
    Masked(a);
    Shifted(a % 128, 0, 0);
  }

  lemma SecondPlaced(t: nat, top: nat, b: nat)
    requires t == top * 16777216 && b < 256
    ensures Bits.Or(t, Bits.Shl32(b, 16)) == (top * 256 + b) * 65536
  {
    Shifted(0, b, 0);
    Second(top, b);
  }

  lemma ThirdPlaced(t: nat, two: nat, c: nat)
    requires t == two * 65536 && c < 256
    ensures Bits.Or(t, Bits.Shl32(c, 8)) == (two * 256 + c) * 256
  {
    Shifted(0, 0, c);
    Third(two, c);
  }

  lemma LowerPlaced(t: nat, two: nat, c: nat, d: nat)
    requires t == two * 65536 && c < 256 && d < 256
    ensures Bits.Or(Bits.Or(t, Bits.Shl32(c, 8)), d) == (two * 256 + c) * 256 + d
  {
    ThirdPlaced(t, two, c);
    Fourth(two * 256 + c, d);
  }

  lemma UpperPlaced(t: nat, top: nat, b: nat, c: nat, d: nat)
    requires t == top * 16777216 && b < 256 && c < 256 && d < 256
    ensures Bits.Or(Bits.Or(Bits.Or(t, Bits.Shl32(b, 16)), Bits.Shl32(c, 8)), d) == ((top * 256 + b) * 256 + c) * 256 + d
  {
    SecondPlaced(t, top, b);
    LowerPlaced(Bits.Or(t, Bits.Shl32(b, 16)), top * 256 + b, c, d);
  }

  /** Mask, shift and or of four bytes. */
  lemma Combined(a: nat, b: nat, c: nat, d: nat)
    requires b < 256 && c < 256 && d < 256
    ensures Bits.Or(Bits.Or(Bits.Or(Bits.Shl32(Bits.And(a, MASK7), 24), Bits.Shl32(b, 16)), Bits.Shl32(c, 8)), d) ==
            ((a % 128 * 256 + b) * 256 + c) * 256 + d
  {
    TopPlaced(a);
    UpperPlaced(Bits.Shl32(Bits.And(a, MASK7), 24), a % 128, b, c, d);
  }

  /** Truncation is the selected big-endian four-byte integer modulo 2^31 (section 5.3 of RFC 4226). */
  lemma TruncationIsModular(hash: Digest)
    ensures var o := hash[19] % 16;
            o + 4 <= 20 && Truncated(hash) == BigEndian(hash[o..o + 4]) % 0x8000_0000
  {
    var o := Offset(hash);
    var a: nat, b: nat, c: nat, d: nat := hash[o], hash[o + 1], hash[o + 2], hash[o + 3];
    TruncatedIs(hash, a, b, c, d);
    WindowIs(hash[o..o + 4], a, b, c, d);
    TopBitDropped(a, b, c, d);
  }

  lemma TruncatedIs(hash: Digest, a: nat, b: nat, c: nat, d: nat)
    requires var o := Offset(hash); [a, b, c, d] == [hash[o], hash[o + 1], hash[o + 2], hash[o + 3]]
    ensures Truncated(hash) == ((a % 128 * 256 + b) * 256 + c) * 256 + d
  {
    var o := Offset(hash);
    assert a == [a, b, c, d][0] && b == [a, b, c, d][1] && c == [a, b, c, d][2] && d == [a, b, c, d][3];
    Combined(a, b, c, d);
  }

  lemma WindowIs(window: seq<byte>, a: nat, b: nat, c: nat, d: nat)
    requires |window| == 4 && window[0] == a && window[1] == b && window[2] == c && window[3] == d
    ensures BigEndian(window) == a * 16777216 + b * 65536 + c * 256 + d
  {
    assert window == [window[0], window[1], window[2], window[3]];
    BigEndianOfFour(window[0], window[1], window[2], window[3]);
  }

  lemma TopBitDropped(a: nat, b: nat, c: nat, d: nat)
    requires b < 256 && c < 256 && d < 256
    ensures (a * 16777216 + b * 65536 + c * 256 + d) % 0x8000_0000 == ((a % 128 * 256 + b) * 256 + c) * 256 + d
  {
    var q, r := a / 128, a % 128;
    var low := ((r * 256 + b) * 256 + c) * 256 + d;
    assert a * 16777216 + b * 65536 + c * 256 + d == q * 0x8000_0000 + low;
    Bits.RemainderIs(a * 16777216 + b * 65536 + c * 256 + d, q, 0x8000_0000, low);
  }

  // Codes.

  function Power10(k: nat): (r: nat)
    ensures r > 0
  {
    if k == 0 then 1 else 10 * Power10(k - 1)
  }

  /** Ten to the number of digits, or 10^6 where that does not fit 32 bits. */
  function Modulus(digits: nat): (m: nat)
    ensures m > 0
  {
    if Power10(digits) < 0x1_0000_0000 then Power10(digits) else 1_000_000
  }

  function Hotp(mac: Mac, secret: seq<byte>, counter: u64, digits: nat): nat {
    Truncated(mac(secret, counter)) % Modulus(digits)
  }

  function TotpAt(mac: Mac, secret: seq<byte>, time: u64, step: u64, digits: nat): nat {
    Hotp(mac, secret, if step == 0 then 0 else time / step, digits)
  }

  lemma {:induction false} Power10Grows(k: nat, n: nat)
    requires k <= n
    ensures Power10(k) <= Power10(n)
  {
    if k < n {
      Power10Grows(k, n - 1);
    }
  }

  lemma Power10Values()
    ensures Power10(6) == 1_000_000 && Power10(9) == 1_000_000_000 && Power10(10) == 10_000_000_000
  {
    assert Power10(2) == 100 && Power10(4) == 10_000 && Power10(6) == 1_000_000;
    assert Power10(8) == 100_000_000 && Power10(9) == 1_000_000_000 && Power10(10) == 10_000_000_000;
  }

  /** A code has the digits asked for up to nine, and six from ten on. */
  lemma HotpRange(mac: Mac, secret: seq<byte>, counter: u64, digits: nat)
    ensures Hotp(mac, secret, counter, digits) < Power10(if digits <= 9 then digits else 6)
  {
    Power10Values();
    if digits <= 9 {
      Power10Grows(digits, 9);
    } else {
      Power10Grows(10, digits);
    }
  }

  /** The password of section 5.3 of RFC 4226: the selected four bytes, without the top bit, modulo the power of ten. */
  lemma HotpIs(mac: Mac, secret: seq<byte>, counter: u64, digits: nat)
    ensures var hash := mac(secret, counter);
            var o := hash[19] % 16;
            && o + 4 <= 20
            && Power10(if digits <= 9 then digits else 6) > 0
            && Hotp(mac, secret, counter, digits) ==
               BigEndian(hash[o..o + 4]) % 0x8000_0000 % Power10(if digits <= 9 then digits else 6)
  {
    TruncationIsModular(mac(secret, counter));
    Power10Values();
    Power10Grows(0, if digits <= 9 then digits else 6);
    if digits <= 9 {
      Power10Grows(digits, 9);
    } else {
      Power10Grows(10, digits);
    }
  }

  function Decimal(n: nat): string {
    if n < 10 then [('0' as int + n) as char] else Decimal(n / 10) + [('0' as int + n % 10) as char]
  }

  /** Filled up with zeros on the left to six characters. */
  function Padded(n: nat): string {
    var text := Decimal(n);
    if |text| < DIGITS then Zeros(DIGITS - |text|) + text else text
  }

  function Zeros(k: nat): (text: string)
    ensures |text| == k
  {
    if k == 0 then "" else ['0'] + Zeros(k - 1)
  }

  /** What a text of digits stands for. */
  function Value(text: string): int {
    if text == "" then 0 else Value(text[..|text| - 1]) * 10 + (text[|text| - 1] as int - '0' as int)
  }

  lemma {:induction false} DecimalReads(n: nat, k: nat)
    requires k > 0 && n < Power10(k)
    ensures 1 <= |Decimal(n)| <= k && Value(Decimal(n)) == n
  {
    if n >= 10 {
      DecimalReads(n / 10, k - 1);
      var text := Decimal(n);
      assert text[..|text| - 1] == Decimal(n / 10);
    } else {
      assert Value(Decimal(n)[..0]) == 0;
    }
  }

  lemma {:induction false} ZerosRead(k: nat, text: string)
    ensures Value(Zeros(k) + text) == Value(text)
  {
    if text == "" {
      assert Zeros(k) + text == Zeros(k);
      if k > 0 {
        ZerosRead(k - 1, "");
        ZerosEnd(k);
        assert Zeros(k - 1) + "" == Zeros(k - 1);
      }
    } else {
      ZerosRead(k, text[..|text| - 1]);
      assert (Zeros(k) + text)[..|Zeros(k) + text| - 1] == Zeros(k) + text[..|text| - 1];
    }
  }

  lemma {:induction false} ZerosEnd(k: nat)
    requires k > 0
    ensures Zeros(k)[k - 1] == '0' && Zeros(k)[..k - 1] == Zeros(k - 1)
  {
    if k > 1 {
      ZerosEnd(k - 1);
    }
  }

  /** Six characters that read back as the number. */
  lemma PaddedReads(n: nat)
    requires n < 1_000_000
    ensures |Padded(n)| == DIGITS && Value(Padded(n)) == n
  {
    Power10Values();
    DecimalReads(n, 6);
    ZerosRead(DIGITS - |Decimal(n)|, Decimal(n));
  }

  // Verification.

  function Min(a: int, b: int): int {
    if a < b then a else b
  }

  /** The code is the padded password of a step that is a valid counter. */
  predicate Accepts(mac: Mac, secret: seq<byte>, code: string, counter: int) {
    0 <= counter < 0x1_0000_0000_0000_0000 && Padded(Hotp(mac, secret, counter, DIGITS)) == code
  }

  predicate Verified(mac: Mac, secret: seq<byte>, code: string, time: u64, window: byte) {
    var now, w := time / STEP_SECS, Min(window, MAX_WINDOW);
    exists counter :: now - w <= counter <= now + w && Accepts(mac, secret, code, counter)
  }

  lemma OneMoreStep(mac: Mac, secret: seq<byte>, code: string, low: int, high: int)
    requires low <= high
    ensures (exists c :: low <= c < high + 1 && Accepts(mac, secret, code, c)) <==>
            Accepts(mac, secret, code, high) || exists c :: low <= c < high && Accepts(mac, secret, code, c)
  {
  }

  /** `verify`: every step of the window is tried; steps before the epoch are skipped. */
  method Verify(mac: Mac, secret: seq<byte>, code: string, time: u64, window: byte) returns (r: bool)
    ensures r <==> Verified(mac, secret, code, time, window)
    ensures r <==>
            exists counter :: time / 30 - Min(window, 2) <= counter <= time / 30 + Min(window, 2)
                              && Accepts(mac, secret, code, counter)
  {
    var now := time / STEP_SECS;
    var w := Min(window, MAX_WINDOW);
    r := false;
    for delta := -w to w + 1
      invariant r <==> exists counter :: now - w <= counter < now + delta && Accepts(mac, secret, code, counter)
    {
      var counter := now + delta;
      if 0 <= counter < 0x1_0000_0000_0000_0000 {
        var candidate := Padded(Hotp(mac, secret, counter, DIGITS));
        r := r || candidate == code;
      }
      OneMoreStep(mac, secret, code, now - w, counter);
    }
  }

  /** A code made at one time is accepted at another whenever the two steps are at most
      min(window, 2) apart. */
  lemma CodeVerifies(mac: Mac, secret: seq<byte>, made: u64, time: u64, window: byte)
    requires -Min(window, 2) <= time / 30 - made / 30 <= Min(window, 2)
    ensures Verified(mac, secret, Padded(TotpAt(mac, secret, made, STEP_SECS, DIGITS)), time, window)
  {
    assert Accepts(mac, secret, Padded(TotpAt(mac, secret, made, STEP_SECS, DIGITS)), made / STEP_SECS);
  }

  /** In seconds: thirty for each step of the window, before or after. */
  lemma CodeVerifiesInSeconds(mac: Mac, secret: seq<byte>, made: u64, time: u64, window: byte)
    requires -30 * Min(window, 2) <= time - made <= 30 * Min(window, 2)
    ensures Verified(mac, secret, Padded(TotpAt(mac, secret, made, STEP_SECS, DIGITS)), time, window)
  {
    CodeVerifies(mac, secret, made, time, window);
  }

  /** Nothing else is accepted: a code is six characters that read as the password of a step at most
      min(window, 2) away. */
  lemma AcceptedCodeReads(mac: Mac, secret: seq<byte>, code: string, time: u64, window: byte)
    requires Verified(mac, secret, code, time, window)
    ensures |code| == DIGITS
    ensures exists counter: u64 ::
              && -Min(window, MAX_WINDOW) <= counter - time / STEP_SECS <= Min(window, MAX_WINDOW)
              && Value(code) == Hotp(mac, secret, counter, DIGITS)
  {
    var now, w := time / STEP_SECS, Min(window, MAX_WINDOW);
    var counter :| now - w <= counter <= now + w && Accepts(mac, secret, code, counter);
    HotpRange(mac, secret, counter, DIGITS);
    Power10Values();
    PaddedReads(Hotp(mac, secret, counter, DIGITS));
  }
}
