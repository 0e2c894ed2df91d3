/**
 HMAC-based one-time codes (RFC 4226).  HMAC-SHA1 is a parameter: any function from keys
 and messages to 20 bytes.  The rest is exact: the counter's eight bytes, the dynamic
 truncation and the six digits.
 */
module Hotp {
  import opened Prelude
  import opened Words

  type Mac = (seq<int>, seq<int>) -> seq<int>

  const DIGITS := 6
  const DIVISOR := 1000000

  ghost predicate IsDigest(digest: seq<int>) {
    |digest| == 20 && forall i :: 0 <= i < 20 ==> 0 <= digest[i] < 256
  }

  ghost predicate IsMac(mac: Mac) {
    forall key, message :: IsDigest(mac(key, message))
  }

  // ------------------------------------------------------------------ the counter

  /** The 64 bits of the counter, eight at a time. */
  function BigEndian(counter: int): (r: seq<int>)
    ensures |r| == 8
  {
    seq(8, i requires 0 <= i < 8 => ByteAt(counter, 7 - i))
  }

  function ByteAt(counter: int, k: nat): nat {
    Low(Shr(counter, 8 * k), 8)
  }

  method CounterBytes(counter: int) returns (bytes: array<int>)
    ensures fresh(bytes) && bytes[..] == BigEndian(counter)
  {
    bytes := new int[8];
    var rest := counter;
    for i := 8 downto 0
      invariant rest == Shr(counter, 8 * (8 - i))
      invariant forall k :: i <= k < 8 ==> bytes[k] == ByteAt(counter, 7 - k)
    {
      var byte, shifted := NextByte(counter, rest, 7 - i);
      bytes[i] := byte;
      rest := shifted;
      assert forall k :: i < k < 8 ==> bytes[k] == ByteAt(counter, 7 - k);
    }
    AllBytes(bytes[..], counter);
  }

  lemma {:induction false} AllBytes(bytes: seq<int>, counter: int)
    requires |bytes| == 8 && forall k :: 0 <= k < 8 ==> bytes[k] == ByteAt(counter, 7 - k)
    ensures bytes == BigEndian(counter)
  {
  }

  /** `counter & 0xFF`, and the counter shifted right. */
  method NextByte(ghost counter: int, rest: int, ghost k: nat) returns (byte: int, shifted: int)
    requires rest == Shr(counter, 8 * k)
    ensures byte == ByteAt(counter, k) && shifted == Shr(counter, 8 * (k + 1))
  {
    assert Pow2(8) == 256;
    byte := LowBits(rest, 0xFF, 8);
    shifted := ShiftOctet(rest);
    ShrShr(counter, 8 * k, 8);
  }

  method ShiftOctet(x: int) returns (r: int)
    ensures r == Shr(x, 8)
  {
    r := Shr(x, 8);
  }

  /** `x & mask` for a mask of `k` ones. */
  method LowBits(x: int, mask: nat, ghost k: nat) returns (r: nat)
    requires mask == Pow2(k) - 1
    ensures r == Low(x, k) <= mask
  {
    AndMask(x, k);
    r := And(x, mask);
  }

  lemma {:induction false} ShrShr(x: int, a: nat, b: nat)
    ensures Shr(Shr(x, a), b) == Shr(x, a + b)
    decreases a
  {
    if a > 0 { ShrShr(x / 2, a - 1, b); }
  }

  /** The eight bytes are the counter, most significant bit first. */
  lemma {:induction false} CounterBits(counter: int)
    ensures Stream(BigEndian(counter), 8) == Bits(counter, 64)
  {
    LeadingBytes(counter, 8);
    assert BigEndian(counter)[..8] == BigEndian(counter);
    assert Shr(counter, 0) == counter;
  }

  lemma {:induction false} LeadingBytes(counter: int, k: nat)
    requires k <= 8
    ensures Stream(BigEndian(counter)[..k], 8) == Bits(Shr(counter, 8 * (8 - k)), 8 * k)
  {
    if k > 0 {
      var x := Shr(counter, 8 * (8 - k));
      LeadingBytes(counter, k - 1);
      assert BigEndian(counter)[..k] == BigEndian(counter)[..k - 1] + [ByteAt(counter, 8 - k)];
      StreamSnoc(BigEndian(counter)[..k - 1], ByteAt(counter, 8 - k), 8);
      ShrShr(counter, 8 * (8 - k), 8);
      BitsOfLow(x, 8, 8);
      BitsSplit(x, 8 * (k - 1), 8);
    }
  }

  // ------------------------------------------------------------------ truncation

  lemma {:induction false} ShlTimes(q: int, k: nat)
    ensures Shl(q, k) == q * Pow2(k)
    decreases k
  {
    if k > 0 {
      ShlTimes(q, k - 1);
      assert q * (2 * Pow2(k - 1)) == 2 * (q * Pow2(k - 1));
    }
  }

  /** Section 5.3 of RFC 4226: the four bytes that the digest's last four bits point at, without the sign bit. */
  ghost function Truncated(digest: seq<int>): (r: nat)
    requires IsDigest(digest)
  {
    var o := digest[19] % 16;
    Number(digest[o], digest[o + 1], digest[o + 2], digest[o + 3]) % 0x8000_0000
  }

  function Number(a: int, b: int, c: int, d: int): int {
    ((a * 256 + b) * 256 + c) * 256 + d
  }

  lemma {:induction false} SplitAt(x: int, k: nat)
    ensures x == Shl(Shr(x, k), k) + Low(x, k)
    decreases k
  {
    if k > 0 { SplitAt(x / 2, k - 1); }
  }

  method Masked(x: int, mask: nat, ghost k: nat) returns (r: nat, ghost q: int)
    requires mask == Pow2(k) - 1
    ensures r <= mask && x == q * (mask + 1) + r
  {
    r := LowBits(x, mask, k);
    q := Shr(x, k);
    SplitAt(x, k);
    ShlTimes(q, k);
  }

  method LastNibble(x: int) returns (r: nat)
    ensures r == x % 16
  {
    assert Pow2(4) == 16;
    ghost var q;
    r, q := Masked(x, 0x0F, 4);
  }

  method WithoutSign(x: int) returns (r: nat)
    ensures r == x % 128
  {
    assert Pow2(7) == 128;
    ghost var q;
    r, q := Masked(x, 0x7F, 7);
  }

  method Byte(x: int) returns (r: nat)
    ensures r == x % 256
  {
    assert Pow2(8) == 256;
    ghost var q;
    r, q := Masked(x, 0xFF, 8);
  }

  lemma {:induction false} JoinTwo(a: nat, b: nat, k: nat)
    requires b < 256
    ensures Or(Shl(a, k + 8), Shl(b, k)) == Shl(a * 256 + b, k)
  {
    assert Pow2(8) == 256;
    ShlShl(a, 8, k);
    OrShl(Shl(a, 8), b, k);
    OrFills(a, b, 8);
    assert Shl(a, 8) == a * 256;
  }

  /** `(a << 24) | (b << 16) | (c << 8) | d`, all of it `k` bits up. */
  method Joined(a: nat, b: nat, c: nat, d: nat, k: nat) returns (r: int)
    requires b < 256 && c < 256 && d < 256
    ensures r == Shl(Number(a, b, c, d), k)
  {
    JoinFour(a, b, c, d, k);
    r := Or(Or(Or(Shl(a, k + 24), Shl(b, k + 16)), Shl(c, k + 8)), Shl(d, k));
  }

  lemma {:induction false} JoinFour(a: nat, b: nat, c: nat, d: nat, k: nat)
    requires b < 256 && c < 256 && d < 256
    ensures Or(Or(Or(Shl(a, k + 24), Shl(b, k + 16)), Shl(c, k + 8)), Shl(d, k)) == Shl(Number(a, b, c, d), k)
  {
    JoinTwo(a, b, k + 16);
    JoinTwo(a * 256 + b, c, k + 8);
    JoinTwo((a * 256 + b) * 256 + c, d, k);
  }

  method Truncate(digest: seq<int>) returns (binary: nat)
    requires IsDigest(digest)
    ensures binary == Truncated(digest)
  {
    var offset := LastNibble(digest[19]);
    var a := WithoutSign(digest[offset]);
    var b := Byte(digest[offset + 1]);
    var c := Byte(digest[offset + 2]);
    var d := Byte(digest[offset + 3]);
    binary := Joined(a, b, c, d, 0);
    DropSign(digest[offset], b, c, d);
  }

  lemma {:induction false} DropSign(a: nat, b: nat, c: nat, d: nat)
    requires a < 256 && b < 256 && c < 256 && d < 256
    ensures Number(a % 128, b, c, d) == Number(a, b, c, d) % 0x8000_0000
  {
  }

  /** The code at a counter: the truncated digest's last six decimal digits. */
  ghost function CodeAt(mac: Mac, key: seq<int>, counter: int): (r: nat)
    requires IsMac(mac)
    ensures r < DIVISOR
  {
    Truncated(mac(key, BigEndian(counter))) % DIVISOR
  }

  method Generate(mac: Mac, key: seq<int>, counter: int) returns (code: nat)
    requires IsMac(mac)
    ensures code == CodeAt(mac, key, counter)
  {
    var bytes := CounterBytes(counter);
    var digest := mac(key, bytes[..]);
    assert IsDigest(digest);
    var binary := Truncate(digest);
    var divisor := 1;
    for i := 0 to DIGITS
      invariant divisor == Power10(i)
    {
      divisor := divisor * 10;
    }
    assert Power10(6) == DIVISOR;
    code := binary % divisor;
  }

  function Power10(k: nat): (p: nat)
    ensures p > 0
  {
    if k == 0 then 1 else Power10(k - 1) * 10
  }

  // ------------------------------------------------------------------ the six digits

  function Digit(n: nat): char
    requires n < 10
  {
    ('0' as int + n) as char
  }

  predicate IsDigit(c: char) {
    '0' <= c <= '9'
  }

  predicate AllDigits(text: string) {
    forall i :: 0 <= i < |text| ==> IsDigit(text[i])
  }

  function Decimal(n: nat): string {
    if n < 10 then [Digit(n)] else Decimal(n / 10) + [Digit(n % 10)]
  }

  /** The number that a string of digits spells. */
  ghost function Spelled(text: string): nat
    requires AllDigits(text)
  {
    if text == "" then 0 else Spelled(Front(text)) * 10 + (Last(text) as int - '0' as int)
  }

  lemma {:induction false} SpelledSnoc(text: string, n: nat)
    requires AllDigits(text) && n < 10
    ensures AllDigits(text + [Digit(n)]) && Spelled(text + [Digit(n)]) == Spelled(text) * 10 + n
  {
    assert Front(text + [Digit(n)]) == text;
  }

  lemma {:induction false} DecimalSpells(n: nat)
    ensures AllDigits(Decimal(n)) && Spelled(Decimal(n)) == n
  {
    if n < 10 {
      SpelledSnoc("", n);
      assert "" + [Digit(n)] == Decimal(n);
    } else {
      DecimalSpells(n / 10);
      SpelledSnoc(Decimal(n / 10), n % 10);
    }
  }

  lemma {:induction false} DecimalLength(n: nat, k: nat)
    requires k > 0 && n < Power10(k)
    ensures 1 <= |Decimal(n)| <= k
  {
    if n >= 10 {
      assert Power10(1) == 10;
      TenthBelow(n, Power10(k - 1));
      DecimalLength(n / 10, k - 1);
    }
  }

  lemma {:induction false} TenthBelow(n: nat, p: nat)
    requires n < p * 10
    ensures n / 10 < p
  {
  }

  function Naughts(k: nat): (r: string)
    ensures |r| == k
  {
    seq(k, _ => '0')
  }

  lemma {:induction false} LeadingZeros(k: nat, text: string)
    requires AllDigits(text)
    ensures AllDigits(Naughts(k) + text) && Spelled(Naughts(k) + text) == Spelled(text)
    decreases k + |text|
  {
    var padded := Naughts(k) + text;
    if text != "" {
      assert Front(padded) == Naughts(k) + Front(text);
      LeadingZeros(k, Front(text));
    } else if k > 0 {
      assert Front(padded) == Naughts(k - 1) + "";
      LeadingZeros(k - 1, "");
    } else {
      assert padded == "";
    }
  }

  /** `format_code`: six characters at least, zeros in front. */
  function Printed(value: nat): (r: string) {
    var digits := Decimal(value);
    if |digits| < DIGITS then Naughts(DIGITS - |digits|) + digits else digits
  }

  predicate CodeShape(code: string) {
    |code| == DIGITS && AllDigits(code)
  }

  /** A printed code has six digits and spells its number. */
  lemma {:induction false} PrintedSpells(value: nat)
    requires value < DIVISOR
    ensures CodeShape(Printed(value)) && Spelled(Printed(value)) == value
  {
    assert Power10(6) == DIVISOR;
    DecimalSpells(value);
    DecimalLength(value, 6);
    LeadingZeros(DIGITS - |Decimal(value)|, Decimal(value));
    assert Naughts(0) + Decimal(value) == Decimal(value);
  }

  /** Different numbers are printed differently, and every six digits are a code. */
  lemma {:induction false} EveryShapeIsPrinted(code: string)
    requires CodeShape(code)
    ensures Spelled(code) < DIVISOR && Printed(Spelled(code)) == code
  {
    SpelledBound(code);
    assert Power10(6) == DIVISOR;
    PrintedSpells(Spelled(code));
    SpellingIsUnique(Printed(Spelled(code)), code);
  }

  lemma {:induction false} SpelledBound(text: string)
    requires AllDigits(text)
    ensures Spelled(text) < Power10(|text|)
  {
    if text != "" {
      assert IsDigit(Last(text));
      SpelledBound(Front(text));
    }
  }

  /** As many digits and the same number: the same text. */
  lemma {:induction false} SpellingIsUnique(a: string, b: string)
    requires AllDigits(a) && AllDigits(b) && |a| == |b| && Spelled(a) == Spelled(b)
    ensures a == b
  {
    if a != "" {
      assert IsDigit(Last(a)) && IsDigit(Last(b));
      SpellingIsUnique(Front(a), Front(b));
      SnocEqual(a, b);
    }
  }

  // ------------------------------------------------------------------ the truncation, bit by bit

  lemma {:induction false} NumberBits(a: nat, b: nat, c: nat, d: nat)
    requires b < 256 && c < 256 && d < 256
    ensures Bits(Number(a, b, c, d), 32) == Bits(a, 8) + Bits(b, 8) + Bits(c, 8) + Bits(d, 8)
  {
    assert Pow2(8) == 256;
    ShlTimes(a, 8);
    ShlTimes(a * 256 + b, 8);
    ShlTimes((a * 256 + b) * 256 + c, 8);
    BitsOfSum(a, b, 8, 8);
    BitsOfSum(a * 256 + b, c, 16, 8);
    BitsOfSum((a * 256 + b) * 256 + c, d, 24, 8);
  }

  lemma {:induction false} TwoToThe31()
    ensures Pow2(31) == 0x8000_0000
  {
    assert Pow2(8) == 0x100;
    assert Pow2(16) == 0x1_0000;
    assert Pow2(24) == 0x100_0000;
  }

  lemma {:induction false} RestBelow(x: nat, q: int, r: nat)
    requires x == q * 0x8000_0000 + r && r < 0x8000_0000
    ensures x % 0x8000_0000 == r
  {
  }

  lemma {:induction false} LowIsRest(x: nat)
    ensures Low(x, 31) == x % 0x8000_0000
  {
    TwoToThe31();
    SplitAt(x, 31);
    ShlTimes(Shr(x, 31), 31);
    RestBelow(x, Shr(x, 31), Low(x, 31));
  }

  /** Without the highest of 32 bits. */
  lemma {:induction false} LowerBits(x: nat)
    ensures Bits(x % 0x8000_0000, 31) == Bits(x, 32)[1..]
  {
    LowIsRest(x);
    BitsOfLow(x, 31, 31);
    BitsSplit(x, 1, 31);
  }

  /** The four bits at the end of the digest point at four bytes, and the code is made of these bytes' bits but the first. */
  lemma {:induction false} TruncatedBits(digest: seq<int>, o: nat)
    requires IsDigest(digest) && o < 16 && Bits(o, 4) == Bits(digest[19], 8)[4..]
    ensures Bits(Truncated(digest), 31) == (Bits(digest[o], 8) + Bits(digest[o + 1], 8) + Bits(digest[o + 2], 8) + Bits(digest[o + 3], 8))[1..]
    ensures Truncated(digest) < 0x8000_0000
  {
    LastFour(digest[19], o);
    NumberBits(digest[o], digest[o + 1], digest[o + 2], digest[o + 3]);
    LowerBits(Number(digest[o], digest[o + 1], digest[o + 2], digest[o + 3]));
  }

  lemma {:induction false} LowNibble(x: nat)
    ensures Low(x, 4) == x % 16 < Pow2(4)
  {
    assert Pow2(4) == 16;
    SplitAt(x, 4);
    ShlTimes(Shr(x, 4), 4);
    RestOfSixteen(x, Shr(x, 4), Low(x, 4));
  }

  lemma {:induction false} RestOfSixteen(x: nat, q: int, r: nat)
    requires x == q * 16 + r && r < 16
    ensures x % 16 == r
  {
  }

  lemma {:induction false} LastFour(x: nat, o: nat)
    requires o < 16 && Bits(o, 4) == Bits(x, 8)[4..]
    ensures x % 16 == o
  {
    LowNibble(x);
    LowNibble(o);
    BitsSplit(x, 4, 4);
    BitsOfLow(x, 4, 4);
    BitsInjective(Low(x, 4), o, 4);
  }

  /** The example of section 5.4 of RFC 4226. */
  lemma {:induction false} RfcExample()
    ensures Truncated([0x1f, 0x86, 0x98, 0x69, 0x0e, 0x02, 0xca, 0x16, 0x61, 0x85, 0x50, 0xef, 0x7f, 0x19, 0xda, 0x8e, 0x94, 0x5b, 0x55, 0x5a]) == 0x50ef7f19
    ensures 0x50ef7f19 % 1000000 == 872921
  {
  }
}
