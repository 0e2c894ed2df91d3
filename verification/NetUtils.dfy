/**
 Matching an address against a CIDR range, byte by byte and with a mask for the last
 partial byte.  `MatchesFirstBits` says it compares exactly the first `prefixLen` bits,
 and `MatchesAsNumbers` that this is the usual arithmetic on the address as one number.
 */
module NetUtils {
  import opened Prelude
  import opened Words

  datatype Address = V4(bytes: seq<int>) | V6(bytes: seq<int>)

  datatype CidrRange = CidrRange(prefix: Address, prefixLen: nat, text: string)

  function Size(a: Address): nat {
    if a.V4? then 4 else 16
  }

  ghost predicate ValidAddress(a: Address) {
    |a.bytes| == Size(a) && Within(a.bytes, 8)
  }

  ghost predicate ValidRange(r: CidrRange) {
    ValidAddress(r.prefix) && r.prefixLen <= 8 * Size(r.prefix)
  }

  /** The mask of the partial byte, as an unsigned char. */
  function Mask(remainingBits: nat): nat {
    And(Shr(0xFF00, remainingBits), 0xFF)
  }

  predicate PrefixMatches(a: seq<int>, b: seq<int>, prefixLen: nat)
    requires |a| == |b| && prefixLen <= 8 * |a|
  {
    var full, rest := prefixLen / 8, prefixLen % 8;
    a[..full] == b[..full] && (rest == 0 || And(a[full], Mask(rest)) == And(b[full], Mask(rest)))
  }

  method MatchPrefix(a: seq<int>, b: seq<int>, prefixLen: nat) returns (matches: bool)
    requires |a| == |b| && prefixLen <= 8 * |a|
    ensures matches == PrefixMatches(a, b, prefixLen)
  {
    var fullBytes := prefixLen / 8;
    var remainingBits := prefixLen % 8;
    for i := 0 to fullBytes
      invariant a[..i] == b[..i]
    {
      if a[i] != b[i] {
        assert a[..fullBytes][i] != b[..fullBytes][i];
        return false;
      }
    }
    if remainingBits == 0 {
      return true;
    }
    var mask := Mask(remainingBits);
    return And(a[fullBytes], mask) == And(b[fullBytes], mask);
  }

  predicate AddressInCidr(address: Address, range: CidrRange)
    requires |address.bytes| == Size(address) && |range.prefix.bytes| == Size(range.prefix)
    requires range.prefixLen <= 8 * Size(range.prefix)
  {
    if address.V4? == range.prefix.V4? then PrefixMatches(address.bytes, range.prefix.bytes, range.prefixLen) else false
  }

  // ------------------------------------------------------------------ parsing a range

  function IndexOfSlash(text: string, i: nat): (r: nat)
    requires i <= |text|
    ensures i <= r <= |text| && (r < |text| ==> text[r] == '/') && forall k :: i <= k < r ==> text[k] != '/'
    decreases |text| - i
  {
    if i < |text| && text[i] != '/' then IndexOfSlash(text, i + 1) else i
  }

  predicate AllDigits(s: string) {
    forall i :: 0 <= i < |s| ==> '0' <= s[i] <= '9'
  }

  function DigitsValue(s: string): nat
    requires AllDigits(s)
  {
    if s == "" then 0 else 10 * DigitsValue(Front(s)) + (Last(s) as int - '0' as int)
  }

  /** A whole string of digits that fits an unsigned int. */
  function ParseUnsigned(s: string): Option<nat> {
    if s != "" && AllDigits(s) && DigitsValue(s) < TWO_32 then Some(DigitsValue(s)) else None
  }

  /** `parse` is the address parser of the network library. */
  function ParseCidr(text: string, parse: string -> Option<Address>): Option<CidrRange> {
    var slash := IndexOfSlash(text, 0);
    if slash == |text| then None
    else match parse(text[..slash])
         case None => None
         case Some(address) =>
           match ParseUnsigned(text[slash + 1..])
           case None => None
           case Some(prefixLen) =>
             if prefixLen > (if address.V4? then 32 else 128) then None else Some(CidrRange(address, prefixLen, text))
  }

  /** Every range that parses can be matched against: the prefix length never reaches past the address. */
  lemma {:induction false} ParsedRangeIsValid(text: string, parse: string -> Option<Address>)
    requires forall s :: parse(s).Some? ==> ValidAddress(parse(s).value)
    ensures ParseCidr(text, parse).Some? ==>
              var range := ParseCidr(text, parse).value;
              ValidRange(range) && range.text == text && exists i :: 0 <= i < |text| && text[i] == '/' && parse(text[..i]) == Some(range.prefix)
                                                                  && ParseUnsigned(text[i + 1..]) == Some(range.prefixLen)
  {
    var i := IndexOfSlash(text, 0);
    if i < |text| { assert text[i] == '/'; }
  }

  // ------------------------------------------------------------------ what a match means

  lemma {:induction false} AndShl(x: int, m: nat, k: nat)
    ensures Shl(m, k) >= 0
    ensures And(x, Shl(m, k)) == Shl(And(Shr(x, k), m), k)
    decreases k
  {
    if k > 0 {
      AndShl(x / 2, m, k - 1);
      if Shl(m, k) == 0 { AndZero(Shr(x, k), m, k); }
    }
  }

  lemma {:induction false} AndZero(y: int, m: nat, k: nat)
    requires Shl(m, k) == 0
    ensures m == 0
    decreases k
  {
    if k > 0 { AndZero(y, m, k - 1); }
  }

  lemma {:induction false} ShrOfShl(m: int, k: nat, r: nat)
    requires r <= k
    ensures Shr(Shl(m, k), r) == Shl(m, k - r)
    decreases r
  {
    if r > 0 { ShrOfShl(m, k - 1, r - 1); }
  }

  lemma {:induction false} LowOfShl(m: int, w: nat, k: nat)
    ensures Low(Shl(m, k), w + k) == Shl(Low(m, w), k)
    decreases k
  {
    if k > 0 { LowOfShl(m, w, k - 1); }
  }

  lemma {:induction false} LowOfOnes(n: nat, w: nat)
    requires w <= n
    ensures Low(Pow2(n) - 1, w) == Pow2(w) - 1
    decreases w
  {
    if w > 0 {
      var half := Pow2(n - 1);
      assert Pow2(n) == 2 * half && (2 * half - 1) / 2 == half - 1 && (2 * half - 1) % 2 == 1;
      LowOfOnes(n - 1, w - 1);
    }
  }

  lemma {:induction false} MaskIsHighBits(r: nat)
    requires 1 <= r <= 7
    ensures Mask(r) == Shl(Pow2(r) - 1, 8 - r)
  {
    assert 0xFF00 == Shl(0xFF, 8) && 0xFF == Pow2(8) - 1;
    ShrOfShl(0xFF, 8, r);
    AndMask(Shl(0xFF, 8 - r), 8);
    LowOfShl(0xFF, r, 8 - r);
    LowOfOnes(8, r);
  }

  lemma {:induction false} ShlInjective(x: int, y: int, k: nat)
    requires Shl(x, k) == Shl(y, k)
    ensures x == y
    decreases k
  {
    if k > 0 { ShlInjective(x, y, k - 1); }
  }

  lemma {:induction false} ShrBound(x: nat, m: nat, n: nat)
    requires x < Pow2(m + n)
    ensures 0 <= Shr(x, n) < Pow2(m)
    decreases n
  {
    if n > 0 { ShrBound(x / 2, m, n - 1); }
  }

  /** Dropping the low `n` bits and comparing is comparing the bits above them. */
  lemma {:induction false} ShrComparesHighBits(x: nat, y: nat, m: nat, n: nat)
    requires x < Pow2(m + n) && y < Pow2(m + n)
    ensures Shr(x, n) == Shr(y, n) <==> Bits(x, m + n)[..m] == Bits(y, m + n)[..m]
  {
    BitsSplit(x, m, n);
    BitsSplit(y, m, n);
    ShrBound(x, m, n);
    ShrBound(y, m, n);
    assert Bits(x, m + n)[..m] == Bits(Shr(x, n), m) && Bits(y, m + n)[..m] == Bits(Shr(y, n), m);
    if Bits(Shr(x, n), m) == Bits(Shr(y, n), m) { BitsInjective(Shr(x, n), Shr(y, n), m); }
  }

  lemma {:induction false} MaskedByte(x: nat, r: nat)
    requires x < Pow2(8) && 1 <= r <= 7
    ensures And(x, Mask(r)) == Shl(Shr(x, 8 - r), 8 - r)
  {
    MaskIsHighBits(r);
    AndShl(x, Pow2(r) - 1, 8 - r);
    AndMask(Shr(x, 8 - r), r);
    ShrBound(x, r, 8 - r);
    LowOfSmall(Shr(x, 8 - r), r);
  }

  lemma {:induction false} MaskedByteComparesHighBits(x: nat, y: nat, r: nat)
    requires x < Pow2(8) && y < Pow2(8) && 1 <= r <= 7
    ensures And(x, Mask(r)) == And(y, Mask(r)) <==> Bits(x, 8)[..r] == Bits(y, 8)[..r]
  {
    MaskedByte(x, r);
    MaskedByte(y, r);
    if And(x, Mask(r)) == And(y, Mask(r)) { ShlInjective(Shr(x, 8 - r), Shr(y, 8 - r), 8 - r); }
    ShrComparesHighBits(x, y, r, 8 - r);
  }

  lemma {:induction false} StreamPrefix(a: seq<int>, n: nat)
    requires n <= |a|
    ensures 8 * n <= |Stream(a, 8)| && Stream(a, 8)[..8 * n] == Stream(a[..n], 8)
  {
    StreamLength(a, 8);
    if n == |a| {
      assert a[..n] == a;
      assert Stream(a, 8)[..8 * n] == Stream(a, 8);
    } else {
      StreamPrefix(Front(a), n);
      assert Front(a)[..n] == a[..n];
      StreamLength(Front(a), 8);
      assert Stream(a, 8)[..8 * n] == Stream(Front(a), 8)[..8 * n];
    }
  }

  /** The bits of `a` up to the middle of byte `n`. */
  lemma {:induction false} StreamMiddle(a: seq<int>, n: nat, r: nat)
    requires n < |a| && r < 8
    ensures 8 * n + r <= |Stream(a, 8)| && Stream(a, 8)[..8 * n + r] == Stream(a[..n], 8) + Bits(a[n], 8)[..r]
  {
    StreamPrefix(a, n + 1);
    StreamLength(a[..n], 8);
    assert Front(a[..n + 1]) == a[..n];
    assert Stream(a, 8)[..8 * n + r] == Stream(a, 8)[..8 * (n + 1)][..8 * n + r];
  }

  /** The byte-and-mask loop compares exactly the first `p` bits of the two addresses. */
  lemma {:induction false} MatchesFirstBits(a: seq<int>, b: seq<int>, p: nat)
    requires |a| == |b| && p <= 8 * |a| && Within(a, 8) && Within(b, 8)
    ensures p <= |Stream(a, 8)| && p <= |Stream(b, 8)|
    ensures PrefixMatches(a, b, p) <==> Stream(a, 8)[..p] == Stream(b, 8)[..p]
  {
    var n, r := p / 8, p % 8;
    if r == 0 {
      StreamPrefix(a, n);
      StreamPrefix(b, n);
      WholeBytes(a[..n], b[..n]);
    } else {
      MatchesIntoByte(a, b, n, r);
    }
  }

  lemma {:induction false} MatchesIntoByte(a: seq<int>, b: seq<int>, n: nat, r: nat)
    requires |a| == |b| && n < |a| && 1 <= r <= 7 && Within(a, 8) && Within(b, 8)
    ensures var p := 8 * n + r;
            && p <= |Stream(a, 8)| && p <= |Stream(b, 8)|
            && (a[..n] == b[..n] && And(a[n], Mask(r)) == And(b[n], Mask(r)) <==> Stream(a, 8)[..p] == Stream(b, 8)[..p])
  {
    StreamMiddle(a, n, r);
    StreamMiddle(b, n, r);
    PartialByte(a[..n], a[n], b[..n], b[n], r);
  }

  lemma {:induction false} PartialByte(a: seq<int>, x: int, b: seq<int>, y: int, r: nat)
    requires |a| == |b| && Within(a, 8) && Within(b, 8) && 0 <= x < Pow2(8) && 0 <= y < Pow2(8) && 1 <= r <= 7
    ensures a == b && And(x, Mask(r)) == And(y, Mask(r)) <==> Stream(a, 8) + Bits(x, 8)[..r] == Stream(b, 8) + Bits(y, 8)[..r]
  {
    WholeBytes(a, b);
    MaskedByteComparesHighBits(x, y, r);
    StreamLength(a, 8);
    StreamLength(b, 8);
    var xs, ys := Bits(x, 8)[..r], Bits(y, 8)[..r];
    if Stream(a, 8) + xs == Stream(b, 8) + ys { SplitEqual(Stream(a, 8), xs, Stream(b, 8), ys); }
  }

  lemma {:induction false} WholeBytes(a: seq<int>, b: seq<int>)
    requires |a| == |b| && Within(a, 8) && Within(b, 8)
    ensures a == b <==> Stream(a, 8) == Stream(b, 8)
  {
    if Stream(a, 8) == Stream(b, 8) { StreamInjective(a, b, 8); }
  }

  /** The address as one big-endian number. */
  function Value(a: seq<int>): int {
    if a == [] then 0 else Shl(Value(Front(a)), 8) + Last(a)
  }

  lemma {:induction false} ValueBits(a: seq<int>)
    requires Within(a, 8)
    ensures 0 <= Value(a) < Pow2(8 * |a|) && Bits(Value(a), 8 * |a|) == Stream(a, 8)
  {
    if a != [] {
      assert 0 <= a[|a| - 1] < Pow2(8);
      ValueBits(Front(a));
      ValueSnoc(Front(a), Last(a));
      assert a == Front(a) + [Last(a)];
    }
  }

  lemma {:induction false} ValueSnoc(a: seq<int>, x: nat)
    requires 0 <= Value(a) < Pow2(8 * |a|) && Bits(Value(a), 8 * |a|) == Stream(a, 8) && x < Pow2(8)
    ensures 0 <= Value(a + [x]) < Pow2(8 * |a| + 8) && Bits(Value(a + [x]), 8 * |a| + 8) == Stream(a + [x], 8)
  {
    assert Front(a + [x]) == a;
    NextByte(Value(a), x, 8 * |a|);
  }

  lemma {:induction false} NextByte(value: nat, x: nat, n: nat)
    requires value < Pow2(n) && x < Pow2(8)
    ensures 0 <= Shl(value, 8) + x < Pow2(n + 8) && Bits(Shl(value, 8) + x, n + 8) == Bits(value, n) + Bits(x, 8)
  {
    ShlBound(value, n, x, 8);
    BitsOfSum(value, x, n, 8);
  }

  lemma {:induction false} ShlBound(x: nat, m: nat, y: nat, n: nat)
    requires x < Pow2(m) && y < Pow2(n)
    ensures 0 <= Shl(x, n) + y < Pow2(m + n)
    decreases n
  {
    if n > 0 { ShlBound(x, m, y / 2, n - 1); }
  }

  /** Equivalently: the two numbers agree after the low bits are shifted out. */
  lemma {:induction false} MatchesAsNumbers(a: seq<int>, b: seq<int>, p: nat)
    requires |a| == |b| && p <= 8 * |a| && Within(a, 8) && Within(b, 8)
    ensures PrefixMatches(a, b, p) <==> Shr(Value(a), 8 * |a| - p) == Shr(Value(b), 8 * |b| - p)
  {
    MatchesFirstBits(a, b, p);
    StreamsAsNumbers(a, b, p);
  }

  lemma {:induction false} StreamsAsNumbers(a: seq<int>, b: seq<int>, p: nat)
    requires |a| == |b| && p <= 8 * |a| && Within(a, 8) && Within(b, 8)
    ensures |Stream(a, 8)| == |Stream(b, 8)| == 8 * |a|
    ensures Stream(a, 8)[..p] == Stream(b, 8)[..p] <==> Shr(Value(a), 8 * |a| - p) == Shr(Value(b), 8 * |b| - p)
  {
    ValueBits(a);
    ValueBits(b);
    ShrComparesHighBits(Value(a), Value(b), p, 8 * |a| - p);
  }

  /** Matching is an equivalence for each length, and a longer match implies every shorter one. */
  lemma {:induction false} PrefixLaws(a: seq<int>, b: seq<int>, c: seq<int>, p: nat, q: nat)
    requires |a| == |b| == |c| && q <= p <= 8 * |a| && Within(a, 8) && Within(b, 8) && Within(c, 8)
    ensures PrefixMatches(a, a, p)
    ensures PrefixMatches(a, b, p) ==> PrefixMatches(b, a, p) && PrefixMatches(a, b, q)
    ensures PrefixMatches(a, b, p) && PrefixMatches(b, c, p) ==> PrefixMatches(a, c, p)
  {
    MatchesFirstBits(a, b, p);
    MatchesFirstBits(a, b, q);
    MatchesFirstBits(b, c, p);
    MatchesFirstBits(a, c, p);
    MatchesFirstBits(b, a, p);
    assert Stream(a, 8)[..q] == Stream(a, 8)[..p][..q] && Stream(b, 8)[..q] == Stream(b, 8)[..p][..q];
  }

  // ------------------------------------------------------------------ the two together

  /** An address is in a range exactly if both are of one family and agree in the leading bits, as many as the range says. */
  lemma {:induction false} InCidrExactly(address: Address, range: CidrRange)
    requires ValidAddress(address) && ValidRange(range)
    ensures AddressInCidr(address, range)
       <==> address.V4? == range.prefix.V4? && |Stream(address.bytes, 8)| == |Stream(range.prefix.bytes, 8)| >= range.prefixLen
            && forall i :: 0 <= i < range.prefixLen ==> Stream(address.bytes, 8)[i] == Stream(range.prefix.bytes, 8)[i]
  {
    StreamLength(address.bytes, 8);
    StreamLength(range.prefix.bytes, 8);
    if address.V4? == range.prefix.V4? {
      MatchesFirstBits(address.bytes, range.prefix.bytes, range.prefixLen);
      FirstEqual(Stream(address.bytes, 8), Stream(range.prefix.bytes, 8), range.prefixLen);
    }
  }

  lemma {:induction false} FirstEqual<T>(a: seq<T>, b: seq<T>, n: nat)
    requires n <= |a| && n <= |b|
    ensures a[..n] == b[..n] <==> forall i :: 0 <= i < n ==> a[i] == b[i]
  {
    if a[..n] == b[..n] {
      forall i | 0 <= i < n ensures a[i] == b[i] { assert a[..n][i] == b[..n][i]; }
    }
  }

  /** `text` is an address that parses, a slash, and a decimal number of bits that the address has. */
  predicate Spells(text: string, at: nat, parse: string -> Option<Address>, range: CidrRange)
    requires at < |text|
  {
    var digits := text[at + 1..];
    && text[at] == '/' && (forall k :: 0 <= k < at ==> text[k] != '/')
    && parse(text[..at]) == Some(range.prefix)
    && digits != "" && AllDigits(digits) && DigitsValue(digits) == range.prefixLen
    && range.prefixLen <= (if range.prefix.V4? then 32 else 128)
    && range.text == text
  }

  /** A text parses as a range exactly if it spells it. */
  lemma {:induction false} ParsesExactly(text: string, parse: string -> Option<Address>, range: CidrRange)
    ensures ParseCidr(text, parse) == Some(range) <==> exists at :: 0 <= at < |text| && Spells(text, at, parse, range)
  {
    var i := IndexOfSlash(text, 0);
    if i < |text| && ParseCidr(text, parse) == Some(range) { assert Spells(text, i, parse, range); }
    if at :| 0 <= at < |text| && Spells(text, at, parse, range) { assert i == at; }
  }
}
