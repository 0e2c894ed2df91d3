/**
 Machine words as integers.  The operators are defined bit by bit, on two's complement
 numbers of any width: `And` and `Or`, a shift left that doubles, a shift right that halves
 and rounds down, and `U32` and `S32`, which wrap to 32 bits.  `Bits` spells a number
 out, most significant bit first, and is what the codecs are compared by.
 */
module Words {
  import opened Prelude

  function Pow2(k: nat): (p: nat)
    ensures p > 0
  {
    if k == 0 then 1 else 2 * Pow2(k - 1)
  }

  function And(x: int, mask: nat): nat
    decreases mask
  {
    if mask == 0 then 0 else 2 * And(x / 2, mask / 2) + (x % 2) * (mask % 2)
  }

  function Or(x: int, y: nat): int
    decreases y
  {
    if y == 0 then x else 2 * Or(x / 2, y / 2) + if x % 2 == 1 || y % 2 == 1 then 1 else 0
  }

  function Shl(x: int, k: nat): (r: int)
    ensures 0 <= x ==> 0 <= r
    decreases k
  {
    if k == 0 then x else 2 * Shl(x, k - 1)
  }

  function Shr(x: int, k: nat): int
    decreases k
  {
    if k == 0 then x else Shr(x / 2, k - 1)
  }

  /** The low `k` bits as an unsigned number. */
  function Low(x: int, k: nat): (r: nat)
    ensures r < Pow2(k)
    decreases k
  {
    if k == 0 then 0 else 2 * Low(x / 2, k - 1) + x % 2
  }

  const TWO_32 := 0x1_0000_0000

  function U32(x: int): nat {
    x % TWO_32
  }

  function S32(x: int): int {
    (x + 0x8000_0000) % TWO_32 - 0x8000_0000
  }

  /** The low `w` bits of `x`, most significant first. */
  function Bits(x: int, w: nat): (r: seq<bool>)
    ensures |r| == w
  {
    seq(w, i requires 0 <= i < w => Shr(x, w - 1 - i) % 2 == 1)
  }

  function Zeros(n: nat): (r: seq<bool>)
    ensures |r| == n
  {
    seq(n, _ => false)
  }

  /** The bits of a whole sequence of `w`-bit numbers. */
  function Stream(xs: seq<int>, w: nat): seq<bool> {
    if xs == [] then [] else Stream(Front(xs), w) + Bits(Last(xs), w)
  }

  ghost predicate Within(xs: seq<int>, w: nat) {
    forall i :: 0 <= i < |xs| ==> 0 <= xs[i] < Pow2(w)
  }

  // ------------------------------------------------------------------ operators

  /** The usual masks keep the low bits. */
  lemma {:induction false} AndMask(x: int, k: nat)
    ensures And(x, Pow2(k) - 1) == Low(x, k)
    decreases k
  {
    if k > 0 {
      AndMask(x / 2, k - 1);
      assert (Pow2(k) - 1) / 2 == Pow2(k - 1) - 1 && (Pow2(k) - 1) % 2 == 1;
    }
  }

  /** A number shifted left leaves room for `k` new bits. */
  lemma {:induction false} OrFills(x: int, y: nat, k: nat)
    requires y < Pow2(k)
    ensures Or(Shl(x, k), y) == Shl(x, k) + y
    decreases k
  {
    if y > 0 { OrFills(x, y / 2, k - 1); }
  }

  lemma {:induction false} LowOfSmall(x: nat, k: nat)
    requires x < Pow2(k)
    ensures Low(x, k) == x
    decreases k
  {
    if k > 0 { LowOfSmall(x / 2, k - 1); }
  }

  // ------------------------------------------------------------------ bits

  lemma {:induction false} BitsStep(x: int, w: nat)
    requires w > 0
    ensures Bits(x, w) == Bits(x / 2, w - 1) + [x % 2 == 1]
  {
    forall i | 0 <= i < w - 1 ensures Bits(x, w)[i] == Bits(x / 2, w - 1)[i] {
      assert Shr(x, w - 1 - i) == Shr(x / 2, w - 2 - i);
    }
    assert Shr(x, 0) == x;
  }

  lemma {:induction false} ZerosStep(n: nat)
    ensures Zeros(n + 1) == Zeros(n) + [false]
  {
  }

  lemma {:induction false} BitsSplit(x: int, m: nat, n: nat)
    ensures Bits(x, m + n) == Bits(Shr(x, n), m) + Bits(x, n)
    decreases n
  {
    if n > 0 {
      BitsStep(x, m + n);
      BitsStep(x, n);
      BitsSplit(x / 2, m, n - 1);
      assert Bits(Shr(x, n), m) + Bits(x / 2, n - 1) + [x % 2 == 1] == Bits(Shr(x, n), m) + Bits(x, n);
    }
  }

  /** Whatever happens above the low `v` bits does not matter to them. */
  lemma {:induction false} BitsOfLow(x: int, w: nat, v: nat)
    requires w <= v
    ensures Bits(Low(x, v), w) == Bits(x, w)
    decreases w
  {
    if w > 0 {
      BitsStep(x, w);
      BitsStep(Low(x, v), w);
      BitsOfLow(x / 2, w - 1, v - 1);
    }
  }

  lemma {:induction false} BitsOfMasked(x: int, k: nat)
    ensures Bits(And(x, Pow2(k) - 1), k) == Bits(x, k)
  {
    AndMask(x, k);
    BitsOfLow(x, k, k);
  }

  lemma {:induction false} BitsPlusMultiple(x: int, q: int, w: nat)
    ensures Bits(x + Shl(q, w), w) == Bits(x, w)
    decreases w
  {
    if w > 0 {
      BitsStep(x, w);
      BitsStep(x + Shl(q, w), w);
      assert (x + Shl(q, w)) / 2 == x / 2 + Shl(q, w - 1);
      BitsPlusMultiple(x / 2, q, w - 1);
    }
  }

  lemma {:induction false} ShlShl(q: int, a: nat, b: nat)
    ensures Shl(Shl(q, a), b) == Shl(q, a + b)
    decreases b
  {
    if b > 0 { ShlShl(q, a, b - 1); }
  }

  lemma {:induction false} Shl32(q: int)
    ensures Shl(q, 32) == q * TWO_32
  {
    assert Shl(q, 8) == q * 256;
    ShlShl(q, 8, 8);
    assert Shl(Shl(q, 8), 8) == Shl(q, 8) * 256;
    ShlShl(q, 16, 16);
    ShlShl(Shl(q, 16), 8, 8);
    assert Shl(Shl(Shl(q, 16), 8), 8) == Shl(q, 16) * 65536;
  }

  lemma {:induction false} WholeWords(x: int, q: int, w: nat)
    requires w <= 32
    ensures Bits(x + q * TWO_32, w) == Bits(x, w)
  {
    WordAsShl(q, w, 32 - w);
    BitsPlusMultiple(x, Shl(q, 32 - w), w);
  }

  /** Neither does wrapping to 32 bits, in either signedness. */
  lemma {:induction false} WrapKeepsLowBits(x: int, w: nat)
    requires w <= 32
    ensures Bits(U32(x), w) == Bits(x, w) && Bits(S32(x), w) == Bits(x, w)
  {
    WholeWords(x, -(x / TWO_32), w);
    WholeWords(x, -((x + 0x8000_0000) / TWO_32), w);
  }

  /** Shifting in `n` new bits appends them. */
  lemma {:induction false} BitsPush(x: int, y: nat, m: nat, n: nat)
    requires y < Pow2(n)
    ensures Bits(Or(Shl(x, n), y), m + n) == Bits(x, m) + Bits(y, n)
  {
    OrFills(x, y, n);
    BitsOfSum(x, y, m, n);
  }

  lemma {:induction false} BitsOfSum(x: int, y: nat, m: nat, n: nat)
    requires y < Pow2(n)
    ensures Bits(Shl(x, n) + y, m + n) == Bits(x, m) + Bits(y, n)
    decreases n
  {
    if n > 0 {
      var z := Shl(x, n) + y;
      assert z / 2 == Shl(x, n - 1) + y / 2 && z % 2 == y % 2;
      BitsStep(z, m + n);
      BitsStep(y, n);
      BitsOfSum(x, y / 2, m, n - 1);
      assert Bits(x, m) + Bits(y / 2, n - 1) + [y % 2 == 1] == Bits(x, m) + Bits(y, n);
    }
  }

  lemma {:induction false} BitsInjective(x: nat, y: nat, w: nat)
    requires x < Pow2(w) && y < Pow2(w) && Bits(x, w) == Bits(y, w)
    ensures x == y
    decreases w
  {
    if w > 0 {
      BitsStep(x, w);
      BitsStep(y, w);
      SplitEqual(Bits(x / 2, w - 1), [x % 2 == 1], Bits(y / 2, w - 1), [y % 2 == 1]);
      assert [x % 2 == 1][0] == [y % 2 == 1][0];
      BitsInjective(x / 2, y / 2, w - 1);
    }
  }

  lemma {:induction false} ShlZeros(x: int, m: nat, n: nat)
    ensures Bits(Shl(x, n), m + n) == Bits(x, m) + Zeros(n)
    decreases n
  {
    if n > 0 {
      BitsStep(Shl(x, n), m + n);
      ZerosStep(n - 1);
      ShlZeros(x, m, n - 1);
      assert Bits(x, m) + Zeros(n - 1) + [false] == Bits(x, m) + Zeros(n);
    }
  }

  lemma {:induction false} OrShl(x: int, y: nat, k: nat)
    ensures Or(Shl(x, k), Shl(y, k)) == Shl(Or(x, y), k)
    decreases k
  {
    if k > 0 { OrShl(x, y, k - 1); }
  }

  /** An accumulator takes in `n` new bits; the shift's wrap to 32 bits loses none of the `m` that are still to come out. */
  lemma {:induction false} Absorb(buffer: int, y: nat, m: nat, n: nat)
    requires y < Pow2(n) && m + n <= 32
    ensures Bits(Or(U32(Shl(buffer, n)), y), m + n) == Bits(buffer, m) + Bits(y, n)
    ensures Bits(Or(S32(Shl(buffer, n)), y), m + n) == Bits(buffer, m) + Bits(y, n)
  {
    var x := Shl(buffer, n);
    AbsorbWord(buffer, U32(x), -(x / TWO_32), y, m, n);
    AbsorbWord(buffer, S32(x), -((x + 0x8000_0000) / TWO_32), y, m, n);
  }

  lemma {:induction false} AbsorbWord(buffer: int, wrapped: int, q: int, y: nat, m: nat, n: nat)
    requires y < Pow2(n) && m + n <= 32 && wrapped == Shl(buffer, n) + q * TWO_32
    ensures Bits(Or(wrapped, y), m + n) == Bits(buffer, m) + Bits(y, n)
  {
    var k := 32 - n;
    WordAsShl(q, n, k);
    ShiftedWrap(buffer, wrapped, q, m, n, k);
    BitsPush(buffer + Shl(q, k), y, m, n);
  }

  lemma {:induction false} ShiftedWrap(buffer: int, wrapped: int, q: int, m: nat, n: nat, k: nat)
    requires m <= k && wrapped == Shl(buffer, n) + Shl(Shl(q, k), n)
    ensures wrapped == Shl(buffer + Shl(q, k), n) && Bits(buffer + Shl(q, k), m) == Bits(buffer, m)
  {
    ShlAdd(buffer, Shl(q, k), n);
    HighBitsDoNotReach(buffer, q, k, m);
  }

  lemma {:induction false} HighBitsDoNotReach(buffer: int, q: int, k: nat, m: nat)
    requires m <= k
    ensures Bits(buffer + Shl(q, k), m) == Bits(buffer, m)
  {
    ShlShl(q, k - m, m);
    BitsPlusMultiple(buffer, Shl(q, k - m), m);
  }

  lemma {:induction false} WordAsShl(q: int, n: nat, k: nat)
    requires n + k == 32
    ensures q * TWO_32 == Shl(Shl(q, k), n)
  {
    Shl32(q);
    ShlShl(q, k, n);
  }

  lemma {:induction false} ShlAdd(x: int, y: int, k: nat)
    ensures Shl(x, k) + Shl(y, k) == Shl(x + y, k)
    decreases k
  {
    if k > 0 { ShlAdd(x, y, k - 1); }
  }

  /** The accumulator gives out the `v` bits above its low `n`. */
  lemma {:induction false} Emit(x: int, v: nat, n: nat)
    ensures Bits(x, v + n) == Bits(And(Shr(x, n), Pow2(v) - 1), v) + Bits(x, n)
    ensures And(Shr(x, n), Pow2(v) - 1) < Pow2(v)
  {
    BitsSplit(x, v, n);
    BitsOfMasked(Shr(x, n), v);
    AndMask(Shr(x, n), v);
  }

  // ------------------------------------------------------------------ streams

  lemma {:induction false} StreamSnoc(xs: seq<int>, x: int, w: nat)
    ensures Stream(xs + [x], w) == Stream(xs, w) + Bits(x, w)
  {
    assert Front(xs + [x]) == xs;
  }

  lemma {:induction false} StreamLength(xs: seq<int>, w: nat)
    ensures |Stream(xs, w)| == |xs| * w
  {
    if xs != [] {
      StreamLength(Front(xs), w);
      assert |xs| * w == (|xs| - 1) * w + w;
    }
  }

  lemma {:induction false} SplitEqual<T>(a1: seq<T>, a2: seq<T>, b1: seq<T>, b2: seq<T>)
    requires a1 + a2 == b1 + b2 && |a1| == |b1|
    ensures a1 == b1 && a2 == b2
  {
    assert a1 == (a1 + a2)[..|a1|] && b1 == (b1 + b2)[..|b1|];
    assert a2 == (a1 + a2)[|a1|..] && b2 == (b1 + b2)[|b1|..];
  }

  /** Two sequences of numbers below `2^w` with the same bits are the same. */
  lemma {:induction false} StreamInjective(xs: seq<int>, ys: seq<int>, w: nat)
    requires Within(xs, w) && Within(ys, w) && |xs| == |ys| && Stream(xs, w) == Stream(ys, w)
    ensures xs == ys
  {
    if xs != [] {
      StreamTails(xs, ys, w);
      assert Within(Front(xs), w) && Within(Front(ys), w);
      StreamInjective(Front(xs), Front(ys), w);
      SnocEqual(xs, ys);
    }
  }

  lemma {:induction false} SnocEqual<T>(xs: seq<T>, ys: seq<T>)
    requires xs != [] && ys != [] && Front(xs) == Front(ys) && Last(xs) == Last(ys)
    ensures xs == ys
  {
    assert xs == Front(xs) + [Last(xs)] && ys == Front(ys) + [Last(ys)];
  }

  lemma {:induction false} StreamTails(xs: seq<int>, ys: seq<int>, w: nat)
    requires Within(xs, w) && Within(ys, w) && |xs| == |ys| > 0 && Stream(xs, w) == Stream(ys, w)
    ensures Last(xs) == Last(ys) && Stream(Front(xs), w) == Stream(Front(ys), w)
  {
    var x, y := Last(xs), Last(ys);
    StreamLength(Front(xs), w);
    StreamLength(Front(ys), w);
    SplitEqual(Stream(Front(xs), w), Bits(x, w), Stream(Front(ys), w), Bits(y, w));
    assert 0 <= xs[|xs| - 1] < Pow2(w) && 0 <= ys[|ys| - 1] < Pow2(w);
    BitsInjective(x, y, w);
  }

  // ------------------------------------------------------------------ regrouping

  /**
   A shift accumulator half way: the `w`-bit numbers given out so far, followed by the low
   `bits` bits of the accumulator, are the bits of the `n`-bit numbers taken in.
   */
  ghost predicate Regrouped(taken: seq<int>, n: nat, out: seq<int>, w: nat, buffer: int, bits: nat) {
    Within(out, w) && w * |out| + bits == n * |taken| && Stream(out, w) + Bits(buffer, bits) == Stream(taken, n)
  }

  lemma {:induction false} NothingYet(n: nat, w: nat)
    ensures Regrouped([], n, [], w, 0, 0)
  {
  }

  lemma {:induction false} TakeIn(taken: seq<int>, n: nat, out: seq<int>, w: nat, buffer: int, bits: nat, value: nat, next: int)
    requires Regrouped(taken, n, out, w, buffer, bits)
    requires Bits(next, bits + n) == Bits(buffer, bits) + Bits(value, n)
    ensures Regrouped(taken + [value], n, out, w, next, bits + n)
  {
    StreamSnoc(taken, value, n);
    Assoc(Stream(out, w), Bits(buffer, bits), Bits(value, n));
    OneMore(n, |taken|);
  }

  lemma {:induction false} GiveOut(taken: seq<int>, n: nat, out: seq<int>, w: nat, buffer: int, bits: nat, x: nat)
    requires Regrouped(taken, n, out, w, buffer, bits + w) && x < Pow2(w)
    requires Bits(buffer, bits + w) == Bits(x, w) + Bits(buffer, bits)
    ensures Regrouped(taken, n, out + [x], w, buffer, bits)
  {
    StreamSnoc(out, x, w);
    Assoc(Stream(out, w), Bits(x, w), Bits(buffer, bits));
    OneMore(w, |out|);
  }

  lemma {:induction false} OneMore(w: nat, k: nat)
    ensures w * (k + 1) == w * k + w
  {
  }

  /** `buffer = (buffer << n) | value` on an unsigned 32-bit accumulator. */
  method ShiftIn(buffer: int, n: nat, value: nat, ghost taken: seq<int>, ghost out: seq<int>, ghost w: nat, ghost bits: nat)
    returns (next: int)
    requires Regrouped(taken, n, out, w, buffer, bits) && value < Pow2(n) && bits + n <= 32
    ensures Regrouped(taken + [value], n, out, w, next, bits + n)
  {
    next := Or(U32(Shl(buffer, n)), value);
    Absorb(buffer, value, bits, n);
    TakeIn(taken, n, out, w, buffer, bits, value, next);
  }

  /** The same on a signed one. */
  method ShiftInSigned(buffer: int, n: nat, value: nat, ghost taken: seq<int>, ghost out: seq<int>, ghost w: nat, ghost bits: nat)
    returns (next: int)
    requires Regrouped(taken, n, out, w, buffer, bits) && value < Pow2(n) && bits + n <= 32
    ensures Regrouped(taken + [value], n, out, w, next, bits + n)
  {
    next := Or(S32(Shl(buffer, n)), value);
    Absorb(buffer, value, bits, n);
    TakeIn(taken, n, out, w, buffer, bits, value, next);
  }

  /** `(buffer >> bits) & mask`, the next number to come out. */
  method ShiftOut(buffer: int, bits: nat, mask: nat, ghost taken: seq<int>, ghost n: nat, ghost out: seq<int>, ghost w: nat)
    returns (x: nat)
    requires Regrouped(taken, n, out, w, buffer, bits + w) && mask == Pow2(w) - 1
    ensures x <= mask && Regrouped(taken, n, out + [x], w, buffer, bits)
  {
    x := And(Shr(buffer, bits), mask);
    Emit(buffer, w, bits);
    GiveOut(taken, n, out, w, buffer, bits, x);
  }

  lemma {:induction false} Assoc<T>(a: seq<T>, b: seq<T>, c: seq<T>)
    ensures a + (b + c) == a + b + c
  {
  }
}
