/**
 Unpadded base64url, section 5 of RFC 4648, as the WebAuthn endpoints use it.  Both
 directions are specified by the bits they carry: `Encodes` and `Decodes` say which, and
 the two methods, with their 24-bit chunks and the 32-bit accumulator that is never
 masked, are proved to produce exactly that.
 */
module Base64Url {
  import opened Prelude
  import opened Words

  const UPPER := "ABCDEFGHIJKLMNOPQRSTUVWXYZ"
  const LOWER := "abcdefghijklmnopqrstuvwxyz"
  const OTHERS := "0123456789-_"
  const ALPHABET := UPPER + LOWER + OTHERS

  /** The value of a character, -1 outside the alphabet. */
  function CharValue(c: char): int {
    if 'A' <= c <= 'Z' then c as int - 'A' as int
    else if 'a' <= c <= 'z' then c as int - 'a' as int + 26
    else if '0' <= c <= '9' then c as int - '0' as int + 52
    else if c == '-' then 62 else if c == '_' then 63 else -1
  }

  lemma {:induction false} UpperValue(i: nat)
    requires i < 26
    ensures CharValue(UPPER[i]) == i
  {
  }

  lemma {:induction false} LowerValue(i: nat)
    requires i < 26
    ensures CharValue(LOWER[i]) == i + 26
  {
  }

  lemma {:induction false} OtherValue(i: nat)
    requires i < 12
    ensures CharValue(OTHERS[i]) == i + 52
  {
  }

  lemma {:induction false} AlphabetValue(i: nat)
    requires i < 64
    ensures CharValue(ALPHABET[i]) == i
  {
    if i < 26 { UpperValue(i); } else if i < 52 { LowerValue(i - 26); } else { OtherValue(i - 52); }
  }

  /** Text as the server holds it: one byte per character. */
  ghost predicate Octets(text: string) {
    forall i :: 0 <= i < |text| ==> text[i] as int < 256
  }

  predicate InAlphabet(text: string) {
    forall i :: 0 <= i < |text| ==> CharValue(text[i]) >= 0
  }

  function Values(text: string): seq<int> {
    seq(|text|, i requires 0 <= i < |text| => CharValue(text[i]))
  }

  /** The alphabet characters of `text` carry the bits of `data`, and zeros to fill the last character. */
  ghost predicate Encodes(data: seq<int>, text: string) {
    && InAlphabet(text)
    && |text| == (8 * |data| + 5) / 6
    && Stream(Values(text), 6) == Stream(data, 8) + Zeros(6 * |text| - 8 * |data|)
  }

  /** `data` is the whole bytes among the bits carried by `text`. */
  ghost predicate Decodes(text: string, data: seq<int>) {
    && InAlphabet(text)
    && Within(data, 8)
    && |data| == 6 * |text| / 8
    && 8 * |data| <= |Stream(Values(text), 6)|
    && Stream(data, 8) == Stream(Values(text), 6)[..8 * |data|]
  }

  predicate Acceptable(text: string) {
    InAlphabet(text) && |text| % 4 != 1
  }

  // ------------------------------------------------------------------ the methods

  function Sextet(chunk: int, shift: nat): nat {
    And(Shr(chunk, shift), 0x3F)
  }

  lemma {:induction false} SextetBits(chunk: int, shift: nat)
    ensures Sextet(chunk, shift) < 64
    ensures Bits(chunk, 6 + shift) == Bits(Sextet(chunk, shift), 6) + Bits(chunk, shift)
  {
    assert Pow2(6) == 64;
    Emit(chunk, 6, shift);
  }

  function Pick(chunk: int, shift: nat): char {
    SextetBits(chunk, shift);
    ALPHABET[Sextet(chunk, shift)]
  }

  /** The characters so far, followed by the low `left` bits of the chunk, make up `target`. */
  ghost predicate Pending(text: string, chunk: int, left: nat, target: seq<bool>) {
    InAlphabet(text) && Stream(Values(text), 6) + Bits(chunk, left) == target
  }

  /** One more character takes over the next six bits of the chunk. */
  lemma {:induction false} PushChar(text: string, chunk: int, shift: nat, target: seq<bool>)
    requires Pending(text, chunk, 6 + shift, target)
    ensures Pending(text + [Pick(chunk, shift)], chunk, shift, target)
  {
    var v := Sextet(chunk, shift);
    SextetBits(chunk, shift);
    AlphabetValue(v);
    assert Values(text + [ALPHABET[v]]) == Values(text) + [v];
    StreamSnoc(Values(text), v, 6);
    Assoc(Stream(Values(text), 6), Bits(v, 6), Bits(chunk, shift));
  }

  /** The first two, three or four characters of a chunk. */
  lemma {:induction false} PushTwo(text: string, chunk: int, target: seq<bool>)
    requires Pending(text, chunk, 24, target)
    ensures Pending(text + [Pick(chunk, 18)] + [Pick(chunk, 12)], chunk, 12, target)
  {
    PushChar(text, chunk, 18, target);
    PushChar(text + [Pick(chunk, 18)], chunk, 12, target);
  }

  lemma {:induction false} PushThree(text: string, chunk: int, target: seq<bool>)
    requires Pending(text, chunk, 24, target)
    ensures Pending(text + [Pick(chunk, 18)] + [Pick(chunk, 12)] + [Pick(chunk, 6)], chunk, 6, target)
  {
    PushTwo(text, chunk, target);
    PushChar(text + [Pick(chunk, 18)] + [Pick(chunk, 12)], chunk, 6, target);
  }

  lemma {:induction false} PushFour(text: string, chunk: int, target: seq<bool>)
    requires Pending(text, chunk, 24, target)
    ensures Pending(text + [Pick(chunk, 18)] + [Pick(chunk, 12)] + [Pick(chunk, 6)] + [Pick(chunk, 0)], chunk, 0, target)
  {
    PushThree(text, chunk, target);
    PushChar(text + [Pick(chunk, 18)] + [Pick(chunk, 12)] + [Pick(chunk, 6)], chunk, 0, target);
  }

  function Chunk(a: nat, b: nat, c: nat): int {
    Or(Or(Shl(a, 16), Shl(b, 8)), c)
  }

  lemma {:induction false} ChunkBits(a: nat, b: nat, c: nat)
    requires a < Pow2(8) && b < Pow2(8) && c < Pow2(8)
    ensures Bits(Chunk(a, b, c), 24) == Bits(a, 8) + Bits(b, 8) + Bits(c, 8)
  {
    ShlShl(a, 8, 8);
    OrShl(Shl(a, 8), b, 8);
    BitsPush(a, b, 8, 8);
    BitsPush(Or(Shl(a, 8), b), c, 16, 8);
  }

  method Encode(data: seq<int>) returns (text: string)
    requires Within(data, 8)
    ensures Encodes(data, text)
  {
    text := "";
    var i := 0;
    while i + 3 <= |data|
      invariant 0 <= i <= |data| && 3 * |text| == 4 * i
      invariant Carried(data, i, text)
    {
      var chunk := Chunk(data[i], data[i + 1], data[i + 2]);
      ThreeBytes(data, i, text);
      text := text + [Pick(chunk, 18)];
      text := text + [Pick(chunk, 12)];
      text := text + [Pick(chunk, 6)];
      text := text + [Pick(chunk, 0)];
      i := i + 3;
    }
    var remaining := |data| - i;
    if remaining == 1 {
      var chunk := Shl(data[i], 16);
      LastByte(data, i, text);
      text := text + [Pick(chunk, 18)];
      text := text + [Pick(chunk, 12)];
    } else if remaining == 2 {
      var chunk := Or(Shl(data[i], 16), Shl(data[i + 1], 8));
      LastTwoBytes(data, i, text);
      text := text + [Pick(chunk, 18)];
      text := text + [Pick(chunk, 12)];
      text := text + [Pick(chunk, 6)];
    } else {
      NoByte(data, text);
    }
  }

  /** The text so far carries the first `i` bytes. */
  ghost predicate Carried(data: seq<int>, i: nat, text: string) {
    i <= |data| && InAlphabet(text) && Stream(Values(text), 6) == Stream(data[..i], 8)
  }

  lemma {:induction false} NoByte(data: seq<int>, text: string)
    requires Carried(data, |data|, text) && 3 * |text| == 4 * |data|
    ensures Encodes(data, text)
  {
    assert data[..|data|] == data;
    assert Stream(data, 8) + Zeros(0) == Stream(data, 8);
  }

  lemma {:induction false} NextByte(data: seq<int>, i: nat)
    requires i < |data|
    ensures Stream(data[..i + 1], 8) == Stream(data[..i], 8) + Bits(data[i], 8)
  {
    assert data[..i + 1] == data[..i] + [data[i]];
    StreamSnoc(data[..i], data[i], 8);
  }

  lemma {:induction false} NextThree(data: seq<int>, i: nat)
    requires i + 3 <= |data|
    ensures Stream(data[..i + 3], 8) == Stream(data[..i], 8) + (Bits(data[i], 8) + Bits(data[i + 1], 8) + Bits(data[i + 2], 8))
  {
    NextByte(data, i);
    NextByte(data, i + 1);
    NextByte(data, i + 2);
    Assoc(Stream(data[..i], 8), Bits(data[i], 8), Bits(data[i + 1], 8));
    Assoc(Stream(data[..i], 8), Bits(data[i], 8) + Bits(data[i + 1], 8), Bits(data[i + 2], 8));
  }

  lemma {:induction false} ThreeBytes(data: seq<int>, i: nat, text: string)
    requires Within(data, 8) && i + 3 <= |data| && Carried(data, i, text)
    ensures var chunk := Chunk(data[i], data[i + 1], data[i + 2]);
            Carried(data, i + 3, text + [Pick(chunk, 18)] + [Pick(chunk, 12)] + [Pick(chunk, 6)] + [Pick(chunk, 0)])
  {
    var chunk := Chunk(data[i], data[i + 1], data[i + 2]);
    PushFour(text, chunk, Stream(data[..i], 8) + Bits(chunk, 24));
    ChunkBits(data[i], data[i + 1], data[i + 2]);
    NextThree(data, i);
    var after := text + [Pick(chunk, 18)] + [Pick(chunk, 12)] + [Pick(chunk, 6)] + [Pick(chunk, 0)];
    assert Stream(Values(after), 6) + Bits(chunk, 0) == Stream(Values(after), 6);
  }

  lemma {:induction false} LastByte(data: seq<int>, i: nat, text: string)
    requires Within(data, 8) && i + 1 == |data| && 3 * |text| == 4 * i && Carried(data, i, text)
    ensures var chunk := Shl(data[i], 16); Encodes(data, text + [Pick(chunk, 18)] + [Pick(chunk, 12)])
  {
    var chunk := Shl(data[i], 16);
    var after := text + [Pick(chunk, 18)] + [Pick(chunk, 12)];
    PushTwo(text, chunk, Stream(data[..i], 8) + Bits(chunk, 24));
    ShlZeros(data[i], 8, 16);
    NextByte(data, i);
    assert data[..i + 1] == data;
    Assoc(Stream(data[..i], 8), Bits(data[i], 8), Zeros(16));
    StreamLength(Values(after), 6);
    StreamLength(data, 8);
    FirstBits(Stream(Values(after), 6), Bits(chunk, 12), Stream(data, 8), 16, 4);
  }

  lemma {:induction false} LastTwoBytes(data: seq<int>, i: nat, text: string)
    requires Within(data, 8) && i + 2 == |data| && 3 * |text| == 4 * i && Carried(data, i, text)
    ensures var chunk := Or(Shl(data[i], 16), Shl(data[i + 1], 8));
            Encodes(data, text + [Pick(chunk, 18)] + [Pick(chunk, 12)] + [Pick(chunk, 6)])
  {
    var chunk := Or(Shl(data[i], 16), Shl(data[i + 1], 8));
    var after := text + [Pick(chunk, 18)] + [Pick(chunk, 12)] + [Pick(chunk, 6)];
    PushThree(text, chunk, Stream(data[..i], 8) + Bits(chunk, 24));
    TwoByteChunk(data[i], data[i + 1]);
    NextTwo(data, i);
    Assoc(Stream(data[..i], 8), Bits(data[i], 8) + Bits(data[i + 1], 8), Zeros(8));
    StreamLength(Values(after), 6);
    StreamLength(data, 8);
    FirstBits(Stream(Values(after), 6), Bits(chunk, 6), Stream(data, 8), 8, 2);
  }

  lemma {:induction false} NextTwo(data: seq<int>, i: nat)
    requires i + 2 == |data|
    ensures Stream(data, 8) == Stream(data[..i], 8) + (Bits(data[i], 8) + Bits(data[i + 1], 8))
  {
    NextByte(data, i);
    NextByte(data, i + 1);
    assert data[..i + 2] == data;
    Assoc(Stream(data[..i], 8), Bits(data[i], 8), Bits(data[i + 1], 8));
  }

  lemma {:induction false} TwoByteChunk(a: nat, b: nat)
    requires a < Pow2(8) && b < Pow2(8)
    ensures Bits(Or(Shl(a, 16), Shl(b, 8)), 24) == Bits(a, 8) + Bits(b, 8) + Zeros(8)
  {
    ShlShl(a, 8, 8);
    OrShl(Shl(a, 8), b, 8);
    BitsPush(a, b, 8, 8);
    ShlZeros(Or(Shl(a, 8), b), 16, 8);
  }

  /** Cutting `b + zeros` elsewhere leaves zeros behind `b`. */
  lemma {:induction false} FirstBits(a1: seq<bool>, a2: seq<bool>, b: seq<bool>, zeros: nat, kept: nat)
    requires a1 + a2 == b + Zeros(zeros) && |a1| == |b| + kept && kept <= zeros
    ensures a1 == b + Zeros(kept)
  {
    assert a1 == (a1 + a2)[..|a1|] == (b + Zeros(zeros))[..|b| + kept];
  }

  /** The table of the decoder. */
  method BuildDecodeTable() returns (table: array<int>)
    ensures fresh(table) && table.Length == 256
    ensures forall c: char :: c as int < 256 ==> table[c as int] == CharValue(c)
  {
    table := new int[256](_ => -1);
    for i := 0 to 64
      invariant forall c: char :: c as int < 256 ==> table[c as int] == if CharValue(c) < i then CharValue(c) else -1
    {
      AlphabetValue(i);
      AlphabetIsOctet(i);
      OnlyOneChar(i);
      table[ALPHABET[i] as int] := i;
    }
  }

  lemma {:induction false} AlphabetIsOctet(i: nat)
    requires i < 64
    ensures ALPHABET[i] as int < 256
  {
    AlphabetValue(i);
  }

  lemma {:induction false} OnlyOneChar(i: nat)
    requires i < 64
    ensures forall c: char :: CharValue(c) == i <==> c == ALPHABET[i]
  {
    AlphabetValue(i);
    assert ALPHABET[i] as int < 128;
  }

  method Decode(text: string) returns (result: Result<seq<int>>)
    requires Octets(text)
    ensures result.Ok? <==> Acceptable(text)
    ensures result.Ok? ==> Decodes(text, result.value)
    ensures result == Err("base64url input must not be padded") <==> '=' in text
    ensures result == Err("invalid base64url length") <==> '=' !in text && |text| % 4 == 1
    ensures result == Err("invalid base64url character") <==> '=' !in text && |text| % 4 != 1 && !InAlphabet(text)
  {
    if '=' in text {
      PaddedIsRefused(text);
      return Err("base64url input must not be padded");
    }
    if |text| % 4 == 1 {
      return Err("invalid base64url length");
    }
    var ok, out := DecodeCharacters(text);
    if !ok {
      return Err("invalid base64url character");
    }
    return Ok(out);
  }

  /** The accumulator loop of the decoder. */
  method DecodeCharacters(text: string) returns (ok: bool, out: seq<int>)
    requires Octets(text)
    ensures ok <==> InAlphabet(text)
    ensures ok ==> Decodes(text, out)
  {
    var table := BuildDecodeTable();
    out := [];
    ghost var taken: seq<int> := [];
    var buffer: int := 0;
    var bits: nat := 0;
    NothingYet(6, 8);
    for i := 0 to |text|
      modifies {}
      invariant bits <= 6 && bits % 2 == 0
      invariant Spelled(text, i, taken)
      invariant Regrouped(taken, 6, out, 8, buffer, bits)
    {
      var value := table[text[i] as int];
      if value < 0 {
        BadCharacterIsRefused(text, i);
        return false, out;
      }
      SpellNext(text, i, taken);
      out, buffer, bits := TakeSextet(value, out, buffer, bits, taken);
      taken := taken + [value];
    }
    WholeBytes(text, taken, out, buffer, bits);
    return true, out;
  }

  /** The body of that loop: shift six bits in and, when there are eight, a byte out. */
  method TakeSextet(value: nat, out0: seq<int>, buffer0: int, bits0: nat, ghost taken: seq<int>)
    returns (out: seq<int>, buffer: int, bits: nat)
    requires bits0 <= 6 && bits0 % 2 == 0 && value < Pow2(6) && Pow2(8) == 256
    requires Regrouped(taken, 6, out0, 8, buffer0, bits0)
    ensures bits <= 6 && bits % 2 == 0 && Regrouped(taken + [value], 6, out, 8, buffer, bits)
  {
    buffer := ShiftIn(buffer0, 6, value, taken, out0, 8, bits0);
    bits := bits0 + 6;
    out := out0;
    if bits >= 8 {
      bits := bits - 8;
      var byte := ShiftOut(buffer, bits, 0xFF, taken + [value], 6, out, 8);
      out := out + [byte];
    }
  }

  /** `taken` are the values of the first `i` characters. */
  ghost predicate Spelled(text: string, i: nat, taken: seq<int>) {
    |taken| == i <= |text| && forall k :: 0 <= k < i ==> taken[k] == CharValue(text[k]) >= 0
  }

  lemma {:induction false} SpellNext(text: string, i: nat, taken: seq<int>)
    requires i < |text| && Spelled(text, i, taken) && CharValue(text[i]) >= 0
    ensures Spelled(text, i + 1, taken + [CharValue(text[i])])
    ensures CharValue(text[i]) < Pow2(6) && Pow2(8) == 256
  {
    assert Pow2(6) == 64;
  }

  lemma {:induction false} PaddedIsRefused(text: string)
    requires '=' in text
    ensures !InAlphabet(text)
  {
    var i :| 0 <= i < |text| && text[i] == '=';
    BadCharacterIsRefused(text, i);
  }

  lemma {:induction false} BadCharacterIsRefused(text: string, i: nat)
    requires i < |text| && CharValue(text[i]) < 0
    ensures !InAlphabet(text)
  {
  }

  lemma {:induction false} WholeBytes(text: string, taken: seq<int>, out: seq<int>, buffer: int, bits: nat)
    requires Spelled(text, |text|, taken) && bits < 8 && Regrouped(taken, 6, out, 8, buffer, bits)
    ensures Decodes(text, out)
  {
    assert taken == Values(text);
    StreamLength(out, 8);
    assert Stream(out, 8) == (Stream(out, 8) + Bits(buffer, bits))[..8 * |out|];
  }

  // ------------------------------------------------------------------ the laws

  lemma {:induction false} ValuesWithin(text: string)
    requires InAlphabet(text)
    ensures Within(Values(text), 6)
  {
    assert Pow2(6) == 64;
  }

  /** A byte string has one encoding, a text at most one decoding. */
  lemma {:induction false} CodesAreUnique(data: seq<int>, text1: string, text2: string, data1: seq<int>, data2: seq<int>)
    ensures Encodes(data, text1) && Encodes(data, text2) ==> text1 == text2
    ensures Decodes(text1, data1) && Decodes(text1, data2) ==> data1 == data2
  {
    if Encodes(data, text1) && Encodes(data, text2) { SameText(text1, text2); }
    if Decodes(text1, data1) && Decodes(text1, data2) { StreamInjective(data1, data2, 8); }
  }

  lemma {:induction false} SameText(text1: string, text2: string)
    requires InAlphabet(text1) && InAlphabet(text2) && |text1| == |text2| && Stream(Values(text1), 6) == Stream(Values(text2), 6)
    ensures text1 == text2
  {
    ValuesWithin(text1);
    ValuesWithin(text2);
    StreamInjective(Values(text1), Values(text2), 6);
    forall i | 0 <= i < |text1| ensures text1[i] == text2[i] {
      assert Values(text1)[i] == Values(text2)[i];
      SameValueSameChar(text1[i], text2[i]);
    }
  }

  lemma {:induction false} SameValueSameChar(c: char, d: char)
    requires CharValue(c) == CharValue(d) >= 0
    ensures c == d
  {
    OnlyOneChar(CharValue(c));
  }

  /** Encoding and decoding again gives back the bytes. */
  lemma {:induction false} DecodeOfEncode(data: seq<int>, text: string)
    requires Within(data, 8) && Encodes(data, text)
    ensures Acceptable(text) && Decodes(text, data)
  {
    StreamLength(data, 8);
    assert Stream(data, 8) == (Stream(data, 8) + Zeros(6 * |text| - 8 * |data|))[..8 * |data|];
  }

  /** The bits of the last character that belong to no byte. */
  ghost function SpareBits(text: string): seq<bool>
    requires InAlphabet(text)
  {
    StreamLength(Values(text), 6);
    Stream(Values(text), 6)[8 * (6 * |text| / 8)..]
  }

  /** Decoding and encoding again gives back the text exactly when its spare bits are zero. */
  lemma {:induction false} EncodeOfDecode(text: string, data: seq<int>, again: string)
    requires Acceptable(text) && Decodes(text, data) && Encodes(data, again)
    ensures again == text <==> SpareBits(text) == Zeros(|SpareBits(text)|)
  {
    var spare := SpareBits(text);
    StreamLength(Values(text), 6);
    StreamLength(data, 8);
    assert Stream(Values(text), 6) == Stream(data, 8) + spare;
    SameLength(|data|, |again|, |text|);
    if spare == Zeros(|spare|) { SameText(again, text); }
    if again == text { SplitEqual(Stream(data, 8), spare, Stream(data, 8), Zeros(6 * |text| - 8 * |data|)); }
  }

  lemma {:induction false} SameLength(bytes: nat, written: nat, read: nat)
    requires written == (8 * bytes + 5) / 6 && bytes == 6 * read / 8 && read % 4 != 1
    ensures written == read
  {
    var j := read / 4;
    if read % 4 == 0 {
      assert bytes == 3 * j;
    } else if read % 4 == 2 {
      assert bytes == 3 * j + 1;
    } else {
      assert read == 4 * j + 3 && bytes == 3 * j + 2;
    }
  }

  /** The two methods one after the other. */
  method RoundTrip(data: seq<int>) returns (result: Result<seq<int>>)
    requires Within(data, 8)
    ensures result == Ok(data)
  {
    var text := Encode(data);
    DecodeOfEncode(data, text);
    assert Octets(text) by {
      forall i | 0 <= i < |text| ensures text[i] as int < 256 { assert CharValue(text[i]) >= 0; }
    }
    result := Decode(text);
    CodesAreUnique(data, text, text, data, result.value);
  }

  /** The table of section 5 of RFC 4648, and nothing else is in the alphabet. */
  lemma {:induction false} AlphabetIsTheTable(c: char, i: nat)
    requires i < 64
    ensures CharValue(c) == i <==>
              c == if i < 26 then "ABCDEFGHIJKLMNOPQRSTUVWXYZ"[i] else if i < 52 then "abcdefghijklmnopqrstuvwxyz"[i - 26] else "0123456789-_"[i - 52]
  {
    if i < 26 { UpperValue(i); } else if i < 52 { LowerValue(i - 26); } else { OtherValue(i - 52); }
    if CharValue(c) == i { OnlyOneValue(c, i); }
  }

  lemma {:induction false} OnlyOneValue(c: char, i: nat)
    requires i < 64 && CharValue(c) == i
    ensures c == ALPHABET[i]
  {
    AlphabetValue(i);
    SameValueSameChar(c, ALPHABET[i]);
  }
}
